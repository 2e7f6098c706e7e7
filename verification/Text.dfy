/** The string operations of the original's library that the services call, and what they do to printed numbers. */
module Text {
  import opened Wrappers

  // ---- strip ----

  predicate Space(c: char) { c == ' ' || '\t' <= c <= '\r' || '\U{1c}' <= c <= '\U{1f}' }

  function StripLeft(s: string): string {
    if s != "" && Space(s[0]) then StripLeft(s[1..]) else s
  }

  function StripRight(s: string): string {
    if s != "" && Space(s[|s| - 1]) then StripRight(s[..|s| - 1]) else s
  }

  /** `str.strip()` over the ASCII white space. */
  function Strip(s: string): string { StripRight(StripLeft(s)) }

  /** Tab to carriage return, the four separators of files, groups, records and units, and the blank. */
  predicate BlankCode(c: char) { 9 <= c as int <= 13 || 28 <= c as int <= 32 }

  /** What is cut off is white space, and what is left has none at its ends. */
  lemma StripIs(s: string) returns (i: nat, j: nat)
    ensures i <= j <= |s| && Strip(s) == s[i..j]
    ensures forall k | 0 <= k < i || j <= k < |s| :: BlankCode(s[k])
    ensures i < j ==> !BlankCode(s[i]) && !BlankCode(s[j - 1])
  {
    assert forall c :: Space(c) <==> BlankCode(c);
    i := StripLeftIs(s);
    j := StripRightIs(s[i..]);
    j := i + j;
  }

  lemma {:induction false} StripLeftIs(s: string) returns (i: nat)
    ensures i <= |s| && StripLeft(s) == s[i..] && (i < |s| ==> !Space(s[i])) && forall k | 0 <= k < i :: Space(s[k])
  {
    i := 0;
    if s != "" && Space(s[0]) {
      i := StripLeftIs(s[1..]);
      assert forall k | 1 <= k < i + 1 :: s[k] == s[1..][k - 1];
      assert s[1..][i..] == s[i + 1..];
      i := i + 1;
    }
  }

  lemma {:induction false} StripRightIs(s: string) returns (j: nat)
    ensures j <= |s| && StripRight(s) == s[..j] && (0 < j ==> !Space(s[j - 1]))
    ensures forall k | j <= k < |s| :: Space(s[k])
    decreases |s|
  {
    j := |s|;
    if s != "" && Space(s[|s| - 1]) {
      j := StripRightIs(s[..|s| - 1]);
      assert s[..|s| - 1][..j] == s[..j];
    } else {
      assert s[..|s|] == s;
    }
  }

  /** `str.rstrip(c)`. */
  function StripEnd(s: string, c: char): string {
    if s != "" && s[|s| - 1] == c then StripEnd(s[..|s| - 1], c) else s
  }

  // ---- split ----

  predicate At(s: string, sep: string, i: nat) { i + |sep| <= |s| && s[i..i + |sep|] == sep }

  predicate Contains(s: string, sep: string) { exists i :: 0 <= i <= |s| && At(s, sep, i) }

  /** The first place of the separator, from `i` on. */
  function Find(s: string, sep: string, i: nat): (r: Option<nat>)
    requires i <= |s|
    ensures r.Some? ==> i <= r.value && At(s, sep, r.value) && forall j | i <= j < r.value :: !At(s, sep, j)
    ensures r.None? ==> forall j | i <= j <= |s| :: !At(s, sep, j)
    decreases |s| - i
  {
    if At(s, sep, i) then Some(i) else if i == |s| then None else Find(s, sep, i + 1)
  }

  /** `str.split(sep)`. */
  function Split(s: string, sep: string): (parts: seq<string>)
    requires sep != ""
    ensures |parts| >= 1 && (Contains(s, sep) ==> |parts| >= 2)
    decreases |s|
  {
    var at := Find(s, sep, 0);
    if at.None? then [s] else [s[..at.value]] + Split(s[at.value + |sep|..], sep)
  }

  /** `str.split()`: the words between runs of white space. */
  function Words(s: string): seq<string>
    decreases |s|
  {
    var t := StripLeft(s);
    StripLeftShorter(s);
    if t == "" then [] else
      var n := WordLength(t);
      [t[..n]] + Words(t[n..])
  }

  function WordLength(s: string): (n: nat)
    ensures n <= |s| && (s != "" && !Space(s[0]) ==> n > 0)
  {
    if s == "" || Space(s[0]) then 0 else 1 + WordLength(s[1..])
  }

  lemma StripLeftShorter(s: string)
    ensures |StripLeft(s)| <= |s| && (StripLeft(s) != "" ==> !Space(StripLeft(s)[0]))
  {
  }

  lemma NotAt(s: string, sep: string, i: nat, j: nat)
    requires i + |sep| <= |s| && j < |sep| && s[i + j] != sep[j]
    ensures !At(s, sep, i)
  {
    assert s[i..i + |sep|][j] == s[i + j];
  }

  /**
   A separator with a character that neither the text before it nor the separator up to there has cuts right there.
   */
  lemma SplitAt(a: string, sep: string, b: string, j: nat)
    requires j < |sep| && sep[j] !in a && sep[j] !in sep[..j]
    ensures Split(a + sep + b, sep) == [a] + Split(b, sep) && Contains(a + sep + b, sep)
  {
    var s := a + sep + b;
    assert At(s, sep, |a|);
    forall i | 0 <= i < |a| ensures !At(s, sep, i) {
      assert if i + j < |a| then s[i + j] == a[i + j] else s[i + j] == sep[..j][i + j - |a|];
      NotAt(s, sep, i, j);
    }
    assert s[..|a|] == a && s[|a| + |sep|..] == b;
  }

  lemma NoSplit(s: string, sep: string)
    requires sep != "" && sep[0] !in s
    ensures Split(s, sep) == [s]
  {
    forall i | 0 <= i && i + |sep| <= |s| ensures !At(s, sep, i) {
      NotAt(s, sep, i, 0);
    }
  }

  lemma NotContained(s: string, sep: string, j: nat)
    requires j < |sep| && sep[j] !in s
    ensures !Contains(s, sep)
  {
    forall i | 0 <= i && i + |sep| <= |s| ensures !At(s, sep, i) {
      NotAt(s, sep, i, j);
    }
  }

  predicate Word(s: string) { s != "" && forall c | c in s :: !Space(c) }

  lemma {:induction false} WordLengthIs(w: string, rest: string)
    requires (forall c | c in w :: !Space(c)) && (rest == "" || Space(rest[0]))
    ensures WordLength(w + rest) == |w|
  {
    if w == "" {
      assert w + rest == rest;
    } else {
      assert w[0] in w && (w + rest)[1..] == w[1..] + rest;
      WordLengthIs(w[1..], rest);
    }
  }

  /** The first word, and the words of what follows it. */
  lemma WordsAt(w: string, rest: string)
    requires Word(w) && (rest == "" || Space(rest[0]))
    ensures Words(w + rest) == [w] + Words(rest)
  {
    var s := w + rest;
    assert w[0] in w && s[0] == w[0];
    assert StripLeft(s) == s;
    WordLengthIs(w, rest);
    assert s[..|w|] == w && s[|w|..] == rest;
  }

  lemma WordsSpace(rest: string)
    ensures Words(" " + rest) == Words(rest)
  {
    assert (" " + rest)[1..] == rest;
  }

  /** `" ".join(words)`. */
  function Join(words: seq<string>): string
    requires words != []
  {
    if |words| == 1 then words[0] else words[0] + (" " + Join(words[1..]))
  }

  /** Splitting undoes joining. */
  lemma {:induction false} WordsJoin(words: seq<string>)
    requires words != [] && forall w | w in words :: Word(w)
    ensures Words(Join(words)) == words
    decreases |words|
  {
    assert words[0] in words;
    if |words| == 1 {
      WordsAt(words[0], "");
      assert words[0] + "" == words[0];
    } else {
      WordsJoin(words[1..]);
      WordsAt(words[0], " " + Join(words[1..]));
      WordsSpace(Join(words[1..]));
    }
  }

  lemma ContainsMore(a: string, s: string, sep: string)
    requires Contains(s, sep)
    ensures Contains(a + s, sep)
  {
    var i :| 0 <= i <= |s| && At(s, sep, i);
    assert (a + s)[|a| + i..|a| + i + |sep|] == s[i..i + |sep|];
    assert At(a + s, sep, |a| + i);
  }

  lemma {:induction false} JoinContains(words: seq<string>, i: nat)
    requires i < |words|
    ensures Contains(Join(words), words[i])
    decreases |words|
  {
    if i == 0 {
      assert At(Join(words), words[0], 0);
    } else {
      JoinContains(words[1..], i - 1);
      ContainsMore(" ", Join(words[1..]), words[i]);
      ContainsMore(words[0], " " + Join(words[1..]), words[i]);
    }
  }

  lemma {:induction false} JoinLacks(words: seq<string>, c: char)
    requires words != [] && c != ' ' && forall w | w in words :: c !in w
    ensures c !in Join(words)
    decreases |words|
  {
    assert words[0] in words;
    if |words| > 1 { JoinLacks(words[1..], c); }
  }

  lemma StripWord(w: string)
    requires Word(w)
    ensures Strip(w) == w && Strip(" " + w) == w
  {
    assert w[0] in w && w[|w| - 1] in w && (" " + w)[1..] == w;
  }

  lemma StripEndOnce(w: string, c: char)
    requires w != "" && w[|w| - 1] != c
    ensures StripEnd(w + [c], c) == w
  {
    assert (w + [c])[..|w|] == w;
  }

  // ---- numbers ----

  predicate IsDigit(c: char) { '0' <= c <= '9' }

  function DigitOf(n: nat): (c: char)
    requires n < 10
    ensures IsDigit(c) && c as int == '0' as int + n
  {
    ('0' as int + n) as char
  }

  function ShowNat(n: nat): (s: string)
    ensures s != "" && forall c | c in s :: IsDigit(c)
  {
    if n < 10 then [DigitOf(n)] else ShowNat(n / 10) + [DigitOf(n % 10)]
  }

  /** `str(i)`. */
  function Show(i: int): (s: string)
    ensures Word(s) && (forall c | c in s :: IsDigit(c) || c == '-') && IsDigit(s[|s| - 1])
  {
    if i >= 0 then ShowNat(i) else "-" + ShowNat(-i)
  }

  function ReadNat(s: string): Option<nat>
    decreases |s|
  {
    if s == "" || !IsDigit(s[|s| - 1]) then None
    else
      var d := s[|s| - 1] as int - '0' as int;
      if |s| == 1 then Some(d)
      else
        var rest := ReadNat(s[..|s| - 1]);
        if rest.None? then None else Some(rest.value * 10 + d)
  }

  /** `int(float(s))` for the texts of whole numbers. */
  function Read(s: string): Option<int> {
    if s != "" && s[0] == '-'
    then
      match ReadNat(s[1..]) case None => None case Some(n) => Some(0 - n)
    else
      match ReadNat(s) case None => None case Some(n) => Some(n)
  }

  lemma {:induction false} ReadShowNat(n: nat)
    ensures ReadNat(ShowNat(n)) == Some(n)
  {
    if n >= 10 {
      ReadShowNat(n / 10);
      var s := ShowNat(n);
      assert s[..|s| - 1] == ShowNat(n / 10);
    }
  }

  /** Reading back a printed number gives the number. */
  lemma ReadShow(i: int)
    ensures Read(Show(i)) == Some(i)
  {
    if i >= 0 {
      ReadShowNat(i);
      assert ShowNat(i)[0] in ShowNat(i);
    } else {
      ReadShowNat(-i);
      assert ("-" + ShowNat(-i))[1..] == ShowNat(-i);
    }
  }
}
