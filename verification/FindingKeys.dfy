/**
 The texts behind finding keys and case keys. SHA-256 is taken to be injective, so a key is its text.
 */
module FindingKeys {
  import opened Wrappers
  import opened Text

  datatype CalendarDate = CalendarDate(year: nat, month: nat, day: nat) {
    predicate Ok() { 1 <= year <= 9999 && 1 <= month <= 12 && 1 <= day <= 31 }
    predicate Before(d: CalendarDate) {
      || year < d.year || (year == d.year && month < d.month) || (year == d.year && month == d.month && day < d.day)
    }
  }
  type Date = d: CalendarDate | d.Ok() witness CalendarDate(2024, 1, 1)

  /** Dates in one number: a later date has a greater one. */
  function Serial(d: Date): nat { 512 * d.year + 32 * d.month + d.day }

  lemma BeforeIsSerial(d: Date, e: Date)
    ensures d.Before(e) <==> Serial(d) < Serial(e)
  {
  }

  /** The first sixteen characters of a hash of the settings: a fixed length and no separator. */
  type RuleVersion = r: string | |r| == 16 && '|' !in r witness "0123456789abcdef"

  function Two(n: nat): (s: string)
    requires n < 100
    ensures |s| == 2 && '|' !in s
  {
    [DigitOf(n / 10), DigitOf(n % 10)]
  }

  /** `date.isoformat()`. */
  function Iso(d: Date): (s: string)
    ensures |s| == 10 && '|' !in s
  {
    Two(d.year / 100) + Two(d.year % 100) + "-" + Two(d.month) + "-" + Two(d.day)
  }

  lemma TwoReads(n: nat)
    requires n < 100
    ensures ReadNat(Two(n)) == Some(n)
  {
    var s := Two(n);
    assert s[..1] == [DigitOf(n / 10)];
    assert ReadNat(s[..1]) == Some(n / 10);
  }

  /** Year, month and day stand where they belong. */
  lemma IsoReads(d: Date)
    ensures ReadNat(Iso(d)[..2]) == Some(d.year / 100) && ReadNat(Iso(d)[2..4]) == Some(d.year % 100)
    ensures ReadNat(Iso(d)[5..7]) == Some(d.month) && ReadNat(Iso(d)[8..]) == Some(d.day)
    ensures Iso(d)[4] == '-' == Iso(d)[7]
  {
    TwoReads(d.year / 100);
    TwoReads(d.year % 100);
    TwoReads(d.month);
    TwoReads(d.day);
    assert Iso(d)[..2] == Two(d.year / 100) && Iso(d)[2..4] == Two(d.year % 100);
    assert Iso(d)[5..7] == Two(d.month) && Iso(d)[8..] == Two(d.day);
  }

  lemma TwoInjective(m: nat, n: nat)
    requires m < 100 && n < 100 && Two(m) == Two(n)
    ensures m == n
  {
    assert Two(m)[0] == Two(n)[0] && Two(m)[1] == Two(n)[1];
  }

  lemma IsoInjective(d: Date, e: Date)
    requires Iso(d) == Iso(e)
    ensures d == e
  {
    assert Iso(d)[..2] == Two(d.year / 100) && Iso(e)[..2] == Two(e.year / 100);
    assert Iso(d)[2..4] == Two(d.year % 100) && Iso(e)[2..4] == Two(e.year % 100);
    assert Iso(d)[5..7] == Two(d.month) && Iso(e)[5..7] == Two(e.month);
    assert Iso(d)[8..] == Two(d.day) && Iso(e)[8..] == Two(e.day);
    TwoInjective(d.year / 100, e.year / 100);
    TwoInjective(d.year % 100, e.year % 100);
    TwoInjective(d.month, e.month);
    TwoInjective(d.day, e.day);
  }

  function Joined(p: IpUa): string { p.ip + "|" + p.ua }

  function FindingKey(d: Date, p: IpUa, rule: RuleVersion): string {
    "conversion|" + Iso(d) + "|" + Joined(p) + "|" + rule
  }

  function CaseKey(d: Date, p: IpUa): string {
    "conversion_case|" + Iso(d) + "|" + Joined(p)
  }

  /**
   `q`'s IP is `p`'s IP, a separator and some text that `p` has, with a separator behind it, before `q`'s user agent.
   */
  predicate Shifts(p: IpUa, q: IpUa) {
    && |p.ip| < |q.ip| && q.ip[..|p.ip| + 1] == p.ip + "|"
    && p.ua == q.ip[|p.ip| + 1..] + "|" + q.ua
  }

  /** Two different pairs give the same text exactly when one shifts a separator of the other. */
  predicate Clash(p: IpUa, q: IpUa) { p != q && (Shifts(p, q) || Shifts(q, p)) }

  lemma JoinedClash(p: IpUa, q: IpUa)
    ensures Joined(p) == Joined(q) <==> p == q || Clash(p, q)
  {
    if Joined(p) == Joined(q) {
      if |p.ip| == |q.ip| {
        assert p.ip == Joined(p)[..|p.ip|] && q.ip == Joined(q)[..|q.ip|];
        assert p.ua == Joined(p)[|p.ip| + 1..] && q.ua == Joined(q)[|q.ip| + 1..];
      } else if |p.ip| < |q.ip| {
        JoinedShift(p, q);
      } else {
        JoinedShift(q, p);
      }
    }
    if Shifts(p, q) { ShiftJoined(p, q); }
    if Shifts(q, p) { ShiftJoined(q, p); }
  }

  lemma JoinedShift(p: IpUa, q: IpUa)
    requires Joined(p) == Joined(q) && |p.ip| < |q.ip|
    ensures Shifts(p, q)
  {
    var s, n := Joined(p), |p.ip| + 1;
    assert q.ip == Joined(q)[..|q.ip|];
    assert q.ip[..n] == s[..n] == p.ip + "|";
    assert p.ua == s[n..] == Joined(q)[n..] == q.ip[n..] + "|" + q.ua;
  }

  lemma ShiftJoined(p: IpUa, q: IpUa)
    requires Shifts(p, q)
    ensures Joined(p) == Joined(q)
  {
    var n := |p.ip| + 1;
    assert q.ip == q.ip[..n] + q.ip[n..];
    assert Joined(p) == q.ip[..n] + (q.ip[n..] + "|" + q.ua);
  }

  lemma ShiftHasSeparator(p: IpUa, q: IpUa)
    requires Shifts(p, q)
    ensures '|' in q.ip
  {
    assert q.ip[..|p.ip| + 1][|p.ip|] == '|';
  }

  lemma NoClashWithoutSeparator(p: IpUa, q: IpUa)
    requires '|' !in p.ip && '|' !in q.ip
    ensures !Clash(p, q)
  {
    if Shifts(p, q) { ShiftHasSeparator(p, q); }
    if Shifts(q, p) { ShiftHasSeparator(q, p); }
  }

  /** Case keys are equal exactly for the same date and pairs that are the same or clash. */
  lemma CaseKeysEqualIff(d: Date, p: IpUa, e: Date, q: IpUa)
    ensures CaseKey(d, p) == CaseKey(e, q) <==> d == e && (p == q || Clash(p, q))
  {
    JoinedClash(p, q);
    if CaseKey(d, p) == CaseKey(e, q) {
      assert CaseKey(d, p)[16..26] == Iso(d) && CaseKey(e, q)[16..26] == Iso(e);
      assert CaseKey(d, p)[27..] == Joined(p) && CaseKey(e, q)[27..] == Joined(q);
      IsoInjective(d, e);
    }
  }

  /** Finding keys add the rule version, and nothing of it can be mistaken for the user agent. */
  lemma FindingKeysEqualIff(d: Date, p: IpUa, rule: RuleVersion, e: Date, q: IpUa, rule': RuleVersion)
    ensures FindingKey(d, p, rule) == FindingKey(e, q, rule') <==> rule == rule' && CaseKey(d, p) == CaseKey(e, q)
  {
    JoinedClash(p, q);
    CaseKeysEqualIff(d, p, e, q);
    if FindingKey(d, p, rule) == FindingKey(e, q, rule') {
      FindingKeyParts(d, p, rule);
      FindingKeyParts(e, q, rule');
      IsoInjective(d, e);
    }
  }

  lemma FindingKeyParts(d: Date, p: IpUa, rule: RuleVersion)
    ensures var k := FindingKey(d, p, rule);
            |k| >= 39 && k[11..21] == Iso(d) && k[22..|k| - 17] == Joined(p) && k[|k| - 16..] == rule
  {
    SplitAt("conversion|", Iso(d), "|", Joined(p), "|", rule);
  }

  /** Where the parts of a text are. */
  lemma SplitAt(a: string, b: string, c: string, m: string, e: string, f: string)
    ensures var k := a + b + c + m + e + f;
            && |k| == |a| + |b| + |c| + |m| + |e| + |f|
            && k[|a|..|a| + |b|] == b && k[|a| + |b| + |c|..|k| - |f| - |e|] == m && k[|k| - |f|..] == f
  {
  }

  /** No text is both a finding key and a case key, so a requested key names one kind of thing. */
  lemma KindsAreDisjoint(d: Date, p: IpUa, rule: RuleVersion, e: Date, q: IpUa)
    ensures FindingKey(d, p, rule) != CaseKey(e, q)
  {
    assert FindingKey(d, p, rule)[10] == '|' && CaseKey(e, q)[10] == '_';
  }

  /** The encoding is not injective: two different pairs of one date with the same keys under every rule version. */
  lemma KeysCanClash(d: Date, rule: RuleVersion)
    ensures var p, q := IpUa("10.0.0.1|x", "y"), IpUa("10.0.0.1", "x|y");
            p != q && CaseKey(d, p) == CaseKey(d, q) && FindingKey(d, p, rule) == FindingKey(d, q, rule)
  {
    var p, q := IpUa("10.0.0.1|x", "y"), IpUa("10.0.0.1", "x|y");
    assert Joined(p) == "10.0.0.1|x|y" == Joined(q);
  }
}
