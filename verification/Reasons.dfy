/**
 The detector prints its reasons as text; the presenter finds out from the text which reason it was and what it said.
 */
module Reasons {
  import opened Wrappers
  import opened Text
  import opened DetectorRules

  datatype Duration = Days(n: int) | Hours(n: int) | Minutes(n: int) | Seconds(n: int)

  /** The sentence templates, with the texts and durations they are filled with; a share is shown as a percentage. */
  datatype Sentence =
    | ManyClicks(threshold: string)
    | ManyMedia(threshold: string)
    | ManyPrograms(threshold: string)
    | ClickBurst(within: Duration, count: string)
    | SomeClickBurst
    | ManyConversions(threshold: string)
    | ConversionBurst(within: Duration, count: string)
    | SomeConversionBurst
    | FastGap(actual: string)
    | FastGapBelow(threshold: string)
    | SlowGap(longest: Duration)
    | SlowGapAbove(limit: Duration)
    | PaddingRatio(actual: string)
    | PaddingRatioAbove(threshold: string)
    | ExtraClicks(actual: string)
    | ExtraClicksAbove(threshold: string)
    | NonBrowserRatio(actual: string)
    | NonBrowserRatioAbove(threshold: string)
    | Verbatim(reason: string)
    | Raised

  // ---- printing ----

  const VOLUME: string := "conversion_count >="
  const MEDIA: string := "media_count >="
  const PROGRAM: string := "program_count >="
  const CLICKS: string := "total_clicks >="
  const BURST: string := "burst:"
  const FAST: string := "click_to_conversion_seconds <="
  const SLOW: string := "click_to_conversion_seconds >="
  const RATIO: string := "click_padding_linked_ratio >="
  const EXTRA: string := "click_padding_extra_window >="
  const NON_BROWSER: string := "click_padding_non_browser_ratio >="

  /** A reason whose text holds whole numbers only. */
  predicate Whole(r: Reason) { !r.LinkedRatioReason? && !r.NonBrowserReason? }

  function BurstWords(count: nat, seconds: int, window: int): seq<string> {
    [BURST, Show(count), "conversions", "in", Show(seconds) + "s", "(<=", Show(window) + "s)"]
  }

  /** The text of a timing reason: its start, the threshold and, in parentheses behind the marker, the gap. */
  function TimingText(start: string, t: int, marker: string, g: int): string {
    (start + (" " + (Show(t) + "s ("))) + marker + (Show(g) + "s" + ")")
  }

  /** The f-strings of `_reasons_for_rollup`. */
  function Print(r: Reason): string
    requires Whole(r)
  {
    match r
    case VolumeReason(t) => VOLUME + (" " + Show(t))
    case MediaReason(t) => MEDIA + (" " + Show(t))
    case ProgramReason(t) => PROGRAM + (" " + Show(t))
    case BurstReason(c, s, w) => Join(BurstWords(c, s, w))
    case FastReason(t, s) => TimingText(FAST, t, "min=", s)
    case SlowReason(t, s) => TimingText(SLOW, t, "max=", s)
    case ExtraWindowReason(n) => (EXTRA + " 10 in 30m (") + "actual=" + (Show(n) + ")")
  }

  // ---- parsing ----

  predicate StartsWith(s: string, p: string) { p <= s }

  /** `_format_duration`. */
  function FormatDuration(s: int): Duration {
    if s >= 86400 then Days(s / 86400)
    else if s >= 3600 then Hours(s / 3600)
    else if s >= 60 then Minutes(s / 60)
    else Seconds(s)
  }

  /** `_extract_actual`: none without the prefix; an empty text is as good as none. */
  function ExtractActual(reason: string, prefix: string): Option<string>
    requires prefix != ""
  {
    var parts := Split(reason, prefix);
    if |parts| < 2 then None
    else
      var actual := Strip(Split(parts[1], ")")[0]);
      if actual == "" then None else Some(actual)
  }

  /** The tests of one turn of the loop of `format_reasons`. */
  datatype Kind = Clicks | Media | Programs | BurstOfClicks | Conversions | BurstOfConversions
    | Fast | Slow | Ratio | Extra | NonBrowser | Other

  function Start(kind: Kind): string {
    match kind
    case Clicks => CLICKS
    case Media => MEDIA
    case Programs => PROGRAM
    case BurstOfClicks => BURST
    case Conversions => VOLUME
    case BurstOfConversions => BURST
    case Fast => FAST
    case Slow => SLOW
    case Ratio => RATIO
    case Extra => EXTRA
    case NonBrowser => NON_BROWSER
    case Other => ""
  }

  /** The first test that holds, in their order. */
  function KindOf(reason: string): (kind: Kind)
    ensures StartsWith(reason, Start(kind))
  {
    if StartsWith(reason, CLICKS) then Clicks
    else if StartsWith(reason, MEDIA) then Media
    else if StartsWith(reason, PROGRAM) then Programs
    else if StartsWith(reason, BURST) && Contains(reason, "clicks") then BurstOfClicks
    else if StartsWith(reason, VOLUME) then Conversions
    else if StartsWith(reason, BURST) && Contains(reason, "conversions") then BurstOfConversions
    else if StartsWith(reason, FAST) then Fast
    else if StartsWith(reason, SLOW) then Slow
    else if StartsWith(reason, RATIO) then Ratio
    else if StartsWith(reason, EXTRA) then Extra
    else if StartsWith(reason, NON_BROWSER) then NonBrowser
    else Other
  }

  lemma StartContains(reason: string, start: string, sep: string)
    requires StartsWith(reason, start) && |sep| <= |start| && start[|start| - |sep|..] == sep
    ensures Contains(reason, sep)
  {
    assert At(reason, sep, |start| - |sep|);
  }

  /** The text behind the comparison sign that ends the start. */
  function Behind(reason: string, start: string, sep: string): string
    requires sep != "" && StartsWith(reason, start) && |sep| <= |start| && start[|start| - |sep|..] == sep
  {
    StartContains(reason, start, sep);
    Split(reason, sep)[1]
  }

  function FormatBurst(reason: string): Option<(Duration, string)> {
    var parts := Words(reason);
    if |parts| < 5 then None
    else
      match Read(StripEnd(parts[4], 's'))
      case None => None
      case Some(secs) => Some((FormatDuration(secs), parts[1]))
  }

  function FormatFast(reason: string): Sentence
    requires StartsWith(reason, FAST)
  {
    match ExtractActual(reason, "min=")
    case Some(actual) => FastGap(StripEnd(actual, 's'))
    case None => FastGapBelow(Strip(Split(Behind(reason, FAST, "<="), "s")[0]))
  }

  function FormatSlow(reason: string): Sentence
    requires StartsWith(reason, SLOW)
  {
    match ExtractActual(reason, "max=")
    case Some(actual) => (
      match Read(StripEnd(actual, 's'))
      case None => Raised
      case Some(s) => SlowGap(FormatDuration(s)))
    case None =>
      match Read(Strip(Split(Behind(reason, SLOW, ">="), "s")[0]))
      case None => Raised
      case Some(s) => SlowGapAbove(FormatDuration(s))
  }

  /** The body of the branch. */
  function FormatKind(kind: Kind, reason: string): Sentence
    requires StartsWith(reason, Start(kind))
  {
    match kind
    case Clicks => ManyClicks(Strip(Behind(reason, CLICKS, ">=")))
    case Media => ManyMedia(Strip(Behind(reason, MEDIA, ">=")))
    case Programs => ManyPrograms(Strip(Behind(reason, PROGRAM, ">=")))
    case BurstOfClicks => (
      match FormatBurst(reason)
      case None => SomeClickBurst
      case Some(b) => ClickBurst(b.0, b.1))
    case Conversions => ManyConversions(Strip(Behind(reason, VOLUME, ">=")))
    case BurstOfConversions => (
      match FormatBurst(reason)
      case None => SomeConversionBurst
      case Some(b) => ConversionBurst(b.0, b.1))
    case Fast => FormatFast(reason)
    case Slow => FormatSlow(reason)
    case Ratio => (
      match ExtractActual(reason, "actual=")
      case Some(actual) => PaddingRatio(actual)
      case None => PaddingRatioAbove(Strip(Split(Behind(reason, RATIO, ">="), "(")[0])))
    case Extra => (
      match ExtractActual(reason, "actual=")
      case Some(actual) => ExtraClicks(actual)
      case None => ExtraClicksAbove(Strip(Split(Behind(reason, EXTRA, ">="), "in")[0])))
    case NonBrowser => (
      match ExtractActual(reason, "actual=")
      case Some(actual) => NonBrowserRatio(actual)
      case None => NonBrowserRatioAbove(Strip(Split(Behind(reason, NON_BROWSER, ">="), "(")[0])))
    case Other => Verbatim(reason)
  }

  /** One turn of the loop of `format_reasons`. */
  function Format(reason: string): Sentence { FormatKind(KindOf(reason), reason) }

  /** The loop of `format_reasons`. */
  method FormatReasons(reasons: seq<string>) returns (formatted: seq<Sentence>)
    ensures |formatted| == |reasons| && forall i | 0 <= i < |reasons| :: formatted[i] == Format(reasons[i])
  {
    formatted := [];
    for i := 0 to |reasons|
      invariant |formatted| == i && forall j | 0 <= j < i :: formatted[j] == Format(reasons[j])
    {
      formatted := formatted + [Format(reasons[i])];
    }
  }

  // ---- the round trip ----

  /** What the presenter should say about a reason. */
  function Meaning(r: Reason): Sentence
    requires Whole(r)
  {
    match r
    case VolumeReason(t) => ManyConversions(Show(t))
    case MediaReason(t) => ManyMedia(Show(t))
    case ProgramReason(t) => ManyPrograms(Show(t))
    case BurstReason(c, s, w) => ConversionBurst(FormatDuration(s), Show(c))
    case FastReason(t, s) => FastGap(Show(s))
    case SlowReason(t, s) => SlowGap(FormatDuration(s))
    case ExtraWindowReason(n) => ExtraClicks(Show(n))
  }

  lemma NotPrefix(s: string, p: string, i: nat)
    requires i < |s| && i < |p| && s[i] != p[i]
    ensures !StartsWith(s, p)
  {
  }

  lemma ThresholdText(start: string, head: string, b: string)
    requires '>' !in head && '>' !in b && start == head + ">="
    ensures Split(start + b, ">=") == [head, b]
  {
    SplitAt(head, ">=", b, 0);
    NoSplit(b, ">=");
  }

  lemma NumberText(t: int)
    ensures '>' !in " " + Show(t) && Strip(" " + Show(t)) == Show(t)
  {
    StripWord(Show(t));
  }

  // -- each printed text passes the test of its own branch first --

  lemma VolumeKind(s: string)
    requires StartsWith(s, VOLUME)
    ensures KindOf(s) == Conversions
  {
    assert s[0] == 'c';
    NotPrefix(s, CLICKS, 0);
    NotPrefix(s, BURST, 0);
  }

  lemma MediaKind(s: string)
    requires StartsWith(s, MEDIA)
    ensures KindOf(s) == Media
  {
    assert s[0] == 'm';
  }

  lemma ProgramKind(s: string)
    requires StartsWith(s, PROGRAM)
    ensures KindOf(s) == Programs
  {
    assert s[0] == 'p';
  }

  lemma FastKind(s: string)
    requires StartsWith(s, FAST)
    ensures KindOf(s) == Fast
  {
    assert s[0] == 'c' && s[1] == 'l';
    NotPrefix(s, VOLUME, 1);
  }

  lemma SlowKind(s: string)
    requires StartsWith(s, SLOW)
    ensures KindOf(s) == Slow
  {
    assert s[0] == 'c' && s[1] == 'l' && s[28] == '>';
    NotPrefix(s, VOLUME, 1);
    NotPrefix(s, FAST, 28);
  }

  lemma ExtraKind(s: string)
    requires StartsWith(s, EXTRA)
    ensures KindOf(s) == Extra
  {
    assert s[0] == 'c' && s[1] == 'l' && s[6] == 'p' && s[14] == 'e';
    NotPrefix(s, VOLUME, 1);
    NotPrefix(s, FAST, 6);
    NotPrefix(s, SLOW, 6);
    NotPrefix(s, RATIO, 14);
  }

  /** The printed text of a burst speaks of conversions and not of clicks. */
  lemma BurstLacks(c: nat, g: int, w: int)
    ensures 'l' !in Join(BurstWords(c, g, w))
  {
    assert 'l' !in BURST && 'l' !in "conversions" && 'l' !in "in" && 'l' !in "(<=";
    JoinLacks(BurstWords(c, g, w), 'l');
  }

  lemma BurstHas(c: nat, g: int, w: int)
    ensures var s := Join(BurstWords(c, g, w)); Contains(s, "conversions") && StartsWith(s, BURST)
  {
    JoinContains(BurstWords(c, g, w), 2);
  }

  lemma BurstKind(s: string)
    requires 'l' !in s && Contains(s, "conversions") && StartsWith(s, BURST)
    ensures KindOf(s) == BurstOfConversions
  {
    NotContained(s, "clicks", 1);
    assert s[0] == 'b';
  }

  // -- and its branch finds the numbers --

  /** The text behind a comparison sign that ends the start. */
  lemma ThresholdBehind(start: string, head: string, t: int)
    requires '>' !in head && start == head + ">="
    ensures var s := start + (" " + Show(t)); StartsWith(s, start) && Split(s, ">=") == [head, " " + Show(t)]
    ensures Strip(" " + Show(t)) == Show(t)
  {
    NumberText(t);
    ThresholdText(start, head, " " + Show(t));
  }

  lemma VolumeSentence(s: string, head: string, t: int)
    requires StartsWith(s, VOLUME) && Split(s, ">=") == [head, " " + Show(t)] && Strip(" " + Show(t)) == Show(t)
    ensures Format(s) == ManyConversions(Show(t))
  {
    VolumeKind(s);
  }

  lemma MediaSentence(s: string, head: string, t: int)
    requires StartsWith(s, MEDIA) && Split(s, ">=") == [head, " " + Show(t)] && Strip(" " + Show(t)) == Show(t)
    ensures Format(s) == ManyMedia(Show(t))
  {
    MediaKind(s);
  }

  lemma ProgramSentence(s: string, head: string, t: int)
    requires StartsWith(s, PROGRAM) && Split(s, ">=") == [head, " " + Show(t)] && Strip(" " + Show(t)) == Show(t)
    ensures Format(s) == ManyPrograms(Show(t))
  {
    ProgramKind(s);
  }

  lemma VolumeRoundTrip(t: int)
    ensures Format(VOLUME + (" " + Show(t))) == ManyConversions(Show(t))
  {
    ThresholdBehind(VOLUME, "conversion_count ", t);
    VolumeSentence(VOLUME + (" " + Show(t)), "conversion_count ", t);
  }

  lemma MediaRoundTrip(t: int)
    ensures Format(MEDIA + (" " + Show(t))) == ManyMedia(Show(t))
  {
    ThresholdBehind(MEDIA, "media_count ", t);
    MediaSentence(MEDIA + (" " + Show(t)), "media_count ", t);
  }

  lemma ProgramRoundTrip(t: int)
    ensures Format(PROGRAM + (" " + Show(t))) == ManyPrograms(Show(t))
  {
    ThresholdBehind(PROGRAM, "program_count ", t);
    ProgramSentence(PROGRAM + (" " + Show(t)), "program_count ", t);
  }

  /** The number between a marker and the closing parenthesis. */
  lemma ActualText(head: string, marker: string, body: string, j: nat)
    requires j < |marker| && marker[j] !in head && marker[j] !in marker[..j] && marker[0] !in body + ")"
    requires Word(body) && ')' !in body
    ensures ExtractActual(head + marker + (body + ")"), marker) == Some(body)
  {
    SplitAt(head, marker, body + ")", j);
    NoSplit(body + ")", marker);
    SplitAt(body, ")", "", 0);
    NoSplit("", ")");
    assert body + ")" == body + ")" + "";
    StripWord(body);
  }

  lemma GapText(start: string, t: int, marker: string, g: int)
    requires 'm' !in start && |marker| > 0 && marker[0] == 'm'
    ensures StartsWith(TimingText(start, t, marker, g), start)
    ensures ExtractActual(TimingText(start, t, marker, g), marker) == Some(Show(g) + "s")
    ensures StripEnd(Show(g) + "s", 's') == Show(g)
  {
    GapLacks(start, t);
    GapBody(g);
    ActualText(start + (" " + (Show(t) + "s (")), marker, Show(g) + "s", 0);
    StripEndOnce(Show(g), 's');
  }

  lemma GapLacks(start: string, t: int)
    requires 'm' !in start
    ensures 'm' !in start + (" " + (Show(t) + "s ("))
  {
    assert 'm' !in Show(t) && 'm' !in "s (";
  }

  lemma GapBody(g: int)
    ensures Word(Show(g) + "s") && ')' !in Show(g) + "s" && 'm' !in Show(g) + "s" + ")"
  {
    WordAnd(Show(g), "s");
  }

  lemma FastSentence(s: string, g: int)
    requires StartsWith(s, FAST) && ExtractActual(s, "min=") == Some(Show(g) + "s")
             && StripEnd(Show(g) + "s", 's') == Show(g)
    ensures Format(s) == FastGap(Show(g))
  {
    FastKind(s);
  }

  lemma SlowSentence(s: string, g: int)
    requires StartsWith(s, SLOW) && ExtractActual(s, "max=") == Some(Show(g) + "s")
             && StripEnd(Show(g) + "s", 's') == Show(g)
    ensures Format(s) == SlowGap(FormatDuration(g))
  {
    ReadShow(g);
    SlowKind(s);
  }

  lemma FastRoundTrip(t: int, g: int)
    ensures Format(TimingText(FAST, t, "min=", g)) == FastGap(Show(g))
  {
    GapText(FAST, t, "min=", g);
    FastSentence(TimingText(FAST, t, "min=", g), g);
  }

  lemma SlowRoundTrip(t: int, g: int)
    ensures Format(TimingText(SLOW, t, "max=", g)) == SlowGap(FormatDuration(g))
  {
    GapText(SLOW, t, "max=", g);
    SlowSentence(TimingText(SLOW, t, "max=", g), g);
  }

  lemma ExtraSentence(s: string, n: nat)
    requires StartsWith(s, EXTRA) && ExtractActual(s, "actual=") == Some(Show(n))
    ensures Format(s) == ExtraClicks(Show(n))
  {
    ExtraKind(s);
  }

  lemma ExtraHead()
    ensures 'u' !in EXTRA + " 10 in 30m ("
  {
    assert 'u' !in EXTRA && 'u' !in " 10 in 30m (";
  }

  lemma ExtraText(head: string, n: nat)
    requires 'u' !in head && StartsWith(head, EXTRA)
    ensures var s := head + "actual=" + (Show(n) + ")");
            StartsWith(s, EXTRA) && ExtractActual(s, "actual=") == Some(Show(n))
  {
    ActualText(head, "actual=", Show(n), 3);
  }

  lemma ExtraRoundTrip(n: nat)
    ensures Format((EXTRA + " 10 in 30m (") + "actual=" + (Show(n) + ")")) == ExtraClicks(Show(n))
  {
    ExtraHead();
    ExtraText(EXTRA + " 10 in 30m (", n);
    ExtraSentence((EXTRA + " 10 in 30m (") + "actual=" + (Show(n) + ")"), n);
  }

  lemma BurstNumbers(s: string, words: seq<string>, c: nat, g: int)
    requires Words(s) == words && |words| >= 5 && words[1] == Show(c) && words[4] == Show(g) + "s"
    ensures FormatBurst(s) == Some((FormatDuration(g), Show(c)))
  {
    StripEndOnce(Show(g), 's');
    ReadShow(g);
  }

  lemma BurstParts(c: nat, g: int, w: int)
    ensures Words(Join(BurstWords(c, g, w))) == BurstWords(c, g, w)
  {
    WordAnd(Show(g), "s");
    WordAnd(Show(w), "s)");
    assert Word(BURST) && Word("conversions") && Word("in") && Word("(<=");
    WordsJoin(BurstWords(c, g, w));
  }

  lemma WordAnd(a: string, b: string)
    requires Word(a) && Word(b)
    ensures Word(a + b)
  {
  }

  lemma BurstSentence(s: string, words: seq<string>, c: nat, g: int)
    requires 'l' !in s && Contains(s, "conversions") && StartsWith(s, BURST)
    requires Words(s) == words && |words| >= 5 && words[1] == Show(c) && words[4] == Show(g) + "s"
    ensures Format(s) == ConversionBurst(FormatDuration(g), Show(c))
  {
    BurstKind(s);
    BurstNumbers(s, words, c, g);
  }

  lemma BurstRoundTrip(c: nat, g: int, w: int)
    ensures Format(Join(BurstWords(c, g, w))) == ConversionBurst(FormatDuration(g), Show(c))
  {
    var words := BurstWords(c, g, w);
    BurstLacks(c, g, w);
    BurstHas(c, g, w);
    BurstParts(c, g, w);
    BurstSentence(Join(words), words, c, g);
  }

  /** Every printed reason of whole numbers reaches its own branch, which says what the reason says. */
  lemma RoundTrip(r: Reason)
    requires Whole(r)
    ensures Format(Print(r)) == Meaning(r)
  {
    match r
    case VolumeReason(t) => VolumeRoundTrip(t);
    case MediaReason(t) => MediaRoundTrip(t);
    case ProgramReason(t) => ProgramRoundTrip(t);
    case BurstReason(c, s, w) => BurstRoundTrip(c, s, w);
    case FastReason(t, s) => FastRoundTrip(t, s);
    case SlowReason(t, s) => SlowRoundTrip(t, s);
    case ExtraWindowReason(n) => ExtraRoundTrip(n);
  }

  // -- the reasons with decimal ratios, and those of older detectors --

  /** A printed ratio: digits and a point. */
  predicate Decimal(text: string) { text != "" && forall c | c in text :: IsDigit(c) || c == '.' }

  /** The text of a padding reason: its start, the threshold and, in parentheses, the ratio. */
  function RatioText(start: string, threshold: string, ratio: string): string {
    (start + (" " + threshold + " (")) + "actual=" + (ratio + ")")
  }

  lemma RatioKind(s: string)
    requires StartsWith(s, RATIO)
    ensures KindOf(s) == Ratio
  {
    assert s[0] == 'c' && s[1] == 'l' && s[6] == 'p';
    NotPrefix(s, VOLUME, 1);
    NotPrefix(s, FAST, 6);
    NotPrefix(s, SLOW, 6);
  }

  lemma NonBrowserKind(s: string)
    requires StartsWith(s, NON_BROWSER)
    ensures KindOf(s) == NonBrowser
  {
    assert s[0] == 'c' && s[1] == 'l' && s[6] == 'p' && s[14] == 'n';
    NotPrefix(s, VOLUME, 1);
    NotPrefix(s, FAST, 6);
    NotPrefix(s, SLOW, 6);
    NotPrefix(s, RATIO, 14);
    NotPrefix(s, EXTRA, 14);
  }

  lemma RatioActual(start: string, threshold: string, ratio: string)
    requires 'u' !in start && Decimal(threshold) && Decimal(ratio)
    ensures StartsWith(RatioText(start, threshold, ratio), start)
    ensures ExtractActual(RatioText(start, threshold, ratio), "actual=") == Some(ratio)
  {
    assert 'u' !in " " + threshold + " (";
    ActualText(start + (" " + threshold + " ("), "actual=", ratio, 3);
  }

  lemma RatioSentence(s: string, ratio: string)
    requires StartsWith(s, RATIO) && ExtractActual(s, "actual=") == Some(ratio)
    ensures Format(s) == PaddingRatio(ratio)
  {
    RatioKind(s);
  }

  lemma NonBrowserSentence(s: string, ratio: string)
    requires StartsWith(s, NON_BROWSER) && ExtractActual(s, "actual=") == Some(ratio)
    ensures Format(s) == NonBrowserRatio(ratio)
  {
    NonBrowserKind(s);
  }

  lemma RatioRoundTrip(threshold: string, ratio: string)
    requires Decimal(threshold) && Decimal(ratio)
    ensures Format(RatioText(RATIO, threshold, ratio)) == PaddingRatio(ratio)
  {
    RatioActual(RATIO, threshold, ratio);
    RatioSentence(RatioText(RATIO, threshold, ratio), ratio);
  }

  lemma NonBrowserRoundTrip(threshold: string, ratio: string)
    requires Decimal(threshold) && Decimal(ratio)
    ensures Format(RatioText(NON_BROWSER, threshold, ratio)) == NonBrowserRatio(ratio)
  {
    RatioActual(NON_BROWSER, threshold, ratio);
    NonBrowserSentence(RatioText(NON_BROWSER, threshold, ratio), ratio);
  }

  lemma ClicksSentence(s: string, head: string, t: int)
    requires StartsWith(s, CLICKS) && Split(s, ">=") == [head, " " + Show(t)] && Strip(" " + Show(t)) == Show(t)
    ensures Format(s) == ManyClicks(Show(t))
  {
  }

  lemma ClicksRoundTrip(t: int)
    ensures Format(CLICKS + (" " + Show(t))) == ManyClicks(Show(t))
  {
    ThresholdBehind(CLICKS, "total_clicks ", t);
    ClicksSentence(CLICKS + (" " + Show(t)), "total_clicks ", t);
  }

  /** What a burst of clicks is printed as. */
  function ClickWords(count: nat, seconds: int, window: int): seq<string> {
    [BURST, Show(count), "clicks", "in", Show(seconds) + "s", "(<=", Show(window) + "s)"]
  }

  lemma ClickBurstRoundTrip(c: nat, g: int, w: int)
    ensures Format(Join(ClickWords(c, g, w))) == ClickBurst(FormatDuration(g), Show(c))
  {
    ClickParts(c, g, w);
    ClickBurstHas(c, g, w);
    ClickBurstSentence(Join(ClickWords(c, g, w)), ClickWords(c, g, w), c, g);
  }

  lemma ClickParts(c: nat, g: int, w: int)
    ensures Words(Join(ClickWords(c, g, w))) == ClickWords(c, g, w)
  {
    WordAnd(Show(g), "s");
    WordAnd(Show(w), "s)");
    assert Word(BURST) && Word("clicks") && Word("in") && Word("(<=");
    WordsJoin(ClickWords(c, g, w));
  }

  lemma ClickBurstHas(c: nat, g: int, w: int)
    ensures var s := Join(ClickWords(c, g, w)); Contains(s, "clicks") && StartsWith(s, BURST)
  {
    JoinContains(ClickWords(c, g, w), 2);
  }

  lemma ClickBurstSentence(s: string, words: seq<string>, c: nat, g: int)
    requires Contains(s, "clicks") && StartsWith(s, BURST)
    requires Words(s) == words && |words| >= 5 && words[1] == Show(c) && words[4] == Show(g) + "s"
    ensures Format(s) == ClickBurst(FormatDuration(g), Show(c))
  {
    assert s[0] == 'b';
    BurstNumbers(s, words, c, g);
  }

  /** A timing reason without the parentheses. */
  function BareText(start: string, t: int): string { start + (" " + Show(t) + "s") }

  /** Without the parentheses the threshold is shown: what follows the sign, up to the unit. */
  lemma BareParts(start: string, head: string, sign: string, t: int, marker: string)
    requires |sign| == 2 && sign[0] !in head && start == head + sign && (sign[0] == '<' || sign[0] == '>')
    requires 'm' !in start && |marker| > 0 && marker[0] == 'm'
    ensures var s, b := BareText(start, t), " " + Show(t) + "s";
            && StartsWith(s, start) && Split(s, sign) == [head, b] && Split(b, "s")[0] == " " + Show(t)
            && Strip(" " + Show(t)) == Show(t) && ExtractActual(s, marker).None?
  {
    var b := " " + Show(t) + "s";
    assert sign[0] !in b && 'm' !in b by {
      assert forall c | c in Show(t) :: IsDigit(c) || c == '-';
    }
    BareSplit(start, head, sign, b);
    BareNumber(t);
    BareNoActual(start, b, marker);
  }

  lemma BareNoActual(start: string, b: string, marker: string)
    requires 'm' !in start && 'm' !in b && |marker| > 0 && marker[0] == 'm'
    ensures ExtractActual(start + b, marker).None?
  {
    NoSplit(start + b, marker);
  }

  lemma BareSplit(start: string, head: string, sign: string, b: string)
    requires |sign| == 2 && sign[0] !in head && start == head + sign && sign[0] !in b
    ensures Split(start + b, sign) == [head, b]
  {
    SplitAt(head, sign, b, 0);
    NoSplit(b, sign);
  }

  lemma BareNumber(t: int)
    ensures Split(" " + Show(t) + "s", "s")[0] == " " + Show(t) && Strip(" " + Show(t)) == Show(t)
  {
    SplitAt(" " + Show(t), "s", "", 0);
    assert " " + Show(t) + "s" + "" == " " + Show(t) + "s";
    StripWord(Show(t));
  }

  lemma FastThresholdBranch(s: string, head: string, b: string, t: int)
    requires StartsWith(s, FAST) && Split(s, "<=") == [head, b] && Split(b, "s")[0] == " " + Show(t)
    requires Strip(" " + Show(t)) == Show(t) && ExtractActual(s, "min=").None?
    ensures FormatFast(s) == FastGapBelow(Show(t))
  {
  }

  lemma FastBranch(s: string)
    requires StartsWith(s, FAST)
    ensures Format(s) == FormatFast(s)
  {
    FastKind(s);
  }

  lemma FastThreshold(t: int)
    ensures Format(BareText(FAST, t)) == FastGapBelow(Show(t))
  {
    BareParts(FAST, "click_to_conversion_seconds ", "<=", t, "min=");
    FastBranch(BareText(FAST, t));
    FastThresholdBranch(BareText(FAST, t), "click_to_conversion_seconds ", " " + Show(t) + "s", t);
  }

  lemma SlowThresholdBranch(s: string, head: string, b: string, t: int)
    requires StartsWith(s, SLOW) && Split(s, ">=") == [head, b] && Split(b, "s")[0] == " " + Show(t)
    requires Strip(" " + Show(t)) == Show(t) && ExtractActual(s, "max=").None?
    ensures FormatSlow(s) == SlowGapAbove(FormatDuration(t))
  {
    ReadShow(t);
  }

  lemma SlowBranch(s: string)
    requires StartsWith(s, SLOW)
    ensures Format(s) == FormatSlow(s)
  {
    SlowKind(s);
  }

  lemma SlowThreshold(t: int)
    ensures Format(BareText(SLOW, t)) == SlowGapAbove(FormatDuration(t))
  {
    BareParts(SLOW, "click_to_conversion_seconds ", ">=", t, "max=");
    SlowBranch(BareText(SLOW, t));
    SlowThresholdBranch(BareText(SLOW, t), "click_to_conversion_seconds ", " " + Show(t) + "s", t);
  }

  lemma WordBehind(start: string, head: string, threshold: string)
    requires '>' !in head && start == head + ">=" && '>' !in threshold
    ensures var s := start + (" " + threshold); StartsWith(s, start) && Split(s, ">=") == [head, " " + threshold]
  {
    BareSplit(start, head, ">=", " " + threshold);
  }

  lemma DecimalWord(text: string)
    requires Decimal(text)
    ensures Word(text) && '>' !in text && '(' !in text && 'a' !in text && 'i' !in text
  {
  }

  lemma DecimalAlone(text: string, sep: string)
    requires Decimal(text) && (sep == "(" || sep == "in")
    ensures Split(" " + text, sep)[0] == " " + text && Strip(" " + text) == text
  {
    DecimalWord(text);
    NoSplit(" " + text, sep);
    StripWord(text);
  }

  lemma RatioThresholdSentence(s: string, head: string, b: string, text: string)
    requires StartsWith(s, RATIO) && Split(s, ">=") == [head, b] && Split(b, "(")[0] == b && Strip(b) == text
    requires ExtractActual(s, "actual=").None?
    ensures Format(s) == PaddingRatioAbove(text)
  {
    RatioKind(s);
  }

  lemma NonBrowserThresholdSentence(s: string, head: string, b: string, text: string)
    requires StartsWith(s, NON_BROWSER) && Split(s, ">=") == [head, b] && Split(b, "(")[0] == b && Strip(b) == text
    requires ExtractActual(s, "actual=").None?
    ensures Format(s) == NonBrowserRatioAbove(text)
  {
    NonBrowserKind(s);
  }

  lemma ExtraThresholdSentence(s: string, head: string, b: string, text: string)
    requires StartsWith(s, EXTRA) && Split(s, ">=") == [head, b] && Split(b, "in")[0] == b && Strip(b) == text
    requires ExtractActual(s, "actual=").None?
    ensures Format(s) == ExtraClicksAbove(text)
  {
    ExtraKind(s);
  }

  /** No marker: its fourth character is missing. */
  lemma NoActualNumber(start: string, threshold: string)
    requires 'u' !in start && Decimal(threshold)
    ensures ExtractActual(start + (" " + threshold), "actual=").None?
  {
    var s := start + (" " + threshold);
    assert 'u' !in s;
    NotContained(s, "actual=", 3);
    NoSplitAnywhere(s, "actual=");
  }

  lemma NoSplitAnywhere(s: string, sep: string)
    requires sep != "" && !Contains(s, sep)
    ensures Split(s, sep) == [s]
  {
  }

  lemma RatioThreshold(threshold: string)
    requires Decimal(threshold)
    ensures Format(RATIO + (" " + threshold)) == PaddingRatioAbove(threshold)
  {
    DecimalWord(threshold);
    WordBehind(RATIO, "click_padding_linked_ratio ", threshold);
    DecimalAlone(threshold, "(");
    NoActualNumber(RATIO, threshold);
    RatioThresholdSentence(RATIO + (" " + threshold), "click_padding_linked_ratio ", " " + threshold, threshold);
  }

  lemma NonBrowserThreshold(threshold: string)
    requires Decimal(threshold)
    ensures Format(NON_BROWSER + (" " + threshold)) == NonBrowserRatioAbove(threshold)
  {
    DecimalWord(threshold);
    WordBehind(NON_BROWSER, "click_padding_non_browser_ratio ", threshold);
    DecimalAlone(threshold, "(");
    NoActualNumber(NON_BROWSER, threshold);
    NonBrowserThresholdSentence(NON_BROWSER + (" " + threshold), "click_padding_non_browser_ratio ",
                                " " + threshold, threshold);
  }

  lemma ExtraThreshold(threshold: string)
    requires Decimal(threshold)
    ensures Format(EXTRA + (" " + threshold)) == ExtraClicksAbove(threshold)
  {
    DecimalWord(threshold);
    WordBehind(EXTRA, "click_padding_extra_window ", threshold);
    DecimalAlone(threshold, "in");
    NoActualNumber(EXTRA, threshold);
    ExtraThresholdSentence(EXTRA + (" " + threshold), "click_padding_extra_window ", " " + threshold, threshold);
  }

  /** A burst that says too little is a burst without numbers. */
  lemma ShortBursts(s: string)
    requires StartsWith(s, BURST) && |Words(s)| < 5
    ensures Contains(s, "clicks") ==> Format(s) == SomeClickBurst
    ensures !Contains(s, "clicks") && Contains(s, "conversions") ==> Format(s) == SomeConversionBurst
  {
    assert s[0] == 'b';
  }

  /** A text with none of the starts is shown as it is. */
  lemma OthersAreVerbatim(s: string)
    requires forall kind: Kind :: Start(kind) != "" ==> !StartsWith(s, Start(kind))
    ensures Format(s) == Verbatim(s)
  {
    var kind := KindOf(s);
    assert StartsWith(s, Start(kind));
  }

  /** The whole number a sentence shows. */
  function Number(sentence: Sentence): Option<int> {
    match sentence
    case ManyConversions(t) => Read(t)
    case ManyMedia(t) => Read(t)
    case ManyPrograms(t) => Read(t)
    case ConversionBurst(_, count) => Read(count)
    case FastGap(actual) => Read(actual)
    case ExtraClicks(actual) => Read(actual)
    case _ => None
  }

  /** The whole number a reason is about; the wait of a slow gap is shown as a duration instead. */
  function NumberIn(r: Reason): int
    requires Whole(r) && !r.SlowReason?
  {
    match r
    case VolumeReason(t) => t
    case MediaReason(t) => t
    case ProgramReason(t) => t
    case BurstReason(count, _, _) => count
    case FastReason(_, seconds) => seconds
    case ExtraWindowReason(extra) => extra
  }

  /** The sentence about a reason shows exactly the reason's number. */
  lemma NumbersSurvive(r: Reason)
    requires Whole(r) && !r.SlowReason?
    ensures Number(Meaning(r)) == Some(NumberIn(r))
  {
    match r
    case VolumeReason(t) => ReadShow(t);
    case MediaReason(t) => ReadShow(t);
    case ProgramReason(t) => ReadShow(t);
    case BurstReason(count, _, _) => ReadShow(count);
    case FastReason(_, seconds) => ReadShow(seconds);
    case ExtraWindowReason(extra) => ReadShow(extra);
  }

  function Unit(d: Duration): int {
    match d case Days(_) => 86400 case Hours(_) => 3600 case Minutes(_) => 60 case Seconds(_) => 1
  }

  /** A shown duration is the printed seconds cut to the largest unit that fits once; below a minute nothing is cut. */
  lemma DurationIsFloor(s: int)
    ensures var d := FormatDuration(s);
            && d.n * Unit(d) <= s < (d.n + 1) * Unit(d)
            && (!d.Seconds? ==> d.n >= 1)
            && (s >= 86400 <==> d.Days?) && (s >= 3600 ==> Unit(d) >= 3600) && (s >= 60 ==> Unit(d) >= 60)
  {
  }
}
