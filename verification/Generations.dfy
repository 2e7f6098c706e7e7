/** Conversion findings and their generations: one replacement per date, and every way of reading the current rows. */
module Generations {
  import opened Wrappers
  import opened FindingKeys

  /** A row of suspicious_conversion_findings. */
  datatype Finding = Finding(
    date: Date, pair: IpUa, rule: RuleVersion, caseKey: string, generationId: string, isCurrent: bool, total: int)
  {
    function Key(): string { FindingKey(date, pair, rule) }
  }

  /** A row of findings_generations. */
  datatype Generation = Generation(generationId: string, findingType: string, date: Date, rowCount: nat,
                                   isCurrent: bool)

  const CONVERSION: string := "conversion"

  /** Findings by finding key, the primary key; generations in order of insertion. */
  datatype Store = Store(findings: map<string, Finding>, generations: seq<Generation>)

  const EMPTY: Store := Store(map[], [])

  /** What one recompute of a date found and stamps its rows with. */
  datatype Batch = Batch(date: Date, detected: seq<(IpUa, int)>, rule: RuleVersion, generationId: string)

  /** The detector returns each pair once. */
  predicate Distinct(detected: seq<(IpUa, int)>) {
    forall i, j | 0 <= i < j < |detected| :: detected[i].0 != detected[j].0
  }

  predicate ClashFree(detected: seq<(IpUa, int)>) {
    forall i, j | 0 <= i < |detected| && 0 <= j < |detected| :: !Clash(detected[i].0, detected[j].0)
  }

  // ---- the writes ----

  function RowOf(b: Batch, i: nat): Finding
    requires i < |b.detected|
  {
    var p := b.detected[i].0;
    Finding(b.date, p, b.rule, CaseKey(b.date, p), b.generationId, true, b.detected[i].1)
  }

  function RetiredFindings(findings: map<string, Finding>, d: Date): map<string, Finding> {
    map k | k in findings ::
      if findings[k].date == d && findings[k].isCurrent then findings[k].(isCurrent := false) else findings[k]
  }

  function RetiredGenerations(gens: seq<Generation>, findingType: string, d: Date): seq<Generation> {
    seq(|gens|, i requires 0 <= i < |gens| =>
      if gens[i].findingType == findingType && gens[i].date == d && gens[i].isCurrent
      then gens[i].(isCurrent := false) else gens[i])
  }

  function WithGeneration(gens: seq<Generation>, g: Generation): seq<Generation> {
    RetiredGenerations(gens, g.findingType, g.date) + [g]
  }

  /** INSERT ... ON CONFLICT (finding_key) DO UPDATE, row after row. */
  function Upserted(findings: map<string, Finding>, b: Batch, n: nat): map<string, Finding>
    requires n <= |b.detected|
  {
    if n == 0 then findings else Upserted(findings, b, n - 1)[RowOf(b, n - 1).Key() := RowOf(b, n - 1)]
  }

  function NewGeneration(b: Batch): Generation {
    Generation(b.generationId, CONVERSION, b.date, |b.detected|, true)
  }

  function Replace(s: Store, b: Batch): Store {
    Store(Upserted(RetiredFindings(s.findings, b.date), b, |b.detected|),
          WithGeneration(s.generations, NewGeneration(b)))
  }

  /** Retention deletes findings only; their generations stay. */
  function Purge(s: Store, cutoff: Date): Store {
    s.(findings := map k | k in s.findings && !s.findings[k].date.Before(cutoff) :: s.findings[k])
  }

  // ---- the reads ----

  /** The rows without the join: the console's list and the count for stores that have no generations table. */
  function Current(s: Store, d: Date): set<string> {
    set k | k in s.findings && s.findings[k].isCurrent && s.findings[k].date == d
  }

  predicate CurrentGeneration(s: Store, i: nat, d: Date) {
    i < |s.generations| && s.generations[i].isCurrent && s.generations[i].findingType == CONVERSION
    && s.generations[i].date == d
  }

  /** The rows of the join of a date's current findings with the generations. */
  function JoinedRows(s: Store, d: Date): set<(string, nat)> {
    set k, i | k in Current(s, d) && 0 <= i < |s.generations| && CurrentGeneration(s, i, d)
      && s.generations[i].generationId == s.findings[k].generationId :: (k, i)
  }

  // ---- the invariant ----

  predicate GenerationsUnique(gens: seq<Generation>) {
    forall i, j | 0 <= i < j < |gens| && gens[i].isCurrent && gens[j].isCurrent
      :: gens[i].findingType != gens[j].findingType || gens[i].date != gens[j].date
  }

  predicate KeysKept(s: Store) {
    forall k | k in s.findings ::
      k == s.findings[k].Key() && s.findings[k].caseKey == CaseKey(s.findings[k].date, s.findings[k].pair)
  }

  /** Some current generation of the finding's date carries its generation id. */
  predicate Backed(s: Store, f: Finding) {
    exists i ::
      0 <= i < |s.generations| && CurrentGeneration(s, i, f.date) && s.generations[i].generationId == f.generationId
  }

  predicate AllBacked(s: Store) {
    forall k | k in s.findings && s.findings[k].isCurrent :: Backed(s, s.findings[k])
  }

  /** The current findings of one date were computed under one rule version. */
  predicate OneRule(s: Store) {
    forall k, k' | k in s.findings && k' in s.findings && s.findings[k].isCurrent && s.findings[k'].isCurrent
      && s.findings[k].date == s.findings[k'].date :: s.findings[k].rule == s.findings[k'].rule
  }

  predicate Inv(s: Store) {
    GenerationsUnique(s.generations) && KeysKept(s) && AllBacked(s) && OneRule(s)
  }

  /** What is stored under a key afterwards: the last row of the batch with the key, otherwise what was there. */
  lemma {:induction false} UpsertedUnder(findings: map<string, Finding>, b: Batch, n: nat, k: string)
    returns (last: int)
    requires n <= |b.detected|
    ensures -1 <= last < n && forall j | last < j < n :: RowOf(b, j).Key() != k
    ensures var f := Upserted(findings, b, n);
            if last >= 0 then RowOf(b, last).Key() == k && k in f && f[k] == RowOf(b, last)
            else (k in f <==> k in findings) && (k in f ==> f[k] == findings[k])
  {
    last := -1;
    if n > 0 {
      last := UpsertedUnder(findings, b, n - 1, k);
      if RowOf(b, n - 1).Key() == k { last := n - 1; }
    }
  }

  lemma UpsertedKeys(findings: map<string, Finding>, b: Batch, n: nat, k: string)
    requires n <= |b.detected|
    ensures k in Upserted(findings, b, n) <==> k in findings || exists i :: 0 <= i < n && RowOf(b, i).Key() == k
    ensures (exists i :: 0 <= i < n && RowOf(b, i).Key() == k) ==>
              exists i :: 0 <= i < n && RowOf(b, i).Key() == k && Upserted(findings, b, n)[k] == RowOf(b, i)
                && forall j | i < j < n :: RowOf(b, j).Key() != k
    ensures k in Upserted(findings, b, n) && (forall i | 0 <= i < n :: RowOf(b, i).Key() != k) ==>
              Upserted(findings, b, n)[k] == findings[k]
  {
    var last := UpsertedUnder(findings, b, n, k);
  }

  /** A row of the new store is one of the batch, or an old row that is no longer current if it is of that date. */
  lemma ReplacedRow(s: Store, b: Batch, k: string)
    requires k in Replace(s, b).findings
    ensures var f := Replace(s, b).findings[k];
            || (exists i :: 0 <= i < |b.detected| && RowOf(b, i).Key() == k && f == RowOf(b, i)
                  && forall j | i < j < |b.detected| :: RowOf(b, j).Key() != k)
            || (k in s.findings && f == RetiredFindings(s.findings, b.date)[k])
  {
    UpsertedKeys(RetiredFindings(s.findings, b.date), b, |b.detected|, k);
  }

  lemma StillBacked(s: Store, b: Batch, f: Finding)
    requires Backed(s, f) && f.date != b.date
    ensures Backed(Replace(s, b), f)
  {
    var i :|
      0 <= i < |s.generations| && CurrentGeneration(s, i, f.date) && s.generations[i].generationId == f.generationId;
    assert CurrentGeneration(Replace(s, b), i, f.date) && Replace(s, b).generations[i] == s.generations[i];
  }

  lemma NewlyBacked(s: Store, b: Batch, f: Finding)
    requires f.date == b.date && f.generationId == b.generationId
    ensures Backed(Replace(s, b), f)
  {
    var s' := Replace(s, b);
    assert CurrentGeneration(s', |s.generations|, b.date)
           && s'.generations[|s.generations|].generationId == f.generationId;
  }

  /** What a row of the new store must be for the invariant. */
  predicate Fits(s: Store, b: Batch, s': Store, k: string)
    requires k in s'.findings
  {
    var f := s'.findings[k];
    && k == f.Key() && f.caseKey == CaseKey(f.date, f.pair)
    && (f.isCurrent ==>
          Backed(s', f) && if f.date == b.date then f.rule == b.rule else k in s.findings && s.findings[k] == f)
  }

  lemma NewRowFits(s: Store, b: Batch, k: string, i: nat)
    requires i < |b.detected| && RowOf(b, i).Key() == k
    requires k in Replace(s, b).findings && Replace(s, b).findings[k] == RowOf(b, i)
    ensures Fits(s, b, Replace(s, b), k)
  {
    NewlyBacked(s, b, RowOf(b, i));
  }

  lemma OldRowFits(s: Store, b: Batch, k: string)
    requires KeysKept(s) && AllBacked(s) && k in s.findings
    requires k in Replace(s, b).findings && Replace(s, b).findings[k] == RetiredFindings(s.findings, b.date)[k]
    ensures Fits(s, b, Replace(s, b), k)
  {
    var f := s.findings[k];
    if f.isCurrent && f.date != b.date { StillBacked(s, b, f); }
  }

  lemma RowFits(s: Store, b: Batch, k: string)
    requires KeysKept(s) && AllBacked(s) && k in Replace(s, b).findings
    ensures Fits(s, b, Replace(s, b), k)
  {
    ReplacedRow(s, b, k);
    if i :| 0 <= i < |b.detected| && RowOf(b, i).Key() == k && Replace(s, b).findings[k] == RowOf(b, i) {
      NewRowFits(s, b, k, i);
    } else {
      OldRowFits(s, b, k);
    }
  }

  lemma FitsKeepInv(s: Store, b: Batch, s': Store)
    requires OneRule(s) && GenerationsUnique(s'.generations) && forall k | k in s'.findings :: Fits(s, b, s', k)
    ensures Inv(s')
  {
  }

  lemma ReplaceKeepsUnique(s: Store, b: Batch)
    requires GenerationsUnique(s.generations)
    ensures GenerationsUnique(Replace(s, b).generations)
  {
  }

  lemma ReplaceKeepsInv(s: Store, b: Batch)
    requires Inv(s)
    ensures Inv(Replace(s, b))
  {
    forall k | k in Replace(s, b).findings ensures Fits(s, b, Replace(s, b), k) {
      RowFits(s, b, k);
    }
    ReplaceKeepsUnique(s, b);
    FitsKeepInv(s, b, Replace(s, b));
  }

  lemma PurgeKeepsInv(s: Store, cutoff: Date)
    requires Inv(s)
    ensures Inv(Purge(s, cutoff))
  {
    var s' := Purge(s, cutoff);
    forall k | k in s'.findings && s'.findings[k].isCurrent ensures Backed(s', s'.findings[k]) {
      var f := s.findings[k];
      var i :|
        0 <= i < |s.generations| && CurrentGeneration(s, i, f.date) && s.generations[i].generationId == f.generationId;
      assert CurrentGeneration(s', i, f.date);
    }
  }

  // ---- what the invariant gives ----

  /** At most one current finding per case key, whatever the addresses contain. */
  lemma OneCurrentPerCase(s: Store, k: string, k': string)
    requires Inv(s) && k in s.findings && k' in s.findings && s.findings[k].isCurrent && s.findings[k'].isCurrent
    requires s.findings[k].caseKey == s.findings[k'].caseKey
    ensures k == k'
  {
    var f, f' := s.findings[k], s.findings[k'];
    CaseKeysEqualIff(f.date, f.pair, f'.date, f'.pair);
    FindingKeysEqualIff(f.date, f.pair, f.rule, f'.date, f'.pair, f'.rule);
  }

  /**
   The join neither drops nor repeats a row: it pairs each current finding of the date with the date's one current
   generation.
   */
  lemma JoinIsNoOp(s: Store, d: Date)
    requires Inv(s)
    ensures |JoinedRows(s, d)| == |Current(s, d)|
    ensures forall k :: k in Current(s, d) <==> exists i :: (k, i) in JoinedRows(s, d)
    ensures forall k, i, i' | (k, i) in JoinedRows(s, d) && (k, i') in JoinedRows(s, d) :: i == i'
  {
    if Current(s, d) == {} {
      assert JoinedRows(s, d) == {};
    } else {
      var k :| k in Current(s, d);
      assert Backed(s, s.findings[k]);
      var i :|
        0 <= i < |s.generations| && CurrentGeneration(s, i, d)
        && s.generations[i].generationId == s.findings[k].generationId;
      forall k', i' ensures (k', i') in JoinedRows(s, d) <==> k' in Current(s, d) && i' == i {
        if k' in Current(s, d) { OneGeneration(s, k', d, i); }
      }
      assert JoinedRows(s, d) == Tagged(Current(s, d), i);
      TaggedSize(Current(s, d), i);
    }
  }

  lemma OneGeneration(s: Store, k: string, d: Date, i: nat)
    requires Inv(s) && k in Current(s, d) && CurrentGeneration(s, i, d)
    ensures s.findings[k].generationId == s.generations[i].generationId
    ensures forall i' :: CurrentGeneration(s, i', d) <==> i' == i
  {
    assert Backed(s, s.findings[k]);
  }

  function Tagged(s: set<string>, i: nat): set<(string, nat)> { set k | k in s :: (k, i) }

  lemma {:induction false} TaggedSize(s: set<string>, i: nat)
    ensures |Tagged(s, i)| == |s|
  {
    if s != {} {
      var k :| k in s;
      TaggedSize(s - {k}, i);
      assert Tagged(s, i) == Tagged(s - {k}, i) + {(k, i)};
    }
  }

  // ---- the row count ----

  function KeyList(b: Batch): seq<string> { seq(|b.detected|, i requires 0 <= i < |b.detected| => RowOf(b, i).Key()) }

  function RowKeys(b: Batch): set<string> { Elems(KeyList(b)) }

  lemma InRowKeys(b: Batch, k: string)
    ensures k in RowKeys(b) <==> exists i :: 0 <= i < |b.detected| && RowOf(b, i).Key() == k
  {
    forall i | 0 <= i < |b.detected| ensures RowOf(b, i).Key() == KeyList(b)[i] {
    }
    if i :| 0 <= i < |b.detected| && RowOf(b, i).Key() == k { assert KeyList(b)[i] == k; }
  }

  /** The finding is what the batch's last pair with its key detected: the current row of the batch's generation. */
  predicate IsRowOf(f: Finding, b: Batch) {
    exists i :: 0 <= i < |b.detected| && f.pair == b.detected[i].0 && f.total == b.detected[i].1
      && f.date == b.date && f.rule == b.rule && f.caseKey == CaseKey(b.date, f.pair)
      && f.generationId == b.generationId && f.isCurrent && LastWithKey(b, i)
  }

  predicate LastWithKey(b: Batch, i: nat)
    requires i < |b.detected|
  {
    forall j | i < j < |b.detected| ::
      FindingKey(b.date, b.detected[j].0, b.rule) != FindingKey(b.date, b.detected[i].0, b.rule)
  }

  lemma LastRowIsRow(b: Batch, i: nat)
    requires i < |b.detected| && forall j | i < j < |b.detected| :: RowOf(b, j).Key() != RowOf(b, i).Key()
    ensures IsRowOf(RowOf(b, i), b)
  {
    assert LastWithKey(b, i) by {
      forall j | i < j < |b.detected|
        ensures FindingKey(b.date, b.detected[j].0, b.rule) != FindingKey(b.date, b.detected[i].0, b.rule)
      {
        assert RowOf(b, j).Key() != RowOf(b, i).Key();
      }
    }
  }

  /** The readers of the date see the batch and nothing else. */
  ghost predicate ShowsBatch(s: Store, d: Date, b: Batch) {
    Current(s, d) == RowKeys(b) && forall k | k in Current(s, d) :: IsRowOf(s.findings[k], b)
  }

  /** The readers of the date see no change. */
  ghost predicate SameDate(s: Store, s': Store, d: Date) {
    Current(s', d) == Current(s, d) && forall k | k in Current(s, d) :: s'.findings[k] == s.findings[k]
  }

  /** What a replacement leaves of the findings: all of other dates, the date's old rows as history, its new rows. */
  ghost predicate Renews(findings: map<string, Finding>, findings': map<string, Finding>, b: Batch) {
    && (forall i | 0 <= i < |b.detected| :: HoldsRow(findings', b, FindingKey(b.date, b.detected[i].0, b.rule)))
    && (forall k | k in findings' :: k in findings || HoldsRow(findings', b, k))
    && (forall k | k in findings ::
          HoldsRow(findings', b, k)
          || (k in findings' && findings'[k] ==
                if findings[k].date == b.date then findings[k].(isCurrent := false) else findings[k]))
  }

  predicate HoldsRow(findings: map<string, Finding>, b: Batch, k: string) {
    k in findings && IsRowOf(findings[k], b) && FindingKey(b.date, findings[k].pair, b.rule) == k
  }

  lemma RenewsRow(s: Store, b: Batch, k: string)
    ensures var t, t' := s.findings, Replace(s, b).findings;
            && (k in RowKeys(b) ==> HoldsRow(t', b, k))
            && (k in t' && k !in RowKeys(b) ==> k in t)
            && (k in t && k !in RowKeys(b) ==>
                  k in t' && t'[k] == if t[k].date == b.date then t[k].(isCurrent := false) else t[k])
  {
    var retired := RetiredFindings(s.findings, b.date);
    UpsertedKeys(retired, b, |b.detected|, k);
    InRowKeys(b, k);
    if k in RowKeys(b) {
      var i :| 0 <= i < |b.detected| && RowOf(b, i).Key() == k && Replace(s, b).findings[k] == RowOf(b, i)
        && forall j | i < j < |b.detected| :: RowOf(b, j).Key() != k;
      LastRowIsRow(b, i);
    }
  }

  lemma ReplaceRenews(s: Store, b: Batch)
    ensures Renews(s.findings, Replace(s, b).findings, b)
  {
    forall k
      ensures k in RowKeys(b) ==> HoldsRow(Replace(s, b).findings, b, k)
      ensures k in Replace(s, b).findings ==> k in s.findings || HoldsRow(Replace(s, b).findings, b, k)
    {
      RenewsRow(s, b, k);
    }
    forall i | 0 <= i < |b.detected|
      ensures HoldsRow(Replace(s, b).findings, b, FindingKey(b.date, b.detected[i].0, b.rule))
    {
      assert RowOf(b, i).Key() == FindingKey(b.date, b.detected[i].0, b.rule);
      InRowKeys(b, RowOf(b, i).Key());
      RenewsRow(s, b, RowOf(b, i).Key());
    }
    forall k | k in s.findings
      ensures HoldsRow(Replace(s, b).findings, b, k)
              || (k in Replace(s, b).findings && Replace(s, b).findings[k] ==
                    if s.findings[k].date == b.date then s.findings[k].(isCurrent := false) else s.findings[k])
    {
      RenewsRow(s, b, k);
    }
  }

  /** And of the generations: the date's current one is retired, and the new one comes last. */
  predicate Succeeds(gens: seq<Generation>, gens': seq<Generation>, b: Batch) {
    && |gens'| == |gens| + 1
    && gens'[|gens|] == Generation(b.generationId, "conversion", b.date, |b.detected|, true)
    && forall i | 0 <= i < |gens| ::
         gens'[i] == if gens[i].findingType == "conversion" && gens[i].date == b.date
                     then gens[i].(isCurrent := false) else gens[i]
  }

  /** After a replacement the current findings of the date are the rows of the batch, with their contents. */
  lemma CurrentIsBatch(s: Store, b: Batch)
    ensures Current(Replace(s, b), b.date) == RowKeys(b)
    ensures forall k | k in Current(Replace(s, b), b.date) :: IsRowOf(Replace(s, b).findings[k], b)
  {
    forall k
      ensures k in Current(Replace(s, b), b.date) <==> k in RowKeys(b)
      ensures k in Current(Replace(s, b), b.date) ==> IsRowOf(Replace(s, b).findings[k], b)
    {
      RenewsRow(s, b, k);
    }
  }

  /** A replacement changes nothing about the other dates. */
  lemma OtherDatesKept(s: Store, b: Batch, d: Date)
    requires d != b.date && KeysKept(s)
    ensures Current(Replace(s, b), d) == Current(s, d)
    ensures forall k | k in Current(s, d) :: Replace(s, b).findings[k] == s.findings[k]
  {
    forall k
      ensures k in Current(Replace(s, b), d) <==> k in Current(s, d)
      ensures k in Current(s, d) ==> Replace(s, b).findings[k] == s.findings[k]
    {
      UpsertedKeys(RetiredFindings(s.findings, b.date), b, |b.detected|, k);
      if k in Current(s, d) {
        forall i | 0 <= i < |b.detected| ensures RowOf(b, i).Key() != k {
          var f := s.findings[k];
          FindingKeysEqualIff(b.date, b.detected[i].0, b.rule, d, f.pair, f.rule);
          CaseKeysEqualIff(b.date, b.detected[i].0, d, f.pair);
        }
      }
    }
  }

  lemma RowKeyEqualIff(b: Batch, i: nat, j: nat)
    requires i < |b.detected| && j < |b.detected|
    ensures RowOf(b, i).Key() == RowOf(b, j).Key() <==>
              b.detected[i].0 == b.detected[j].0 || Clash(b.detected[i].0, b.detected[j].0)
  {
    FindingKeysEqualIff(b.date, b.detected[i].0, b.rule, b.date, b.detected[j].0, b.rule);
    CaseKeysEqualIff(b.date, b.detected[i].0, b.date, b.detected[j].0);
  }

  lemma {:induction false} ElemsSize(ks: seq<string>)
    ensures |Elems(ks)| <= |ks|
    ensures |Elems(ks)| == |ks| <==> NoRepeat(ks)
    decreases |ks|
  {
    if ks == [] {
      assert Elems(ks) == {};
    } else {
      var n := |ks| - 1;
      ElemsSize(ks[..n]);
      assert ks == ks[..n] + [ks[n]];
      ElemsMore(ks[..n], ks[n]);
      NoRepeatMore(ks[..n], ks[n]);
    }
  }

  lemma ElemsMore(ks: seq<string>, k: string)
    ensures |Elems(ks + [k])| == |Elems(ks)| + if k in ks then 0 else 1
  {
    if k in ks {
      assert Elems(ks + [k]) == Elems(ks);
    } else {
      assert Elems(ks + [k]) == Elems(ks) + {k};
    }
  }

  lemma NoRepeatMore(ks: seq<string>, k: string)
    ensures NoRepeat(ks + [k]) <==> NoRepeat(ks) && k !in ks
  {
    if k in ks {
      var i :| 0 <= i < |ks| && ks[i] == k;
      assert (ks + [k])[i] == (ks + [k])[|ks|];
    }
    if !NoRepeat(ks) {
      var i, j :| 0 <= i < j < |ks| && ks[i] == ks[j];
      assert (ks + [k])[i] == (ks + [k])[j];
    }
  }

  /**
   The generation's row count is the number of findings it made current exactly when no two of the detected pairs clash.
   */
  lemma RowCountExactIff(s: Store, b: Batch)
    requires Distinct(b.detected)
    ensures |Current(Replace(s, b), b.date)| == NewGeneration(b).rowCount <==> ClashFree(b.detected)
  {
    CurrentIsBatch(s, b);
    ElemsSize(KeyList(b));
    RepeatsAreClashes(b);
  }

  lemma RepeatsAreClashes(b: Batch)
    requires Distinct(b.detected)
    ensures NoRepeat(KeyList(b)) <==> ClashFree(b.detected)
  {
    forall i, j | 0 <= i < |b.detected| && 0 <= j < |b.detected|
      ensures KeyList(b)[i] == KeyList(b)[j] <==> i == j || Clash(b.detected[i].0, b.detected[j].0)
    {
      RowKeyEqualIff(b, i, j);
    }
  }

  // ---- whole runs ----

  datatype Op = Recompute(batch: Batch) | Retain(cutoff: Date)

  predicate OpOk(op: Op) { op.Recompute? ==> Distinct(op.batch.detected) && ClashFree(op.batch.detected) }

  function Apply(s: Store, op: Op): Store {
    match op
    case Recompute(b) => Replace(s, b)
    case Retain(cutoff) => Purge(s, cutoff)
  }

  function Run(ops: seq<Op>): Store
    decreases |ops|
  {
    if ops == [] then EMPTY else Apply(Run(ops[..|ops| - 1]), ops[|ops| - 1])
  }

  lemma {:induction false} InvAlways(ops: seq<Op>)
    ensures Inv(Run(ops))
    decreases |ops|
  {
    if ops != [] {
      InvAlways(ops[..|ops| - 1]);
      match ops[|ops| - 1]
      case Recompute(b) => ReplaceKeepsInv(Run(ops[..|ops| - 1]), b);
      case Retain(cutoff) => PurgeKeepsInv(Run(ops[..|ops| - 1]), cutoff);
    }
  }

  /** The last recompute of the date, if none of the later purges reached it. */
  function LastUnpurged(ops: seq<Op>, d: Date): Option<Batch>
    decreases |ops|
  {
    if ops == [] then None
    else
      match ops[|ops| - 1]
      case Recompute(b) => if b.date == d then Some(b) else LastUnpurged(ops[..|ops| - 1], d)
      case Retain(cutoff) => if d.Before(cutoff) then None else LastUnpurged(ops[..|ops| - 1], d)
  }

  /**
   What every reader sees is the last recompute of the date since it was purged, contents included, and nothing else.
   */
  lemma {:induction false} CurrentIsLastRecompute(ops: seq<Op>, d: Date)
    ensures Current(Run(ops), d) == match LastUnpurged(ops, d) case None => {} case Some(b) => RowKeys(b)
    ensures LastUnpurged(ops, d).Some? ==>
              forall k | k in Current(Run(ops), d) :: IsRowOf(Run(ops).findings[k], LastUnpurged(ops, d).value)
    decreases |ops|
  {
    if ops != [] {
      var rest := ops[..|ops| - 1];
      var s := Run(rest);
      CurrentIsLastRecompute(rest, d);
      InvAlways(rest);
      match ops[|ops| - 1]
      case Recompute(b) => ReplaceCurrent(s, b, d);
      case Retain(cutoff) => PurgeCurrent(s, cutoff, d);
    }
  }

  /** A replacement renews its date and leaves the others. */
  lemma ReplaceCurrent(s: Store, b: Batch, d: Date)
    requires KeysKept(s)
    ensures Current(Replace(s, b), d) == if b.date == d then RowKeys(b) else Current(s, d)
    ensures forall k | k in Current(Replace(s, b), d) ::
              if b.date == d then IsRowOf(Replace(s, b).findings[k], b) else Replace(s, b).findings[k] == s.findings[k]
  {
    if b.date == d { CurrentIsBatch(s, b); } else { OtherDatesKept(s, b, d); }
  }

  lemma PurgeCurrent(s: Store, cutoff: Date, d: Date)
    ensures Current(Purge(s, cutoff), d) == if d.Before(cutoff) then {} else Current(s, d)
    ensures forall k | k in Current(Purge(s, cutoff), d) :: Purge(s, cutoff).findings[k] == s.findings[k]
  {
  }

  /**
   In any run of clash-free batches the readers count the row count of the date's last recompute, or nothing after a
   purge.
   */
  lemma ReadersAgree(ops: seq<Op>, d: Date)
    requires forall op | op in ops :: OpOk(op)
    ensures |JoinedRows(Run(ops), d)| == |Current(Run(ops), d)|
    ensures |Current(Run(ops), d)| ==
              match LastUnpurged(ops, d) case None => 0 case Some(b) => NewGeneration(b).rowCount
  {
    InvAlways(ops);
    JoinIsNoOp(Run(ops), d);
    CurrentIsLastRecompute(ops, d);
    LastIsOk(ops, d);
    match LastUnpurged(ops, d)
    case None =>
    case Some(b) => RowCountExactIff(EMPTY, b); CurrentIsBatch(EMPTY, b);
  }

  lemma {:induction false} LastIsOk(ops: seq<Op>, d: Date)
    requires forall op | op in ops :: OpOk(op)
    ensures LastUnpurged(ops, d).Some? ==> OpOk(Recompute(LastUnpurged(ops, d).value))
    decreases |ops|
  {
    if ops != [] {
      LastIsOk(ops[..|ops| - 1], d);
      assert OpOk(ops[|ops| - 1]);
    }
  }

  /** The date's last recompute, purged or not. */
  function LastRecompute(ops: seq<Op>, d: Date): Option<Batch>
    decreases |ops|
  {
    if ops == [] then None
    else if ops[|ops| - 1].Recompute? && ops[|ops| - 1].batch.date == d then Some(ops[|ops| - 1].batch)
    else LastRecompute(ops[..|ops| - 1], d)
  }

  /** `g` is what the lineage read of the date returns. */
  predicate Lineage(s: Store, d: Date, g: Generation) {
    exists i :: 0 <= i < |s.generations| && CurrentGeneration(s, i, d) && s.generations[i] == g
  }

  /** The lineage read returns the generation of the last recompute, purged or not, and nothing before the first one. */
  lemma {:induction false} LineageIsLastRecompute(ops: seq<Op>, d: Date, g: Generation)
    ensures Lineage(Run(ops), d, g) <==> LastRecompute(ops, d).Some? && g == NewGeneration(LastRecompute(ops, d).value)
    decreases |ops|
  {
    if ops != [] {
      var rest, op := ops[..|ops| - 1], ops[|ops| - 1];
      LineageIsLastRecompute(rest, d, g);
      var s, s' := Run(rest), Run(ops);
      if op.Recompute? && op.batch.date == d {
        assert CurrentGeneration(s', |s.generations|, d);
        assert forall i | 0 <= i < |s'.generations| && CurrentGeneration(s', i, d) :: i == |s.generations|;
      } else {
        assert forall i | 0 <= i < |s.generations| :: CurrentGeneration(s', i, d) <==> CurrentGeneration(s, i, d);
        assert forall i | 0 <= i < |s'.generations| && CurrentGeneration(s', i, d) ::
          i < |s.generations| && s'.generations[i] == s.generations[i];
      }
    }
  }
}
