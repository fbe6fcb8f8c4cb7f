/** The requeue interval: two nested collect-sort-take-first loops return the least positive leaf interval. */
module Interval {
  import opened Wrappers
  import opened Generators

  const NO_REQUEUE := 0

  /** `r` is the least positive member of `s`, or NO_REQUEUE if there is none. */
  ghost predicate IsLeastPositive(r: int, s: seq<int>) {
    if r == NO_REQUEUE then forall x :: x in s ==> x <= 0
    else r > 0 && r in s && forall x :: x in s && x > 0 ==> r <= x
  }

  function Lesser(a: int, b: int): int {
    if a == NO_REQUEUE then b else if b == NO_REQUEUE || a <= b then a else b
  }

  function LeastPositive(s: seq<int>): int {
    if s == [] then NO_REQUEUE
    else Lesser(LeastPositive(s[..|s| - 1]), if s[|s| - 1] > 0 then s[|s| - 1] else NO_REQUEUE)
  }

  lemma {:induction false} LeastPositiveMeans(s: seq<int>)
    ensures IsLeastPositive(LeastPositive(s), s)
  {
    if s != [] {
      LeastPositiveMeans(s[..|s| - 1]);
      assert s == s[..|s| - 1] + [s[|s| - 1]];
    }
  }

  lemma {:induction false} LeastPositiveOfConcat(a: seq<int>, b: seq<int>)
    ensures LeastPositive(a + b) == Lesser(LeastPositive(a), LeastPositive(b))
    decreases |b|
  {
    if b == [] {
      assert a + b == a;
      LeastPositiveMeans(a);
    } else {
      var init := b[..|b| - 1];
      assert (a + b)[..|a + b| - 1] == a + init;
      LeastPositiveOfConcat(a, init);
      LeastPositiveMeans(a);
      LeastPositiveMeans(init);
    }
  }

  // ---------- what the generators report ----------

  /** The Interval of every generator but the matrix: only polled ones have one. */
  function LeafInterval(kind: Kind, e: Entry): int {
    match kind
    case PullRequestsKind => if e.pullRequests.Some? then e.pullRequests.value.interval else NO_REQUEUE
    case APIClientKind => if e.apiClient.Some? then e.apiClient.value.interval else NO_REQUEUE
    case _ => NO_REQUEUE
  }

  function KindIntervals(kinds: seq<Kind>, e: Entry): seq<int> {
    seq(|kinds|, i requires 0 <= i < |kinds| => LeafInterval(kinds[i], e))
  }

  /** The leaf intervals of a matrix, entry by entry. */
  function NestedIntervals(nested: seq<Nested>): seq<int> {
    if nested == [] then []
    else
      var last := nested[|nested| - 1];
      NestedIntervals(nested[..|nested| - 1]) + KindIntervals(Present(NestedFields(last)), AsEntry(last))
  }

  function MatrixLeaves(e: Entry): seq<int> {
    if e.matrix.Some? then NestedIntervals(e.matrix.value.generators) else []
  }

  /** All leaves of the tree of top-level and matrix-nested generators. */
  function LeavesOfKinds(kinds: seq<Kind>, e: Entry): seq<int> {
    if kinds == [] then []
    else
      var last := kinds[|kinds| - 1];
      LeavesOfKinds(kinds[..|kinds| - 1], e)
      + if last == MatrixKind then MatrixLeaves(e) else [LeafInterval(last, e)]
  }

  function EntryLeaves(e: Entry): seq<int> {
    LeavesOfKinds(Present(EntryFields(e)), e)
  }

  function Leaves(entries: seq<Entry>): seq<int> {
    if entries == [] then [] else Leaves(entries[..|entries| - 1]) + EntryLeaves(entries[|entries| - 1])
  }

  ghost predicate AllEnabled(fields: seq<Field>, enabled: set<Kind>) {
    forall f :: f in fields && f.present ==> f.kind in enabled
  }

  /** Every generator that an entry sets is enabled. */
  ghost predicate EntryEnabled(e: Entry, enabled: set<Kind>) {
    AllEnabled(EntryFields(e), enabled)
  }

  ghost predicate NestedEnabled(nested: seq<Nested>, enabled: set<Kind>) {
    forall n :: n in nested ==> AllEnabled(NestedFields(n), enabled)
  }

  // ---------- the loops ----------

  ghost predicate Sorted(s: seq<int>) {
    forall i, j :: 0 <= i < j < |s| ==> s[i] <= s[j]
  }

  /** The sorting library: insertion of one element, and of all. */
  method Insert(sorted: seq<int>, x: int) returns (longer: seq<int>)
    requires Sorted(sorted)
    ensures Sorted(longer) && multiset(longer) == multiset(sorted) + multiset{x}
  {
    var k := |sorted|;
    while k > 0 && x < sorted[k - 1]
      invariant 0 <= k <= |sorted|
      invariant forall m :: k <= m < |sorted| ==> x < sorted[m]
    {
      k := k - 1;
    }
    longer := sorted[..k] + [x] + sorted[k..];
    InsertedBag(sorted, x, k);
    InsertedSorted(sorted, x, k);
  }

  lemma InsertedBag(s: seq<int>, x: int, k: nat)
    requires k <= |s|
    ensures multiset(s[..k] + [x] + s[k..]) == multiset(s) + multiset{x}
  {
    assert s == s[..k] + s[k..];
    assert multiset(s) == multiset(s[..k]) + multiset(s[k..]);
  }

  lemma InsertedSorted(s: seq<int>, x: int, k: nat)
    requires k <= |s| && Sorted(s)
    requires k > 0 ==> s[k - 1] <= x
    requires forall m :: k <= m < |s| ==> x < s[m]
    ensures Sorted(s[..k] + [x] + s[k..])
  {
    var t := s[..k] + [x] + s[k..];
    forall i, j | 0 <= i < j < |t| ensures t[i] <= t[j] {
      assert t[i] == if i < k then s[i] else if i == k then x else s[i - 1];
      assert t[j] == if j < k then s[j] else if j == k then x else s[j - 1];
    }
  }

  method Sort(s: seq<int>) returns (sorted: seq<int>)
    ensures Sorted(sorted) && multiset(sorted) == multiset(s)
  {
    sorted := [];
    for i := 0 to |s|
      invariant Sorted(sorted) && multiset(sorted) == multiset(s[..i])
    {
      sorted := Insert(sorted, s[i]);
      assert s[..i + 1] == s[..i] + [s[i]];
    }
    assert s[..|s|] == s;
  }

  /** Sort and take the first, or NO_REQUEUE when nothing was collected. */
  method First(res: seq<int>) returns (r: int)
    requires forall x :: x in res ==> x > 0
    ensures r == LeastPositive(res)
  {
    LeastPositiveMeans(res);
    if |res| == 0 { return NO_REQUEUE; }
    var sorted := Sort(res);
    assert forall x :: x in res <==> x in multiset(res);
    assert forall x :: x in sorted <==> x in multiset(sorted);
    assert sorted[0] in res;
    return sorted[0];
  }

  /** One turn of the inner loops: `d` is the interval of the next generator. */
  lemma CollectOne(res: seq<int>, more: seq<int>, leaves: seq<int>, next: seq<int>, d: int)
    requires LeastPositive(more) == Lesser(LeastPositive(res), LeastPositive(leaves))
    requires LeastPositive(next) == if d > 0 then d else NO_REQUEUE
    ensures LeastPositive(if d > NO_REQUEUE then more + [d] else more)
         == Lesser(LeastPositive(res), LeastPositive(leaves + next))
  {
    LeastPositiveOfConcat(leaves, next);
    LeastPositiveOfConcat(more, [d]);
    LesserAssociates(res, leaves, next);
    LeastPositiveOfOne(d);
  }

  lemma LeastPositiveOfOne(d: int)
    ensures LeastPositive([d]) == if d > 0 then d else NO_REQUEUE
  {
    assert [d][..0] == [];
  }

  /** The inner loops: collects the positive intervals of some generators of one entry. `matrix` is
      what its matrix reports, and `reporting` an entry with these intervals as its leaves. */
  method Collect(res: seq<int>, kinds: seq<Kind>, e: Entry, matrix: int, ghost reporting: Entry)
    returns (more: seq<int>)
    requires forall x :: x in res ==> x > 0
    requires forall k :: k in kinds && k != MatrixKind ==> LeafInterval(k, reporting) == LeafInterval(k, e)
    requires MatrixKind in kinds ==> matrix == LeastPositive(MatrixLeaves(reporting))
    ensures forall x :: x in more ==> x > 0
    ensures LeastPositive(more) == Lesser(LeastPositive(res), LeastPositive(LeavesOfKinds(kinds, reporting)))
  {
    more := res;
    LeastPositiveMeans(res);
    for k := 0 to |kinds|
      invariant forall x :: x in more ==> x > 0
      invariant LeastPositive(more) == Lesser(LeastPositive(res), LeastPositive(LeavesOfKinds(kinds[..k], reporting)))
    {
      var d := if kinds[k] == MatrixKind then matrix else LeafInterval(kinds[k], e);
      CollectKind(res, more, kinds, k, reporting, d);
      if d > NO_REQUEUE {
        more := more + [d];
      }
    }
    assert kinds[..|kinds|] == kinds;
  }

  /** One turn for one kind of one entry. */
  lemma CollectKind(res: seq<int>, more: seq<int>, kinds: seq<Kind>, k: nat, reporting: Entry, d: int)
    requires k < |kinds|
    requires LeastPositive(more) == Lesser(LeastPositive(res), LeastPositive(LeavesOfKinds(kinds[..k], reporting)))
    requires if kinds[k] == MatrixKind then d == LeastPositive(MatrixLeaves(reporting))
             else d == LeafInterval(kinds[k], reporting)
    ensures LeastPositive(if d > NO_REQUEUE then more + [d] else more)
         == Lesser(LeastPositive(res), LeastPositive(LeavesOfKinds(kinds[..k + 1], reporting)))
  {
    LeastPositiveOfOne(d);
    LeastPositiveMeans(MatrixLeaves(reporting));
    assert kinds[..k + 1] == kinds[..k] + [kinds[k]];
    LeavesOfSnoc(kinds[..k], kinds[k], reporting);
    CollectOne(res, more, LeavesOfKinds(kinds[..k], reporting),
               if kinds[k] == MatrixKind then MatrixLeaves(reporting) else [d], d);
  }

  lemma SameLeafIntervals(kinds: seq<Kind>, e: Entry, other: Entry)
    requires other == e || other == e.(matrix := None)
    ensures forall k :: k in kinds && k != MatrixKind ==> LeafInterval(k, other) == LeafInterval(k, e)
  {
  }

  lemma LesserAssociates(a: seq<int>, b: seq<int>, c: seq<int>)
    ensures Lesser(Lesser(LeastPositive(a), LeastPositive(b)), LeastPositive(c))
         == Lesser(LeastPositive(a), Lesser(LeastPositive(b), LeastPositive(c)))
  {
    LeastPositiveMeans(a);
    LeastPositiveMeans(b);
    LeastPositiveMeans(c);
  }

  lemma {:induction false} NoMatrixLeaves(kinds: seq<Kind>, e: Entry)
    requires MatrixKind !in kinds
    ensures LeavesOfKinds(kinds, e) == KindIntervals(kinds, e)
    decreases |kinds|
  {
    if kinds != [] {
      NoMatrixLeaves(kinds[..|kinds| - 1], e);
    }
  }

  lemma {:induction false} PresentKinds(fields: seq<Field>)
    ensures forall k :: k in Present(fields) <==> exists f :: f in fields && f.present && f.kind == k
  {
    if fields != [] {
      PresentKinds(fields[..|fields| - 1]);
      assert fields == fields[..|fields| - 1] + [fields[|fields| - 1]];
    }
  }

  lemma NestedHaveNoMatrix(n: Nested)
    ensures MatrixKind !in Present(NestedFields(n))
  {
    PresentKinds(NestedFields(n));
  }

  /** MatrixGenerator.Interval: gives up with NO_REQUEUE when a nested generator is not enabled. */
  method MatrixInterval(nested: seq<Nested>, enabled: set<Kind>) returns (r: int)
    ensures r == if NestedEnabled(nested, enabled) then LeastPositive(NestedIntervals(nested)) else NO_REQUEUE
  {
    var res: seq<int> := [];
    for i := 0 to |nested|
      invariant forall x :: x in res ==> x > 0
      invariant LeastPositive(res) == LeastPositive(NestedIntervals(nested[..i]))
      invariant NestedEnabled(nested[..i], enabled)
    {
      assert nested[..i + 1] == nested[..i] + [nested[i]];
      assert nested[..i + 1][..i] == nested[..i];
      var relevant := FindRelevantGenerators(NestedFields(nested[i]), enabled);
      assert nested[i] in nested;
      if relevant.Err? { return NO_REQUEUE; }
      NestedHaveNoMatrix(nested[i]);
      NoMatrixLeaves(relevant.value, AsEntry(nested[i]));
      LeastPositiveOfConcat(NestedIntervals(nested[..i]), KindIntervals(relevant.value, AsEntry(nested[i])));
      res := Collect(res, relevant.value, AsEntry(nested[i]), NO_REQUEUE, AsEntry(nested[i]));
    }
    assert nested[..|nested|] == nested;
    r := First(res);
  }

  /** The matrices of these entries have only enabled generators. */
  ghost predicate MatricesEnabled(entries: seq<Entry>, nestedEnabled: set<Kind>) {
    forall e :: e in entries && e.matrix.Some? ==> NestedEnabled(e.matrix.value.generators, nestedEnabled)
  }

  /** A matrix that holds a disabled generator reports no interval: as if it were not there. */
  ghost function WithoutDisabled(e: Entry, nestedEnabled: set<Kind>): Entry {
    if e.matrix.Some? && !NestedEnabled(e.matrix.value.generators, nestedEnabled) then e.(matrix := None) else e
  }

  /** What one entry reports. */
  ghost function ReportedBy(e: Entry, nestedEnabled: set<Kind>): int {
    LeastPositive(EntryLeaves(WithoutDisabled(e, nestedEnabled)))
  }

  ghost function Reporting(entries: seq<Entry>, nestedEnabled: set<Kind>): seq<Entry> {
    seq(|entries|, i requires 0 <= i < |entries| => WithoutDisabled(entries[i], nestedEnabled))
  }

  lemma AllReportIfEnabled(entries: seq<Entry>, nestedEnabled: set<Kind>)
    requires MatricesEnabled(entries, nestedEnabled)
    ensures Reporting(entries, nestedEnabled) == entries
  {
    assert forall e :: e in entries ==> WithoutDisabled(e, nestedEnabled) == e;
  }

  lemma {:induction false} LeavesOfSnoc(kinds: seq<Kind>, last: Kind, e: Entry)
    ensures LeavesOfKinds(kinds + [last], e)
         == LeavesOfKinds(kinds, e) + if last == MatrixKind then MatrixLeaves(e) else [LeafInterval(last, e)]
  {
    var all := kinds + [last];
    assert all[..|all| - 1] == kinds && all[|all| - 1] == last;
  }

  /** Without a matrix it makes no difference whether the matrix field is walked. */
  lemma {:induction false} MatrixFieldIsImmaterial(fields: seq<Field>, others: seq<Field>, e: Entry)
    requires |fields| == |others| && e.matrix.None?
    requires forall i :: 0 <= i < |fields| ==>
      fields[i] == others[i] || fields[i].kind == others[i].kind == MatrixKind
    ensures LeavesOfKinds(Present(fields), e) == LeavesOfKinds(Present(others), e)
    decreases |fields|
  {
    if fields != [] {
      var n := |fields| - 1;
      MatrixFieldIsImmaterial(fields[..n], others[..n], e);
      LeavesOfSnoc(Present(fields[..n]), fields[n].kind, e);
      LeavesOfSnoc(Present(others[..n]), others[n].kind, e);
      assert Present(fields[..n]) + [] == Present(fields[..n]);
      assert Present(others[..n]) + [] == Present(others[..n]);
    }
  }

  /** One entry of calculateInterval. */
  method CollectEntry(res: seq<int>, e: Entry, enabled: set<Kind>, nestedEnabled: set<Kind>)
    returns (more: Result<seq<int>, GenError>)
    requires forall x :: x in res ==> x > 0
    ensures more.Ok? <==> EntryEnabled(e, enabled)
    ensures more.Ok? ==> forall x :: x in more.value ==> x > 0
    ensures more.Ok? ==>
      LeastPositive(more.value) == Lesser(LeastPositive(res), ReportedBy(e, nestedEnabled))
  {
    var relevant := FindRelevantGenerators(EntryFields(e), enabled);
    if relevant.Err? { return Err(relevant.error); }
    PresentKinds(EntryFields(e));
    var matrix := NO_REQUEUE;
    if e.matrix.Some? {
      matrix := MatrixInterval(e.matrix.value.generators, nestedEnabled);
    }
    ghost var reporting := WithoutDisabled(e, nestedEnabled);
    SameLeafIntervals(relevant.value, e, reporting);
    if reporting != e {
      MatrixFieldIsImmaterial(EntryFields(e), EntryFields(reporting), reporting);
    }
    var collected := Collect(res, relevant.value, e, matrix, reporting);
    return Ok(collected);
  }

  /** What the first `i` entries report. */
  ghost function Reported(entries: seq<Entry>, nestedEnabled: set<Kind>, i: nat): int
    requires i <= |entries|
  {
    LeastPositive(Leaves(Reporting(entries, nestedEnabled)[..i]))
  }

  lemma ReportedOneMore(entries: seq<Entry>, nestedEnabled: set<Kind>, i: nat)
    requires i < |entries|
    ensures Reported(entries, nestedEnabled, i + 1)
         == Lesser(Reported(entries, nestedEnabled, i), ReportedBy(entries[i], nestedEnabled))
  {
    var all := Reporting(entries, nestedEnabled);
    assert all[..i + 1][..i] == all[..i] && all[..i + 1][i] == all[i];
    LeastPositiveOfConcat(Leaves(all[..i]), EntryLeaves(all[i]));
  }

  lemma ReportedInAll(entries: seq<Entry>, nestedEnabled: set<Kind>)
    ensures Reported(entries, nestedEnabled, 0) == NO_REQUEUE
    ensures Reported(entries, nestedEnabled, |entries|) == LeastPositive(Leaves(Reporting(entries, nestedEnabled)))
  {
    var all := Reporting(entries, nestedEnabled);
    assert all[..|entries|] == all;
  }

  ghost predicate EntriesEnabled(entries: seq<Entry>, enabled: set<Kind>) {
    entries == [] || (EntryEnabled(entries[0], enabled) && EntriesEnabled(entries[1..], enabled))
  }

  lemma {:induction false} EntriesEnabledMeans(entries: seq<Entry>, enabled: set<Kind>)
    ensures EntriesEnabled(entries, enabled) <==> forall e :: e in entries ==> EntryEnabled(e, enabled)
  {
    if entries != [] { EntriesEnabledMeans(entries[1..], enabled); }
  }

  /** `reported[i]` is what the first i entries report. */
  ghost predicate Tells(reported: seq<int>, entries: seq<Entry>, nestedEnabled: set<Kind>) {
    && |reported| == |entries| + 1
    && forall i {:trigger Reported(entries, nestedEnabled, i)} :: 0 <= i <= |entries| ==>
         reported[i] == Reported(entries, nestedEnabled, i)
  }

  lemma TellsOneMore(reported: seq<int>, entries: seq<Entry>, nestedEnabled: set<Kind>, i: nat)
    requires Tells(reported, entries, nestedEnabled) && i < |entries|
    ensures reported[i + 1] == Lesser(reported[i], ReportedBy(entries[i], nestedEnabled))
  {
    ReportedOneMore(entries, nestedEnabled, i);
  }

  /** The outer loop of calculateInterval. */
  method CollectEntries(entries: seq<Entry>, enabled: set<Kind>, nestedEnabled: set<Kind>, ghost reported: seq<int>)
    returns (res: Result<seq<int>, GenError>)
    requires Tells(reported, entries, nestedEnabled) && reported[0] == NO_REQUEUE
    ensures res.Ok? <==> EntriesEnabled(entries, enabled)
    ensures res.Ok? ==> forall x :: x in res.value ==> x > 0
    ensures res.Ok? ==> LeastPositive(res.value) == reported[|entries|]
  {
    var collected: seq<int> := [];
    assert entries[0..] == entries;
    for i := 0 to |entries|
      invariant forall x :: x in collected ==> x > 0
      invariant LeastPositive(collected) == reported[i]
      invariant EntriesEnabled(entries, enabled) == EntriesEnabled(entries[i..], enabled)
    {
      assert entries[i..][0] == entries[i] && entries[i..][1..] == entries[i + 1..];
      TellsOneMore(reported, entries, nestedEnabled, i);
      var more := CollectEntry(collected, entries[i], enabled, nestedEnabled);
      if more.Err? { return more; }
      collected := more.value;
    }
    return Ok(collected);
  }

  /** calculateInterval. */
  method CalculateInterval(entries: seq<Entry>, enabled: set<Kind>, nestedEnabled: set<Kind>)
    returns (r: Result<int, GenError>)
    ensures r.Ok? <==> forall e :: e in entries ==> EntryEnabled(e, enabled)
    ensures r.Ok? ==> r.value == LeastPositive(Leaves(Reporting(entries, nestedEnabled)))
  {
    ReportedInAll(entries, nestedEnabled);
    EntriesEnabledMeans(entries, enabled);
    ghost var reported := seq(|entries| + 1, i requires 0 <= i <= |entries| => Reported(entries, nestedEnabled, i));
    var res := CollectEntries(entries, enabled, nestedEnabled, reported);
    if res.Err? { return Err(res.error); }
    var first := First(res.value);
    return Ok(first);
  }

  // ---------- after a successful generation ----------

  lemma {:induction false} RelevantIffEnabled(fields: seq<Field>, enabled: set<Kind>)
    ensures Relevant(fields, enabled).Ok? <==> AllEnabled(fields, enabled)
    ensures Relevant(fields, enabled).Ok? ==>
      forall f :: f in fields && f.present ==> f.kind in Relevant(fields, enabled).value
  {
    if fields != [] {
      RelevantIffEnabled(fields[1..], enabled);
      assert fields == [fields[0]] + fields[1..];
    }
  }

  lemma {:induction false} GatheredMeansEnabled(nested: seq<Nested>, env: Env)
    requires Gather(nested, env).Ok?
    ensures NestedEnabled(nested, env.nestedEnabled)
  {
    if nested != [] {
      RelevantIffEnabled(NestedFields(nested[0]), env.nestedEnabled);
      GatheredMeansEnabled(nested[1..], env);
      assert nested == [nested[0]] + nested[1..];
    }
  }

  lemma {:induction false} EveryKindGenerated(kinds: seq<Kind>, e: Entry, env: Env, kind: Kind)
    requires GenerateKinds(kinds, e, env).Ok? && kind in kinds
    ensures GenerateOne(kind, e, env).Ok?
    decreases |kinds|
  {
    if kind != kinds[0] {
      EveryKindGenerated(kinds[1..], e, env, kind);
    }
  }

  /** An entry that generated successfully has only enabled generators, at both levels, so neither
      interval loop can reach its "not enabled" branch for it. */
  lemma GeneratedMeansEnabled(e: Entry, env: Env)
    requires Generate(e, env).Ok?
    ensures AllEnabled(EntryFields(e), env.enabled)
    ensures e.matrix.Some? ==> NestedEnabled(e.matrix.value.generators, env.nestedEnabled)
  {
    var fields := EntryFields(e);
    RelevantIffEnabled(fields, env.enabled);
    if e.matrix.Some? {
      var f := Field(MatrixKind, true);
      assert fields[4] == f && f in fields;
      EveryKindGenerated(Relevant(fields, env.enabled).value, e, env, MatrixKind);
      GatheredMeansEnabled(e.matrix.value.generators, env);
    }
  }
}
