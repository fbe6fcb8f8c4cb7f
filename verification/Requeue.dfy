/** The requeue interval in terms of the spec's own fields: which generators report which intervals, and
    what the two nested loops return of them. */
module Requeue {
  import opened Wrappers
  import opened Generators
  import opened Interval
  import opened Yields

  /** The entry polls with this interval. */
  predicate Polls(pullRequests: Option<PolledGenerator>, apiClient: Option<PolledGenerator>, x: int) {
    (pullRequests.Some? && pullRequests.value.interval == x) || (apiClient.Some? && apiClient.value.interval == x)
  }

  /** All generators that the entries of the matrix set are enabled. */
  ghost predicate MatrixReports(m: MatrixGenerator, nestedEnabled: set<Kind>) {
    forall n, k :: n in m.generators && Sets(k, AsEntry(n)) ==> k in nestedEnabled
  }

  /** The entry itself polls with this interval, or an entry of its matrix does, if the matrix reports. */
  ghost predicate Reports(e: Entry, nestedEnabled: set<Kind>, x: int) {
    || Polls(e.pullRequests, e.apiClient, x)
    || (e.matrix.Some? && MatrixReports(e.matrix.value, nestedEnabled)
        && exists n :: n in e.matrix.value.generators && Polls(n.pullRequests, n.apiClient, x))
  }

  ghost predicate SomeReports(entries: seq<Entry>, nestedEnabled: set<Kind>, x: int) {
    exists e :: e in entries && Reports(e, nestedEnabled, x)
  }

  lemma EntryKinds(e: Entry)
    ensures forall k :: k in Present(EntryFields(e)) <==> Sets(k, e)
  {
    PresentInEntry(e);
    SettingAreSet([ListKind, PullRequestsKind, GitRepositoryKind, OCIRepositoryKind, MatrixKind, ClusterKind,
                   APIClientKind, ImagePolicyKind, ConfigKind], e);
  }

  lemma NestedKinds(n: Nested)
    ensures forall k :: k in Present(NestedFields(n)) <==> Sets(k, AsEntry(n))
  {
    PresentInNested(n);
    SettingAreSet([ListKind, GitRepositoryKind, OCIRepositoryKind, PullRequestsKind, ClusterKind, APIClientKind,
                   ImagePolicyKind, ConfigKind], AsEntry(n));
  }

  lemma AllEnabledMeans(fields: seq<Field>, enabled: set<Kind>)
    ensures AllEnabled(fields, enabled) <==> forall k :: k in Present(fields) ==> k in enabled
  {
    PresentKinds(fields);
    if AllEnabled(fields, enabled) {
      forall k | k in Present(fields) ensures k in enabled {
        var f :| f in fields && f.present && f.kind == k;
      }
    } else {
      var f :| f in fields && f.present && f.kind !in enabled;
      assert f.kind in Present(fields);
    }
  }

  /** An entry is enabled exactly if every generator it sets is. */
  lemma EntryEnabledMeans(e: Entry, enabled: set<Kind>)
    ensures EntryEnabled(e, enabled) <==> forall k :: Sets(k, e) ==> k in enabled
  {
    AllEnabledMeans(EntryFields(e), enabled);
    EntryKinds(e);
  }

  lemma NestedEnabledMeans(m: MatrixGenerator, nestedEnabled: set<Kind>)
    ensures NestedEnabled(m.generators, nestedEnabled) <==> MatrixReports(m, nestedEnabled)
  {
    forall n | n in m.generators
      ensures AllEnabled(NestedFields(n), nestedEnabled) <==> forall k :: Sets(k, AsEntry(n)) ==> k in nestedEnabled
    {
      AllEnabledMeans(NestedFields(n), nestedEnabled);
      NestedKinds(n);
    }
  }

  lemma NestedLeaf(n: Nested, x: int)
    requires x > 0
    ensures x in KindIntervals(Present(NestedFields(n)), AsEntry(n)) <==> Polls(n.pullRequests, n.apiClient, x)
  {
    var kinds, e := Present(NestedFields(n)), AsEntry(n);
    NestedKinds(n);
    if x in KindIntervals(kinds, e) {
      var i :| 0 <= i < |kinds| && KindIntervals(kinds, e)[i] == x;
      assert kinds[i] in kinds;
    }
    forall k | k in kinds ensures LeafInterval(k, e) in KindIntervals(kinds, e) {
      var i :| 0 <= i < |kinds| && kinds[i] == k;
      assert KindIntervals(kinds, e)[i] == LeafInterval(k, e);
    }
    if n.pullRequests.Some? { assert PullRequestsKind in kinds; }
    if n.apiClient.Some? { assert APIClientKind in kinds; }
  }

  lemma {:induction false} NestedLeaves(nested: seq<Nested>, x: int)
    requires x > 0
    ensures x in NestedIntervals(nested) <==> exists n :: n in nested && Polls(n.pullRequests, n.apiClient, x)
    decreases |nested|
  {
    if nested != [] {
      var init, last := nested[..|nested| - 1], nested[|nested| - 1];
      assert nested == init + [last];
      NestedLeaves(init, x);
      NestedLeaf(last, x);
    }
  }

  lemma {:induction false} LeafOfKinds(kinds: seq<Kind>, e: Entry, x: int)
    ensures x in LeavesOfKinds(kinds, e) <==>
      exists k :: k in kinds && if k == MatrixKind then x in MatrixLeaves(e) else x == LeafInterval(k, e)
    decreases |kinds|
  {
    if kinds != [] {
      LeafOfKinds(kinds[..|kinds| - 1], e, x);
      assert kinds == kinds[..|kinds| - 1] + [kinds[|kinds| - 1]];
    }
  }

  /** One of the entry's generators, other than its matrix, reports x. */
  ghost predicate OwnLeaf(e: Entry, x: int) {
    exists k :: k != MatrixKind && Sets(k, e) && x == LeafInterval(k, e)
  }

  lemma OwnLeafMeans(e: Entry, x: int)
    requires x > 0
    ensures OwnLeaf(e, x) <==> Polls(e.pullRequests, e.apiClient, x)
  {
    if e.pullRequests.Some? { assert Sets(PullRequestsKind, e); }
    if e.apiClient.Some? { assert Sets(APIClientKind, e); }
  }

  lemma EntryLeafMeans(e: Entry, x: int)
    ensures x in EntryLeaves(e) <==> OwnLeaf(e, x) || x in MatrixLeaves(e)
  {
    EntryKinds(e);
    LeafOfKinds(Present(EntryFields(e)), e, x);
    if x in MatrixLeaves(e) { assert Sets(MatrixKind, e); }
  }

  lemma MatrixLeafMeans(e: Entry, nestedEnabled: set<Kind>, x: int)
    requires x > 0
    ensures x in MatrixLeaves(WithoutDisabled(e, nestedEnabled)) <==>
      e.matrix.Some? && MatrixReports(e.matrix.value, nestedEnabled)
      && exists n :: n in e.matrix.value.generators && Polls(n.pullRequests, n.apiClient, x)
  {
    if e.matrix.Some? {
      NestedEnabledMeans(e.matrix.value, nestedEnabled);
      NestedLeaves(e.matrix.value.generators, x);
    }
  }

  lemma LeafOfEntry(e: Entry, nestedEnabled: set<Kind>, x: int)
    requires x > 0
    ensures x in EntryLeaves(WithoutDisabled(e, nestedEnabled)) <==> Reports(e, nestedEnabled, x)
  {
    var r := WithoutDisabled(e, nestedEnabled);
    EntryLeafMeans(r, x);
    OwnLeafMeans(r, x);
    MatrixLeafMeans(e, nestedEnabled, x);
  }

  lemma LeavesOfLast(entries: seq<Entry>, x: int)
    requires entries != []
    ensures x in Leaves(entries) <==>
      x in Leaves(entries[..|entries| - 1]) || x in EntryLeaves(entries[|entries| - 1])
  {
  }

  lemma SomeReportsOfLast(entries: seq<Entry>, nestedEnabled: set<Kind>, x: int)
    requires entries != []
    ensures SomeReports(entries, nestedEnabled, x) <==>
      SomeReports(entries[..|entries| - 1], nestedEnabled, x) || Reports(entries[|entries| - 1], nestedEnabled, x)
  {
    assert entries == entries[..|entries| - 1] + [entries[|entries| - 1]];
  }

  lemma {:induction false} LeafOfEntries(entries: seq<Entry>, nestedEnabled: set<Kind>, x: int)
    requires x > 0
    ensures x in Leaves(Reporting(entries, nestedEnabled)) <==> SomeReports(entries, nestedEnabled, x)
    decreases |entries|
  {
    if |entries| > 0 {
      var n := |entries| - 1;
      var init, reporting := entries[..n], Reporting(entries, nestedEnabled);
      LeafOfEntries(init, nestedEnabled, x);
      LeafOfEntry(entries[n], nestedEnabled, x);
      LeavesOfLast(reporting, x);
      SomeReportsOfLast(entries, nestedEnabled, x);
      assert reporting[..n] == Reporting(init, nestedEnabled);
    }
  }

  /** What calculateInterval returns once all generators are enabled: the least positive interval that any
      generator of the tree reports, and 0 exactly if none reports a positive one. */
  lemma IntervalMeans(entries: seq<Entry>, nestedEnabled: set<Kind>)
    ensures var r := LeastPositive(Leaves(Reporting(entries, nestedEnabled)));
      && r >= 0
      && (r == 0 <==> forall x :: SomeReports(entries, nestedEnabled, x) ==> x <= 0)
      && (r > 0 ==> SomeReports(entries, nestedEnabled, r))
      && (forall x :: SomeReports(entries, nestedEnabled, x) && x > 0 ==> 0 < r <= x)
  {
    var leaves := Leaves(Reporting(entries, nestedEnabled));
    LeastPositiveMeans(leaves);
    forall x | x > 0 ensures x in leaves <==> SomeReports(entries, nestedEnabled, x) {
      LeafOfEntries(entries, nestedEnabled, x);
    }
  }
}
