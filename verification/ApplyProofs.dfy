/** What the apply and prune loops keep, whatever the API answers. */
module ApplyProofs {
  import opened Wrappers
  import opened Objects
  import opened Apply

  function JobRefs(jobs: seq<Job>): set<Ref> {
    set j | j in jobs :: j.Ref()
  }

  function JobIds(jobs: seq<Job>): set<string> {
    set j | j in jobs :: j.Id()
  }

  ghost predicate DistinctIds(jobs: seq<Job>) {
    forall i, k :: 0 <= i < k < |jobs| ==> jobs[i].Id() != jobs[k].Id()
  }

  /** The last of jobs with distinct IDs has an ID that the others do not have. */
  lemma LastIdIsNew(jobs: seq<Job>)
    requires DistinctIds(jobs) && jobs != []
    ensures var init, last := jobs[..|jobs| - 1], jobs[|jobs| - 1];
      && DistinctIds(init) && last.Id() !in JobIds(init)
      && (forall j :: j in jobs <==> j in init || j == last)
      && JobIds(jobs) == JobIds(init) + {last.Id()}
  {
    assert jobs == jobs[..|jobs| - 1] + [jobs[|jobs| - 1]];
  }

  /** What one iteration can do to the object at its ID. */
  lemma AttemptFacts(ctx: Context, before: Option<Live>, job: Job)
    ensures var e := Attempt(ctx, before, job);
      && (before.Some? ==> e.live.Some? && e.live.value.creator == before.value.creator)
      && (before.Some? && job.Ref() !in ctx.existing ==> e.live == before && !e.kept)
      && (before.None? && e.live.Some? ==> e.live.value.creator == Some(ctx.owner) && e.kept)
      && (e.kept && job.Ref() !in ctx.existing ==> before.None? && e.live.Some?)
  {
  }

  /** Kept by every iteration, from the cluster `was` on which the loop started: nothing disappears
      or changes hands; what the stored inventory does not name, and what is not rendered, is
      untouched; what appeared is the owner's and has been entered. */
  ghost predicate ClusterInvariant(ctx: Context, was: Cluster, p: Progress, done: seq<Job>) {
    && (forall id :: id in was ==> id in p.cluster && p.cluster[id].creator == was[id].creator)
    && (forall id :: id in was && id !in Ids(ctx.existing) ==> p.cluster[id] == was[id])
    && (forall id :: id in p.cluster && id !in JobIds(done) ==> id in was && p.cluster[id] == was[id])
    && (forall id :: id in p.cluster && id !in was ==>
          p.cluster[id].creator == Some(ctx.owner) && id in Ids(p.entries))
  }

  /** An entry is rendered, and was either in the stored inventory or made by this loop, by one ref only. */
  ghost predicate EntriesInvariant(ctx: Context, was: Cluster, p: Progress, done: seq<Job>) {
    && p.entries <= JobRefs(done)
    && (forall r :: r in p.entries && r !in ctx.existing ==> r.id in p.cluster && r.id !in was)
    && OneVersionPerId(p.entries - ctx.existing)
  }

  ghost predicate LoopInvariant(ctx: Context, was: Cluster, p: Progress, done: seq<Job>) {
    ClusterInvariant(ctx, was, p, done) && EntriesInvariant(ctx, was, p, done)
  }

  lemma IterationKeepsClusterInvariant(ctx: Context, was: Cluster, p: Progress, done: seq<Job>, job: Job)
    requires ClusterInvariant(ctx, was, p, done)
    ensures ClusterInvariant(ctx, was, ApplyOne(ctx, p, job), done + [job])
  {
    var before := Lookup(p.cluster, job.Id());
    AttemptFacts(ctx, before, job);
    var e := Attempt(ctx, before, job);
    var q := ApplyOne(ctx, p, job);
    assert q.cluster == Store(p.cluster, job.Id(), e.live);
    assert JobIds(done + [job]) == JobIds(done) + {job.Id()};
    assert job.Ref() in ctx.existing ==> job.Id() in Ids(ctx.existing);
    assert Ids(p.entries) <= Ids(q.entries);
    assert e.kept ==> job.Ref() in q.entries;
    assert e.kept ==> job.Id() in Ids(q.entries);
  }

  lemma IterationKeepsEntriesInvariant(ctx: Context, was: Cluster, p: Progress, done: seq<Job>, job: Job)
    requires LoopInvariant(ctx, was, p, done)
    ensures EntriesInvariant(ctx, was, ApplyOne(ctx, p, job), done + [job])
  {
    AttemptFacts(ctx, Lookup(p.cluster, job.Id()), job);
    assert JobRefs(done + [job]) == JobRefs(done) + {job.Ref()};
  }

  lemma {:induction false} LoopKeepsInvariant(ctx: Context, was: Cluster, jobs: seq<Job>)
    ensures LoopInvariant(ctx, was, ApplyAll(ctx, Start(was), jobs), jobs)
    decreases |jobs|
  {
    if jobs != [] {
      var init, last := jobs[..|jobs| - 1], jobs[|jobs| - 1];
      LoopKeepsInvariant(ctx, was, init);
      IterationKeepsClusterInvariant(ctx, was, ApplyAll(ctx, Start(was), init), init, last);
      IterationKeepsEntriesInvariant(ctx, was, ApplyAll(ctx, Start(was), init), init, last);
      assert init + [last] == jobs;
    }
  }

  // ---------- the prune loop ----------

  /** The deletions carried out: those before the first failing one. */
  function Executed(ds: seq<Deletion>): (n: nat)
    ensures n <= |ds|
  {
    if ds == [] || ds[0].Fails() then 0 else 1 + Executed(ds[1..])
  }

  ghost predicate AllSucceed(ds: seq<Deletion>) {
    forall d :: d in ds ==> !d.Fails()
  }

  lemma TargetsOfPrefix(ds: seq<Deletion>, k: nat)
    requires k < |ds|
    ensures Ids(RefSet(Targets(ds[..k + 1]))) == {ds[0].ref.id} + Ids(RefSet(Targets(ds[1..][..k])))
  {
    assert ds[..k + 1] == [ds[0]] + ds[1..][..k];
    assert Targets(ds[..k + 1]) == [ds[0].ref] + Targets(ds[1..][..k]);
    assert RefSet(Targets(ds[..k + 1])) == {ds[0].ref} + RefSet(Targets(ds[1..][..k]));
  }

  /** removeResourceRefs removes exactly the refs before the first failure, and reports that failure. */
  lemma {:induction false} RemovalIsPrefix(cluster: Cluster, ds: seq<Deletion>)
    ensures AllSucceed(ds) <==> Executed(ds) == |ds|
    ensures RemoveAll(cluster, ds).cluster == cluster - Ids(RefSet(Targets(ds[..Executed(ds)])))
    ensures RemoveAll(cluster, ds).error
         == if AllSucceed(ds) then None else Some(ds[Executed(ds)].Error())
    decreases |ds|
  {
    if ds == [] {
      assert cluster - Ids(RefSet(Targets([]))) == cluster;
    } else if ds[0].Fails() {
      assert ds[0] in ds;
      assert cluster - Ids(RefSet(Targets(ds[..0]))) == cluster;
    } else {
      var id := ds[0].ref.id;
      RemovalIsPrefix(cluster - {id}, ds[1..]);
      var k := Executed(ds[1..]);
      assert ds == [ds[0]] + ds[1..];
      assert AllSucceed(ds) <==> AllSucceed(ds[1..]);
      TargetsOfPrefix(ds, k);
    }
  }

  /** When every deletion succeeds their order is immaterial. */
  lemma FullRemoval(cluster: Cluster, ds: seq<Deletion>)
    requires AllSucceed(ds)
    ensures RemoveAll(cluster, ds) == Removal(cluster - Ids(RefSet(Targets(ds))), None)
  {
    RemovalIsPrefix(cluster, ds);
    assert ds[..|ds|] == ds;
  }

  /** Retrying after a partial removal ends where an undisturbed removal would have ended. */
  lemma RetryAbsorbsPartialRemoval(cluster: Cluster, first: seq<Deletion>, retry: seq<Deletion>)
    requires Targets(first) == Targets(retry) && AllSucceed(retry)
    ensures RemoveAll(RemoveAll(cluster, first).cluster, retry).cluster == RemoveAll(cluster, retry).cluster
  {
    RemovalIsPrefix(cluster, first);
    var part := RemoveAll(cluster, first).cluster;
    FullRemoval(part, retry);
    FullRemoval(cluster, retry);
    forall r | r in RefSet(Targets(first[..Executed(first)])) ensures r in RefSet(Targets(retry)) {
      var i :| 0 <= i < Executed(first) && Targets(first[..Executed(first)])[i] == r;
      assert Targets(first)[i] == r;
    }
    assert Ids(RefSet(Targets(first[..Executed(first)]))) <= Ids(RefSet(Targets(retry)));
  }
}
