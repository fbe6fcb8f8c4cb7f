/** Passes that return no error: when they occur, what they leave behind, and that repeating them changes nothing. */
module Exactness {
  import opened Wrappers
  import opened Objects
  import opened Listing
  import opened Apply
  import opened ApplyProofs

  /** The bodies rendered for one ID, in rendering order. */
  function Layers(id: string, jobs: seq<Job>): seq<Body> {
    if jobs == [] then []
    else
      var last := jobs[|jobs| - 1];
      Layers(id, jobs[..|jobs| - 1]) + if last.Id() == id then [last.manifest.body] else []
  }

  /** An object after the layers rendered for it: updated by all of them if it was there,
      otherwise created by the first and updated by the others. */
  function Grown(owner: string, before: Option<Live>, layers: seq<Body>): Option<Live> {
    if layers == [] then before
    else if before.Some? then Some(Live(Stack(before.value.body, layers), before.value.creator))
    else Some(Live(Stack(layers[0], layers[1..]), Some(owner)))
  }

  lemma {:induction false} LayersIffRendered(id: string, jobs: seq<Job>)
    ensures Layers(id, jobs) != [] <==> id in JobIds(jobs)
  {
    if jobs != [] {
      var init, last := jobs[..|jobs| - 1], jobs[|jobs| - 1];
      LayersIffRendered(id, init);
      assert jobs == init + [last];
      assert JobIds(jobs) == JobIds(init) + {last.Id()};
    }
  }

  lemma GrownByOne(owner: string, before: Option<Live>, layers: seq<Body>, next: Body)
    ensures var now := Grown(owner, before, layers);
      Grown(owner, before, layers + [next])
      == Some(if now.Some? then now.value.(body := Overlay(now.value.body, next)) else Live(next, Some(owner)))
  {
    var all := layers + [next];
    assert all[..|layers|] == layers && all[|layers|] == next;
    if layers == [] {
      assert all == [next] && all[1..] == [];
      assert forall b :: Stack(b, all) == Overlay(Stack(b, all[..0]), next);
    } else {
      assert all[0] == layers[0] && all[1..] == layers[1..] + [next];
      assert all[1..][..|layers| - 1] == layers[1..];
    }
  }

  lemma ErrorFreeAttempt(ctx: Context, before: Option<Live>, job: Job)
    requires Attempt(ctx, before, job).errors == []
    ensures Attempt(ctx, before, job).kept
    ensures Attempt(ctx, before, job).live
         == Some(if before.Some? then before.value.(body := Overlay(before.value.body, job.manifest.body))
                 else Live(job.manifest.body, Some(ctx.owner)))
  {
  }

  /** One more job without errors adds one layer to its object and its ref to the entries. */
  lemma ErrorFreeStep(ctx: Context, p: Progress, q: Progress, init: seq<Job>, last: Job, id: string)
    requires Attempt(ctx, Lookup(q.cluster, last.Id()), last).errors == []
    requires Lookup(q.cluster, id) == Grown(ctx.owner, Lookup(p.cluster, id), Layers(id, init))
    ensures Lookup(ApplyOne(ctx, q, last).cluster, id)
         == Grown(ctx.owner, Lookup(p.cluster, id), Layers(id, init + [last]))
    ensures ApplyOne(ctx, q, last).entries == q.entries + {last.Ref()}
  {
    ErrorFreeAttempt(ctx, Lookup(q.cluster, last.Id()), last);
    assert (init + [last])[..|init|] == init;
    if id == last.Id() {
      GrownByOne(ctx.owner, Lookup(p.cluster, id), Layers(id, init), last.manifest.body);
    } else {
      assert Layers(id, init + [last]) == Layers(id, init);
    }
  }

  /** A loop without errors enters exactly the rendered refs, and each object ends as its layers say. */
  lemma {:induction false} ErrorFreeLoop(ctx: Context, p: Progress, jobs: seq<Job>)
    requires ApplyAll(ctx, p, jobs).errors == []
    ensures p.errors == []
    ensures ApplyAll(ctx, p, jobs).entries == p.entries + JobRefs(jobs)
    ensures forall id :: Lookup(ApplyAll(ctx, p, jobs).cluster, id)
                      == Grown(ctx.owner, Lookup(p.cluster, id), Layers(id, jobs))
    decreases |jobs|
  {
    if jobs == [] {
      assert p.entries + JobRefs([]) == p.entries;
    } else {
      var init, last := jobs[..|jobs| - 1], jobs[|jobs| - 1];
      var q := ApplyAll(ctx, p, init);
      assert ApplyAll(ctx, p, jobs) == ApplyOne(ctx, q, last);
      ErrorFreeLoop(ctx, p, init);
      assert jobs == init + [last];
      assert JobRefs(jobs) == JobRefs(init) + {last.Ref()};
      ErrorFreeStep(ctx, p, q, init, last, last.Id());
      forall id ensures Lookup(ApplyAll(ctx, p, jobs).cluster, id)
                     == Grown(ctx.owner, Lookup(p.cluster, id), Layers(id, jobs))
      {
        ErrorFreeStep(ctx, p, q, init, last, id);
      }
    }
  }

  ghost predicate NoFaults(jobs: seq<Job>) {
    forall j :: j in jobs ==> j.verdict == NO_FAULT
  }

  /** Each rendered ref is in the stored inventory, or its ID is free on the cluster and not
      rendered before. */
  ghost predicate NothingInTheWay(existing: set<Ref>, cluster: Cluster, jobs: seq<Job>) {
    forall i :: 0 <= i < |jobs| && jobs[i].Ref() !in existing ==>
      jobs[i].Id() !in cluster && jobs[i].Id() !in JobIds(jobs[..i])
  }

  lemma NothingInTheWayOfLast(existing: set<Ref>, cluster: Cluster, init: seq<Job>, last: Job)
    ensures NothingInTheWay(existing, cluster, init + [last])
       <==> NothingInTheWay(existing, cluster, init)
            && (last.Ref() in existing || (last.Id() !in cluster && last.Id() !in JobIds(init)))
  {
    var jobs := init + [last];
    assert forall i :: 0 <= i < |init| ==> jobs[i] == init[i] && jobs[..i] == init[..i];
    assert jobs[|init|] == last && jobs[..|init|] == init;
  }

  lemma FaultFreeAttempt(ctx: Context, before: Option<Live>, job: Job)
    requires job.verdict == NO_FAULT
    ensures Attempt(ctx, before, job).errors == [] <==> job.Ref() in ctx.existing || before.None?
  {
  }

  /** With an API that raises no fault of its own, a loop is error-free exactly when nothing is in the way. */
  lemma {:induction false} ErrorFreeIffNothingInTheWay(ctx: Context, cluster: Cluster, jobs: seq<Job>)
    requires NoFaults(jobs)
    ensures ApplyAll(ctx, Start(cluster), jobs).errors == [] <==> NothingInTheWay(ctx.existing, cluster, jobs)
    decreases |jobs|
  {
    if jobs != [] {
      var init, last := jobs[..|jobs| - 1], jobs[|jobs| - 1];
      assert jobs == init + [last];
      var q := ApplyAll(ctx, Start(cluster), init);
      ErrorFreeIffNothingInTheWay(ctx, cluster, init);
      NothingInTheWayOfLast(ctx.existing, cluster, init, last);
      FaultFreeAttempt(ctx, Lookup(q.cluster, last.Id()), last);
      assert ApplyAll(ctx, Start(cluster), jobs).errors
          == q.errors + Attempt(ctx, Lookup(q.cluster, last.Id()), last).errors;
      if q.errors == [] {
        ErrorFreeLoop(ctx, Start(cluster), init);
        LayersIffRendered(last.Id(), init);
        assert Lookup(q.cluster, last.Id()).Some? <==> last.Id() in cluster || last.Id() in JobIds(init);
      }
    }
  }

  /** The i-th job meets an object under its ID: one that was there, or one an earlier job made. */
  predicate MeetsObject(cluster: Cluster, jobs: seq<Job>, i: nat)
    requires i < |jobs|
  {
    jobs[i].Id() in cluster || jobs[i].Id() in JobIds(jobs[..i])
  }

  /** The calls the loop makes for the i-th job all succeed, and a Create finds its ID free. */
  predicate GoesThrough(existing: set<Ref>, cluster: Cluster, jobs: seq<Job>, i: nat)
    requires i < |jobs|
  {
    var v := jobs[i].verdict;
    && !v.refFails
    && (jobs[i].Ref() in existing ==> !v.parseFails && !v.getFails)
    && (if jobs[i].Ref() in existing && MeetsObject(cluster, jobs, i) then !v.patchFails
        else !v.logFails && !v.createFails && !MeetsObject(cluster, jobs, i))
  }

  lemma GoesThroughOfLast(existing: set<Ref>, cluster: Cluster, init: seq<Job>, last: Job)
    ensures var jobs := init + [last];
      && (forall i :: 0 <= i < |init| ==>
            (GoesThrough(existing, cluster, jobs, i) <==> GoesThrough(existing, cluster, init, i)))
      && (MeetsObject(cluster, jobs, |init|) <==> last.Id() in cluster || last.Id() in JobIds(init))
  {
    var jobs := init + [last];
    assert forall i :: 0 <= i < |init| ==> jobs[i] == init[i] && jobs[..i] == init[..i];
    assert jobs[|init|] == last && jobs[..|init|] == init;
  }

  lemma AttemptSucceedsIff(ctx: Context, before: Option<Live>, job: Job)
    ensures var v := job.verdict;
      Attempt(ctx, before, job).errors == [] <==>
        && !v.refFails
        && (job.Ref() in ctx.existing ==> !v.parseFails && !v.getFails)
        && (if job.Ref() in ctx.existing && before.Some? then !v.patchFails
            else !v.logFails && !v.createFails && before.None?)
  {
  }

  /** Whatever fails: a loop is error-free exactly when every job goes through. */
  lemma {:induction false} ErrorFreeIffAllGoThrough(ctx: Context, cluster: Cluster, jobs: seq<Job>)
    ensures ApplyAll(ctx, Start(cluster), jobs).errors == []
       <==> forall i :: 0 <= i < |jobs| ==> GoesThrough(ctx.existing, cluster, jobs, i)
    decreases |jobs|
  {
    if jobs != [] {
      var n := |jobs| - 1;
      var init, last := jobs[..n], jobs[n];
      assert jobs == init + [last];
      var q := ApplyAll(ctx, Start(cluster), init);
      ErrorFreeIffAllGoThrough(ctx, cluster, init);
      GoesThroughOfLast(ctx.existing, cluster, init, last);
      assert ApplyAll(ctx, Start(cluster), jobs).errors
          == q.errors + Attempt(ctx, Lookup(q.cluster, last.Id()), last).errors;
      if q.errors == [] {
        ErrorFreeLoop(ctx, Start(cluster), init);
        LayersIffRendered(last.Id(), init);
        assert Lookup(q.cluster, last.Id()).Some? <==> MeetsObject(cluster, jobs, n);
        AttemptSucceedsIff(ctx, Lookup(q.cluster, last.Id()), last);
        assert Attempt(ctx, Lookup(q.cluster, last.Id()), last).errors == []
          <==> GoesThrough(ctx.existing, cluster, jobs, n);
      } else {
        var i :| 0 <= i < |init| && !GoesThrough(ctx.existing, cluster, init, i);
        assert !GoesThrough(ctx.existing, cluster, jobs, i);
      }
    }
  }

  // ---------- the whole pass ----------

  /** The cluster an error-free pass should leave: rendered objects grown, dropped refs gone, the rest as it was. */
  ghost predicate IsDesired(owner: string, was: Cluster, existing: set<Ref>, jobs: seq<Job>, now: Cluster) {
    forall id ::
      Lookup(now, id) ==
      if id in JobIds(jobs) then Grown(owner, Lookup(was, id), Layers(id, jobs))
      else if id in Ids(existing) then None
      else Lookup(was, id)
  }

  lemma ErrorFreePass(owner: string, cluster: Cluster, stored: Option<seq<Ref>>, pass: Pass)
    requires Fits(owner, cluster, stored, pass)
    requires RunPass(owner, cluster, stored, pass).errors == []
    ensures var existing := Existing(stored);
      var p := Applied(owner, cluster, stored, pass.jobs);
      && p.errors == []
      && p.entries == JobRefs(pass.jobs)
      && Pruned(owner, cluster, stored, pass.jobs) == existing - JobRefs(pass.jobs)
      && RunPass(owner, cluster, stored, pass).cluster == p.cluster - Ids(existing - JobRefs(pass.jobs))
      && forall id :: Lookup(p.cluster, id) == Grown(owner, Lookup(cluster, id), Layers(id, pass.jobs))
  {
    var existing := Existing(stored);
    var p := Applied(owner, cluster, stored, pass.jobs);
    ErrorFreeLoop(Context(owner, existing), Start(cluster), pass.jobs);
    assert {} + JobRefs(pass.jobs) == JobRefs(pass.jobs);
    RemovalIsPrefix(p.cluster, pass.deletions);
    if stored.Some? {
      FullRemoval(p.cluster, pass.deletions);
    } else {
      assert p.cluster - Ids({}) == p.cluster;
    }
  }

  /** A pass is error-free exactly when every job goes through and no call of a deletion fails. */
  lemma ErrorFreePassIff(owner: string, cluster: Cluster, stored: Option<seq<Ref>>, pass: Pass)
    requires Fits(owner, cluster, stored, pass)
    ensures RunPass(owner, cluster, stored, pass).errors == [] <==>
      && (forall i :: 0 <= i < |pass.jobs| ==> GoesThrough(Existing(stored), cluster, pass.jobs, i))
      && (forall d :: d in pass.deletions ==> !d.parseFails && !d.logFails && !d.deleteFails)
  {
    ErrorFreeIffAllGoThrough(Context(owner, Existing(stored)), cluster, pass.jobs);
    RemovalIsPrefix(Applied(owner, cluster, stored, pass.jobs).cluster, pass.deletions);
    if stored.None? { NoTargetsIffEmpty(pass.deletions); }
  }

  /** Exactness of an error-free pass. */
  lemma ErrorFreePassIsExact(owner: string, cluster: Cluster, stored: Option<seq<Ref>>, pass: Pass)
    requires Fits(owner, cluster, stored, pass)
    requires RunPass(owner, cluster, stored, pass).errors == []
    requires OneVersionPerId(Existing(stored) + JobRefs(pass.jobs))
    ensures var after := RunPass(owner, cluster, stored, pass);
      && SortedListing(after.listing, JobRefs(pass.jobs))
      && IsDesired(owner, cluster, Existing(stored), pass.jobs, after.cluster)
      && JobIds(pass.jobs) <= after.cluster.Keys
  {
    ErrorFreePass(owner, cluster, stored, pass);
    var existing, refs := Existing(stored), JobRefs(pass.jobs);
    var p := Applied(owner, cluster, stored, pass.jobs);
    var after := RunPass(owner, cluster, stored, pass);
    forall id ensures Lookup(after.cluster, id) ==
        if id in JobIds(pass.jobs) then Grown(owner, Lookup(cluster, id), Layers(id, pass.jobs))
        else if id in Ids(existing) then None
        else Lookup(cluster, id)
      ensures id in JobIds(pass.jobs) ==> id in after.cluster
    {
      LayersIffRendered(id, pass.jobs);
      if id in JobIds(pass.jobs) {
        var j :| j in pass.jobs && j.Id() == id;
        assert j.Ref() in refs;
        assert id !in Ids(existing - refs);
        assert Lookup(after.cluster, id) == Lookup(p.cluster, id);
      } else if id in Ids(existing) {
        var r :| r in existing && r.id == id;
        assert r !in refs;
        assert id in Ids(existing - refs);
      } else {
        assert id !in Ids(existing - refs);
      }
    }
  }

  /** Without the one-version condition an error-free pass can list an object it has just deleted.
      It lists only objects that are on the cluster exactly when no dropped ref shares an ID with a rendered one. */
  lemma ListedObjectsExistIff(owner: string, cluster: Cluster, stored: Option<seq<Ref>>, pass: Pass)
    requires Fits(owner, cluster, stored, pass)
    requires RunPass(owner, cluster, stored, pass).errors == []
    ensures var after := RunPass(owner, cluster, stored, pass);
      Ids(RefSet(after.listing)) <= after.cluster.Keys
      <==> Ids(Existing(stored) - JobRefs(pass.jobs)) !! JobIds(pass.jobs)
  {
    ErrorFreePass(owner, cluster, stored, pass);
    assert Ids(JobRefs(pass.jobs)) == JobIds(pass.jobs) by {
      forall id | id in JobIds(pass.jobs) ensures id in Ids(JobRefs(pass.jobs)) {
        var j :| j in pass.jobs && j.Id() == id;
        assert j.Ref() in JobRefs(pass.jobs);
      }
    }
    var p := Applied(owner, cluster, stored, pass.jobs);
    forall id | id in JobIds(pass.jobs) ensures id in p.cluster {
      LayersIffRendered(id, pass.jobs);
      assert Lookup(p.cluster, id).Some?;
    }
  }

  // ---------- repeating a pass ----------

  lemma GrownTwice(owner: string, before: Option<Live>, layers: seq<Body>)
    ensures Grown(owner, Grown(owner, before, layers), layers) == Grown(owner, before, layers)
  {
    if layers != [] {
      if before.Some? {
        StackTwice(before.value.body, layers);
      } else {
        assert layers == [layers[0]] + layers[1..];
        StackAbsorbsFirst(layers[0], layers[1..]);
        StackTwice(layers[0], layers);
      }
    }
  }

  /** The same rendered objects, possibly with other verdicts. */
  ghost predicate SameManifests(a: seq<Job>, b: seq<Job>) {
    |a| == |b| && forall i :: 0 <= i < |a| ==> a[i].manifest == b[i].manifest
  }

  lemma {:induction false} SameManifestsSameLayers(a: seq<Job>, b: seq<Job>, id: string)
    requires SameManifests(a, b)
    ensures Layers(id, a) == Layers(id, b)
    ensures JobRefs(a) == JobRefs(b) && JobIds(a) == JobIds(b)
    decreases |a|
  {
    if a != [] {
      var n := |a| - 1;
      SameManifestsSameLayers(a[..n], b[..n], id);
      SetsOfSnoc(a);
      SetsOfSnoc(b);
    }
  }

  lemma SetsOfSnoc(jobs: seq<Job>)
    requires jobs != []
    ensures JobRefs(jobs) == JobRefs(jobs[..|jobs| - 1]) + {jobs[|jobs| - 1].Ref()}
    ensures JobIds(jobs) == JobIds(jobs[..|jobs| - 1]) + {jobs[|jobs| - 1].Id()}
  {
    assert jobs == jobs[..|jobs| - 1] + [jobs[|jobs| - 1]];
  }

  /** Fixpoint, duplicate refs included: after an error-free pass, a fault-free pass over the same
      rendered list changes neither the cluster nor the listing, and reports nothing. */
  lemma RepeatedPassIsIdle(owner: string, cluster: Cluster, stored: Option<seq<Ref>>, first: Pass,
                           kept: Option<seq<Ref>>, again: Pass)
    requires Fits(owner, cluster, stored, first)
    requires RunPass(owner, cluster, stored, first).errors == []
    requires OneVersionPerId(Existing(stored) + JobRefs(first.jobs))
    requires Existing(kept) == RefSet(first.listing)
    requires SameManifests(first.jobs, again.jobs) && NoFaults(again.jobs)
    requires Fits(owner, RunPass(owner, cluster, stored, first).cluster, kept, again)
    ensures var after := RunPass(owner, cluster, stored, first);
      RunPass(owner, after.cluster, kept, again) == after
  {
    var after := RunPass(owner, cluster, stored, first);
    ErrorFreePassIsExact(owner, cluster, stored, first);
    IdleOnItsOwnResult(owner, cluster, Existing(stored), first.jobs, after, kept, again);
  }

  /** A cluster and a listing that are what an error-free pass over `jobs` leaves. */
  ghost predicate IsSettled(owner: string, was: Cluster, existing: set<Ref>, jobs: seq<Job>, after: Report) {
    && IsDesired(owner, was, existing, jobs, after.cluster)
    && JobIds(jobs) <= after.cluster.Keys
    && SortedListing(after.listing, JobRefs(jobs)) && OneVersionPerId(JobRefs(jobs))
    && after.errors == []
  }

  lemma IdleOnItsOwnResult(owner: string, was: Cluster, existing: set<Ref>, jobs: seq<Job>, after: Report,
                           kept: Option<seq<Ref>>, again: Pass)
    requires IsSettled(owner, was, existing, jobs, after)
    requires Existing(kept) == RefSet(after.listing)
    requires SameManifests(jobs, again.jobs) && NoFaults(again.jobs)
    requires Fits(owner, after.cluster, kept, again)
    ensures RunPass(owner, after.cluster, kept, again) == after
  {
    var ctx := Context(owner, RefSet(after.listing));
    SameManifestsSameLayers(jobs, again.jobs, "");
    assert NothingInTheWay(ctx.existing, after.cluster, again.jobs) by {
      forall i | 0 <= i < |again.jobs| ensures again.jobs[i].Ref() in ctx.existing {
        assert again.jobs[i] in again.jobs;
        assert again.jobs[i].Ref() in JobRefs(again.jobs);
      }
    }
    ErrorFreeIffNothingInTheWay(ctx, after.cluster, again.jobs);
    ErrorFreeLoop(ctx, Start(after.cluster), again.jobs);
    var p := Applied(owner, after.cluster, kept, again.jobs);
    assert p.entries == JobRefs(jobs);
    assert RefSet(Targets(again.deletions)) == {};
    NoTargetsIffEmpty(again.deletions);
    SortedListingIsUnique(after.listing, again.listing, JobRefs(jobs));
    forall id ensures Lookup(p.cluster, id) == Lookup(after.cluster, id) {
      SameManifestsSameLayers(jobs, again.jobs, id);
      LayersIffRendered(id, jobs);
      if id in JobIds(jobs) {
        GrownTwice(owner, Lookup(was, id), Layers(id, jobs));
      }
    }
    SameLookupsSameCluster(p.cluster, after.cluster);
  }

  lemma NoTargetsIffEmpty(ds: seq<Deletion>)
    ensures RefSet(Targets(ds)) == {} <==> ds == []
  {
    if ds != [] { assert Targets(ds)[0] in RefSet(Targets(ds)); }
  }

  lemma SameLookupsSameCluster(a: Cluster, b: Cluster)
    requires forall id :: Lookup(a, id) == Lookup(b, id)
    ensures a == b
  {
    assert forall id :: id in a <==> Lookup(a, id).Some?;
    assert forall id :: id in b <==> Lookup(b, id).Some?;
    assert forall id :: id in a ==> a[id] == Lookup(a, id).value;
    assert forall id :: id in b ==> b[id] == Lookup(b, id).value;
  }
}
