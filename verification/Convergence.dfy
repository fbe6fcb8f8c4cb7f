/** Repeated fault-free runs over one rendered list: from any inventory the second run settles, or the
    third if an ID is rendered twice, exactly when no rendered ID is taken by an object the set does not
    list, and all later runs are no-ops. */
module Convergence {
  import opened Wrappers
  import opened Objects
  import opened Listing
  import opened Apply
  import opened ApplyProofs
  import opened Ownership
  import opened Exactness
  import opened Manifests

  /** A run's starting point: the cluster and the set's stored inventory. */
  datatype Situation = Situation(cluster: Cluster, stored: Option<seq<Ref>>)

  /** The inventory as it is stored: an empty one is stored as none at all. */
  function Kept(listing: seq<Ref>): Option<seq<Ref>> {
    if listing == [] then None else Some(listing)
  }

  function ReportOf(owner: string, s: Situation, pass: Pass): Report {
    RunPass(owner, s.cluster, s.stored, pass)
  }

  function Cycle(owner: string, s: Situation, pass: Pass): Situation {
    var r := ReportOf(owner, s, pass);
    Situation(r.cluster, Kept(r.listing))
  }

  /** A run over `jobs` in which the API raises no fault of its own. */
  ghost predicate CleanRun(owner: string, s: Situation, jobs: seq<Job>, pass: Pass) {
    && Fits(owner, s.cluster, s.stored, pass)
    && SameManifests(jobs, pass.jobs) && NoFaults(pass.jobs)
    && AllSucceed(pass.deletions)
  }

  /** The situation in which run number `i` starts. */
  function Before(owner: string, s: Situation, passes: seq<Pass>, i: nat): Situation
    requires i <= |passes|
  {
    if i == 0 then s else Cycle(owner, Before(owner, s, passes, i - 1), passes[i - 1])
  }

  ghost predicate IsRun(owner: string, s: Situation, jobs: seq<Job>, passes: seq<Pass>, i: nat)
    requires i < |passes|
  {
    CleanRun(owner, Before(owner, s, passes, i), jobs, passes[i])
  }

  ghost predicate CleanRuns(owner: string, s: Situation, jobs: seq<Job>, passes: seq<Pass>) {
    forall i {:trigger IsRun(owner, s, jobs, passes, i)} :: 0 <= i < |passes| ==> IsRun(owner, s, jobs, passes, i)
  }

  /** No rendered ID is on the cluster without being in the inventory, under whatever version. */
  ghost predicate NoForeignTaken(s: Situation, jobs: seq<Job>) {
    forall j :: j in jobs && j.Id() in s.cluster ==> j.Id() in Ids(Existing(s.stored))
  }

  /** No rendered ref comes second on its ID while that ID is live and the ref not listed: only a stale
      version can then hold it, and the second Create after pruning would fail. */
  ghost predicate StaleOnce(s: Situation, jobs: seq<Job>) {
    forall i :: 0 <= i < |jobs| && jobs[i].Ref() !in Existing(s.stored) && jobs[i].Id() in s.cluster ==>
      jobs[i].Id() !in JobIds(jobs[..i])
  }

  lemma DistinctIdsOneVersion(s: Situation, jobs: seq<Job>)
    requires DistinctIds(jobs)
    ensures OneVersionPerId(JobRefs(jobs)) && StaleOnce(s, jobs)
  {
    forall i | 0 <= i < |jobs| ensures jobs[i].Id() !in JobIds(jobs[..i]) {
    }
  }

  /** An ID that is taken by the loop is taken by the only rendered ref for it. */
  lemma TakenIsEntered(ctx: Context, cluster: Cluster, jobs: seq<Job>, ref: Ref)
    requires OneVersionPerId(JobRefs(jobs) + {ref}) && ref.id !in cluster
    requires ref.id in ApplyAll(ctx, Start(cluster), jobs).cluster
    ensures ref in ApplyAll(ctx, Start(cluster), jobs).entries
  {
    LoopKeepsInvariant(ctx, cluster, jobs);
    var p := ApplyAll(ctx, Start(cluster), jobs);
    var r :| r in p.entries && r.id == ref.id;
    assert r in JobRefs(jobs);
  }

  /** A fault-free run enters a rendered ref exactly when it was listed or its ID was free. */
  lemma {:induction false} EnteredIff(ctx: Context, cluster: Cluster, jobs: seq<Job>, ref: Ref)
    requires NoFaults(jobs) && OneVersionPerId(JobRefs(jobs)) && ref in JobRefs(jobs)
    ensures ref in ApplyAll(ctx, Start(cluster), jobs).entries <==> ref in ctx.existing || ref.id !in cluster
    decreases |jobs|
  {
    var init, last := jobs[..|jobs| - 1], jobs[|jobs| - 1];
    SetsOfSnoc(jobs);
    var p := ApplyAll(ctx, Start(cluster), init);
    FaultFreeEffect(ctx, Lookup(p.cluster, last.Id()), last);
    if ref in JobRefs(init) { EnteredIff(ctx, cluster, init, ref); }
    if ref == last.Ref() {
      LoopKeepsInvariant(ctx, cluster, init);
      if ref.id !in cluster && ref.id in p.cluster { TakenIsEntered(ctx, cluster, init, ref); }
      if ref in p.entries && ref !in JobRefs(init) { assert false; }
    }
  }

  lemma FaultFreeEffect(ctx: Context, before: Option<Live>, job: Job)
    requires job.verdict == NO_FAULT
    ensures Attempt(ctx, before, job).kept <==> job.Ref() in ctx.existing || before.None?
  {
  }

  /** Every rendered ref is listed or its ID free, and only rendered refs are listed. */
  ghost predicate Cleared(s: Situation, jobs: seq<Job>) {
    && (forall j :: j in jobs ==> j.Ref() in Existing(s.stored) || j.Id() !in s.cluster)
    && Existing(s.stored) <= JobRefs(jobs)
  }

  /** What a fault-free run enters. */
  lemma CleanRunEnters(owner: string, s: Situation, jobs: seq<Job>, pass: Pass)
    requires CleanRun(owner, s, jobs, pass) && OneVersionPerId(JobRefs(jobs))
    ensures var entries := Applied(owner, s.cluster, s.stored, pass.jobs).entries;
      forall j :: j in jobs ==> (j.Ref() in entries <==> j.Ref() in Existing(s.stored) || j.Id() !in s.cluster)
  {
    SameManifestsSameLayers(jobs, pass.jobs, "");
    var entries := Applied(owner, s.cluster, s.stored, pass.jobs).entries;
    forall j | j in jobs ensures j.Ref() in entries <==> j.Ref() in Existing(s.stored) || j.Id() !in s.cluster {
      assert j.Ref() in JobRefs(jobs);
      EnteredIff(Context(owner, Existing(s.stored)), s.cluster, pass.jobs, j.Ref());
    }
  }

  /** What a fault-free run leaves: the entries, and the cluster without the refs that were dropped. */
  lemma CleanRunFacts(owner: string, s: Situation, jobs: seq<Job>, pass: Pass)
    requires CleanRun(owner, s, jobs, pass) && OneVersionPerId(JobRefs(jobs))
    ensures var t := Cycle(owner, s, pass);
      && Existing(t.stored) == Applied(owner, s.cluster, s.stored, pass.jobs).entries <= JobRefs(jobs)
      && (forall id :: id in t.cluster ==> id !in Ids(Existing(s.stored) - Existing(t.stored)))
  {
    var p := Applied(owner, s.cluster, s.stored, pass.jobs);
    SameManifestsSameLayers(jobs, pass.jobs, "");
    PassFacts(owner, s.cluster, s.stored, pass);
    RemovalIsPrefix(p.cluster, pass.deletions);
    assert pass.deletions[..|pass.deletions|] == pass.deletions;
  }

  /** One fault-free run clears the way: stale versions are pruned. Nothing is then in the way of the
      second run exactly if no stale ID is rendered twice. */
  lemma FirstRunClearsTheWay(owner: string, s: Situation, jobs: seq<Job>, pass: Pass)
    requires CleanRun(owner, s, jobs, pass) && OneVersionPerId(JobRefs(jobs))
    requires NoForeignTaken(s, jobs)
    ensures var t := Cycle(owner, s, pass);
      && Cleared(t, jobs)
      && (NothingInTheWay(Existing(t.stored), t.cluster, jobs) <==> StaleOnce(s, jobs))
  {
    CleanRunFacts(owner, s, jobs, pass);
    CleanRunEnters(owner, s, jobs, pass);
    var existing, t := Existing(s.stored), Cycle(owner, s, pass);
    var entries := Existing(t.stored);
    forall j | j in jobs && j.Ref() !in entries ensures j.Id() !in t.cluster {
      var stale :| stale in existing && stale.id == j.Id();
      assert stale !in entries by {
        assert j.Ref() in JobRefs(jobs);
        assert stale in JobRefs(jobs) ==> stale == j.Ref();
      }
      assert stale.id in Ids(existing - entries);
    }
    forall i | 0 <= i < |jobs|
      ensures jobs[i].Ref() !in entries <==> jobs[i].Ref() !in existing && jobs[i].Id() in s.cluster
    {
      assert jobs[i] in jobs;
    }
  }

  /** From a cleared start a fault-free run lists every rendered ref, and nothing is in the next one's way. */
  lemma ClearedRunListsAll(owner: string, s: Situation, jobs: seq<Job>, pass: Pass)
    requires CleanRun(owner, s, jobs, pass) && OneVersionPerId(JobRefs(jobs))
    requires Cleared(s, jobs)
    ensures var t := Cycle(owner, s, pass);
      Cleared(t, jobs) && NothingInTheWay(Existing(t.stored), t.cluster, jobs)
  {
    CleanRunFacts(owner, s, jobs, pass);
    CleanRunEnters(owner, s, jobs, pass);
    var t := Cycle(owner, s, pass);
    forall i | 0 <= i < |jobs| ensures jobs[i].Ref() in Existing(t.stored) {
      assert jobs[i] in jobs;
    }
  }

  lemma SameManifestsSameWay(existing: set<Ref>, cluster: Cluster, a: seq<Job>, b: seq<Job>)
    requires SameManifests(a, b)
    ensures NothingInTheWay(existing, cluster, a) <==> NothingInTheWay(existing, cluster, b)
  {
    forall i | 0 <= i < |a| ensures JobIds(a[..i]) == JobIds(b[..i]) {
      SameManifestsSameLayers(a[..i], b[..i], "");
    }
  }

  lemma CleanRunErrorFreeIff(owner: string, s: Situation, jobs: seq<Job>, pass: Pass)
    requires CleanRun(owner, s, jobs, pass)
    ensures ReportOf(owner, s, pass).errors == [] <==> NothingInTheWay(Existing(s.stored), s.cluster, jobs)
  {
    SameManifestsSameWay(Existing(s.stored), s.cluster, jobs, pass.jobs);
    ErrorFreeIffNothingInTheWay(Context(owner, Existing(s.stored)), s.cluster, pass.jobs);
    FullRemoval(Applied(owner, s.cluster, s.stored, pass.jobs).cluster, pass.deletions);
  }

  /** A fault-free run that found nothing but rendered refs listed settles if it is error-free. */
  lemma CleanRunSettles(owner: string, s: Situation, jobs: seq<Job>, pass: Pass)
    requires CleanRun(owner, s, jobs, pass) && OneVersionPerId(JobRefs(jobs))
    requires Existing(s.stored) <= JobRefs(jobs) && ReportOf(owner, s, pass).errors == []
    ensures IsSettled(owner, s.cluster, Existing(s.stored), pass.jobs, ReportOf(owner, s, pass))
  {
    SameManifestsSameLayers(jobs, pass.jobs, "");
    assert Existing(s.stored) + JobRefs(pass.jobs) == JobRefs(jobs);
    ErrorFreePassIsExact(owner, s.cluster, s.stored, pass);
  }

  /** Any fault-free run after this one reports the same. */
  ghost predicate IsSteady(owner: string, s: Situation, jobs: seq<Job>, pass: Pass) {
    forall again {:trigger CleanRun(owner, Cycle(owner, s, pass), jobs, again)} ::
      CleanRun(owner, Cycle(owner, s, pass), jobs, again) ==>
        ReportOf(owner, Cycle(owner, s, pass), again) == ReportOf(owner, s, pass)
  }

  lemma SettledIsSteady(owner: string, s: Situation, jobs: seq<Job>, pass: Pass)
    requires IsSettled(owner, s.cluster, Existing(s.stored), pass.jobs, ReportOf(owner, s, pass))
    requires SameManifests(jobs, pass.jobs)
    ensures IsSteady(owner, s, jobs, pass)
  {
    var t := Cycle(owner, s, pass);
    forall again | CleanRun(owner, t, jobs, again) ensures ReportOf(owner, t, again) == ReportOf(owner, s, pass) {
      IdleOnItsOwnResult(owner, s.cluster, Existing(s.stored), pass.jobs, ReportOf(owner, s, pass), t.stored, again);
    }
  }

  /** After a steady run k any number of further fault-free runs report the same and change nothing. */
  lemma {:induction false} SteadyForever(owner: string, s: Situation, jobs: seq<Job>, passes: seq<Pass>, k: nat, i: nat)
    requires CleanRuns(owner, s, jobs, passes) && k < i < |passes|
    requires IsSteady(owner, Before(owner, s, passes, k), jobs, passes[k])
    ensures Before(owner, s, passes, i) == Before(owner, s, passes, k + 1)
    ensures ReportOf(owner, Before(owner, s, passes, i), passes[i])
         == ReportOf(owner, Before(owner, s, passes, k), passes[k])
    decreases i
  {
    if i > k + 1 { SteadyForever(owner, s, jobs, passes, k, i - 1); }
    assert IsRun(owner, s, jobs, passes, i);
    assert CleanRun(owner, Cycle(owner, Before(owner, s, passes, k), passes[k]), jobs, passes[i]);
  }

  /** A rendered ID held by an object the set does not list fails the run and stays held. */
  lemma ForeignBlocks(owner: string, s: Situation, jobs: seq<Job>, pass: Pass)
    requires CleanRun(owner, s, jobs, pass) && !NoForeignTaken(s, jobs)
    ensures ReportOf(owner, s, pass).errors != []
    ensures !NoForeignTaken(Cycle(owner, s, pass), jobs)
  {
    var t := Cycle(owner, s, pass);
    var existing := Existing(s.stored);
    var n :| 0 <= n < |jobs| && jobs[n].Id() in s.cluster && jobs[n].Id() !in Ids(existing);
    assert pass.jobs[n].Ref() == jobs[n].Ref() && jobs[n].Ref() !in existing;
    ErrorFreeIffNothingInTheWay(Context(owner, existing), s.cluster, pass.jobs);
    PassFacts(owner, s.cluster, s.stored, pass);
    ForeignUntouched(owner, s.cluster, s.stored, pass, jobs[n].Id());
    forall r | r in Existing(t.stored) ensures r.id != jobs[n].Id() {
      if r in existing { assert r.id in Ids(existing); }
    }
    assert jobs[n] in jobs;
  }

  lemma {:induction false} ForeignStays(owner: string, s: Situation, jobs: seq<Job>, passes: seq<Pass>, i: nat)
    requires CleanRuns(owner, s, jobs, passes)
    requires i < |passes| && !NoForeignTaken(s, jobs)
    ensures !NoForeignTaken(Before(owner, s, passes, i), jobs)
    decreases i
  {
    if i > 0 {
      ForeignStays(owner, s, jobs, passes, i - 1);
      assert IsRun(owner, s, jobs, passes, i - 1);
      ForeignBlocks(owner, Before(owner, s, passes, i - 1), jobs, passes[i - 1]);
    }
  }

  lemma ForeignBlocksForever(owner: string, s: Situation, jobs: seq<Job>, passes: seq<Pass>, i: nat)
    requires CleanRuns(owner, s, jobs, passes)
    requires i < |passes| && !NoForeignTaken(s, jobs)
    ensures ReportOf(owner, Before(owner, s, passes, i), passes[i]).errors != []
  {
    ForeignStays(owner, s, jobs, passes, i);
    assert IsRun(owner, s, jobs, passes, i);
    ForeignBlocks(owner, Before(owner, s, passes, i), jobs, passes[i]);
  }

  lemma SettledIsAsRendered(owner: string, was: Cluster, existing: set<Ref>, done: seq<Job>, jobs: seq<Job>,
                            after: Report)
    requires IsSettled(owner, was, existing, done, after) && SameManifests(jobs, done)
    ensures AsRendered(after.cluster, jobs)
  {
    forall j | j in jobs
      ensures j.Id() in after.cluster
           && Stack(after.cluster[j.Id()].body, Layers(j.Id(), jobs)) == after.cluster[j.Id()].body
    {
      var id := j.Id();
      SameManifestsSameLayers(jobs, done, id);
      assert id in JobIds(jobs);
      LayersIffRendered(id, done);
      GrownTwice(owner, Lookup(was, id), Layers(id, done));
    }
  }

  /** The first run that finds the cluster settled: the third, or the fourth if a stale ID is rendered twice. */
  ghost function FirstIdle(s: Situation, jobs: seq<Job>): nat {
    if StaleOnce(s, jobs) then 2 else 3
  }

  /** A report that says all is as it should be. */
  ghost predicate IsGood(r: Report, jobs: seq<Job>) {
    && r.errors == [] && SortedListing(r.listing, JobRefs(jobs))
    && AsRendered(r.cluster, jobs) && MatchesManifests(r.cluster, jobs)
  }

  /** With nothing in its way a fault-free run settles. */
  lemma SettlingRun(owner: string, s: Situation, jobs: seq<Job>, pass: Pass)
    requires OneVersionPerId(JobRefs(jobs)) && CleanRun(owner, s, jobs, pass)
    requires Existing(s.stored) <= JobRefs(jobs) && NothingInTheWay(Existing(s.stored), s.cluster, jobs)
    ensures IsSettled(owner, s.cluster, Existing(s.stored), pass.jobs, ReportOf(owner, s, pass))
    ensures IsGood(ReportOf(owner, s, pass), jobs)
  {
    CleanRunErrorFreeIff(owner, s, jobs, pass);
    CleanRunSettles(owner, s, jobs, pass);
    SameManifestsSameLayers(jobs, pass.jobs, "");
    SettledIsAsRendered(owner, s.cluster, Existing(s.stored), pass.jobs, jobs, ReportOf(owner, s, pass));
    AsRenderedMatches(ReportOf(owner, s, pass).cluster, jobs);
  }

  /** The run before the first idle one starts with nothing in its way. */
  lemma WayIsClear(owner: string, s: Situation, jobs: seq<Job>, passes: seq<Pass>)
    requires OneVersionPerId(JobRefs(jobs)) && CleanRuns(owner, s, jobs, passes) && NoForeignTaken(s, jobs)
    requires FirstIdle(s, jobs) <= |passes|
    ensures var t := Before(owner, s, passes, FirstIdle(s, jobs) - 1);
      Existing(t.stored) <= JobRefs(jobs) && NothingInTheWay(Existing(t.stored), t.cluster, jobs)
  {
    var t := Before(owner, s, passes, 1);
    assert IsRun(owner, s, jobs, passes, 0);
    FirstRunClearsTheWay(owner, s, jobs, passes[0]);
    if !StaleOnce(s, jobs) {
      assert IsRun(owner, s, jobs, passes, 1);
      ClearedRunListsAll(owner, t, jobs, passes[1]);
    }
  }

  /** The second run, which alone can still fail without a foreign holder. */
  lemma SecondRun(owner: string, s: Situation, jobs: seq<Job>, passes: seq<Pass>)
    requires OneVersionPerId(JobRefs(jobs)) && CleanRuns(owner, s, jobs, passes) && NoForeignTaken(s, jobs)
    requires |passes| > 1
    ensures ReportOf(owner, Before(owner, s, passes, 1), passes[1]).errors == [] <==> StaleOnce(s, jobs)
  {
    assert IsRun(owner, s, jobs, passes, 0);
    FirstRunClearsTheWay(owner, s, jobs, passes[0]);
    assert IsRun(owner, s, jobs, passes, 1);
    CleanRunErrorFreeIff(owner, Before(owner, s, passes, 1), jobs, passes[1]);
  }

  /** The run before the first idle one, and all that follow it. */
  lemma LaterRuns(owner: string, s: Situation, jobs: seq<Job>, passes: seq<Pass>, i: nat)
    requires OneVersionPerId(JobRefs(jobs)) && CleanRuns(owner, s, jobs, passes) && NoForeignTaken(s, jobs)
    requires FirstIdle(s, jobs) <= i + 1 <= |passes|
    ensures var start, k := Before(owner, s, passes, i), FirstIdle(s, jobs);
      && IsGood(ReportOf(owner, start, passes[i]), jobs)
      && Cycle(owner, start, passes[i]) == Before(owner, s, passes, k)
      && (i >= k ==> start == Before(owner, s, passes, k))
  {
    var k := FirstIdle(s, jobs) - 1;
    WayIsClear(owner, s, jobs, passes);
    assert IsRun(owner, s, jobs, passes, k);
    SettlingRun(owner, Before(owner, s, passes, k), jobs, passes[k]);
    SettledIsSteady(owner, Before(owner, s, passes, k), jobs, passes[k]);
    if i > k { SteadyForever(owner, s, jobs, passes, k, i); }
  }

  /** Convergence. Over any number of fault-free runs of one rendered list with one version per ID,
      duplicates allowed, from any inventory (stale versions and missing objects included): the second
      run is error-free exactly if no rendered ID is held by a foreign object and no stale ID is
      rendered twice, and every later one exactly if no rendered ID is held by a foreign object. An
      error-free run leaves exactly the rendered refs listed and every rendered object as rendered,
      and from the first idle run on nothing changes any more. */
  lemma TwoRunConvergence(owner: string, s: Situation, jobs: seq<Job>, passes: seq<Pass>, i: nat)
    requires OneVersionPerId(JobRefs(jobs)) && CleanRuns(owner, s, jobs, passes)
    requires 1 <= i < |passes|
    ensures var start, k := Before(owner, s, passes, i), FirstIdle(s, jobs);
      var r := ReportOf(owner, start, passes[i]);
      && (r.errors == [] <==> NoForeignTaken(s, jobs) && (i == 1 ==> StaleOnce(s, jobs)))
      && (r.errors == [] ==> IsGood(r, jobs) && Cycle(owner, start, passes[i]) == Before(owner, s, passes, k))
      && (r.errors == [] && i >= k ==> start == Before(owner, s, passes, k))
  {
    if !NoForeignTaken(s, jobs) {
      ForeignBlocksForever(owner, s, jobs, passes, i);
    } else if i + 1 < FirstIdle(s, jobs) {
      SecondRun(owner, s, jobs, passes);
    } else {
      LaterRuns(owner, s, jobs, passes, i);
    }
  }
}
