/** What one apply-and-prune pass does to the objects of its set and to everyone else's. */
module Ownership {
  import opened Wrappers
  import opened Objects
  import opened Listing
  import opened Apply
  import opened ApplyProofs

  /** The live objects that `owner` created. */
  function Created(owner: string, cluster: Cluster): set<string> {
    set id | id in cluster && cluster[id].creator == Some(owner)
  }

  /** Live objects of `owner` that `refs` does not name. */
  function Orphans(owner: string, cluster: Cluster, refs: set<Ref>): set<string> {
    Created(owner, cluster) - Ids(refs)
  }

  /** The facts about a pass that hold for every pattern of failures. */
  lemma PassFacts(owner: string, cluster: Cluster, stored: Option<seq<Ref>>, pass: Pass)
    requires Fits(owner, cluster, stored, pass)
    ensures var after := RunPass(owner, cluster, stored, pass).cluster;
      var gone := Ids(RefSet(Targets(pass.deletions[..Executed(pass.deletions)])));
      var p := Applied(owner, cluster, stored, pass.jobs);
      && after == p.cluster - gone
      && gone <= Ids(Existing(stored))
      && LoopInvariant(Context(owner, Existing(stored)), cluster, p, pass.jobs)
      && RefSet(pass.listing) == p.entries
  {
    var p := Applied(owner, cluster, stored, pass.jobs);
    var ds := pass.deletions;
    LoopKeepsInvariant(Context(owner, Existing(stored)), cluster, pass.jobs);
    RemovalIsPrefix(p.cluster, ds);
    PrefixTargets(ds, Executed(ds));
    if stored.None? {
      assert RefSet(Targets(ds[..Executed(ds)])) == {};
      assert p.cluster - Ids({}) == p.cluster;
    }
  }

  lemma PrefixTargets(ds: seq<Deletion>, k: nat)
    requires k <= |ds|
    ensures RefSet(Targets(ds[..k])) <= RefSet(Targets(ds))
    ensures RefSet(Targets(ds)) == RefSet(Targets(ds[..k])) + RefSet(Targets(ds[k..]))
  {
    assert Targets(ds) == Targets(ds[..k]) + Targets(ds[k..]);
  }

  /** An object whose ID the stored inventory does not name is neither changed nor deleted, even if a
      template renders that ID and whatever the API answers. */
  lemma ForeignUntouched(owner: string, cluster: Cluster, stored: Option<seq<Ref>>, pass: Pass, id: string)
    requires Fits(owner, cluster, stored, pass)
    requires id in cluster && id !in Ids(Existing(stored))
    ensures id in RunPass(owner, cluster, stored, pass).cluster
    ensures RunPass(owner, cluster, stored, pass).cluster[id] == cluster[id]
  {
    PassFacts(owner, cluster, stored, pass);
  }

  /** If the status write fails after the pass, the orphans are exactly the objects it created under
      IDs that the old inventory does not name. */
  lemma OrphansOfUnstoredPass(owner: string, cluster: Cluster, stored: Option<seq<Ref>>, pass: Pass)
    requires Fits(owner, cluster, stored, pass)
    requires Orphans(owner, cluster, Existing(stored)) == {}
    ensures var after := RunPass(owner, cluster, stored, pass).cluster;
      Orphans(owner, after, Existing(stored)) == (after.Keys - cluster.Keys) - Ids(Existing(stored))
  {
    PassFacts(owner, cluster, stored, pass);
    var after := RunPass(owner, cluster, stored, pass).cluster;
    forall id | id in Orphans(owner, after, Existing(stored)) ensures id !in cluster {
      assert id !in Orphans(owner, cluster, Existing(stored));
    }
  }

  /** The listed refs that are rendered again and get as far as being entered. */
  function Reentered(existing: set<Ref>, jobs: seq<Job>): set<Ref> {
    set j | j in jobs && j.Ref() in existing && !j.verdict.refFails && !j.verdict.parseFails :: j.Ref()
  }

  /** Of the listed refs the loop enters exactly those. */
  lemma {:induction false} ReenteredIsEntered(ctx: Context, was: Cluster, jobs: seq<Job>)
    ensures ApplyAll(ctx, Start(was), jobs).entries * ctx.existing == Reentered(ctx.existing, jobs)
    decreases |jobs|
  {
    if jobs != [] {
      var init, last := jobs[..|jobs| - 1], jobs[|jobs| - 1];
      ReenteredIsEntered(ctx, was, init);
      assert jobs == init + [last];
      assert Reentered(ctx.existing, jobs) == Reentered(ctx.existing, init) + Reentered(ctx.existing, [last]);
    }
  }

  /** An ID that is neither taken nor listed is taken after the loop exactly when some job can create it. */
  lemma {:induction false} AppearsIff(ctx: Context, was: Cluster, jobs: seq<Job>, id: string)
    requires id !in was && id !in Ids(ctx.existing)
    ensures id in ApplyAll(ctx, Start(was), jobs).cluster <==>
      exists j :: j in jobs && j.Id() == id && j.CanCreate()
    decreases |jobs|
  {
    if jobs != [] {
      var init, last := jobs[..|jobs| - 1], jobs[|jobs| - 1];
      AppearsIff(ctx, was, init, id);
      assert jobs == init + [last];
      assert last.Ref() in ctx.existing ==> last.Id() in Ids(ctx.existing);
      var q := ApplyAll(ctx, Start(was), init);
      AttemptFacts(ctx, Lookup(q.cluster, last.Id()), last);
      if exists j :: j in jobs && j.Id() == id && j.CanCreate() {
        var j :| j in jobs && j.Id() == id && j.CanCreate();
        assert j in init || j == last;
      }
    }
  }

  /** Every object the jobs can create has an ID in `known`. */
  ghost predicate CreatesOnly(known: set<string>, jobs: seq<Job>) {
    forall j :: j in jobs && j.CanCreate() ==> j.Id() in known
  }

  /** Nothing appears outside the listed IDs exactly when no job can create such an object. */
  lemma NothingNewIff(owner: string, cluster: Cluster, stored: Option<seq<Ref>>, pass: Pass)
    requires Fits(owner, cluster, stored, pass)
    ensures var after := RunPass(owner, cluster, stored, pass).cluster;
      after.Keys - cluster.Keys <= Ids(Existing(stored))
      <==> CreatesOnly(cluster.Keys + Ids(Existing(stored)), pass.jobs)
  {
    PassFacts(owner, cluster, stored, pass);
    var after, listed := RunPass(owner, cluster, stored, pass).cluster, Ids(Existing(stored));
    var p := Applied(owner, cluster, stored, pass.jobs);
    forall id | id !in cluster && id !in listed
      ensures id in after <==> exists j :: j in pass.jobs && j.Id() == id && j.CanCreate()
    {
      AppearsIff(Context(owner, Existing(stored)), cluster, pass.jobs, id);
      assert id in after <==> id in p.cluster;
    }
  }

  /** Among the objects that were there, the new inventory lists those rendered again under a listed ref. */
  lemma ListedAmongCreated(owner: string, cluster: Cluster, stored: Option<seq<Ref>>, pass: Pass)
    requires Fits(owner, cluster, stored, pass)
    ensures cluster.Keys * Ids(RefSet(pass.listing)) == cluster.Keys * Ids(Reentered(Existing(stored), pass.jobs))
  {
    PassFacts(owner, cluster, stored, pass);
    ReenteredIsEntered(Context(owner, Existing(stored)), cluster, pass.jobs);
    var entries, again := RefSet(pass.listing), Reentered(Existing(stored), pass.jobs);
    forall id | id in cluster ensures id in Ids(entries) <==> id in Ids(again) {
      assert forall r :: r in entries && r.id == id ==> r in Existing(stored);
      assert forall r :: r in again ==> r in entries;
    }
  }

  /** The orphans a pass leaves when its inventory is stored: exactly the live objects behind the
      deletions it did not carry out, unless a completed deletion had the same ID or the ID is rendered
      again under a listed ref. */
  lemma OrphansOfStoredPass(owner: string, cluster: Cluster, stored: Option<seq<Ref>>, pass: Pass)
    requires Fits(owner, cluster, stored, pass)
    requires Orphans(owner, cluster, Existing(stored)) == {}
    ensures var k := Executed(pass.deletions);
      Orphans(owner, RunPass(owner, cluster, stored, pass).cluster, RefSet(pass.listing))
      == Created(owner, cluster) * Ids(RefSet(Targets(pass.deletions[k..])))
         - Ids(RefSet(Targets(pass.deletions[..k]))) - Ids(Reentered(Existing(stored), pass.jobs))
  {
    PassFacts(owner, cluster, stored, pass);
    var ds, k := pass.deletions, Executed(pass.deletions);
    var after := RunPass(owner, cluster, stored, pass).cluster;
    var entries := RefSet(pass.listing);
    var done, skipped := Ids(RefSet(Targets(ds[..k]))), Ids(RefSet(Targets(ds[k..])));
    PrefixTargets(ds, k);
    forall id | id in Orphans(owner, after, entries)
      ensures id in Created(owner, cluster) && id in skipped && id !in done && id !in Ids(entries)
    {
      assert id in Created(owner, cluster);
      assert id !in Orphans(owner, cluster, Existing(stored));
      var r :| r in Existing(stored) && r.id == id;
      assert r !in entries;
      assert r in RefSet(Targets(ds));
    }
    forall id | id in Created(owner, cluster) && id in skipped && id !in done && id !in Ids(entries)
      ensures id in Orphans(owner, after, entries)
    {
    }
    ListedAmongCreated(owner, cluster, stored, pass);
    var again := Ids(Reentered(Existing(stored), pass.jobs));
    forall id | id in Created(owner, cluster) ensures id in Ids(entries) <==> id in again {
      assert id in cluster.Keys * Ids(entries) <==> id in cluster.Keys * again;
    }
  }

  lemma {:induction false} ListedAndRenderedIsEntered(ctx: Context, p: Progress, jobs: seq<Job>, job: Job)
    requires job in jobs && job.Ref() in ctx.existing && !job.verdict.refFails && !job.verdict.parseFails
    ensures job.Ref() in ApplyAll(ctx, p, jobs).entries
    decreases |jobs|
  {
    if job != jobs[|jobs| - 1] {
      ListedAndRenderedIsEntered(ctx, p, jobs[..|jobs| - 1], job);
    }
  }

  /** Failing Get, Patch, Create and Delete calls never cost the set an object that it still renders:
      a ref that is listed and rendered stays listed, and with one version per listed ID its object stays too. */
  lemma FailuresNeverDropRendered(owner: string, cluster: Cluster, stored: Option<seq<Ref>>, pass: Pass, job: Job)
    requires Fits(owner, cluster, stored, pass)
    requires job in pass.jobs && job.Ref() in Existing(stored) && !job.verdict.refFails && !job.verdict.parseFails
    ensures job.Ref() in RefSet(pass.listing)
    ensures OneVersionPerId(Existing(stored)) && job.Id() in cluster ==>
      job.Id() in RunPass(owner, cluster, stored, pass).cluster
  {
    PassFacts(owner, cluster, stored, pass);
    ListedAndRenderedIsEntered(Context(owner, Existing(stored)), Start(cluster), pass.jobs, job);
    PrefixTargets(pass.deletions, Executed(pass.deletions));
  }

  /** The inventory names exactly the live objects the set created, each under one version. */
  ghost predicate OwnsExactly(owner: string, cluster: Cluster, refs: set<Ref>) {
    Ids(refs) == Created(owner, cluster) && OneVersionPerId(refs)
  }

  /** Get, Patch and Create may fail at will: if the deletions succeed, exact ownership is kept. */
  lemma PassKeepsOwnership(owner: string, cluster: Cluster, stored: Option<seq<Ref>>, pass: Pass)
    requires Fits(owner, cluster, stored, pass)
    requires OwnsExactly(owner, cluster, Existing(stored))
    requires AllSucceed(pass.deletions)
    ensures OwnsExactly(owner, RunPass(owner, cluster, stored, pass).cluster, RefSet(pass.listing))
  {
    PassFacts(owner, cluster, stored, pass);
    var old_, entries := Existing(stored), RefSet(pass.listing);
    var p := Applied(owner, cluster, stored, pass.jobs);
    var after := RunPass(owner, cluster, stored, pass).cluster;
    RemovalIsPrefix(p.cluster, pass.deletions);
    assert pass.deletions[..|pass.deletions|] == pass.deletions;
    var gone := Ids(old_ - entries);
    assert after == p.cluster - gone;
    forall r, s | r in entries && s in entries && r.id == s.id ensures r == s {
      if r in old_ { assert r.id in Ids(old_); assert s.id in cluster; }
      if s in old_ { assert s.id in Ids(old_); assert r.id in cluster; }
    }
    forall r | r in entries ensures r.id in Created(owner, after) {
      if r in old_ {
        assert r.id in Ids(old_);
        assert r.id in cluster && r.id in p.cluster;
      } else {
        assert r.id !in cluster;
      }
      assert forall s :: s in old_ && s.id == r.id ==> s.id in Ids(old_) && r in old_;
    }
    forall id | id in Created(owner, after) ensures id in Ids(entries) {
      if id in cluster {
        assert id in Created(owner, cluster);
        assert id !in gone;
      }
    }
  }

  /** A deletion other than those before it concerns another ID, if each ID has one version. */
  lemma LaterTargetsDiffer(ds: seq<Deletion>, k: nat, refs: set<Ref>)
    requires Enumerates(Targets(ds), refs) && OneVersionPerId(refs) && k < |ds|
    ensures ds[k].ref in refs
    ensures ds[k].ref.id !in Ids(RefSet(Targets(ds[..k])))
  {
    assert Targets(ds)[k] == ds[k].ref;
    assert ds[k].ref in RefSet(Targets(ds));
    forall r | r in RefSet(Targets(ds[..k])) ensures r.id != ds[k].ref.id {
      var i :| 0 <= i < k && Targets(ds[..k])[i] == r;
      assert Targets(ds)[i] == r;
      assert r in RefSet(Targets(ds));
    }
  }

  /** A skipped deletion leaves an object that was the set's and is listed no longer. */
  lemma SkippedDeletionDisowns(owner: string, cluster: Cluster, stored: Option<seq<Ref>>, pass: Pass)
    requires Fits(owner, cluster, stored, pass)
    requires OwnsExactly(owner, cluster, Existing(stored))
    requires !AllSucceed(pass.deletions)
    ensures !OwnsExactly(owner, RunPass(owner, cluster, stored, pass).cluster, RefSet(pass.listing))
  {
    PassFacts(owner, cluster, stored, pass);
    var ds, k := pass.deletions, Executed(pass.deletions);
    RemovalIsPrefix(cluster, ds);
    var lost, after := ds[k].ref, RunPass(owner, cluster, stored, pass).cluster;
    var dropped := Existing(stored) - RefSet(pass.listing);
    assert Pruned(owner, cluster, stored, pass.jobs) == dropped;
    LaterTargetsDiffer(ds, k, dropped);
    assert lost.id in Ids(Existing(stored));
    assert lost.id in Created(owner, after);
    forall r | r in RefSet(pass.listing) ensures r.id != lost.id {
      if r in Existing(stored) { assert r != lost; }
    }
  }

  /** Get, Patch and Create may fail at will: exact ownership is kept exactly if the deletions succeed. */
  lemma PassKeepsOwnershipIff(owner: string, cluster: Cluster, stored: Option<seq<Ref>>, pass: Pass)
    requires Fits(owner, cluster, stored, pass)
    requires OwnsExactly(owner, cluster, Existing(stored))
    ensures OwnsExactly(owner, RunPass(owner, cluster, stored, pass).cluster, RefSet(pass.listing))
       <==> AllSucceed(pass.deletions)
  {
    if AllSucceed(pass.deletions) {
      PassKeepsOwnership(owner, cluster, stored, pass);
    } else {
      SkippedDeletionDisowns(owner, cluster, stored, pass);
    }
  }

  /** If its inventory is not stored, a pass keeps exact ownership exactly when it deletes nothing and
      can create nothing. */
  lemma UnstoredPassKeepsOwnershipIff(owner: string, cluster: Cluster, stored: Option<seq<Ref>>, pass: Pass)
    requires Fits(owner, cluster, stored, pass)
    requires OwnsExactly(owner, cluster, Existing(stored))
    ensures OwnsExactly(owner, RunPass(owner, cluster, stored, pass).cluster, Existing(stored))
       <==> Executed(pass.deletions) == 0 && CreatesOnly(cluster.Keys, pass.jobs)
  {
    PassFacts(owner, cluster, stored, pass);
    NothingNewIff(owner, cluster, stored, pass);
    var ds, k := pass.deletions, Executed(pass.deletions);
    var after, listed := RunPass(owner, cluster, stored, pass).cluster, Ids(Existing(stored));
    assert cluster.Keys + listed == cluster.Keys;
    var gone := Ids(RefSet(Targets(ds[..k])));
    if k > 0 {
      assert Targets(ds[..k])[0] in RefSet(Targets(ds[..k]));
      assert ds[0].ref.id in gone && ds[0].ref.id in listed;
      assert ds[0].ref.id !in Created(owner, after);
    } else {
      assert gone == {};
      assert Created(owner, cluster) <= Created(owner, after);
      if !(after.Keys <= cluster.Keys) {
        var made :| made in after && made !in cluster;
        assert made in Created(owner, after) && made !in listed;
      } else {
        assert Created(owner, after) == Created(owner, cluster);
      }
    }
  }
}
