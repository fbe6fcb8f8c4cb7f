/** The outcome for one object depends on what is rendered for its ID and on nothing else, so the
    order in which objects are rendered and deleted does not matter. */
module Order {
  import opened Wrappers
  import opened Objects
  import opened Listing
  import opened Apply
  import opened ApplyProofs
  import opened Exactness

  function JobsFor(id: string, jobs: seq<Job>): seq<Job> {
    if jobs == [] then []
    else
      var last := jobs[|jobs| - 1];
      JobsFor(id, jobs[..|jobs| - 1]) + if last.Id() == id then [last] else []
  }

  ghost predicate AgreeAt(id: string, p: Progress, q: Progress) {
    && Lookup(p.cluster, id) == Lookup(q.cluster, id)
    && forall r: Ref :: r.id == id ==> (r in p.entries <==> r in q.entries)
  }

  lemma ApplySnoc(ctx: Context, p: Progress, init: seq<Job>, last: Job)
    ensures ApplyAll(ctx, p, init + [last]) == ApplyOne(ctx, ApplyAll(ctx, p, init), last)
  {
    assert (init + [last])[..|init|] == init;
  }

  /** Jobs for other IDs, failing or not, have no influence on the object and the entries at `id`. */
  lemma {:induction false} Locality(ctx: Context, p: Progress, q: Progress, jobs: seq<Job>, id: string)
    requires AgreeAt(id, p, q)
    ensures AgreeAt(id, ApplyAll(ctx, p, jobs), ApplyAll(ctx, q, JobsFor(id, jobs)))
    decreases |jobs|
  {
    if jobs != [] {
      var init, last := jobs[..|jobs| - 1], jobs[|jobs| - 1];
      Locality(ctx, p, q, init, id);
      if last.Id() == id {
        ApplySnoc(ctx, q, JobsFor(id, init), last);
      } else {
        assert JobsFor(id, jobs) == JobsFor(id, init);
      }
    }
  }

  ghost predicate ErrorFreeAt(id: string, ctx: Context, cluster: Cluster, jobs: seq<Job>) {
    ApplyAll(ctx, Start(cluster), JobsFor(id, jobs)).errors == []
  }

  /** One more job: the loop and the jobs for its own ID gain the same errors, other IDs none. */
  lemma ErrorsOfSnoc(ctx: Context, cluster: Cluster, init: seq<Job>, last: Job) returns (e: seq<ApplyError>)
    ensures ApplyAll(ctx, Start(cluster), init + [last]).errors == ApplyAll(ctx, Start(cluster), init).errors + e
    ensures forall id :: ErrorFreeAt(id, ctx, cluster, init + [last]) <==>
      ErrorFreeAt(id, ctx, cluster, init) && (id == last.Id() ==> e == [])
  {
    var here := last.Id();
    e := Attempt(ctx, Lookup(ApplyAll(ctx, Start(cluster), init).cluster, here), last).errors;
    ApplySnoc(ctx, Start(cluster), init, last);
    Locality(ctx, Start(cluster), Start(cluster), init, here);
    ApplySnoc(ctx, Start(cluster), JobsFor(here, init), last);
    assert (init + [last])[..|init|] == init;
    assert JobsFor(here, init + [last]) == JobsFor(here, init) + [last];
    forall id | id != here ensures JobsFor(id, init + [last]) == JobsFor(id, init) {
    }
  }

  /** A loop is error-free exactly when, for every ID, the jobs for that ID alone are. */
  lemma {:induction false} ErrorsAreLocal(ctx: Context, cluster: Cluster, jobs: seq<Job>)
    ensures ApplyAll(ctx, Start(cluster), jobs).errors == []
       <==> forall id :: ErrorFreeAt(id, ctx, cluster, jobs)
    decreases |jobs|
  {
    if jobs == [] {
      assert forall id :: ErrorFreeAt(id, ctx, cluster, jobs);
    } else {
      var init, last := jobs[..|jobs| - 1], jobs[|jobs| - 1];
      assert jobs == init + [last];
      ErrorsAreLocal(ctx, cluster, init);
      var e := ErrorsOfSnoc(ctx, cluster, init, last);
      if forall id :: ErrorFreeAt(id, ctx, cluster, jobs) {
        assert ErrorFreeAt(last.Id(), ctx, cluster, jobs);
        assert forall id :: ErrorFreeAt(id, ctx, cluster, init);
      }
    }
  }

  /** Two passes that render the same objects per ID, in any interleaving, and whose deletions
      succeed, in any order, end in the same cluster with the same entries, and fail together. */
  lemma OrderIndependence(owner: string, cluster: Cluster, stored: Option<seq<Ref>>, a: Pass, b: Pass)
    requires Fits(owner, cluster, stored, a) && Fits(owner, cluster, stored, b)
    requires forall id :: JobsFor(id, a.jobs) == JobsFor(id, b.jobs)
    requires AllSucceed(a.deletions) && AllSucceed(b.deletions)
    ensures var ra, rb := RunPass(owner, cluster, stored, a), RunPass(owner, cluster, stored, b);
      && ra.cluster == rb.cluster
      && RefSet(ra.listing) == RefSet(rb.listing)
      && (ra.errors == [] <==> rb.errors == [])
  {
    var ctx := Context(owner, Existing(stored));
    var pa, pb := Applied(owner, cluster, stored, a.jobs), Applied(owner, cluster, stored, b.jobs);
    forall id ensures AgreeAt(id, pa, pb) {
      Locality(ctx, Start(cluster), Start(cluster), a.jobs, id);
      Locality(ctx, Start(cluster), Start(cluster), b.jobs, id);
    }
    forall id ensures Lookup(pa.cluster, id) == Lookup(pb.cluster, id) {
      assert AgreeAt(id, pa, pb);
    }
    SameLookupsSameCluster(pa.cluster, pb.cluster);
    forall r ensures r in pa.entries <==> r in pb.entries {
      assert AgreeAt(r.id, pa, pb);
    }
    assert pa.entries == pb.entries;
    ErrorsAreLocal(ctx, cluster, a.jobs);
    ErrorsAreLocal(ctx, cluster, b.jobs);
    forall id ensures ErrorFreeAt(id, ctx, cluster, a.jobs) <==> ErrorFreeAt(id, ctx, cluster, b.jobs) {
      assert JobsFor(id, a.jobs) == JobsFor(id, b.jobs);
    }
    FullRemoval(pa.cluster, a.deletions);
    FullRemoval(pb.cluster, b.deletions);
  }

  lemma {:induction false} DistinctJobsFor(jobs: seq<Job>, id: string)
    requires DistinctIds(jobs)
    ensures id !in JobIds(jobs) ==> JobsFor(id, jobs) == []
    ensures forall j :: j in jobs && j.Id() == id ==> JobsFor(id, jobs) == [j]
    decreases |jobs|
  {
    if jobs != [] {
      var init, last := jobs[..|jobs| - 1], jobs[|jobs| - 1];
      LastIdIsNew(jobs);
      DistinctJobsFor(init, id);
      if last.Id() == id { assert JobsFor(id, jobs) == [] + [last]; }
    }
  }

  /** Permuting a rendered list with pairwise distinct IDs, each object keeping its verdicts, changes
      neither the final cluster, nor the inventory, nor whether the run fails. */
  lemma PermutationIndependence(owner: string, cluster: Cluster, stored: Option<seq<Ref>>, a: Pass, b: Pass)
    requires Fits(owner, cluster, stored, a) && Fits(owner, cluster, stored, b)
    requires DistinctIds(a.jobs) && DistinctIds(b.jobs)
    requires (set j | j in a.jobs) == (set j | j in b.jobs)
    requires AllSucceed(a.deletions) && AllSucceed(b.deletions)
    ensures var ra, rb := RunPass(owner, cluster, stored, a), RunPass(owner, cluster, stored, b);
      && ra.cluster == rb.cluster
      && ra.listing == rb.listing
      && (ra.errors == [] <==> rb.errors == [])
  {
    var all := set j | j in a.jobs;
    assert forall j :: (j in a.jobs <==> j in all) && (j in b.jobs <==> j in all);
    forall id ensures JobsFor(id, a.jobs) == JobsFor(id, b.jobs) {
      DistinctJobsFor(a.jobs, id);
      DistinctJobsFor(b.jobs, id);
      if j :| j in a.jobs && j.Id() == id {
        assert j in b.jobs;
      } else {
        assert id !in JobIds(a.jobs);
        assert id !in JobIds(b.jobs);
      }
    }
    OrderIndependence(owner, cluster, stored, a, b);
    LoopKeepsInvariant(Context(owner, Existing(stored)), cluster, a.jobs);
    SortedListingIsUnique(a.listing, b.listing, Applied(owner, cluster, stored, a.jobs).entries);
  }
}
