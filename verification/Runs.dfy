/** What one run does, branch by branch, in terms of the stored set's fields and the failing calls alone. */
module Runs {
  import opened Wrappers
  import opened Objects
  import opened Apply
  import opened ApplyProofs
  import opened Protocol

  /** A set that cannot be read fails the run, one that is not there ends it. */
  lemma UnreadableOrAbsent(w: World, name: string, s: Script)
    ensures s.getFails ==> Reconcile(w, name, s) == Run(w, Failed)
    ensures !s.getFails && name !in w.sets ==> Reconcile(w, name, s) == Run(w, Finished(0))
  {
  }

  /** A set without this controller's finalizer gets it, beside those it has, and nothing else happens but
      a requeue; if the update fails, or the set is being deleted, the run fails and nothing changes. */
  lemma Adoption(w: World, name: string, s: Script)
    requires !s.getFails && name in w.sets && "finalizers.sets.gitops.pro" !in w.sets[name].finalizers
    ensures var run, gs := Reconcile(w, name, s), w.sets[name];
      if s.updateFails || gs.deleting then run == Run(w, Failed)
      else
        && run.outcome == RequeueNow
        && run.world.cluster == w.cluster
        && run.world.sets.Keys == w.sets.Keys
        && (forall n :: n in w.sets && n != name ==> run.world.sets[n] == w.sets[n])
        && run.world.sets[name].finalizers == gs.finalizers + {"finalizers.sets.gitops.pro"}
        && run.world.sets[name].suspended == gs.suspended && run.world.sets[name].deleting == gs.deleting
        && run.world.sets[name].inventory == gs.inventory && run.world.sets[name].ready == gs.ready
  {
  }

  /** A suspended set's run ends at once; without a client for its service account it fails. */
  lemma SuspendedOrWithoutClient(w: World, name: string, s: Script)
    requires !s.getFails && name in w.sets && "finalizers.sets.gitops.pro" in w.sets[name].finalizers
    ensures w.sets[name].suspended ==> Reconcile(w, name, s) == Run(w, Finished(0))
    ensures !w.sets[name].suspended && s.clientFails ==> Reconcile(w, name, s) == Run(w, Failed)
  {
  }

  /** The run gets past the checks at its start. */
  predicate GetsGoing(w: World, name: string, s: Script) {
    && !s.getFails && name in w.sets && "finalizers.sets.gitops.pro" in w.sets[name].finalizers
    && !w.sets[name].suspended && !s.clientFails
  }

  /** The deletions before the first one in which a call fails. */
  ghost predicate IsFirstFailure(ds: seq<Deletion>, k: nat) {
    && k <= |ds|
    && (forall i :: 0 <= i < k ==> !ds[i].parseFails && !ds[i].logFails && !ds[i].deleteFails)
    && (k < |ds| ==> ds[k].parseFails || ds[k].logFails || ds[k].deleteFails)
  }

  lemma {:induction false} ExecutedIsFirstFailure(ds: seq<Deletion>)
    ensures IsFirstFailure(ds, Executed(ds))
    ensures AllSucceed(ds) <==> Executed(ds) == |ds|
  {
    if ds != [] {
      ExecutedIsFirstFailure(ds[1..]);
      assert ds == [ds[0]] + ds[1..];
      assert AllSucceed(ds) <==> !ds[0].Fails() && AllSucceed(ds[1..]);
    }
  }

  /** The IDs of the first k deletions. */
  function DeletedIds(ds: seq<Deletion>, k: nat): set<string>
    requires k <= |ds|
  {
    set i | 0 <= i < k :: ds[i].ref.id
  }

  lemma DeletedIdsOfPrefix(ds: seq<Deletion>, k: nat)
    requires k <= |ds|
    ensures Ids(RefSet(Targets(ds[..k]))) == DeletedIds(ds, k)
  {
    forall id ensures id in Ids(RefSet(Targets(ds[..k]))) <==> id in DeletedIds(ds, k) {
      if id in DeletedIds(ds, k) {
        var i :| 0 <= i < k && ds[i].ref.id == id;
        assert Targets(ds[..k])[i] == ds[i].ref;
        assert ds[i].ref in RefSet(Targets(ds[..k]));
      }
    }
  }

  /** A set under deletion: everything up to the first failing deletion goes. Without a failure the
      finalizer goes too, and the set with its last one; otherwise the set stays as it was. */
  lemma Finalization(w: World, name: string, s: Script, k: nat)
    requires GetsGoing(w, name, s) && w.sets[name].deleting && IsFirstFailure(s.deletions, k)
    ensures var run, gs := Reconcile(w, name, s), w.sets[name];
      var left := gs.finalizers - {"finalizers.sets.gitops.pro"};
      && run.world.cluster == w.cluster - DeletedIds(s.deletions, k)
      && (if k < |s.deletions| || s.updateFails then run.outcome == Failed && run.world.sets == w.sets
          else
            && run.outcome == Finished(0)
            && run.world.sets == (if left == {} then w.sets - {name} else w.sets[name := gs.(finalizers := left)]))
  {
    FirstFailureIsUnique(s.deletions, k);
    DeletedIdsOfPrefix(s.deletions, k);
    RemovalIsPrefix(w.cluster, s.deletions);
  }

  lemma FirstFailureIsUnique(ds: seq<Deletion>, k: nat)
    requires IsFirstFailure(ds, k)
    ensures k == Executed(ds)
  {
    ExecutedIsFirstFailure(ds);
  }

  /** If rendering fails only the Ready condition changes, and it says false. */
  lemma FailedRendering(w: World, name: string, s: Script)
    requires GetsGoing(w, name, s) && !w.sets[name].deleting && s.rendered.Err?
    ensures var run := Reconcile(w, name, s);
      && run.world.cluster == w.cluster
      && run.world.sets == (if s.statusFails then w.sets else w.sets[name := w.sets[name].(ready := Some(false))])
      && run.outcome == (if s.rendered == Err(NoArtifact) then Finished(0) else Failed)
  {
  }

  /** An applying run stores the listing, an empty one as none, and whether there was an error; it
      finishes with the interval exactly if there was none. Nothing else of any set changes. */
  lemma AppliedStatus(w: World, name: string, s: Script)
    requires GetsGoing(w, name, s) && !w.sets[name].deleting && s.rendered.Ok?
    ensures var run, gs := Reconcile(w, name, s), w.sets[name];
      var report := RunPass(name, w.cluster, gs.inventory, Pass(s.rendered.value, s.deletions, s.listing));
      var ok := report.errors == [] && s.interval.Some?;
      && run.world.cluster == report.cluster
      && run.world.sets
         == (if s.statusFails then w.sets
             else w.sets[name := gs.(inventory := if s.listing == [] then None else Some(s.listing),
                                     ready := Some(ok))])
      && run.outcome == (if ok && !s.statusFails then Finished(s.interval.value) else Failed)
  {
  }
}
