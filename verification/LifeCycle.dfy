/** Finalizer, suspension, rendering failures and the stored status, run by run. */
module LifeCycle {
  import opened Wrappers
  import opened Objects
  import opened Listing
  import opened Apply
  import opened ApplyProofs
  import opened Exactness
  import opened Convergence
  import opened Protocol
  import opened NoOrphansProofs

  /** Objects change only in runs of a set whose finalizer was already stored and that is not
      suspended; they appear only if, besides, it is not being deleted and rendering succeeded. */
  lemma ObjectsChangeOnlyUnderFinalizer(w: World, name: string, s: Script)
    requires Possible(w, name, s)
    ensures var w' := Reconcile(w, name, s).world;
      && (w'.cluster != w.cluster ==> Managed(w, name) && !w.sets[name].suspended)
      && (!(w'.cluster.Keys <= w.cluster.Keys) ==> Managed(w, name) && !w.sets[name].deleting && s.rendered.Ok?)
  {
    if PhaseOf(w, name, s) == Finalizing { RemovalIsPrefix(w.cluster, s.deletions); }
  }

  /** The finalizer goes only in a run that finalizes without error, and then every object the
      inventory lists is gone, and exactly those. */
  lemma FinalizerGoesLast(w: World, name: string, s: Script)
    requires Possible(w, name, s) && Managed(w, name)
    ensures var r := Reconcile(w, name, s);
      !Managed(r.world, name) <==> PhaseOf(w, name, s) == Finalizing && AllSucceed(s.deletions) && !s.updateFails
    ensures var r := Reconcile(w, name, s);
      !Managed(r.world, name) ==>
        && w.sets[name].deleting && !w.sets[name].suspended && r.outcome.Finished?
        && r.world.cluster == w.cluster - Ids(Inventory(w.sets[name]))
  {
    if PhaseOf(w, name, s) == Finalizing {
      RemovalIsPrefix(w.cluster, s.deletions);
      if AllSucceed(s.deletions) {
        FullRemoval(w.cluster, s.deletions);
        assert RefSet(Targets(s.deletions)) == Inventory(w.sets[name]);
      }
    }
  }

  /** A failed finalize keeps finalizer and inventory, and a retry that succeeds ends in the very
      world an undisturbed finalize would have produced. */
  lemma FinalizeRetryCompletes(w: World, name: string, first: Script, retry: Script)
    requires Possible(w, name, first) && PhaseOf(w, name, first) == Finalizing
    requires Reconcile(w, name, first).outcome.Failed?
    requires var w1 := Reconcile(w, name, first).world;
      PhaseOf(w1, name, retry) == Finalizing && Possible(w1, name, retry)
    requires AllSucceed(retry.deletions) && !retry.updateFails
    ensures Reconcile(w, name, first).world.sets == w.sets
    ensures PhaseOf(w, name, retry) == Finalizing && Possible(w, name, retry)
    ensures Reconcile(Reconcile(w, name, first).world, name, retry) == Reconcile(w, name, retry)
  {
    RetryAbsorbsPartialRemoval(w.cluster, first.deletions, retry.deletions);
    FullRemoval(w.cluster, retry.deletions);
    FullRemoval(RemoveAll(w.cluster, first.deletions).cluster, retry.deletions);
  }

  /** A suspended set, even one marked for deletion, causes no create, patch or delete, and keeps its inventory. */
  lemma SuspendedIsInert(w: World, name: string, s: Script)
    requires name in w.sets && w.sets[name].suspended && Possible(w, name, s)
    ensures var w' := Reconcile(w, name, s).world;
      && w'.cluster == w.cluster
      && w'.sets == w.sets[name := w'.sets[name]]
      && w'.sets[name].inventory == w.sets[name].inventory
      && (Managed(w, name) ==> w' == w)
  {
    assert w.sets == w.sets[name := w.sets[name]];
  }

  /** Rendering is all-or-nothing: if a generator or template fails, or an artifact is missing, no
      object is touched, the inventory stays, and the set is not ready if its status could be written. */
  lemma RenderingFailureTouchesNothing(w: World, name: string, s: Script)
    requires Possible(w, name, s) && s.rendered.Err? && name in w.sets && !w.sets[name].deleting
    ensures var r := Reconcile(w, name, s);
      && r.world.cluster == w.cluster
      && name in r.world.sets && r.world.sets[name].inventory == w.sets[name].inventory
      && (PhaseOf(w, name, s) == NotRendered ==>
            && (r.outcome.Failed? <==> s.rendered.error != NoArtifact)
            && (!s.statusFails ==> r.world.sets[name].ready == Some(false)))
  {
  }

  /** A set is reported ready only by a run that returned no error; then its inventory is exact. */
  lemma ReadyMeansApplied(w: World, name: string, s: Script)
    requires Possible(w, name, s) && name in w.sets && w.sets[name].ready != Some(true)
    requires name in Reconcile(w, name, s).world.sets && Reconcile(w, name, s).world.sets[name].ready == Some(true)
    ensures PhaseOf(w, name, s) == Applying && Reconcile(w, name, s).outcome == Finished(s.interval.value)
    ensures RefSet(Entries(Reconcile(w, name, s).world.sets[name])) == JobRefs(s.rendered.value)
  {
    if PhaseOf(w, name, s) == Applying {
      ErrorFreePass(name, w.cluster, w.sets[name].inventory, ThePass(s));
    }
  }

  /** Stored inventories are never present but empty, list no ref twice, and are sorted by ID. */
  ghost predicate WellStored(w: World) {
    forall n :: n in w.sets && w.sets[n].inventory.Some? ==>
      var list := w.sets[n].inventory.value;
      list != [] && SortedListing(list, RefSet(list))
  }

  lemma {:induction false} HistoriesKeepInventoriesWellStored(w: World, events: seq<Event>)
    requires WellStored(w)
    requires forall i :: 0 <= i < |events| ==> PossibleEvent(Play(w, events[..i]), events[i])
    ensures WellStored(Play(w, events))
    decreases |events|
  {
    if events != [] {
      var e := events[0];
      assert Play(w, events[..0]) == w;
      StepKeepsInventoriesWellStored(w, e);
      var w1, rest := Step(w, e), events[1..];
      forall i | 0 <= i < |rest| ensures PossibleEvent(Play(w1, rest[..i]), rest[i]) {
        assert events[..i + 1][0] == e && events[..i + 1][1..] == rest[..i];
        assert PossibleEvent(Play(w, events[..i + 1]), events[i + 1]);
      }
      HistoriesKeepInventoriesWellStored(w1, rest);
    }
  }

  lemma StepKeepsInventoriesWellStored(w: World, e: Event)
    requires WellStored(w) && PossibleEvent(w, e)
    ensures WellStored(Step(w, e))
  {
    var w' := Step(w, e);
    forall n | n in w'.sets && w'.sets[n].inventory.Some?
      ensures (n in w.sets && w'.sets[n].inventory == w.sets[n].inventory)
           || (var list := w'.sets[n].inventory.value; list != [] && SortedListing(list, RefSet(list)))
    {
    }
  }

  /** An applying run whose status is stored is one Cycle of the convergence theorems. */
  lemma ApplyingIsCycle(w: World, name: string, s: Script)
    requires Possible(w, name, s) && PhaseOf(w, name, s) == Applying && !s.statusFails
    ensures var w' := Reconcile(w, name, s).world;
      Situation(w'.cluster, w'.sets[name].inventory)
      == Cycle(name, Situation(w.cluster, w.sets[name].inventory), ThePass(s))
  {
  }
}
