/** Many sets on one cluster: each stored inventory is exactly the set's own live objects, so no two
    inventories meet and no set ever touches another's object. */
module ManySets {
  import opened Wrappers
  import opened Objects
  import opened Apply
  import opened ApplyProofs
  import opened Ownership
  import opened Protocol
  import opened NoOrphansProofs

  /** The world-wide invariant. A set that is not managed and not being deleted has no inventory yet. */
  ghost predicate Owns(w: World) {
    && (forall n :: Managed(w, n) ==> OwnsExactly(n, w.cluster, Inventory(w.sets[n])))
    && (forall id :: id in w.cluster && w.cluster[id].creator.Some? ==> Managed(w, w.cluster[id].creator.value))
    && (forall n :: n in w.sets && !Managed(w, n) && !w.sets[n].deleting ==> w.sets[n].inventory.None?)
  }

  /** Get, Patch, Create, rendering and the first Update may fail. A run whose last write goes through
      must not have a failing deletion; one whose last write fails, or which stops before it, must not
      have deleted anything, nor be able to create anything. Nobody else deletes a set's object. */
  ghost predicate Orderly(w: World, e: Event) {
    match e
    case Reconciled(name, s) =>
      (match PhaseOf(w, name, s)
       case Applying =>
         if s.statusFails then Executed(s.deletions) == 0 && CreatesOnly(w.cluster.Keys, s.rendered.value)
         else AllSucceed(s.deletions)
       case Finalizing => (AllSucceed(s.deletions) && !s.updateFails) || Executed(s.deletions) == 0
       case _ => true)
    case Acted(a) => a.DeleteObject? && a.id in w.cluster ==> w.cluster[a.id].creator.None?
  }

  /** Whatever a run does, and whatever fails in it, it is invisible outside the objects its set created. */
  lemma OthersUntouched(w: World, name: string, s: Script, id: string)
    requires Owns(w) && Possible(w, name, s)
    requires id in w.cluster && w.cluster[id].creator != Some(name)
    ensures var w' := Reconcile(w, name, s).world;
      id in w'.cluster && w'.cluster[id] == w.cluster[id]
  {
    OnlyListedTouched(w, name, s, id);
    if Managed(w, name) { assert id !in Created(name, w.cluster); }
  }

  /** Foreign objects: an object whose ID the stored inventory does not name survives every run
      unchanged, whether it reconciles or finalizes. */
  lemma OnlyListedTouched(w: World, name: string, s: Script, id: string)
    requires Possible(w, name, s)
    requires id in w.cluster && (Managed(w, name) ==> id !in Ids(Inventory(w.sets[name])))
    ensures var w' := Reconcile(w, name, s).world;
      id in w'.cluster && w'.cluster[id] == w.cluster[id]
  {
    match PhaseOf(w, name, s)
    case Applying => ForeignUntouched(name, w.cluster, w.sets[name].inventory, ThePass(s), id);
    case Finalizing =>
      RemovalIsPrefix(w.cluster, s.deletions);
      PrefixTargets(s.deletions, Executed(s.deletions));
      assert RefSet(Targets(s.deletions)) == Inventory(w.sets[name]);
    case _ =>
  }

  /** A set whose finalizer has been removed, kept only by other finalizers. */
  predicate Retired(w: World, n: string) {
    n in w.sets && !Managed(w, n) && w.sets[n].deleting
  }

  /** Disjointness and presence are consequences of exact ownership, for all sets that can still act. */
  lemma InventoriesAreDisjoint(w: World, m: string, n: string)
    requires Owns(w) && m in w.sets && n in w.sets && m != n
    requires !Retired(w, m) && !Retired(w, n)
    ensures Ids(Inventory(w.sets[m])) !! Ids(Inventory(w.sets[n]))
    ensures Ids(Inventory(w.sets[m])) <= w.cluster.Keys
  {
    if Managed(w, m) { assert OwnsExactly(m, w.cluster, Inventory(w.sets[m])); }
    if Managed(w, n) { assert OwnsExactly(n, w.cluster, Inventory(w.sets[n])); }
    forall id | id in Ids(Inventory(w.sets[m])) ensures id !in Ids(Inventory(w.sets[n])) {
      assert id in Created(m, w.cluster);
      assert id !in Created(n, w.cluster);
    }
  }

  /** The inventory of a retired set may name anything, but no run of it does anything, and it stays
      retired until it is gone. */
  lemma RetiredIsInert(w: World, n: string, s: Script, e: Event)
    requires Retired(w, n)
    ensures Reconcile(w, n, s).world == w
    ensures n in Step(w, e).sets ==> Retired(Step(w, e), n)
  {
    if e.Acted? { ActionFacts(w, e.action); }
  }

  /** If each set's own objects are as before, so is its exact ownership. */
  lemma SameCreatedSameOwnership(n: string, was: Cluster, now: Cluster, refs: set<Ref>)
    requires OwnsExactly(n, was, refs)
    requires forall id :: id in now && now[id].creator == Some(n) <==> id in was && was[id].creator == Some(n)
    ensures OwnsExactly(n, now, refs)
  {
    assert Created(n, now) == Created(n, was);
  }

  /** When a run leaves other sets and their objects alone, its own exact ownership decides. */
  lemma OwnsIffOwnExact(w: World, w': World, name: string)
    requires Owns(w) && Managed(w, name) && Managed(w', name)
    requires w'.sets == w.sets[name := w'.sets[name]]
    requires forall id :: id in w.cluster && w.cluster[id].creator != Some(name) ==>
      id in w'.cluster && w'.cluster[id] == w.cluster[id]
    requires forall id :: id in w'.cluster ==>
      (id in w.cluster && w'.cluster[id].creator == w.cluster[id].creator) || w'.cluster[id].creator == Some(name)
    ensures Owns(w') <==> OwnsExactly(name, w'.cluster, Inventory(w'.sets[name]))
  {
    if OwnsExactly(name, w'.cluster, Inventory(w'.sets[name])) {
      forall n | Managed(w', n) ensures OwnsExactly(n, w'.cluster, Inventory(w'.sets[n])) {
        if n != name {
          assert Managed(w, n);
          SameCreatedSameOwnership(n, w.cluster, w'.cluster, Inventory(w.sets[n]));
        }
      }
    }
  }

  lemma ApplyingKeepsOwnsIff(w: World, name: string, s: Script)
    requires Owns(w) && Possible(w, name, s) && PhaseOf(w, name, s) == Applying
    ensures Owns(Reconcile(w, name, s).world) <==> Orderly(w, Reconciled(name, s))
  {
    var w', stored := Reconcile(w, name, s).world, w.sets[name].inventory;
    ApplyingRun(w, name, s);
    forall id | id in w.cluster && w.cluster[id].creator != Some(name)
      ensures id in w'.cluster && w'.cluster[id] == w.cluster[id]
    {
      OthersUntouched(w, name, s, id);
    }
    OwnsIffOwnExact(w, w', name);
    if s.statusFails {
      UnstoredPassKeepsOwnershipIff(name, w.cluster, stored, ThePass(s));
    } else {
      PassKeepsOwnershipIff(name, w.cluster, stored, ThePass(s));
    }
  }

  lemma FinalizingKeepsOwns(w: World, name: string, s: Script)
    requires Owns(w) && Possible(w, name, s) && PhaseOf(w, name, s) == Finalizing
    requires AllSucceed(s.deletions) && !s.updateFails
    ensures Owns(Reconcile(w, name, s).world)
  {
    var w' := Reconcile(w, name, s).world;
    FullRemoval(w.cluster, s.deletions);
    assert w'.cluster == w.cluster - Created(name, w.cluster) by {
      assert RefSet(Targets(s.deletions)) == Inventory(w.sets[name]);
      assert OwnsExactly(name, w.cluster, Inventory(w.sets[name]));
    }
    forall n | Managed(w', n) ensures OwnsExactly(n, w'.cluster, Inventory(w'.sets[n])) {
      assert n != name && w'.sets[n] == w.sets[n];
      assert Managed(w, n);
      SameCreatedSameOwnership(n, w.cluster, w'.cluster, Inventory(w.sets[n]));
    }
    forall id | id in w'.cluster && w'.cluster[id].creator.Some? ensures Managed(w', w'.cluster[id].creator.value) {
      assert Managed(w, w.cluster[id].creator.value);
      assert id !in Created(name, w.cluster);
    }
  }

  /** A finalize that stops short keeps ownership exactly when it has deleted nothing. */
  lemma StoppedFinalizeKeepsOwnsIff(w: World, name: string, s: Script)
    requires Owns(w) && Possible(w, name, s) && PhaseOf(w, name, s) == Finalizing
    requires !AllSucceed(s.deletions) || s.updateFails
    ensures Owns(Reconcile(w, name, s).world) <==> Executed(s.deletions) == 0
  {
    var w', ds, k := Reconcile(w, name, s).world, s.deletions, Executed(s.deletions);
    RemovalIsPrefix(w.cluster, ds);
    var gone := RefSet(Targets(ds[..k]));
    assert w' == World(w.cluster - Ids(gone), w.sets);
    if k == 0 {
      assert Ids(gone) == {};
      assert w' == w;
    } else {
      var first := ds[0].ref;
      assert Targets(ds[..k])[0] == first && Targets(ds)[0] == first;
      assert first.id in Ids(Inventory(w.sets[name]));
      assert first.id !in Created(name, w'.cluster);
      assert Managed(w', name);
      assert !OwnsExactly(name, w'.cluster, Inventory(w'.sets[name]));
    }
  }

  lemma OtherPhasesKeepOwns(w: World, name: string, s: Script)
    requires Owns(w) && Possible(w, name, s)
    requires PhaseOf(w, name, s) != Applying && PhaseOf(w, name, s) != Finalizing
    ensures Owns(Reconcile(w, name, s).world)
  {
    var w' := Reconcile(w, name, s).world;
    assert w'.cluster == w.cluster;
    if PhaseOf(w, name, s) == Adopting {
      assert !Managed(w, name);
      assert Created(name, w.cluster) == {};
    }
    forall n | Managed(w', n) ensures OwnsExactly(n, w'.cluster, Inventory(w'.sets[n])) {
      if Managed(w, n) { assert Inventory(w'.sets[n]) == Inventory(w.sets[n]); }
    }
  }

  lemma ActionKeepsOwns(w: World, a: Action)
    requires Owns(w) && Orderly(w, Acted(a))
    ensures Owns(Act(w, a))
  {
    var w' := Act(w, a);
    ActionFacts(w, a);
    forall n | Managed(w', n) ensures OwnsExactly(n, w'.cluster, Inventory(w'.sets[n])) {
      assert Managed(w, n);
      SameCreatedSameOwnership(n, w.cluster, w'.cluster, Inventory(w.sets[n]));
    }
  }

  /** Deleting an object behind its set's back leaves an inventory that names an absent object. */
  lemma DeletionDisowns(w: World, id: string)
    requires Owns(w) && id in w.cluster && w.cluster[id].creator.Some?
    ensures !Owns(Act(w, DeleteObject(id)))
  {
    var n, w' := w.cluster[id].creator.value, Act(w, DeleteObject(id));
    assert Managed(w, n) && Managed(w', n);
    assert OwnsExactly(n, w.cluster, Inventory(w.sets[n]));
    assert id in Created(n, w.cluster) && id !in Created(n, w'.cluster);
  }

  /** Every single event, run or move of others, keeps exact ownership exactly when it is orderly. */
  lemma StepKeepsOwnsIff(w: World, e: Event)
    requires Owns(w) && PossibleEvent(w, e)
    ensures Owns(Step(w, e)) <==> Orderly(w, e)
  {
    match e
    case Acted(a) =>
      if Orderly(w, e) { ActionKeepsOwns(w, a); } else { DeletionDisowns(w, a.id); }
    case Reconciled(name, s) =>
      match PhaseOf(w, name, s)
      case Applying => ApplyingKeepsOwnsIff(w, name, s);
      case Finalizing =>
        if AllSucceed(s.deletions) && !s.updateFails {
          FinalizingKeepsOwns(w, name, s);
        } else {
          StoppedFinalizeKeepsOwnsIff(w, name, s);
        }
      case _ => OtherPhasesKeepOwns(w, name, s);
  }

  ghost predicate OrderlyHistory(w: World, events: seq<Event>)
    decreases |events|
  {
    events == [] || (Orderly(w, events[0]) && OrderlyHistory(Step(w, events[0]), events[1..]))
  }

  /** Exact ownership holds throughout. */
  ghost predicate AlwaysOwns(w: World, events: seq<Event>)
    decreases |events|
  {
    Owns(w) && (events == [] || AlwaysOwns(Step(w, events[0]), events[1..]))
  }

  lemma {:induction false} AlwaysOwnsAtEveryPoint(w: World, events: seq<Event>, i: nat)
    requires AlwaysOwns(w, events) && i <= |events|
    ensures Owns(Play(w, events[..i]))
    decreases |events|
  {
    if i > 0 {
      AlwaysOwnsAtEveryPoint(Step(w, events[0]), events[1..], i - 1);
      assert events[..i][0] == events[0] && events[..i][1..] == events[1..][..i - 1];
    }
  }

  /** Ownership over whole histories: for any interleaving of runs of any number of sets, every
      inventory stays, at every point, exactly the set of live objects its set created, under one
      version each, if and only if every event is orderly when it happens. */
  lemma {:induction false} OwnershipOverHistories(w: World, events: seq<Event>)
    requires Owns(w) && PossibleHistory(w, events)
    ensures AlwaysOwns(w, events) <==> OrderlyHistory(w, events)
    decreases |events|
  {
    if events != [] {
      StepKeepsOwnsIff(w, events[0]);
      if Owns(Step(w, events[0])) {
        OwnershipOverHistories(Step(w, events[0]), events[1..]);
      }
    }
  }

  /** No set patches or deletes another's object, at any point of an orderly history. */
  lemma NoTrespassing(w: World, events: seq<Event>, i: nat, name: string, s: Script, id: string)
    requires Owns(w) && PossibleHistory(w, events) && OrderlyHistory(w, events) && i <= |events|
    requires Possible(Play(w, events[..i]), name, s)
    requires id in Play(w, events[..i]).cluster && Play(w, events[..i]).cluster[id].creator != Some(name)
    ensures var before := Play(w, events[..i]);
      var after := Reconcile(before, name, s).world;
      id in after.cluster && after.cluster[id] == before.cluster[id]
  {
    OwnershipOverHistories(w, events);
    AlwaysOwnsAtEveryPoint(w, events, i);
    OthersUntouched(Play(w, events[..i]), name, s, id);
  }
}
