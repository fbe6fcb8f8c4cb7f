/** No orphans: what single runs and whole histories keep of the objects a set has created. */
module NoOrphansProofs {
  import opened Wrappers
  import opened Objects
  import opened Apply
  import opened ApplyProofs
  import opened Ownership
  import opened Exactness
  import opened Protocol

  /** A set that this controller has taken charge of. */
  predicate Managed(w: World, name: string) {
    name in w.sets && FINALIZER in w.sets[name].finalizers
  }

  /** Some managed set lists this ID and created the object behind it. */
  ghost predicate Covered(w: World, id: string)
    requires id in w.cluster && w.cluster[id].creator.Some?
  {
    var name := w.cluster[id].creator.value;
    Managed(w, name) && id in Ids(Inventory(w.sets[name]))
  }

  /** Every live object created by a set has its ID in that set's stored inventory. */
  ghost predicate NoOrphans(w: World) {
    forall id :: id in w.cluster && w.cluster[id].creator.Some? ==> Covered(w, id)
  }

  /** A run whose deletions and status write do not fail; other calls may. */
  ghost predicate Careful(w: World, name: string, s: Script) {
    PhaseOf(w, name, s) == Applying ==> AllSucceed(s.deletions) && !s.statusFails
  }

  lemma RunWithoutErrorIsCareful(w: World, name: string, s: Script)
    requires Possible(w, name, s) && !Reconcile(w, name, s).outcome.Failed?
    ensures Careful(w, name, s)
  {
    if PhaseOf(w, name, s) == Applying {
      ErrorFreePass(name, w.cluster, w.sets[name].inventory, ThePass(s));
      RemovalIsPrefix(Applied(name, w.cluster, w.sets[name].inventory, s.rendered.value).cluster, s.deletions);
      if w.sets[name].inventory.None? { NoTargetsIffEmpty(s.deletions); }
    }
  }

  /** What an applying run does, seen from the world. */
  lemma ApplyingRun(w: World, name: string, s: Script)
    requires Possible(w, name, s) && PhaseOf(w, name, s) == Applying
    ensures var w' := Reconcile(w, name, s).world;
      && Managed(w', name)
      && w'.cluster == RunPass(name, w.cluster, w.sets[name].inventory, ThePass(s)).cluster
      && w'.sets == w.sets[name := w'.sets[name]]
      && Inventory(w'.sets[name]) == (if s.statusFails then Inventory(w.sets[name]) else RefSet(s.listing))
      && (forall id :: id in w'.cluster ==>
            || (id in w.cluster && w'.cluster[id].creator == w.cluster[id].creator)
            || w'.cluster[id].creator == Some(name))
  {
    PassFacts(name, w.cluster, w.sets[name].inventory, ThePass(s));
  }

  /** Read off the world before an applying run, its deletions and its jobs: if the status is written,
      every live object of the set behind a skipped deletion is also behind a completed one, or has its
      ID rendered again under a listed ref; if not, no job can create an object under an ID that is
      neither taken nor listed. */
  ghost predicate LosesNothing(w: World, name: string, s: Script)
    requires PhaseOf(w, name, s) == Applying
  {
    var k, listed := Executed(s.deletions), Inventory(w.sets[name]);
    if s.statusFails then CreatesOnly(w.cluster.Keys + Ids(listed), s.rendered.value)
    else Created(name, w.cluster) * Ids(RefSet(Targets(s.deletions[k..])))
         <= Ids(RefSet(Targets(s.deletions[..k]))) + Ids(Reentered(listed, s.rendered.value))
  }

  /** An applying run is orphan-free afterwards exactly when it loses nothing. */
  lemma OrphanFreeIff(w: World, name: string, s: Script)
    requires NoOrphans(w) && Possible(w, name, s) && PhaseOf(w, name, s) == Applying
    ensures NoOrphans(Reconcile(w, name, s).world) <==> LosesNothing(w, name, s)
  {
    var stored, pass := w.sets[name].inventory, ThePass(s);
    ApplyingRun(w, name, s);
    NoOrphansIffOwnNone(w, Reconcile(w, name, s).world, name);
    NoneOfOwn(w, name);
    if s.statusFails {
      OrphansOfUnstoredPass(name, w.cluster, stored, pass);
      NothingNewIff(name, w.cluster, stored, pass);
    } else {
      OrphansOfStoredPass(name, w.cluster, stored, pass);
    }
  }

  lemma NoneOfOwn(w: World, name: string)
    requires NoOrphans(w) && Managed(w, name)
    ensures Orphans(name, w.cluster, Inventory(w.sets[name])) == {}
  {
    forall id | id in Created(name, w.cluster) ensures id in Ids(Inventory(w.sets[name])) {
      assert Covered(w, id);
    }
  }

  /** When only `name` may have gained objects or changed its inventory, its own orphans decide. */
  lemma NoOrphansIffOwnNone(w: World, w': World, name: string)
    requires NoOrphans(w) && Managed(w, name) && Managed(w', name)
    requires forall n :: n in w.sets && n != name ==> n in w'.sets && w'.sets[n] == w.sets[n]
    requires forall id :: id in w'.cluster ==>
      (id in w.cluster && w'.cluster[id].creator == w.cluster[id].creator) || w'.cluster[id].creator == Some(name)
    ensures NoOrphans(w') <==> Orphans(name, w'.cluster, Inventory(w'.sets[name])) == {}
  {
    if Orphans(name, w'.cluster, Inventory(w'.sets[name])) == {} {
      forall id | id in w'.cluster && w'.cluster[id].creator.Some? ensures Covered(w', id) {
        if w'.cluster[id].creator == Some(name) {
          assert id !in Orphans(name, w'.cluster, Inventory(w'.sets[name]));
        } else {
          assert Covered(w, id);
        }
      }
    }
  }

  /** A careful run, whatever else fails in it, keeps NoOrphans. */
  lemma CarefulRunKeepsNoOrphans(w: World, name: string, s: Script)
    requires NoOrphans(w) && Possible(w, name, s) && Careful(w, name, s)
    ensures NoOrphans(Reconcile(w, name, s).world)
  {
    var w' := Reconcile(w, name, s).world;
    match PhaseOf(w, name, s)
    case Applying =>
      OrphanFreeIff(w, name, s);
      RemovalIsPrefix(w.cluster, s.deletions);
      assert RefSet(Targets(s.deletions[|s.deletions|..])) == {};
    case Finalizing =>
      RemovalIsPrefix(w.cluster, s.deletions);
      if !Reconcile(w, name, s).outcome.Failed? {
        FullRemoval(w.cluster, s.deletions);
        assert RefSet(Targets(s.deletions)) == Inventory(w.sets[name]);
      }
      forall id | id in w'.cluster && w'.cluster[id].creator.Some? ensures Covered(w', id) {
        assert Covered(w, id);
      }
    case _ =>
      forall id | id in w'.cluster && w'.cluster[id].creator.Some? ensures Covered(w', id) {
        assert Covered(w, id);
      }
  }

  /** Others neither create on a set's behalf nor touch its inventory or this finalizer. */
  lemma ActionFacts(w: World, a: Action)
    ensures var w' := Act(w, a);
      && (forall n :: Managed(w, n) <==> Managed(w', n))
      && (forall n :: Managed(w, n) ==> w'.sets[n].inventory == w.sets[n].inventory)
      && (forall id :: id in w'.cluster && w'.cluster[id].creator.Some? ==>
            id in w.cluster && w'.cluster[id].creator == w.cluster[id].creator)
      && (forall id :: id in w.cluster && a != DeleteObject(id) ==>
            id in w'.cluster && w'.cluster[id].creator == w.cluster[id].creator)
  {
    forall n ensures Managed(w, n) <==> Managed(Act(w, a), n) {
      assert Managed(w, n) ==> w.sets[n].finalizers != {};
      if a.RemoveFinalizer? && a.name == n && Managed(w, n) && a.finalizer != FINALIZER {
        assert FINALIZER in w.sets[n].finalizers - {a.finalizer};
      }
    }
  }

  lemma ActionKeepsNoOrphans(w: World, a: Action)
    requires NoOrphans(w)
    ensures NoOrphans(Act(w, a))
  {
    var w' := Act(w, a);
    ActionFacts(w, a);
    forall id | id in w'.cluster && w'.cluster[id].creator.Some? ensures Covered(w', id) {
      assert Covered(w, id);
    }
  }

  /** Any event keeps NoOrphans, except an applying run that loses something. */
  ghost predicate Tidy(w: World, e: Event) {
    e.Reconciled? && PhaseOf(w, e.name, e.script) == Applying ==> LosesNothing(w, e.name, e.script)
  }

  lemma StepKeepsNoOrphansIff(w: World, e: Event)
    requires NoOrphans(w) && PossibleEvent(w, e)
    ensures NoOrphans(Step(w, e)) <==> Tidy(w, e)
  {
    match e
    case Acted(a) => ActionKeepsNoOrphans(w, a);
    case Reconciled(name, s) =>
      if PhaseOf(w, name, s) == Applying {
        OrphanFreeIff(w, name, s);
      } else {
        CarefulRunKeepsNoOrphans(w, name, s);
      }
  }

  /** In particular a run that returns no error is tidy, and so is one whose deletions and status write succeed. */
  lemma CarefulIsTidy(w: World, name: string, s: Script)
    requires NoOrphans(w) && Possible(w, name, s)
    requires Careful(w, name, s) || !Reconcile(w, name, s).outcome.Failed?
    ensures Tidy(w, Reconciled(name, s))
  {
    if !Reconcile(w, name, s).outcome.Failed? { RunWithoutErrorIsCareful(w, name, s); }
    CarefulRunKeepsNoOrphans(w, name, s);
    StepKeepsNoOrphansIff(w, Reconciled(name, s));
  }

  ghost predicate PossibleHistory(w: World, events: seq<Event>)
    decreases |events|
  {
    events == [] || (PossibleEvent(w, events[0]) && PossibleHistory(Step(w, events[0]), events[1..]))
  }

  ghost predicate TidyHistory(w: World, events: seq<Event>)
    decreases |events|
  {
    events == [] || (Tidy(w, events[0]) && TidyHistory(Step(w, events[0]), events[1..]))
  }

  ghost predicate NeverOrphans(w: World, events: seq<Event>)
    decreases |events|
  {
    NoOrphans(w) && (events == [] || NeverOrphans(Step(w, events[0]), events[1..]))
  }

  /** No orphans over whole histories of any number of sets, with arbitrary failures and arbitrary
      interference between runs: there are none at any point if and only if every event is tidy. */
  lemma {:induction false} NoOrphansOverHistories(w: World, events: seq<Event>)
    requires NoOrphans(w) && PossibleHistory(w, events)
    ensures NeverOrphans(w, events) <==> TidyHistory(w, events)
    decreases |events|
  {
    if events != [] {
      StepKeepsNoOrphansIff(w, events[0]);
      if Tidy(w, events[0]) {
        NoOrphansOverHistories(Step(w, events[0]), events[1..]);
      }
    }
  }
}
