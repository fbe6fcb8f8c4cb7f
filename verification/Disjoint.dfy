/** Disjointness of all stored inventories, those of retired sets included: exactly when a step keeps it. */
module Disjoint {
  import opened Objects
  import opened Apply
  import opened Ownership
  import opened Protocol
  import opened NoOrphansProofs
  import opened ManySets

  function StoredIds(w: World, n: string): set<string>
    requires n in w.sets
  {
    Ids(Inventory(w.sets[n]))
  }

  /** No two stored inventories name the same ID. */
  ghost predicate AllDisjoint(w: World) {
    forall m, n :: m in w.sets && n in w.sets && m != n ==> StoredIds(w, m) !! StoredIds(w, n)
  }

  /** The free IDs that these jobs take. */
  function Takeable(cluster: Cluster, jobs: seq<Job>): set<string> {
    set j | j in jobs && j.CanCreate() && j.Id() !in cluster :: j.Id()
  }

  /** The IDs that an orderly applying run newly lists are exactly the free ones it takes. */
  lemma NewlyListedIsTaken(w: World, name: string, s: Script)
    requires Owns(w) && Possible(w, name, s) && PhaseOf(w, name, s) == Applying && !s.statusFails
    ensures name in Reconcile(w, name, s).world.sets
    ensures StoredIds(Reconcile(w, name, s).world, name) - StoredIds(w, name) == Takeable(w.cluster, s.rendered.value)
  {
    var stored, jobs := w.sets[name].inventory, s.rendered.value;
    ApplyingRun(w, name, s);
    PassFacts(name, w.cluster, stored, ThePass(s));
    assert OwnsExactly(name, w.cluster, Inventory(w.sets[name]));
    var before, entries := StoredIds(w, name), RefSet(s.listing);
    var p := Applied(name, w.cluster, stored, jobs);
    assert before <= w.cluster.Keys;
    forall id ensures id in Ids(entries) && id !in before <==> id in Takeable(w.cluster, jobs) {
      if id !in w.cluster {
        AppearsIff(Context(name, Existing(stored)), w.cluster, jobs, id);
        assert id in p.cluster ==> id in Ids(entries);
      }
      if id in Ids(entries) && id !in before {
        var r :| r in entries && r.id == id;
        assert r !in Existing(stored);
      }
    }
  }

  /** A run that stores what it created under an ID which some retired set's inventory still names. */
  ghost predicate RetakesRetired(w: World, e: Event) {
    e.Reconciled? && PhaseOf(w, e.name, e.script) == Applying && !e.script.statusFails
    && exists m :: Retired(w, m) && !(StoredIds(w, m) !! Takeable(w.cluster, e.script.rendered.value))
  }

  /** Inventories that only vanish or stay as they are stay disjoint. */
  lemma NothingNewStaysDisjoint(w: World, w': World)
    requires AllDisjoint(w)
    requires forall n :: n in w'.sets && StoredIds(w', n) != {} ==> n in w.sets && StoredIds(w', n) == StoredIds(w, n)
    ensures AllDisjoint(w')
  {
    forall m, n | m in w'.sets && n in w'.sets && m != n ensures StoredIds(w', m) !! StoredIds(w', n) {
      if StoredIds(w', m) != {} && StoredIds(w', n) != {} {
        assert StoredIds(w, m) !! StoredIds(w, n);
      }
    }
  }

  lemma QuietStepStaysDisjoint(w: World, e: Event)
    requires AllDisjoint(w) && PossibleEvent(w, e)
    requires e.Reconciled? && PhaseOf(w, e.name, e.script) == Applying ==> e.script.statusFails
    ensures AllDisjoint(Step(w, e))
  {
    NothingNewStaysDisjoint(w, Step(w, e));
  }

  lemma ApplyingStaysDisjointIff(w: World, name: string, s: Script)
    requires Owns(w) && AllDisjoint(w) && Possible(w, name, s) && Orderly(w, Reconciled(name, s))
    requires PhaseOf(w, name, s) == Applying && !s.statusFails
    ensures AllDisjoint(Reconcile(w, name, s).world) <==> !RetakesRetired(w, Reconciled(name, s))
  {
    var w', taken := Reconcile(w, name, s).world, Takeable(w.cluster, s.rendered.value);
    ApplyingRun(w, name, s);
    StepKeepsOwnsIff(w, Reconciled(name, s));
    NewlyListedIsTaken(w, name, s);
    forall m | m in w.sets && m != name
      ensures m in w'.sets && StoredIds(w', m) == StoredIds(w, m)
      ensures StoredIds(w', m) !! StoredIds(w', name) <==> !(Retired(w, m) && !(StoredIds(w, m) !! taken))
    {
      assert StoredIds(w, m) !! StoredIds(w, name);
      if !Retired(w', m) { InventoriesAreDisjoint(w', m, name); }
      OldPartIsDisjoint(StoredIds(w, m), StoredIds(w, name), StoredIds(w', name), taken);
    }
    assert !Retired(w, name);
    if RetakesRetired(w, Reconciled(name, s)) {
      var m :| Retired(w, m) && !(StoredIds(w, m) !! taken);
      assert !(StoredIds(w', m) !! StoredIds(w', name));
    } else {
      forall m, n | m in w'.sets && n in w'.sets && m != n ensures StoredIds(w', m) !! StoredIds(w', n) {
        if m != name && n != name { assert StoredIds(w, m) !! StoredIds(w, n); }
      }
    }
  }

  lemma OldPartIsDisjoint(other: set<string>, before: set<string>, after: set<string>, taken: set<string>)
    requires other !! before && after - before == taken
    ensures other !! after <==> other !! taken
  {
    assert after <= before + taken;
  }

  /** One orderly event keeps all stored inventories disjoint if and only if it does not store an
      object created under an ID that a retired set's inventory still names. */
  lemma StepStaysDisjointIff(w: World, e: Event)
    requires Owns(w) && AllDisjoint(w) && PossibleEvent(w, e) && Orderly(w, e)
    ensures AllDisjoint(Step(w, e)) <==> !RetakesRetired(w, e)
  {
    if e.Reconciled? && PhaseOf(w, e.name, e.script) == Applying && !e.script.statusFails {
      ApplyingStaysDisjointIff(w, e.name, e.script);
    } else {
      QuietStepStaysDisjoint(w, e);
    }
  }

  ghost predicate AlwaysDisjoint(w: World, events: seq<Event>)
    decreases |events|
  {
    AllDisjoint(w) && (events == [] || AlwaysDisjoint(Step(w, events[0]), events[1..]))
  }

  ghost predicate NeverRetakes(w: World, events: seq<Event>)
    decreases |events|
  {
    events == [] || (!RetakesRetired(w, events[0]) && NeverRetakes(Step(w, events[0]), events[1..]))
  }

  /** Over every orderly history, all stored inventories stay pairwise disjoint at every point if and
      only if no event retakes an ID of a retired set. */
  lemma {:induction false} DisjointOverHistories(w: World, events: seq<Event>)
    requires Owns(w) && AllDisjoint(w) && PossibleHistory(w, events) && OrderlyHistory(w, events)
    ensures AlwaysDisjoint(w, events) <==> NeverRetakes(w, events)
    decreases |events|
  {
    if events != [] {
      StepStaysDisjointIff(w, events[0]);
      StepKeepsOwnsIff(w, events[0]);
      if !RetakesRetired(w, events[0]) {
        DisjointOverHistories(Step(w, events[0]), events[1..]);
      }
    }
  }
}
