/** Concrete histories in which a hypothesis of the whole-run theorems fails, and the theorem with it. */
module Hazards {
  import opened Wrappers
  import opened Objects
  import opened Listing
  import opened Apply
  import opened ApplyProofs
  import opened Ownership
  import opened Protocol
  import opened NoOrphansProofs
  import opened Convergence
  import opened ManySets
  import opened Disjoint

  const BODY := Body(map[], map[], map[], Null)
  const X := Ref("default_x__ConfigMap", "v1")

  function Charge(inventory: Option<seq<Ref>>, deleting: bool): GitOpsSet {
    GitOpsSet({FINALIZER}, false, deleting, inventory, None)
  }

  function Answer(jobs: seq<Job>, deletions: seq<Deletion>, listing: seq<Ref>, updateFails: bool): Script {
    Script(false, updateFails, false, Ok(jobs), deletions, listing, Some(0), false)
  }

  lemma OneRefListing(r: Ref)
    ensures Enumerates([r], {r}) && SortedListing([r], {r})
    ensures Enumerates([], {}) && SortedListing([], {})
    ensures Ids({r}) == {r.id} && RefSet([r]) == {r}
  {
  }

  /** A failing deletion loses its ref: the run reports an error, stores an inventory without the
      ref, and the object stays behind unlisted. */
  lemma FailedDeletionOrphans()
    ensures var w := World(map[X.id := Live(BODY, Some("a"))], map["a" := Charge(Some([X]), false)]);
      var s := Answer([], [Deletion(X, false, false, true)], [], false);
      var r := Reconcile(w, "a", s);
      && NoOrphans(w) && Possible(w, "a", s)
      && r.outcome.Failed?
      && !NoOrphans(r.world)
      && r.world.sets["a"].inventory.None? && r.world.cluster == w.cluster
  {
    var w := World(map[X.id := Live(BODY, Some("a"))], map["a" := Charge(Some([X]), false)]);
    var ds := [Deletion(X, false, false, true)];
    var s := Answer([], ds, [], false);
    OneRefListing(X);
    assert Targets(ds) == [X];
    assert Pruned("a", w.cluster, Some([X]), []) == {X};
    var r := Reconcile(w, "a", s);
    assert X.id in r.world.cluster && !Covered(r.world, X.id);
  }

  // Set "a" is being deleted and owns X; set "b" has applied nothing yet.
  const SETS := map["a" := Charge(Some([X]), true), "b" := Charge(None, false)]
  const START := World(map[X.id := Live(BODY, Some("a"))], SETS)
  const GONE := [Deletion(X, false, false, false)]
  const DELETED := World(map[], SETS)
  const TAKEN := World(map[X.id := Live(BODY, Some("b"))], SETS["b" := Charge(Some([X]), false).(ready := Some(true))])

  lemma FinalizeFreesTheId(w: World, updateFails: bool)
    requires w == START || w == TAKEN
    ensures var s := Answer([], GONE, [], updateFails);
      && Possible(w, "a", s)
      && Reconcile(w, "a", s).world.cluster == map[]
      && (if updateFails then Reconcile(w, "a", s) == Run(w.(cluster := map[]), Failed)
          else Reconcile(w, "a", s).outcome == Finished(0))
  {
    OneRefListing(X);
    assert Targets(GONE) == [X];
    FullRemoval(w.cluster, GONE);
    assert w.cluster - {X.id} == map[];
  }

  lemma OtherSetTakesTheId(sets: map<string, GitOpsSet>)
    requires "b" in sets && sets["b"] == Charge(None, false)
    ensures var w := World(map[], sets);
      var s := Answer([Job(Manifest(X, BODY), NO_FAULT)], [], [X], false);
      && Possible(w, "b", s)
      && Reconcile(w, "b", s)
         == Run(World(map[X.id := Live(BODY, Some("b"))], sets["b" := Charge(Some([X]), false).(ready := Some(true))]),
                Finished(0))
  {
    OneRefListing(X);
    var job := Job(Manifest(X, BODY), NO_FAULT);
    assert [job][..0] == [] && Targets([]) == [];
    var ctx := Context("b", {});
    var p := ApplyAll(ctx, Start(map[]), [job]);
    assert p == ApplyOne(ctx, ApplyAll(ctx, Start(map[]), [job][..0]), job);
    assert p.cluster == map[X.id := Live(BODY, Some("b"))];
    assert p.entries == {X} && p.errors == [];
  }

  lemma StartIsOwned()
    ensures Owns(START)
  {
    OneRefListing(X);
    assert Created("a", START.cluster) == {X.id};
    assert Created("b", START.cluster) == {};
  }

  lemma PlayTwo(w: World, first: Event, second: Event)
    ensures Play(w, [first, second]) == Step(Step(w, first), second)
  {
    assert [first, second][1..] == [second] && [second][1..] == [];
    assert Play(Step(w, first), [second]) == Play(Step(Step(w, first), second), []);
  }

  /** If the finalizer cannot be removed after the deletions succeeded, the inventory keeps naming
      freed IDs. Another set may create an object there, and the retry deletes it. */
  lemma FinalizeRetryHitsAnotherSet()
    ensures var failing := Reconciled("a", Answer([], GONE, [], true));
      var creating := Reconciled("b", Answer([Job(Manifest(X, BODY), NO_FAULT)], [], [X], false));
      var retry := Answer([], GONE, [], false);
      && Owns(START)
      && Play(START, [failing, creating]) == TAKEN && TAKEN.cluster[X.id].creator == Some("b")
      && Possible(TAKEN, "a", retry) && Reconcile(TAKEN, "a", retry).outcome == Finished(0)
      && X.id !in Reconcile(TAKEN, "a", retry).world.cluster
  {
    StartIsOwned();
    FinalizeFreesTheId(START, true);
    OtherSetTakesTheId(SETS);
    FinalizeFreesTheId(TAKEN, false);
    PlayTwo(START, Reconciled("a", Answer([], GONE, [], true)),
            Reconciled("b", Answer([Job(Manifest(X, BODY), NO_FAULT)], [], [X], false)));
  }

  // ---------- one job ----------

  const X2 := Ref(X.id, "v2")
  const STALE := Situation(map[X.id := Live(BODY, Some("a"))], Some([X]))
  const TWICE := [Job(Manifest(X2, BODY), NO_FAULT), Job(Manifest(X2, BODY), NO_FAULT)]

  /** A loop over one fault-free job of set "a". */
  lemma OneJobLoop(existing: set<Ref>, cluster: Cluster, ref: Ref)
    requires ref !in existing
    ensures var p := ApplyAll(Context("a", existing), Start(cluster), [Job(Manifest(ref, BODY), NO_FAULT)]);
      if ref.id in cluster then p == Progress(cluster, {}, [AlreadyExists(ref)])
      else p == Progress(cluster[ref.id := Live(BODY, Some("a"))], {ref}, [])
  {
    var job, ctx := Job(Manifest(ref, BODY), NO_FAULT), Context("a", existing);
    assert [job][..0] == [];
    var p := ApplyAll(ctx, Start(cluster), [job]);
    assert p == ApplyOne(ctx, ApplyAll(ctx, Start(cluster), [job][..0]), job);
    if ref.id in cluster { assert p.cluster == cluster; }
  }

  /** If the status cannot be written after a Create, the new object is in no inventory. */
  lemma FailedStatusWriteOrphans()
    ensures var w := World(map[], map["a" := Charge(None, false)]);
      var s := Answer([Job(Manifest(X, BODY), NO_FAULT)], [], [X], false).(statusFails := true);
      var r := Reconcile(w, "a", s);
      && NoOrphans(w) && Possible(w, "a", s)
      && r == Run(w.(cluster := map[X.id := Live(BODY, Some("a"))]), Failed)
      && !NoOrphans(r.world)
  {
    OneRefListing(X);
    OneJobLoop({}, map[], X);
    assert Targets([]) == [];
    var w := World(map[], map["a" := Charge(None, false)]);
    var s := Answer([Job(Manifest(X, BODY), NO_FAULT)], [], [X], false).(statusFails := true);
    var r := Reconcile(w, "a", s);
    assert X.id in r.world.cluster && !Covered(r.world, X.id);
  }

  /** A new version of an absent object: it is created, pruning the old version deletes it again, and
      the run ends without error and lists it. */
  lemma ErrorFreeRunListsDeleted()
    ensures var w := World(map[], map["a" := Charge(Some([X]), false)]);
      var s := Answer([Job(Manifest(X2, BODY), NO_FAULT)], GONE, [X2], false);
      var r := Reconcile(w, "a", s);
      && Possible(w, "a", s)
      && r.outcome == Finished(0)
      && r.world.cluster == map[]
      && r.world.sets["a"].inventory == Some([X2]) && r.world.sets["a"].ready == Some(true)
  {
    OneRefListing(X);
    OneRefListing(X2);
    OneJobLoop({X}, map[], X2);
    assert Targets(GONE) == [X];
    assert {X} - {X2} == {X};
    FullRemoval(map[X.id := Live(BODY, Some("a"))], GONE);
  }

  /** A new version of a live object, rendered twice: without any fault the second run still fails, on its
      second Create, and only the third is error-free. */
  lemma StaleDuplicateFailsTwice(passes: seq<Pass>)
    requires |passes| == 3 && CleanRuns("a", STALE, TWICE, passes)
    ensures NoForeignTaken(STALE, TWICE)
    ensures ReportOf("a", Before("a", STALE, passes, 1), passes[1]).errors != []
    ensures ReportOf("a", Before("a", STALE, passes, 2), passes[2]).errors == []
  {
    OneRefListing(X);
    assert forall j :: j in TWICE ==> j.Ref() == X2;
    assert TWICE[..1][0].Id() == X2.id;
    assert TWICE[..1][0] in TWICE[..1];
    assert !StaleOnce(STALE, TWICE) by { assert TWICE[1].Id() in JobIds(TWICE[..1]); }
    TwoRunConvergence("a", STALE, TWICE, passes, 1);
    TwoRunConvergence("a", STALE, TWICE, passes, 2);
  }

  /** A rendered ID held by an object that the set does not list: the run fails and changes nothing but the status. */
  lemma ForeignHolderFailsRun()
    ensures var w := World(map[X.id := Live(BODY, None)], map["a" := Charge(None, false)]);
      var s := Answer([Job(Manifest(X, BODY), NO_FAULT)], [], [], false);
      var r := Reconcile(w, "a", s);
      && Possible(w, "a", s)
      && r.outcome.Failed? && r.world.cluster == w.cluster
      && r.world.sets["a"].inventory.None? && r.world.sets["a"].ready == Some(false)
  {
    OneRefListing(X);
    OneJobLoop({}, map[X.id := Live(BODY, None)], X);
    assert Targets([]) == [];
  }

  // Set "a" is being deleted, owns X and carries somebody else's finalizer too.
  const HELD := Charge(Some([X]), true).(finalizers := {FINALIZER, "other"})
  const HELD_SETS := map["a" := HELD, "b" := Charge(None, false)]

  lemma RetiringFreesTheId()
    ensures var w := World(map[X.id := Live(BODY, Some("a"))], HELD_SETS);
      var s := Answer([], GONE, [], false);
      && Possible(w, "a", s)
      && Reconcile(w, "a", s) == Run(World(map[], HELD_SETS["a" := HELD.(finalizers := {"other"})]), Finished(0))
  {
    OneRefListing(X);
    assert Targets(GONE) == [X];
    FullRemoval(map[X.id := Live(BODY, Some("a"))], GONE);
    assert |FINALIZER| != |"other"|;
    assert {FINALIZER, "other"} - {FINALIZER} == {"other"};
  }

  /** A set that another finalizer keeps after its finalize still stores its inventory. In an orderly
      history another set may create an object under an ID named there, and both list it. */
  lemma RetiredInventoryMayOverlap()
    ensures var w := World(map[X.id := Live(BODY, Some("a"))], HELD_SETS);
      var events := [Reconciled("a", Answer([], GONE, [], false)),
                     Reconciled("b", Answer([Job(Manifest(X, BODY), NO_FAULT)], [], [X], false))];
      var end := Play(w, events);
      && Owns(w) && AllDisjoint(w) && PossibleHistory(w, events) && OrderlyHistory(w, events)
      && Owns(end) && Retired(end, "a") && Managed(end, "b")
      && StoredIds(end, "a") == StoredIds(end, "b") == {X.id}
  {
    var w := World(map[X.id := Live(BODY, Some("a"))], HELD_SETS);
    var first := Reconciled("a", Answer([], GONE, [], false));
    var second := Reconciled("b", Answer([Job(Manifest(X, BODY), NO_FAULT)], [], [X], false));
    OneRefListing(X);
    HeldIsOwned();
    RetiringFreesTheId();
    OtherSetTakesTheId(HELD_SETS["a" := HELD.(finalizers := {"other"})]);
    PlayTwo(w, first, second);
    assert [first, second][1..] == [second] && [second][1..] == [];
    assert |FINALIZER| != |"other"|;
    assert OrderlyHistory(w, [first, second]);
    OwnershipOverHistories(w, [first, second]);
    AlwaysOwnsAtEveryPoint(w, [first, second], 2);
    assert [first, second][..2] == [first, second];
  }

  lemma HeldIsOwned()
    ensures var w := World(map[X.id := Live(BODY, Some("a"))], HELD_SETS);
      Owns(w) && AllDisjoint(w)
  {
    OneRefListing(X);
    var live := map[X.id := Live(BODY, Some("a"))];
    assert Created("a", live) == {X.id} && Created("b", live) == {};
  }
}
