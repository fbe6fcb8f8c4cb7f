/** Ownership call by call: while runs of any number of sets interleave, each run's claims are exactly
    the live objects its set created, so no pending patch or delete is aimed at another's object. */
module Exclusive {
  import opened Wrappers
  import opened Objects
  import opened Apply
  import opened Ownership
  import opened Protocol
  import opened NoOrphansProofs
  import opened Interleaving
  import ManySets
  import LifeCycle

  ghost predicate NoRepeats(list: seq<Ref>) {
    forall i, j :: 0 <= i < j < |list| ==> list[i] != list[j]
  }

  /** What a run knows is still so, and what it is about to patch or delete is listed. */
  ghost predicate Sound(c: Config, n: string)
    requires n in c.threads && n in c.w.sets
  {
    match c.threads[n]
    case Looping(l, _) => l.existing == Inventory(c.w.sets[n])
    case Patching(l, job, _, _) => l.existing == Inventory(c.w.sets[n]) && job.Ref() in l.existing
    case Creating(l, job, _) => l.existing == Inventory(c.w.sets[n]) && job.Ref() !in l.existing
    case Pruning(l, ds) => NoRepeats(Targets(ds)) && RefSet(Targets(ds)) !! l.entries
    case Writing(_) => true
    case Cleaning(_, ds) => NoRepeats(Targets(ds)) && c.w.sets[n].deleting
    case Releasing(_) => c.w.sets[n].deleting
  }

  /** One set's claims, stored or held by its run, are exactly the live objects it created. */
  ghost predicate Accounted(c: Config, n: string)
    requires n in c.w.sets
  {
    var gs := c.w.sets[n];
    && (Managed(c.w, n) ==> OwnsExactly(n, c.w.cluster, Claims(c, n)))
    && (!Managed(c.w, n) && !gs.deleting ==> gs.inventory.None?)
    && (gs.inventory.Some? ==> NoRepeats(gs.inventory.value))
    && (n in c.threads ==> Managed(c.w, n) && Sound(c, n))
  }

  ghost predicate IsExclusive(c: Config) {
    && (forall n :: n in c.w.sets ==> Accounted(c, n))
    && (forall n :: n in c.threads ==> n in c.w.sets)
    && (forall id :: id in c.w.cluster && c.w.cluster[id].creator.Some? ==> Managed(c.w, c.w.cluster[id].creator.value))
  }

  /** The run can end without a last write: its stored inventory already says what it claims. */
  ghost predicate MayStop(c: Config, n: string)
    requires n in c.w.sets
  {
    Ids(Inventory(c.w.sets[n])) == Ids(Claims(c, n)) && OneVersionPerId(Inventory(c.w.sets[n]))
  }

  /** No pruning deletion fails; a last write fails, or a finalize stops short, only if the stored
      inventory is still right; and nobody else deletes an object that a set created. */
  ghost predicate OrderlyMove(c: Config, m: Move)
    requires PossibleMove(c, m)
  {
    match m
    case Begin(_, _) => true
    case Others(a) => a.DeleteObject? && a.id in c.w.cluster ==> c.w.cluster[a.id].creator.None?
    case Turn(n, h) =>
      n in c.w.sets &&
      match c.threads[n]
      case Pruning(_, ds) => ds != [] ==> !ds[0].Fails()
      case Writing(_) => h.fails ==> MayStop(c, n)
      case Cleaning(_, ds) => ds != [] && ds[0].Fails() ==> MayStop(c, n)
      case Releasing(loaded) => h.fails || c.w.sets[n] != loaded ==> MayStop(c, n)
      case _ => true
  }

  /** No set or run but this one differs. */
  ghost predicate OnlySet(c: Config, c': Config, name: string) {
    && (forall n :: n != name ==> (n in c.w.sets <==> n in c'.w.sets) && (n in c.threads <==> n in c'.threads))
    && (forall n :: n != name && n in c.w.sets ==> c'.w.sets[n] == c.w.sets[n])
    && (forall n :: n != name && n in c.threads ==> c'.threads[n] == c.threads[n])
  }

  /** No object but this set's differs. */
  ghost predicate OnlyOwn(was: Cluster, now: Cluster, name: string) {
    forall id ::
      && (id in was && was[id].creator != Some(name) ==> id in now && now[id] == was[id])
      && (id in was && id in now ==> now[id].creator == was[id].creator)
      && (id in now && id !in was ==> now[id].creator == Some(name))
  }

  /** A step that only concerns one set is decided by that set's account. */
  lemma OwnAccountDecides(c: Config, c': Config, name: string)
    requires IsExclusive(c) && OnlySet(c, c', name) && OnlyOwn(c.w.cluster, c'.w.cluster, name)
    requires name in c'.threads ==> name in c'.w.sets
    requires Created(name, c'.w.cluster) != {} ==> Managed(c'.w, name)
    ensures IsExclusive(c') <==> (name in c'.w.sets ==> Accounted(c', name))
  {
    forall n | n in c'.w.sets && n != name ensures Accounted(c', n) {
      assert Accounted(c, n);
      assert Created(n, c'.w.cluster) == Created(n, c.w.cluster);
      assert Managed(c'.w, n) ==> Claims(c', n) == Claims(c, n);
    }
    forall id | id in c'.w.cluster && c'.w.cluster[id].creator.Some?
      ensures Managed(c'.w, c'.w.cluster[id].creator.value)
    {
      if c'.w.cluster[id].creator == Some(name) { assert id in Created(name, c'.w.cluster); }
    }
  }

  /** Stopping without a write leaves the stored inventory to account for the objects. */
  lemma StopIffMayStop(c: Config, n: string)
    requires n in c.w.sets && n in c.threads && Accounted(c, n)
    ensures Accounted(Stop(c, n), n) <==> MayStop(c, n)
  {
    assert Claims(Stop(c, n), n) == Inventory(c.w.sets[n]);
  }

  // ---------- each kind of turn, on the set's own account ----------

  lemma LoopAccount(c: Config, name: string, h: Hint)
    requires name in c.w.sets && PossibleMove(c, Turn(name, h)) && c.threads[name].Looping? && Accounted(c, name)
    ensures Accounted(TakeTurn(c, name, h), name)
  {
    var c', l, todo := TakeTurn(c, name, h), c.threads[name].l, c.threads[name].todo;
    if todo != [] {
      var ref := todo[0].Ref();
      if ref in l.existing {
        assert ref in Claims(c, name);
        assert ref.id in Ids(Claims(c, name));
        assert ref.id in Created(name, c.w.cluster);
      }
    }
    assert Claims(c', name) == Claims(c, name);
  }

  lemma PatchAccount(c: Config, name: string, h: Hint)
    requires name in c.w.sets && PossibleMove(c, Turn(name, h)) && c.threads[name].Patching? && Accounted(c, name)
    ensures Accounted(TakeTurn(c, name, h), name)
  {
    var c' := TakeTurn(c, name, h);
    assert Created(name, c'.w.cluster) == Created(name, c.w.cluster);
    assert Claims(c', name) == Claims(c, name);
  }

  /** A new object under a free ID, and its ref, extend exact ownership. */
  lemma AddOne(name: string, cluster: Cluster, claims: set<Ref>, ref: Ref, body: Body)
    requires OwnsExactly(name, cluster, claims) && ref.id !in cluster
    ensures OwnsExactly(name, cluster[ref.id := Live(body, Some(name))], claims + {ref})
  {
    assert ref.id !in Created(name, cluster);
    assert forall r :: r in claims ==> r.id in Ids(claims);
    assert Ids(claims + {ref}) == Ids(claims) + {ref.id};
    assert Created(name, cluster[ref.id := Live(body, Some(name))]) == Created(name, cluster) + {ref.id};
  }

  lemma CreateAccount(c: Config, name: string, h: Hint)
    requires name in c.w.sets && PossibleMove(c, Turn(name, h)) && c.threads[name].Creating? && Accounted(c, name)
    ensures Accounted(TakeTurn(c, name, h), name)
  {
    var c', job := TakeTurn(c, name, h), c.threads[name].job;
    if c'.w == c.w {
      assert Claims(c', name) == Claims(c, name);
    } else {
      AddOne(name, c.w.cluster, Claims(c, name), job.Ref(), job.manifest.body);
      assert Claims(c', name) == Claims(c, name) + {job.Ref()};
    }
  }

  /** The next deletion is of an object of the set's own, which nothing else it claims names. */
  lemma DropOne(name: string, cluster: Cluster, claims: set<Ref>, ref: Ref)
    requires OwnsExactly(name, cluster, claims) && ref in claims
    ensures OwnsExactly(name, cluster - {ref.id}, claims - {ref})
    ensures forall fewer :: fewer <= claims - {ref} ==> !OwnsExactly(name, cluster, fewer)
  {
    assert ref.id in Ids(claims);
    assert forall r :: r in claims ==> r.id in Ids(claims);
    assert Created(name, cluster - {ref.id}) == Created(name, cluster) - {ref.id};
    assert Ids(claims) == Ids(claims - {ref}) + {ref.id};
    forall fewer | fewer <= claims - {ref} ensures !OwnsExactly(name, cluster, fewer) {
      assert forall r :: r in fewer ==> r.id != ref.id;
      assert ref.id !in Ids(fewer);
    }
  }

  lemma RestOfTargets(ds: seq<Deletion>)
    requires ds != [] && NoRepeats(Targets(ds))
    ensures NoRepeats(Targets(ds[1..]))
    ensures RefSet(Targets(ds[1..])) == RefSet(Targets(ds)) - {ds[0].ref}
    ensures ds[0].ref in RefSet(Targets(ds))
  {
    TargetsOfRest(ds);
    assert Targets(ds) == [ds[0].ref] + Targets(ds[1..]);
    assert forall i :: 0 <= i < |ds[1..]| ==> Targets(ds)[i + 1] == Targets(ds[1..])[i];
    forall i | 0 <= i < |Targets(ds[1..])| ensures Targets(ds[1..])[i] != ds[0].ref {
      assert Targets(ds)[0] != Targets(ds)[i + 1];
    }
  }

  lemma PruneAccountIff(c: Config, name: string, h: Hint)
    requires name in c.w.sets && PossibleMove(c, Turn(name, h)) && c.threads[name].Pruning? && Accounted(c, name)
    ensures Accounted(TakeTurn(c, name, h), name) <==> OrderlyMove(c, Turn(name, h))
  {
    var c', l, ds := TakeTurn(c, name, h), c.threads[name].l, c.threads[name].deletions;
    if ds == [] {
      assert Claims(c', name) == Claims(c, name);
    } else {
      RestOfTargets(ds);
      DropOne(name, c.w.cluster, Claims(c, name), ds[0].ref);
      if ds[0].Fails() {
        assert Claims(c', name) <= Claims(c, name) - {ds[0].ref};
      } else {
        assert Claims(c', name) == Claims(c, name) - {ds[0].ref};
      }
    }
  }

  lemma WriteAccountIff(c: Config, name: string, h: Hint)
    requires name in c.w.sets && PossibleMove(c, Turn(name, h)) && c.threads[name].Writing? && Accounted(c, name)
    ensures Accounted(TakeTurn(c, name, h), name) <==> OrderlyMove(c, Turn(name, h))
  {
    if h.fails {
      StopIffMayStop(c, name);
    } else {
      assert Claims(TakeTurn(c, name, h), name) == c.threads[name].l.entries;
    }
  }

  lemma CleanAccountIff(c: Config, name: string, h: Hint)
    requires name in c.w.sets && PossibleMove(c, Turn(name, h)) && c.threads[name].Cleaning? && Accounted(c, name)
    ensures Accounted(TakeTurn(c, name, h), name) <==> OrderlyMove(c, Turn(name, h))
  {
    var c', ds := TakeTurn(c, name, h), c.threads[name].deletions;
    if ds == [] {
      assert Claims(c', name) == Claims(c, name) == {};
    } else if ds[0].Fails() {
      StopIffMayStop(c, name);
    } else {
      RestOfTargets(ds);
      DropOne(name, c.w.cluster, Claims(c, name), ds[0].ref);
      assert Claims(c', name) == Claims(c, name) - {ds[0].ref};
    }
  }

  lemma ReleaseAccountIff(c: Config, name: string, h: Hint)
    requires name in c.w.sets && PossibleMove(c, Turn(name, h)) && c.threads[name].Releasing? && Accounted(c, name)
    ensures (name in TakeTurn(c, name, h).w.sets ==> Accounted(TakeTurn(c, name, h), name))
       <==> OrderlyMove(c, Turn(name, h))
  {
    if h.fails || c.w.sets[name] != c.threads[name].loaded {
      StopIffMayStop(c, name);
    }
  }

  // ---------- a turn concerns its own set only ----------

  /** The IDs that a run's next calls may patch or delete. */
  function Aimed(t: Thread): set<string> {
    match t
    case Patching(_, job, _, _) => {job.Id()}
    case Pruning(_, ds) => Ids(RefSet(Targets(ds)))
    case Cleaning(_, ds) => Ids(RefSet(Targets(ds)))
    case _ => {}
  }

  /** No pending patch or delete is aimed at anything but a live object of the run's own set. */
  lemma AimsAtOwn(c: Config, n: string)
    requires n in c.w.sets && n in c.threads && Accounted(c, n)
    ensures Aimed(c.threads[n]) <= Created(n, c.w.cluster)
  {
    match c.threads[n]
    case Patching(_, job, _, _) =>
      assert job.Ref() in Claims(c, n);
      assert job.Id() in Ids(Claims(c, n));
    case Pruning(_, ds) => assert Ids(RefSet(Targets(ds))) <= Ids(Claims(c, n));
    case Cleaning(_, ds) => assert Ids(RefSet(Targets(ds))) <= Ids(Claims(c, n));
    case _ =>
  }

  /** One call changes and deletes nothing but what it is aimed at, and creates only for its set. */
  lemma TurnHitsAimed(c: Config, name: string, h: Hint, id: string)
    requires PossibleMove(c, Turn(name, h))
    ensures var now := TakeTurn(c, name, h).w.cluster;
      && (id in c.w.cluster && id !in Aimed(c.threads[name]) ==> id in now && now[id] == c.w.cluster[id])
      && (id in c.w.cluster && id in now ==> now[id].creator == c.w.cluster[id].creator)
      && (id !in c.w.cluster && id in now ==> now[id].creator == Some(name))
  {
    match c.threads[name]
    case Pruning(_, ds) => if ds != [] { assert Targets(ds)[0] in RefSet(Targets(ds)); }
    case Cleaning(_, ds) => if ds != [] { assert Targets(ds)[0] in RefSet(Targets(ds)); }
    case _ =>
  }

  /** So one call of a run changes and deletes nothing that its set did not create. */
  lemma TurnSparesOthers(c: Config, name: string, h: Hint)
    requires name in c.w.sets && PossibleMove(c, Turn(name, h)) && Accounted(c, name)
    ensures OnlyOwn(c.w.cluster, TakeTurn(c, name, h).w.cluster, name)
  {
    AimsAtOwn(c, name);
    var was, now := c.w.cluster, TakeTurn(c, name, h).w.cluster;
    forall id
      ensures (id in was && was[id].creator != Some(name) ==> id in now && now[id] == was[id])
           && (id in was && id in now ==> now[id].creator == was[id].creator)
           && (id in now && id !in was ==> now[id].creator == Some(name))
    {
      TurnHitsAimed(c, name, h, id);
    }
  }

  lemma TurnSparesOtherSets(c: Config, name: string, h: Hint)
    requires PossibleMove(c, Turn(name, h))
    ensures OnlySet(c, TakeTurn(c, name, h), name)
  {
  }

  /** Where a turn can leave its set without the finalizer, no object of the set is left. */
  lemma TurnKeepsCharge(c: Config, name: string, h: Hint)
    requires name in c.w.sets && PossibleMove(c, Turn(name, h)) && Accounted(c, name)
    ensures Created(name, TakeTurn(c, name, h).w.cluster) != {} ==> Managed(TakeTurn(c, name, h).w, name)
  {
    if c.threads[name].Releasing? { assert Ids({}) == {}; }
  }

  lemma OwnTurnDecides(c: Config, name: string, h: Hint)
    requires IsExclusive(c) && PossibleMove(c, Turn(name, h))
    ensures name in c.w.sets && Accounted(c, name)
    ensures var c' := TakeTurn(c, name, h);
      IsExclusive(c') <==> (name in c'.w.sets ==> Accounted(c', name))
  {
    assert name in c.w.sets && Accounted(c, name);
    TurnSparesOthers(c, name, h);
    TurnSparesOtherSets(c, name, h);
    TurnKeepsCharge(c, name, h);
    OwnAccountDecides(c, TakeTurn(c, name, h), name);
  }

  lemma TurnAccountIff(c: Config, name: string, h: Hint)
    requires name in c.w.sets && PossibleMove(c, Turn(name, h)) && Accounted(c, name)
    ensures (name in TakeTurn(c, name, h).w.sets ==> Accounted(TakeTurn(c, name, h), name))
       <==> OrderlyMove(c, Turn(name, h))
  {
    match c.threads[name] {
      case Looping(_, _) => LoopAccount(c, name, h);
      case Patching(_, _, _, _) => PatchAccount(c, name, h);
      case Creating(_, _, _) => CreateAccount(c, name, h);
      case Pruning(_, _) => PruneAccountIff(c, name, h);
      case Writing(_) => WriteAccountIff(c, name, h);
      case Cleaning(_, _) => CleanAccountIff(c, name, h);
      case Releasing(_) => ReleaseAccountIff(c, name, h);
    }
  }

  // ---------- the other moves ----------

  lemma BeginAccount(c: Config, name: string, s: Script)
    requires name in c.w.sets && name !in c.threads && PossibleMove(c, Begin(name, s)) && Accounted(c, name)
    requires !Managed(c.w, name) ==> Created(name, c.w.cluster) == {}
    ensures name in BeginRun(c, name, s).w.sets && Accounted(BeginRun(c, name, s), name)
  {
    var c' := BeginRun(c, name, s);
    if Managed(c'.w, name) { assert Claims(c', name) == Inventory(c.w.sets[name]); }
  }

  lemma BeginKeepsExclusive(c: Config, name: string, s: Script)
    requires IsExclusive(c) && PossibleMove(c, Begin(name, s))
    ensures IsExclusive(BeginRun(c, name, s))
  {
    if name in c.w.sets {
      assert Accounted(c, name);
      if !Managed(c.w, name) { assert Created(name, c.w.cluster) == {}; }
      BeginAccount(c, name, s);
      BeginIsOwn(c, name, s);
      OwnAccountDecides(c, BeginRun(c, name, s), name);
    }
  }

  lemma BeginIsOwn(c: Config, name: string, s: Script)
    requires name in c.w.sets && PossibleMove(c, Begin(name, s))
    ensures OnlySet(c, BeginRun(c, name, s), name) && BeginRun(c, name, s).w.cluster == c.w.cluster
    ensures Managed(c.w, name) ==> Managed(BeginRun(c, name, s).w, name)
  {
  }

  /** Moves of others leave every claim as it is. */
  lemma OthersKeepClaims(c: Config, a: Action, n: string)
    requires n in c.w.sets && n in Act(c.w, a).sets && (n in c.threads ==> Managed(c.w, n))
    ensures Act(c.w, a).sets[n].inventory == c.w.sets[n].inventory
    ensures Claims(Interleaving.Step(c, Others(a)), n) == Claims(c, n)
    ensures c.w.sets[n].deleting ==> Act(c.w, a).sets[n].deleting
  {
  }

  lemma OthersAccount(c: Config, a: Action, n: string)
    requires n in c.w.sets && Accounted(c, n) && OrderlyMove(c, Others(a))
    ensures n in Act(c.w, a).sets ==> Accounted(Interleaving.Step(c, Others(a)), n)
  {
    var c' := Interleaving.Step(c, Others(a));
    ActionFacts(c.w, a);
    if n in c'.w.sets {
      OthersKeepClaims(c, a, n);
      assert Created(n, c'.w.cluster) == Created(n, c.w.cluster);
    }
  }

  lemma OthersKeepExclusive(c: Config, a: Action)
    requires IsExclusive(c) && OrderlyMove(c, Others(a))
    ensures IsExclusive(Interleaving.Step(c, Others(a)))
  {
    var c' := Interleaving.Step(c, Others(a));
    ActionFacts(c.w, a);
    forall n | n in c'.w.sets ensures Accounted(c', n) {
      if n in c.w.sets { OthersAccount(c, a, n); }
    }
    forall n | n in c.threads ensures n in c'.w.sets {
      assert Accounted(c, n) && Managed(c'.w, n);
    }
  }

  lemma DeletionBreaksExclusive(c: Config, id: string)
    requires IsExclusive(c) && id in c.w.cluster && c.w.cluster[id].creator.Some?
    ensures !IsExclusive(Interleaving.Step(c, Others(DeleteObject(id))))
  {
    var n, c' := c.w.cluster[id].creator.value, Interleaving.Step(c, Others(DeleteObject(id)));
    assert Accounted(c, n) && Managed(c'.w, n);
    assert id in Created(n, c.w.cluster) && id !in Created(n, c'.w.cluster);
    assert Claims(c', n) == Claims(c, n);
    assert !Accounted(c', n);
  }

  /** Each single call, or move of others, keeps exact ownership if and only if it is orderly. */
  lemma StepKeepsExclusiveIff(c: Config, m: Move)
    requires IsExclusive(c) && PossibleMove(c, m)
    ensures IsExclusive(Interleaving.Step(c, m)) <==> OrderlyMove(c, m)
  {
    match m {
      case Begin(name, s) => BeginKeepsExclusive(c, name, s);
      case Others(a) =>
        if OrderlyMove(c, m) { OthersKeepExclusive(c, a); } else { DeletionBreaksExclusive(c, a.id); }
      case Turn(name, h) =>
        OwnTurnDecides(c, name, h);
        TurnAccountIff(c, name, h);
    }
  }

  /** While no run is under way this is exact ownership of the stored inventories. */
  lemma IdleExclusiveIsOwns(w: World)
    ensures IsExclusive(Config(w, map[])) ==> ManySets.Owns(w)
    ensures ManySets.Owns(w) && LifeCycle.WellStored(w) ==> IsExclusive(Config(w, map[]))
  {
    var c := Config(w, map[]);
    forall n | n in w.sets ensures Claims(c, n) == Inventory(w.sets[n]) {
    }
    if IsExclusive(c) {
      forall n | Managed(w, n) ensures OwnsExactly(n, w.cluster, Inventory(w.sets[n])) {
        assert Accounted(c, n);
      }
      forall n | n in w.sets && !Managed(w, n) && !w.sets[n].deleting ensures w.sets[n].inventory.None? {
        assert Accounted(c, n);
      }
    }
  }

  ghost predicate OrderlyTrace(c: Config, moves: seq<Move>)
    requires PossibleTrace(c, moves)
    decreases |moves|
  {
    moves == [] || (OrderlyMove(c, moves[0]) && OrderlyTrace(Interleaving.Step(c, moves[0]), moves[1..]))
  }

  /** Exact ownership, and every pending call aimed at the run's own objects, at every point. */
  ghost predicate AlwaysExclusive(c: Config, moves: seq<Move>)
    requires PossibleTrace(c, moves)
    decreases |moves|
  {
    && IsExclusive(c)
    && (forall n :: n in c.threads ==> Aimed(c.threads[n]) <= Created(n, c.w.cluster))
    && (moves == [] || AlwaysExclusive(Interleaving.Step(c, moves[0]), moves[1..]))
  }

  /** Ownership under call-by-call interleaving of any number of sets, whatever else fails: every run's
      claims stay exactly its set's live objects, and no patch or delete is ever pending on another's
      object, if and only if every move is orderly when it happens. */
  lemma {:induction false} ExclusiveThroughout(c: Config, moves: seq<Move>)
    requires IsExclusive(c) && PossibleTrace(c, moves)
    ensures AlwaysExclusive(c, moves) <==> OrderlyTrace(c, moves)
    decreases |moves|
  {
    forall n | n in c.threads ensures Aimed(c.threads[n]) <= Created(n, c.w.cluster) {
      assert Accounted(c, n);
      AimsAtOwn(c, n);
    }
    if moves != [] {
      StepKeepsExclusiveIff(c, moves[0]);
      if OrderlyMove(c, moves[0]) {
        ExclusiveThroughout(Interleaving.Step(c, moves[0]), moves[1..]);
      }
    }
  }
}
