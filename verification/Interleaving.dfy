/** Runs at the grain of single API calls. Runs of different sets, and everyone else's moves, interleave
    call by call; one set has at most one run at a time. */
module Interleaving {
  import opened Wrappers
  import opened Objects
  import opened Listing
  import opened Apply
  import opened Ownership
  import opened Exactness
  import opened Protocol
  import opened NoOrphansProofs

  /** A run's local variables in the apply loop. */
  datatype Local = Local(existing: set<Ref>, entries: set<Ref>, errors: seq<ApplyError>) {
    function Enter(ref: Ref): Local { this.(entries := entries + {ref}) }
    function Fail(error: ApplyError): Local { this.(errors := errors + [error]) }
  }

  /** Where a run stands between two API calls. */
  datatype Thread =
    | Looping(l: Local, todo: seq<Job>)
    | Patching(l: Local, job: Job, got: Body, todo: seq<Job>)
    | Creating(l: Local, job: Job, todo: seq<Job>)
    | Pruning(l: Local, deletions: seq<Deletion>)
    | Writing(l: Local)
    | Cleaning(loaded: GitOpsSet, deletions: seq<Deletion>)
    | Releasing(loaded: GitOpsSet)

  datatype Config = Config(w: World, threads: map<string, Thread>)

  /** The environment's choices for one step: the outcome of a patch whose object has changed since it
      was read, the order of deletions, the sorted listing, and failures of the last calls. */
  datatype Hint = Hint(body: Body, deletions: seq<Deletion>, listing: seq<Ref>, fails: bool, intervalFails: bool)

  datatype Move = Begin(name: string, script: Script) | Turn(name: string, hint: Hint) | Others(action: Action)

  function Go(c: Config, name: string, t: Thread): Config {
    c.(threads := c.threads[name := t])
  }

  function Stop(c: Config, name: string): Config {
    c.(threads := c.threads - {name})
  }

  function SetCluster(c: Config, cluster: Cluster): Config {
    c.(w := c.w.(cluster := cluster))
  }

  /** The first call of a run: reads the set. Runs that touch no object are single steps. */
  function BeginRun(c: Config, name: string, s: Script): Config {
    match PhaseOf(c.w, name, s)
    case Applying => Go(c, name, Looping(Local(Inventory(c.w.sets[name]), {}, []), s.rendered.value))
    case Finalizing => Go(c, name, Cleaning(c.w.sets[name], s.deletions))
    case _ => c.(w := Reconcile(c.w, name, s).world)
  }

  function BeginJob(c: Config, name: string, l: Local, job: Job, todo: seq<Job>): Config {
    var ref, v := job.Ref(), job.verdict;
    if v.refFails then Go(c, name, Looping(l.Fail(NoRef), todo))
    else if ref in l.existing then
      if v.parseFails then Go(c, name, Looping(l.Fail(BadRef(ref)), todo))
      else if v.getFails then Go(c, name, Looping(l.Enter(ref).Fail(LoadFailed(ref)), todo))
      else if ref.id in c.w.cluster then Go(c, name, Patching(l.Enter(ref), job, c.w.cluster[ref.id].body, todo))
      else Go(c, name, Creating(l.Enter(ref), job, todo))
    else Go(c, name, Creating(l, job, todo))
  }

  function PatchCall(c: Config, name: string, l: Local, job: Job, got: Body, todo: seq<Job>, changed: Body): Config {
    var ref := job.Ref();
    if job.verdict.patchFails || ref.id !in c.w.cluster then Go(c, name, Looping(l.Fail(UpdateFailed(ref)), todo))
    else
      var live := c.w.cluster[ref.id];
      var body := if live.body == got then Overlay(got, job.manifest.body) else changed;
      Go(SetCluster(c, c.w.cluster[ref.id := live.(body := body)]), name, Looping(l, todo))
  }

  function CreateCall(c: Config, name: string, l: Local, job: Job, todo: seq<Job>): Config {
    var ref, v := job.Ref(), job.verdict;
    if v.logFails then Go(c, name, Looping(l.Fail(LogFailed(ref)), todo))
    else if v.createFails then Go(c, name, Looping(l.Fail(CreateFailed(ref)), todo))
    else if ref.id in c.w.cluster then
      var failed := l.Fail(AlreadyExists(ref));
      Go(c, name, Looping(if v.relogFails then failed.Fail(LogFailed(ref)) else failed, todo))
    else
      Go(SetCluster(c, c.w.cluster[ref.id := Live(job.manifest.body, Some(name))]), name, Looping(l.Enter(ref), todo))
  }

  /** One step of a run: at most one API call. */
  function TakeTurn(c: Config, name: string, h: Hint): Config
    requires name in c.threads
  {
    match c.threads[name]
    case Looping(l, todo) =>
      if todo == [] then Go(c, name, Pruning(l, h.deletions)) else BeginJob(c, name, l, todo[0], todo[1..])
    case Patching(l, job, got, todo) => PatchCall(c, name, l, job, got, todo, h.body)
    case Creating(l, job, todo) => CreateCall(c, name, l, job, todo)
    case Pruning(l, ds) =>
      if ds == [] then Go(c, name, Writing(l))
      else if ds[0].Fails() then Go(c, name, Writing(l.Fail(ds[0].Error())))
      else Go(SetCluster(c, c.w.cluster - {ds[0].ref.id}), name, Pruning(l, ds[1..]))
    case Writing(l) =>
      if h.fails || name !in c.w.sets then Stop(c, name)
      else
        var gs := SetReadiness(c.w.sets[name], Some(h.listing), l.errors == [] && !h.intervalFails);
        Stop(c.(w := c.w.(sets := c.w.sets[name := gs])), name)
    case Cleaning(loaded, ds) =>
      if ds == [] then Go(c, name, Releasing(loaded))
      else if ds[0].Fails() then Stop(c, name)
      else Go(SetCluster(c, c.w.cluster - {ds[0].ref.id}), name, Cleaning(loaded, ds[1..]))
    case Releasing(loaded) =>
      // the update carries the version that was loaded, and is refused if the set has changed since
      if h.fails || name !in c.w.sets || c.w.sets[name] != loaded then Stop(c, name)
      else
        var gs := loaded.(finalizers := loaded.finalizers - {FINALIZER});
        Stop(c.(w := c.w.(sets := PutSet(c.w.sets, name, gs))), name)
  }

  function Step(c: Config, m: Move): Config
    requires m.Turn? ==> m.name in c.threads
  {
    match m
    case Begin(name, s) => BeginRun(c, name, s)
    case Turn(name, h) => TakeTurn(c, name, h)
    case Others(a) => c.(w := Act(c.w, a))
  }

  /** Moves that can happen: no second run of a set, and orders the set library may choose. */
  ghost predicate PossibleMove(c: Config, m: Move) {
    match m
    case Begin(name, s) =>
      && name !in c.threads
      && (PhaseOf(c.w, name, s) == Finalizing ==> Targets(s.deletions) == Entries(c.w.sets[name]))
    case Turn(name, h) =>
      && name in c.threads
      && (match c.threads[name]
          case Looping(l, todo) => todo == [] ==> Enumerates(Targets(h.deletions), l.existing - l.entries)
          case Writing(l) => SortedListing(h.listing, l.entries)
          case _ => true)
    case Others(_) => true
  }

  // ---------- no orphans, call by call ----------

  /** The refs that speak for a set's live objects at this point of its run. */
  function Claims(c: Config, name: string): set<Ref>
    requires name in c.w.sets
  {
    if name !in c.threads then Inventory(c.w.sets[name])
    else
      match c.threads[name]
      case Looping(l, _) => Inventory(c.w.sets[name]) + l.entries
      case Patching(l, _, _, _) => Inventory(c.w.sets[name]) + l.entries
      case Creating(l, _, _) => Inventory(c.w.sets[name]) + l.entries
      case Pruning(l, ds) => l.entries + RefSet(Targets(ds))
      case Writing(l) => l.entries
      case Cleaning(_, ds) => RefSet(Targets(ds))
      case Releasing(_) => {}
  }

  /** What a run has read is still what is stored. */
  ghost predicate InStep(c: Config, name: string)
    requires name in c.threads && name in c.w.sets
  {
    match c.threads[name]
    case Looping(l, _) => l.existing == Inventory(c.w.sets[name])
    case Patching(l, _, _, _) => l.existing == Inventory(c.w.sets[name])
    case Creating(l, _, _) => l.existing == Inventory(c.w.sets[name])
    case Cleaning(_, ds) => RefSet(Targets(ds)) <= Inventory(c.w.sets[name])
    case _ => true
  }

  ghost predicate ClaimedAt(c: Config, id: string)
    requires id in c.w.cluster && c.w.cluster[id].creator.Some?
  {
    var name := c.w.cluster[id].creator.value;
    Managed(c.w, name) && id in Ids(Claims(c, name))
  }

  ghost predicate Safe(c: Config) {
    && (forall id :: id in c.w.cluster && c.w.cluster[id].creator.Some? ==> ClaimedAt(c, id))
    && (forall n :: n in c.threads ==> Managed(c.w, n) && InStep(c, n))
  }

  /** A pruning deletion fails only if every object of the set that the remaining deletions name is listed
      again, and the status write of an applying run only if the stored inventory names all objects. */
  ghost predicate CarefulMove(c: Config, m: Move)
    requires PossibleMove(c, m)
  {
    m.Turn? ==>
      m.name in c.w.sets &&
      var created := Created(m.name, c.w.cluster);
      match c.threads[m.name]
      case Pruning(l, ds) => ds != [] && ds[0].Fails() ==> created * Ids(RefSet(Targets(ds))) <= Ids(l.entries)
      case Writing(_) => m.hint.fails ==> created <= Ids(Inventory(c.w.sets[m.name]))
      case _ => true
  }

  /** A step of `name` that leaves the other sets and runs alone and keeps its own objects claimed is safe. */
  lemma OwnStepIsSafe(c: Config, c': Config, name: string)
    requires Safe(c)
    requires forall n :: n != name ==> (n in c.w.sets <==> n in c'.w.sets) && (n in c.threads <==> n in c'.threads)
    requires forall n :: n != name && n in c.w.sets ==> c'.w.sets[n] == c.w.sets[n]
    requires forall n :: n != name && n in c.threads ==> c'.threads[n] == c.threads[n]
    requires forall id :: id in c'.w.cluster && c'.w.cluster[id].creator != Some(name) ==>
      id in c.w.cluster && c'.w.cluster[id].creator == c.w.cluster[id].creator
    requires forall id :: id in c'.w.cluster && c'.w.cluster[id].creator == Some(name) ==>
      Managed(c'.w, name) && id in Ids(Claims(c', name))
    requires name in c'.threads ==> Managed(c'.w, name) && InStep(c', name)
    ensures Safe(c')
  {
    forall id | id in c'.w.cluster && c'.w.cluster[id].creator.Some? ensures ClaimedAt(c', id) {
      if c'.w.cluster[id].creator != Some(name) { assert ClaimedAt(c, id); }
    }
  }

  lemma BeginIsSafe(c: Config, name: string, s: Script)
    requires Safe(c) && PossibleMove(c, Begin(name, s))
    ensures Safe(BeginRun(c, name, s))
  {
    var c' := BeginRun(c, name, s);
    assert c'.w.cluster == c.w.cluster;
    forall id | id in c.w.cluster && c.w.cluster[id].creator == Some(name)
      ensures Managed(c'.w, name) && id in Ids(Claims(c', name))
    {
      assert ClaimedAt(c, id);
      assert Claims(c', name) == Inventory(c.w.sets[name]);
    }
    OwnStepIsSafe(c, c', name);
  }

  /** The claims of the set's own objects, before the step. */
  lemma OwnObjectsClaimed(c: Config, name: string)
    requires Safe(c)
    ensures Created(name, c.w.cluster) != {} ==> Managed(c.w, name)
    ensures Managed(c.w, name) ==> Created(name, c.w.cluster) <= Ids(Claims(c, name))
  {
    forall id | id in Created(name, c.w.cluster) ensures Managed(c.w, name) && id in Ids(Claims(c, name)) {
      assert ClaimedAt(c, id);
    }
  }

  lemma LoopTurnIsSafe(c: Config, name: string, h: Hint)
    requires Safe(c) && PossibleMove(c, Turn(name, h)) && c.threads[name].Looping?
    ensures Safe(TakeTurn(c, name, h))
  {
    var c' := TakeTurn(c, name, h);
    OwnObjectsClaimed(c, name);
    var before, after := Claims(c, name), Claims(c', name);
    assert c'.w == c.w;
    assert before <= after;
    assert Ids(before) <= Ids(after);
    OwnStepIsSafe(c, c', name);
  }

  lemma PatchTurnIsSafe(c: Config, name: string, h: Hint)
    requires Safe(c) && PossibleMove(c, Turn(name, h)) && c.threads[name].Patching?
    ensures Safe(TakeTurn(c, name, h))
  {
    var c' := TakeTurn(c, name, h);
    OwnObjectsClaimed(c, name);
    assert Claims(c', name) == Claims(c, name);
    OwnStepIsSafe(c, c', name);
  }

  lemma CreateTurnIsSafe(c: Config, name: string, h: Hint)
    requires Safe(c) && PossibleMove(c, Turn(name, h)) && c.threads[name].Creating?
    ensures Safe(TakeTurn(c, name, h))
  {
    var c' := TakeTurn(c, name, h);
    OwnObjectsClaimed(c, name);
    var before, after, ref := Claims(c, name), Claims(c', name), c.threads[name].job.Ref();
    assert before <= after;
    assert Ids(before) <= Ids(after);
    assert ref in after ==> ref.id in Ids(after);
    OwnStepIsSafe(c, c', name);
  }

  /** A turn that changes no object and leaves other sets and runs alone is safe exactly if the set's
      objects are still claimed. */
  lemma SafeIffClaimed(c: Config, c': Config, name: string)
    requires Safe(c) && name in c.threads && name in c'.w.sets && Managed(c'.w, name)
    requires c'.w.cluster == c.w.cluster
    requires forall n :: n != name ==> (n in c.w.sets <==> n in c'.w.sets) && (n in c.threads <==> n in c'.threads)
    requires forall n :: n != name && n in c.w.sets ==> c'.w.sets[n] == c.w.sets[n]
    requires forall n :: n != name && n in c.threads ==> c'.threads[n] == c.threads[n]
    requires name in c'.threads ==> InStep(c', name)
    ensures Safe(c') <==> Created(name, c.w.cluster) <= Ids(Claims(c', name))
  {
    if Created(name, c.w.cluster) <= Ids(Claims(c', name)) {
      forall id | id in c.w.cluster && c.w.cluster[id].creator == Some(name) ensures id in Ids(Claims(c', name)) {
        assert id in Created(name, c.w.cluster);
      }
      OwnStepIsSafe(c, c', name);
    } else {
      var id :| id in Created(name, c.w.cluster) && id !in Ids(Claims(c', name));
      assert !ClaimedAt(c', id);
    }
  }

  lemma PruneTurnIsSafeIff(c: Config, name: string, h: Hint)
    requires Safe(c) && PossibleMove(c, Turn(name, h)) && c.threads[name].Pruning?
    ensures Safe(TakeTurn(c, name, h)) <==> CarefulMove(c, Turn(name, h))
  {
    var c', l, ds := TakeTurn(c, name, h), c.threads[name].l, c.threads[name].deletions;
    OwnObjectsClaimed(c, name);
    assert Managed(c.w, name);
    if ds == [] {
      assert RefSet(Targets(ds)) == {};
      assert Claims(c', name) == Claims(c, name);
      SafeIffClaimed(c, c', name);
    } else if ds[0].Fails() {
      assert Ids(Claims(c, name)) == Ids(l.entries) + Ids(RefSet(Targets(ds)));
      assert Claims(c', name) == l.entries;
      SafeIffClaimed(c, c', name);
    } else {
      TargetsOfRest(ds);
      assert Claims(c, name) == Claims(c', name) + {ds[0].ref};
      assert Ids(Claims(c, name)) == Ids(Claims(c', name)) + {ds[0].ref.id};
      OwnStepIsSafe(c, c', name);
    }
  }

  lemma WriteTurnIsSafeIff(c: Config, name: string, h: Hint)
    requires Safe(c) && PossibleMove(c, Turn(name, h)) && c.threads[name].Writing?
    ensures Safe(TakeTurn(c, name, h)) <==> CarefulMove(c, Turn(name, h))
  {
    var c' := TakeTurn(c, name, h);
    OwnObjectsClaimed(c, name);
    assert Managed(c.w, name);
    SafeIffClaimed(c, c', name);
    assert Claims(c', name) == if h.fails then Inventory(c.w.sets[name]) else Claims(c, name);
  }

  lemma TargetsOfRest(ds: seq<Deletion>)
    requires ds != []
    ensures RefSet(Targets(ds)) == {ds[0].ref} + RefSet(Targets(ds[1..]))
  {
    assert Targets(ds) == [ds[0].ref] + Targets(ds[1..]);
  }

  lemma CleanTurnIsSafe(c: Config, name: string, h: Hint)
    requires Safe(c) && PossibleMove(c, Turn(name, h))
    requires c.threads[name].Cleaning? || c.threads[name].Releasing?
    ensures Safe(TakeTurn(c, name, h))
  {
    var c' := TakeTurn(c, name, h);
    OwnObjectsClaimed(c, name);
    if c.threads[name].Cleaning? {
      var ds := c.threads[name].deletions;
      if ds == [] {
        assert Claims(c, name) == {};
      } else {
        TargetsOfRest(ds);
        assert Ids(RefSet(Targets(ds))) == Ids(RefSet(Targets(ds[1..]))) + {ds[0].ref.id};
        assert RefSet(Targets(ds)) <= Inventory(c.w.sets[name]);
        assert Ids(RefSet(Targets(ds))) <= Ids(Inventory(c.w.sets[name]));
      }
    } else {
      assert Created(name, c.w.cluster) == {};
    }
    forall id | id in c'.w.cluster && c'.w.cluster[id].creator == Some(name)
      ensures Managed(c'.w, name) && id in Ids(Claims(c', name))
    {
      assert id in Created(name, c.w.cluster);
    }
    OwnStepIsSafe(c, c', name);
  }

  lemma OthersAreSafe(c: Config, a: Action)
    requires Safe(c)
    ensures Safe(Step(c, Others(a)))
  {
    var c' := Step(c, Others(a));
    ActionFacts(c.w, a);
    forall n | n in c.threads ensures Managed(c'.w, n) && InStep(c', n) {
      assert Managed(c.w, n) && InStep(c, n);
    }
    forall id | id in c'.w.cluster && c'.w.cluster[id].creator.Some? ensures ClaimedAt(c', id) {
      assert ClaimedAt(c, id);
    }
  }

  /** Every single call, or move of others, keeps all objects claimed exactly if it is careful. */
  lemma StepIsSafeIff(c: Config, m: Move)
    requires Safe(c) && PossibleMove(c, m)
    ensures Safe(Step(c, m)) <==> CarefulMove(c, m)
  {
    match m {
      case Begin(name, s) => BeginIsSafe(c, name, s);
      case Others(a) => OthersAreSafe(c, a);
      case Turn(name, h) =>
        assert Managed(c.w, name);
        match c.threads[name] {
          case Pruning(_, _) => PruneTurnIsSafeIff(c, name, h);
          case Writing(_) => WriteTurnIsSafeIff(c, name, h);
          case Cleaning(_, _) => CleanTurnIsSafe(c, name, h);
          case Releasing(_) => CleanTurnIsSafe(c, name, h);
          case Creating(_, _, _) => CreateTurnIsSafe(c, name, h);
          case Patching(_, _, _, _) => PatchTurnIsSafe(c, name, h);
          case Looping(_, _) => LoopTurnIsSafe(c, name, h);
        }
    }
  }

  ghost predicate PossibleTrace(c: Config, moves: seq<Move>)
    decreases |moves|
  {
    moves == [] || (PossibleMove(c, moves[0]) && PossibleTrace(Step(c, moves[0]), moves[1..]))
  }

  ghost predicate CarefulTrace(c: Config, moves: seq<Move>)
    requires PossibleTrace(c, moves)
    decreases |moves|
  {
    moves == [] || (CarefulMove(c, moves[0]) && CarefulTrace(Step(c, moves[0]), moves[1..]))
  }

  /** At every point all created objects are claimed and, when no run is under way, listed. */
  ghost predicate AlwaysSafe(c: Config, moves: seq<Move>)
    requires PossibleTrace(c, moves)
    decreases |moves|
  {
    && Safe(c) && (c.threads == map[] ==> NoOrphans(c.w))
    && (moves == [] || AlwaysSafe(Step(c, moves[0]), moves[1..]))
  }

  /** No orphans under call-by-call interleaving: at every point each live object created by a set is
      claimed by its run or its inventory, and whenever no run is under way, by its stored inventory,
      if and only if every move is careful when it happens. */
  lemma {:induction false} NoOrphansUnderInterleaving(c: Config, moves: seq<Move>)
    requires Safe(c) && PossibleTrace(c, moves)
    ensures AlwaysSafe(c, moves) <==> CarefulTrace(c, moves)
    decreases |moves|
  {
    IdleMeansNoOrphans(c);
    if moves != [] {
      StepIsSafeIff(c, moves[0]);
      if CarefulMove(c, moves[0]) {
        NoOrphansUnderInterleaving(Step(c, moves[0]), moves[1..]);
      }
    }
  }

  lemma IdleMeansNoOrphans(c: Config)
    requires Safe(c)
    ensures c.threads == map[] ==> NoOrphans(c.w)
  {
    if c.threads == map[] {
      forall id | id in c.w.cluster && c.w.cluster[id].creator.Some? ensures Covered(c.w, id) {
        assert ClaimedAt(c, id);
      }
    }
  }

  // ---------- an undisturbed run is Reconcile ----------

  /** The hint that plays a script's choices. A run's last call is the status write, or, when it
      finalizes, the update that removes the finalizer. */
  function HintOf(s: Script, phase: Phase): Hint {
    Hint(Body(map[], map[], map[], Null), s.deletions, s.listing,
         if phase == Finalizing then s.updateFails else s.statusFails, s.interval.None?)
  }

  /** A bound on the steps a run has left. */
  function Work(t: Thread, s: Script): nat {
    match t
    case Looping(_, todo) => 2 * |todo| + |s.deletions| + 3
    case Patching(_, _, _, todo) => 2 * |todo| + |s.deletions| + 4
    case Creating(_, _, todo) => 2 * |todo| + |s.deletions| + 4
    case Pruning(_, ds) => |ds| + 2
    case Writing(_) => 1
    case Cleaning(_, ds) => |ds| + 2
    case Releasing(_) => 1
  }

  /** Lets one run take turns until it is over. */
  function Drive(c: Config, name: string, s: Script, h: Hint): Config
    requires h.deletions == s.deletions
    decreases if name in c.threads then Work(c.threads[name], s) else 0
  {
    if name !in c.threads then c else Drive(TakeTurn(c, name, h), name, s, h)
  }

  lemma {:induction false} ApplyHeadFirst(ctx: Context, p: Progress, head: Job, rest: seq<Job>)
    ensures ApplyAll(ctx, p, [head] + rest) == ApplyAll(ctx, ApplyOne(ctx, p, head), rest)
    decreases |rest|
  {
    var jobs := [head] + rest;
    if rest == [] {
      assert jobs[..0] == [] && jobs[0] == head;
    } else {
      ApplyHeadFirst(ctx, p, head, rest[..|rest| - 1]);
      assert jobs[..|jobs| - 1] == [head] + rest[..|rest| - 1];
    }
  }

  /** The cluster and the local variables that stand for a loop's progress. */
  function AtProgress(c: Config, name: string, existing: set<Ref>, p: Progress, todo: seq<Job>): Config {
    Go(SetCluster(c, p.cluster), name, Looping(Local(existing, p.entries, p.errors), todo))
  }

  /** The steps of one job, with nobody in between, are one iteration of the apply loop. */
  lemma DriveOneJob(c: Config, name: string, s: Script, h: Hint, existing: set<Ref>, p: Progress, job: Job,
                    todo: seq<Job>)
    requires h.deletions == s.deletions
    ensures Drive(AtProgress(c, name, existing, p, [job] + todo), name, s, h)
         == Drive(AtProgress(c, name, existing, ApplyOne(Context(name, existing), p, job), todo), name, s, h)
  {
    var at := AtProgress(c, name, existing, p, [job] + todo);
    assert ([job] + todo)[0] == job && ([job] + todo)[1..] == todo;
    var next := TakeTurn(at, name, h);
    assert Drive(at, name, s, h) == Drive(next, name, s, h);
    if next.threads[name].Looping? {
      OneStepJob(c, name, h, existing, p, job, todo);
    } else {
      TwoStepJob(c, name, h, existing, p, job, todo);
      assert Drive(next, name, s, h) == Drive(TakeTurn(next, name, h), name, s, h);
    }
  }

  lemma OneStepJob(c: Config, name: string, h: Hint, existing: set<Ref>, p: Progress, job: Job, todo: seq<Job>)
    requires TakeTurn(AtProgress(c, name, existing, p, [job] + todo), name, h).threads[name].Looping?
    ensures TakeTurn(AtProgress(c, name, existing, p, [job] + todo), name, h)
         == AtProgress(c, name, existing, ApplyOne(Context(name, existing), p, job), todo)
  {
    assert ([job] + todo)[0] == job && ([job] + todo)[1..] == todo;
    var q := ApplyOne(Context(name, existing), p, job);
    assert q.cluster == p.cluster;
    var at := AtProgress(c, name, existing, p, [job] + todo);
    assert TakeTurn(at, name, h).threads == AtProgress(c, name, existing, q, todo).threads;
  }

  lemma TwoStepJob(c: Config, name: string, h: Hint, existing: set<Ref>, p: Progress, job: Job, todo: seq<Job>)
    requires !TakeTurn(AtProgress(c, name, existing, p, [job] + todo), name, h).threads[name].Looping?
    ensures TakeTurn(TakeTurn(AtProgress(c, name, existing, p, [job] + todo), name, h), name, h)
         == AtProgress(c, name, existing, ApplyOne(Context(name, existing), p, job), todo)
  {
    assert ([job] + todo)[0] == job && ([job] + todo)[1..] == todo;
    var next := TakeTurn(AtProgress(c, name, existing, p, [job] + todo), name, h);
    var stored := job.Ref() in existing;
    if next.threads[name].Patching? {
      PatchIsAttempt(next, name, existing, p, job, todo, h.body);
    } else {
      CreateIsAttempt(next, name, existing, p, job, todo, stored);
    }
  }

  /** The patch call, on the object as it was read, completes one iteration of the apply loop. */
  lemma PatchIsAttempt(c: Config, name: string, existing: set<Ref>, p: Progress, job: Job, todo: seq<Job>,
                       changed: Body)
    requires c.w.cluster == p.cluster && job.Id() in p.cluster && job.Ref() in existing
    requires !job.verdict.refFails && !job.verdict.parseFails && !job.verdict.getFails
    ensures var l := Local(existing, p.entries, p.errors).Enter(job.Ref());
      PatchCall(c, name, l, job, p.cluster[job.Id()].body, todo, changed)
      == AtProgress(c, name, existing, ApplyOne(Context(name, existing), p, job), todo)
  {
    if !job.verdict.patchFails { assert p.errors + [] == p.errors; }
    assert SetCluster(c, p.cluster) == c;
  }

  /** The create call completes one iteration, whether or not the ref was entered before it. */
  lemma CreateIsAttempt(c: Config, name: string, existing: set<Ref>, p: Progress, job: Job, todo: seq<Job>,
                        stored: bool)
    requires c.w.cluster == p.cluster && stored == (job.Ref() in existing)
    requires !job.verdict.refFails
    requires stored ==> !job.verdict.parseFails && !job.verdict.getFails && job.Id() !in p.cluster
    ensures var l := Local(existing, p.entries, p.errors);
      CreateCall(c, name, if stored then l.Enter(job.Ref()) else l, job, todo)
      == AtProgress(c, name, existing, ApplyOne(Context(name, existing), p, job), todo)
  {
    var ref := job.Ref();
    assert SetCluster(c, p.cluster) == c;
    assert (p.entries + {ref}) + {ref} == p.entries + {ref};
    assert p.errors + [] == p.errors;
    assert (p.errors + [AlreadyExists(ref)]) + [LogFailed(ref)] == p.errors + [AlreadyExists(ref), LogFailed(ref)];
  }

  lemma {:induction false} DriveLoop(c: Config, name: string, s: Script, h: Hint, existing: set<Ref>, p: Progress,
                                     todo: seq<Job>)
    requires h.deletions == s.deletions
    ensures Drive(AtProgress(c, name, existing, p, todo), name, s, h)
         == Drive(AtProgress(c, name, existing, ApplyAll(Context(name, existing), p, todo), []), name, s, h)
    decreases |todo|
  {
    if todo != [] {
      assert todo == [todo[0]] + todo[1..];
      DriveOneJob(c, name, s, h, existing, p, todo[0], todo[1..]);
      DriveLoop(c, name, s, h, existing, ApplyOne(Context(name, existing), p, todo[0]), todo[1..]);
      ApplyHeadFirst(Context(name, existing), p, todo[0], todo[1..]);
    }
  }

  /** The prune steps, with nobody in between, are removeResourceRefs. */
  lemma {:induction false} DrivePrune(c: Config, name: string, s: Script, h: Hint, l: Local, ds: seq<Deletion>)
    requires h.deletions == s.deletions
    ensures var r := RemoveAll(c.w.cluster, ds);
      var end := if r.error.Some? then l.Fail(r.error.value) else l;
      Drive(Go(c, name, Pruning(l, ds)), name, s, h)
      == Drive(Go(SetCluster(c, r.cluster), name, Writing(end)), name, s, h)
    decreases |ds|
  {
    var at := Go(c, name, Pruning(l, ds));
    var next := TakeTurn(at, name, h);
    assert Drive(at, name, s, h) == Drive(next, name, s, h);
    if ds == [] {
      assert next == Go(SetCluster(c, c.w.cluster), name, Writing(l));
    } else if ds[0].Fails() {
      assert next == Go(SetCluster(c, c.w.cluster), name, Writing(l.Fail(ds[0].Error())));
    } else {
      var rest := SetCluster(c, c.w.cluster - {ds[0].ref.id});
      assert next == Go(rest, name, Pruning(l, ds[1..]));
      DrivePrune(rest, name, s, h, l, ds[1..]);
    }
  }

  lemma DriveWrite(c: Config, name: string, s: Script, h: Hint, l: Local)
    requires h == HintOf(s, Applying) && name in c.w.sets && name !in c.threads
    ensures var gs := SetReadiness(c.w.sets[name], Some(s.listing), l.errors == [] && s.interval.Some?);
      Drive(Go(c, name, Writing(l)), name, s, h) == c.(w := WriteStatus(c.w, name, gs, s))
  {
    var at := Go(c, name, Writing(l));
    var done := TakeTurn(at, name, h);
    assert name !in done.threads;
    assert Drive(at, name, s, h) == Drive(done, name, s, h) == done;
    assert done.threads == c.threads;
  }

  lemma DriveToWriting(c: Config, name: string, s: Script, h: Hint)
    requires h == HintOf(s, Applying) && PhaseOf(c.w, name, s) == Applying
    ensures var existing := Inventory(c.w.sets[name]);
      var p := ApplyAll(Context(name, existing), Start(c.w.cluster), s.rendered.value);
      var r := RemoveAll(p.cluster, s.deletions);
      var l := Local(existing, p.entries, if r.error.Some? then p.errors + [r.error.value] else p.errors);
      Drive(BeginRun(c, name, s), name, s, h) == Drive(Go(SetCluster(c, r.cluster), name, Writing(l)), name, s, h)
  {
    var existing := Inventory(c.w.sets[name]);
    var p := ApplyAll(Context(name, existing), Start(c.w.cluster), s.rendered.value);
    assert BeginRun(c, name, s) == AtProgress(c, name, existing, Start(c.w.cluster), s.rendered.value);
    DriveLoop(c, name, s, h, existing, Start(c.w.cluster), s.rendered.value);
    var looped, c1 := AtProgress(c, name, existing, p, []), SetCluster(c, p.cluster);
    var l := Local(existing, p.entries, p.errors);
    var next := TakeTurn(looped, name, h);
    assert next.threads == Go(c1, name, Pruning(l, s.deletions)).threads;
    assert Drive(looped, name, s, h) == Drive(next, name, s, h);
    DrivePrune(c1, name, s, h, l, s.deletions);
  }

  lemma UndisturbedApply(c: Config, name: string, s: Script)
    requires name !in c.threads
    requires PhaseOf(c.w, name, s) == Applying && Possible(c.w, name, s)
    ensures Drive(BeginRun(c, name, s), name, s, HintOf(s, Applying)) == c.(w := Reconcile(c.w, name, s).world)
  {
    var gs := c.w.sets[name];
    var p := ApplyAll(Context(name, Inventory(gs)), Start(c.w.cluster), s.rendered.value);
    var r := RemoveAll(p.cluster, s.deletions);
    DriveToWriting(c, name, s, HintOf(s, Applying));
    if gs.inventory.None? { NoTargetsIffEmpty(s.deletions); }
    DriveWrite(SetCluster(c, r.cluster), name, s, HintOf(s, Applying),
               Local(Inventory(gs), p.entries, if r.error.Some? then p.errors + [r.error.value] else p.errors));
  }

  /** The deletions of a finalizing run, up to the first failure, which ends the run. */
  lemma {:induction false} DriveClean(c: Config, name: string, s: Script, h: Hint, loaded: GitOpsSet, ds: seq<Deletion>)
    requires h.deletions == s.deletions && name !in c.threads
    ensures var r := RemoveAll(c.w.cluster, ds);
      Drive(Go(c, name, Cleaning(loaded, ds)), name, s, h)
      == if r.error.Some? then SetCluster(c, r.cluster)
         else Drive(Go(SetCluster(c, r.cluster), name, Releasing(loaded)), name, s, h)
    decreases |ds|
  {
    var at := Go(c, name, Cleaning(loaded, ds));
    var next := TakeTurn(at, name, h);
    assert Drive(at, name, s, h) == Drive(next, name, s, h);
    if ds == [] {
      assert next == Go(SetCluster(c, c.w.cluster), name, Releasing(loaded));
    } else if ds[0].Fails() {
      assert next.threads == c.threads;
      assert next == SetCluster(c, c.w.cluster);
    } else {
      var rest := SetCluster(c, c.w.cluster - {ds[0].ref.id});
      assert next == Go(rest, name, Cleaning(loaded, ds[1..]));
      DriveClean(rest, name, s, h, loaded, ds[1..]);
    }
  }

  lemma UndisturbedFinalize(c: Config, name: string, s: Script)
    requires name !in c.threads && PhaseOf(c.w, name, s) == Finalizing
    ensures Drive(BeginRun(c, name, s), name, s, HintOf(s, Finalizing)) == c.(w := Reconcile(c.w, name, s).world)
  {
    var gs, h, r := c.w.sets[name], HintOf(s, Finalizing), RemoveAll(c.w.cluster, s.deletions);
    DriveClean(c, name, s, h, gs, s.deletions);
    if r.error.None? {
      var at := Go(SetCluster(c, r.cluster), name, Releasing(gs));
      var done := TakeTurn(at, name, h);
      assert done.threads == c.threads;
      assert Drive(at, name, s, h) == Drive(done, name, s, h) == done;
    }
  }

  /** Refinement: a run that nobody disturbs ends, call by call, in the world that Reconcile gives it,
      and leaves no thread behind. */
  lemma UndisturbedRunIsReconcile(c: Config, name: string, s: Script)
    requires name !in c.threads && Possible(c.w, name, s)
    ensures Drive(BeginRun(c, name, s), name, s, HintOf(s, PhaseOf(c.w, name, s)))
         == c.(w := Reconcile(c.w, name, s).world)
  {
    match PhaseOf(c.w, name, s) {
      case Applying => UndisturbedApply(c, name, s);
      case Finalizing => UndisturbedFinalize(c, name, s);
      case _ =>
    }
  }
}
