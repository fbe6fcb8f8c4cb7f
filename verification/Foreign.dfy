/** Foreign objects under call-by-call interleaving: no run of any set touches an object that no set lists. */
module Foreign {
  import opened Objects
  import opened Apply
  import opened Protocol
  import opened Interleaving

  /** The IDs that a run may still patch, delete or list on the strength of what it has read. */
  function Reach(t: Thread): set<string> {
    match t
    case Looping(l, _) => Ids(l.existing) + Ids(l.entries)
    case Patching(l, job, _, _) => Ids(l.existing) + Ids(l.entries) + {job.Id()}
    case Creating(l, _, _) => Ids(l.existing) + Ids(l.entries)
    case Pruning(l, ds) => Ids(l.entries) + Ids(RefSet(Targets(ds)))
    case Writing(l) => Ids(l.entries)
    case Cleaning(loaded, ds) => Ids(Inventory(loaded)) + Ids(RefSet(Targets(ds)))
    case Releasing(loaded) => Ids(Inventory(loaded))
  }

  /** A live object that no stored inventory lists and no run under way can reach. */
  ghost predicate IsForeign(c: Config, id: string) {
    && id in c.w.cluster
    && (forall n :: n in c.w.sets ==> id !in Ids(Inventory(c.w.sets[n])))
    && (forall n :: n in c.threads ==> id !in Reach(c.threads[n]))
  }

  /** The object is as it was, and foreign still. */
  ghost predicate LeftAlone(c: Config, c': Config, id: string)
    requires id in c.w.cluster
  {
    IsForeign(c', id) && c'.w.cluster[id] == c.w.cluster[id]
  }

  /** Others may do anything but edit or delete this object. */
  predicate Spares(m: Move, id: string) {
    m.Others? ==> m.action != DeleteObject(id) && !(m.action.EditObject? && m.action.id == id)
  }

  lemma BeginLeavesAlone(c: Config, name: string, s: Script, id: string)
    requires IsForeign(c, id) && PossibleMove(c, Begin(name, s))
    ensures LeftAlone(c, BeginRun(c, name, s), id)
  {
    if PhaseOf(c.w, name, s) == Finalizing {
      assert RefSet(Entries(c.w.sets[name])) == Inventory(c.w.sets[name]);
    }
  }

  lemma LoopTurnLeavesAlone(c: Config, name: string, h: Hint, id: string)
    requires IsForeign(c, id) && PossibleMove(c, Turn(name, h)) && c.threads[name].Looping?
    ensures LeftAlone(c, TakeTurn(c, name, h), id)
  {
    assert id !in Reach(c.threads[name]);
    assert TakeTurn(c, name, h).w == c.w;
  }

  lemma PatchTurnLeavesAlone(c: Config, name: string, h: Hint, id: string)
    requires IsForeign(c, id) && PossibleMove(c, Turn(name, h)) && c.threads[name].Patching?
    ensures LeftAlone(c, TakeTurn(c, name, h), id)
  {
    assert id !in Reach(c.threads[name]);
  }

  lemma CreateTurnLeavesAlone(c: Config, name: string, h: Hint, id: string)
    requires IsForeign(c, id) && PossibleMove(c, Turn(name, h)) && c.threads[name].Creating?
    ensures LeftAlone(c, TakeTurn(c, name, h), id)
  {
    assert id !in Reach(c.threads[name]);
  }

  lemma PruneTurnLeavesAlone(c: Config, name: string, h: Hint, id: string)
    requires IsForeign(c, id) && PossibleMove(c, Turn(name, h))
    requires c.threads[name].Pruning? || c.threads[name].Cleaning?
    ensures LeftAlone(c, TakeTurn(c, name, h), id)
  {
    assert id !in Reach(c.threads[name]);
    var ds := c.threads[name].deletions;
    if ds != [] {
      TargetsOfRest(ds);
      assert ds[0].ref in RefSet(Targets(ds));
      assert Ids(RefSet(Targets(ds[1..]))) <= Ids(RefSet(Targets(ds)));
    }
  }

  lemma StatusTurnLeavesAlone(c: Config, name: string, h: Hint, id: string)
    requires IsForeign(c, id) && PossibleMove(c, Turn(name, h))
    requires c.threads[name].Writing? || c.threads[name].Releasing?
    ensures LeftAlone(c, TakeTurn(c, name, h), id)
  {
    assert id !in Reach(c.threads[name]);
  }

  lemma OthersLeaveAlone(c: Config, a: Action, id: string)
    requires IsForeign(c, id) && Spares(Others(a), id)
    ensures LeftAlone(c, Interleaving.Step(c, Others(a)), id)
  {
  }

  lemma StepLeavesAlone(c: Config, m: Move, id: string)
    requires IsForeign(c, id) && PossibleMove(c, m) && Spares(m, id)
    ensures LeftAlone(c, Interleaving.Step(c, m), id)
  {
    match m {
      case Begin(name, s) => BeginLeavesAlone(c, name, s, id);
      case Others(a) => OthersLeaveAlone(c, a, id);
      case Turn(name, h) =>
        match c.threads[name] {
          case Pruning(_, _) => PruneTurnLeavesAlone(c, name, h, id);
          case Cleaning(_, _) => PruneTurnLeavesAlone(c, name, h, id);
          case Writing(_) => StatusTurnLeavesAlone(c, name, h, id);
          case Releasing(_) => StatusTurnLeavesAlone(c, name, h, id);
          case Looping(_, _) => LoopTurnLeavesAlone(c, name, h, id);
          case Patching(_, _, _, _) => PatchTurnLeavesAlone(c, name, h, id);
          case Creating(_, _, _) => CreateTurnLeavesAlone(c, name, h, id);
        }
    }
  }

  ghost predicate SparingTrace(c: Config, moves: seq<Move>, id: string)
    decreases |moves|
  {
    moves == [] ||
    (PossibleMove(c, moves[0]) && Spares(moves[0], id) && SparingTrace(Interleaving.Step(c, moves[0]), moves[1..], id))
  }

  function After(c: Config, moves: seq<Move>, id: string): Config
    requires SparingTrace(c, moves, id)
    decreases |moves|
  {
    if moves == [] then c else After(Interleaving.Step(c, moves[0]), moves[1..], id)
  }

  /** For every interleaving of single API calls of any number of runs, and every pattern of failures,
      an object that no set lists stays on the cluster unchanged and unlisted, even if templates
      render its ID, as long as nobody else edits or deletes it. */
  lemma {:induction false} ForeignStaysUntouched(c: Config, moves: seq<Move>, id: string)
    requires IsForeign(c, id) && SparingTrace(c, moves, id)
    ensures LeftAlone(c, After(c, moves, id), id)
    decreases |moves|
  {
    if moves != [] {
      StepLeavesAlone(c, moves[0], id);
      ForeignStaysUntouched(Interleaving.Step(c, moves[0]), moves[1..], id);
    }
  }
}
