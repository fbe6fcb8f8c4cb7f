/** The API server's state, one Reconcile run as a function of the API's answers, and the moves of everyone else. */
module Protocol {
  import opened Wrappers
  import opened Objects
  import opened Apply
  import opened Convergence

  const FINALIZER := "finalizers.sets.gitops.pro"

  /** The stored GitOpsSet, as far as the protocol reads and writes it. */
  datatype GitOpsSet = GitOpsSet(finalizers: set<string>, suspended: bool, deleting: bool,
                                 inventory: Option<seq<Ref>>, ready: Option<bool>)

  datatype World = World(cluster: Cluster, sets: map<string, GitOpsSet>)

  datatype RenderError = NoArtifact | OtherRenderError

  /** Everything one run learns from outside: which calls fail, what rendering yields (any list, so
      generators and templates may change between runs), and the choices of Pass. */
  datatype Script = Script(getFails: bool, updateFails: bool, clientFails: bool,
                           rendered: Result<seq<Job>, RenderError>,
                           deletions: seq<Deletion>, listing: seq<Ref>,
                           interval: Option<int>, statusFails: bool)

  datatype Outcome = Finished(requeueAfter: int) | RequeueNow | Failed

  datatype Run = Run(world: World, outcome: Outcome)

  datatype Phase = Unreadable | Absent | Adopting | Suspended | NoClient | Finalizing | NotRendered | Applying

  function PhaseOf(w: World, name: string, s: Script): Phase {
    if s.getFails then Unreadable
    else if name !in w.sets then Absent
    else if FINALIZER !in w.sets[name].finalizers then Adopting
    else if w.sets[name].suspended then Suspended
    else if s.clientFails then NoClient
    else if w.sets[name].deleting then Finalizing
    else if s.rendered.Err? then NotRendered
    else Applying
  }

  function Entries(gs: GitOpsSet): seq<Ref> {
    if gs.inventory.Some? then gs.inventory.value else []
  }

  function Inventory(gs: GitOpsSet): set<Ref> {
    Existing(gs.inventory)
  }

  /** SetGitOpsSetReadiness: a nil inventory keeps the stored one, an empty one clears it. */
  function SetReadiness(gs: GitOpsSet, inventory: Option<seq<Ref>>, ready: bool): GitOpsSet {
    gs.(inventory := if inventory.Some? then Kept(inventory.value) else gs.inventory, ready := Some(ready))
  }

  function ThePass(s: Script): Pass
    requires s.rendered.Ok?
  {
    Pass(s.rendered.value, s.deletions, s.listing)
  }

  /** The script's orders of deletion and listing are possible in this world. */
  ghost predicate Possible(w: World, name: string, s: Script) {
    match PhaseOf(w, name, s)
    case Finalizing => Targets(s.deletions) == Entries(w.sets[name])
    case Applying => Fits(name, w.cluster, w.sets[name].inventory, ThePass(s))
    case _ => true
  }

  function WriteStatus(w: World, name: string, gs: GitOpsSet, s: Script): World {
    if s.statusFails then w else w.(sets := w.sets[name := gs])
  }

  /** An object under deletion leaves the API server with its last finalizer. */
  function PutSet(sets: map<string, GitOpsSet>, name: string, gs: GitOpsSet): map<string, GitOpsSet> {
    if gs.deleting && gs.finalizers == {} then sets - {name} else sets[name := gs]
  }

  function Adopt(w: World, name: string, s: Script): Run
    requires name in w.sets
  {
    var gs := w.sets[name];
    // the API server refuses new finalizers on an object that is being deleted
    if s.updateFails || gs.deleting then Run(w, Failed)
    else Run(w.(sets := w.sets[name := gs.(finalizers := gs.finalizers + {FINALIZER})]), RequeueNow)
  }

  function Finalize(w: World, name: string, s: Script): Run
    requires name in w.sets
  {
    var gs := w.sets[name];
    var r := RemoveAll(w.cluster, s.deletions);
    if r.error.Some? || s.updateFails then Run(w.(cluster := r.cluster), Failed)
    else Run(World(r.cluster, PutSet(w.sets, name, gs.(finalizers := gs.finalizers - {FINALIZER}))), Finished(0))
  }

  function FailRendering(w: World, name: string, s: Script): Run
    requires name in w.sets && s.rendered.Err?
  {
    Run(WriteStatus(w, name, SetReadiness(w.sets[name], None, false), s),
        if s.rendered.error == NoArtifact then Finished(0) else Failed)
  }

  function ApplyRendered(w: World, name: string, s: Script): Run
    requires name in w.sets && s.rendered.Ok?
  {
    var gs := w.sets[name];
    var report := RunPass(name, w.cluster, gs.inventory, ThePass(s));
    var ok := report.errors == [] && s.interval.Some?;
    Run(WriteStatus(w.(cluster := report.cluster), name, SetReadiness(gs, Some(report.listing), ok), s),
        if ok && !s.statusFails then Finished(s.interval.value) else Failed)
  }

  function Reconcile(w: World, name: string, s: Script): Run {
    match PhaseOf(w, name, s)
    case Unreadable => Run(w, Failed)
    case Absent => Run(w, Finished(0))
    case Adopting => Adopt(w, name, s)
    case Suspended => Run(w, Finished(0))
    case NoClient => Run(w, Failed)
    case Finalizing => Finalize(w, name, s)
    case NotRendered => FailRendering(w, name, s)
    case Applying => ApplyRendered(w, name, s)
  }

  // ---------- everyone else ----------

  /** Moves of users and other controllers. They may do anything to objects; on a GitOpsSet they
      leave the status and this controller's finalizer alone. */
  datatype Action =
    | CreateObject(id: string, body: Body)
    | EditObject(id: string, body: Body)
    | DeleteObject(id: string)
    | AddSet(name: string)
    | SetSuspended(name: string, suspended: bool)
    | RequestDeletion(name: string)
    | AddFinalizer(name: string, finalizer: string)
    | RemoveFinalizer(name: string, finalizer: string)

  function Act(w: World, a: Action): World {
    match a
    case CreateObject(id, body) =>
      if id in w.cluster then w else w.(cluster := w.cluster[id := Live(body, None)])
    case EditObject(id, body) =>
      if id in w.cluster then w.(cluster := w.cluster[id := w.cluster[id].(body := body)]) else w
    case DeleteObject(id) => w.(cluster := w.cluster - {id})
    case AddSet(n) => if n in w.sets then w else w.(sets := w.sets[n := GitOpsSet({}, false, false, None, None)])
    case SetSuspended(n, b) => if n in w.sets then w.(sets := w.sets[n := w.sets[n].(suspended := b)]) else w
    case RequestDeletion(n) =>
      if n in w.sets then w.(sets := PutSet(w.sets, n, w.sets[n].(deleting := true))) else w
    case AddFinalizer(n, f) =>
      if n !in w.sets || f == FINALIZER || w.sets[n].deleting then w
      else w.(sets := w.sets[n := w.sets[n].(finalizers := w.sets[n].finalizers + {f})])
    case RemoveFinalizer(n, f) =>
      if n !in w.sets || f == FINALIZER then w
      else w.(sets := PutSet(w.sets, n, w.sets[n].(finalizers := w.sets[n].finalizers - {f})))
  }

  datatype Event = Reconciled(name: string, script: Script) | Acted(action: Action)

  function Step(w: World, e: Event): World {
    match e
    case Reconciled(name, s) => Reconcile(w, name, s).world
    case Acted(a) => Act(w, a)
  }

  ghost predicate PossibleEvent(w: World, e: Event) {
    e.Reconciled? ==> Possible(w, e.name, e.script)
  }

  /** The world after a history of whole runs, of any sets, and moves of others. */
  function Play(w: World, events: seq<Event>): World
    decreases |events|
  {
    if events == [] then w else Play(Step(w, events[0]), events[1..])
  }
}
