/** From a set's spec to its objects: the rendering that the protocol takes as an answer from outside is
    here the renderer's, and the requeue interval is the one the generators report. */
module EndToEnd {
  import opened Wrappers
  import opened Objects
  import opened Apply
  import opened Stream
  import P = Protocol
  import G = Generators
  import R = Render
  import I = Interval
  import C = Controller
  import X = Index
  import LifeCycle

  /** What one render depends on: the set's spec, the store it reads, and library code. */
  datatype Spec = Spec(name: string, namespace: string, annotations: map<string, string>,
                           entries: seq<G.Entry>, templates: seq<R.Template>,
                           store: G.Store, outside: G.Outside, enabled: set<G.Kind>, nestedEnabled: set<G.Kind>,
                           lib: R.Library)
  {
    function Env(): G.Env { G.Env(namespace, store, outside, enabled, nestedEnabled) }
    function Owner(): R.Owner { R.Owner(name, namespace, annotations) }
    function Block(): Step<R.Pair, R.Unstructured, G.GenError> { R.BlockOf(Owner(), lib) }
    function Plans(): seq<Result<seq<R.Pair>, G.GenError>> { R.Plans(entries, templates, Env()) }
    function Rendering(): R.Rendered { R.RenderEntries(entries, templates, 0, Env(), Block()) }
  }

  /** Prints namespace, name, group and kind as an object ID. */
  type Printer = (string, string, string, string) -> string

  function ManifestOf(u: R.Unstructured, printer: Printer): Manifest {
    Manifest(Ref(printer(u.namespace, u.name, u.group, u.kind), u.version),
             Body(u.content, u.labels, u.annotations, u.meta))
  }

  /** The rendered objects as jobs; the API's answers depend on the position in any way. */
  function JobsOf(us: seq<R.Unstructured>, printer: Printer, verdicts: nat -> Verdict): seq<Job> {
    seq(|us|, i requires 0 <= i < |us| => Job(ManifestOf(us[i], printer), verdicts(i)))
  }

  /** Job i is about the i-th rendered object: its printed ID, its version, and all it says. */
  lemma JobsMean(us: seq<R.Unstructured>, printer: Printer, verdicts: nat -> Verdict, i: nat)
    requires i < |us|
    ensures |JobsOf(us, printer, verdicts)| == |us|
    ensures var job, u := JobsOf(us, printer, verdicts)[i], us[i];
      && job.manifest.ref.id == printer(u.namespace, u.name, u.group, u.kind) && job.manifest.ref.version == u.version
      && job.manifest.body.content == u.content && job.manifest.body.meta == u.meta
      && job.manifest.body.labels == u.labels && job.manifest.body.annotations == u.annotations
      && job.verdict == verdicts(i)
  {
    assert JobsOf(us, printer, verdicts)[i] == Job(ManifestOf(us[i], printer), verdicts(i));
  }

  /** Only a missing artifact is told apart from other errors, through any wrapping. */
  function ErrorOf(e: G.GenError): P.RenderError {
    if e.NoArtifact? then P.NoArtifact else P.OtherRenderError
  }

  function RenderedOf(r: R.Rendered, printer: Printer, verdicts: nat -> Verdict): Result<seq<Job>, P.RenderError> {
    match r
    case Ok(us) => Ok(JobsOf(us, printer, verdicts))
    case Err(e) => Err(ErrorOf(e))
  }

  /** What calculateInterval returns, None for its error. */
  ghost function IntervalOf(r: Spec): Option<int> {
    if !I.EntriesEnabled(r.entries, r.enabled) then None
    else Some(I.LeastPositive(I.Leaves(I.Reporting(r.entries, r.nestedEnabled))))
  }

  /** A script whose rendering and interval are those computed from this spec. */
  ghost predicate ComputedFrom(s: P.Script, r: Spec, printer: Printer, verdicts: nat -> Verdict) {
    s.rendered == RenderedOf(r.Rendering(), printer, verdicts) && s.interval == IntervalOf(r)
  }

  /** All generators yield something, and every block of the stream renders. */
  ghost predicate AllRenders(r: Spec) {
    R.AllGenerate(r.entries, r.Env())
    && AllOk(R.Pairs(R.AllElements(r.entries, r.Env()), r.templates), 0, r.Block())
  }

  /** The first generator or block that fails, in rendering order, fails with this error. */
  ghost predicate FirstError(r: Spec, e: G.GenError) {
    FailsFirst(r.Plans(), 0, r.Block(), e)
  }

  /** The render fails if and only if some generator or block does, and then with the first error. */
  lemma RenderFailsFirst(r: Spec)
    ensures r.Rendering().Ok? <==> AllRenders(r)
    ensures forall e :: r.Rendering() == Err(e) <==> FirstError(r, e)
  {
    R.RenderIsFlatStream(r.entries, r.templates, r.Env(), r.Block());
    forall e ensures r.Rendering() == Err(e) <==> FirstError(r, e) {
      PartsFailFirst(r.Plans(), 0, r.Block(), e);
    }
  }

  /** The set is one whose run gets as far as rendering. */
  predicate ReachesRendering(w: P.World, name: string, s: P.Script) {
    P.PhaseOf(w, name, s) == P.NotRendered || P.PhaseOf(w, name, s) == P.Applying
  }

  /** All-or-nothing: if any generator or any block fails, no object is touched, the inventory stays,
      and the run fails unless the first error is a missing artifact. */
  lemma RenderingIsAllOrNothing(w: P.World, name: string, s: P.Script, r: Spec, printer: Printer,
                                verdicts: nat -> Verdict)
    requires ComputedFrom(s, r, printer, verdicts) && ReachesRendering(w, name, s)
    ensures P.PhaseOf(w, name, s) == P.Applying <==> AllRenders(r)
    ensures !AllRenders(r) ==>
      var run := P.Reconcile(w, name, s);
      && run.world.cluster == w.cluster
      && run.world.sets == w.sets[name := run.world.sets[name]]
      && run.world.sets[name].inventory == w.sets[name].inventory
      && (!s.statusFails ==> run.world.sets[name].ready == Some(false))
      && (exists e :: FirstError(r, e))
      && (forall e :: FirstError(r, e) ==> (run.outcome.Failed? <==> !e.NoArtifact?))
  {
    RenderFailsFirst(r);
    if !AllRenders(r) {
      assert FirstError(r, r.Rendering().error);
      LifeCycle.RenderingFailureTouchesNothing(w, name, s);
      assert w.sets == w.sets[name := w.sets[name]];
    }
  }

  lemma RenderedMeansEnabled(r: Spec)
    requires r.Rendering().Ok?
    ensures I.EntriesEnabled(r.entries, r.enabled) && I.MatricesEnabled(r.entries, r.nestedEnabled)
  {
    RenderFailsFirst(r);
    forall e | e in r.entries
      ensures I.EntryEnabled(e, r.enabled)
           && (e.matrix.Some? ==> I.NestedEnabled(e.matrix.value.generators, r.nestedEnabled))
    {
      I.GeneratedMeansEnabled(e, r.Env());
    }
    I.EntriesEnabledMeans(r.entries, r.enabled);
  }

  /** After a successful render calculateInterval returns the least positive interval of the generator tree. */
  lemma IntervalIsLeast(r: Spec)
    requires AllRenders(r)
    ensures IntervalOf(r) == Some(I.LeastPositive(I.Leaves(r.entries)))
    ensures I.IsLeastPositive(I.LeastPositive(I.Leaves(r.entries)), I.Leaves(r.entries))
  {
    RenderFailsFirst(r);
    RenderedMeansEnabled(r);
    I.AllReportIfEnabled(r.entries, r.nestedEnabled);
    I.LeastPositiveMeans(I.Leaves(r.entries));
  }

  /** Once rendering has succeeded the interval's error is unreachable: the run fails exactly if a call
      failed, and otherwise asks to come back after the least positive interval of the generator tree. */
  lemma IntervalNeverFailsTheRun(w: P.World, name: string, s: P.Script, r: Spec, printer: Printer,
                                 verdicts: nat -> Verdict)
    requires ComputedFrom(s, r, printer, verdicts) && P.PhaseOf(w, name, s) == P.Applying
    ensures s.interval.Some? && I.IsLeastPositive(s.interval.value, I.Leaves(r.entries))
    ensures var report := RunPass(name, w.cluster, w.sets[name].inventory, P.ThePass(s));
      P.Reconcile(w, name, s).outcome
      == if report.errors == [] && !s.statusFails then P.Finished(s.interval.value) else P.Failed
  {
    RenderFailsFirst(r);
    IntervalIsLeast(r);
  }

  /** What a successful render returns: one block per (element, template) pair, concatenated in order,
      each with its position in the whole stream as ElementIndex and its copies numbered from 0. */
  lemma RenderedInOrder(r: Spec)
    requires AllRenders(r)
    ensures var pairs := R.Pairs(R.AllElements(r.entries, r.Env()), r.templates);
      var blocks := Blocks(pairs, 0, r.Block());
      && r.Rendering() == Ok(Flat(blocks))
      && |blocks| == |pairs|
      && forall p :: 0 <= p < |pairs| ==>
           R.IsBlock(blocks[p], p, pairs[p].template, pairs[p].params, r.Owner(), r.lib)
  {
    R.RenderIsFlatStream(r.entries, r.templates, r.Env(), r.Block());
    var pairs := R.Pairs(R.AllElements(r.entries, r.Env()), r.templates);
    forall p | 0 <= p < |pairs|
      ensures R.IsBlock(Blocks(pairs, 0, r.Block())[p], p, pairs[p].template, pairs[p].params, r.Owner(), r.lib)
    {
      assert At(pairs, p, 0, r.Block()).Ok?;
      R.BlockIsBlock(p, pairs[p].template, pairs[p].params, r.Owner(), r.lib);
    }
  }

  /** The set as the watch index sees it. */
  function Indexed(r: Spec): X.StoredSet {
    X.StoredSet(r.name, r.namespace, r.entries)
  }

  /** Changes that enqueue nothing for the set cannot change any run of it: with the changed store the
      very same scripts are possible answers to it. */
  lemma UnqueuedChangesChangeNoRun(r: Spec, after: G.Store, s: P.Script, printer: Printer, verdicts: nat -> Verdict)
    requires forall e :: e in r.entries ==> X.OnlyIndexed(e)
    requires r.nestedEnabled <= r.enabled
    requires forall source, key :: !X.AgreeOn(source, key, r.store, after) ==>
      !X.Enqueues(source, key, Indexed(r), r.enabled)
    ensures ComputedFrom(s, r, printer, verdicts) <==> ComputedFrom(s, r.(store := after), printer, verdicts)
  {
    X.UnqueuedChangesAreInvisible(Indexed(r), r.templates, r.store, after, r.outside, r.enabled, r.nestedEnabled,
                                  r.Block());
  }

  /** The calls' fates in one run; rendering and interval are computed. */
  datatype Fates = Fates(getFails: bool, updateFails: bool, clientFails: bool, verdicts: nat -> Verdict,
                         deletionFaults: nat -> C.DeletionFault, statusFails: bool)

  /** One whole run with nothing but the calls' fates from outside: Render, calculateInterval and Reconcile. */
  method RunOnce(controller: C.Reconciler, name: string, r: Spec, printer: Printer, f: Fates)
    returns (outcome: P.Outcome, ghost s: P.Script)
    modifies controller.api
    ensures ComputedFrom(s, r, printer, f.verdicts)
    ensures P.Possible(old(controller.api.Now()), name, s)
    ensures P.Run(controller.api.Now(), outcome) == P.Reconcile(old(controller.api.Now()), name, s)
  {
    var rendered := R.Render(r.entries, r.templates, r.Env(), r.Owner(), r.lib);
    var interval := I.CalculateInterval(r.entries, r.enabled, r.nestedEnabled);
    I.EntriesEnabledMeans(r.entries, r.enabled);
    var answers := C.Answers(f.getFails, f.updateFails, f.clientFails, RenderedOf(rendered, printer, f.verdicts),
                             f.deletionFaults, if interval.Ok? then Some(interval.value) else None, f.statusFails);
    outcome, s := controller.Reconcile(name, answers);
  }
}
