/** Convergence of whole Reconcile runs: a set in charge, with a fixed rendering and no failing calls,
    reports its interval from the second or third run on, and soon leaves the world alone for good. */
module Steady {
  import opened Wrappers
  import opened Objects
  import opened Listing
  import opened Apply
  import opened ApplyProofs
  import opened Exactness
  import opened Convergence
  import opened Manifests
  import opened Protocol
  import opened NoOrphansProofs
  import opened Runs
  import E = EndToEnd
  import I = Interval
  import R = Render

  /** The set's runs get as far as rendering. */
  predicate InCharge(w: World, name: string) {
    Managed(w, name) && !w.sets[name].suspended && !w.sets[name].deleting
  }

  /** The calls of a run that do not concern one rendered object succeed. */
  ghost predicate CallsSucceed(w: World, name: string, s: Script) {
    && Possible(w, name, s)
    && !s.getFails && !s.updateFails && !s.clientFails && !s.statusFails && AllSucceed(s.deletions)
  }

  /** A run in which rendering yields these jobs and no call fails. */
  ghost predicate FaultFree(w: World, name: string, s: Script, jobs: seq<Job>, interval: int) {
    && CallsSucceed(w, name, s)
    && s.rendered == Ok(jobs) && NoFaults(jobs) && s.interval == Some(interval)
  }

  /** The world in which run number `i` starts. */
  function WorldBefore(w: World, name: string, scripts: seq<Script>, i: nat): World
    requires i <= |scripts|
  {
    if i == 0 then w else Reconcile(WorldBefore(w, name, scripts, i - 1), name, scripts[i - 1]).world
  }

  ghost predicate IsFaultFree(w: World, name: string, scripts: seq<Script>, jobs: seq<Job>, interval: int, i: nat)
    requires i < |scripts|
  {
    FaultFree(WorldBefore(w, name, scripts, i), name, scripts[i], jobs, interval)
  }

  ghost predicate FaultFreeRuns(w: World, name: string, scripts: seq<Script>, jobs: seq<Job>, interval: int) {
    forall i {:trigger IsFaultFree(w, name, scripts, jobs, interval, i)} :: 0 <= i < |scripts| ==>
      IsFaultFree(w, name, scripts, jobs, interval, i)
  }

  function SituationOf(w: World, name: string): Situation
    requires name in w.sets
  {
    Situation(w.cluster, w.sets[name].inventory)
  }

  function PassOf(s: Script, jobs: seq<Job>): Pass {
    Pass(jobs, s.deletions, s.listing)
  }

  function PassesOf(scripts: seq<Script>, jobs: seq<Job>): seq<Pass> {
    seq(|scripts|, i requires 0 <= i < |scripts| => PassOf(scripts[i], jobs))
  }

  /** The set after a run that reports this. */
  function Reported(gs: GitOpsSet, report: Report): GitOpsSet {
    gs.(inventory := Kept(report.listing), ready := Some(report.errors == []))
  }

  /** One fault-free run of a set in charge is one clean pass. */
  lemma FaultFreeRun(w: World, name: string, s: Script, jobs: seq<Job>, interval: int)
    requires InCharge(w, name) && FaultFree(w, name, s, jobs, interval)
    ensures CleanRun(name, SituationOf(w, name), jobs, PassOf(s, jobs))
    ensures var report := ReportOf(name, SituationOf(w, name), PassOf(s, jobs));
      Reconcile(w, name, s)
      == Run(World(report.cluster, w.sets[name := Reported(w.sets[name], report)]),
             if report.errors == [] then Finished(interval) else Failed)
  {
    assert ThePass(s) == PassOf(s, jobs);
  }

  /** The report of run i. */
  function RunReport(w: World, name: string, scripts: seq<Script>, jobs: seq<Job>, i: nat): Report
    requires name in w.sets && i < |scripts|
  {
    var passes := PassesOf(scripts, jobs);
    ReportOf(name, Before(name, SituationOf(w, name), passes, i), passes[i])
  }

  /** The world before run i, in terms of the passes. */
  function Expected(w: World, name: string, scripts: seq<Script>, jobs: seq<Job>, i: nat): World
    requires name in w.sets && i <= |scripts|
  {
    if i == 0 then w
    else
      World(Before(name, SituationOf(w, name), PassesOf(scripts, jobs), i).cluster,
            w.sets[name := Reported(w.sets[name], RunReport(w, name, scripts, jobs, i - 1))])
  }

  lemma ExpectedInCharge(w: World, name: string, scripts: seq<Script>, jobs: seq<Job>, i: nat)
    requires InCharge(w, name) && i <= |scripts|
    ensures var now := Expected(w, name, scripts, jobs, i);
      && InCharge(now, name)
      && SituationOf(now, name) == Before(name, SituationOf(w, name), PassesOf(scripts, jobs), i)
  {
  }

  /** One run leads from one expected world to the next. */
  lemma OneRun(w: World, name: string, scripts: seq<Script>, jobs: seq<Job>, interval: int, i: nat)
    requires InCharge(w, name) && i < |scripts|
    requires FaultFree(Expected(w, name, scripts, jobs, i), name, scripts[i], jobs, interval)
    ensures IsRun(name, SituationOf(w, name), jobs, PassesOf(scripts, jobs), i)
    ensures Reconcile(Expected(w, name, scripts, jobs, i), name, scripts[i])
         == Run(Expected(w, name, scripts, jobs, i + 1),
                if RunReport(w, name, scripts, jobs, i).errors == [] then Finished(interval) else Failed)
  {
    ExpectedInCharge(w, name, scripts, jobs, i);
    FaultFreeRun(Expected(w, name, scripts, jobs, i), name, scripts[i], jobs, interval);
    assert PassesOf(scripts, jobs)[i] == PassOf(scripts[i], jobs);
  }

  lemma {:induction false} WorldsAreExpected(w: World, name: string, scripts: seq<Script>, jobs: seq<Job>,
                                             interval: int, i: nat)
    requires InCharge(w, name) && FaultFreeRuns(w, name, scripts, jobs, interval) && i <= |scripts|
    ensures WorldBefore(w, name, scripts, i) == Expected(w, name, scripts, jobs, i)
  {
    if i > 0 {
      WorldsAreExpected(w, name, scripts, jobs, interval, i - 1);
      assert IsFaultFree(w, name, scripts, jobs, interval, i - 1);
      OneRun(w, name, scripts, jobs, interval, i - 1);
    }
  }

  lemma PassesAreClean(w: World, name: string, scripts: seq<Script>, jobs: seq<Job>, interval: int)
    requires InCharge(w, name) && FaultFreeRuns(w, name, scripts, jobs, interval)
    ensures CleanRuns(name, SituationOf(w, name), jobs, PassesOf(scripts, jobs))
  {
    forall i | 0 <= i < |scripts| ensures IsRun(name, SituationOf(w, name), jobs, PassesOf(scripts, jobs), i) {
      WorldsAreExpected(w, name, scripts, jobs, interval, i);
      assert IsFaultFree(w, name, scripts, jobs, interval, i);
      OneRun(w, name, scripts, jobs, interval, i);
    }
  }

  /** Nothing that another party holds, and no stale ID rendered twice before the third run. */
  ghost predicate Unblocked(s: Situation, jobs: seq<Job>, i: nat) {
    NoForeignTaken(s, jobs) && (i == 1 ==> StaleOnce(s, jobs))
  }

  /** The set is ready and lists exactly the rendered refs, and every object is as rendered. */
  ghost predicate AllIsWell(w: World, name: string, jobs: seq<Job>) {
    && name in w.sets && w.sets[name].ready == Some(true)
    && w.sets[name].inventory == Kept(Entries(w.sets[name])) && SortedListing(Entries(w.sets[name]), JobRefs(jobs))
    && AsRendered(w.cluster, jobs) && MatchesManifests(w.cluster, jobs)
  }

  /** Run i of a set that started in this situation: it finishes with the interval exactly if it is
      unblocked, and leaves all well; and from the first idle run on it leaves the world as it is. */
  ghost predicate Converges(start: Situation, name: string, now: World, run: Run, jobs: seq<Job>, interval: int,
                            i: nat)
  {
    && run.outcome == (if Unblocked(start, jobs, i) then Finished(interval) else Failed)
    && (Unblocked(start, jobs, i) ==> AllIsWell(run.world, name, jobs))
    && (NoForeignTaken(start, jobs) && i >= FirstIdle(start, jobs) ==> run.world == now)
  }

  /** Convergence of runs. Every fault-free run after the first finishes with the interval exactly if it
      is unblocked, and leaves all well; and from the first idle run on the world, status included,
      never changes again. */
  lemma RunsConverge(w: World, name: string, scripts: seq<Script>, jobs: seq<Job>, interval: int, i: nat)
    requires InCharge(w, name) && FaultFreeRuns(w, name, scripts, jobs, interval)
    requires OneVersionPerId(JobRefs(jobs)) && 1 <= i < |scripts|
    ensures var now := WorldBefore(w, name, scripts, i);
      Converges(SituationOf(w, name), name, now, Reconcile(now, name, scripts[i]), jobs, interval, i)
  {
    var start, passes := SituationOf(w, name), PassesOf(scripts, jobs);
    WorldsAreExpected(w, name, scripts, jobs, interval, i);
    assert IsFaultFree(w, name, scripts, jobs, interval, i);
    OneRun(w, name, scripts, jobs, interval, i);
    PassesAreClean(w, name, scripts, jobs, interval);
    TwoRunConvergence(name, start, jobs, passes, i);
    if NoForeignTaken(start, jobs) && i >= FirstIdle(start, jobs) {
      IdleWorld(w, name, scripts, jobs, i);
    }
  }

  lemma NextSituation(w: World, name: string, scripts: seq<Script>, jobs: seq<Job>, i: nat)
    requires name in w.sets && i < |scripts|
    ensures var report := RunReport(w, name, scripts, jobs, i);
      Before(name, SituationOf(w, name), PassesOf(scripts, jobs), i + 1)
      == Situation(report.cluster, Kept(report.listing))
  {
  }

  lemma IdleWorld(w: World, name: string, scripts: seq<Script>, jobs: seq<Job>, i: nat)
    requires name in w.sets && OneVersionPerId(JobRefs(jobs)) && i < |scripts|
    requires CleanRuns(name, SituationOf(w, name), jobs, PassesOf(scripts, jobs))
    requires NoForeignTaken(SituationOf(w, name), jobs) && i >= FirstIdle(SituationOf(w, name), jobs)
    ensures Expected(w, name, scripts, jobs, i + 1) == Expected(w, name, scripts, jobs, i)
  {
    IdleReports(w, name, scripts, jobs, i);
    NextSituation(w, name, scripts, jobs, i - 1);
    NextSituation(w, name, scripts, jobs, i);
  }

  lemma IdleReports(w: World, name: string, scripts: seq<Script>, jobs: seq<Job>, i: nat)
    requires name in w.sets && OneVersionPerId(JobRefs(jobs)) && i < |scripts|
    requires CleanRuns(name, SituationOf(w, name), jobs, PassesOf(scripts, jobs))
    requires NoForeignTaken(SituationOf(w, name), jobs) && i >= FirstIdle(SituationOf(w, name), jobs)
    ensures RunReport(w, name, scripts, jobs, i - 1).errors == [] == RunReport(w, name, scripts, jobs, i).errors
    ensures var start, passes := SituationOf(w, name), PassesOf(scripts, jobs);
      Before(name, start, passes, i + 1) == Before(name, start, passes, i)
  {
    var start, passes := SituationOf(w, name), PassesOf(scripts, jobs);
    TwoRunConvergence(name, start, jobs, passes, i - 1);
    TwoRunConvergence(name, start, jobs, passes, i);
  }

  // ---------- from a set that is new to the controller ----------

  lemma {:induction false} WorldAfterFirst(w: World, name: string, scripts: seq<Script>, i: nat)
    requires 1 <= i <= |scripts|
    ensures WorldBefore(w, name, scripts, i)
         == WorldBefore(Reconcile(w, name, scripts[0]).world, name, scripts[1..], i - 1)
  {
    if i > 1 {
      WorldAfterFirst(w, name, scripts, i - 1);
      assert scripts[i - 1] == scripts[1..][i - 2];
    }
  }

  lemma AdoptedIsInCharge(w: World, name: string, s: Script)
    requires !s.getFails && name in w.sets && "finalizers.sets.gitops.pro" !in w.sets[name].finalizers
    requires !w.sets[name].suspended && !w.sets[name].deleting && !s.updateFails
    ensures var run := Reconcile(w, name, s);
      run.outcome == RequeueNow && InCharge(run.world, name) && SituationOf(run.world, name) == SituationOf(w, name)
  {
    Adoption(w, name, s);
  }

  /** A set without the finalizer converges one run later: the first run adopts it and asks to be called
      again, and from then on all is as for a set in charge that starts in the same situation. */
  lemma NewSetConverges(w: World, name: string, scripts: seq<Script>, jobs: seq<Job>, interval: int, i: nat)
    requires name in w.sets && "finalizers.sets.gitops.pro" !in w.sets[name].finalizers
    requires !w.sets[name].suspended && !w.sets[name].deleting
    requires 2 <= i < |scripts| && !scripts[0].getFails && !scripts[0].updateFails
    requires FaultFreeRuns(Reconcile(w, name, scripts[0]).world, name, scripts[1..], jobs, interval)
    requires OneVersionPerId(JobRefs(jobs))
    ensures Reconcile(w, name, scripts[0]).outcome == RequeueNow
    ensures var now := WorldBefore(w, name, scripts, i);
      Converges(SituationOf(w, name), name, now, Reconcile(now, name, scripts[i]), jobs, interval, i - 1)
  {
    AdoptedIsInCharge(w, name, scripts[0]);
    var adopted, now := Reconcile(w, name, scripts[0]).world, WorldBefore(w, name, scripts, i);
    WorldAfterFirst(w, name, scripts, i);
    var rest, s := scripts[1..], scripts[i];
    assert s == rest[i - 1];
    ConvergesFrom(adopted, name, rest, s, now, SituationOf(w, name), jobs, interval, i - 1);
  }

  lemma ConvergesFrom(start: World, name: string, scripts: seq<Script>, s: Script, now: World, situation: Situation,
                      jobs: seq<Job>, interval: int, i: nat)
    requires InCharge(start, name) && 1 <= i < |scripts|
    requires s == scripts[i] && now == WorldBefore(start, name, scripts, i) && situation == SituationOf(start, name)
    requires FaultFreeRuns(start, name, scripts, jobs, interval) && OneVersionPerId(JobRefs(jobs))
    ensures Converges(situation, name, now, Reconcile(now, name, s), jobs, interval, i)
  {
    RunsConverge(start, name, scripts, jobs, interval, i);
  }

  // ---------- from the spec ----------

  function NoFault(i: nat): Verdict { NO_FAULT }

  /** Run i is one of a set with this spec, and no call fails in it. */
  ghost predicate IsRunOfSpec(w: World, name: string, scripts: seq<Script>, r: E.Spec, printer: E.Printer, i: nat)
    requires i < |scripts|
  {
    CallsSucceed(WorldBefore(w, name, scripts, i), name, scripts[i]) && E.ComputedFrom(scripts[i], r, printer, NoFault)
  }

  ghost predicate RunsOfSpec(w: World, name: string, scripts: seq<Script>, r: E.Spec, printer: E.Printer) {
    forall i {:trigger IsRunOfSpec(w, name, scripts, r, printer, i)} :: 0 <= i < |scripts| ==>
      IsRunOfSpec(w, name, scripts, r, printer, i)
  }

  /** The rendered list. */
  function RenderedJobs(r: E.Spec, printer: E.Printer): seq<Job> {
    if r.Rendering().Ok? then E.JobsOf(r.Rendering().value, printer, NoFault) else []
  }

  function LeastInterval(r: E.Spec): int { I.LeastPositive(I.Leaves(r.entries)) }

  lemma JobsWithoutFault(us: seq<R.Unstructured>, printer: E.Printer)
    ensures NoFaults(E.JobsOf(us, printer, NoFault))
  {
    var jobs := E.JobsOf(us, printer, NoFault);
    forall j | j in jobs ensures j.verdict == NO_FAULT {
      var i :| 0 <= i < |jobs| && jobs[i] == j;
      assert j.verdict == NoFault(i);
    }
  }

  lemma ScriptOfSpec(s: Script, r: E.Spec, printer: E.Printer)
    requires E.AllRenders(r) && E.ComputedFrom(s, r, printer, NoFault)
    ensures s.rendered == Ok(RenderedJobs(r, printer)) && s.interval == Some(LeastInterval(r))
    ensures NoFaults(RenderedJobs(r, printer))
  {
    E.RenderFailsFirst(r);
    E.IntervalIsLeast(r);
    JobsWithoutFault(r.Rendering().value, printer);
  }

  lemma SpecRunIsFaultFree(w: World, name: string, scripts: seq<Script>, r: E.Spec, printer: E.Printer, i: nat)
    requires E.AllRenders(r) && i < |scripts| && IsRunOfSpec(w, name, scripts, r, printer, i)
    ensures IsFaultFree(w, name, scripts, RenderedJobs(r, printer), LeastInterval(r), i)
  {
    ScriptOfSpec(scripts[i], r, printer);
  }

  lemma SpecRunsAreFaultFree(w: World, name: string, scripts: seq<Script>, r: E.Spec, printer: E.Printer)
    requires E.AllRenders(r) && RunsOfSpec(w, name, scripts, r, printer)
    ensures FaultFreeRuns(w, name, scripts, RenderedJobs(r, printer), LeastInterval(r))
  {
    forall i | 0 <= i < |scripts| ensures IsFaultFree(w, name, scripts, RenderedJobs(r, printer), LeastInterval(r), i) {
      assert IsRunOfSpec(w, name, scripts, r, printer, i);
      SpecRunIsFaultFree(w, name, scripts, r, printer, i);
    }
  }

  function IdOf(u: R.Unstructured, printer: E.Printer): string {
    printer(u.namespace, u.name, u.group, u.kind)
  }

  /** The rendered object is the last one under its ID to have this key. */
  ghost predicate LastWithKey(us: seq<R.Unstructured>, printer: E.Printer, i: nat, key: string) {
    && i < |us| && key in us[i].content
    && forall l :: i < l < |us| && IdOf(us[l], printer) == IdOf(us[i], printer) ==> key !in us[l].content
  }

  /** The stored object says what the rendered one says, except under four keys and where a later one under
      the same ID says otherwise. */
  ghost predicate SaysWhatIsRendered(body: Body, us: seq<R.Unstructured>, printer: E.Printer, i: nat)
    requires i < |us|
  {
    && (forall key :: LastWithKey(us, printer, i, key) ==>
          || key == "status" || key == "metadata" || key == "kind" || key == "apiVersion"
          || (key in body.content && body.content[key] == us[i].content[key]))
    && ((forall l :: i < l < |us| ==> IdOf(us[l], printer) != IdOf(us[i], printer)) ==>
          body.labels == us[i].labels && body.annotations == us[i].annotations)
  }

  /** Every rendered object is stored, and exactly their IDs and versions are listed. */
  ghost predicate AllStored(w: World, name: string, us: seq<R.Unstructured>, printer: E.Printer) {
    && name in w.sets
    && (forall i :: 0 <= i < |us| ==>
          IdOf(us[i], printer) in w.cluster
          && SaysWhatIsRendered(w.cluster[IdOf(us[i], printer)].body, us, printer, i))
    && (forall ref :: ref in Entries(w.sets[name]) <==>
          exists i :: 0 <= i < |us| && ref == Ref(IdOf(us[i], printer), us[i].version))
  }

  lemma AllIsStored(w: World, name: string, us: seq<R.Unstructured>, printer: E.Printer, verdicts: nat -> Verdict)
    requires AllIsWell(w, name, E.JobsOf(us, printer, verdicts))
    ensures AllStored(w, name, us, printer)
  {
    var jobs := E.JobsOf(us, printer, verdicts);
    forall i | 0 <= i < |us|
      ensures jobs[i].Id() == IdOf(us[i], printer) && jobs[i].Ref() == Ref(IdOf(us[i], printer), us[i].version)
           && jobs[i].manifest.body.content == us[i].content && jobs[i].manifest.body.labels == us[i].labels
           && jobs[i].manifest.body.annotations == us[i].annotations
    {
      E.JobsMean(us, printer, verdicts, i);
    }
    forall i | 0 <= i < |us|
      ensures IdOf(us[i], printer) in w.cluster
           && SaysWhatIsRendered(w.cluster[IdOf(us[i], printer)].body, us, printer, i)
    {
      assert MatchesManifest(w.cluster[jobs[i].Id()].body, jobs, i);
      forall key | LastWithKey(us, printer, i, key) ensures LastToSay(jobs, i, key) {
      }
    }
    ListedRefs(w, name, us, printer, jobs);
  }

  lemma ListedRefs(w: World, name: string, us: seq<R.Unstructured>, printer: E.Printer, jobs: seq<Job>)
    requires name in w.sets && RefSet(Entries(w.sets[name])) == JobRefs(jobs) && |jobs| == |us|
    requires forall i :: 0 <= i < |us| ==> jobs[i].Ref() == Ref(IdOf(us[i], printer), us[i].version)
    ensures forall ref :: ref in Entries(w.sets[name]) <==>
      exists i :: 0 <= i < |us| && ref == Ref(IdOf(us[i], printer), us[i].version)
  {
    forall ref ensures ref in Entries(w.sets[name]) <==>
      exists i :: 0 <= i < |us| && ref == Ref(IdOf(us[i], printer), us[i].version)
    {
      assert ref in Entries(w.sets[name]) <==> ref in JobRefs(jobs);
      if ref in JobRefs(jobs) {
        var j :| j in jobs && j.Ref() == ref;
        var i :| 0 <= i < |jobs| && jobs[i] == j;
        assert ref == Ref(IdOf(us[i], printer), us[i].version);
      }
      if i :| 0 <= i < |us| && ref == Ref(IdOf(us[i], printer), us[i].version) {
        assert jobs[i] in jobs && jobs[i].Ref() == ref;
      }
    }
  }

  /** Convergence from the spec: with a fixed spec that renders, a fixed store, and no failing call, every
      run after the first finishes with the least positive interval of the generators exactly if no
      rendered ID is held by a foreign object (and, for the second, no stale ID is rendered twice), and
      from the first idle run on the world never changes again. */
  lemma SpecConverges(w: World, name: string, scripts: seq<Script>, r: E.Spec, printer: E.Printer, i: nat)
    requires InCharge(w, name) && E.AllRenders(r)
    requires RunsOfSpec(w, name, scripts, r, printer)
    requires OneVersionPerId(JobRefs(RenderedJobs(r, printer))) && 1 <= i < |scripts|
    ensures I.IsLeastPositive(LeastInterval(r), I.Leaves(r.entries))
    ensures var start, jobs := SituationOf(w, name), RenderedJobs(r, printer);
      var now := WorldBefore(w, name, scripts, i);
      var run := Reconcile(now, name, scripts[i]);
      && Converges(start, name, now, run, jobs, LeastInterval(r), i)
      && (Unblocked(start, jobs, i) ==>
            r.Rendering().Ok? && AllStored(run.world, name, r.Rendering().value, printer))
  {
    E.RenderFailsFirst(r);
    I.LeastPositiveMeans(I.Leaves(r.entries));
    SpecRunsAreFaultFree(w, name, scripts, r, printer);
    RunsConverge(w, name, scripts, RenderedJobs(r, printer), LeastInterval(r), i);
    if Unblocked(SituationOf(w, name), RenderedJobs(r, printer), i) {
      AllIsStored(Reconcile(WorldBefore(w, name, scripts, i), name, scripts[i]).world, name, r.Rendering().value,
                  printer, NoFault);
    }
  }
}
