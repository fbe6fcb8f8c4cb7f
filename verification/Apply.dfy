/** The apply loop and the prune loop of renderAndReconcile, as functions of the API's answers. */
module Apply {
  import opened Wrappers
  import opened Objects
  import opened Listing

  datatype ApplyError =
    | NoRef
    | BadRef(ref: Ref)
    | LoadFailed(ref: Ref)
    | UpdateFailed(ref: Ref)
    | LogFailed(ref: Ref)
    | CreateFailed(ref: Ref)
    | AlreadyExists(ref: Ref)
    | DeleteFailed(ref: Ref)

  /** Which calls fail for one rendered object, chosen arbitrarily by the environment. NotFound and
      AlreadyExists are not chosen: they follow from the cluster. */
  datatype Verdict = Verdict(refFails: bool, parseFails: bool, getFails: bool, patchFails: bool,
                             logFails: bool, createFails: bool, relogFails: bool)

  const NO_FAULT := Verdict(false, false, false, false, false, false, false)

  datatype Job = Job(manifest: Manifest, verdict: Verdict) {
    function Ref(): Ref { manifest.ref }
    function Id(): string { manifest.ref.id }

    /** Nothing but the object's being there already can keep this job from creating it. */
    predicate CanCreate() { !verdict.refFails && !verdict.logFails && !verdict.createFails }
  }

  /** Who applies, and the refs of the stored inventory, fixed for the whole loop. */
  datatype Context = Context(owner: string, existing: set<Ref>)

  /** What one iteration does to the object at the job's ID: the object afterwards, whether the ref
      is entered in the new inventory, and the errors joined. */
  datatype Effect = Effect(live: Option<Live>, kept: bool, errors: seq<ApplyError>)

  function Attempt(ctx: Context, before: Option<Live>, job: Job): Effect {
    var ref, v := job.Ref(), job.verdict;
    if v.refFails then Effect(before, false, [NoRef])
    else if ref in ctx.existing then
      if v.parseFails then Effect(before, false, [BadRef(ref)])
      else if v.getFails then Effect(before, true, [LoadFailed(ref)])
      else if before.None? then AttemptCreate(ctx, before, job, true)
      else if v.patchFails then Effect(before, true, [UpdateFailed(ref)])
      else Effect(Some(before.value.(body := Overlay(before.value.body, job.manifest.body))), true, [])
    else AttemptCreate(ctx, before, job, false)
  }

  function AttemptCreate(ctx: Context, before: Option<Live>, job: Job, kept: bool): Effect {
    var ref, v := job.Ref(), job.verdict;
    if v.logFails then Effect(before, kept, [LogFailed(ref)])
    else if v.createFails then Effect(before, kept, [CreateFailed(ref)])
    else if before.Some? then
      Effect(before, kept, if v.relogFails then [AlreadyExists(ref), LogFailed(ref)] else [AlreadyExists(ref)])
    else Effect(Some(Live(job.manifest.body, Some(ctx.owner))), true, [])
  }

  /** The loop's variables: the cluster it changes, `entries` and `inventoryErr`. */
  datatype Progress = Progress(cluster: Cluster, entries: set<Ref>, errors: seq<ApplyError>)

  function Start(cluster: Cluster): Progress {
    Progress(cluster, {}, [])
  }

  function ApplyOne(ctx: Context, p: Progress, job: Job): Progress {
    var e := Attempt(ctx, Lookup(p.cluster, job.Id()), job);
    Progress(Store(p.cluster, job.Id(), e.live), if e.kept then p.entries + {job.Ref()} else p.entries,
             p.errors + e.errors)
  }

  function ApplyAll(ctx: Context, p: Progress, jobs: seq<Job>): Progress {
    if jobs == [] then p
    else ApplyOne(ctx, ApplyAll(ctx, p, jobs[..|jobs| - 1]), jobs[|jobs| - 1])
  }

  /** One deletion of the prune or finalize loop, with the environment's choice of failures. */
  datatype Deletion = Deletion(ref: Ref, parseFails: bool, logFails: bool, deleteFails: bool) {
    predicate Fails() { parseFails || logFails || deleteFails }
    function Error(): ApplyError {
      if parseFails then BadRef(ref) else if logFails then LogFailed(ref) else DeleteFailed(ref)
    }
  }

  function Targets(ds: seq<Deletion>): seq<Ref> {
    seq(|ds|, i requires 0 <= i < |ds| => ds[i].ref)
  }

  datatype Removal = Removal(cluster: Cluster, error: Option<ApplyError>)

  /** removeResourceRefs: NotFound is ignored, the first other failure stops the loop. */
  function RemoveAll(cluster: Cluster, ds: seq<Deletion>): Removal {
    if ds == [] then Removal(cluster, None)
    else if ds[0].Fails() then Removal(cluster, Some(ds[0].Error()))
    else RemoveAll(cluster - {ds[0].ref.id}, ds[1..])
  }

  /** What renderAndReconcile needs from outside once rendering has succeeded: the rendered objects
      with the API's verdicts, and the order and verdicts of the deletions. `listing` is the
      sorted inventory it returns. */
  datatype Pass = Pass(jobs: seq<Job>, deletions: seq<Deletion>, listing: seq<Ref>)

  datatype Report = Report(cluster: Cluster, listing: seq<Ref>, errors: seq<ApplyError>)

  function Existing(stored: Option<seq<Ref>>): set<Ref> {
    if stored.Some? then RefSet(stored.value) else {}
  }

  function Applied(owner: string, cluster: Cluster, stored: Option<seq<Ref>>, jobs: seq<Job>): Progress {
    ApplyAll(Context(owner, Existing(stored)), Start(cluster), jobs)
  }

  /** The refs that go: pairs of the old inventory that the run did not enter again. */
  function Pruned(owner: string, cluster: Cluster, stored: Option<seq<Ref>>, jobs: seq<Job>): set<Ref> {
    Existing(stored) - Applied(owner, cluster, stored, jobs).entries
  }

  /** The pass's order of deletions and its listing are ones the set library may produce. */
  ghost predicate Fits(owner: string, cluster: Cluster, stored: Option<seq<Ref>>, pass: Pass) {
    && Enumerates(Targets(pass.deletions), Pruned(owner, cluster, stored, pass.jobs))
    && SortedListing(pass.listing, Applied(owner, cluster, stored, pass.jobs).entries)
  }

  function RunPass(owner: string, cluster: Cluster, stored: Option<seq<Ref>>, pass: Pass): Report {
    var p := Applied(owner, cluster, stored, pass.jobs);
    if stored.None? then Report(p.cluster, pass.listing, p.errors)
    else
      var r := RemoveAll(p.cluster, pass.deletions);
      Report(r.cluster, pass.listing, if r.error.Some? then p.errors + [r.error.value] else p.errors)
  }
}
