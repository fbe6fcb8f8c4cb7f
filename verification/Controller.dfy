/** The controller itself: objects whose fields its methods update, loops over rendered objects and
    refs, and API calls that may each fail. Every method is proved against the functions of Apply and Protocol. */
module Controller {
  import opened Wrappers
  import opened Objects
  import opened Listing
  import opened Apply
  import opened Protocol

  datatype ApiError = NotFound | Exists | Refused

  datatype DeletionFault = DeletionFault(parseFails: bool, logFails: bool, deleteFails: bool)

  /** The deletions that result when refs are deleted in this order and the i-th meets the i-th fault. */
  function Deletions(order: seq<Ref>, faults: nat -> DeletionFault): seq<Deletion> {
    seq(|order|, i requires 0 <= i < |order| =>
      Deletion(order[i], faults(i).parseFails, faults(i).logFails, faults(i).deleteFails))
  }

  /** The environment's part in one run, before the set library has chosen its orders. */
  datatype Answers = Answers(getFails: bool, updateFails: bool, clientFails: bool,
                             rendered: Result<seq<Job>, RenderError>, deletionFaults: nat -> DeletionFault,
                             interval: Option<int>, statusFails: bool)

  ghost function ScriptOf(a: Answers, order: seq<Ref>, listing: seq<Ref>): Script {
    Script(a.getFails, a.updateFails, a.clientFails, a.rendered, Deletions(order, a.deletionFaults), listing,
           a.interval, a.statusFails)
  }

  /** A run's script says of every call and every deletion what the answers say of it. */
  lemma ScriptIsAnswers(a: Answers, order: seq<Ref>, listing: seq<Ref>)
    ensures var s := ScriptOf(a, order, listing);
      && s.getFails == a.getFails && s.updateFails == a.updateFails && s.clientFails == a.clientFails
      && s.rendered == a.rendered && s.interval == a.interval && s.statusFails == a.statusFails
      && |s.deletions| == |order| && s.listing == listing
      && forall i :: 0 <= i < |order| ==>
           && s.deletions[i].ref == order[i]
           && s.deletions[i].parseFails == a.deletionFaults(i).parseFails
           && s.deletions[i].logFails == a.deletionFaults(i).logFails
           && s.deletions[i].deleteFails == a.deletionFaults(i).deleteFails
  {
  }

  /** The API server: the objects by ID and the GitOpsSets by name. */
  class ApiServer {
    var cluster: Cluster
    var sets: map<string, GitOpsSet>

    ghost function Now(): World
      reads this
    {
      World(cluster, sets)
    }

    method Get(ref: Ref, fails: bool) returns (result: Result<Live, ApiError>)
      ensures result == if fails then Err(Refused) else if ref.id in cluster then Ok(cluster[ref.id]) else Err(NotFound)
    {
      if fails { return Err(Refused); }
      if ref.id !in cluster { return Err(NotFound); }
      return Ok(cluster[ref.id]);
    }

    /** Patching from the object just read to `body` stores `body`. */
    method Patch(ref: Ref, body: Body, fails: bool) returns (err: Option<ApiError>)
      modifies this`cluster
      ensures err == if fails then Some(Refused) else if ref.id in old(cluster) then None else Some(NotFound)
      ensures cluster == if err.None? then old(cluster)[ref.id := old(cluster)[ref.id].(body := body)] else old(cluster)
    {
      if fails { return Some(Refused); }
      if ref.id !in cluster { return Some(NotFound); }
      cluster := cluster[ref.id := cluster[ref.id].(body := body)];
      return None;
    }

    method Create(manifest: Manifest, owner: string, fails: bool) returns (err: Option<ApiError>)
      modifies this`cluster
      ensures err == if fails then Some(Refused) else if manifest.ref.id in old(cluster) then Some(Exists) else None
      ensures cluster == if err.None? then old(cluster)[manifest.ref.id := Live(manifest.body, Some(owner))]
                         else old(cluster)
    {
      if fails { return Some(Refused); }
      if manifest.ref.id in cluster { return Some(Exists); }
      cluster := cluster[manifest.ref.id := Live(manifest.body, Some(owner))];
      return None;
    }

    method Delete(ref: Ref, fails: bool) returns (err: Option<ApiError>)
      modifies this`cluster
      ensures err == if fails then Some(Refused) else if ref.id in old(cluster) then None else Some(NotFound)
      ensures cluster == if fails then old(cluster) else old(cluster) - {ref.id}
    {
      if fails { return Some(Refused); }
      if ref.id !in cluster { return Some(NotFound); }
      cluster := cluster - {ref.id};
      return None;
    }

    /** Update of a GitOpsSet's metadata. A new finalizer on a set under deletion is refused, and the
        last finalizer to go takes the set with it. */
    method UpdateFinalizers(name: string, finalizers: set<string>, fails: bool) returns (err: Option<ApiError>)
      requires name in sets
      modifies this`sets
      ensures err == if fails || (old(sets)[name].deleting && !(finalizers <= old(sets)[name].finalizers))
                     then Some(Refused) else None
      ensures sets == if err.Some? then old(sets)
                      else PutSet(old(sets), name, old(sets)[name].(finalizers := finalizers))
    {
      var gs := sets[name];
      if fails || (gs.deleting && !(finalizers <= gs.finalizers)) { return Some(Refused); }
      if gs.deleting && finalizers == {} {
        sets := sets - {name};
      } else {
        sets := sets[name := gs.(finalizers := finalizers)];
      }
      return None;
    }

    /** patchStatus: reads the set again and replaces its status only. */
    method PatchStatus(name: string, inventory: Option<seq<Ref>>, ready: Option<bool>, fails: bool)
      returns (err: Option<ApiError>)
      requires name in sets
      modifies this`sets
      ensures err == if fails then Some(Refused) else None
      ensures sets == if fails then old(sets)
                      else old(sets)[name := old(sets)[name].(inventory := inventory, ready := ready)]
    {
      if fails { return Some(Refused); }
      sets := sets[name := sets[name].(inventory := inventory, ready := ready)];
      return None;
    }
  }

  /** The run's own copy of the GitOpsSet it loaded. */
  class LoadedSet {
    var finalizers: set<string>
    var inventory: Option<seq<Ref>>
    var ready: Option<bool>
    const suspended: bool
    const deleting: bool

    ghost function Value(): GitOpsSet
      reads this
    {
      GitOpsSet(finalizers, suspended, deleting, inventory, ready)
    }

    constructor (gs: GitOpsSet)
      ensures Value() == gs
    {
      finalizers, inventory, ready := gs.finalizers, gs.inventory, gs.ready;
      suspended, deleting := gs.suspended, gs.deleting;
    }

    method SetReadiness(newInventory: Option<seq<Ref>>, status: bool)
      modifies this
      ensures Value() == Protocol.SetReadiness(old(Value()), newInventory, status)
      ensures ready.Some?
    {
      if newInventory.Some? {
        inventory := newInventory;
        if |newInventory.value| == 0 {
          inventory := None;
        }
      }
      ready := Some(status);
    }

    /** GetGitOpsSetReadiness dereferences the Ready condition: it must have been set. */
    function GetReadiness(): bool
      requires ready.Some?
      reads this
    {
      ready.value
    }
  }

  datatype RunError = Rendering(error: RenderError) | InApply(errors: seq<ApplyError>) | NoInterval

  class Reconciler {
    const api: ApiServer

    constructor (api: ApiServer)
      ensures this.api == api
    {
      this.api := api;
    }

    method RemoveResourceRefs(refs: seq<Ref>, faults: nat -> DeletionFault) returns (err: Option<ApplyError>)
      modifies api`cluster
      ensures Removal(api.cluster, err) == RemoveAll(old(api.cluster), Deletions(refs, faults))
    {
      ghost var ds := Deletions(refs, faults);
      for i := 0 to |refs|
        invariant RemoveAll(old(api.cluster), ds) == RemoveAll(api.cluster, ds[i..])
      {
        var fault := faults(i);
        assert ds[i..][0] == ds[i] && ds[i..][1..] == ds[i + 1..];
        if fault.parseFails { return Some(BadRef(refs[i])); }
        if fault.logFails { return Some(LogFailed(refs[i])); }
        var failure := api.Delete(refs[i], fault.deleteFails);
        if failure.Some? && failure.value != NotFound { return Some(DeleteFailed(refs[i])); }
      }
      return None;
    }

    /** The body of the apply loop once the ref is known to be listed: Some(result) ends the iteration
        with these errors, None goes on to create the object. */
    method UpdateListed(manifest: Manifest, verdict: Verdict) returns (done: Option<seq<ApplyError>>)
      modifies api`cluster
      ensures done == if verdict.getFails then Some([LoadFailed(manifest.ref)])
                      else if manifest.ref.id !in old(api.cluster) then None
                      else if verdict.patchFails then Some([UpdateFailed(manifest.ref)])
                      else Some([])
      ensures api.cluster == if done != Some([]) then old(api.cluster)
        else var live := old(api.cluster)[manifest.ref.id];
             old(api.cluster)[manifest.ref.id := live.(body := Overlay(live.body, manifest.body))]
    {
      var existing := api.Get(manifest.ref, verdict.getFails);
      if existing.Ok? {
        var updated := CopyUnstructuredContent(existing.value.body, manifest.body);
        var failure := api.Patch(manifest.ref, updated, verdict.patchFails);
        return Some(if failure.Some? then [UpdateFailed(manifest.ref)] else []);
      }
      if existing.error != NotFound { return Some([LoadFailed(manifest.ref)]); }
      return None;
    }

    /** The loop over the rendered objects. */
    method ApplyLoop(owner: string, existing: set<Ref>, jobs: seq<Job>)
      returns (entries: set<Ref>, errors: seq<ApplyError>)
      modifies api`cluster
      ensures Progress(api.cluster, entries, errors)
           == ApplyAll(Context(owner, existing), Start(old(api.cluster)), jobs)
    {
      ghost var ctx := Context(owner, existing);
      entries, errors := {}, [];
      for i := 0 to |jobs|
        invariant Progress(api.cluster, entries, errors) == ApplyAll(ctx, Start(old(api.cluster)), jobs[..i])
      {
        var manifest, verdict := jobs[i].manifest, jobs[i].verdict;
        var ref := manifest.ref;
        assert jobs[..i + 1][..i] == jobs[..i] && jobs[..i + 1][i] == jobs[i];
        if verdict.refFails {
          errors := errors + [NoRef];
          continue;
        }
        if ref in existing {
          if verdict.parseFails {
            errors := errors + [BadRef(ref)];
            continue;
          }
          entries := entries + {ref};
          var done := UpdateListed(manifest, verdict);
          if done.Some? {
            errors := errors + done.value;
            continue;
          }
        }
        if verdict.logFails {
          errors := errors + [LogFailed(ref)];
          continue;
        }
        var failure := api.Create(manifest, owner, verdict.createFails);
        if failure.Some? {
          if failure.value == Exists {
            errors := errors + [AlreadyExists(ref)];
            if verdict.relogFails {
              errors := errors + [LogFailed(ref)];
            }
          } else {
            errors := errors + [CreateFailed(ref)];
          }
          continue;
        }
        entries := entries + {ref};
      }
      assert jobs[..|jobs|] == jobs;
    }

    /** renderAndReconcile, with the rendering's result as a parameter. */
    method RenderAndReconcile(name: string, gs: LoadedSet, rendered: Result<seq<Job>, RenderError>,
                              faults: nat -> DeletionFault)
      returns (inventory: Option<seq<Ref>>, err: Option<RunError>, ghost order: seq<Ref>)
      modifies api`cluster
      ensures rendered.Err? ==>
        inventory.None? && err == Some(Rendering(rendered.error)) && api.cluster == old(api.cluster)
      ensures rendered.Ok? ==> inventory.Some?
      ensures rendered.Ok? ==>
        var pass := Pass(rendered.value, Deletions(order, faults), inventory.value);
        var report := RunPass(name, old(api.cluster), gs.inventory, pass);
        && Fits(name, old(api.cluster), gs.inventory, pass)
        && api.cluster == report.cluster
        && err == (if report.errors == [] then None else Some(InApply(report.errors)))
    {
      order := [];
      if rendered.Err? { return None, Some(Rendering(rendered.error)), order; }
      var existing: set<Ref> := {};
      if gs.inventory.Some? {
        existing := RefSet(gs.inventory.value);
      }
      var entries, errors := ApplyLoop(name, existing, rendered.value);
      if gs.inventory.None? {
        assert Deletions([], faults) == [] && Targets([]) == [];
        var list := SortedList(entries);
        return Some(list), if errors == [] then None else Some(InApply(errors)), order;
      }
      var objectsToRemove := UnorderedList(existing - entries);
      order := objectsToRemove;
      assert Targets(Deletions(order, faults)) == order;
      var failure := RemoveResourceRefs(objectsToRemove, faults);
      if failure.Some? {
        errors := errors + [failure.value];
      }
      var list := SortedList(entries);
      return Some(list), if errors == [] then None else Some(InApply(errors)), order;
    }

    /** reconcileResources: a nil inventory always comes with an error. */
    method ReconcileResources(name: string, gs: LoadedSet, a: Answers)
      returns (inventory: Option<seq<Ref>>, requeue: int, err: Option<RunError>, ghost order: seq<Ref>)
      modifies api`cluster
      ensures inventory.None? ==> err.Some?
      ensures a.rendered.Err? ==>
        inventory.None? && err == Some(Rendering(a.rendered.error)) && api.cluster == old(api.cluster)
      ensures a.rendered.Ok? ==> inventory.Some?
      ensures a.rendered.Ok? ==>
        var pass := Pass(a.rendered.value, Deletions(order, a.deletionFaults), inventory.value);
        var report := RunPass(name, old(api.cluster), gs.inventory, pass);
        && Fits(name, old(api.cluster), gs.inventory, pass)
        && api.cluster == report.cluster
        && err == (if report.errors != [] then Some(InApply(report.errors))
                   else if a.interval.None? then Some(NoInterval) else None)
        && (err.None? ==> requeue == a.interval.value)
    {
      inventory, err, order := RenderAndReconcile(name, gs, a.rendered, a.deletionFaults);
      requeue := 0;
      if err.Some? { return; }
      if a.interval.None? {
        err := Some(NoInterval);
        return;
      }
      requeue := a.interval.value;
    }

    method Finalize(name: string, gs: LoadedSet, a: Answers) returns (outcome: Outcome)
      requires name in api.sets && api.sets[name] == gs.Value()
      modifies api, gs
      ensures var s := ScriptOf(a, Entries(old(gs.Value())), []);
        gs.suspended || Run(api.Now(), outcome) == Protocol.Finalize(old(api.Now()), name, s)
      ensures old(gs.inventory).None? || gs.suspended ==> api.cluster == old(api.cluster)
    {
      ghost var s := ScriptOf(a, Entries(gs.Value()), []);
      assert Targets(s.deletions) == Entries(gs.Value());
      if !gs.suspended && gs.inventory.Some? {
        var failure := RemoveResourceRefs(gs.inventory.value, a.deletionFaults);
        if failure.Some? { return Failed; }
      }
      gs.finalizers := gs.finalizers - {FINALIZER};
      var failure := api.UpdateFinalizers(name, gs.finalizers, a.updateFails);
      return if failure.Some? then Failed else Finished(0);
    }

    /** One whole run. `name` is the request; the ghost result is the script of this run. */
    method Reconcile(name: string, a: Answers) returns (outcome: Outcome, ghost s: Script)
      modifies api
      ensures Possible(old(api.Now()), name, s)
      ensures exists order, listing :: s == ScriptOf(a, order, listing)
      ensures Run(api.Now(), outcome) == Protocol.Reconcile(old(api.Now()), name, s)
    {
      s := ScriptOf(a, [], []);
      if a.getFails { return Failed, s; }
      if name !in api.sets { return Finished(0), s; }
      var gs := new LoadedSet(api.sets[name]);

      if FINALIZER !in gs.finalizers {
        gs.finalizers := gs.finalizers + {FINALIZER};
        var failure := api.UpdateFinalizers(name, gs.finalizers, a.updateFails);
        return if failure.Some? then Failed else RequeueNow, s;
      }
      if gs.suspended { return Finished(0), s; }
      if a.clientFails { return Failed, s; }
      if gs.deleting {
        s := ScriptOf(a, Entries(gs.Value()), []);
        assert Targets(s.deletions) == Entries(gs.Value());
        outcome := Finalize(name, gs, a);
        return;
      }

      var inventory, requeue, err, order := ReconcileResources(name, gs, a);
      s := ScriptOf(a, order, if inventory.Some? then inventory.value else []);
      if err.Some? {
        gs.SetReadiness(inventory, false);
        var failure := api.PatchStatus(name, gs.inventory, gs.ready, a.statusFails);
        outcome := if err == Some(Rendering(NoArtifact)) then Finished(0) else Failed;
      } else {
        assert inventory.Some?;
        gs.SetReadiness(inventory, true);
        var failure := api.PatchStatus(name, gs.inventory, gs.ready, a.statusFails);
        if failure.Some? {
          gs.SetReadiness(inventory, false);
          outcome := Failed;
        } else {
          outcome := Finished(requeue);
        }
      }
      var finished := gs.GetReadiness();
    }
  }
}
