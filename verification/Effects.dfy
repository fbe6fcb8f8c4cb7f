/** What one run does to one object that is on the cluster, exactly, whatever fails; and when it harms
    an object that another set, or nobody's run, created. */
module Effects {
  import opened Wrappers
  import opened Objects
  import opened Apply
  import opened ApplyProofs
  import opened Ownership
  import opened Protocol

  /** Of the bodies rendered for one ID those that get patched in: their refs are listed and no call fails. */
  function Patches(existing: set<Ref>, id: string, jobs: seq<Job>): seq<Body> {
    if jobs == [] then []
    else
      var last := jobs[|jobs| - 1];
      var v := last.verdict;
      var patched := last.Id() == id && last.Ref() in existing
                     && !v.refFails && !v.parseFails && !v.getFails && !v.patchFails;
      Patches(existing, id, jobs[..|jobs| - 1]) + if patched then [last.manifest.body] else []
  }

  lemma StackOfSnoc(base: Body, layers: seq<Body>, last: Body)
    ensures Stack(base, layers + [last]) == Overlay(Stack(base, layers), last)
  {
    var all := layers + [last];
    assert all[..|all| - 1] == layers && all[|all| - 1] == last;
  }

  /** The loop leaves an object that was there under the stack of its patches. */
  lemma {:induction false} LoopOnPresentObject(ctx: Context, p: Progress, jobs: seq<Job>, id: string)
    requires id in p.cluster
    ensures var live := p.cluster[id];
      Lookup(ApplyAll(ctx, p, jobs).cluster, id)
      == Some(live.(body := Stack(live.body, Patches(ctx.existing, id, jobs))))
    decreases |jobs|
  {
    if jobs != [] {
      var init, last := jobs[..|jobs| - 1], jobs[|jobs| - 1];
      LoopOnPresentObject(ctx, p, init, id);
      var before := Patches(ctx.existing, id, init);
      StackOfSnoc(p.cluster[id].body, before, last.manifest.body);
      assert before + [] == before;
    }
  }

  /** The IDs of the deletions a run carries out. */
  function Deleted(w: World, name: string, s: Script): set<string> {
    match PhaseOf(w, name, s)
    case Applying => Ids(RefSet(Targets(s.deletions[..Executed(s.deletions)])))
    case Finalizing => Ids(RefSet(Targets(s.deletions[..Executed(s.deletions)])))
    case _ => {}
  }

  /** What a run patches into the object at `id`, in order. */
  function Patched(w: World, name: string, s: Script, id: string): seq<Body> {
    if PhaseOf(w, name, s) == Applying then Patches(Inventory(w.sets[name]), id, s.rendered.value) else []
  }

  /** The fate of every object that is there before a run: gone if a deletion of its ID was carried
      out, otherwise under the stack of its patches, with its creator and the rest as before. */
  lemma RunOnPresentObject(w: World, name: string, s: Script, id: string)
    requires Possible(w, name, s) && id in w.cluster
    ensures var live := w.cluster[id];
      Lookup(Reconcile(w, name, s).world.cluster, id)
      == if id in Deleted(w, name, s) then None
         else Some(live.(body := Stack(live.body, Patched(w, name, s, id))))
  {
    match PhaseOf(w, name, s)
    case Applying =>
      var stored := w.sets[name].inventory;
      PassFacts(name, w.cluster, stored, ThePass(s));
      LoopOnPresentObject(Context(name, Existing(stored)), Start(w.cluster), s.rendered.value, id);
    case Finalizing => RemovalIsPrefix(w.cluster, s.deletions);
    case _ =>
  }

  ghost predicate Unharmed(w: World, w': World, id: string)
    requires id in w.cluster
  {
    Lookup(w'.cluster, id) == Some(w.cluster[id])
  }

  /** What the run patches into the object leaves it as it is. */
  ghost predicate Unchanging(w: World, name: string, s: Script, id: string)
    requires id in w.cluster
  {
    Stack(w.cluster[id].body, Patched(w, name, s, id)) == w.cluster[id].body
  }

  /** Nothing that `name` did not create is changed or deleted. */
  ghost predicate SparesOthers(w: World, w': World, name: string) {
    forall id :: id in w.cluster && w.cluster[id].creator != Some(name) ==> Unharmed(w, w', id)
  }

  /** In any world, a run spares what it did not create if and only if no deletion it carries out hits
      such an object, and no such object changes under what is patched into it. */
  lemma SparesOthersIff(w: World, name: string, s: Script)
    requires Possible(w, name, s)
    ensures SparesOthers(w, Reconcile(w, name, s).world, name)
       <==> w.cluster.Keys * Deleted(w, name, s) <= Created(name, w.cluster)
            && forall id :: id in w.cluster && w.cluster[id].creator != Some(name) ==>
                 Unchanging(w, name, s, id)
  {
    var w', gone := Reconcile(w, name, s).world, Deleted(w, name, s);
    forall id | id in w.cluster ensures Unharmed(w, w', id) <==> id !in gone && Unchanging(w, name, s, id) {
      RunOnPresentObject(w, name, s, id);
    }
    if SparesOthers(w, w', name) {
      forall id | id in w.cluster && id in gone ensures id in Created(name, w.cluster) {
        assert !Unharmed(w, w', id);
      }
      forall id | id in w.cluster && w.cluster[id].creator != Some(name) ensures Unchanging(w, name, s, id) {
        assert Unharmed(w, w', id);
      }
    } else {
      var id :| id in w.cluster && w.cluster[id].creator != Some(name) && !Unharmed(w, w', id);
      assert id in w.cluster.Keys * gone || !Unchanging(w, name, s, id);
    }
  }

  /** A finalizing run removes exactly the objects behind the deletions it carries out, and so spares
      what it did not create if and only if none of those is another's. */
  lemma FinalizeSparesOthersIff(w: World, name: string, s: Script)
    requires Possible(w, name, s) && PhaseOf(w, name, s) == Finalizing
    ensures var gone := Ids(RefSet(Targets(s.deletions[..Executed(s.deletions)])));
      && Reconcile(w, name, s).world.cluster == w.cluster - gone
      && (SparesOthers(w, Reconcile(w, name, s).world, name) <==> w.cluster.Keys * gone <= Created(name, w.cluster))
  {
    RemovalIsPrefix(w.cluster, s.deletions);
    SparesOthersIff(w, name, s);
  }
}
