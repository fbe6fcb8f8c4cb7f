/** What it means that the cluster is as rendered: replaying all updates changes nothing, and so every
    object says what its manifests say. */
module Manifests {
  import opened Objects
  import opened Apply
  import opened ApplyProofs
  import opened Exactness

  /** Every rendered object is on the cluster, and replaying all that is rendered for its ID changes nothing. */
  ghost predicate AsRendered(cluster: Cluster, jobs: seq<Job>) {
    forall j :: j in jobs ==>
      j.Id() in cluster && Stack(cluster[j.Id()].body, Layers(j.Id(), jobs)) == cluster[j.Id()].body
  }

  /** Job i is the last for its ID whose manifest has this key. */
  ghost predicate LastToSay(jobs: seq<Job>, i: nat, key: string) {
    && i < |jobs| && key in jobs[i].manifest.body.content
    && forall l :: i < l < |jobs| && jobs[l].Id() == jobs[i].Id() ==> key !in jobs[l].manifest.body.content
  }

  /** Every rendered object is on the cluster and says what its manifests say: under every key but four
      the value of the last manifest for it that has the key, and the last one's labels and annotations. */
  ghost predicate MatchesManifests(cluster: Cluster, jobs: seq<Job>) {
    forall i :: 0 <= i < |jobs| ==> jobs[i].Id() in cluster && MatchesManifest(cluster[jobs[i].Id()].body, jobs, i)
  }

  ghost predicate MatchesManifest(body: Body, jobs: seq<Job>, i: nat)
    requires i < |jobs|
  {
    var manifest := jobs[i].manifest.body;
    && (forall key :: LastToSay(jobs, i, key) ==>
          || key == "status" || key == "metadata" || key == "kind" || key == "apiVersion"
          || (key in body.content && body.content[key] == manifest.content[key]))
    && ((forall l :: i < l < |jobs| ==> jobs[l].Id() != jobs[i].Id()) ==>
          body.labels == manifest.labels && body.annotations == manifest.annotations)
  }

  /** A later job for the same ID has this body. */
  ghost predicate ComesLater(jobs: seq<Job>, i: nat, body: Body)
    requires i < |jobs|
  {
    exists m :: i < m < |jobs| && jobs[m].Id() == jobs[i].Id() && body == jobs[m].manifest.body
  }

  /** Where a job's layer is among the layers for its ID, and what follows it there. */
  lemma {:induction false} LayerOfJob(jobs: seq<Job>, i: nat)
    requires i < |jobs|
    ensures var layers, at := Layers(jobs[i].Id(), jobs), |Layers(jobs[i].Id(), jobs[..i])|;
      && at < |layers| && layers[at] == jobs[i].manifest.body
      && forall l :: at < l < |layers| ==> ComesLater(jobs, i, layers[l])
    decreases |jobs|
  {
    var n := |jobs| - 1;
    var id, init := jobs[i].Id(), jobs[..n];
    if i < n {
      LayerOfJob(init, i);
      assert init[..i] == jobs[..i];
      var layers, before, at := Layers(id, jobs), Layers(id, init), |Layers(id, jobs[..i])|;
      forall l | at < l < |layers| ensures ComesLater(jobs, i, layers[l]) {
        if l < |before| {
          assert ComesLater(init, i, before[l]);
          var m :| i < m < |init| && init[m].Id() == id && before[l] == init[m].manifest.body;
          assert jobs[m] == init[m];
        } else {
          assert jobs[n].Id() == id && layers[l] == jobs[n].manifest.body;
        }
      }
    }
  }

  lemma AsRenderedMatches(cluster: Cluster, jobs: seq<Job>)
    requires AsRendered(cluster, jobs)
    ensures MatchesManifests(cluster, jobs)
  {
    forall i | 0 <= i < |jobs|
      ensures jobs[i].Id() in cluster && MatchesManifest(cluster[jobs[i].Id()].body, jobs, i)
    {
      assert jobs[i] in jobs;
      ReplayedMatches(cluster[jobs[i].Id()].body, jobs, i);
    }
  }

  lemma ReplayedMatches(body: Body, jobs: seq<Job>, i: nat)
    requires i < |jobs| && Stack(body, Layers(jobs[i].Id(), jobs)) == body
    ensures MatchesManifest(body, jobs, i)
  {
    var layers, at := Layers(jobs[i].Id(), jobs), |Layers(jobs[i].Id(), jobs[..i])|;
    LayerOfJob(jobs, i);
    StackIsOneOverlay(body, layers);
    forall key | LastToSay(jobs, i, key) && key != "status" && key != "metadata" && key != "kind" && key != "apiVersion"
      ensures key in body.content && body.content[key] == jobs[i].manifest.body.content[key]
    {
      StackMeans(body, layers, key);
      forall l | at < l < |layers| ensures key !in layers[l].content {
        assert ComesLater(jobs, i, layers[l]);
      }
      assert LastWith(layers, at, key);
    }
    if forall l :: i < l < |jobs| ==> jobs[l].Id() != jobs[i].Id() {
      assert at == |layers| - 1;
    }
  }

  /** With distinct IDs: updating any rendered object once more would change nothing. */
  lemma {:induction false} DistinctAsRendered(cluster: Cluster, jobs: seq<Job>, j: Job)
    requires AsRendered(cluster, jobs) && DistinctIds(jobs) && j in jobs
    ensures Overlay(cluster[j.Id()].body, j.manifest.body) == cluster[j.Id()].body
  {
    var body := j.manifest.body;
    DistinctLayers(jobs, j);
    assert [body][..0] == [];
    assert Stack(cluster[j.Id()].body, [body]) == Overlay(Stack(cluster[j.Id()].body, [body][..0]), body);
  }

  lemma {:induction false} DistinctLayers(jobs: seq<Job>, j: Job)
    requires DistinctIds(jobs) && j in jobs
    ensures Layers(j.Id(), jobs) == [j.manifest.body]
    decreases |jobs|
  {
    var init, last := jobs[..|jobs| - 1], jobs[|jobs| - 1];
    LastIdIsNew(jobs);
    if j == last {
      LayersIffRendered(last.Id(), init);
    } else {
      assert j.Id() in JobIds(init);
      DistinctLayers(init, j);
    }
  }
}
