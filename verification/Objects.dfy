/** JSON values, Kubernetes objects as the controller sees them, and the overlay that an update stores. */
module Objects {
  import opened Wrappers

  /** A decoded JSON value. `Maps` is a Go `[]map[string]any`, which is a different dynamic type
      from `[]any` (`List`) and is treated differently by the renderer. */
  datatype Value =
    | Null
    | Leaf(text: string)
    | Number(n: int)
    | List(items: seq<Value>)
    | Maps(elements: seq<map<string, Value>>)
    | Object(fields: map<string, Value>)

  /** What a generator yields for one element. */
  type Params = map<string, Value>

  /** An inventory entry: the printed object identifier (namespace, name, group, kind) and the
      API version. Two refs with one ID and different versions are different refs. */
  datatype Ref = Ref(id: string, version: string)

  /** An unstructured object without its identity. `content` holds the top-level keys,
      `meta` the part of the metadata that is neither labels nor annotations. */
  datatype Body = Body(content: map<string, Value>, labels: map<string, string>,
                       annotations: map<string, string>, meta: Value)

  /** A rendered object. */
  datatype Manifest = Manifest(ref: Ref, body: Body)

  /** An object on the cluster. `creator` is a history variable that no code reads: the
      GitOpsSet whose Create call made the object, or None for everyone else's objects. */
  datatype Live = Live(body: Body, creator: Option<string>)

  /** The cluster is keyed by ID alone: every served version names the same object. */
  type Cluster = map<string, Live>

  function Ids(refs: set<Ref>): set<string> {
    set r | r in refs :: r.id
  }

  function RefSet(refs: seq<Ref>): set<Ref> {
    set r | r in refs
  }

  function Lookup(cluster: Cluster, id: string): Option<Live> {
    if id in cluster then Some(cluster[id]) else None
  }

  function Store(cluster: Cluster, id: string, live: Option<Live>): Cluster {
    if live.Some? then cluster[id := live.value] else cluster - {id}
  }

  ghost predicate OneVersionPerId(refs: set<Ref>) {
    forall r, s :: r in refs && s in refs && r.id == s.id ==> r == s
  }

  // ---------- copyUnstructuredContent ----------

  const DISALLOWED_KEYS := {"status", "metadata", "kind", "apiVersion"}

  /** What an update stores: the existing object under the new content, labels and annotations. */
  function Overlay(existing: Body, latest: Body): Body {
    Body(existing.content + (latest.content - DISALLOWED_KEYS), latest.labels, latest.annotations, existing.meta)
  }

  /** What an update means, key by key: everything the new object says is stored, except under four keys;
      under those, and under every key it does not mention, the existing object stays as it is. */
  lemma OverlayMeans(existing: Body, latest: Body)
    ensures var result := Overlay(existing, latest);
      && (forall k :: k in latest.content && k != "status" && k != "metadata" && k != "kind" && k != "apiVersion" ==>
            k in result.content && result.content[k] == latest.content[k])
      && (forall k :: k !in latest.content || k == "status" || k == "metadata" || k == "kind" || k == "apiVersion" ==>
            (k in result.content <==> k in existing.content)
            && (k in existing.content ==> result.content[k] == existing.content[k]))
      && result.labels == latest.labels && result.annotations == latest.annotations
      && result.meta == existing.meta
  {
  }

  method CopyUnstructuredContent(existing: Body, latest: Body) returns (result: Body)
    ensures result == Overlay(existing, latest)
    ensures forall k :: k in latest.content && k != "status" && k != "metadata" && k != "kind" && k != "apiVersion" ==>
      k in result.content && result.content[k] == latest.content[k]
    ensures forall k :: k !in latest.content || k == "status" || k == "metadata" || k == "kind" || k == "apiVersion" ==>
      (k in result.content <==> k in existing.content)
      && (k in existing.content ==> result.content[k] == existing.content[k])
    ensures result.labels == latest.labels && result.annotations == latest.annotations
    ensures result.meta == existing.meta
  {
    result := existing;
    var todo := latest.content.Keys;
    ghost var allowed := latest.content - DISALLOWED_KEYS;
    assert existing.content + (allowed - todo) == existing.content;
    while todo != {}
      invariant todo <= latest.content.Keys
      invariant result.meta == existing.meta
      invariant result.content == existing.content + (allowed - todo)
      decreases todo
    {
      var k :| k in todo;
      if k !in DISALLOWED_KEYS {
        result := result.(content := result.content[k := latest.content[k]]);
      }
      todo := todo - {k};
    }
    assert allowed - {} == allowed;
    result := result.(annotations := latest.annotations);
    result := result.(labels := latest.labels);
    OverlayMeans(existing, latest);
  }

  /** Several updates of one object, applied in order. */
  function Stack(base: Body, layers: seq<Body>): Body {
    if layers == [] then base
    else Overlay(Stack(base, layers[..|layers| - 1]), layers[|layers| - 1])
  }

  /** The content keys a sequence of layers writes, later layers winning. */
  function Written(layers: seq<Body>): map<string, Value> {
    if layers == [] then map[]
    else Written(layers[..|layers| - 1]) + (layers[|layers| - 1].content - DISALLOWED_KEYS)
  }

  lemma MapUnionAssociates<K, V>(a: map<K, V>, b: map<K, V>, c: map<K, V>)
    ensures (a + b) + c == a + (b + c)
  {
  }

  lemma {:induction false} StackIsOneOverlay(base: Body, layers: seq<Body>)
    ensures Stack(base, layers).content == base.content + Written(layers)
    ensures Stack(base, layers).meta == base.meta
    ensures layers != [] ==> Stack(base, layers).labels == layers[|layers| - 1].labels
    ensures layers != [] ==> Stack(base, layers).annotations == layers[|layers| - 1].annotations
    ensures Written(layers).Keys !! DISALLOWED_KEYS
  {
    if layers == [] {
      assert base.content + Written(layers) == base.content;
    } else {
      var init, last := layers[..|layers| - 1], layers[|layers| - 1];
      StackIsOneOverlay(base, init);
      MapUnionAssociates(base.content, Written(init), last.content - DISALLOWED_KEYS);
    }
  }

  /** e + a + b + a + b == e + a + b: replaying the same updates changes nothing. */
  lemma {:induction false} StackTwice(base: Body, layers: seq<Body>)
    ensures Stack(Stack(base, layers), layers) == Stack(base, layers)
  {
    StackIsOneOverlay(base, layers);
    StackIsOneOverlay(Stack(base, layers), layers);
  }

  /** Updating an object with the manifest that created it changes nothing. */
  lemma {:induction false} StackAbsorbsFirst(first: Body, rest: seq<Body>)
    ensures Stack(first, [first] + rest) == Stack(first, rest)
    decreases |rest|
  {
    if rest == [] {
      assert [first] + rest == [first] && [first][..0] == [];
      assert Stack(first, [first]) == Overlay(Stack(first, []), first) == Overlay(first, first);
      assert first.content + (first.content - DISALLOWED_KEYS) == first.content;
    } else {
      var all, n := [first] + rest, |rest|;
      assert all[..n] == [first] + rest[..n - 1];
      assert all[n] == rest[n - 1];
      StackAbsorbsFirst(first, rest[..n - 1]);
    }
  }

  /** The fields an update must not touch survive any number of updates. */
  lemma {:induction false} StackKeepsStatus(base: Body, layers: seq<Body>, key: string)
    requires key in DISALLOWED_KEYS
    ensures key in Stack(base, layers).content <==> key in base.content
    ensures key in base.content ==> Stack(base, layers).content[key] == base.content[key]
    ensures Stack(base, layers).meta == base.meta
  {
    StackIsOneOverlay(base, layers);
  }

  /** Layer i is the last one with this key. */
  ghost predicate LastWith(layers: seq<Body>, i: nat, key: string) {
    i < |layers| && key in layers[i].content && forall l :: i < l < |layers| ==> key !in layers[l].content
  }

  /** Any number of updates, key by key: the last layer that mentions a key decides it, except under four
      keys; under those, and under keys no layer mentions, the object stays as it was. */
  lemma {:induction false} StackMeans(base: Body, layers: seq<Body>, key: string)
    ensures var result := Stack(base, layers);
      && (key == "status" || key == "metadata" || key == "kind" || key == "apiVersion"
          || (forall l :: 0 <= l < |layers| ==> key !in layers[l].content) ==>
            (key in result.content <==> key in base.content)
            && (key in base.content ==> result.content[key] == base.content[key]))
      && (key != "status" && key != "metadata" && key != "kind" && key != "apiVersion" ==>
            forall i: nat :: LastWith(layers, i, key) ==>
              key in result.content && result.content[key] == layers[i].content[key])
    decreases |layers|
  {
    if layers != [] {
      var n := |layers| - 1;
      var init := layers[..n];
      StackMeans(base, init, key);
      OverlayMeans(Stack(base, init), layers[n]);
      forall i: nat | LastWith(layers, i, key) && i < n ensures LastWith(init, i, key) {
      }
    }
  }
}
