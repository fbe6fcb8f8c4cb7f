/** Rendering: nested loops over generators, elements, templates and repeats, and the flat stream they amount to. */
module Render {
  import opened Wrappers
  import opened Objects
  import opened Odometer
  import opened Generators
  import opened Interval
  import opened Stream

  datatype Template = Template(repeat: string, content: string)

  /** The set being rendered. */
  datatype Owner = Owner(name: string, namespace: string, annotations: map<string, string>)

  datatype Unstructured = Unstructured(kind: string, group: string, version: string, name: string, namespace: string,
                                       labels: map<string, string>, annotations: map<string, string>,
                                       content: map<string, Value>, meta: Value)

  type Rendered = Result<seq<Unstructured>, GenError>

  /** Library code: JSONPath, JSON to YAML, and executing and decoding one template. */
  datatype Library = Library(
    findResults: (string, Params) -> Result<seq<seq<Value>>, GenError>,
    toYaml: string -> Result<string, GenError>,
    execute: (string, Params, Owner) -> Rendered)

  // ---------- repeat ----------

  /** One level of lists is opened, nulls at the top level are dropped. */
  function Opened(v: Value): seq<Value> {
    match v
    case List(items) => items
    case Null => []
    case _ => [v]
  }

  function OpenedAll(vs: seq<Value>): seq<Value> {
    if vs == [] then [] else OpenedAll(vs[..|vs| - 1]) + Opened(vs[|vs| - 1])
  }

  function Flattened(results: seq<seq<Value>>): seq<Value> {
    if results == [] then [] else Flattened(results[..|results| - 1]) + OpenedAll(results[|results| - 1])
  }

  function RepeatScope(index: nat, params: Params, value: Value, i: nat): Params {
    map["Element" := Object(params), "ElementIndex" := Number(index), "Repeat" := value, "RepeatIndex" := Number(i)]
  }

  function RepeatScopes(index: nat, params: Params, values: seq<Value>): seq<Params> {
    seq(|values|, i requires 0 <= i < |values| => RepeatScope(index, params, values[i], i))
  }

  /** The scopes a template is rendered with for one element. */
  function Scopes(index: nat, t: Template, params: Params, lib: Library): Result<seq<Params>, GenError> {
    if t.repeat == "" then Ok([map["Element" := Object(params), "ElementIndex" := Number(index)]])
    else
      match lib.findResults(t.repeat, params)
      case Err(e) => Err(e)
      case Ok(results) =>
        Ok(RepeatScopes(index, params, Flattened(results)))
  }

  /** The loops that flatten the JSONPath results. */
  method OpenAll(result: seq<Value>) returns (repeated: seq<Value>)
    ensures repeated == OpenedAll(result)
  {
    repeated := [];
    for k := 0 to |result|
      invariant repeated == OpenedAll(result[..k])
    {
      assert result[..k + 1][..k] == result[..k];
      if result[k].List? {
        repeated := repeated + result[k].items;
        continue;
      }
      if !result[k].Null? {
        repeated := repeated + [result[k]];
      }
    }
    assert result[..|result|] == result;
  }

  method FlattenResults(results: seq<seq<Value>>) returns (repeated: seq<Value>)
    ensures repeated == Flattened(results)
  {
    repeated := [];
    for i := 0 to |results|
      invariant repeated == Flattened(results[..i])
    {
      assert results[..i + 1][..i] == results[..i];
      var items := OpenAll(results[i]);
      repeated := repeated + items;
    }
    assert results[..|results|] == results;
  }

  /** The lists of all items, one after the other. */
  function Collected<A, B>(items: seq<A>, open: A -> seq<B>): seq<B> {
    if items == [] then [] else Collected(items[..|items| - 1], open) + open(items[|items| - 1])
  }

  lemma {:induction false} CollectedOfConcat<A, B>(a: seq<A>, b: seq<A>, open: A -> seq<B>)
    ensures Collected(a + b, open) == Collected(a, open) + Collected(b, open)
    decreases |b|
  {
    if |b| == 0 {
      assert a + b == a && Collected(b, open) == [];
    } else {
      var n := |b| - 1;
      CollectedOfConcat(a, b[..n], open);
      assert (a + b)[..|a| + n] == a + b[..n] && (a + b)[|a| + n] == b[n];
      var x, y, z := Collected(a, open), Collected(b[..n], open), open(b[n]);
      assert (x + y) + z == x + (y + z);
    }
  }

  lemma {:induction false} OpenedAllIsCollected(vs: seq<Value>)
    ensures OpenedAll(vs) == Collected(vs, Opened)
  {
    if |vs| > 0 { OpenedAllIsCollected(vs[..|vs| - 1]); }
  }

  lemma {:induction false} FlattenedIsCollected(results: seq<seq<Value>>)
    ensures Flattened(results) == Collected(results, OpenedAll)
  {
    if |results| > 0 { FlattenedIsCollected(results[..|results| - 1]); }
  }

  lemma FlattenedOfOne(vs: seq<Value>)
    ensures Flattened([vs]) == OpenedAll(vs)
  {
    assert [vs][..0] == [] && [vs][0] == vs;
    assert [] + OpenedAll(vs) == OpenedAll(vs);
  }

  lemma OpenedAllOfOne(v: Value)
    ensures OpenedAll([v]) == if v.List? then v.items else if v == Null then [] else [v]
  {
    assert [v][..0] == [];
    assert [] + Opened(v) == Opened(v);
  }

  /** What flattening does: it goes result by result and value by value, opens a list by one level, drops a
      top-level null and keeps any other value. */
  lemma FlattenedMeans(a: seq<seq<Value>>, b: seq<seq<Value>>, vs: seq<Value>, ws: seq<Value>, v: Value)
    ensures Flattened([]) == [] && Flattened([[]]) == []
    ensures Flattened(a + b) == Flattened(a) + Flattened(b)
    ensures Flattened([vs + ws]) == Flattened([vs]) + Flattened([ws])
    ensures Flattened([[v]]) == if v.List? then v.items else if v == Null then [] else [v]
  {
    FlattenedIsCollected(a);
    FlattenedIsCollected(b);
    FlattenedIsCollected(a + b);
    CollectedOfConcat(a, b, OpenedAll);
    OpenedAllIsCollected(vs);
    OpenedAllIsCollected(ws);
    OpenedAllIsCollected(vs + ws);
    CollectedOfConcat(vs, ws, Opened);
    FlattenedOfOne([]);
    FlattenedOfOne(vs);
    FlattenedOfOne(ws);
    FlattenedOfOne(vs + ws);
    FlattenedOfOne([v]);
    OpenedAllOfOne(v);
  }

  method ScopesOf(index: nat, params: Params, repeated: seq<Value>) returns (elements: seq<Params>)
    ensures elements == RepeatScopes(index, params, repeated)
  {
    elements := [];
    for i := 0 to |repeated|
      invariant elements == RepeatScopes(index, params, repeated)[..i]
    {
      elements := elements + [RepeatScope(index, params, repeated[i], i)];
    }
  }

  method Repeat(index: nat, t: Template, params: Params, lib: Library) returns (r: Result<seq<Params>, GenError>)
    ensures r == Scopes(index, t, params, lib)
  {
    if t.repeat == "" { return Ok([map["Element" := Object(params), "ElementIndex" := Number(index)]]); }
    var results := lib.findResults(t.repeat, params);
    if results.Err? { return Err(results.error); }
    var repeated := FlattenResults(results.value);
    var elements := ScopesOf(index, params, repeated);
    return Ok(elements);
  }

  // ---------- one block ----------

  const NAME_LABEL := "sets.gitops.pro/name"
  const NAMESPACE_LABEL := "sets.gitops.pro/namespace"

  /** The fix-ups of a decoded object: no status, a namespace, and the source labels under its own. */
  function FixUp(u: Unstructured, owner: Owner): Unstructured {
    u.(content := u.content - {"status"},
       namespace := if u.kind != "Namespace" && u.namespace == "" then owner.namespace else u.namespace,
       labels := map[NAME_LABEL := owner.name, NAMESPACE_LABEL := owner.namespace] + u.labels)
  }

  /** v is what becomes of the decoded object u: its status is gone and the rest of its content is kept,
      it has a namespace if its kind has one, and it names its set in two labels unless it has those itself. */
  ghost predicate IsFixedUp(u: Unstructured, v: Unstructured, owner: Owner) {
    && (forall k :: k in v.content <==> k in u.content && k != "status")
    && (forall k :: k in v.content ==> v.content[k] == u.content[k])
    && v.namespace == (if u.kind != "Namespace" && u.namespace == "" then owner.namespace else u.namespace)
    && (forall l :: l in v.labels <==>
          l in u.labels || l == "sets.gitops.pro/name" || l == "sets.gitops.pro/namespace")
    && (forall l :: l in u.labels ==> v.labels[l] == u.labels[l])
    && ("sets.gitops.pro/name" !in u.labels ==> v.labels["sets.gitops.pro/name"] == owner.name)
    && ("sets.gitops.pro/namespace" !in u.labels ==> v.labels["sets.gitops.pro/namespace"] == owner.namespace)
    && v.kind == u.kind && v.group == u.group && v.version == u.version && v.name == u.name
    && v.annotations == u.annotations && v.meta == u.meta
  }

  lemma FixUpFacts(u: Unstructured, owner: Owner)
    ensures IsFixedUp(u, FixUp(u, owner), owner)
    ensures FixUp(FixUp(u, owner), owner) == FixUp(u, owner)
  {
    var v := FixUp(u, owner);
    assert "sets.gitops.pro/name" != "sets.gitops.pro/namespace" by {
      assert |"sets.gitops.pro/name"| != |"sets.gitops.pro/namespace"|;
    }
    assert v.content - {"status"} == v.content;
    assert map[NAME_LABEL := owner.name, NAMESPACE_LABEL := owner.namespace] + v.labels == v.labels;
  }

  function FixUpAll(us: seq<Unstructured>, owner: Owner): seq<Unstructured> {
    seq(|us|, i requires 0 <= i < |us| => FixUp(us[i], owner))
  }

  /** The template parameters that name the set itself. */
  function WithOwner(scope: Params, owner: Owner): Params {
    scope["GitOpsSet" := Object(map["Name" := Leaf(owner.name), "Namespace" := Leaf(owner.namespace)])]
  }

  function ExecuteAll(yaml: string, scopes: seq<Params>, owner: Owner, lib: Library): Rendered {
    if scopes == [] then Ok([])
    else
      match lib.execute(yaml, WithOwner(scopes[0], owner), owner)
      case Err(e) => Err(e)
      case Ok(us) => Joined(FixUpAll(us, owner), ExecuteAll(yaml, scopes[1..], owner, lib))
  }

  /** Everything one (element, template) pair renders to, given its index. */
  function Block(index: nat, t: Template, params: Params, owner: Owner, lib: Library): Rendered {
    match Scopes(index, t, params, lib)
    case Err(e) => Err(e)
    case Ok(scopes) =>
      match lib.toYaml(t.content)
      case Err(e) => Err(e)
      case Ok(yaml) => ExecuteAll(yaml, scopes, owner, lib)
  }

  /** The loop over the objects decoded from one rendered template. */
  method FixUpObjects(us: seq<Unstructured>, owner: Owner) returns (fixedUp: seq<Unstructured>)
    ensures fixedUp == FixUpAll(us, owner)
  {
    fixedUp := [];
    for i := 0 to |us|
      invariant fixedUp == FixUpAll(us, owner)[..i]
    {
      fixedUp := fixedUp + [FixUp(us[i], owner)];
    }
  }

  method RenderTemplateParams(index: nat, t: Template, params: Params, owner: Owner, lib: Library) returns (r: Rendered)
    ensures r == Block(index, t, params, owner, lib)
  {
    var scopes := Repeat(index, t, params, lib);
    if scopes.Err? { return Err(scopes.error); }
    var yaml := lib.toYaml(t.content);
    if yaml.Err? { return Err(yaml.error); }

    r := ExecuteScopes(yaml.value, scopes.value, owner, lib);
  }

  /** The loop over the copies of one template. */
  method ExecuteScopes(yaml: string, scopes: seq<Params>, owner: Owner, lib: Library) returns (r: Rendered)
    ensures r == ExecuteAll(yaml, scopes, owner, lib)
  {
    var objects: seq<Unstructured> := [];
    var todo := scopes;
    JoinedTwice([], [], ExecuteAll(yaml, todo, owner, lib));
    while todo != []
      invariant ExecuteAll(yaml, scopes, owner, lib) == Joined(objects, ExecuteAll(yaml, todo, owner, lib))
      decreases |todo|
    {
      var rendered := lib.execute(yaml, WithOwner(todo[0], owner), owner);
      if rendered.Err? { return Err(rendered.error); }
      JoinedTwice(objects, FixUpAll(rendered.value, owner), ExecuteAll(yaml, todo[1..], owner, lib));
      var fixedUp := FixUpObjects(rendered.value, owner);
      objects, todo := objects + fixedUp, todo[1..];
    }
    JoinedTwice(objects, [], ExecuteAll(yaml, [], owner, lib));
    return Ok(objects);
  }

  // ---------- what a block is made of ----------

  /** The values a template is repeated for; a template that does not repeat is rendered once. */
  function RepeatedValues(t: Template, params: Params, lib: Library): Option<seq<Value>> {
    if t.repeat == "" || lib.findResults(t.repeat, params).Err? then None
    else Some(Flattened(lib.findResults(t.repeat, params).value))
  }

  function RepeatCount(t: Template, params: Params, lib: Library): nat {
    if RepeatedValues(t, params, lib).Some? then |RepeatedValues(t, params, lib).value| else 1
  }

  /** The parameters for copy i of the pair at the given position: the set's name and namespace, the
      element, the position as ElementIndex and, if the template repeats, the i-th value with i as
      RepeatIndex; and nothing else. */
  ghost predicate IsCopy(scope: Params, position: nat, i: nat, t: Template, params: Params, owner: Owner,
                         lib: Library)
  {
    && scope.Keys == (if t.repeat == "" then {"GitOpsSet", "Element", "ElementIndex"}
                      else {"GitOpsSet", "Element", "ElementIndex", "Repeat", "RepeatIndex"})
    && scope["GitOpsSet"] == Object(map["Name" := Leaf(owner.name), "Namespace" := Leaf(owner.namespace)])
    && scope["Element"] == Object(params)
    && scope["ElementIndex"] == Number(position)
    && (t.repeat != "" ==>
          && RepeatedValues(t, params, lib).Some? && i < |RepeatedValues(t, params, lib).value|
          && scope["Repeat"] == RepeatedValues(t, params, lib).value[i]
          && scope["RepeatIndex"] == Number(i))
  }

  /** One copy's objects, once executing it has succeeded. */
  ghost predicate IsOutput(us: seq<Unstructured>, yaml: string, scope: Params, owner: Owner, lib: Library) {
    var executed := lib.execute(yaml, scope, owner);
    && executed.Ok? && |us| == |executed.value|
    && forall i :: 0 <= i < |us| ==> IsFixedUp(executed.value[i], us[i], owner)
  }

  lemma FixUpAllIsOutput(yaml: string, scope: Params, owner: Owner, lib: Library)
    requires lib.execute(yaml, scope, owner).Ok?
    ensures IsOutput(FixUpAll(lib.execute(yaml, scope, owner).value, owner), yaml, scope, owner, lib)
  {
    var us := lib.execute(yaml, scope, owner).value;
    forall i | 0 <= i < |us| ensures IsFixedUp(us[i], FixUpAll(us, owner)[i], owner) {
      FixUpFacts(us[i], owner);
    }
  }

  ghost predicate AreOutputs(outputs: seq<seq<Unstructured>>, scopes: seq<Params>, yaml: string, position: nat,
                             t: Template, params: Params, owner: Owner, lib: Library) {
    && |scopes| == |outputs| == RepeatCount(t, params, lib)
    && forall i :: 0 <= i < |scopes| ==>
         IsCopy(scopes[i], position, i, t, params, owner, lib) && IsOutput(outputs[i], yaml, scopes[i], owner, lib)
  }

  /** A block is the concatenation of the outputs of its copies, in order. */
  ghost predicate IsBlock(us: seq<Unstructured>, position: nat, t: Template, params: Params, owner: Owner,
                          lib: Library)
  {
    && lib.toYaml(t.content).Ok?
    && exists scopes, outputs ::
         && AreOutputs(outputs, scopes, lib.toYaml(t.content).value, position, t, params, owner, lib)
         && us == Flat(outputs)
  }

  function WithOwnerAll(scopes: seq<Params>, owner: Owner): seq<Params> {
    seq(|scopes|, i requires 0 <= i < |scopes| => WithOwner(scopes[i], owner))
  }

  lemma {:induction false} ExecuteAllIsFlat(yaml: string, scopes: seq<Params>, owner: Owner, lib: Library)
    returns (outputs: seq<seq<Unstructured>>)
    requires ExecuteAll(yaml, scopes, owner, lib).Ok?
    ensures ExecuteAll(yaml, scopes, owner, lib) == Ok(Flat(outputs)) && |outputs| == |scopes|
    ensures forall i :: 0 <= i < |scopes| ==> IsOutput(outputs[i], yaml, WithOwner(scopes[i], owner), owner, lib)
    decreases |scopes|
  {
    outputs := [];
    if scopes != [] {
      var us := lib.execute(yaml, WithOwner(scopes[0], owner), owner).value;
      FixUpAllIsOutput(yaml, WithOwner(scopes[0], owner), owner, lib);
      var rest := ExecuteAllIsFlat(yaml, scopes[1..], owner, lib);
      outputs := [FixUpAll(us, owner)] + rest;
      assert outputs[1..] == rest;
      forall i | 0 <= i < |scopes| ensures IsOutput(outputs[i], yaml, WithOwner(scopes[i], owner), owner, lib) {
        if i > 0 { assert scopes[i] == scopes[1..][i - 1] && outputs[i] == rest[i - 1]; }
      }
    }
  }

  lemma ScopesAreCopies(index: nat, t: Template, params: Params, owner: Owner, lib: Library)
    requires Scopes(index, t, params, lib).Ok?
    ensures var scopes := Scopes(index, t, params, lib).value;
      && |scopes| == RepeatCount(t, params, lib)
      && forall i :: 0 <= i < |scopes| ==> IsCopy(WithOwner(scopes[i], owner), index, i, t, params, owner, lib)
  {
  }

  /** Whatever renderTemplateParams returns is a block for the index it is given. */
  lemma BlockIsBlock(index: nat, t: Template, params: Params, owner: Owner, lib: Library)
    requires Block(index, t, params, owner, lib).Ok?
    ensures IsBlock(Block(index, t, params, owner, lib).value, index, t, params, owner, lib)
  {
    var scopes, yaml := Scopes(index, t, params, lib).value, lib.toYaml(t.content).value;
    ScopesAreCopies(index, t, params, owner, lib);
    var outputs := ExecuteAllIsFlat(yaml, scopes, owner, lib);
    assert AreOutputs(outputs, WithOwnerAll(scopes, owner), yaml, index, t, params, owner, lib);
  }

  /** Copy i is the first whose template cannot be executed, for this reason. */
  ghost predicate CopyFails(scopes: seq<Params>, i: nat, yaml: string, owner: Owner, lib: Library, e: GenError) {
    && i < |scopes| && lib.execute(yaml, scopes[i], owner) == Err(e)
    && forall j :: 0 <= j < i ==> lib.execute(yaml, scopes[j], owner).Ok?
  }

  ghost predicate SomeCopyFails(position: nat, t: Template, params: Params, owner: Owner, lib: Library, e: GenError) {
    && lib.toYaml(t.content).Ok?
    && exists scopes: seq<Params>, i: nat ::
         && CopyFails(scopes, i, lib.toYaml(t.content).value, owner, lib, e)
         && |scopes| == RepeatCount(t, params, lib)
         && forall j :: 0 <= j < |scopes| ==> IsCopy(scopes[j], position, j, t, params, owner, lib)
  }

  lemma {:induction false} ExecuteAllFailsFirst(yaml: string, scopes: seq<Params>, owner: Owner, lib: Library)
    returns (i: nat)
    requires ExecuteAll(yaml, scopes, owner, lib).Err?
    ensures CopyFails(WithOwnerAll(scopes, owner), i, yaml, owner, lib, ExecuteAll(yaml, scopes, owner, lib).error)
    decreases |scopes|
  {
    i := 0;
    if lib.execute(yaml, WithOwner(scopes[0], owner), owner).Ok? {
      var k := ExecuteAllFailsFirst(yaml, scopes[1..], owner, lib);
      i := k + 1;
      var all, rest := WithOwnerAll(scopes, owner), WithOwnerAll(scopes[1..], owner);
      assert forall j :: 0 <= j < |rest| ==> all[j + 1] == rest[j];
      assert forall j :: 0 < j < i ==> all[j] == rest[j - 1];
    }
  }

  /** A block fails for the reason of the first of these that fails: the repeat expression, the template's
      conversion, and its copies in order. */
  lemma BlockFails(index: nat, t: Template, params: Params, owner: Owner, lib: Library)
    requires Block(index, t, params, owner, lib).Err?
    ensures var e := Block(index, t, params, owner, lib).error;
      if t.repeat != "" && lib.findResults(t.repeat, params).Err? then lib.findResults(t.repeat, params) == Err(e)
      else if lib.toYaml(t.content).Err? then lib.toYaml(t.content) == Err(e)
      else SomeCopyFails(index, t, params, owner, lib, e)
  {
    if Scopes(index, t, params, lib).Ok? && lib.toYaml(t.content).Ok? {
      var scopes, yaml := Scopes(index, t, params, lib).value, lib.toYaml(t.content).value;
      ScopesAreCopies(index, t, params, owner, lib);
      var i := ExecuteAllFailsFirst(yaml, scopes, owner, lib);
      assert forall j :: 0 <= j < |scopes| ==>
        IsCopy(WithOwnerAll(scopes, owner)[j], index, j, t, params, owner, lib);
    }
  }

  // ---------- the stream ----------

  datatype Pair = Pair(params: Params, template: Template)

  function PairsOf(params: Params, ts: seq<Template>): seq<Pair> {
    if ts == [] then [] else [Pair(params, ts[0])] + PairsOf(params, ts[1..])
  }

  function Pairs(elements: seq<Params>, ts: seq<Template>): seq<Pair> {
    if elements == [] then [] else PairsOf(elements[0], ts) + Pairs(elements[1..], ts)
  }

  /** One pair, rendered as the block with the given index. */
  function BlockOf(owner: Owner, lib: Library): Step<Pair, Unstructured, GenError> {
    (index: nat, pair: Pair) => Block(index, pair.template, pair.params, owner, lib)
  }

  function EntryPairs(e: Entry, ts: seq<Template>, env: Env): Result<seq<Pair>, GenError> {
    match Generate(e, env)
    case Err(err) => Err(err)
    case Ok(groups) => Ok(Pairs(Flat(groups), ts))
  }

  function Plans(entries: seq<Entry>, ts: seq<Template>, env: Env): seq<Result<seq<Pair>, GenError>> {
    if entries == [] then [] else [EntryPairs(entries[0], ts, env)] + Plans(entries[1..], ts, env)
  }

  /** Render: each entry is generated and rendered before the next is looked at; one counter runs through. */
  function RenderEntries(entries: seq<Entry>, ts: seq<Template>, index: nat, env: Env,
                         block: Step<Pair, Unstructured, GenError>): Rendered {
    ProcessParts(Plans(entries, ts, env), index, block)
  }

  lemma {:induction false} PairsOfConcat(a: seq<Params>, b: seq<Params>, ts: seq<Template>)
    ensures Pairs(a + b, ts) == Pairs(a, ts) + Pairs(b, ts)
    decreases |a|
  {
    if a == [] {
      assert a + b == b;
    } else {
      PairsOfConcat(a[1..], b, ts);
      assert (a + b)[1..] == a[1..] + b;
    }
  }

  lemma {:induction false} PairsOfCount(params: Params, ts: seq<Template>)
    ensures |PairsOf(params, ts)| == |ts|
    ensures forall k :: 0 <= k < |ts| ==> PairsOf(params, ts)[k] == Pair(params, ts[k])
  {
    if ts != [] { PairsOfCount(params, ts[1..]); }
  }

  /** `block` gives what renderTemplateParams gives. */
  ghost predicate Implements(block: Step<Pair, Unstructured, GenError>, owner: Owner, lib: Library) {
    forall index: nat, t, params {:trigger Block(index, t, params, owner, lib)} ::
      block(index, Pair(params, t)) == Block(index, t, params, owner, lib)
  }

  lemma BlockOfImplements(owner: Owner, lib: Library)
    ensures Implements(BlockOf(owner, lib), owner, lib)
  {
  }

  method RenderPair(params: Params, t: Template, index: nat, owner: Owner, lib: Library,
                    ghost block: Step<Pair, Unstructured, GenError>) returns (r: Rendered)
    requires Implements(block, owner, lib)
    ensures r == block(index, Pair(params, t))
  {
    r := RenderTemplateParams(index, t, params, owner, lib);
  }

  /** The templates of one element, rendered in order while the counter advances. */
  method RenderElement(params: Params, ts: seq<Template>, index: nat, owner: Owner, lib: Library,
                       ghost block: Step<Pair, Unstructured, GenError>)
    returns (r: Rendered, next: nat)
    requires Implements(block, owner, lib)
    ensures r == Process(PairsOf(params, ts), index, block)
    ensures r.Ok? ==> next == index + |ts|
  {
    var rendered: seq<Unstructured> := [];
    next := index;
    var todo := ts;
    ghost var total := Process(PairsOf(params, ts), index, block);
    ghost var rest := total;
    JoinedTwice([], [], total);
    while todo != []
      invariant next + |todo| == index + |ts|
      invariant rest == Process(PairsOf(params, todo), next, block) && total == Joined(rendered, rest)
      decreases |todo|
    {
      var res := RenderPair(params, todo[0], next, owner, lib, block);
      assert PairsOf(params, todo)[1..] == PairsOf(params, todo[1..]);
      if res.Err? { return res, next; }
      next, todo := next + 1, todo[1..];
      rest := Process(PairsOf(params, todo), next, block);
      JoinedTwice(rendered, res.value, rest);
      rendered := rendered + res.value;
    }
    JoinedTwice(rendered, [], rest);
    return Ok(rendered), next;
  }

  /** The loop over the elements of one group. */
  method RenderElements(elements: seq<Params>, ts: seq<Template>, index: nat, owner: Owner, lib: Library,
                        ghost block: Step<Pair, Unstructured, GenError>)
    returns (r: Rendered, next: nat)
    requires Implements(block, owner, lib)
    ensures r == Process(Pairs(elements, ts), index, block)
    ensures r.Ok? ==> next == index + |Pairs(elements, ts)|
  {
    var rendered: seq<Unstructured> := [];
    next := index;
    ghost var total := Process(Pairs(elements, ts), index, block);
    JoinedTwice([], [], total);
    var todo := elements;
    ghost var left := total;
    while todo != []
      invariant left == Process(Pairs(todo, ts), next, block) && total == Joined(rendered, left)
      invariant next + |Pairs(todo, ts)| == index + |Pairs(elements, ts)|
      decreases |todo|
    {
      PairsOfCount(todo[0], ts);
      ProcessOfConcat(PairsOf(todo[0], ts), Pairs(todo[1..], ts), next, block);
      var res, after := RenderElement(todo[0], ts, next, owner, lib, block);
      if res.Err? { return res, next; }
      next, todo := after, todo[1..];
      left := Process(Pairs(todo, ts), next, block);
      JoinedTwice(rendered, res.value, left);
      rendered := rendered + res.value;
    }
    JoinedTwice(rendered, [], left);
    return Ok(rendered), next;
  }

  /** The loop over the groups of one entry. */
  method RenderGroups(groups: seq<seq<Params>>, ts: seq<Template>, index: nat, owner: Owner, lib: Library,
                      ghost block: Step<Pair, Unstructured, GenError>)
    returns (r: Rendered, next: nat)
    requires Implements(block, owner, lib)
    ensures r == Process(Pairs(Flat(groups), ts), index, block)
    ensures r.Ok? ==> next == index + |Pairs(Flat(groups), ts)|
  {
    var rendered: seq<Unstructured> := [];
    next := index;
    ghost var total := Process(Pairs(Flat(groups), ts), index, block);
    JoinedTwice([], [], total);
    var todo := groups;
    ghost var left := total;
    while todo != []
      invariant left == Process(Pairs(Flat(todo), ts), next, block) && total == Joined(rendered, left)
      invariant next + |Pairs(Flat(todo), ts)| == index + |Pairs(Flat(groups), ts)|
      decreases |todo|
    {
      PairsOfConcat(todo[0], Flat(todo[1..]), ts);
      ProcessOfConcat(Pairs(todo[0], ts), Pairs(Flat(todo[1..]), ts), next, block);
      var res, after := RenderElements(todo[0], ts, next, owner, lib, block);
      if res.Err? { return res, next; }
      next, todo := after, todo[1..];
      left := Process(Pairs(Flat(todo), ts), next, block);
      JoinedTwice(rendered, res.value, left);
      rendered := rendered + res.value;
    }
    JoinedTwice(rendered, [], left);
    return Ok(rendered), next;
  }

  /** The renderer's generate. */
  method GenerateLoop(e: Entry, env: Env) returns (r: Result<seq<seq<Params>>, GenError>)
    ensures r == Generate(e, env)
  {
    var relevant := FindRelevantGenerators(EntryFields(e), env.enabled);
    if relevant.Err? { return Err(relevant.error); }
    var generated: seq<seq<Params>> := [];
    var kinds := relevant.value;
    JoinedTwice([], [], GenerateKinds(kinds, e, env));
    assert kinds[0..] == kinds;
    for k := 0 to |kinds|
      invariant GenerateKinds(kinds, e, env) == Joined(generated, GenerateKinds(kinds[k..], e, env))
    {
      assert kinds[k..][1..] == kinds[k + 1..];
      var res := GenerateOne(kinds[k], e, env);
      if res.Err? { return Err(res.error); }
      JoinedTwice(generated, [res.value], GenerateKinds(kinds[k + 1..], e, env));
      generated := generated + [res.value];
    }
    JoinedTwice(generated, [], GenerateKinds([], e, env));
    return Ok(generated);
  }

  /** One entry: generate, then render what it yields. */
  method RenderEntry(e: Entry, ts: seq<Template>, index: nat, env: Env, owner: Owner, lib: Library,
                     ghost block: Step<Pair, Unstructured, GenError>, ghost later: seq<Result<seq<Pair>, GenError>>)
    returns (r: Rendered, next: nat)
    requires Implements(block, owner, lib)
    ensures ProcessParts([EntryPairs(e, ts, env)] + later, index, block)
         == if r.Err? then r else Joined(r.value, ProcessParts(later, next, block))
  {
    ghost var parts := [EntryPairs(e, ts, env)] + later;
    assert parts[0] == EntryPairs(e, ts, env) && parts[1..] == later;
    var groups := GenerateLoop(e, env);
    if groups.Err? { return Err(groups.error), index; }
    r, next := RenderGroups(groups.value, ts, index, owner, lib, block);
  }

  /** Render: the loop over the entries. */
  method RenderAll(entries: seq<Entry>, ts: seq<Template>, env: Env, owner: Owner, lib: Library,
                   ghost block: Step<Pair, Unstructured, GenError>) returns (r: Rendered)
    requires Implements(block, owner, lib)
    ensures r == RenderEntries(entries, ts, 0, env, block)
  {
    var rendered: seq<Unstructured> := [];
    var index: nat := 0;
    var todo := entries;
    ghost var total := RenderEntries(entries, ts, 0, env, block);
    ghost var rest := total;
    JoinedTwice([], [], total);
    while todo != []
      invariant rest == RenderEntries(todo, ts, index, env, block) && total == Joined(rendered, rest)
      decreases |todo|
    {
      var res, next := RenderEntry(todo[0], ts, index, env, owner, lib, block, Plans(todo[1..], ts, env));
      if res.Err? { return res; }
      index, todo := next, todo[1..];
      rest := RenderEntries(todo, ts, index, env, block);
      JoinedTwice(rendered, res.value, rest);
      rendered := rendered + res.value;
    }
    JoinedTwice(rendered, [], rest);
    return Ok(rendered);
  }

  method Render(entries: seq<Entry>, ts: seq<Template>, env: Env, owner: Owner, lib: Library) returns (r: Rendered)
    ensures r == RenderEntries(entries, ts, 0, env, BlockOf(owner, lib))
  {
    BlockOfImplements(owner, lib);
    r := RenderAll(entries, ts, env, owner, lib, BlockOf(owner, lib));
  }

  // ---------- the flat stream ----------

  ghost predicate AllGenerate(entries: seq<Entry>, env: Env) {
    forall e :: e in entries ==> Generate(e, env).Ok?
  }

  /** All elements of all entries, in order. */
  function AllElements(entries: seq<Entry>, env: Env): seq<Params>
    requires AllGenerate(entries, env)
  {
    if entries == [] then []
    else Flat(Generate(entries[0], env).value) + AllElements(entries[1..], env)
  }

  /** The elements of the set are those of its entries, entry by entry and group by group. */
  lemma {:induction false} AllElementsMean(a: seq<Entry>, b: seq<Entry>, e: Entry, env: Env)
    requires AllGenerate(a, env) && AllGenerate(b, env) && Generate(e, env).Ok?
    ensures AllElements([], env) == [] && AllElements([e], env) == Flat(Generate(e, env).value)
    ensures AllGenerate(a + b, env) && AllElements(a + b, env) == AllElements(a, env) + AllElements(b, env)
    decreases |a|
  {
    assert [e][1..] == [];
    if a == [] {
      assert a + b == b;
    } else {
      assert (a + b)[0] == a[0] && (a + b)[1..] == a[1..] + b;
      AllElementsMean(a[1..], b, e, env);
      var head, mid, tail := Flat(Generate(a[0], env).value), AllElements(a[1..], env), AllElements(b, env);
      assert head + (mid + tail) == (head + mid) + tail;
    }
  }

  lemma {:induction false} PlansAreObtained(entries: seq<Entry>, ts: seq<Template>, env: Env)
    ensures AllObtained(Plans(entries, ts, env)) <==> AllGenerate(entries, env)
    ensures AllGenerate(entries, env) ==> Whole(Plans(entries, ts, env)) == Pairs(AllElements(entries, env), ts)
    decreases |entries|
  {
    if entries != [] {
      var head, rest, parts := EntryPairs(entries[0], ts, env), Plans(entries[1..], ts, env), Plans(entries, ts, env);
      PlansAreObtained(entries[1..], ts, env);
      assert entries == [entries[0]] + entries[1..];
      assert parts == [head] + rest && parts[1..] == rest;
      ObtainedOfCons(head, rest);
      assert head.Ok? <==> Generate(entries[0], env).Ok?;
      if AllGenerate(entries, env) {
        PairsOfConcat(Flat(Generate(entries[0], env).value), AllElements(entries[1..], env), ts);
      }
    }
  }

  /** Render succeeds exactly when every entry generates and every block renders; then its output is
      the concatenation of one block per (element, template) pair over all entries, and a block's
      ElementIndex is the pair's position in the whole stream. Otherwise nothing is returned. */
  lemma RenderIsFlatStream(entries: seq<Entry>, ts: seq<Template>, env: Env, block: Step<Pair, Unstructured, GenError>)
    ensures RenderEntries(entries, ts, 0, env, block).Ok? <==>
      AllGenerate(entries, env) && AllOk(Pairs(AllElements(entries, env), ts), 0, block)
    ensures RenderEntries(entries, ts, 0, env, block).Ok? ==>
      RenderEntries(entries, ts, 0, env, block)
      == Ok(Flat(Blocks(Pairs(AllElements(entries, env), ts), 0, block)))
  {
    PartsAreOneStream(Plans(entries, ts, env), 0, block);
    PlansAreObtained(entries, ts, env);
    if AllGenerate(entries, env) {
      ProcessIsFlat(Pairs(AllElements(entries, env), ts), 0, block);
    }
  }

  /** After a successful Render the interval is the least positive leaf interval of the whole tree:
      calculateInterval cannot fail, and no matrix gives up. */
  method IntervalAfterRender(entries: seq<Entry>, ts: seq<Template>, env: Env,
                             block: Step<Pair, Unstructured, GenError>)
    returns (interval: Result<int, GenError>)
    requires RenderEntries(entries, ts, 0, env, block).Ok?
    ensures interval.Ok? && IsLeastPositive(interval.value, Leaves(entries))
  {
    RenderIsFlatStream(entries, ts, env, block);
    forall e | e in entries
      ensures EntryEnabled(e, env.enabled)
           && (e.matrix.Some? ==> NestedEnabled(e.matrix.value.generators, env.nestedEnabled))
    {
      GeneratedMeansEnabled(e, env);
    }
    AllReportIfEnabled(entries, env.nestedEnabled);
    interval := CalculateInterval(entries, env.enabled, env.nestedEnabled);
    LeastPositiveMeans(Leaves(entries));
  }

  /** The counter's value at the pair of element e and template t. */
  function ElementIndex(e: nat, t: nat, ts: seq<Template>): nat {
    Times(e, |ts|) + t
  }

  lemma {:induction false} PairsCount(elements: seq<Params>, ts: seq<Template>)
    ensures |Pairs(elements, ts)| == Times(|elements|, |ts|)
  {
    if elements != [] {
      PairsOfCount(elements[0], ts);
      PairsCount(elements[1..], ts);
    }
  }

  /** Position n of the stream holds this pair. */
  predicate PairAt(elements: seq<Params>, ts: seq<Template>, n: nat, pair: Pair) {
    n < |Pairs(elements, ts)| && Pairs(elements, ts)[n] == pair
  }

  lemma PairOfFirst(elements: seq<Params>, ts: seq<Template>, t: nat)
    requires elements != [] && t < |ts|
    ensures PairAt(elements, ts, t, Pair(elements[0], ts[t]))
  {
    PairsOfCount(elements[0], ts);
  }

  /** The pairs of the elements after the first follow the first element's pairs. */
  lemma PairOfRest(elements: seq<Params>, ts: seq<Template>, n: nat, pair: Pair)
    requires elements != [] && PairAt(elements[1..], ts, n, pair)
    ensures PairAt(elements, ts, |ts| + n, pair)
  {
    PairsOfCount(elements[0], ts);
  }

  lemma NextElementIndex(e: nat, t: nat, ts: seq<Template>)
    ensures ElementIndex(0, t, ts) == t
    ensures ElementIndex(e + 1, t, ts) == |ts| + ElementIndex(e, t, ts)
  {
  }

  lemma {:induction false} PairIsAt(elements: seq<Params>, ts: seq<Template>, e: nat, t: nat, pair: Pair, n: nat)
    requires e < |elements| && t < |ts| && pair == Pair(elements[e], ts[t]) && n == ElementIndex(e, t, ts)
    ensures PairAt(elements, ts, n, pair)
    decreases e
  {
    if e == 0 {
      NextElementIndex(0, t, ts);
      PairOfFirst(elements, ts, t);
    } else {
      NextElementIndex(e - 1, t, ts);
      PairIsAt(elements[1..], ts, e - 1, t, pair, n - |ts|);
      PairOfRest(elements, ts, n - |ts|, pair);
    }
  }

  /** Element e with template t is the stream's pair number e times the number of templates plus t. */
  lemma PairPosition(elements: seq<Params>, ts: seq<Template>, e: nat, t: nat)
    requires e < |elements| && t < |ts|
    ensures PairAt(elements, ts, e * |ts| + t, Pair(elements[e], ts[t]))
  {
    TimesIsProduct(e, |ts|);
    PairIsAt(elements, ts, e, t, Pair(elements[e], ts[t]), ElementIndex(e, t, ts));
  }

  /** The documentation calls ElementIndex the index into the generated elements. The counter advances
      per template, so that holds for all pairs exactly when there is at most one template, or nothing
      is generated. */
  lemma ElementIndexIsElementNumberIff(elements: seq<Params>, ts: seq<Template>)
    ensures (forall e, t :: 0 <= e < |elements| && 0 <= t < |ts| ==> ElementIndex(e, t, ts) == e)
       <==> |ts| <= 1 || elements == []
  {
    if |ts| > 1 && elements != [] {
      assert Times(0, |ts|) == 0;
      assert ElementIndex(0, 1, ts) == 1;
    } else {
      forall e, t | 0 <= e < |elements| && 0 <= t < |ts| ensures ElementIndex(e, t, ts) == e {
        TimesIsProduct(e, |ts|);
      }
    }
  }
}
