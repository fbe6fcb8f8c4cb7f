/** What an entry yields, in terms of its own fields, the store and the answers of code outside: one group
    for every generator it sets, in the order of the struct, or the first error. */
module Yields {
  import opened Wrappers
  import opened Objects
  import opened Matrix
  import opened Grouping
  import opened Products
  import opened Generators

  // ---------- one generator ----------

  /** All elements, decoded, in order; or the error of the first that cannot be decoded. */
  ghost predicate DecodesTo(elements: seq<Result<Params, GenError>>, r: Generates) {
    match r
    case Ok(params) => |params| == |elements| && forall i :: 0 <= i < |elements| ==> elements[i] == Ok(params[i])
    case Err(e) => exists i :: FirstBad(elements, i, e)
  }

  ghost predicate FirstBad(elements: seq<Result<Params, GenError>>, i: int, e: GenError) {
    0 <= i < |elements| && elements[i] == Err(e) && forall j :: 0 <= j < i ==> elements[j].Ok?
  }

  lemma {:induction false} DecodeAllMeans(elements: seq<Result<Params, GenError>>)
    ensures DecodesTo(elements, DecodeAll(elements))
  {
    if elements != [] && elements[0].Err? {
      assert FirstBad(elements, 0, elements[0].error);
    } else if elements != [] {
      var rest := elements[1..];
      DecodeAllMeans(rest);
      if DecodeAll(rest).Err? {
        var i :| FirstBad(rest, i, DecodeAll(rest).error);
        assert FirstBad(elements, i + 1, DecodeAll(rest).error);
      }
    }
  }

  /** What the artifact of the repository of that name, in the set's namespace, holds: the given files if
      files are given, otherwise the given directories. */
  ghost predicate FetchesTo(g: RepositoryGenerator, repositories: Readings<Repository>, env: Env, r: Generates) {
    var key := Key(env.namespace, g.ref);
    if g.files.None? && g.directories.None? then r == Err(EmptyGitOpsSet)
    else if key !in repositories then r == Err(NotFound(key))
    else if repositories[key].Refused? then r == Err(Failed(repositories[key].reason))
    else if repositories[key].value.artifact.None? then r == Err(NoArtifact(key))
    else
      var artifact := repositories[key].value.artifact.value;
      r == if g.files.Some? then env.outside.parseFiles(artifact, g.files.value)
           else env.outside.parseDirectories(artifact, g.directories.value)
  }

  /** One element: the data of the object of that name in the set's namespace, as strings. */
  ghost predicate ReadsTo(objects: Readings<map<string, string>>, key: Key, r: Generates) {
    if key !in objects then r == Err(NotFound(key))
    else if objects[key].Refused? then r == Err(Failed(objects[key].reason))
    else
      var data := objects[key].value;
      && r.Ok? && |r.value| == 1 && r.value[0].Keys == data.Keys
      && forall k :: k in data ==> r.value[0][k] == Leaf(data[k])
  }

  ghost predicate ConfiguresTo(g: ConfigGenerator, env: Env, r: Generates) {
    var key := Key(env.namespace, g.name);
    && (g.kind == "ConfigMap" ==> ReadsTo(env.store.configMaps, key, r))
    && (g.kind == "Secret" ==> ReadsTo(env.store.secrets, key, r))
    && (g.kind != "ConfigMap" && g.kind != "Secret" ==> r == Err(UnknownKind(g.kind)))
  }

  /** The merges of one element from every generator, each once, in the order of the choices. */
  ghost predicate IsProductOf(results: seq<Params>, generated: seq<Generated>) {
    && (generated == [] ==> results == [])
    && (generated != [] ==>
          && (forall m :: m in results <==> exists ix :: IsMergeOf(m, generated, ix))
          && (forall p, q :: 0 <= p < q < |results| ==>
                results[p] != results[q] && ComesBefore(results[p], results[q], generated)))
  }

  ghost predicate ComesBefore(m: Params, other: Params, generated: seq<Generated>) {
    exists ix :: IsMergeOf(m, generated, ix) && PrecedesAll(ix, other, generated)
  }

  /** One map with a list for every given name, and one under "Matrix" for unnamed elements. */
  ghost predicate IsGroupingOf(results: seq<Params>, generated: seq<Generated>) {
    if generated == [] then results == []
    else
      var unnamed := exists g :: g in generated && g.name == "" && g.elements != [];
      && |results| == 1
      && (forall key :: key in results[0] <==>
            (key != "" && exists g :: g in generated && g.name == key) || (key == "Matrix" && unnamed))
      && (forall key :: key in results[0] ==>
            && results[0][key].Maps?
            && IsListOf(results[0][key].elements, if key == "Matrix" && unnamed then "" else key, generated))
  }

  /** What the nested generators of a matrix yield, multiplied or grouped. */
  ghost predicate MatrixYields(m: MatrixGenerator, env: Env, r: Generates) {
    match Gather(m.generators, env)
    case Err(e) => r == Err(e)
    case Ok(generated) =>
      r.Ok? && if m.singleElement then IsGroupingOf(r.value, generated) else IsProductOf(r.value, generated)
  }

  /** The generator of this kind that the entry sets yields r. */
  ghost predicate Yields(kind: Kind, e: Entry, env: Env, r: Generates) {
    match kind
    case ListKind => e.list.Some? && DecodesTo(e.list.value.elements, r)
    case PullRequestsKind =>
      e.pullRequests.Some?
      && r == env.outside.ask(PullRequestsKind, e.pullRequests.value.request, env.namespace, env.store)
    case GitRepositoryKind =>
      e.gitRepository.Some? && FetchesTo(e.gitRepository.value, env.store.gitRepositories, env, r)
    case OCIRepositoryKind =>
      e.ociRepository.Some? && FetchesTo(e.ociRepository.value, env.store.ociRepositories, env, r)
    case MatrixKind => e.matrix.Some? && MatrixYields(e.matrix.value, env, r)
    case ClusterKind =>
      e.cluster.Some? && r == env.outside.ask(ClusterKind, e.cluster.value.query, env.namespace, env.store)
    case APIClientKind =>
      e.apiClient.Some? && r == env.outside.ask(APIClientKind, e.apiClient.value.request, env.namespace, env.store)
    case ImagePolicyKind =>
      e.imagePolicy.Some? && r == env.outside.ask(ImagePolicyKind, e.imagePolicy.value.query, env.namespace, env.store)
    case ConfigKind => e.config.Some? && ConfiguresTo(e.config.value, env, r)
  }

  /** The entry sets a generator of this kind. */
  predicate Sets(kind: Kind, e: Entry) {
    match kind
    case ListKind => e.list.Some?
    case PullRequestsKind => e.pullRequests.Some?
    case GitRepositoryKind => e.gitRepository.Some?
    case OCIRepositoryKind => e.ociRepository.Some?
    case MatrixKind => e.matrix.Some?
    case ClusterKind => e.cluster.Some?
    case APIClientKind => e.apiClient.Some?
    case ImagePolicyKind => e.imagePolicy.Some?
    case ConfigKind => e.config.Some?
  }

  lemma ProductIsProduct(generated: seq<Generated>)
    requires forall g :: g in generated ==> g.elements != []
    ensures IsProductOf(Product(generated), generated)
  {
    if generated != [] {
      forall m ensures m in Product(generated) <==> exists ix :: IsMergeOf(m, generated, ix) {
        ResultIffMerge(generated, m);
      }
      forall p, q | 0 <= p < q < |Product(generated)|
        ensures Product(generated)[p] != Product(generated)[q]
        ensures ComesBefore(Product(generated)[p], Product(generated)[q], generated)
      {
        ResultsInOrder(generated, p, q);
      }
    }
  }

  lemma {:induction false} GatheredAreFilled(nested: seq<Nested>, env: Env)
    requires Gather(nested, env).Ok?
    ensures forall g :: g in Gather(nested, env).value ==> g.elements != []
  {
    if nested != [] {
      var kinds := Relevant(NestedFields(nested[0]), env.nestedEnabled).value;
      KindsAreFilled(nested[0].name, kinds, AsEntry(nested[0]), env);
      GatheredAreFilled(nested[1..], env);
    }
  }

  lemma {:induction false} KindsAreFilled(name: string, kinds: seq<Kind>, e: Entry, env: Env)
    requires GatherKinds(name, kinds, e, env).Ok?
    ensures forall g :: g in GatherKinds(name, kinds, e, env).value ==> g.elements != []
    decreases |kinds|
  {
    if kinds != [] { KindsAreFilled(name, kinds[1..], e, env); }
  }

  lemma MatrixMeans(m: MatrixGenerator, env: Env)
    ensures MatrixYields(m, env, FromMatrix(m, env))
  {
    var gathered := Gather(m.generators, env);
    if gathered.Ok? {
      GatheredAreFilled(m.generators, env);
      if m.singleElement { GroupedMeans(gathered.value); } else { ProductIsProduct(gathered.value); }
    }
  }

  lemma ConfigMeans(g: ConfigGenerator, env: Env)
    ensures ConfiguresTo(g, env, FromConfig(g, env))
  {
  }

  lemma OneYields(kind: Kind, e: Entry, env: Env)
    requires Sets(kind, e)
    ensures Yields(kind, e, env, GenerateOne(kind, e, env))
  {
    match kind
    case ListKind => DecodeAllMeans(e.list.value.elements);
    case MatrixKind => MatrixMeans(e.matrix.value, env);
    case ConfigKind => ConfigMeans(e.config.value, env);
    case _ =>
  }

  // ---------- a whole entry ----------

  /** Those of the kinds that the entry sets. */
  function Setting(kinds: seq<Kind>, e: Entry): seq<Kind> {
    if kinds == [] then []
    else Setting(kinds[..|kinds| - 1], e) + if Sets(kinds[|kinds| - 1], e) then [kinds[|kinds| - 1]] else []
  }

  /** The kinds an entry sets, in the order of the struct. */
  function SetKinds(e: Entry): seq<Kind> {
    Setting([ListKind, PullRequestsKind, GitRepositoryKind, OCIRepositoryKind, MatrixKind, ClusterKind, APIClientKind,
             ImagePolicyKind, ConfigKind], e)
  }

  /** The kinds an entry of a matrix sets, in the order of its struct. */
  function NestedSetKinds(n: Nested): seq<Kind> {
    Setting([ListKind, GitRepositoryKind, OCIRepositoryKind, PullRequestsKind, ClusterKind, APIClientKind,
             ImagePolicyKind, ConfigKind], AsEntry(n))
  }

  lemma {:induction false} SettingAreSet(kinds: seq<Kind>, e: Entry)
    ensures forall k :: k in Setting(kinds, e) <==> k in kinds && Sets(k, e)
    decreases |kinds|
  {
    if kinds != [] {
      SettingAreSet(kinds[..|kinds| - 1], e);
      assert kinds == kinds[..|kinds| - 1] + [kinds[|kinds| - 1]];
    }
  }

  /** The fields say of these kinds, in this order, whether the entry sets them. */
  ghost predicate Describe(fields: seq<Field>, kinds: seq<Kind>, e: Entry) {
    |fields| == |kinds| && forall i :: 0 <= i < |kinds| ==> fields[i] == Field(kinds[i], Sets(kinds[i], e))
  }

  lemma {:induction false} PresentIsSetting(fields: seq<Field>, kinds: seq<Kind>, e: Entry)
    requires Describe(fields, kinds, e)
    ensures Present(fields) == Setting(kinds, e)
    decreases |kinds|
  {
    if kinds != [] { PresentIsSetting(fields[..|kinds| - 1], kinds[..|kinds| - 1], e); }
  }

  lemma PresentInEntry(e: Entry)
    ensures Present(EntryFields(e)) == SetKinds(e)
  {
    PresentIsSetting(EntryFields(e), [ListKind, PullRequestsKind, GitRepositoryKind, OCIRepositoryKind, MatrixKind,
                                      ClusterKind, APIClientKind, ImagePolicyKind, ConfigKind], e);
  }

  lemma PresentInNested(n: Nested)
    ensures Present(NestedFields(n)) == NestedSetKinds(n)
  {
    PresentIsSetting(NestedFields(n), [ListKind, GitRepositoryKind, OCIRepositoryKind, PullRequestsKind, ClusterKind,
                                       APIClientKind, ImagePolicyKind, ConfigKind], AsEntry(n));
  }

  ghost predicate FirstDisabled(kinds: seq<Kind>, enabled: set<Kind>, i: int) {
    0 <= i < |kinds| && kinds[i] !in enabled && forall j :: 0 <= j < i ==> kinds[j] in enabled
  }

  /** Generator i is the first to fail, and fails with e. */
  ghost predicate FirstFailing(kinds: seq<Kind>, e: Entry, env: Env, i: int, err: GenError) {
    && 0 <= i < |kinds| && Yields(kinds[i], e, env, Err(err))
    && forall j :: 0 <= j < i ==> exists params :: Yields(kinds[j], e, env, Ok(params))
  }

  /** One group per generator, in order, or the first error. */
  ghost predicate EachYields(kinds: seq<Kind>, e: Entry, env: Env, r: Result<seq<seq<Params>>, GenError>) {
    match r
    case Ok(groups) => |groups| == |kinds| && forall i :: 0 <= i < |kinds| ==> Yields(kinds[i], e, env, Ok(groups[i]))
    case Err(err) => exists i :: FirstFailing(kinds, e, env, i, err)
  }

  /** One group per generator, in order; or the first error, where a disabled generator comes before all. */
  ghost predicate GroupsTo(kinds: seq<Kind>, enabled: set<Kind>, e: Entry, env: Env,
                           r: Result<seq<seq<Params>>, GenError>) {
    if exists k :: k in kinds && k !in enabled then
      exists i :: FirstDisabled(kinds, enabled, i) && r == Err(NotEnabled(kinds[i]))
    else EachYields(kinds, e, env, r)
  }

  lemma {:induction false} PresentOfCons(head: Field, rest: seq<Field>)
    ensures Present([head] + rest) == if head.present then [head.kind] + Present(rest) else Present(rest)
    decreases |rest|
  {
    if rest == [] {
      assert [head] + rest == [head] && [head][..0] == [];
    } else {
      var n := |rest| - 1;
      assert ([head] + rest)[..1 + n] == [head] + rest[..n];
      PresentOfCons(head, rest[..n]);
    }
  }

  lemma {:induction false} RelevantIfEnabled(fields: seq<Field>, enabled: set<Kind>)
    requires forall k :: k in Present(fields) ==> k in enabled
    ensures Relevant(fields, enabled) == Ok(Present(fields))
  {
    if |fields| > 0 {
      var head, rest := fields[0], fields[1..];
      assert fields == [head] + rest;
      PresentOfCons(head, rest);
      RelevantIfEnabled(rest, enabled);
    }
  }

  lemma {:induction false} RelevantIfDisabled(fields: seq<Field>, enabled: set<Kind>, i: nat)
    requires FirstDisabled(Present(fields), enabled, i)
    ensures Relevant(fields, enabled) == Err(NotEnabled(Present(fields)[i]))
  {
    if |fields| > 0 {
      var head, rest := fields[0], fields[1..];
      assert fields == [head] + rest;
      PresentOfCons(head, rest);
      if !head.present {
        RelevantIfDisabled(rest, enabled, i);
      } else if i > 0 {
        assert forall j :: 0 <= j < |Present(rest)| ==> Present(fields)[j + 1] == Present(rest)[j];
        assert FirstDisabled(Present(rest), enabled, i - 1);
        RelevantIfDisabled(rest, enabled, i - 1);
      }
    }
  }

  lemma {:induction false} FirstDisabledExists(kinds: seq<Kind>, enabled: set<Kind>) returns (i: nat)
    requires exists k :: k in kinds && k !in enabled
    ensures FirstDisabled(kinds, enabled, i)
    decreases |kinds|
  {
    var n := |kinds| - 1;
    if exists k :: k in kinds[..n] && k !in enabled {
      i := FirstDisabledExists(kinds[..n], enabled);
    } else {
      i := n;
      assert kinds == kinds[..n] + [kinds[n]];
      assert forall j :: 0 <= j < n ==> kinds[j] in kinds[..n];
    }
  }

  /** All present kinds if they are all enabled, otherwise an error for the first that is not. */
  lemma RelevantMeans(fields: seq<Field>, enabled: set<Kind>)
    ensures (forall k :: k in Present(fields) ==> k in enabled) ==> Relevant(fields, enabled) == Ok(Present(fields))
    ensures (exists k :: k in Present(fields) && k !in enabled) ==>
      exists i :: FirstDisabled(Present(fields), enabled, i)
               && Relevant(fields, enabled) == Err(NotEnabled(Present(fields)[i]))
  {
    if exists k :: k in Present(fields) && k !in enabled {
      var i := FirstDisabledExists(Present(fields), enabled);
      RelevantIfDisabled(fields, enabled, i);
    } else {
      RelevantIfEnabled(fields, enabled);
    }
  }

  lemma {:induction false} KindsYield(kinds: seq<Kind>, e: Entry, env: Env)
    requires forall k :: k in kinds ==> Sets(k, e)
    ensures EachYields(kinds, e, env, GenerateKinds(kinds, e, env))
    decreases |kinds|
  {
    if kinds != [] {
      var rest, r := kinds[1..], GenerateKinds(kinds, e, env);
      OneYields(kinds[0], e, env);
      KindsYield(rest, e, env);
      var head := GenerateOne(kinds[0], e, env);
      if head.Err? {
        assert r == Err(head.error);
        assert FirstFailing(kinds, e, env, 0, r.error);
      } else if r.Err? {
        var i :| FirstFailing(rest, e, env, i, r.error);
        assert Yields(kinds[0], e, env, Ok(head.value));
        assert forall j :: 0 < j < i + 1 ==> kinds[j] == rest[j - 1];
        assert FirstFailing(kinds, e, env, i + 1, r.error);
      }
    }
  }

  /** What an entry generates: one group for each generator it sets, in the order of the struct. */
  lemma GenerateMeans(e: Entry, env: Env)
    ensures GroupsTo(SetKinds(e), env.enabled, e, env, Generate(e, env))
  {
    var kinds := SetKinds(e);
    PresentInEntry(e);
    RelevantMeans(EntryFields(e), env.enabled);
    SettingAreSet([ListKind, PullRequestsKind, GitRepositoryKind, OCIRepositoryKind, MatrixKind, ClusterKind,
                   APIClientKind, ImagePolicyKind, ConfigKind], e);
    KindsYield(kinds, e, env);
  }

  lemma {:induction false} SettingOnlyOne(kinds: seq<Kind>, e: Entry, kind: Kind)
    requires forall k :: k in kinds && Sets(k, e) ==> k == kind
    requires forall i, j :: 0 <= i < j < |kinds| ==> kinds[i] != kinds[j]
    ensures Setting(kinds, e) == if kind in kinds && Sets(kind, e) then [kind] else []
    decreases |kinds|
  {
    if kinds != [] {
      SettingOnlyOne(kinds[..|kinds| - 1], e, kind);
      assert kinds == kinds[..|kinds| - 1] + [kinds[|kinds| - 1]];
    }
  }

  lemma OnlyOneIsSet(e: Entry, kind: Kind)
    requires Sets(kind, e) && forall k :: Sets(k, e) ==> k == kind
    ensures Present(EntryFields(e)) == [kind]
  {
    PresentInEntry(e);
    SettingOnlyOne([ListKind, PullRequestsKind, GitRepositoryKind, OCIRepositoryKind, MatrixKind, ClusterKind,
                    APIClientKind, ImagePolicyKind, ConfigKind], e, kind);
  }

  /** An entry that sets just one generator, which is enabled, generates what that generator yields. */
  lemma OnlyOneGenerator(e: Entry, env: Env, kind: Kind) returns (r: Generates)
    requires Sets(kind, e) && kind in env.enabled && forall k :: Sets(k, e) ==> k == kind
    ensures Yields(kind, e, env, r)
    ensures Generate(e, env) == if r.Ok? then Ok([r.value]) else Err(r.error)
  {
    r := GenerateOne(kind, e, env);
    OneYields(kind, e, env);
    OnlyOneIsSet(e, kind);
    RelevantMeans(EntryFields(e), env.enabled);
    assert [kind][1..] == [];
    if r.Ok? { JoinedTwice([r.value], [], GenerateKinds([], e, env)); }
  }

  // ---------- an entry of a matrix ----------

  /** The round trip keeps every field but the name and empty path lists. */
  lemma AsEntryMeans(n: Nested)
    ensures var e := AsEntry(n);
      && e.list == n.list && e.pullRequests == n.pullRequests && e.cluster == n.cluster && e.apiClient == n.apiClient
      && e.imagePolicy == n.imagePolicy && e.config == n.config && e.matrix.None?
      && KeptBut(n.gitRepository, e.gitRepository) && KeptBut(n.ociRepository, e.ociRepository)
  {
  }

  ghost predicate KeptBut(before: Option<RepositoryGenerator>, after: Option<RepositoryGenerator>) {
    && (before.None? <==> after.None?)
    && (before.Some? ==>
          && after.value.ref == before.value.ref
          && after.value.files == (if before.value.files == Some([]) then None else before.value.files)
          && after.value.directories == if before.value.directories == Some([]) then None else before.value.directories)
  }

  /** The groups that are not empty, under the entry's name. */
  function Named(name: string, groups: seq<seq<Params>>): seq<Generated> {
    if groups == [] then []
    else (if groups[0] == [] then [] else [Generated(name, groups[0])]) + Named(name, groups[1..])
  }

  /** What one entry of a matrix adds: its non-empty groups, in the order of its struct, under its name. */
  ghost predicate GathersTo(n: Nested, env: Env, r: Result<seq<Generated>, GenError>) {
    exists groups ::
      GroupsTo(NestedSetKinds(n), env.nestedEnabled, AsEntry(n), env, groups) && IsNamed(n.name, groups, r)
  }

  ghost predicate IsNamed(name: string, groups: Result<seq<seq<Params>>, GenError>,
                          r: Result<seq<Generated>, GenError>)
  {
    match groups
    case Ok(gs) => r == Ok(Named(name, gs))
    case Err(err) => r == Err(err)
  }

  lemma {:induction false} GatherKindsIsNamed(name: string, kinds: seq<Kind>, e: Entry, env: Env)
    requires MatrixKind !in kinds
    ensures IsNamed(name, GenerateKinds(kinds, e, env), GatherKinds(name, kinds, e, env))
    decreases |kinds|
  {
    if kinds != [] {
      GatherKindsIsNamed(name, kinds[1..], e, env);
      if GenerateKinds(kinds, e, env).Ok? {
        assert GenerateKinds(kinds, e, env).value[1..] == GenerateKinds(kinds[1..], e, env).value;
      }
    }
  }

  lemma GatherOneMeans(n: Nested, env: Env)
    ensures GathersTo(n, env, Gather([n], env))
  {
    var kinds, e := NestedSetKinds(n), AsEntry(n);
    PresentInNested(n);
    RelevantMeans(NestedFields(n), env.nestedEnabled);
    SettingAreSet([ListKind, GitRepositoryKind, OCIRepositoryKind, PullRequestsKind, ClusterKind, APIClientKind,
                   ImagePolicyKind, ConfigKind], e);
    assert [n][1..] == [];
    JoinedWithNothing(n, env);
    if forall k :: k in kinds ==> k in env.nestedEnabled {
      KindsYield(kinds, e, env);
      GatherKindsIsNamed(n.name, kinds, e, env);
      assert GroupsTo(kinds, env.nestedEnabled, e, env, GenerateKinds(kinds, e, env));
    } else {
      var err := Relevant(NestedFields(n), env.nestedEnabled).error;
      assert GroupsTo(kinds, env.nestedEnabled, e, env, Err(err));
    }
  }

  lemma JoinedWithNothing(n: Nested, env: Env)
    ensures Gather([n], env) == GatherNested(n, env)
  {
    assert [n][1..] == [];
    if GatherNested(n, env).Ok? {
      JoinedTwice(GatherNested(n, env).value, [], Gather([], env));
    }
  }

  /** Matrix entries are gathered one after the other. */
  lemma {:induction false} GatherOfConcat(a: seq<Nested>, b: seq<Nested>, env: Env)
    ensures Gather([], env) == Ok([])
    ensures Gather(a + b, env)
         == if Gather(a, env).Err? then Gather(a, env) else Joined(Gather(a, env).value, Gather(b, env))
    decreases |a|
  {
    if a == [] {
      assert a + b == b;
      JoinedTwice([], [], Gather(b, env));
    } else {
      assert (a + b)[0] == a[0] && (a + b)[1..] == a[1..] + b;
      GatherOfConcat(a[1..], b, env);
      var head, rest := GatherNested(a[0], env), Gather(a[1..], env);
      if head.Ok? && rest.Ok? { JoinedTwice(head.value, rest.value, Gather(b, env)); }
    }
  }
}
