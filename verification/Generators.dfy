/** Generators: the optional fields of a generator entry, which of them are relevant, and what each yields
    from the store. */
module Generators {
  import opened Wrappers
  import opened Objects
  import opened Matrix
  import opened Grouping

  datatype Kind =
    | ListKind | PullRequestsKind | GitRepositoryKind | OCIRepositoryKind | MatrixKind
    | ClusterKind | APIClientKind | ImagePolicyKind | ConfigKind

  datatype Key = Key(namespace: string, name: string)

  datatype GenError =
    | NotEnabled(kind: Kind)
    | EmptyGitOpsSet
    | NotFound(key: Key)
    | NoArtifact(key: Key)
    | UnknownKind(kindName: string)
    | Failed(reason: string)

  type Generates = Result<seq<Params>, GenError>

  /** Elements as decoded, each of which may be malformed. */
  datatype ListGenerator = ListGenerator(elements: seq<Result<Params, GenError>>)
  datatype RepositoryGenerator =
    RepositoryGenerator(ref: string, files: Option<seq<string>>, directories: Option<seq<string>>)
  datatype ConfigGenerator = ConfigGenerator(kind: string, name: string)
  datatype PolledGenerator = PolledGenerator(interval: int, request: Value)
  datatype QueryGenerator = QueryGenerator(query: Value)

  /** An entry of a matrix, its fields in the order of the struct. */
  datatype Nested = Nested(
    name: string,
    list: Option<ListGenerator>, gitRepository: Option<RepositoryGenerator>, ociRepository: Option<RepositoryGenerator>,
    pullRequests: Option<PolledGenerator>, cluster: Option<QueryGenerator>, apiClient: Option<PolledGenerator>,
    imagePolicy: Option<QueryGenerator>, config: Option<ConfigGenerator>)

  datatype MatrixGenerator = MatrixGenerator(generators: seq<Nested>, singleElement: bool)

  /** A top-level entry, its fields in the order of the struct. */
  datatype Entry = Entry(
    list: Option<ListGenerator>, pullRequests: Option<PolledGenerator>, gitRepository: Option<RepositoryGenerator>,
    ociRepository: Option<RepositoryGenerator>, matrix: Option<MatrixGenerator>, cluster: Option<QueryGenerator>,
    apiClient: Option<PolledGenerator>, imagePolicy: Option<QueryGenerator>, config: Option<ConfigGenerator>)

  datatype Field = Field(kind: Kind, present: bool)

  function NestedFields(n: Nested): seq<Field> {
    [Field(ListKind, n.list.Some?), Field(GitRepositoryKind, n.gitRepository.Some?),
     Field(OCIRepositoryKind, n.ociRepository.Some?), Field(PullRequestsKind, n.pullRequests.Some?),
     Field(ClusterKind, n.cluster.Some?), Field(APIClientKind, n.apiClient.Some?),
     Field(ImagePolicyKind, n.imagePolicy.Some?), Field(ConfigKind, n.config.Some?)]
  }

  function EntryFields(e: Entry): seq<Field> {
    [Field(ListKind, e.list.Some?), Field(PullRequestsKind, e.pullRequests.Some?),
     Field(GitRepositoryKind, e.gitRepository.Some?), Field(OCIRepositoryKind, e.ociRepository.Some?),
     Field(MatrixKind, e.matrix.Some?), Field(ClusterKind, e.cluster.Some?),
     Field(APIClientKind, e.apiClient.Some?), Field(ImagePolicyKind, e.imagePolicy.Some?),
     Field(ConfigKind, e.config.Some?)]
  }

  // ---------- FindRelevantGenerators ----------

  /** The kinds of the set fields, in order. */
  function Present(fields: seq<Field>): seq<Kind> {
    if fields == [] then []
    else Present(fields[..|fields| - 1]) + if fields[|fields| - 1].present then [fields[|fields| - 1].kind] else []
  }

  /** All set fields if all of them are enabled, otherwise an error for the first that is not. */
  ghost predicate IsRelevant(fields: seq<Field>, enabled: set<Kind>, r: Result<seq<Kind>, GenError>) {
    match r
    case Ok(kinds) => kinds == Present(fields) && forall f :: f in fields && f.present ==> f.kind in enabled
    case Err(e) => exists i :: 0 <= i < |fields| && fields[i].present && fields[i].kind !in enabled
                     && e == NotEnabled(fields[i].kind)
                     && forall j :: 0 <= j < i && fields[j].present ==> fields[j].kind in enabled
  }

  method FindRelevantGenerators(fields: seq<Field>, enabled: set<Kind>) returns (r: Result<seq<Kind>, GenError>)
    ensures IsRelevant(fields, enabled, r)
    ensures r == Relevant(fields, enabled)
  {
    var res: seq<Kind> := [];
    JoinedTwice([], [], Relevant(fields, enabled));
    assert fields[0..] == fields;
    for i := 0 to |fields|
      invariant res == Present(fields[..i])
      invariant forall j :: 0 <= j < i && fields[j].present ==> fields[j].kind in enabled
      invariant Relevant(fields, enabled) == Joined(res, Relevant(fields[i..], enabled))
    {
      assert fields[..i + 1][..i] == fields[..i];
      assert fields[i..][1..] == fields[i + 1..];
      if fields[i].present {
        if fields[i].kind !in enabled { return Err(NotEnabled(fields[i].kind)); }
        JoinedTwice(res, [fields[i].kind], Relevant(fields[i + 1..], enabled));
        res := res + [fields[i].kind];
        continue;
      }
    }
    assert fields[..|fields|] == fields;
    JoinedTwice(res, [], Relevant([], enabled));
    return Ok(res);
  }

  function Relevant(fields: seq<Field>, enabled: set<Kind>): Result<seq<Kind>, GenError> {
    if fields == [] then Ok([])
    else if !fields[0].present then Relevant(fields[1..], enabled)
    else if fields[0].kind !in enabled then Err(NotEnabled(fields[0].kind))
    else Joined([fields[0].kind], Relevant(fields[1..], enabled))
  }

  // ---------- what each generator yields ----------

  datatype Artifact = Artifact(url: string, digest: string)
  datatype Repository = Repository(artifact: Option<Artifact>)

  /** What a Get of an object that is there comes to: the object, or any error but NotFound. */
  datatype Reading<+V> = Refused(reason: string) | Found(value: V)

  type Readings<V> = map<Key, Reading<V>>

  /** The objects a render may read, each with the fate of its Get. */
  datatype Store = Store(gitRepositories: Readings<Repository>, ociRepositories: Readings<Repository>,
                         configMaps: Readings<map<string, string>>, secrets: Readings<map<string, string>>)

  function Get<V>(objects: Readings<V>, key: Key): Result<V, GenError> {
    if key !in objects then Err(NotFound(key))
    else
      match objects[key]
      case Refused(reason) => Err(Failed(reason))
      case Found(value) => Ok(value)
  }

  /** Code outside the model: archive parsing is determined by the artifact and the paths; polled and
      queried generators may look at anything. */
  datatype Outside = Outside(
    parseFiles: (Artifact, seq<string>) -> Generates,
    parseDirectories: (Artifact, seq<string>) -> Generates,
    ask: (Kind, Value, string, Store) -> Generates)

  /** Everything a generation depends on besides the entry. */
  datatype Env = Env(namespace: string, store: Store, outside: Outside, enabled: set<Kind>, nestedEnabled: set<Kind>)

  function DecodeAll(elements: seq<Result<Params, GenError>>): Generates {
    if elements == [] then Ok([])
    else if elements[0].Err? then Err(elements[0].error)
    else Joined([elements[0].value], DecodeAll(elements[1..]))
  }

  function LoadRepository(repositories: Readings<Repository>, key: Key): Result<Artifact, GenError> {
    match Get(repositories, key)
    case Err(e) => Err(e)
    case Ok(repository) =>
      if repository.artifact.None? then Err(NoArtifact(key)) else Ok(repository.artifact.value)
  }

  function FromRepository(g: RepositoryGenerator, repositories: Readings<Repository>, env: Env): Generates {
    var key := Key(env.namespace, g.ref);
    if g.files.Some? then
      match LoadRepository(repositories, key)
      case Err(e) => Err(e)
      case Ok(artifact) => env.outside.parseFiles(artifact, g.files.value)
    else if g.directories.Some? then
      match LoadRepository(repositories, key)
      case Err(e) => Err(e)
      case Ok(artifact) => env.outside.parseDirectories(artifact, g.directories.value)
    else Err(EmptyGitOpsSet)
  }

  function FromConfig(g: ConfigGenerator, env: Env): Generates {
    var key := Key(env.namespace, g.name);
    if g.kind == "ConfigMap" then FromData(env.store.configMaps, key)
    else if g.kind == "Secret" then FromData(env.store.secrets, key)
    else Err(UnknownKind(g.kind))
  }

  function FromData(objects: Readings<map<string, string>>, key: Key): Generates {
    match Get(objects, key)
    case Err(e) => Err(e)
    case Ok(data) => Ok([AnyMap(data)])
  }

  /** Every data value becomes a string value under its key. */
  function AnyMap(data: map<string, string>): Params {
    map k | k in data :: Leaf(data[k])
  }

  method MapToAnyMap(data: map<string, string>) returns (result: Params)
    ensures result == AnyMap(data)
  {
    result := map[];
    var todo := data.Keys;
    while todo != {}
      invariant todo <= data.Keys
      invariant result == map k | k in data && k !in todo :: Leaf(data[k])
      decreases todo
    {
      var k :| k in todo;
      result := result[k := Leaf(data[k])];
      todo := todo - {k};
    }
  }

  /** The Config generator. */
  method GenerateConfig(g: ConfigGenerator, env: Env) returns (r: Generates)
    ensures r == FromConfig(g, env)
  {
    var key := Key(env.namespace, g.name);
    var paramsList: seq<Params> := [];
    if g.kind == "ConfigMap" {
      var data := Get(env.store.configMaps, key);
      if data.Err? { return Err(data.error); }
      var params := MapToAnyMap(data.value);
      paramsList := paramsList + [params];
      assert paramsList == [params];
    } else if g.kind == "Secret" {
      var data := Get(env.store.secrets, key);
      if data.Err? { return Err(data.error); }
      var params := MapToAnyMap(data.value);
      paramsList := paramsList + [params];
      assert paramsList == [params];
    } else {
      return Err(UnknownKind(g.kind));
    }
    return Ok(paramsList);
  }

  /** One generator of an entry other than its matrix. */
  function GenerateLeaf(kind: Kind, e: Entry, env: Env): Generates {
    match kind
    case ListKind => if e.list.Some? then DecodeAll(e.list.value.elements) else Ok([])
    case GitRepositoryKind =>
      if e.gitRepository.Some? then FromRepository(e.gitRepository.value, env.store.gitRepositories, env) else Ok([])
    case OCIRepositoryKind =>
      if e.ociRepository.Some? then FromRepository(e.ociRepository.value, env.store.ociRepositories, env) else Ok([])
    case ConfigKind => if e.config.Some? then FromConfig(e.config.value, env) else Ok([])
    case PullRequestsKind =>
      if e.pullRequests.Some? then env.outside.ask(kind, e.pullRequests.value.request, env.namespace, env.store)
      else Ok([])
    case APIClientKind =>
      if e.apiClient.Some? then env.outside.ask(kind, e.apiClient.value.request, env.namespace, env.store) else Ok([])
    case ClusterKind =>
      if e.cluster.Some? then env.outside.ask(kind, e.cluster.value.query, env.namespace, env.store) else Ok([])
    case ImagePolicyKind =>
      if e.imagePolicy.Some? then env.outside.ask(kind, e.imagePolicy.value.query, env.namespace, env.store) else Ok([])
    case MatrixKind => Ok([])
  }

  // ---------- the matrix generator ----------

  /** The JSON round trip that makes an entry of a nested generator: the name is dropped, and empty
      path lists, which are omitted when empty, come back as absent. */
  function AsEntry(n: Nested): Entry {
    Entry(n.list, n.pullRequests, OmitEmpty(n.gitRepository), OmitEmpty(n.ociRepository), None, n.cluster,
          n.apiClient, n.imagePolicy, n.config)
  }

  function OmitEmpty(g: Option<RepositoryGenerator>): Option<RepositoryGenerator> {
    if g.None? then None
    else
      var r := g.value;
      Some(r.(files := if r.files == Some([]) then None else r.files,
              directories := if r.directories == Some([]) then None else r.directories))
  }

  /** The round trip keeps this generator: no empty path list decides what it does. */
  predicate SurvivesRoundTrip(g: RepositoryGenerator) {
    g.files != Some([]) && (g.files.None? ==> g.directories != Some([]))
  }

  /** The same generator, set at the top level and nested in a matrix. */
  ghost predicate NestedAsTopLevel(g: RepositoryGenerator, repositories: Readings<Repository>, env: Env) {
    FromRepository(OmitEmpty(Some(g)).value, repositories, env) == FromRepository(g, repositories, env)
  }

  /** An environment that tells parsing files from parsing directories. */
  function Telling(ref: string): (env: Env)
    ensures env.store.gitRepositories == map[Key("", ref) := Found(Repository(Some(Artifact("", ""))))]
  {
    var parsed := Outside((_, _) => Ok([]), (_, _) => Err(Failed("directories")), (_, _, _, _) => Ok([]));
    Env("", Store(map[Key("", ref) := Found(Repository(Some(Artifact("", ""))))], map[], map[], map[]), parsed, {}, {})
  }

  /** A nested repository generator yields what the same top-level one yields, in every environment, if
      and only if its files are not an empty list, nor its directories one while it has no files. */
  lemma NestedIsTopLevelIff(g: RepositoryGenerator)
    ensures (forall repositories, env :: NestedAsTopLevel(g, repositories, env)) <==> SurvivesRoundTrip(g)
  {
    if !SurvivesRoundTrip(g) {
      assert !NestedAsTopLevel(g, Telling(g.ref).store.gitRepositories, Telling(g.ref));
    } else {
      var h := OmitEmpty(Some(g)).value;
      assert h.files == g.files && h.ref == g.ref;
      assert g.files.None? ==> h.directories == g.directories;
    }
  }

  /** For example, with an empty list of files and some directories, the top-level generator parses no
      files and the nested one parses the directories. */
  lemma EmptyFilesFallThrough()
    ensures var g, env := RepositoryGenerator("repo", Some([]), Some(["*"])), Telling("repo");
      && FromRepository(g, env.store.gitRepositories, env) == Ok([])
      && FromRepository(OmitEmpty(Some(g)).value, env.store.gitRepositories, env) == Err(Failed("directories"))
  {
  }

  /** One nested entry: its relevant generators in order, keeping those that yield something. */
  function GatherKinds(name: string, kinds: seq<Kind>, e: Entry, env: Env): Result<seq<Generated>, GenError> {
    if kinds == [] then Ok([])
    else
      match GenerateLeaf(kinds[0], e, env)
      case Err(err) => Err(err)
      case Ok(res) =>
        Joined(if res == [] then [] else [Generated(name, res)], GatherKinds(name, kinds[1..], e, env))
  }

  function GatherNested(n: Nested, env: Env): Result<seq<Generated>, GenError> {
    match Relevant(NestedFields(n), env.nestedEnabled)
    case Err(err) => Err(err)
    case Ok(kinds) => GatherKinds(n.name, kinds, AsEntry(n), env)
  }

  function Gather(nested: seq<Nested>, env: Env): Result<seq<Generated>, GenError> {
    if nested == [] then Ok([])
    else
      match GatherNested(nested[0], env)
      case Err(err) => Err(err)
      case Ok(head) => Joined(head, Gather(nested[1..], env))
  }

  /** generate: loops over the nested entries and their relevant generators. */
  method GatherLoop(nested: seq<Nested>, env: Env) returns (r: Result<seq<Generated>, GenError>)
    ensures r == Gather(nested, env)
    ensures r.Ok? ==> forall g :: g in r.value ==> g.elements != []
  {
    var generated: seq<Generated> := [];
    JoinedTwice([], [], Gather(nested, env));
    assert nested[0..] == nested;
    for i := 0 to |nested|
      invariant Gather(nested, env) == Joined(generated, Gather(nested[i..], env))
      invariant forall g :: g in generated ==> g.elements != []
    {
      assert nested[i..][1..] == nested[i + 1..];
      var relevant := FindRelevantGenerators(NestedFields(nested[i]), env.nestedEnabled);
      if relevant.Err? { return Err(relevant.error); }
      var own := GatherKindsLoop(nested[i].name, relevant.value, AsEntry(nested[i]), env);
      if own.Err? { return Err(own.error); }
      JoinedTwice(generated, own.value, Gather(nested[i + 1..], env));
      generated := generated + own.value;
    }
    JoinedTwice(generated, [], Gather([], env));
    return Ok(generated);
  }

  /** The inner loop of generate. */
  method GatherKindsLoop(name: string, kinds: seq<Kind>, e: Entry, env: Env)
    returns (r: Result<seq<Generated>, GenError>)
    ensures r == GatherKinds(name, kinds, e, env)
    ensures r.Ok? ==> forall g :: g in r.value ==> g.elements != []
  {
    var generated: seq<Generated> := [];
    JoinedTwice([], [], GatherKinds(name, kinds, e, env));
    assert kinds[0..] == kinds;
    for k := 0 to |kinds|
      invariant GatherKinds(name, kinds, e, env) == Joined(generated, GatherKinds(name, kinds[k..], e, env))
      invariant forall g :: g in generated ==> g.elements != []
    {
      assert kinds[k..][1..] == kinds[k + 1..];
      var res := GenerateLeaf(kinds[k], e, env);
      if res.Err? { return Err(res.error); }
      JoinedTwice(generated, if res.value == [] then [] else [Generated(name, res.value)],
                  GatherKinds(name, kinds[k + 1..], e, env));
      if |res.value| > 0 {
        generated := generated + [Generated(name, res.value)];
      }
    }
    JoinedTwice(generated, [], GatherKinds(name, [], e, env));
    return Ok(generated);
  }

  function FromMatrix(m: MatrixGenerator, env: Env): Generates {
    match Gather(m.generators, env)
    case Err(err) => Err(err)
    case Ok(generated) =>
      if m.singleElement then Ok(if generated == [] then [] else [Grouped(generated)])
      else Ok(Product(generated))
  }

  /** MatrixGenerator.Generate. The product's caller never passes an empty slice. */
  method GenerateMatrix(m: MatrixGenerator, env: Env) returns (r: Generates)
    requires var g := Gather(m.generators, env); g.Ok? && !m.singleElement ==> MapsStayApart(Slices(g.value))
    ensures r == FromMatrix(m, env)
  {
    var generated := GatherLoop(m.generators, env);
    if generated.Err? { return Err(generated.error); }
    if m.singleElement {
      var single := SingleElement(generated.value);
      return Ok(single);
    }
    var product := Cartesian(generated.value);
    return Ok(product);
  }

  // ---------- one top-level entry ----------

  function GenerateOne(kind: Kind, e: Entry, env: Env): Generates {
    if kind == MatrixKind then (if e.matrix.Some? then FromMatrix(e.matrix.value, env) else Ok([]))
    else GenerateLeaf(kind, e, env)
  }

  function GenerateKinds(kinds: seq<Kind>, e: Entry, env: Env): Result<seq<seq<Params>>, GenError> {
    if kinds == [] then Ok([])
    else
      match GenerateOne(kinds[0], e, env)
      case Err(err) => Err(err)
      case Ok(res) => Joined([res], GenerateKinds(kinds[1..], e, env))
  }

  /** The renderer's generate: one group of elements per relevant generator. */
  function Generate(e: Entry, env: Env): Result<seq<seq<Params>>, GenError> {
    match Relevant(EntryFields(e), env.enabled)
    case Err(err) => Err(err)
    case Ok(kinds) => GenerateKinds(kinds, e, env)
  }
}
