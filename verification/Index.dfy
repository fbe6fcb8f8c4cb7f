/** The field indexes and the watches: what Render reads from the store is indexed, so a change that
    enqueues nothing cannot change a render. */
module Index {
  import opened Wrappers
  import opened Objects
  import opened Generators
  import opened Stream
  import opened Render

  /** The kinds of object a render may read from the store. */
  datatype Source = GitRepositories | OCIRepositories | ConfigMaps | Secrets

  function KeyString(key: Key): string {
    key.namespace + "/" + key.name
  }

  // ---------- references ----------

  function RefOf(g: Option<RepositoryGenerator>): seq<string> {
    if g.Some? then [g.value.ref] else []
  }

  function ConfigRefOf(g: Option<ConfigGenerator>, kind: string): seq<string> {
    if g.Some? && g.value.kind == kind then [g.value.name] else []
  }

  /** The name a nested entry refers to, if it uses this source. */
  function NestedRefs(source: Source, n: Nested): seq<string> {
    match source
    case GitRepositories => RefOf(n.gitRepository)
    case OCIRepositories => RefOf(n.ociRepository)
    case ConfigMaps => ConfigRefOf(n.config, "ConfigMap")
    case Secrets => ConfigRefOf(n.config, "Secret")
  }

  function OwnRefs(source: Source, e: Entry): seq<string> {
    match source
    case GitRepositories => RefOf(e.gitRepository)
    case OCIRepositories => RefOf(e.ociRepository)
    case ConfigMaps => ConfigRefOf(e.config, "ConfigMap")
    case Secrets => ConfigRefOf(e.config, "Secret")
  }

  function AllNestedRefs(source: Source, nested: seq<Nested>): seq<string> {
    if nested == [] then []
    else AllNestedRefs(source, nested[..|nested| - 1]) + NestedRefs(source, nested[|nested| - 1])
  }

  function EntryRefs(source: Source, e: Entry): seq<string> {
    OwnRefs(source, e) + if e.matrix.Some? then AllNestedRefs(source, e.matrix.value.generators) else []
  }

  function Refs(source: Source, entries: seq<Entry>): seq<string> {
    if entries == [] then [] else Refs(source, entries[..|entries| - 1]) + EntryRefs(source, entries[|entries| - 1])
  }

  /** The index values of a set: its references, printed with its namespace. */
  function Indexed(source: Source, namespace: string, entries: seq<Entry>): seq<string> {
    var refs := Refs(source, entries);
    seq(|refs|, i requires 0 <= i < |refs| => KeyString(Key(namespace, refs[i])))
  }

  // ---------- the indexing loops ----------

  /** The generators refer to an object of this source by this name. */
  predicate Names(source: Source, git: Option<RepositoryGenerator>, oci: Option<RepositoryGenerator>,
                  config: Option<ConfigGenerator>, name: string)
  {
    match source
    case GitRepositories => git.Some? && git.value.ref == name
    case OCIRepositories => oci.Some? && oci.value.ref == name
    case ConfigMaps => config.Some? && config.value.kind == "ConfigMap" && config.value.name == name
    case Secrets => config.Some? && config.value.kind == "Secret" && config.value.name == name
  }

  /** An entry names the object itself, or an entry of its matrix does. */
  ghost predicate EntryNames(source: Source, e: Entry, name: string) {
    || Names(source, e.gitRepository, e.ociRepository, e.config, name)
    || (e.matrix.Some?
        && exists n :: n in e.matrix.value.generators
                    && Names(source, n.gitRepository, n.ociRepository, n.config, name))
  }

  lemma {:induction false} NestedRefsMean(source: Source, nested: seq<Nested>, name: string)
    ensures name in AllNestedRefs(source, nested) <==>
      exists n :: n in nested && Names(source, n.gitRepository, n.ociRepository, n.config, name)
    decreases |nested|
  {
    if nested != [] {
      var init, last := nested[..|nested| - 1], nested[|nested| - 1];
      assert nested == init + [last];
      NestedRefsMean(source, init, name);
    }
  }

  lemma EntryRefsMean(source: Source, e: Entry, name: string)
    ensures name in EntryRefs(source, e) <==> EntryNames(source, e, name)
  {
    if e.matrix.Some? { NestedRefsMean(source, e.matrix.value.generators, name); }
  }

  /** A set refers to exactly the names that its generators use for objects of the source. */
  lemma {:induction false} RefsMean(source: Source, entries: seq<Entry>, name: string)
    ensures name in Refs(source, entries) <==> exists e :: e in entries && EntryNames(source, e, name)
    decreases |entries|
  {
    if entries != [] {
      var init, last := entries[..|entries| - 1], entries[|entries| - 1];
      assert entries == init + [last];
      RefsMean(source, init, name);
      EntryRefsMean(source, last, name);
    }
  }

  method CollectNested(source: Source, nested: seq<Nested>, referenced: seq<string>) returns (more: seq<string>)
    ensures more == referenced + AllNestedRefs(source, nested)
  {
    more := referenced;
    for k := 0 to |nested|
      invariant more == referenced + AllNestedRefs(source, nested[..k])
    {
      assert nested[..k + 1][..k] == nested[..k];
      more := more + NestedRefs(source, nested[k]);
    }
    assert nested[..|nested|] == nested;
  }

  method CollectEntryReferences(source: Source, e: Entry) returns (own: seq<string>)
    ensures own == EntryRefs(source, e)
  {
    own := OwnRefs(source, e);
    if e.matrix.Some? {
      own := CollectNested(source, e.matrix.value.generators, own);
    }
  }

  method CollectReferences(source: Source, entries: seq<Entry>) returns (referenced: seq<string>)
    ensures referenced == Refs(source, entries)
  {
    referenced := [];
    for i := 0 to |entries|
      invariant referenced == Refs(source, entries[..i])
    {
      assert entries[..i + 1][..i] == entries[..i];
      var own := CollectEntryReferences(source, entries[i]);
      referenced := referenced + own;
    }
    assert entries[..|entries|] == entries;
  }

  method IndexReferences(source: Source, namespace: string, entries: seq<Entry>) returns (referencedNames: seq<string>)
    ensures referencedNames == Indexed(source, namespace, entries)
  {
    var referenced := CollectReferences(source, entries);
    if |referenced| == 0 { return []; }
    referencedNames := [];
    for i := 0 to |referenced|
      invariant referencedNames == Indexed(source, namespace, entries)[..i]
    {
      referencedNames := referencedNames + [KeyString(Key(namespace, referenced[i]))];
    }
  }

  /** A stored set, as far as the index and the renderer see it. */
  datatype StoredSet = StoredSet(name: string, namespace: string, entries: seq<Entry>)

  /** The sets that a query for an object returns: in its namespace and indexed under its key. */
  predicate Matches(source: Source, obj: Key, s: StoredSet) {
    s.namespace == obj.namespace && KeyString(obj) in Indexed(source, s.namespace, s.entries)
  }

  method QueryIndexed(source: Source, obj: Key, all: seq<StoredSet>) returns (requests: seq<Key>)
    ensures forall k :: k in requests <==>
      exists s :: s in all && Matches(source, obj, s) && k == Key(s.namespace, s.name)
  {
    requests := [];
    for i := 0 to |all|
      invariant forall k :: k in requests <==>
        exists j :: 0 <= j < i && Matches(source, obj, all[j]) && k == Key(all[j].namespace, all[j].name)
    {
      var names := IndexReferences(source, all[i].namespace, all[i].entries);
      if all[i].namespace == obj.namespace && KeyString(obj) in names {
        requests := requests + [Key(all[i].namespace, all[i].name)];
      }
    }
  }

  /** A query returns exactly the sets in the object's namespace that refer to it by name. */
  lemma MatchesIffReferenced(source: Source, obj: Key, s: StoredSet)
    ensures Matches(source, obj, s) <==> s.namespace == obj.namespace && obj.name in Refs(source, s.entries)
  {
    var refs, names := Refs(source, s.entries), Indexed(source, s.namespace, s.entries);
    if s.namespace == obj.namespace {
      if obj.name in refs {
        var i :| 0 <= i < |refs| && refs[i] == obj.name;
        assert names[i] == KeyString(obj);
      }
      if KeyString(obj) in names {
        var i :| 0 <= i < |names| && names[i] == KeyString(obj);
        SamePrefix(obj.namespace + "/", refs[i], obj.name);
      }
    }
  }

  lemma SamePrefix(prefix: string, a: string, b: string)
    requires prefix + a == prefix + b
    ensures a == b
  {
    assert (prefix + a)[|prefix|..] == a;
    assert (prefix + b)[|prefix|..] == b;
  }

  // ---------- the index covers all reads ----------

  /** Two stores agree on an object, present or not, and on whether it can be read. */
  ghost predicate AgreeOn(source: Source, key: Key, a: Store, b: Store) {
    match source
    case GitRepositories => Same(a.gitRepositories, b.gitRepositories, key)
    case OCIRepositories => Same(a.ociRepositories, b.ociRepositories, key)
    case ConfigMaps => Same(a.configMaps, b.configMaps, key)
    case Secrets => Same(a.secrets, b.secrets, key)
  }

  ghost predicate Same<V>(a: map<Key, V>, b: map<Key, V>, key: Key) {
    (key in a <==> key in b) && (key in a ==> a[key] == b[key])
  }

  /** No generator whose reads are polled or matched by selector. */
  predicate OnlyIndexedNested(n: Nested) {
    n.pullRequests.None? && n.apiClient.None? && n.cluster.None? && n.imagePolicy.None?
  }

  predicate OnlyIndexed(e: Entry) {
    && e.pullRequests.None? && e.apiClient.None? && e.cluster.None? && e.imagePolicy.None?
    && (e.matrix.Some? ==> forall n :: n in e.matrix.value.generators ==> OnlyIndexedNested(n))
  }

  lemma SameLeaf(kind: Kind, e: Entry, env: Env, other: Store)
    requires OnlyIndexed(e)
    requires kind == GitRepositoryKind && e.gitRepository.Some? ==>
      AgreeOn(GitRepositories, Key(env.namespace, e.gitRepository.value.ref), env.store, other)
    requires kind == OCIRepositoryKind && e.ociRepository.Some? ==>
      AgreeOn(OCIRepositories, Key(env.namespace, e.ociRepository.value.ref), env.store, other)
    requires kind == ConfigKind && e.config.Some? && e.config.value.kind == "ConfigMap" ==>
      AgreeOn(ConfigMaps, Key(env.namespace, e.config.value.name), env.store, other)
    requires kind == ConfigKind && e.config.Some? && e.config.value.kind == "Secret" ==>
      AgreeOn(Secrets, Key(env.namespace, e.config.value.name), env.store, other)
    ensures GenerateLeaf(kind, e, env) == GenerateLeaf(kind, e, env.(store := other))
  {
  }

  /** Which sources a generator kind reads. */
  predicate Reads(kind: Kind, source: Source) {
    match source
    case GitRepositories => kind == GitRepositoryKind
    case OCIRepositories => kind == OCIRepositoryKind
    case ConfigMaps => kind == ConfigKind
    case Secrets => kind == ConfigKind
  }

  /** Some of these kinds reads the source. */
  ghost predicate AnyReads(kinds: set<Kind>, source: Source) {
    exists k :: k in kinds && Reads(k, source)
  }

  function KindSet(kinds: seq<Kind>): set<Kind> {
    set k | k in kinds
  }

  /** The stores agree on what an entry's own generators of these kinds read. */
  ghost predicate OwnAgree(kinds: seq<Kind>, e: Entry, env: Env, other: Store) {
    forall source, name :: name in OwnRefs(source, e) && AnyReads(KindSet(kinds), source) ==>
      AgreeOn(source, Key(env.namespace, name), env.store, other)
  }

  lemma OwnAgreeLeaf(kinds: seq<Kind>, kind: Kind, e: Entry, env: Env, other: Store)
    requires OwnAgree(kinds, e, env, other) && kind in kinds && OnlyIndexed(e)
    ensures GenerateLeaf(kind, e, env) == GenerateLeaf(kind, e, env.(store := other))
  {
    if kind == GitRepositoryKind && e.gitRepository.Some? {
      assert Reads(kind, GitRepositories) && e.gitRepository.value.ref in OwnRefs(GitRepositories, e);
    }
    if kind == OCIRepositoryKind && e.ociRepository.Some? {
      assert Reads(kind, OCIRepositories) && e.ociRepository.value.ref in OwnRefs(OCIRepositories, e);
    }
    if kind == ConfigKind && e.config.Some? && e.config.value.kind == "ConfigMap" {
      assert Reads(kind, ConfigMaps) && e.config.value.name in OwnRefs(ConfigMaps, e);
    }
    if kind == ConfigKind && e.config.Some? && e.config.value.kind == "Secret" {
      assert Reads(kind, Secrets) && e.config.value.name in OwnRefs(Secrets, e);
    }
    SameLeaf(kind, e, env, other);
  }

  lemma {:induction false} SameGatherKinds(name: string, kinds: seq<Kind>, e: Entry, env: Env, other: Store)
    requires OwnAgree(kinds, e, env, other) && OnlyIndexed(e)
    ensures GatherKinds(name, kinds, e, env) == GatherKinds(name, kinds, e, env.(store := other))
    decreases |kinds|
  {
    if kinds != [] {
      OwnAgreeLeaf(kinds, kinds[0], e, env, other);
      assert KindSet(kinds[1..]) <= KindSet(kinds);
      SameGatherKinds(name, kinds[1..], e, env, other);
    }
  }

  /** The stores agree on every reference of a source that some enabled generator kind reads. */
  ghost predicate NestedAgree(nested: seq<Nested>, env: Env, other: Store) {
    forall source, name ::
      name in AllNestedRefs(source, nested) && AnyReads(env.nestedEnabled, source) ==>
        AgreeOn(source, Key(env.namespace, name), env.store, other)
  }

  lemma {:induction false} NestedRefsAreListed(source: Source, nested: seq<Nested>, n: Nested, name: string)
    requires n in nested && name in NestedRefs(source, n)
    ensures name in AllNestedRefs(source, nested)
    decreases |nested|
  {
    if n != nested[|nested| - 1] {
      NestedRefsAreListed(source, nested[..|nested| - 1], n, name);
    }
  }

  lemma {:induction false} RelevantAreEnabled(fields: seq<Field>, enabled: set<Kind>)
    requires Relevant(fields, enabled).Ok?
    ensures forall k :: k in Relevant(fields, enabled).value ==> k in enabled
  {
    if fields != [] && Relevant(fields, enabled).Ok? {
      RelevantAreEnabled(fields[1..], enabled);
    }
  }

  lemma {:induction false} SameGather(all: seq<Nested>, nested: seq<Nested>, env: Env, other: Store)
    requires NestedAgree(all, env, other)
    requires forall n :: n in nested ==> n in all && OnlyIndexedNested(n)
    ensures Gather(nested, env) == Gather(nested, env.(store := other))
    decreases |nested|
  {
    if nested != [] {
      var n := nested[0];
      assert n in nested && OnlyIndexedNested(n);
      var relevant := Relevant(NestedFields(n), env.nestedEnabled);
      if relevant.Ok? {
        RelevantAreEnabled(NestedFields(n), env.nestedEnabled);
        forall source, name | name in OwnRefs(source, AsEntry(n)) && AnyReads(KindSet(relevant.value), source)
          ensures AgreeOn(source, Key(env.namespace, name), env.store, other)
        {
          assert name in NestedRefs(source, n);
          NestedRefsAreListed(source, all, n, name);
        }
        SameGatherKinds(n.name, relevant.value, AsEntry(n), env, other);
      }
      SameGather(all, nested[1..], env, other);
    }
  }

  /** The watches: ConfigMaps and OCIRepositories are watched only if their generator is enabled. */
  predicate Watched(source: Source, enabled: set<Kind>) {
    match source
    case GitRepositories => true
    case OCIRepositories => OCIRepositoryKind in enabled
    case ConfigMaps => ConfigKind in enabled
    case Secrets => true
  }

  /** The stores agree on every watched reference of the entries. */
  ghost predicate WatchedAgree(entries: seq<Entry>, env: Env, other: Store) {
    forall source, name :: name in Refs(source, entries) && Watched(source, env.enabled) ==>
      AgreeOn(source, Key(env.namespace, name), env.store, other)
  }

  lemma {:induction false} EntryRefsAreListed(source: Source, entries: seq<Entry>, e: Entry, name: string)
    requires e in entries && name in EntryRefs(source, e)
    ensures name in Refs(source, entries)
    decreases |entries|
  {
    if e != entries[|entries| - 1] {
      EntryRefsAreListed(source, entries[..|entries| - 1], e, name);
    }
  }

  lemma {:induction false} SameKinds(kinds: seq<Kind>, e: Entry, env: Env, other: Store)
    requires OnlyIndexed(e) && OwnAgree(kinds, e, env, other)
    requires e.matrix.Some? ==> NestedAgree(e.matrix.value.generators, env, other)
    ensures GenerateKinds(kinds, e, env) == GenerateKinds(kinds, e, env.(store := other))
    decreases |kinds|
  {
    if kinds != [] {
      OwnAgreeLeaf(kinds, kinds[0], e, env, other);
      if e.matrix.Some? {
        SameGather(e.matrix.value.generators, e.matrix.value.generators, env, other);
      }
      assert KindSet(kinds[1..]) <= KindSet(kinds);
      SameKinds(kinds[1..], e, env, other);
    }
  }

  lemma WatchedCoversOwn(entries: seq<Entry>, e: Entry, kinds: seq<Kind>, env: Env, other: Store)
    requires e in entries && WatchedAgree(entries, env, other)
    requires forall k :: k in kinds ==> k in env.enabled
    ensures OwnAgree(kinds, e, env, other)
  {
    forall source, name | name in OwnRefs(source, e) && AnyReads(KindSet(kinds), source)
      ensures AgreeOn(source, Key(env.namespace, name), env.store, other)
    {
      EntryRefsAreListed(source, entries, e, name);
    }
  }

  lemma WatchedCoversNested(entries: seq<Entry>, e: Entry, env: Env, other: Store)
    requires e in entries && e.matrix.Some? && WatchedAgree(entries, env, other)
    requires env.nestedEnabled <= env.enabled
    ensures NestedAgree(e.matrix.value.generators, env, other)
  {
    var nested := e.matrix.value.generators;
    forall source, name | name in AllNestedRefs(source, nested) && AnyReads(env.nestedEnabled, source)
      ensures AgreeOn(source, Key(env.namespace, name), env.store, other)
    {
      EntryRefsAreListed(source, entries, e, name);
    }
  }

  lemma SameEntry(entries: seq<Entry>, e: Entry, env: Env, other: Store)
    requires e in entries && OnlyIndexed(e) && WatchedAgree(entries, env, other)
    requires env.nestedEnabled <= env.enabled
    ensures Generate(e, env) == Generate(e, env.(store := other))
  {
    var relevant := Relevant(EntryFields(e), env.enabled);
    if relevant.Ok? {
      RelevantAreEnabled(EntryFields(e), env.enabled);
      WatchedCoversOwn(entries, e, relevant.value, env, other);
      if e.matrix.Some? { WatchedCoversNested(entries, e, env, other); }
      SameKinds(relevant.value, e, env, other);
    }
  }

  lemma {:induction false} SamePlans(all: seq<Entry>, entries: seq<Entry>, ts: seq<Template>, env: Env, other: Store)
    requires WatchedAgree(all, env, other) && env.nestedEnabled <= env.enabled
    requires forall e :: e in entries ==> e in all && OnlyIndexed(e)
    ensures Plans(entries, ts, env) == Plans(entries, ts, env.(store := other))
    decreases |entries|
  {
    if entries != [] {
      SameEntry(all, entries[0], env, other);
      SamePlans(all, entries[1..], ts, env, other);
    }
  }

  /** The set's part of the world: what one render of it depends on. */
  function EnvOf(s: StoredSet, store: Store, outside: Outside, enabled: set<Kind>, nestedEnabled: set<Kind>): Env {
    Env(s.namespace, store, outside, enabled, nestedEnabled)
  }

  /** The watch index covers all reads: for a set that uses only List, GitRepository, OCIRepository,
      Config and Matrix, stores that agree on every watched reference render alike, errors included. */
  lemma AgreeingStoresRenderAlike(entries: seq<Entry>, ts: seq<Template>, env: Env, other: Store,
                                  block: Step<Pair, Unstructured, GenError>)
    requires forall e :: e in entries ==> OnlyIndexed(e)
    requires WatchedAgree(entries, env, other) && env.nestedEnabled <= env.enabled
    ensures RenderEntries(entries, ts, 0, env, block) == RenderEntries(entries, ts, 0, env.(store := other), block)
  {
    SamePlans(entries, entries, ts, env, other);
  }

  /** A change of this object enqueues the set: it is watched and its query returns the set. */
  predicate Enqueues(source: Source, key: Key, s: StoredSet, enabled: set<Kind>) {
    Watched(source, enabled) && Matches(source, key, s)
  }

  /** Non-interference: any number of changes, none of which enqueues the set, cannot change what the
      set renders to. */
  lemma UnqueuedChangesAreInvisible(s: StoredSet, ts: seq<Template>, before: Store, after: Store,
                                    outside: Outside, enabled: set<Kind>, nestedEnabled: set<Kind>,
                                    block: Step<Pair, Unstructured, GenError>)
    requires forall e :: e in s.entries ==> OnlyIndexed(e)
    requires nestedEnabled <= enabled
    requires forall source, key :: !AgreeOn(source, key, before, after) ==> !Enqueues(source, key, s, enabled)
    ensures RenderEntries(s.entries, ts, 0, EnvOf(s, before, outside, enabled, nestedEnabled), block)
         == RenderEntries(s.entries, ts, 0, EnvOf(s, after, outside, enabled, nestedEnabled), block)
  {
    var env := EnvOf(s, before, outside, enabled, nestedEnabled);
    forall source, name | name in Refs(source, s.entries) && Watched(source, enabled)
      ensures AgreeOn(source, Key(s.namespace, name), before, after)
    {
      MatchesIffReferenced(source, Key(s.namespace, name), s);
    }
    AgreeingStoresRenderAlike(s.entries, ts, env, after, block);
    assert env.(store := after) == EnvOf(s, after, outside, enabled, nestedEnabled);
  }

  // ---------- what the Config generator reads ----------

  /** The Config generator yields the same from two stores if and only if they agree on the one object
      it names, in the set's namespace and of the kind it names. */
  lemma ConfigYieldsSameIff(g: ConfigGenerator, env: Env, other: Store)
    requires g.kind == "ConfigMap" || g.kind == "Secret"
    ensures FromConfig(g, env) == FromConfig(g, env.(store := other)) <==>
      AgreeOn(if g.kind == "ConfigMap" then ConfigMaps else Secrets, Key(env.namespace, g.name), env.store, other)
  {
    var key := Key(env.namespace, g.name);
    if g.kind == "ConfigMap" {
      SameDataIff(env.store.configMaps, other.configMaps, key);
    } else {
      SameDataIff(env.store.secrets, other.secrets, key);
    }
  }

  lemma SameDataIff(a: Readings<map<string, string>>, b: Readings<map<string, string>>, key: Key)
    ensures FromData(a, key) == FromData(b, key) <==> Same(a, b, key)
  {
    if FromData(a, key).Ok? && FromData(a, key) == FromData(b, key) {
      var m, n := a[key].value, b[key].value;
      assert FromData(a, key).value[0] == FromData(b, key).value[0];
      assert m.Keys == AnyMap(m).Keys == AnyMap(n).Keys == n.Keys;
      forall k | k in m ensures m[k] == n[k] {
        assert AnyMap(m)[k] == Leaf(m[k]) && AnyMap(n)[k] == Leaf(n[k]);
      }
      assert m == n;
    }
  }

  /** What it yields: one element with exactly the object's keys, each holding its value as a string. */
  lemma ConfigElementIsData(g: ConfigGenerator, env: Env)
    ensures FromConfig(g, env).Ok? ==>
      var key := Key(env.namespace, g.name);
      var objects := if g.kind == "ConfigMap" then env.store.configMaps else env.store.secrets;
      && (g.kind == "ConfigMap" || g.kind == "Secret") && key in objects && objects[key].Found?
      && |FromConfig(g, env).value| == 1
      && var element, data := FromConfig(g, env).value[0], objects[key].value;
         element.Keys == data.Keys && forall k :: k in element ==> element[k] == Leaf(data[k])
  {
  }
}
