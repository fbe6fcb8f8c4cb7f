/** The matrix generator's single-element mode: elements grouped by generator name. */
module Grouping {
  import opened Objects
  import opened Matrix

  const UNNAMED_KEY := "Matrix"

  /** Everything generated under one name, in order. */
  function ElementsOf(name: string, generated: seq<Generated>): seq<Params> {
    if generated == [] then []
    else
      var last := generated[|generated| - 1];
      ElementsOf(name, generated[..|generated| - 1]) + if last.name == name then last.elements else []
  }

  function GivenNames(generated: seq<Generated>): set<string> {
    Names(generated) - {""}
  }

  /** The named groups, then the unnamed elements, if any, under "Matrix". */
  function Grouped(generated: seq<Generated>): Params {
    var named := map n | n in GivenNames(generated) :: Maps(ElementsOf(n, generated));
    var unnamed := ElementsOf("", generated);
    if unnamed == [] then named else named[UNNAMED_KEY := Maps(unnamed)]
  }

  /** The second loop's state after all elements of `done`. */
  ghost predicate GroupedSoFar(result: Params, unnamed: seq<Params>, names: set<string>, done: seq<Generated>) {
    && result == (map n | n in names :: Maps(ElementsOf(n, done)))
    && unnamed == ElementsOf("", done)
  }

  /** `result` with more elements under a name it already has. */
  function AddTo(result: Params, name: string, more: seq<Params>): Params
    requires name in result && result[name].Maps?
  {
    result[name := Maps(result[name].elements + more)]
  }

  lemma AddToInSteps(result: Params, name: string, a: seq<Params>, b: seq<Params>)
    requires name in result && result[name].Maps?
    ensures AddTo(result, name, []) == result
    ensures AddTo(AddTo(result, name, a), name, b) == AddTo(result, name, a + b)
  {
    assert (result[name].elements + a) + b == result[name].elements + (a + b);
    assert result[name].elements + [] == result[name].elements;
  }

  /** Appends one generator's elements one by one. */
  method AppendElements(result: Params, unnamed: seq<Params>, generator: Generated)
    returns (grouped: Params, rest: seq<Params>)
    requires generator.name != "" ==> generator.name in result && result[generator.name].Maps?
    ensures grouped == if generator.name == "" then result else AddTo(result, generator.name, generator.elements)
    ensures rest == if generator.name == "" then unnamed + generator.elements else unnamed
  {
    grouped, rest := result, unnamed;
    if generator.name != "" { AddToInSteps(result, generator.name, [], []); }
    for k := 0 to |generator.elements|
      invariant grouped
        == if generator.name == "" then result else AddTo(result, generator.name, generator.elements[..k])
      invariant rest == if generator.name == "" then unnamed + generator.elements[..k] else unnamed
    {
      var element := generator.elements[k];
      assert generator.elements[..k + 1] == generator.elements[..k] + [element];
      if generator.name == "" {
        rest := rest + [element];
        continue;
      }
      AddToInSteps(result, generator.name, generator.elements[..k], [element]);
      grouped := grouped[generator.name := Maps(grouped[generator.name].elements + [element])];
    }
    assert generator.elements[..|generator.elements|] == generator.elements;
  }

  lemma GroupingStep(result: Params, unnamed: seq<Params>, names: set<string>, done: seq<Generated>, next: Generated)
    requires GroupedSoFar(result, unnamed, names, done) && "" !in names
    requires next.name != "" ==> next.name in names
    ensures next.name == "" ==> GroupedSoFar(result, unnamed + next.elements, names, done + [next])
    ensures next.name != "" ==> GroupedSoFar(AddTo(result, next.name, next.elements), unnamed, names, done + [next])
  {
    assert (done + [next])[..|done|] == done;
    assert forall n ::
      ElementsOf(n, done + [next]) == ElementsOf(n, done) + if next.name == n then next.elements else [];
    assert forall n :: next.name != n ==> ElementsOf(n, done + [next]) == ElementsOf(n, done);
  }

  /** The first loop: an empty group for every given name. */
  method EmptyGroups(generated: seq<Generated>) returns (result: Params)
    ensures result == map n | n in GivenNames(generated) :: Maps([])
  {
    result := map[];
    for i := 0 to |generated|
      invariant result == map n | n in GivenNames(generated[..i]) :: Maps([])
    {
      assert generated[..i + 1] == generated[..i] + [generated[i]];
      assert Names(generated[..i + 1]) == Names(generated[..i]) + {generated[i].name};
      if generated[i].name != "" {
        result := result[generated[i].name := Maps([])];
      }
    }
    assert generated[..|generated|] == generated;
  }

  method SingleElement(generated: seq<Generated>) returns (results: seq<Params>)
    ensures results == if generated == [] then [] else [Grouped(generated)]
  {
    if |generated| == 0 { return []; }
    var result := EmptyGroups(generated);
    var unnamed: seq<Params> := [];
    for i := 0 to |generated|
      invariant GroupedSoFar(result, unnamed, GivenNames(generated), generated[..i])
    {
      assert generated[..i + 1] == generated[..i] + [generated[i]];
      assert generated[i].name in Names(generated);
      GroupingStep(result, unnamed, GivenNames(generated), generated[..i], generated[i]);
      result, unnamed := AppendElements(result, unnamed, generated[i]);
    }
    assert generated[..|generated|] == generated;
    if |unnamed| > 0 {
      result := result[UNNAMED_KEY := Maps(unnamed)];
    }
    results := [result];
  }

  // ---------- conservation ----------

  function TotalElements(generated: seq<Generated>): nat {
    if generated == [] then 0
    else TotalElements(generated[..|generated| - 1]) + |generated[|generated| - 1].elements|
  }

  /** The elements found under a sequence of names. */
  function CountOf(names: seq<string>, generated: seq<Generated>): nat {
    if names == [] then 0 else |ElementsOf(names[0], generated)| + CountOf(names[1..], generated)
  }

  ghost predicate Distinct(names: seq<string>) {
    forall i, j :: 0 <= i < j < |names| ==> names[i] != names[j]
  }

  lemma {:induction false} CountOfSnoc(names: seq<string>, init: seq<Generated>, last: Generated)
    requires Distinct(names)
    ensures CountOf(names, init + [last])
         == CountOf(names, init) + if last.name in names then |last.elements| else 0
    decreases |names|
  {
    if names != [] {
      assert (init + [last])[..|init|] == init;
      CountOfSnoc(names[1..], init, last);
      assert last.name in names <==> last.name == names[0] || last.name in names[1..];
    }
  }

  lemma {:induction false} CountOfNothing(names: seq<string>)
    ensures CountOf(names, []) == 0
  {
    if names != [] { CountOfNothing(names[1..]); }
  }

  /** Names that include all that generated something account for every element once. */
  lemma {:induction false} NamesAccountForAll(names: seq<string>, generated: seq<Generated>)
    requires Distinct(names) && forall g :: g in generated && g.elements != [] ==> g.name in names
    ensures CountOf(names, generated) == TotalElements(generated)
    decreases |generated|
  {
    if generated == [] {
      CountOfNothing(names);
    } else {
      var n := |generated| - 1;
      assert generated == generated[..n] + [generated[n]];
      CountOfSnoc(names, generated[..n], generated[n]);
      NamesAccountForAll(names, generated[..n]);
    }
  }

  /** The elements stored in a grouped map under the listed keys. */
  function StoredCount(m: Params, keys: seq<string>): nat
    requires forall k :: k in keys ==> k in m && m[k].Maps?
  {
    if keys == [] then 0 else |m[keys[0]].elements| + StoredCount(m, keys[1..])
  }

  /** Under every key but "Matrix" the map stores that name's elements; under "Matrix" the unnamed
      ones if there are any. */
  lemma {:induction false} StoredAgainstCounted(generated: seq<Generated>, keys: seq<string>)
    requires Distinct(keys) && forall k :: k in keys ==> k in Grouped(generated)
    ensures forall k :: k in keys ==> Grouped(generated)[k].Maps?
    ensures var swapped := ElementsOf("", generated) != [] && UNNAMED_KEY in keys;
      StoredCount(Grouped(generated), keys) + (if swapped then |ElementsOf(UNNAMED_KEY, generated)| else 0)
      == CountOf(keys, generated) + (if swapped then |ElementsOf("", generated)| else 0)
    decreases |keys|
  {
    if keys != [] {
      StoredAgainstCounted(generated, keys[1..]);
      assert UNNAMED_KEY in keys <==> UNNAMED_KEY == keys[0] || UNNAMED_KEY in keys[1..];
    }
  }

  lemma {:induction false} ElementsOfAppear(name: string, generated: seq<Generated>)
    ensures ElementsOf(name, generated) != [] <==> exists g :: g in generated && g.name == name && g.elements != []
    decreases |generated|
  {
    if generated != [] {
      var n := |generated| - 1;
      assert generated == generated[..n] + [generated[n]];
      ElementsOfAppear(name, generated[..n]);
    }
  }

  /** Single-element mode conserves elements exactly unless a generator is named "Matrix" while
      unnamed elements exist: then precisely the elements under that name are lost. */
  lemma SingleElementConserves(generated: seq<Generated>, keys: seq<string>)
    requires Distinct(keys) && (forall k :: k in keys <==> k in Grouped(generated))
    ensures forall k :: k in keys ==> Grouped(generated)[k].Maps?
    ensures StoredCount(Grouped(generated), keys)
         == TotalElements(generated)
            - (if ElementsOf("", generated) == [] then 0 else |ElementsOf(UNNAMED_KEY, generated)|)
    ensures StoredCount(Grouped(generated), keys) == TotalElements(generated)
       <==> ElementsOf("", generated) == [] || ElementsOf(UNNAMED_KEY, generated) == []
  {
    StoredAgainstCounted(generated, keys);
    ElementsOfAppear("", generated);
    ElementsOfAppear(UNNAMED_KEY, generated);
    assert UNNAMED_KEY in keys <==> UNNAMED_KEY in Grouped(generated);
    forall g | g in generated && g.elements != [] && g.name != "" ensures g.name in keys {
      assert g.name in Names(generated);
      assert g.name in Grouped(generated);
    }
    if ElementsOf("", generated) == [] {
      NamesAccountForAll(keys, generated);
    } else {
      NothingUnderEmptyKey(generated);
      var names := [""] + keys;
      assert forall k :: k in names <==> k == "" || k in keys;
      assert Distinct(names);
      NamesAccountForAll(names, generated);
      assert names[1..] == keys;
    }
  }

  lemma NothingUnderEmptyKey(generated: seq<Generated>)
    ensures "" !in Grouped(generated)
  {
    assert UNNAMED_KEY[0] == 'M';
  }

  /** For example, one element under "Matrix" and one unnamed element: only the latter is stored. */
  lemma ElementNamedMatrixIsLost(lost: Params, kept: Params)
    ensures var generated := [Generated(UNNAMED_KEY, [lost]), Generated("", [kept])];
      TotalElements(generated) == 2 && Grouped(generated) == map[UNNAMED_KEY := Maps([kept])]
  {
    var first, second := Generated(UNNAMED_KEY, [lost]), Generated("", [kept]);
    var generated := [first, second];
    assert generated[..1] == [first] && [first][..0] == [];
    assert TotalElements([first]) == 1 && ElementsOf("", [first]) == [];
    assert ElementsOf("", generated) == [kept];
  }

  // ---------- the grouped map, in terms of what was generated ----------

  /** How many elements generators of this name yield before generator i. */
  function Offset(name: string, generated: seq<Generated>, i: nat): nat
    requires i <= |generated|
  {
    if i == 0 then 0
    else Offset(name, generated, i - 1) + if generated[i - 1].name == name then |generated[i - 1].elements| else 0
  }

  /** The list holds the elements of all generators of this name, in order, and nothing else. */
  ghost predicate IsListOf(list: seq<Params>, name: string, generated: seq<Generated>) {
    && |list| == Offset(name, generated, |generated|)
    && forall i, k :: 0 <= i < |generated| && generated[i].name == name && 0 <= k < |generated[i].elements| ==>
         ElementIsAt(list, Offset(name, generated, i) + k, generated[i].elements[k])
  }

  predicate ElementIsAt(list: seq<Params>, at: nat, element: Params) {
    at < |list| && list[at] == element
  }

  lemma {:induction false} OffsetOfPrefix(name: string, init: seq<Generated>, last: Generated, i: nat)
    requires i <= |init|
    ensures Offset(name, init + [last], i) == Offset(name, init, i)
  {
    if i > 0 { OffsetOfPrefix(name, init, last, i - 1); }
  }

  lemma {:induction false} ElementsOfIsList(name: string, generated: seq<Generated>)
    ensures IsListOf(ElementsOf(name, generated), name, generated)
    decreases |generated|
  {
    if generated != [] {
      var n := |generated| - 1;
      var init, last, list := generated[..n], generated[n], ElementsOf(name, generated);
      assert generated == init + [last];
      ElementsOfIsList(name, init);
      OffsetOfPrefix(name, init, last, n);
      forall i, k | 0 <= i < |generated| && generated[i].name == name && 0 <= k < |generated[i].elements|
        ensures ElementIsAt(list, Offset(name, generated, i) + k, generated[i].elements[k])
      {
        OffsetOfPrefix(name, init, last, i);
        if i < n {
          assert generated[i] == init[i];
          assert ElementIsAt(ElementsOf(name, init), Offset(name, init, i) + k, init[i].elements[k]);
        }
      }
    }
  }

  /** The one map of single-element mode: a list for every given name and, if there are unnamed elements,
      one for those under "Matrix", which then hides a generator of that name. */
  lemma GroupedMeans(generated: seq<Generated>)
    ensures var unnamed := exists g :: g in generated && g.name == "" && g.elements != [];
      && (forall key :: key in Grouped(generated) <==>
            (key != "" && exists g :: g in generated && g.name == key) || (key == "Matrix" && unnamed))
      && (forall key :: key in Grouped(generated) ==>
            && Grouped(generated)[key].Maps?
            && IsListOf(Grouped(generated)[key].elements, if key == "Matrix" && unnamed then "" else key, generated))
  {
    ElementsOfAppear("", generated);
    forall key | key in Grouped(generated)
      ensures Grouped(generated)[key].Maps?
      ensures IsListOf(Grouped(generated)[key].elements,
                       if key == "Matrix" && ElementsOf("", generated) != [] then "" else key, generated)
    {
      ElementsOfIsList(key, generated);
      ElementsOfIsList("", generated);
    }
  }
}
