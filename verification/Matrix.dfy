/** The matrix generator's Cartesian product: the odometer loop refines the recursive product. */
module Matrix {
  import opened Objects
  import opened Odometer

  datatype Generated = Generated(name: string, elements: seq<Params>)

  // ---------- the recursive product ----------

  function Prepend<T>(head: T, tails: seq<seq<T>>): seq<seq<T>> {
    seq(|tails|, i requires 0 <= i < |tails| => [head] + tails[i])
  }

  function Extend<T>(heads: seq<T>, tails: seq<seq<T>>): seq<seq<T>> {
    if heads == [] then [] else Prepend(heads[0], tails) + Extend(heads[1..], tails)
  }

  /** All tuples, in lexicographic order of their indexes. */
  function Tuples<T>(slices: seq<seq<T>>): seq<seq<T>> {
    if slices == [] then [[]] else Extend(slices[0], Tuples(slices[1..]))
  }

  /** The tuple at the given indexes. */
  function Pick<T>(slices: seq<seq<T>>, ix: seq<nat>): seq<T>
    requires InRange(ix, Lengths(slices))
  {
    seq(|ix|, j requires 0 <= j < |ix| => slices[j][ix[j]])
  }

  lemma {:induction false} ExtendAt<T>(heads: seq<T>, tails: seq<seq<T>>, h: nat, k: nat)
    requires h < |heads| && k < |tails|
    ensures Times(h, |tails|) + k < |Extend(heads, tails)|
    ensures Extend(heads, tails)[Times(h, |tails|) + k] == [heads[h]] + tails[k]
    decreases |heads|
  {
    ExtendCount(heads, tails);
    Carry(h, |heads|, k, |tails|);
    if h > 0 {
      ExtendAt(heads[1..], tails, h - 1, k);
    }
  }

  lemma {:induction false} TuplesCount<T>(slices: seq<seq<T>>)
    ensures |Tuples(slices)| == Size(Lengths(slices))
  {
    if slices != [] {
      TuplesCount(slices[1..]);
      assert Lengths(slices)[1..] == Lengths(slices[1..]);
      ExtendCount(slices[0], Tuples(slices[1..]));
    }
  }

  lemma {:induction false} ExtendCount<T>(heads: seq<T>, tails: seq<seq<T>>)
    ensures |Extend(heads, tails)| == Times(|heads|, |tails|)
  {
    if heads != [] {
      ExtendCount(heads[1..], tails);
    }
  }

  /** The odometer's number is the tuple's position in the product. */
  lemma {:induction false} TupleAtReading<T>(slices: seq<seq<T>>, ix: seq<nat>)
    requires InRange(ix, Lengths(slices))
    ensures Reading(ix, Lengths(slices)) < |Tuples(slices)|
    ensures Tuples(slices)[Reading(ix, Lengths(slices))] == Pick(slices, ix)
    decreases |slices|
  {
    TuplesCount(slices);
    ReadingBelowSize(ix, Lengths(slices));
    if slices != [] {
      var lens := Lengths(slices);
      assert lens[1..] == Lengths(slices[1..]);
      TuplesCount(slices[1..]);
      ReadingBelowSize(ix[1..], lens[1..]);
      TupleAtReading(slices[1..], ix[1..]);
      ExtendAt(slices[0], Tuples(slices[1..]), ix[0], Reading(ix[1..], lens[1..]));
      assert Pick(slices, ix) == [slices[0][ix[0]]] + Pick(slices[1..], ix[1..]);
    }
  }

  // ---------- merging and deduplication ----------

  /** Later members of the tuple win. */
  function MergeAll(tuple: seq<Params>): Params {
    if tuple == [] then map[] else MergeAll(tuple[..|tuple| - 1]) + tuple[|tuple| - 1]
  }

  function MergeEach(tuples: seq<seq<Params>>): seq<Params> {
    seq(|tuples|, i requires 0 <= i < |tuples| => MergeAll(tuples[i]))
  }

  /** The first occurrence of every element, in order. */
  function FirstOccurrences<T(==)>(s: seq<T>): seq<T> {
    if s == [] then []
    else
      var init, last := FirstOccurrences(s[..|s| - 1]), s[|s| - 1];
      if last in init then init else init + [last]
  }

  lemma {:induction false} FirstOccurrencesFacts<T>(s: seq<T>)
    ensures forall i, j :: 0 <= i < j < |FirstOccurrences(s)| ==> FirstOccurrences(s)[i] != FirstOccurrences(s)[j]
    ensures forall x :: x in FirstOccurrences(s) <==> x in s
  {
    if s != [] {
      FirstOccurrencesFacts(s[..|s| - 1]);
      assert s == s[..|s| - 1] + [s[|s| - 1]];
    }
  }

  lemma {:induction false} DistinctStaysWhole<T>(s: seq<T>)
    requires forall i, j :: 0 <= i < j < |s| ==> s[i] != s[j]
    ensures FirstOccurrences(s) == s
  {
    if s != [] {
      DistinctStaysWhole(s[..|s| - 1]);
      assert s == s[..|s| - 1] + [s[|s| - 1]];
    }
  }

  method AlreadyExists<T(==)>(element: T, existing: seq<T>) returns (found: bool)
    ensures found <==> element in existing
  {
    for i := 0 to |existing|
      invariant element !in existing[..i]
    {
      if existing[i] == element { return true; }
    }
    return false;
  }

  /** A named generator's elements are wrapped under its name. */
  function Wrapped(g: Generated): seq<Params> {
    if g.name != "" then seq(|g.elements|, i requires 0 <= i < |g.elements| => map[g.name := Object(g.elements[i])])
    else g.elements
  }

  function Slices(generated: seq<Generated>): seq<seq<Params>> {
    seq(|generated|, i requires 0 <= i < |generated| => Wrapped(generated[i]))
  }

  /** No key holds a map in the elements of two generators: then merging replaces whole values. */
  ghost predicate MapsStayApart(slices: seq<seq<Params>>) {
    forall i, j, e: Params, f: Params, k ::
      0 <= i < j < |slices| && e in slices[i] && f in slices[j] && k in e && k in f ==>
      !(e[k].Object? && f[k].Object?)
  }

  function Product(generated: seq<Generated>): seq<Params> {
    if generated == [] then [] else FirstOccurrences(MergeEach(Tuples(Slices(generated))))
  }

  method Wrap(g: Generated) returns (slice: seq<Params>)
    ensures slice == Wrapped(g)
  {
    if g.name == "" { return g.elements; }
    slice := [];
    for k := 0 to |g.elements|
      invariant slice == Wrapped(g)[..k]
    {
      slice := slice + [map[g.name := Object(g.elements[k])]];
    }
  }

  method MakeSlices(generated: seq<Generated>) returns (slices: seq<seq<Params>>)
    ensures slices == Slices(generated)
  {
    slices := [];
    for i := 0 to |generated|
      invariant slices == Slices(generated)[..i]
    {
      var slice := Wrap(generated[i]);
      slices := slices + [slice];
    }
  }

  /** The inner loop: merges the elements at the current indexes. */
  method MergeTuple(slices: seq<seq<Params>>, indexes: array<nat>) returns (temp: Params)
    requires InRange(indexes[..], Lengths(slices))
    ensures temp == MergeAll(Pick(slices, indexes[..]))
  {
    ghost var tuple := Pick(slices, indexes[..]);
    temp := map[];
    for j := 0 to indexes.Length
      invariant temp == MergeAll(tuple[..j])
    {
      assert tuple[..j + 1][..j] == tuple[..j] && tuple[..j + 1][j] == slices[j][indexes[j]];
      temp := temp + slices[j][indexes[j]];
    }
    assert tuple[..|tuple|] == tuple;
  }

  /** One turn of the odometer loop: the position, and what deduplication makes of its merge. */
  lemma TurnOfOdometer(slices: seq<seq<Params>>, ix: seq<nat>)
    requires TailInRange(ix, Lengths(slices)) && ix != [] && ix[0] < |slices[0]|
    ensures InRange(ix, Lengths(slices))
    ensures var v, merged, done := Reading(ix, Lengths(slices)), MergeEach(Tuples(slices)), MergeAll(Pick(slices, ix));
      && v < |merged|
      && FirstOccurrences(merged[..v + 1])
      == FirstOccurrences(merged[..v]) + if done in FirstOccurrences(merged[..v]) then [] else [done]
  {
    TupleAtReading(slices, ix);
    var v, merged := Reading(ix, Lengths(slices)), MergeEach(Tuples(slices));
    assert merged[..v + 1][..v] == merged[..v];
  }

  /** Where the odometer starts, and when it stops. */
  lemma OdometerBounds(slices: seq<seq<Params>>, ix: seq<nat>)
    requires |ix| == |slices| > 0
    requires |slices[0]| > 0 ==> forall s :: s in slices ==> s != []
    ensures (forall j :: 0 <= j < |ix| ==> ix[j] == 0) ==>
            Reading(ix, Lengths(slices)) == 0 && (|slices[0]| > 0 ==> TailInRange(ix, Lengths(slices)))
    ensures |MergeEach(Tuples(slices))| == Size(Lengths(slices))
    ensures |slices[0]| == 0 ==> Size(Lengths(slices)) == 0
    ensures TailInRange(ix, Lengths(slices)) ==>
            (ix[0] < |slices[0]| <==> Reading(ix, Lengths(slices)) < Size(Lengths(slices)))
  {
    var lens := Lengths(slices);
    TuplesCount(slices);
    if forall j :: 0 <= j < |ix| ==> ix[j] == 0 {
      ZerosAreZero(ix, lens);
      forall j | 0 <= j < |ix| && |slices[0]| > 0 ensures ix[j] < lens[j] { assert slices[j] in slices; }
    }
    if TailInRange(ix, lens) { GuardIsBelowSize(ix, lens); }
  }

  /** The body of the loop: merges the tuple at the indexes and keeps it if it is new. */
  method AddTuple(slices: seq<seq<Params>>, indexes: array<nat>, results: seq<Params>) returns (more: seq<Params>)
    requires TailInRange(indexes[..], Lengths(slices)) && indexes.Length > 0 && indexes[0] < |slices[0]|
    requires var v, merged := Reading(indexes[..], Lengths(slices)), MergeEach(Tuples(slices));
      v <= |merged| ==> results == FirstOccurrences(merged[..v])
    ensures var v, merged := Reading(indexes[..], Lengths(slices)), MergeEach(Tuples(slices));
      v < |merged| && more == FirstOccurrences(merged[..v + 1])
  {
    TurnOfOdometer(slices, indexes[..]);
    var temp := MergeTuple(slices, indexes);
    var found := AlreadyExists(temp, results);
    more := results;
    if !found {
      more := more + [temp];
    }
  }

  /** The in-place loop. An empty slice after the first would be indexed out of range, so the caller
      passes none; the guard itself covers an empty first slice. */
  method ProductLoop(slices: seq<seq<Params>>) returns (results: seq<Params>)
    requires |slices| > 0 && (|slices[0]| > 0 ==> forall s :: s in slices ==> s != [])
    ensures results == FirstOccurrences(MergeEach(Tuples(slices)))
  {
    results := [];
    ghost var lens, merged := Lengths(slices), MergeEach(Tuples(slices));
    var indexes := new nat[|slices|](_ => 0);
    ghost var v := 0;
    OdometerBounds(slices, indexes[..]);
    while indexes[0] < |slices[0]|
      invariant |slices[0]| > 0 ==> TailInRange(indexes[..], lens) && v == Reading(indexes[..], lens)
      invariant |slices[0]| == 0 ==> v == 0
      invariant v <= |merged| && results == FirstOccurrences(merged[..v])
      decreases |merged| - v
    {
      results := AddTuple(slices, indexes, results);
      NextIndex(indexes, slices);
      v := v + 1;
    }
    OdometerBounds(slices, indexes[..]);
    assert merged[..v] == merged;
  }

  method Cartesian(generated: seq<Generated>) returns (results: seq<Params>)
    requires generated != [] && generated[0].elements != [] ==> forall g :: g in generated ==> g.elements != []
    requires MapsStayApart(Slices(generated))
    ensures results == Product(generated)
  {
    if |generated| == 0 { return []; }
    var slices := MakeSlices(generated);
    if generated[0].elements != [] { AllSlicesFilled(generated); }
    results := ProductLoop(slices);
  }

  lemma AllSlicesFilled(generated: seq<Generated>)
    requires forall g :: g in generated ==> g.elements != []
    ensures forall j :: 0 <= j < |generated| ==> |Slices(generated)[j]| > 0
  {
    forall j | 0 <= j < |generated| ensures |Slices(generated)[j]| > 0 {
      assert generated[j] in generated;
    }
  }

  /** What the product is for: no two results are equal, and a map is a result exactly when it is
      the merge of one element from every generator. */
  lemma ProductIsAllMerges(generated: seq<Generated>, m: Params)
    requires generated != [] && forall g :: g in generated ==> g.elements != []
    ensures forall i, j :: 0 <= i < j < |Product(generated)| ==> Product(generated)[i] != Product(generated)[j]
    ensures m in Product(generated) <==>
      exists ix :: InRange(ix, Lengths(Slices(generated))) && m == MergeAll(Pick(Slices(generated), ix))
  {
    var slices := Slices(generated);
    var lens := Lengths(slices);
    var merged := MergeEach(Tuples(slices));
    FirstOccurrencesFacts(merged);
    TuplesCount(slices);
    AllSlicesFilled(generated);
    if m in Product(generated) {
      var v :| 0 <= v < |merged| && merged[v] == m;
      DigitsOfNumber(v, lens);
      TupleAtReading(slices, Digits(v, lens));
    }
    if ix :| InRange(ix, lens) && m == MergeAll(Pick(slices, ix)) {
      TupleAtReading(slices, ix);
      assert merged[Reading(ix, lens)] == m;
    }
  }

  // ---------- named generators lose nothing ----------

  /** All generators named, no name twice, no element twice under one name. */
  ghost predicate ProperlyNamed(generated: seq<Generated>) {
    && (forall i :: 0 <= i < |generated| ==> generated[i].name != "" && generated[i].elements != [])
    && (forall i, j :: 0 <= i < j < |generated| ==> generated[i].name != generated[j].name)
    && (forall i, k, l :: 0 <= i < |generated| && 0 <= k < l < |generated[i].elements| ==>
          generated[i].elements[k] != generated[i].elements[l])
  }

  function Names(generated: seq<Generated>): set<string> {
    set g | g in generated :: g.name
  }

  function NameList(generated: seq<Generated>): seq<string> {
    seq(|generated|, i requires 0 <= i < |generated| => generated[i].name)
  }

  /** Elements wrapped under their names. */
  function NamedTuple(names: seq<string>, chosen: seq<Params>): seq<Params>
    requires |names| == |chosen|
  {
    seq(|names|, i requires 0 <= i < |names| => map[names[i] := Object(chosen[i])])
  }

  /** Every element can be read back under its name, and there is nothing else. */
  ghost predicate ReadsBack(m: Params, names: seq<string>, chosen: seq<Params>)
    requires |names| == |chosen|
  {
    && (forall n :: n in m ==> n in names)
    && forall j :: 0 <= j < |names| ==> names[j] in m && m[names[j]] == Object(chosen[j])
  }

  /** All but the last. */
  function Init<T>(s: seq<T>): seq<T>
    requires s != []
  {
    s[..|s| - 1]
  }

  lemma ReadsBackOneMore(m: Params, names: seq<string>, chosen: seq<Params>, name: string, element: Params)
    requires |names| == |chosen| > 0 && name == names[|names| - 1] && element == chosen[|chosen| - 1]
    requires ReadsBack(m, Init(names), Init(chosen)) && name !in Init(names)
    ensures ReadsBack(m + map[name := Object(element)], names, chosen)
  {
    var all := m + map[name := Object(element)];
    forall n | n in all ensures n in names {
      if n != name { assert n in Init(names); }
    }
    forall j | 0 <= j < |names| ensures names[j] in all && all[names[j]] == Object(chosen[j]) {
      if j < |names| - 1 { assert Init(names)[j] == names[j] && Init(chosen)[j] == chosen[j]; }
    }
  }

  lemma MergeOneMore(names: seq<string>, chosen: seq<Params>, name: string, element: Params)
    requires |names| == |chosen| > 0 && name == names[|names| - 1] && element == chosen[|chosen| - 1]
    ensures MergeAll(NamedTuple(names, chosen))
         == MergeAll(NamedTuple(Init(names), Init(chosen))) + map[name := Object(element)]
  {
    var tuple := NamedTuple(names, chosen);
    assert Init(tuple) == NamedTuple(Init(names), Init(chosen));
  }

  lemma NothingReadsBack(names: seq<string>, chosen: seq<Params>)
    requires |names| == |chosen| == 0
    ensures ReadsBack(MergeAll(NamedTuple(names, chosen)), names, chosen)
  {
    assert NamedTuple(names, chosen) == [];
  }

  ghost predicate DifferentNames(names: seq<string>) {
    forall i, j :: 0 <= i < j < |names| ==> names[i] != names[j]
  }

  lemma LastNameIsNew(names: seq<string>)
    requires names != [] && DifferentNames(names)
    ensures names[|names| - 1] !in Init(names) && DifferentNames(Init(names))
  {
  }

  /** Under different names nothing is overwritten. */
  lemma {:induction false} NamedMerge(names: seq<string>, chosen: seq<Params>)
    requires |names| == |chosen| && DifferentNames(names)
    ensures ReadsBack(MergeAll(NamedTuple(names, chosen)), names, chosen)
    decreases |names|
  {
    if |names| == 0 {
      NothingReadsBack(names, chosen);
    } else {
      var n := |names| - 1;
      LastNameIsNew(names);
      NamedMerge(Init(names), Init(chosen));
      MergeOneMore(names, chosen, names[n], chosen[n]);
      ReadsBackOneMore(MergeAll(NamedTuple(Init(names), Init(chosen))), names, chosen, names[n], chosen[n]);
    }
  }

  /** The elements at the given indexes. */
  function Chosen(generated: seq<Generated>, ix: seq<nat>): (chosen: seq<Params>)
    requires InRange(ix, Lengths(Slices(generated)))
    ensures |chosen| == |generated|
  {
    seq(|ix|, j requires 0 <= j < |ix| => IndexInElements(generated, ix, j); generated[j].elements[ix[j]])
  }

  lemma IndexInElements(generated: seq<Generated>, ix: seq<nat>, j: nat)
    requires InRange(ix, Lengths(Slices(generated))) && j < |ix|
    ensures ix[j] < |generated[j].elements| && |Wrapped(generated[j])| == |generated[j].elements|
    ensures generated[j].name != "" ==>
      Slices(generated)[j][ix[j]] == map[generated[j].name := Object(generated[j].elements[ix[j]])]
  {
    assert Lengths(Slices(generated))[j] == |Slices(generated)[j]|;
  }

  /** Picking from wrapped slices is wrapping what is chosen. */
  lemma PickIsNamedTuple(generated: seq<Generated>, ix: seq<nat>)
    requires ProperlyNamed(generated) && InRange(ix, Lengths(Slices(generated)))
    ensures Pick(Slices(generated), ix) == NamedTuple(NameList(generated), Chosen(generated, ix))
  {
    forall j | 0 <= j < |ix|
      ensures Pick(Slices(generated), ix)[j] == NamedTuple(NameList(generated), Chosen(generated, ix))[j]
    {
      IndexInElements(generated, ix, j);
    }
  }

  /** Deduplication never fires on a properly named product. */
  lemma NamedProductIsWhole(generated: seq<Generated>)
    requires generated != [] && ProperlyNamed(generated)
    ensures Product(generated) == MergeEach(Tuples(Slices(generated)))
  {
    var merged := MergeEach(Tuples(Slices(generated)));
    forall v, w | 0 <= v < w < |merged| ensures merged[v] != merged[w] {
      NamedMergesDiffer(generated, v, w);
    }
    DistinctStaysWhole(merged);
  }

  /** Named products lose nothing: there is one result per index tuple, and the result at a tuple's
      position gives every chosen element back. */
  lemma NamedProductIsLossless(generated: seq<Generated>, ix: seq<nat>)
    requires generated != [] && ProperlyNamed(generated)
    requires InRange(ix, Lengths(Slices(generated)))
    ensures |Product(generated)| == Size(Lengths(Slices(generated)))
    ensures Reading(ix, Lengths(Slices(generated))) < |Product(generated)|
    ensures var result := Product(generated)[Reading(ix, Lengths(Slices(generated)))];
      ReadsBack(result, NameList(generated), Chosen(generated, ix))
  {
    NamedProductIsWhole(generated);
    TuplesCount(Slices(generated));
    TupleAtReading(Slices(generated), ix);
    PickIsNamedTuple(generated, ix);
    NamedMerge(NameList(generated), Chosen(generated, ix));
  }

  lemma NamedMergesDiffer(generated: seq<Generated>, v: nat, w: nat)
    requires ProperlyNamed(generated)
    requires v < w < |Tuples(Slices(generated))|
    ensures MergeAll(Tuples(Slices(generated))[v]) != MergeAll(Tuples(Slices(generated))[w])
  {
    var slices := Slices(generated);
    var lens := Lengths(slices);
    TuplesCount(slices);
    AllSlicesFilled(generated);
    var a, b := Digits(v, lens), Digits(w, lens);
    DigitsOfNumber(v, lens);
    DigitsOfNumber(w, lens);
    TupleAtReading(slices, a);
    TupleAtReading(slices, b);
    if MergeAll(Pick(slices, a)) == MergeAll(Pick(slices, b)) {
      PickIsNamedTuple(generated, a);
      PickIsNamedTuple(generated, b);
      ChoiceIsUnique(generated, a, b);
    }
  }

  lemma ChoiceIsUnique(generated: seq<Generated>, a: seq<nat>, b: seq<nat>)
    requires ProperlyNamed(generated)
    requires InRange(a, Lengths(Slices(generated))) && InRange(b, Lengths(Slices(generated)))
    requires MergeAll(NamedTuple(NameList(generated), Chosen(generated, a)))
          == MergeAll(NamedTuple(NameList(generated), Chosen(generated, b)))
    ensures a == b
  {
    var names := NameList(generated);
    NamedMerge(names, Chosen(generated, a));
    NamedMerge(names, Chosen(generated, b));
    forall j | 0 <= j < |a| ensures a[j] == b[j] {
      assert names[j] == generated[j].name;
      assert Object(Chosen(generated, a)[j]) == Object(Chosen(generated, b)[j]);
      IndexInElements(generated, a, j);
      IndexInElements(generated, b, j);
      DistinctIndexes(generated[j].elements, a[j], b[j]);
    }
  }

  lemma DistinctIndexes<T>(s: seq<T>, a: nat, b: nat)
    requires a < |s| && b < |s| && s[a] == s[b]
    requires forall k, l :: 0 <= k < l < |s| ==> s[k] != s[l]
    ensures a == b
  {
  }
}
