/** What the Cartesian product yields, in terms of what was generated: which map each choice of elements
    gives, which maps are results, and in which order. */
module Products {
  import opened Objects
  import opened Odometer
  import opened Matrix

  /** One index per generator, each into its elements. */
  ghost predicate Chooses(ix: seq<nat>, generated: seq<Generated>) {
    |ix| == |generated| && forall j :: 0 <= j < |ix| ==> ix[j] < |generated[j].elements|
  }

  /** Generator j's chosen element has this key: its own keys if it is unnamed, otherwise just the name. */
  ghost predicate HasKey(generated: seq<Generated>, ix: seq<nat>, j: nat, key: string)
    requires Chooses(ix, generated) && j < |ix|
  {
    if generated[j].name == "" then key in generated[j].elements[ix[j]] else key == generated[j].name
  }

  /** What it has there: the element's value if it is unnamed, otherwise the whole element. */
  function ValueAt(generated: seq<Generated>, ix: seq<nat>, j: nat, key: string): Value
    requires Chooses(ix, generated) && j < |ix| && HasKey(generated, ix, j, key)
  {
    if generated[j].name == "" then generated[j].elements[ix[j]][key] else Object(generated[j].elements[ix[j]])
  }

  /** Generator j is the last whose chosen element has this key. */
  ghost predicate LastWithKey(generated: seq<Generated>, ix: seq<nat>, j: nat, key: string)
    requires Chooses(ix, generated)
  {
    j < |ix| && HasKey(generated, ix, j, key) && forall l :: j < l < |ix| ==> !HasKey(generated, ix, l, key)
  }

  ghost predicate SomeHasKey(generated: seq<Generated>, ix: seq<nat>, key: string)
    requires Chooses(ix, generated)
  {
    exists j: nat :: j < |ix| && HasKey(generated, ix, j, key)
  }

  /** The map has exactly the keys the chosen elements have, each with the last one's value. */
  ghost predicate IsMergeOf(m: Params, generated: seq<Generated>, ix: seq<nat>) {
    && Chooses(ix, generated)
    && (forall key :: key in m <==> SomeHasKey(generated, ix, key))
    && (forall key, j: nat :: LastWithKey(generated, ix, j, key) ==>
          key in m && m[key] == ValueAt(generated, ix, j, key))
  }

  lemma ChoosesIffInRange(ix: seq<nat>, generated: seq<Generated>)
    ensures Chooses(ix, generated) <==> InRange(ix, Lengths(Slices(generated)))
  {
    if |ix| == |generated| {
      forall j | 0 <= j < |ix|
        ensures Lengths(Slices(generated))[j] == |generated[j].elements|
      {
        assert |Wrapped(generated[j])| == |generated[j].elements|;
      }
    }
  }

  /** A key is in a merge exactly if it is in some part, and then has the last such part's value. */
  lemma {:induction false} MergeAllMeans(tuple: seq<Params>, key: string)
    ensures key in MergeAll(tuple) <==> exists j: nat :: j < |tuple| && key in tuple[j]
    ensures forall j: nat :: j < |tuple| && key in tuple[j] && (forall l :: j < l < |tuple| ==> key !in tuple[l]) ==>
      key in MergeAll(tuple) && MergeAll(tuple)[key] == tuple[j][key]
    decreases |tuple|
  {
    if tuple != [] {
      var n := |tuple| - 1;
      MergeAllMeans(tuple[..n], key);
      if key in tuple[n] { assert exists j: nat :: j < |tuple| && key in tuple[j]; }
      forall j: nat | j < n ensures tuple[..n][j] == tuple[j] {
      }
    }
  }

  /** A picked part is what its generator has. */
  lemma PickMeans(generated: seq<Generated>, ix: seq<nat>, j: nat, key: string)
    requires Chooses(ix, generated) && j < |ix|
    ensures InRange(ix, Lengths(Slices(generated)))
    ensures key in Pick(Slices(generated), ix)[j] <==> HasKey(generated, ix, j, key)
    ensures HasKey(generated, ix, j, key) ==> Pick(Slices(generated), ix)[j][key] == ValueAt(generated, ix, j, key)
  {
    ChoosesIffInRange(ix, generated);
    assert Pick(Slices(generated), ix)[j] == Wrapped(generated[j])[ix[j]];
  }

  lemma MergeOfPickIsMerge(generated: seq<Generated>, ix: seq<nat>)
    requires Chooses(ix, generated)
    ensures InRange(ix, Lengths(Slices(generated)))
    ensures IsMergeOf(MergeAll(Pick(Slices(generated), ix)), generated, ix)
  {
    ChoosesIffInRange(ix, generated);
    var tuple := Pick(Slices(generated), ix);
    var m := MergeAll(tuple);
    forall key ensures key in m <==> SomeHasKey(generated, ix, key) {
      MergeAllMeans(tuple, key);
      if j: nat :| j < |tuple| && key in tuple[j] { PickMeans(generated, ix, j, key); }
      if j: nat :| j < |ix| && HasKey(generated, ix, j, key) { PickMeans(generated, ix, j, key); }
    }
    forall key, j: nat | LastWithKey(generated, ix, j, key)
      ensures key in m && m[key] == ValueAt(generated, ix, j, key)
    {
      MergeAllMeans(tuple, key);
      forall l | j <= l < |ix| ensures key in tuple[l] <==> HasKey(generated, ix, l, key) {
        PickMeans(generated, ix, l, key);
      }
      PickMeans(generated, ix, j, key);
    }
  }

  lemma {:induction false} LastExists(generated: seq<Generated>, ix: seq<nat>, key: string, j: nat) returns (last: nat)
    requires Chooses(ix, generated) && j < |ix| && HasKey(generated, ix, j, key)
    ensures LastWithKey(generated, ix, last, key)
    decreases |ix| - j
  {
    if l :| j < l < |ix| && HasKey(generated, ix, l, key) {
      last := LastExists(generated, ix, key, l);
    } else {
      last := j;
    }
  }

  /** The choice determines the map. */
  lemma MergeIsUnique(m: Params, other: Params, generated: seq<Generated>, ix: seq<nat>)
    requires IsMergeOf(m, generated, ix) && IsMergeOf(other, generated, ix)
    ensures m == other
  {
    forall key | key in m ensures key in other && other[key] == m[key] {
      assert SomeHasKey(generated, ix, key);
      var j: nat :| j < |ix| && HasKey(generated, ix, j, key);
      var last := LastExists(generated, ix, key, j);
    }
    forall key | key in other ensures key in m {
      assert SomeHasKey(generated, ix, key);
    }
    assert m.Keys == other.Keys;
  }

  /** A map is a result if and only if it is the merge of some choice of one element from every generator. */
  lemma ResultIffMerge(generated: seq<Generated>, m: Params)
    requires generated != [] && forall g :: g in generated ==> g.elements != []
    ensures m in Product(generated) <==> exists ix :: IsMergeOf(m, generated, ix)
  {
    ProductIsAllMerges(generated, m);
    var slices := Slices(generated);
    if m in Product(generated) {
      var ix :| InRange(ix, Lengths(slices)) && m == MergeAll(Pick(slices, ix));
      ChoosesIffInRange(ix, generated);
      MergeOfPickIsMerge(generated, ix);
    }
    if ix :| IsMergeOf(m, generated, ix) {
      MergeOfPickIsMerge(generated, ix);
      MergeIsUnique(m, MergeAll(Pick(slices, ix)), generated, ix);
    }
  }

  // ---------- the order ----------

  /** The first index in which they differ is smaller in a. */
  ghost predicate Precedes(a: seq<nat>, b: seq<nat>) {
    exists k: nat :: FirstSmaller(a, b, k)
  }

  ghost predicate FirstSmaller(a: seq<nat>, b: seq<nat>, k: nat) {
    k < |a| && k < |b| && a[k] < b[k] && forall i :: 0 <= i < k ==> a[i] == b[i]
  }

  /** A larger leading digit makes a larger number. */
  lemma LeadingDigitDecides(x: nat, y: nat, restOfX: nat, restOfY: nat, size: nat)
    requires restOfX < size
    ensures x < y ==> Times(x, size) + restOfX < Times(y, size) + restOfY
  {
    if x < y {
      TimesMonotone(x + 1, y, size);
      assert Times(x + 1, size) == Times(x, size) + size;
    }
  }

  /** The odometer's number orders tuples lexicographically. */
  lemma {:induction false} SmallerReadingPrecedes(a: seq<nat>, b: seq<nat>, lens: seq<nat>)
    requires InRange(a, lens) && InRange(b, lens) && Reading(a, lens) < Reading(b, lens)
    ensures Precedes(a, b)
    decreases |a|
  {
    if a[0] < b[0] {
      assert FirstSmaller(a, b, 0);
    } else {
      var restOfA, restOfB, rest := a[1..], b[1..], lens[1..];
      ReadingBelowSize(restOfB, rest);
      LeadingDigitDecides(b[0], a[0], Reading(restOfB, rest), Reading(restOfA, rest), Size(rest));
      SmallerReadingPrecedes(restOfA, restOfB, rest);
      var k: nat :| FirstSmaller(restOfA, restOfB, k);
      assert a[0] == b[0] && a[k + 1] == restOfA[k] && b[k + 1] == restOfB[k];
      assert forall i :: 0 < i < k + 1 ==> a[i] == restOfA[i - 1] && b[i] == restOfB[i - 1];
      assert FirstSmaller(a, b, k + 1);
    }
  }

  /** Position v is the first one with the p-th of the distinct values, before all positions of later ones. */
  lemma {:induction false} FirstPosition<T>(s: seq<T>, p: nat) returns (v: nat)
    requires p < |FirstOccurrences(s)|
    ensures v < |s| && s[v] == FirstOccurrences(s)[p]
    ensures forall q, u :: p < q < |FirstOccurrences(s)| && 0 <= u < |s| && s[u] == FirstOccurrences(s)[q] ==> v < u
    decreases |s|
  {
    var n := |s| - 1;
    var init, f, g := s[..n], FirstOccurrences(s[..n]), FirstOccurrences(s);
    FirstOccurrencesFacts(init);
    FirstOccurrencesFacts(s);
    if p < |f| {
      v := FirstPosition(init, p);
      forall q, u | p < q < |g| && 0 <= u < |s| && s[u] == g[q] ensures v < u {
        if u < n { assert init[u] == s[u] && g[q] in f; }
      }
    } else {
      v := n;
    }
  }

  /** The choice comes before every choice that gives this map. */
  ghost predicate PrecedesAll(ix: seq<nat>, m: Params, generated: seq<Generated>) {
    forall iy :: IsMergeOf(m, generated, iy) ==> Precedes(ix, iy)
  }

  /** The order of results: of two results the earlier one has a choice that precedes every choice of the later. */
  lemma ResultsInOrder(generated: seq<Generated>, p: nat, q: nat)
    requires generated != [] && forall g :: g in generated ==> g.elements != []
    requires p < q < |Product(generated)|
    ensures Product(generated)[p] != Product(generated)[q]
    ensures exists ix ::
      IsMergeOf(Product(generated)[p], generated, ix) && PrecedesAll(ix, Product(generated)[q], generated)
  {
    var slices := Slices(generated);
    var lens, merged, results := Lengths(slices), MergeEach(Tuples(slices)), Product(generated);
    FirstOccurrencesFacts(merged);
    TuplesCount(slices);
    AllSlicesFilled(generated);
    var v := FirstPosition(merged, p);
    DigitsOfNumber(v, lens);
    var ix := Digits(v, lens);
    TupleAtReading(slices, ix);
    ChoosesIffInRange(ix, generated);
    MergeOfPickIsMerge(generated, ix);
    forall iy | IsMergeOf(results[q], generated, iy) ensures Precedes(ix, iy) {
      MergeOfPickIsMerge(generated, iy);
      MergeIsUnique(results[q], MergeAll(Pick(slices, iy)), generated, iy);
      TupleAtReading(slices, iy);
      assert merged[Reading(iy, lens)] == results[q];
      SmallerReadingPrecedes(ix, iy, lens);
    }
    assert PrecedesAll(ix, results[q], generated);
  }
}
