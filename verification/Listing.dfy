/** Listing a set of refs: in map-iteration order (any order), and sorted by ID. */
module Listing {
  import opened Objects

  /** `order` lists `refs`, each once. Go's map iteration may produce any such order. */
  ghost predicate Enumerates(order: seq<Ref>, refs: set<Ref>) {
    && (forall i, j :: 0 <= i < j < |order| ==> order[i] != order[j])
    && RefSet(order) == refs
  }

  /** Strict order on ID strings, character by character, as Go's `<` on strings. */
  predicate Below(a: string, b: string) {
    b != [] && (a == [] || a[0] < b[0] || (a[0] == b[0] && Below(a[1..], b[1..])))
  }

  /** The strings agree up to k, where the first has ended or has the smaller character. */
  ghost predicate DifferAt(a: string, b: string, k: nat) {
    && k <= |a| && k < |b| && (forall i :: 0 <= i < k ==> a[i] == b[i])
    && (k == |a| || a[k] < b[k])
  }

  lemma {:induction false} BelowMeans(a: string, b: string)
    ensures Below(a, b) <==> exists k: nat :: DifferAt(a, b, k)
  {
    if a != [] && b != [] && a[0] == b[0] {
      BelowMeans(a[1..], b[1..]);
      if k: nat :| DifferAt(a[1..], b[1..], k) { assert DifferAt(a, b, k + 1); }
      if k: nat :| DifferAt(a, b, k) {
        assert k > 0;
        assert DifferAt(a[1..], b[1..], k - 1);
      }
    } else if Below(a, b) {
      assert DifferAt(a, b, 0);
    }
  }

  lemma {:induction false} BelowIsTotal(a: string, b: string)
    ensures a == b || Below(a, b) || Below(b, a)
    ensures !(Below(a, b) && Below(b, a))
    ensures a == b ==> !Below(a, b)
  {
    if a != [] && b != [] {
      BelowIsTotal(a[1..], b[1..]);
      assert a == [a[0]] + a[1..] && b == [b[0]] + b[1..];
    }
  }

  lemma {:induction false} BelowIsTransitive(a: string, b: string, c: string)
    requires Below(a, b) && Below(b, c)
    ensures Below(a, c)
  {
    if a != [] && a[0] == b[0] == c[0] {
      BelowIsTransitive(a[1..], b[1..], c[1..]);
    }
  }

  /** No entry is followed by one with a smaller ID. */
  ghost predicate SortedById(list: seq<Ref>) {
    forall i, j :: 0 <= i < j < |list| ==> !Below(list[j].id, list[i].id)
  }

  ghost predicate SortedListing(list: seq<Ref>, refs: set<Ref>) {
    Enumerates(list, refs) && SortedById(list)
  }

  lemma {:induction false} LeastExists(refs: set<Ref>) returns (least: Ref)
    requires refs != {}
    ensures least in refs && forall r :: r in refs ==> !Below(r.id, least.id)
  {
    least :| least in refs;
    var rest := refs - {least};
    if rest == {} {
      BelowIsTotal(least.id, least.id);
      assert refs == {least};
    } else {
      var other := LeastExists(rest);
      BelowIsTotal(least.id, least.id);
      if Below(other.id, least.id) {
        BelowIsTotal(other.id, least.id);
        least := other;
      } else {
        forall r | r in refs ensures !Below(r.id, least.id) {
          if Below(r.id, least.id) {
            BelowIsTotal(least.id, other.id);
            if least.id != other.id { BelowIsTransitive(r.id, least.id, other.id); }
          }
        }
      }
    }
  }

  /** The set library's SortedList with the comparison x.ID < y.ID. */
  method SortedList(refs: set<Ref>) returns (list: seq<Ref>)
    ensures SortedListing(list, refs)
  {
    list := [];
    var todo := refs;
    while todo != {}
      invariant todo !! RefSet(list) && todo + RefSet(list) == refs
      invariant Enumerates(list, RefSet(list)) && SortedById(list)
      invariant forall r, s :: r in todo && s in list ==> !Below(r.id, s.id)
      decreases todo
    {
      ghost var witnessed := LeastExists(todo);
      var least :| least in todo && forall r :: r in todo ==> !Below(r.id, least.id);
      assert least !in RefSet(list);
      assert RefSet(list + [least]) == RefSet(list) + {least};
      list, todo := list + [least], todo - {least};
    }
  }

  /** The set library's List: some order. */
  method UnorderedList(refs: set<Ref>) returns (list: seq<Ref>)
    ensures Enumerates(list, refs)
  {
    list := [];
    var todo := refs;
    while todo != {}
      invariant todo !! RefSet(list) && todo + RefSet(list) == refs
      invariant Enumerates(list, RefSet(list))
      decreases todo
    {
      var r :| r in todo;
      assert r !in RefSet(list);
      assert RefSet(list + [r]) == RefSet(list) + {r};
      list, todo := list + [r], todo - {r};
    }
  }

  /** With one version per ID the sorted listing is determined by the set alone. */
  lemma {:induction false} SortedListingIsUnique(a: seq<Ref>, b: seq<Ref>, refs: set<Ref>)
    requires SortedListing(a, refs) && SortedListing(b, refs)
    requires OneVersionPerId(refs)
    ensures a == b
    decreases |a|
  {
    if a == [] {
      assert b != [] ==> b[0] in RefSet(b);
    } else {
      assert a[0] in RefSet(a);
      assert a[0] in RefSet(b);
      assert b[0] in RefSet(b);
      assert b[0] in RefSet(a);
      var i :| 0 <= i < |b| && b[i] == a[0];
      var j :| 0 <= j < |a| && a[j] == b[0];
      BelowIsTotal(a[0].id, b[0].id);
      assert a[0] == b[0];
      RestIsListing(a, refs);
      RestIsListing(b, refs);
      SortedListingIsUnique(a[1..], b[1..], refs - {a[0]});
      assert a == [a[0]] + a[1..] && b == [b[0]] + b[1..];
    }
  }

  lemma RestIsListing(a: seq<Ref>, refs: set<Ref>)
    requires SortedListing(a, refs) && a != []
    ensures SortedListing(a[1..], refs - {a[0]})
  {
    assert a == [a[0]] + a[1..];
    assert RefSet(a) == {a[0]} + RefSet(a[1..]);
    assert a[0] !in RefSet(a[1..]);
  }
}
