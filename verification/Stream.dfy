/** A stream of items, each processed with its position in the stream, into lists that are concatenated. */
module Stream {
  import opened Wrappers

  type Step<!I, !U, !E> = (nat, I) -> Result<seq<U>, E>

  /** Processes the items in order, counting from `index`, and stops at the first error. */
  function Process<I, U, E>(items: seq<I>, index: nat, step: Step<I, U, E>): Result<seq<U>, E> {
    if items == [] then Ok([])
    else
      var head := step(index, items[0]);
      if head.Err? then head else Joined(head.value, Process(items[1..], index + 1, step))
  }

  lemma {:induction false} ProcessOfConcat<I, U, E>(a: seq<I>, b: seq<I>, index: nat, step: Step<I, U, E>)
    ensures Process(a + b, index, step)
         == if Process(a, index, step).Err? then Process(a, index, step)
            else Joined(Process(a, index, step).value, Process(b, index + |a|, step))
    decreases |a|
  {
    if a == [] {
      assert a + b == b;
      JoinedTwice([], [], Process(b, index, step));
    } else {
      assert (a + b)[0] == a[0] && (a + b)[1..] == a[1..] + b;
      ProcessOfConcat(a[1..], b, index + 1, step);
      var head, rest := step(index, a[0]), Process(a[1..], index + 1, step);
      if head.Ok? && rest.Ok? {
        JoinedTwice(head.value, rest.value, Process(b, index + |a|, step));
      }
    }
  }

  /** The result at one position of a stream that starts counting at `from`. */
  function At<I, U, E>(items: seq<I>, i: nat, from: nat, step: Step<I, U, E>): Result<seq<U>, E>
    requires i < |items|
  {
    step(from + i, items[i])
  }

  ghost predicate AllOk<I, U, E>(items: seq<I>, from: nat, step: Step<I, U, E>) {
    forall i :: 0 <= i < |items| ==> At(items, i, from, step).Ok?
  }

  /** The lists of all positions. */
  function Blocks<I, U, E>(items: seq<I>, from: nat, step: Step<I, U, E>): seq<seq<U>>
    requires AllOk(items, from, step)
  {
    seq(|items|, i requires 0 <= i < |items| => At(items, i, from, step).value)
  }

  function Flat<T>(groups: seq<seq<T>>): seq<T> {
    if groups == [] then [] else groups[0] + Flat(groups[1..])
  }

  /** Concatenation, list by list. */
  lemma {:induction false} FlatMeans<T>(a: seq<seq<T>>, b: seq<seq<T>>, list: seq<T>)
    ensures Flat<T>([]) == [] && Flat([list]) == list
    ensures Flat(a + b) == Flat(a) + Flat(b)
    decreases |a|
  {
    assert [list][1..] == [];
    if a == [] {
      assert a + b == b;
    } else {
      assert (a + b)[0] == a[0] && (a + b)[1..] == a[1..] + b;
      FlatMeans(a[1..], b, list);
      assert a[0] + (Flat(a[1..]) + Flat(b)) == (a[0] + Flat(a[1..])) + Flat(b);
    }
  }

  /** Processing succeeds exactly when every position does, and then concatenates their lists. */
  lemma {:induction false} ProcessIsFlat<I, U, E>(items: seq<I>, from: nat, step: Step<I, U, E>)
    ensures Process(items, from, step).Ok? <==> AllOk(items, from, step)
    ensures AllOk(items, from, step) ==> Process(items, from, step) == Ok(Flat(Blocks(items, from, step)))
    decreases |items|
  {
    if items != [] {
      var rest, next := items[1..], from + 1;
      ProcessIsFlat(rest, next, step);
      assert forall i :: 0 <= i < |rest| ==> At(rest, i, next, step) == At(items, i + 1, from, step);
      assert At(items, 0, from, step) == step(from, items[0]);
      if AllOk(items, from, step) {
        assert AllOk(rest, next, step);
        assert Blocks(items, from, step)[1..] == Blocks(rest, next, step);
      }
      if AllOk(rest, next, step) && At(items, 0, from, step).Ok? {
        forall i | 0 <= i < |items| ensures At(items, i, from, step).Ok? {
          if i > 0 { assert At(rest, i - 1, next, step).Ok?; }
        }
      }
    }
  }

  // ---------- streams that come in parts ----------

  /** Parts are obtained and processed one after the other, with one counter running through; the
      first error, of a part or of an item, ends it all. */
  function ProcessParts<I, U, E>(parts: seq<Result<seq<I>, E>>, index: nat, step: Step<I, U, E>): Result<seq<U>, E> {
    if parts == [] then Ok([])
    else
      match parts[0]
      case Err(e) => Err(e)
      case Ok(items) =>
        var head := Process(items, index, step);
        if head.Err? then head else Joined(head.value, ProcessParts(parts[1..], index + |items|, step))
  }

  ghost predicate AllObtained<I, E>(parts: seq<Result<seq<I>, E>>) {
    forall i :: 0 <= i < |parts| ==> parts[i].Ok?
  }

  lemma ObtainedOfCons<I, E>(head: Result<seq<I>, E>, rest: seq<Result<seq<I>, E>>)
    ensures AllObtained([head] + rest) <==> head.Ok? && AllObtained(rest)
  {
    var parts := [head] + rest;
    assert parts[0] == head;
    assert forall i :: 0 <= i < |rest| ==> parts[i + 1] == rest[i];
    if head.Ok? && AllObtained(rest) {
      forall i | 0 <= i < |parts| ensures parts[i].Ok? {
        if i > 0 { assert parts[i] == rest[i - 1]; }
      }
    }
  }

  function Whole<I, E>(parts: seq<Result<seq<I>, E>>): seq<I>
    requires AllObtained(parts)
  {
    if parts == [] then [] else parts[0].value + Whole(parts[1..])
  }

  /** A stream in parts succeeds only if all parts are obtained, and is then one stream. */
  lemma {:induction false} PartsAreOneStream<I, U, E>(parts: seq<Result<seq<I>, E>>, from: nat, step: Step<I, U, E>)
    ensures ProcessParts(parts, from, step).Ok? ==> AllObtained(parts)
    ensures AllObtained(parts) ==> ProcessParts(parts, from, step) == Process(Whole(parts), from, step)
    decreases |parts|
  {
    if parts != [] && parts[0].Ok? {
      var items := parts[0].value;
      PartsAreOneStream(parts[1..], from + |items|, step);
      if AllObtained(parts) {
        ProcessOfConcat(items, Whole(parts[1..]), from, step);
      }
    }
  }

  // ---------- the first failure ----------

  /** Item k is the first that fails, with error e. */
  ghost predicate FailsAt<I, U, E>(items: seq<I>, k: nat, from: nat, step: Step<I, U, E>, e: E) {
    k < |items| && AllOk(items[..k], from, step) && At(items, k, from, step) == Err(e)
  }

  ghost predicate SomeItemFails<I, U, E>(items: seq<I>, from: nat, step: Step<I, U, E>, e: E) {
    exists k: nat :: FailsAt(items, k, from, step, e)
  }

  lemma AllOkOfConcat<I, U, E>(a: seq<I>, b: seq<I>, from: nat, step: Step<I, U, E>)
    ensures AllOk(a + b, from, step) <==> AllOk(a, from, step) && AllOk(b, from + |a|, step)
  {
    ProcessOfConcat(a, b, from, step);
    ProcessIsFlat(a, from, step);
    ProcessIsFlat(b, from + |a|, step);
    ProcessIsFlat(a + b, from, step);
  }

  /** Failing first at k + 1 is not failing at once, and failing first at k of the rest. */
  lemma FailsAtNext<I, U, E>(items: seq<I>, k: nat, from: nat, step: Step<I, U, E>, e: E)
    requires items != []
    ensures FailsAt(items, k + 1, from, step, e) <==>
      At(items, 0, from, step).Ok? && FailsAt(items[1..], k, from + 1, step, e)
  {
    var rest := items[1..];
    if k < |rest| {
      assert items[..k + 1] == [items[0]] + rest[..k];
      AllOkOfConcat([items[0]], rest[..k], from, step);
      assert At([items[0]], 0, from, step) == At(items, 0, from, step);
      assert At(items, k + 1, from, step) == At(rest, k, from + 1, step);
    }
  }

  lemma {:induction false} FirstFailureDecides<I, U, E>(items: seq<I>, k: nat, from: nat, step: Step<I, U, E>, e: E)
    requires FailsAt(items, k, from, step, e)
    ensures Process(items, from, step) == Err(e)
    decreases k
  {
    assert At(items, 0, from, step) == step(from, items[0]);
    if k > 0 {
      FailsAtNext(items, k - 1, from, step, e);
      FirstFailureDecides(items[1..], k - 1, from + 1, step, e);
    }
  }

  /** Processing ends in an error exactly if that is the error of the first item that fails. */
  lemma {:induction false} ProcessFailsFirst<I, U, E>(items: seq<I>, from: nat, step: Step<I, U, E>, e: E)
    ensures Process(items, from, step) == Err(e) <==> SomeItemFails(items, from, step, e)
    decreases |items|
  {
    if k: nat :| FailsAt(items, k, from, step, e) {
      FirstFailureDecides(items, k, from, step, e);
    } else if Process(items, from, step) == Err(e) {
      assert At(items, 0, from, step) == step(from, items[0]);
      if At(items, 0, from, step).Err? {
        assert FailsAt(items, 0, from, step, e);
      } else {
        ProcessFailsFirst(items[1..], from + 1, step, e);
        var k: nat :| FailsAt(items[1..], k, from + 1, step, e);
        FailsAtNext(items, k, from, step, e);
      }
    }
  }

  /** Part i is the first that cannot be obtained or has an item that fails, with error e. */
  ghost predicate PartFails<I, U, E>(parts: seq<Result<seq<I>, E>>, i: nat, from: nat, step: Step<I, U, E>, e: E) {
    && i < |parts| && AllObtained(parts[..i])
    && AllOk(Whole(parts[..i]), from, step)
    && match parts[i] {
         case Err(error) => error == e
         case Ok(items) => SomeItemFails(items, from + |Whole(parts[..i])|, step, e)
       }
  }

  ghost predicate FailsFirst<I, U, E>(parts: seq<Result<seq<I>, E>>, from: nat, step: Step<I, U, E>, e: E) {
    exists i: nat :: PartFails(parts, i, from, step, e)
  }

  lemma PartFailsNext<I, U, E>(parts: seq<Result<seq<I>, E>>, i: nat, from: nat, step: Step<I, U, E>, e: E)
    requires parts != []
    ensures PartFails(parts, i + 1, from, step, e) <==>
      parts[0].Ok? && AllOk(parts[0].value, from, step)
      && PartFails(parts[1..], i, from + |parts[0].value|, step, e)
  {
    var rest := parts[1..];
    if i < |rest| {
      assert parts[..i + 1] == [parts[0]] + rest[..i];
      ObtainedOfCons(parts[0], rest[..i]);
      assert parts[i + 1] == rest[i];
      if AllObtained(parts[..i + 1]) {
        var items := parts[0].value;
        assert parts[..i + 1][1..] == rest[..i];
        assert Whole(parts[..i + 1]) == items + Whole(rest[..i]);
        AllOkOfConcat(items, Whole(rest[..i]), from, step);
      }
    }
  }

  lemma PartFailsAtOnce<I, U, E>(parts: seq<Result<seq<I>, E>>, from: nat, step: Step<I, U, E>, e: E)
    requires parts != []
    ensures PartFails(parts, 0, from, step, e) <==>
      match parts[0] {
        case Err(error) => error == e
        case Ok(items) => SomeItemFails(items, from, step, e)
      }
  {
    assert parts[..0] == [] && |Whole(parts[..0])| == 0;
  }

  lemma {:induction false} FirstPartDecides<I, U, E>(parts: seq<Result<seq<I>, E>>, i: nat, from: nat,
                                                     step: Step<I, U, E>, e: E)
    requires PartFails(parts, i, from, step, e)
    ensures ProcessParts(parts, from, step) == Err(e)
    decreases i
  {
    PartFailsAtOnce(parts, from, step, e);
    if i > 0 {
      PartFailsNext(parts, i - 1, from, step, e);
      ProcessIsFlat(parts[0].value, from, step);
      FirstPartDecides(parts[1..], i - 1, from + |parts[0].value|, step, e);
    } else if parts[0].Ok? {
      ProcessFailsFirst(parts[0].value, from, step, e);
    }
  }

  /** A stream in parts ends in an error exactly if that is the error of its first failure. */
  lemma {:induction false} PartsFailFirst<I, U, E>(parts: seq<Result<seq<I>, E>>, from: nat, step: Step<I, U, E>, e: E)
    ensures ProcessParts(parts, from, step) == Err(e) <==> FailsFirst(parts, from, step, e)
    decreases |parts|
  {
    if i: nat :| PartFails(parts, i, from, step, e) {
      FirstPartDecides(parts, i, from, step, e);
    } else if ProcessParts(parts, from, step) == Err(e) {
      PartFailsAtOnce(parts, from, step, e);
      assert parts[0].Ok?;
      var items := parts[0].value;
      ProcessFailsFirst(items, from, step, e);
      ProcessIsFlat(items, from, step);
      PartsFailFirst(parts[1..], from + |items|, step, e);
      var i: nat :| PartFails(parts[1..], i, from + |items|, step, e);
      PartFailsNext(parts, i, from, step, e);
    }
  }
}
