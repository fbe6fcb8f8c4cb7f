/** nextIndex: an in-place odometer over the indexes of several slices, read as a mixed-radix number. */
module Odometer {

  /** Multiplication by repeated addition, so that every proof below is in linear arithmetic. */
  function Times(x: nat, y: nat): nat {
    if x == 0 then 0 else Times(x - 1, y) + y
  }

  lemma {:induction false} TimesIsProduct(x: nat, y: nat)
    ensures Times(x, y) == x * y
  {
    if x > 0 {
      TimesIsProduct(x - 1, y);
      assert x * y == (x - 1) * y + y;
    }
  }

  lemma {:induction false} TimesDistributes(x: nat, y: nat, z: nat)
    ensures Times(x + y, z) == Times(x, z) + Times(y, z)
  {
    if x > 0 { TimesDistributes(x - 1, y, z); }
  }

  lemma {:induction false} TimesAssociates(x: nat, y: nat, z: nat)
    ensures Times(x, Times(y, z)) == Times(Times(x, y), z)
  {
    if x > 0 {
      TimesAssociates(x - 1, y, z);
      TimesDistributes(Times(x - 1, y), y, z);
    }
  }

  lemma TimesMonotone(x: nat, y: nat, z: nat)
    requires x <= y
    ensures Times(x, z) <= Times(y, z)
  {
    TimesDistributes(x, y - x, z);
  }

  /** The number of index tuples. */
  function Size(lens: seq<nat>): nat {
    if lens == [] then 1 else Times(lens[0], Size(lens[1..]))
  }

  /** The indexes as a mixed-radix number, most significant digit first. */
  function Reading(ix: seq<nat>, lens: seq<nat>): nat
    requires |ix| == |lens|
  {
    if ix == [] then 0 else Times(ix[0], Size(lens[1..])) + Reading(ix[1..], lens[1..])
  }

  /** Every digit is an index into its slice. */
  predicate InRange(ix: seq<nat>, lens: seq<nat>) {
    |ix| == |lens| && forall j :: 0 <= j < |ix| ==> ix[j] < lens[j]
  }

  /** Every digit but the leading one is an index into its slice. */
  predicate TailInRange(ix: seq<nat>, lens: seq<nat>) {
    |ix| == |lens| && forall j :: 1 <= j < |ix| ==> ix[j] < lens[j]
  }

  lemma {:induction false} SizeOfConcat(a: seq<nat>, b: seq<nat>)
    ensures Size(a + b) == Times(Size(a), Size(b))
  {
    if a == [] {
      assert a + b == b;
      assert Times(1, Size(b)) == Times(0, Size(b)) + Size(b);
    } else {
      SizeOfConcat(a[1..], b);
      assert (a + b)[1..] == a[1..] + b;
      TimesAssociates(a[0], Size(a[1..]), Size(b));
    }
  }

  lemma {:induction false} ReadingOfConcat(a: seq<nat>, la: seq<nat>, b: seq<nat>, lb: seq<nat>)
    requires |a| == |la| && |b| == |lb|
    ensures Reading(a + b, la + lb) == Times(Reading(a, la), Size(lb)) + Reading(b, lb)
    decreases |a|
  {
    if a == [] {
      assert a + b == b && la + lb == lb;
    } else {
      ReadingOfConcat(a[1..], la[1..], b, lb);
      SizeOfConcat(la[1..], lb);
      assert (a + b)[1..] == a[1..] + b && (la + lb)[1..] == la[1..] + lb;
      TimesAssociates(a[0], Size(la[1..]), Size(lb));
      TimesDistributes(Times(a[0], Size(la[1..])), Reading(a[1..], la[1..]), Size(lb));
    }
  }

  lemma {:induction false} ReadingBelowSize(ix: seq<nat>, lens: seq<nat>)
    requires InRange(ix, lens)
    ensures Reading(ix, lens) < Size(lens)
    decreases |ix|
  {
    if ix != [] {
      ReadingBelowSize(ix[1..], lens[1..]);
      Carry(ix[0], lens[0], Reading(ix[1..], lens[1..]), Size(lens[1..]));
    }
  }

  lemma Carry(digit: nat, len: nat, rest: nat, size: nat)
    requires rest < size
    ensures digit < len <==> Times(digit, size) + rest < Times(len, size)
  {
    if digit < len {
      TimesMonotone(digit + 1, len, size);
    } else {
      TimesMonotone(len, digit, size);
    }
  }

  /** The outer loop's guard compares the number with the number of tuples. */
  lemma GuardIsBelowSize(ix: seq<nat>, lens: seq<nat>)
    requires TailInRange(ix, lens) && ix != []
    ensures ix[0] < lens[0] <==> Reading(ix, lens) < Size(lens)
  {
    ReadingBelowSize(ix[1..], lens[1..]);
    Carry(ix[0], lens[0], Reading(ix[1..], lens[1..]), Size(lens[1..]));
  }

  lemma {:induction false} ZerosAreZero(ix: seq<nat>, lens: seq<nat>)
    requires |ix| == |lens| && forall j :: 0 <= j < |ix| ==> ix[j] == 0
    ensures Reading(ix, lens) == 0
    decreases |ix|
  {
    if ix != [] {
      ZerosAreZero(ix[1..], lens[1..]);
      assert Times(0, Size(lens[1..])) == 0;
    }
  }

  /** All digits at their largest: the next increment carries through. */
  lemma {:induction false} NinesAreLast(ix: seq<nat>, lens: seq<nat>)
    requires |ix| == |lens| && forall j :: 0 <= j < |ix| ==> ix[j] + 1 == lens[j]
    ensures Reading(ix, lens) + 1 == Size(lens)
    decreases |ix|
  {
    if ix != [] {
      NinesAreLast(ix[1..], lens[1..]);
      assert Times(lens[0], Size(lens[1..])) == Times(ix[0], Size(lens[1..])) + Size(lens[1..]);
    }
  }

  lemma ReadingOfCons(digit: nat, tail: seq<nat>, lens: seq<nat>)
    requires |lens| == 1 + |tail|
    ensures Reading([digit] + tail, lens) == Times(digit, Size(lens[1..])) + Reading(tail, lens[1..])
  {
    assert ([digit] + tail)[1..] == tail;
  }

  /** Incrementing the first digit and clearing full digits after it adds one. */
  lemma CarryIntoFirst(digit: nat, full: seq<nat>, clear: seq<nat>, lens: seq<nat>)
    requires |full| == |clear| && |lens| == 1 + |full|
    requires forall m :: 0 <= m < |full| ==> full[m] + 1 == lens[m + 1] && clear[m] == 0
    ensures Reading([digit + 1] + clear, lens) == Reading([digit] + full, lens) + 1
  {
    ReadingOfCons(digit, full, lens);
    ReadingOfCons(digit + 1, clear, lens);
    NinesAreLast(full, lens[1..]);
    ZerosAreZero(clear, lens[1..]);
    assert Times(digit + 1, Size(lens[1..])) == Times(digit, Size(lens[1..])) + Size(lens[1..]);
  }

  lemma ReadingSplitAt(ix: seq<nat>, lens: seq<nat>, j: nat)
    requires |ix| == |lens| && j < |ix|
    ensures Reading(ix, lens)
         == Times(Reading(ix[..j], lens[..j]), Size(lens[j..])) + Reading([ix[j]] + ix[j + 1..], lens[j..])
  {
    ReadingOfConcat(ix[..j], lens[..j], ix[j..], lens[j..]);
    assert ix == ix[..j] + ix[j..] && lens == lens[..j] + lens[j..];
    assert ix[j..] == [ix[j]] + ix[j + 1..];
  }

  /** The same at digit j. */
  lemma CarryAddsOne(was: seq<nat>, now: seq<nat>, lens: seq<nat>, j: nat)
    requires |was| == |now| == |lens| && j < |was|
    requires now[..j] == was[..j] && now[j] == was[j] + 1
    requires forall m :: j < m < |was| ==> was[m] + 1 == lens[m] && now[m] == 0
    ensures Reading(now, lens) == Reading(was, lens) + 1
  {
    ReadingSplitAt(was, lens, j);
    ReadingSplitAt(now, lens, j);
    CarryIntoFirst(was[j], was[j + 1..], now[j + 1..], lens[j..]);
  }

  /** One call moves to the next tuple: the number grows by exactly one and every digit but the
      leading one stays an index into its slice. */
  method NextIndex<T>(ix: array<nat>, slices: seq<seq<T>>)
    requires TailInRange(ix[..], Lengths(slices))
    modifies ix
    ensures ix.Length > 0 ==> Reading(ix[..], Lengths(slices)) == Reading(old(ix[..]), Lengths(slices)) + 1
    ensures TailInRange(ix[..], Lengths(slices))
  {
    ghost var was, lens := ix[..], Lengths(slices);
    var j := ix.Length - 1;
    while j >= 0
      invariant -1 <= j < ix.Length && (ix.Length > 0 ==> 0 <= j)
      invariant ix[..j + 1] == was[..j + 1]
      invariant forall m :: j < m < ix.Length ==> was[m] + 1 == lens[m] && ix[m] == 0
    {
      ix[j] := ix[j] + 1;
      if j == 0 || ix[j] < |slices[j]| {
        assert ix[..][..j] == was[..j];
        CarryAddsOne(was, ix[..], lens, j);
        return;
      }
      assert was[j] < lens[j];
      ix[j] := 0;
      j := j - 1;
    }
  }

  function Lengths<T>(slices: seq<seq<T>>): (lens: seq<nat>)
    ensures |lens| == |slices|
  {
    seq(|slices|, i requires 0 <= i < |slices| => |slices[i]|)
  }

  // ---------- every number is exactly one tuple ----------

  /** How often `size` goes into `v`. */
  function Quotient(v: nat, size: nat): nat
    requires size > 0
    decreases v
  {
    if v < size then 0 else 1 + Quotient(v - size, size)
  }

  lemma {:induction false} QuotientFacts(v: nat, size: nat)
    requires size > 0
    ensures Times(Quotient(v, size), size) <= v < Times(Quotient(v, size), size) + size
    decreases v
  {
    if v >= size { QuotientFacts(v - size, size); }
  }

  /** The tuple a number stands for. */
  function Digits(v: nat, lens: seq<nat>): (ix: seq<nat>)
    requires forall j :: 0 <= j < |lens| ==> lens[j] > 0
    ensures |ix| == |lens|
  {
    if lens == [] then []
    else
      SizeIsPositive(lens[1..]);
      var q := Quotient(v, Size(lens[1..]));
      QuotientFacts(v, Size(lens[1..]));
      [q] + Digits(v - Times(q, Size(lens[1..])), lens[1..])
  }

  lemma {:induction false} SizeIsPositive(lens: seq<nat>)
    requires forall j :: 0 <= j < |lens| ==> lens[j] > 0
    ensures Size(lens) > 0
  {
    if lens != [] {
      SizeIsPositive(lens[1..]);
      assert Times(lens[0], Size(lens[1..])) == Times(lens[0] - 1, Size(lens[1..])) + Size(lens[1..]);
    }
  }

  lemma {:induction false} DigitsOfNumber(v: nat, lens: seq<nat>)
    requires forall j :: 0 <= j < |lens| ==> lens[j] > 0
    requires v < Size(lens)
    ensures InRange(Digits(v, lens), lens) && Reading(Digits(v, lens), lens) == v
    decreases |lens|
  {
    if lens != [] {
      var size := Size(lens[1..]);
      SizeIsPositive(lens[1..]);
      QuotientFacts(v, size);
      var q := Quotient(v, size);
      var r := v - Times(q, size);
      DigitsOfNumber(r, lens[1..]);
      Carry(q, lens[0], r, size);
      assert Digits(v, lens) == [q] + Digits(r, lens[1..]);
      assert Digits(v, lens)[1..] == Digits(r, lens[1..]);
    }
  }

  /** Different tuples are different numbers. */
  lemma {:induction false} ReadingIsInjective(a: seq<nat>, b: seq<nat>, lens: seq<nat>)
    requires InRange(a, lens) && InRange(b, lens) && Reading(a, lens) == Reading(b, lens)
    ensures a == b
    decreases |a|
  {
    if a != [] {
      var size := Size(lens[1..]);
      ReadingBelowSize(a[1..], lens[1..]);
      ReadingBelowSize(b[1..], lens[1..]);
      if a[0] < b[0] { Carry(a[0], b[0], Reading(a[1..], lens[1..]), size); }
      if b[0] < a[0] { Carry(b[0], a[0], Reading(b[1..], lens[1..]), size); }
      ReadingIsInjective(a[1..], b[1..], lens[1..]);
      assert a == [a[0]] + a[1..] && b == [b[0]] + b[1..];
    }
  }

  /** The odometer runs from [0, ..., 0] to [len(slices[0]), 0, ..., 0]. */
  lemma EndOfRun(ix: seq<nat>, lens: seq<nat>)
    requires TailInRange(ix, lens) && ix != [] && Reading(ix, lens) == Size(lens)
    ensures ix[0] == lens[0] && forall j :: 1 <= j < |ix| ==> ix[j] == 0
  {
    var tail, rest, size := ix[1..], lens[1..], Size(lens[1..]);
    ReadingBelowSize(tail, rest);
    Carry(ix[0], lens[0], Reading(tail, rest), size);
    Carry(ix[0], lens[0] + 1, Reading(tail, rest), size);
    assert Times(lens[0] + 1, size) == Times(lens[0], size) + size;
    assert ix[0] == lens[0];
    var zeros := seq(|tail|, _ => 0);
    ZerosAreZero(zeros, rest);
    assert InRange(zeros, rest) by {
      forall j | 0 <= j < |zeros| ensures zeros[j] < rest[j] { assert tail[j] < rest[j]; }
    }
    ReadingIsInjective(tail, zeros, rest);
    forall j | 1 <= j < |ix| ensures ix[j] == 0 { assert ix[j] == tail[j - 1] == zeros[j - 1]; }
  }
}
