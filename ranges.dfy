/** range(start, end + 1, step) and a loop over it that stops at the first
    exception: which values it visits and how many. */
module Ranges {
  import opened Wrappers

  /** The values of range(n, end + 1, step), in order. */
  function RangeValues(n: int, end: int, step: int): seq<int>
    requires step > 0
    decreases if n <= end then end - n + 1 else 0
  {
    if n > end then [] else [n] + RangeValues(n + step, end, step)
  }

  /** range(n0, end + 1, step) holds (end - n0) / step + 1 values when
      n0 <= end, the i-th being n0 + i * step, all within [n0, end]. */
  lemma {:induction false} RangeValuesShape(n0: int, end: int, step: int)
    requires step > 0
    ensures n0 > end ==> RangeValues(n0, end, step) == []
    ensures n0 <= end ==> |RangeValues(n0, end, step)| == (end - n0) / step + 1
    ensures forall i :: 0 <= i < |RangeValues(n0, end, step)| ==>
              RangeValues(n0, end, step)[i] == n0 + i * step <= end
    decreases if n0 <= end then end - n0 + 1 else 0
  {
    if n0 <= end {
      var rest := RangeValues(n0 + step, end, step);
      RangeValuesShape(n0 + step, end, step);
      if n0 + step > end {
        QuotientFromBounds(end - n0, step, 0);
      } else {
        DivStep(end - n0 - step, step);
      }
      forall i | 1 <= i < |RangeValues(n0, end, step)|
        ensures RangeValues(n0, end, step)[i] == n0 + i * step
      {
        assert RangeValues(n0, end, step)[i] == rest[i - 1];
        assert n0 + step + (i - 1) * step == n0 + i * step;
      }
    }
  }

  /** The values of range(n0, end + 1, step) lie in [n0, end], are
      congruent to n0 modulo step and strictly increase. */
  lemma RangeValuesOrdered(n0: int, end: int, step: int)
    requires step > 0
    ensures var vs := RangeValues(n0, end, step);
            (forall i :: 0 <= i < |vs| ==> n0 <= vs[i] <= end && (vs[i] - n0) % step == 0)
            && (forall i, j :: 0 <= i < j < |vs| ==> vs[i] < vs[j])
  {
    var vs := RangeValues(n0, end, step);
    RangeValuesShape(n0, end, step);
    forall i | 0 <= i < |vs|
      ensures n0 <= vs[i] <= end && (vs[i] - n0) % step == 0
    {
      StepOrder(n0, step, i, i + 1);
      StepCongruent(n0, step, i, vs[i]);
    }
    forall i, j | 0 <= i < j < |vs|
      ensures vs[i] < vs[j]
    {
      StepOrder(n0, step, i, j);
    }
  }

  /** The records make(n), make(n + step), ... that a loop over the values up
      to end yields, then the exception that stopped it, if any. */
  datatype Emitted<R, E> = Emitted(records: seq<R>, failure: Option<E>)

  function Emit<R, E>(make: int -> Result<R, E>, n: int, end: int, step: int): Emitted<R, E>
    requires step > 0
    decreases if n <= end then end - n + 1 else 0
  {
    if n > end then Emitted([], None)
    else
      match make(n)
      case Failure(e) => Emitted([], Some(e))
      case Success(r) =>
        var rest := Emit(make, n + step, end, step);
        Emitted([r] + rest.records, rest.failure)
  }

  /** The loop invariant "all is records followed by what the loop still
      yields from n", carried over one turn that yields r. */
  lemma EmitAppend<R, E>(make: int -> Result<R, E>, n: int, end: int, step: int,
                         all: Emitted<R, E>, records: seq<R>, r: R)
    requires step > 0 && n <= end && make(n) == Success(r)
    requires all == Emitted(records + Emit(make, n, end, step).records, Emit(make, n, end, step).failure)
    ensures all == Emitted((records + [r]) + Emit(make, n + step, end, step).records,
                           Emit(make, n + step, end, step).failure)
  {
    var rest := Emit(make, n + step, end, step);
    assert Emit(make, n, end, step) == Emitted([r] + rest.records, rest.failure);
    assert records + [r] + rest.records == records + ([r] + rest.records);
  }

  /** The same invariant, at a turn whose make fails with e: the loop ends
      with the records so far and e. */
  lemma EmitStop<R, E>(make: int -> Result<R, E>, n: int, end: int, step: int,
                       all: Emitted<R, E>, records: seq<R>, e: E)
    requires step > 0 && n <= end && make(n) == Failure(e)
    requires all == Emitted(records + Emit(make, n, end, step).records, Emit(make, n, end, step).failure)
    ensures all == Emitted(records, Some(e))
  {
    assert Emit(make, n, end, step) == Emitted([], Some(e));
    assert records + [] == records;
  }

  /** The loop visits a prefix of the range: the i-th record is made from
      the i-th value; a stream that ends normally has visited every value,
      and one that ends with an exception stopped at the next value, whose
      make failed with it. */
  lemma {:induction false} EmitShape<R, E>(make: int -> Result<R, E>, n0: int, end: int, step: int)
    requires step > 0
    ensures var s := Emit(make, n0, end, step);
            var vs := RangeValues(n0, end, step);
            |s.records| <= |vs| &&
            (forall i :: 0 <= i < |s.records| ==> make(vs[i]) == Success(s.records[i])) &&
            (s.failure.None? ==> |s.records| == |vs|) &&
            (s.failure.Some? ==> |s.records| < |vs| && make(vs[|s.records|]) == Failure(s.failure.value))
    decreases if n0 <= end then end - n0 + 1 else 0
  {
    if n0 <= end && make(n0).Success? {
      var s := Emit(make, n0, end, step);
      var vs := RangeValues(n0, end, step);
      var rest := Emit(make, n0 + step, end, step);
      EmitShape(make, n0 + step, end, step);
      assert s.records == [make(n0).value] + rest.records;
      assert vs == [n0] + RangeValues(n0 + step, end, step);
    }
  }

  lemma {:induction false} MulAtLeast(x: int, d: int)
    requires d > 0
    ensures x >= 1 ==> x * d >= d
    decreases if x > 0 then x else 0
  {
    if x > 1 {
      MulAtLeast(x - 1, d);
      assert x * d == (x - 1) * d + d;
    }
  }

  /** q is the quotient of a by d when q * d <= a < (q + 1) * d. */
  lemma QuotientFromBounds(a: int, d: int, q: int)
    requires d > 0 && q * d <= a < (q + 1) * d
    ensures a / d == q
  {
    var q' := a / d;
    var r' := a % d;
    assert a == d * q' + r' && 0 <= r' < d;
    assert (q + 1) * d == q * d + d;
    MulAtLeast(q - q', d);
    MulAtLeast(q' - q, d);
    assert (q - q') * d == q * d - q' * d;
    assert (q' - q) * d == q' * d - q * d;
  }

  /** Adding the divisor adds one to the quotient. */
  lemma DivStep(a: int, d: int)
    requires d > 0
    ensures (a + d) / d == a / d + 1
  {
    var q := a / d;
    assert q * d <= a < (q + 1) * d by {
      assert a == d * q + a % d;
      assert (q + 1) * d == q * d + d;
    }
    assert (q + 1) * d <= a + d < (q + 2) * d by {
      assert (q + 1) * d == q * d + d;
      assert (q + 2) * d == q * d + d + d;
    }
    QuotientFromBounds(a + d, d, q + 1);
  }

  /** Later values of the range are larger. */
  lemma StepOrder(n0: int, step: int, i: int, j: int)
    requires step > 0 && 0 <= i < j
    ensures n0 <= n0 + i * step < n0 + j * step
  {
    MulAtLeast(j - i, step);
    assert j * step - i * step == (j - i) * step;
    MulAtLeast(i, step);
  }

  /** Every value of the range is congruent to its first value modulo step. */
  lemma StepCongruent(n0: int, step: int, i: int, v: int)
    requires step > 0 && v == n0 + i * step
    ensures (v - n0) % step == 0
  {
    assert v - n0 == i * step;
    QuotientFromBounds(i * step, step, i);
  }
}
