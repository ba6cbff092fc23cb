/** CYLGame/Utils.py: the incremental mean `OnlineMean`, over exact reals.
    Two names that the rest of the code imports from this file are not in
    it (`choose` and the `roll_after_n` mode of `OnlineMean`); they are
    given here as separately labelled definitions, specified only by their
    tests. */
module Utils {
  import opened Common

  /** The observable state of an OnlineMean: the count `i` and the mean. */
  datatype MeanState = MeanState(i: nat, mean: real)

  const Fresh := MeanState(0, 0.0)

  /** One `add(n)`: the first value becomes the mean; later ones are
      weighted by 1/(i+1). */
  function Step(s: MeanState, x: real): (r: MeanState)
    ensures r.i == s.i + 1
    ensures s.i == 0 ==> r.mean == x
    ensures s.i > 0 ==> r.mean * (s.i + 1) as real == s.mean * s.i as real + x
  {
    if s.i == 0 then MeanState(1, x)
    else MeanState(s.i + 1, (s.mean * s.i as real) / (s.i + 1) as real + x / (s.i + 1) as real)
  }

  /** The state after adding every element of `xs`, in order. */
  function AddAll(s: MeanState, xs: seq<real>): MeanState
    decreases |xs|
  {
    if xs == [] then s else AddAll(Step(s, xs[0]), xs[1..])
  }

  function Sum(xs: seq<real>): real
  {
    if xs == [] then 0.0 else xs[0] + Sum(xs[1..])
  }

  /** The sum of the values a state summarises: its mean times its count. */
  function Total(s: MeanState): real
  {
    s.mean * s.i as real
  }

  /** Resuming from a restored state with i > 0, the mean stays the exact
      average of the i earlier values (summarised by the mean) and the new ones. */
  lemma {:induction false} AddAllFromRestored(s: MeanState, xs: seq<real>)
    requires s.i > 0
    ensures AddAll(s, xs).i == s.i + |xs|
    ensures Total(AddAll(s, xs)) == Total(s) + Sum(xs)
    decreases |xs|
  {
    if xs != [] {
      var t := Step(s, xs[0]);
      AddAllFromRestored(t, xs[1..]);
      StepScales(s, xs[0]);
      assert AddAll(s, xs) == AddAll(t, xs[1..]);
      assert Sum(xs) == xs[0] + Sum(xs[1..]);
    }
  }

  /** One step from i > 0 values: the new total is the old total plus the
      new value. */
  lemma StepScales(s: MeanState, x: real)
    requires s.i > 0
    ensures Step(s, x).i == s.i + 1
    ensures Total(Step(s, x)) == Total(s) + x
  {
    var k := (s.i + 1) as real;
    assert ((s.mean * s.i as real) / k + x / k) * k == s.mean * s.i as real + x;
  }

  /** Starting fresh and adding xs gives count |xs| and mean sum(xs)/|xs|. */
  lemma {:induction false} AddAllFromFreshIsAverage(xs: seq<real>)
    requires xs != []
    ensures AddAll(Fresh, xs).i == |xs|
    ensures AddAll(Fresh, xs).mean == Sum(xs) / |xs| as real
  {
    var s := Step(Fresh, xs[0]);
    AddAllFromRestored(s, xs[1..]);
    var r := AddAll(s, xs[1..]);
    assert r.mean * |xs| as real == Sum(xs);
  }

  /** The mutable accumulator of the source: `add` updates both fields in
      place, `__add__` works on a copy. */
  class OnlineMean {
    var i: nat
    var mean: real

    function State(): MeanState
      reads this
    {
      MeanState(i, mean)
    }

    /** `OnlineMean(i=0, mean=0)`, or one restored from saved (i, mean). */
    constructor (i: nat, mean: real)
      ensures State() == MeanState(i, mean)
    {
      this.i := i;
      this.mean := mean;
    }

    /** `add(n)`: folds one value in and returns the new mean. */
    method Add(n: real) returns (m: real)
      modifies this
      ensures State() == Step(old(State()), n)
      ensures m == mean
    {
      if i == 0 {
        mean := n;
      } else {
        mean := (mean * i as real) / (i + 1) as real + n / (i + 1) as real;
      }
      i := i + 1;
      m := mean;
    }

    /** `a + x`: a new accumulator with x added; `a` itself is left unchanged. */
    method Plus(x: real) returns (r: OnlineMean)
      ensures fresh(r)
      ensures r.State() == Step(State(), x)
      ensures unchanged(this)
    {
      r := new OnlineMean(i, mean);
      var _ := r.Add(x);
    }

    /** `floored_mean`: `int(mean)`, truncation toward zero. */
    function FlooredMean(): (r: int)
      reads this
      ensures mean >= 0.0 ==> r == mean.Floor
      ensures mean < 0.0 ==> r as real - 1.0 < mean <= r as real
    {
      Trunc(mean)
    }
  }

  /** The test values of `floored_mean`: [0, 1] gives 0, [1.15, 1.33] gives 1,
      [1.75, 1.80] gives 1. */
  lemma FlooredMeanExamples()
    ensures Trunc(AddAll(Fresh, [0.0, 1.0]).mean) == 0
    ensures Trunc(AddAll(Fresh, [1.15, 1.33]).mean) == 1
    ensures Trunc(AddAll(Fresh, [1.75, 1.80]).mean) == 1
  {
    assert AddAll(Fresh, [0.0, 1.0]).mean == 0.5;
    assert AddAll(Fresh, [1.15, 1.33]).mean == 1.24;
    assert AddAll(Fresh, [1.75, 1.80]).mean == 1.775;
  }

  // ---------------------------------------------------------------------
  // Labelled extension, specified from tests/utils/test_OnlineMean.py only:
  // `OnlineMean(..., roll_after_n=r)`, which the shown Utils.py does not have.
  // ---------------------------------------------------------------------

  /** One `add(x)` in rolling mode: once the count has reached r it is first
      clamped to r - 1, so the new value always weighs at least 1/r. */
  function RollingStep(s: MeanState, x: real, r: nat): (t: MeanState)
    requires r >= 1
    ensures s.i <= r ==> t.i <= r
    ensures s.i >= r ==> t.i == r
    ensures s.i < r ==> t == Step(s, x)
  {
    if s.i >= r then Step(MeanState(r - 1, s.mean), x) else Step(s, x)
  }

  function RollingAddAll(s: MeanState, xs: seq<real>, r: nat): MeanState
    requires r >= 1
    decreases |xs|
  {
    if xs == [] then s else RollingAddAll(RollingStep(s, xs[0], r), xs[1..], r)
  }

  /** Until the count reaches r, rolling mode is the plain exact mean. */
  lemma {:induction false} RollingAgreesBeforeThreshold(xs: seq<real>, r: nat)
    requires r >= 1 && 0 < |xs| <= r
    ensures RollingAddAll(Fresh, xs, r) == AddAll(Fresh, xs)
  {
    RollingAgreesFrom(Fresh, xs, r);
  }

  lemma {:induction false} RollingAgreesFrom(s: MeanState, xs: seq<real>, r: nat)
    requires r >= 1 && s.i + |xs| <= r
    ensures RollingAddAll(s, xs, r) == AddAll(s, xs)
    decreases |xs|
  {
    if xs != [] {
      RollingAgreesFrom(Step(s, xs[0]), xs[1..], r);
    }
  }

  /** The count never exceeds r, whatever is added. */
  lemma {:induction false} RollingCountBounded(s: MeanState, xs: seq<real>, r: nat)
    requires r >= 1 && s.i <= r
    ensures RollingAddAll(s, xs, r).i <= r
    ensures xs != [] && s.i + |xs| >= r ==> RollingAddAll(s, xs, r).i == r
    decreases |xs|
  {
    if xs != [] {
      RollingCountBounded(RollingStep(s, xs[0], r), xs[1..], r);
    }
  }

  /** The two rolling test cases: [0,100,100,100,100,100] with r = 2 ends at
      96.875 (96.88 rounded), and [0] + [100] * 10 with r = 10 ends at 91. */
  lemma RollingExamples()
    ensures RollingAddAll(Fresh, [0.0, 100.0, 100.0, 100.0, 100.0, 100.0], 2).mean == 96.875
    ensures RollingAddAll(Fresh, [0.0] + seq(10, _ => 100.0), 10).mean == 91.0
  {
    RollingExampleTwo();
    RollingExampleTen();
  }

  lemma RollingExampleTwo()
    ensures RollingAddAll(Fresh, [0.0, 100.0, 100.0, 100.0, 100.0, 100.0], 2).mean == 96.875
  {
    var xs := [0.0, 100.0, 100.0, 100.0, 100.0, 100.0];
    assert RollingAddAll(Fresh, xs, 2) == RollingAddAll(MeanState(1, 0.0), xs[1..], 2);
    assert RollingAddAll(MeanState(1, 0.0), xs[1..], 2) == RollingAddAll(MeanState(2, 50.0), xs[2..], 2);
    assert RollingAddAll(MeanState(2, 50.0), xs[2..], 2) == RollingAddAll(MeanState(2, 75.0), xs[3..], 2);
    assert RollingAddAll(MeanState(2, 75.0), xs[3..], 2) == RollingAddAll(MeanState(2, 87.5), xs[4..], 2);
    assert RollingAddAll(MeanState(2, 87.5), xs[4..], 2) == RollingAddAll(MeanState(2, 93.75), xs[5..], 2);
    assert RollingAddAll(MeanState(2, 93.75), xs[5..], 2) == MeanState(2, 96.875);
  }

  lemma RollingExampleTen()
    ensures RollingAddAll(Fresh, [0.0] + seq(10, _ => 100.0), 10).mean == 91.0
  {
    var ys := [0.0] + seq(10, _ => 100.0);
    var hundreds := seq(9, _ => 100.0);
    assert ys[..10] == [0.0] + hundreds;
    RollingAgreesBeforeThreshold(ys[..10], 10);
    AddAllFromFreshIsAverage(ys[..10]);
    SumOfConstant(hundreds, 100.0);
    assert Sum(ys[..10]) == 900.0;
    AddAllSplit(Fresh, ys[..10], ys[10..]);
    RollingAddAllSplit(Fresh, ys[..10], ys[10..], 10);
    assert ys[..10] + ys[10..] == ys;
    assert RollingAddAll(Fresh, ys[..10], 10) == MeanState(10, 90.0);
    assert RollingAddAll(MeanState(10, 90.0), ys[10..], 10) == MeanState(10, 91.0);
  }

  lemma {:induction false} SumOfConstant(xs: seq<real>, c: real)
    requires forall k :: 0 <= k < |xs| ==> xs[k] == c
    ensures Sum(xs) == |xs| as real * c
  {
    if xs != [] {
      SumOfConstant(xs[1..], c);
    }
  }

  lemma {:induction false} AddAllSplit(s: MeanState, xs: seq<real>, ys: seq<real>)
    ensures AddAll(s, xs + ys) == AddAll(AddAll(s, xs), ys)
    decreases |xs|
  {
    if xs == [] {
      assert xs + ys == ys;
    } else {
      assert (xs + ys)[1..] == xs[1..] + ys;
      AddAllSplit(Step(s, xs[0]), xs[1..], ys);
    }
  }

  lemma {:induction false} RollingAddAllSplit(s: MeanState, xs: seq<real>, ys: seq<real>, r: nat)
    requires r >= 1
    ensures RollingAddAll(s, xs + ys, r) == RollingAddAll(RollingAddAll(s, xs, r), ys, r)
    decreases |xs|
  {
    if xs == [] {
      assert xs + ys == ys;
    } else {
      assert (xs + ys)[1..] == xs[1..] + ys;
      RollingAddAllSplit(RollingStep(s, xs[0], r), xs[1..], ys, r);
    }
  }

  // ---------------------------------------------------------------------
  // Labelled extension, specified from tests/utils/test_choose.py only:
  // `choose(n, k)`, the binomial coefficient.
  // ---------------------------------------------------------------------

  function Choose(n: nat, k: nat): nat
  {
    if k == 0 then 1
    else if n == 0 then 0
    else Choose(n - 1, k - 1) + Choose(n - 1, k)
  }

  lemma {:induction false} ChooseAboveIsZero(n: nat, k: nat)
    requires k > n
    ensures Choose(n, k) == 0
  {
    if n > 0 {
      ChooseAboveIsZero(n - 1, k - 1);
      ChooseAboveIsZero(n - 1, k);
    }
  }

  /** Absorption: k * C(n, k) == n * C(n-1, k-1). */
  lemma {:induction false} ChooseAbsorption(n: nat, k: nat)
    requires n >= 1 && k >= 1
    ensures k * Choose(n, k) == n * Choose(n - 1, k - 1)
  {
    if n == 1 {
      if k > 1 {
        ChooseAboveIsZero(1, k);
        ChooseAboveIsZero(0, k - 1);
      }
    } else if k == 1 {
      ChooseOne(n);
    } else {
      // k C(n,k) = k C(n-1,k-1) + k C(n-1,k)
      //          = (k-1) C(n-1,k-1) + C(n-1,k-1) + k C(n-1,k)
      //          = (n-1) C(n-2,k-2) + C(n-1,k-1) + (n-1) C(n-2,k-1)
      //          = (n-1) C(n-1,k-1) + C(n-1,k-1)
      var a, b := Choose(n - 1, k - 1), Choose(n - 1, k);
      var c, d := Choose(n - 2, k - 2), Choose(n - 2, k - 1);
      assert Choose(n, k) == a + b;
      assert a == c + d;
      ChooseAbsorption(n - 1, k - 1);
      assert (k - 1) * a == (n - 1) * c;
      ChooseAbsorption(n - 1, k);
      assert k * b == (n - 1) * d;
      Distribute(k, a, b);
      Distribute(n - 1, c, d);
      assert k * a == (k - 1) * a + a;
      assert n * a == (n - 1) * a + a;
    }
  }

  lemma Distribute(x: int, y: int, z: int)
    ensures x * (y + z) == x * y + x * z
  {
  }

  lemma {:induction false} ChooseOne(n: nat)
    ensures Choose(n, 1) == n
  {
    if n > 0 {
      ChooseOne(n - 1);
    }
  }

  /** The test values: C(1,1) = 1, C(2,2) = 1, C(4,2) = 6, C(52,5) = 2598960. */
  lemma ChooseExamples()
    ensures Choose(1, 1) == 1 && Choose(2, 2) == 1 && Choose(4, 2) == 6
    ensures Choose(52, 5) == 2598960
  {
    ChooseOne(48);
    ChooseAbsorption(49, 2);
    ChooseAbsorption(50, 3);
    ChooseAbsorption(51, 4);
    ChooseAbsorption(52, 5);
  }
}
