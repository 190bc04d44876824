// The exponential backoff of backend-shared/util/util.go, in exact arithmetic.
module ExponentialBackoffs {
  import opened Wrappers

  // The Go struct as a value: it is copied with every task entry that carries it.
  datatype Backoff = Backoff(factor: real, curr: Option<real>, min: real, max: real, jitter: bool)

  function Min(x: real, y: real): real {
    if x <= y then x else y
  }

  function Clamp(x: real, lo: real, hi: real): real {
    var raised := if x < lo then lo else x;
    if raised > hi then hi else raised
  }

  // One failure: `rand` is the draw in [0, 1) used when jitter is on.
  function Increased(b: Backoff, rand: real): Backoff {
    var next := match b.curr
      case None => b.min
      case Some(c) => Grown(b, c, rand);
    b.(curr := Some(Clamp(next, b.min, b.max)))
  }

  // Consecutive failures, the last draw of `rands` belonging to the last failure.
  function IncreasedBy(b: Backoff, rands: seq<real>): (r: Backoff)
    ensures r == b.(curr := r.curr)
    ensures |rands| > 0 ==> r.curr.Some?
  {
    if rands == [] then b
    else Increased(IncreasedBy(b, rands[..|rands| - 1]), rands[|rands| - 1])
  }

  // x multiplied n times by f.
  function Geometric(x: real, f: real, n: nat): real {
    if n == 0 then x else f * Geometric(x, f, n - 1)
  }

  ghost predicate Sane(b: Backoff) {
    1.0 <= b.factor && 0.0 < b.min <= b.max
  }

  ghost predicate Draws(rands: seq<real>) {
    forall i :: 0 <= i < |rands| ==> 0.0 <= rands[i] < 1.0
  }

  // The two curves between which the n-th delay lies; they meet when jitter is off.
  function LowerDelay(b: Backoff, n: nat): real {
    Min(b.max, Geometric(b.min, b.factor, n))
  }

  function UpperDelay(b: Backoff, n: nat): real {
    Min(b.max, Geometric(b.min, UpperFactor(b), n))
  }

  function UpperFactor(b: Backoff): real {
    if b.jitter then 1.1 * b.factor else b.factor
  }

  function Grown(b: Backoff, c: real, rand: real): real {
    if b.jitter then b.factor * c * (1.0 + rand * 0.10) else b.factor * c
  }

  ghost predicate OnCurve(b: Backoff, n: nat) {
    b.curr.Some? && LowerDelay(b, n) <= b.curr.value <= UpperDelay(b, n)
  }

  lemma MulMono(a: real, b: real, c: real, d: real)
    requires 0.0 <= a <= b && 0.0 <= c <= d
    ensures a * c <= b * d
  {
    assert (b - a) * c >= 0.0;
    assert b * (d - c) >= 0.0;
  }

  lemma GeometricGrows(x: real, f: real, n: nat)
    requires 0.0 < x && 1.0 <= f
    ensures x <= Geometric(x, f, n)
  {
    if n > 0 {
      GeometricGrows(x, f, n - 1);
      MulMono(1.0, f, x, Geometric(x, f, n - 1));
    }
  }

  // The growth of one failure, before it is cut to [min, max].
  lemma GrowthBounds(b: Backoff, c: real, rand: real)
    requires Sane(b) && b.min <= c && 0.0 <= rand < 1.0
    ensures b.min <= b.factor * c <= Grown(b, c, rand) <= UpperFactor(b) * c
  {
    MulMono(1.0, b.factor, c, c);
    var plain := b.factor * c;
    if b.jitter {
      MulMono(plain, plain, 1.0, 1.0 + rand * 0.10);
      MulMono(plain, plain, 1.0 + rand * 0.10, 1.1);
    }
  }

  lemma Scaled(f: real, g: real, c: real) returns (fg: real, fc: real)
    requires 1.0 <= f && 0.0 <= g && 0.0 <= c
    ensures fg == f * g && fc == f * c
    ensures c <= fc && (g <= c ==> fg <= fc) && (c <= g ==> fc <= fg)
  {
    fg, fc := f * g, f * c;
    MulMono(1.0, f, c, c);
    if g <= c {
      MulMono(f, f, g, c);
    } else {
      MulMono(f, f, c, g);
    }
    if g == c {
      assert fg == fc;
    }
  }

  // Growing a delay that lies above (below) a point of a curve keeps it above (below) the next.
  lemma CurveStep(b: Backoff, f: real, n: nat, c: real) returns (grown: real)
    requires Sane(b) && 1.0 <= f && 0.0 <= c
    ensures grown == f * c
    ensures Min(b.max, Geometric(b.min, f, n)) <= c ==> Min(b.max, Geometric(b.min, f, n + 1)) <= Min(b.max, grown)
    ensures c <= Min(b.max, Geometric(b.min, f, n)) ==> Min(b.max, grown) <= Min(b.max, Geometric(b.min, f, n + 1))
  {
    GeometricGrows(b.min, f, n);
    var next, fc := Scaled(f, Geometric(b.min, f, n), c);
    grown := fc;
  }

  lemma AboveMin(b: Backoff, n: nat, c: real)
    requires Sane(b) && LowerDelay(b, n) <= c
    ensures b.min <= c
  {
    GeometricGrows(b.min, b.factor, n);
  }

  // The new delay lies between any bounds that the two growths without a draw respect.
  lemma IncreasedBetween(b: Backoff, c: real, rand: real, low: real, high: real)
    requires Sane(b) && b.curr == Some(c) && b.min <= c && 0.0 <= rand < 1.0
    requires low <= Min(b.max, b.factor * c) && Min(b.max, UpperFactor(b) * c) <= high
    ensures low <= Increased(b, rand).curr.value <= high
  {
    GrowthBounds(b, c, rand);
  }

  // One more failure moves from the n-th point of the curves to the next one.
  lemma IncreaseMovesAlongCurve(b: Backoff, n: nat, rand: real)
    requires Sane(b) && OnCurve(b, n) && 0.0 <= rand < 1.0
    ensures OnCurve(Increased(b, rand), n + 1)
  {
    var c := b.curr.value;
    AboveMin(b, n, c);
    LowerStep(b, n, c);
    UpperStep(b, n, c);
    IncreasedBetween(b, c, rand, LowerDelay(b, n + 1), UpperDelay(b, n + 1));
  }

  lemma LowerStep(b: Backoff, n: nat, c: real)
    requires Sane(b) && 0.0 <= c && LowerDelay(b, n) <= c
    ensures LowerDelay(b, n + 1) <= Min(b.max, b.factor * c)
  {
    var grown := CurveStep(b, b.factor, n, c);
  }

  lemma UpperStep(b: Backoff, n: nat, c: real)
    requires Sane(b) && 0.0 <= c <= UpperDelay(b, n)
    ensures Min(b.max, UpperFactor(b) * c) <= UpperDelay(b, n + 1)
  {
    var grown := CurveStep(b, UpperFactor(b), n, c);
  }

  // From a struct that was never used (curr is nil), the n-th delay in a row.
  lemma {:induction false} NthDelay(b: Backoff, rands: seq<real>)
    requires Sane(b) && b.curr.None? && Draws(rands) && |rands| > 0
    ensures OnCurve(IncreasedBy(b, rands), |rands| - 1)
    ensures b.min <= IncreasedBy(b, rands).curr.value <= b.max
    ensures !b.jitter ==> IncreasedBy(b, rands).curr.value == Min(b.max, Geometric(b.min, b.factor, |rands| - 1))
  {
    var n := |rands| - 1;
    if n == 0 {
      assert IncreasedBy(b, rands[..0]) == b;
    } else {
      NthDelay(b, rands[..n]);
      IncreaseMovesAlongCurve(IncreasedBy(b, rands[..n]), n - 1, rands[n]);
    }
    assert !b.jitter ==> LowerDelay(b, n) == UpperDelay(b, n);
  }

  // After Reset the first delay is already one factor up, and so is every later one.
  lemma {:induction false} NthDelayAfterReset(b: Backoff, rands: seq<real>)
    requires Sane(b) && b.curr == Some(b.min) && Draws(rands)
    ensures OnCurve(IncreasedBy(b, rands), |rands|)
  {
    if |rands| > 0 {
      var n := |rands| - 1;
      NthDelayAfterReset(b, rands[..n]);
      IncreaseMovesAlongCurve(IncreasedBy(b, rands[..n]), n, rands[n]);
    }
  }

  // Jitter stretches the growth by any part of up to a tenth.
  lemma JitterCovers(b: Backoff, c: real, stretch: real)
    requires b.jitter && 0.0 <= stretch < 0.1
    ensures exists rand :: 0.0 <= rand < 1.0 && Grown(b, c, rand) == b.factor * c * (1.0 + stretch)
  {
    var rand := stretch * 10.0;
    assert rand * 0.10 == stretch;
    assert Grown(b, c, rand) == b.factor * c * (1.0 + stretch);
  }

  class ExponentialBackoff {
    const factor: real
    const min: real
    const max: real
    const jitter: bool
    var curr: Option<real>

    constructor (b: Backoff)
      ensures Value() == b
    {
      factor, min, max, jitter, curr := b.factor, b.min, b.max, b.jitter, b.curr;
    }

    function Value(): Backoff
      reads this
    {
      Backoff(factor, curr, min, max, jitter)
    }

    method Reset()
      modifies this
      ensures Value() == old(Value()).(curr := Some(min))
    {
      curr := Some(min);
    }

    method IncreaseDueToFail(rand: real)
      modifies this
      ensures Value() == Increased(old(Value()), rand)
    {
      ghost var before := Value();
      if curr.None? {
        curr := Some(min);
      } else {
        var newDuration := factor * curr.value;
        if jitter {
          newDuration := newDuration * (1.0 + rand * 0.10);
        }
        assert newDuration == Grown(before, before.curr.value, rand);
        curr := Some(newDuration);
      }
      assert before.curr.None? || curr == Some(Grown(before, before.curr.value, rand));
      if curr.value < min {
        curr := Some(min);
      }
      if curr.value > max {
        curr := Some(max);
      }
    }

    method IncreaseAndReturnNewDuration(rand: real) returns (delay: real)
      modifies this
      ensures Value() == Increased(old(Value()), rand)
      ensures Some(delay) == Value().curr
    {
      IncreaseDueToFail(rand);
      delay := curr.value;
    }
  }
}
