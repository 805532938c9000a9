/**
 * Angle normalisation as done by the filter: a heading or bearing residual is
 * brought into [-pi, pi] by two `while` loops, the first subtracting 2*pi while
 * the value is above pi, the second adding 2*pi while it is below -pi.
 */
module Angles {

  /** M_PI as an IEEE-754 double, read exactly as a real number. */
  const Pi: real := 3.141592653589793115997963468544185161590576171875

  const TwoPi: real := 2.0 * Pi

  /** k whole turns. */
  function Turns(k: int): real {
    k as real * TwoPi
  }

  /** b differs from a by a whole number of turns. */
  ghost predicate Coterminal(a: real, b: real) {
    exists k: int :: b == a + Turns(k)
  }

  predicate InRange(a: real) {
    -Pi <= a <= Pi
  }

  /** What the first loop leaves behind: it subtracts 2*pi while the value is above pi. */
  function WrapDown(a: real): real
    decreases if a > Pi then (a - Pi).Floor + 1 else 0
  {
    if a > Pi then WrapDown(a - TwoPi) else a
  }

  /** What the second loop leaves behind: it adds 2*pi while the value is below -pi. */
  function WrapUp(a: real): real
    decreases if a < -Pi then (-Pi - a).Floor + 1 else 0
  {
    if a < -Pi then WrapUp(a + TwoPi) else a
  }

  /** The value the two loops produce, one after the other. */
  function Wrapped(a: real): (r: real)
    ensures InRange(r)
  {
    WrapDownBounds(a);
    WrapUpBounds(WrapDown(a));
    WrapUp(WrapDown(a))
  }

  lemma {:induction false} WrapDownBounds(a: real)
    ensures WrapDown(a) <= Pi
    ensures a <= Pi ==> WrapDown(a) == a
    ensures a > Pi ==> -Pi < WrapDown(a)
    ensures Coterminal(a, WrapDown(a))
    decreases if a > Pi then (a - Pi).Floor + 1 else 0
  {
    if a > Pi {
      WrapDownBounds(a - TwoPi);
      var k :| WrapDown(a - TwoPi) == a - TwoPi + Turns(k);
      assert WrapDown(a) == a + Turns(k - 1);
    } else {
      assert WrapDown(a) == a + Turns(0);
    }
  }

  lemma {:induction false} WrapUpBounds(a: real)
    ensures -Pi <= WrapUp(a)
    ensures -Pi <= a ==> WrapUp(a) == a
    ensures a < -Pi ==> WrapUp(a) < Pi
    ensures Coterminal(a, WrapUp(a))
    decreases if a < -Pi then (-Pi - a).Floor + 1 else 0
  {
    if a < -Pi {
      WrapUpBounds(a + TwoPi);
      var k :| WrapUp(a + TwoPi) == a + TwoPi + Turns(k);
      assert WrapUp(a) == a + Turns(k + 1);
    } else {
      assert WrapUp(a) == a + Turns(0);
    }
  }

  /**
   * The loops return a value in [-pi, pi] that differs from the input by a
   * whole number of turns, and leave a value already in [-pi, pi] alone.
   */
  lemma WrappedProperties(a: real)
    ensures InRange(Wrapped(a))
    ensures Coterminal(a, Wrapped(a))
    ensures InRange(a) ==> Wrapped(a) == a
  {
    var d := WrapDown(a);
    WrapDownBounds(a);
    WrapUpBounds(d);
    var k :| d == a + Turns(k);
    var j :| WrapUp(d) == d + Turns(j);
    assert Wrapped(a) == a + Turns(k + j);
  }

  /** Wrapping twice is wrapping once. */
  lemma WrappedIdempotent(a: real)
    ensures Wrapped(Wrapped(a)) == Wrapped(a)
  {
    WrappedProperties(a);
    WrappedProperties(Wrapped(a));
  }

  /**
   * Two values of [-pi, pi] a whole number of turns apart are equal, except
   * for the pair -pi, pi, which both loops leave as they are.
   */
  lemma CoterminalInRange(a: real, b: real)
    requires InRange(a) && InRange(b) && Coterminal(a, b)
    ensures a == b || (a == -Pi && b == Pi) || (a == Pi && b == -Pi)
  {
    var k :| b == a + Turns(k);
    if k == 1 {
      assert b == a + TwoPi;
    } else if k == -1 {
      assert b == a - TwoPi;
    } else {
      assert b == a;
    }
  }

  /**
   * The wrapped value is the representative of its input in [-pi, pi]: any
   * other value of [-pi, pi] a whole number of turns away from the input is
   * the same one, or the opposite end of the interval.
   */
  lemma WrappedRepresentative(a: real, b: real)
    requires InRange(b) && Coterminal(a, b)
    ensures b == Wrapped(a) || (b == -Pi && Wrapped(a) == Pi) || (b == Pi && Wrapped(a) == -Pi)
  {
    WrappedProperties(a);
    var k :| b == a + Turns(k);
    var j :| Wrapped(a) == a + Turns(j);
    assert Wrapped(a) == b + Turns(j - k);
    CoterminalInRange(b, Wrapped(a));
  }

  /**
   * The paired normalisation loops: a residual is brought into [-pi, pi] by
   * whole turns.
   */
  method NormalizeAngle(a: real) returns (r: real)
    ensures r == Wrapped(a)
    ensures InRange(r) && Coterminal(a, r)
    ensures InRange(a) ==> r == a
  {
    r := a;
    while r > Pi
      invariant WrapDown(r) == WrapDown(a)
      decreases (r - Pi).Floor
    {
      r := r - TwoPi;
    }
    while r < -Pi
      invariant WrapUp(r) == Wrapped(a)
      decreases (-Pi - r).Floor
    {
      r := r + TwoPi;
    }
    WrappedProperties(a);
  }
}
