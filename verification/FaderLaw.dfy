/**
 The fader curve: position 0..1 to decibels and back.  The curve is a straight line above position 649 (of 1023) and
 a parabola below it; the inverse switches at -6 dB instead, so the two have a seam.  Over the reals; the square root
 is any function that squares back to its argument.
*/
module FaderLaw {
  import opened Reals

  const OFF_DB := -300.0
  const SNAP_DB := -64.9

  /** From here up no level reads as silence once it has been a position. */
  const AUDIBLE_DB := -64.8999999

  const BREAK := 649.0
  const SLOPE := 0.0320855615
  const OFFSET := -26.8235294118
  const LINEAR := 0.1497326203
  const CURVE := 11033.0
  const STEPS := 1023.0

  /** Where the straight line starts, in decibels; the inverse's seam at -6 dB lies 1.7e-9 below. */
  const SEAM_DB := BREAK * SLOPE + OFFSET

  function Curve(pos: real): real {
    if pos >= BREAK then pos * SLOPE + OFFSET else Parabola(pos)
  }

  function Parabola(pos: real): real { -(pos * pos) / CURVE + pos * LINEAR - 65.0 }

  /** `fader_db` */
  function FaderDb(x: real): real {
    var db := Curve(Clamp01(x) * STEPS);
    if db < SNAP_DB then OFF_DB else db
  }

  ghost predicate IsSqrt(sqrt: real -> real) {
    forall v :: v >= 0.0 ==> IsRoot(sqrt(v), v)
  }

  predicate IsRoot(r: real, v: real) { r >= 0.0 && r * r == v }

  function LinePos(db: real): real { (db - OFFSET) / SLOPE }

  function Radicand(db: real): real { -34869.0 - 11033.0 * db }

  /** `fader_lin` */
  function FaderLin(sqrt: real -> real, db: real): real {
    if db <= SNAP_DB then 0.0
    else if db >= -6.0 then Clamp01(LinePos(db) / STEPS)
    else Clamp01((826.0 - sqrt(Radicand(db))) / STEPS)
  }

  // ---------------------------------------------------------------------
  // The forward curve
  // ---------------------------------------------------------------------

  lemma SquareDifference(p: real, q: real)
    ensures q * q - p * p == (q - p) * (q + p)
  {}

  lemma Grows(d: real, a: real, b: real)
    requires d > 0.0 && a < b
    ensures d * a < d * b
  {}

  lemma SquaresUp(r: real, s: real)
    requires 0.0 <= r < s
    ensures r * r < s * s
  {
    SquareDifference(r, s);
    Grows(s - r, 0.0, r + s);
  }

  lemma ParabolaRises(p: real, q: real)
    requires 0.0 <= p < q <= BREAK
    ensures Parabola(p) < Parabola(q)
  {
    SquareDifference(p, q);
    Grows(q - p, q + p, 1651.0);
    assert (q * q - p * p) / CURVE < (q - p) * 1651.0 / CURVE;
  }

  lemma SeamOrder()
    ensures Parabola(BREAK) < -6.0 < SEAM_DB < -5.9999999982
  {}

  lemma CurveRises(p: real, q: real)
    requires 0.0 <= p < q
    ensures Curve(p) < Curve(q)
  {
    SeamOrder();
    if q < BREAK {
      ParabolaRises(p, q);
    } else if p < BREAK {
      ParabolaRises(p, BREAK);
    }
  }

  /** More travel is never quieter, and strictly louder once out of the snap to silence, the breakpoint included. */
  lemma FaderDbRises(x: real, y: real)
    requires 0.0 <= x < y <= 1.0
    ensures if FaderDb(y) == OFF_DB then FaderDb(x) == OFF_DB else FaderDb(x) < FaderDb(y)
  {
    CurveRises(x * STEPS, y * STEPS);
    CurveFloor(x * STEPS);
  }

  lemma CurveFloor(p: real)
    requires 0.0 <= p
    ensures Curve(p) >= -65.0
  {
    if p > 0.0 { CurveRises(0.0, p); }
  }

  /** Out of the snap, forward and backward pick the same branch. */
  lemma BranchesMatch(x: real)
    requires 0.0 <= x <= 1.0
    ensures x * STEPS >= BREAK <==> FaderDb(x) >= -6.0
  {
    var p := x * STEPS;
    SeamOrder();
    if p < BREAK { ParabolaRises(p, BREAK); }
  }

  // ---------------------------------------------------------------------
  // Back from decibels
  // ---------------------------------------------------------------------

  /** The published constants are rounded: the parabola's radicand is a square but for this much per position. */
  const ROUNDING := 1652.0 - CURVE * LINEAR

  lemma RadicandOfParabola(p: real)
    ensures Radicand(Parabola(p)) == (826.0 - p) * (826.0 - p) + ROUNDING * p
  {
    assert (826.0 - p) * (826.0 - p) == 826.0 * 826.0 - 1652.0 * p + p * p;
  }

  /** A root of nearly a square is nearly its root. */
  lemma RootClose(r: real, a: real, e: real)
    requires r >= 0.0 && a > 0.0 && e >= 0.0 && r * r == a * a + e
    ensures a <= r && (r - a) * a <= e
  {
    if r < a { SquaresUp(r, a); }
    SquareDifference(a, r);
    assert (r - a) * (r + a) == e && (r - a) * r >= 0.0;
  }

  lemma RootUnique(r: real, s: real, v: real)
    requires IsRoot(r, v) && IsRoot(s, v)
    ensures r == s
  {
    if r < s { SquaresUp(r, s); }
    if s < r { SquaresUp(s, r); }
  }

  lemma Quotient(d: real, a: real, e: real)
    requires 177.0 < a && d >= 0.0 && d * a <= e
    ensures d * 177.0 <= e
  {
    assert d * 177.0 <= d * a;
  }

  lemma RootsUp(r: real, s: real)
    requires r >= 0.0 && s >= 0.0 && r * r < s * s
    ensures r < s
  {
    if s < r { SquaresUp(s, r); }
  }

  /** The inverse's square root stays between the seam and full travel. */
  lemma RootRange(r: real, db: real)
    requires SNAP_DB < db < -6.0 && IsRoot(r, Radicand(db))
    ensures 177.0 < r < 826.0
  {
    RootsUp(177.0, r);
    RootsUp(r, 826.0);
  }

  lemma ParabolaTrip(p: real, r: real)
    requires 0.0 <= p < BREAK && IsRoot(r, Radicand(Parabola(p)))
    ensures p - 0.000001 <= 826.0 - r <= p
  {
    RadicandOfParabola(p);
    RootClose(r, 826.0 - p, ROUNDING * p);
    Quotient(r - (826.0 - p), 826.0 - p, ROUNDING * p);
  }

  lemma AtSnap(p: real)
    requires 0.0 <= p
    ensures Curve(p) >= SNAP_DB ==> p > 0.5
    ensures Curve(p) < SNAP_DB ==> p < 1.0
  {
    if p <= 0.5 { if p < 0.5 { CurveRises(p, 0.5); } }
    if p >= 1.0 { if p > 1.0 { CurveRises(1.0, p); } }
  }

  lemma RoundTripAbove(sqrt: real -> real, x: real)
    requires IsSqrt(sqrt) && 0.0 <= x <= 1.0 && FaderDb(x) > SNAP_DB
    ensures x - 0.000000001 <= FaderLin(sqrt, FaderDb(x)) <= x
  {
    var p := x * STEPS;
    BranchesMatch(x);
    AtSnap(p);
    if p < BREAK {
      var db := Parabola(p);
      ParabolaRises(p, BREAK);
      SeamOrder();
      var r := sqrt(Radicand(db));
      assert IsRoot(r, Radicand(db));
      ParabolaTrip(p, r);
    }
  }

  /**
   Position to decibels and back: the position again, a billionth of travel at most too low, exactly when the level is
   above the snap (at -64.9 dB itself, which the forward curve still reports, the way back already answers 0).
  */
  lemma RoundTrip(sqrt: real -> real, x: real)
    requires IsSqrt(sqrt) && 0.0 <= x <= 1.0
    ensures FaderDb(x) > SNAP_DB ==> x - 0.000000001 <= FaderLin(sqrt, FaderDb(x)) <= x
    ensures FaderDb(x) <= SNAP_DB ==> FaderLin(sqrt, FaderDb(x)) == 0.0
    ensures Abs(FaderLin(sqrt, FaderDb(x)) - x) <= 0.000001 <==> FaderDb(x) > SNAP_DB || x <= 0.000001
  {
    if FaderDb(x) > SNAP_DB { RoundTripAbove(sqrt, x); }
  }

  lemma ParabolaOfRoot(r: real, db: real)
    requires IsRoot(r, Radicand(db))
    ensures Parabola(826.0 - r) == db - ROUNDING * (826.0 - r) / CURVE
  {
    var p := 826.0 - r;
    assert p * p == 826.0 * 826.0 - 1652.0 * r + r * r;
  }

  /** Just above the snap the rounding may still drop the level into it, but only within 1e-7 dB. */
  lemma NoSnap(r: real, db: real)
    requires AUDIBLE_DB <= db && 0.0 <= r <= 826.0 && IsRoot(r, Radicand(db)) && 826.0 - r < BREAK
    ensures Parabola(826.0 - r) > SNAP_DB
  {
    var p := 826.0 - r;
    ParabolaOfRoot(r, db);
    if p > 1.0 { ParabolaRises(1.0, p); }
  }

  lemma {:induction false} ReverseCurved(sqrt: real -> real, db: real)
    requires IsSqrt(sqrt) && SNAP_DB < db < -6.0
    ensures var back := FaderDb(FaderLin(sqrt, db));
      if back == OFF_DB then db < AUDIBLE_DB else Abs(back - db) <= 0.0000001
  {
    var r := sqrt(Radicand(db));
    assert IsRoot(r, Radicand(db));
    RootRange(r, db);
    ParabolaOfRoot(r, db);
    assert FaderLin(sqrt, db) * STEPS == 826.0 - r;
    if AUDIBLE_DB <= db { NoSnap(r, db); }
  }

  lemma ReverseStraight(sqrt: real -> real, db: real)
    requires -6.0 <= db <= 6.0
    ensures Abs(FaderDb(FaderLin(sqrt, db)) - db) <= 0.0000001
    ensures -5.9 <= db <= 5.9 ==> FaderDb(FaderLin(sqrt, db)) == db
  {
    var p := LinePos(db);
    if p < BREAK {
      NearBreak(p);
    }
  }

  lemma NearBreak(p: real)
    requires 648.9999999 <= p <= BREAK
    ensures -6.0000001 + 0.00000005 <= Parabola(p) <= -6.0
  {
    SeamOrder();
    if p < BREAK { ParabolaRises(p, BREAK); }
    if 648.9999999 < p { ParabolaRises(648.9999999, p); }
    assert Parabola(648.9999999) >= -6.00000005;
  }

  /**
   Decibels to position and back, over the whole usable range: the decibels again, within a ten-millionth, but for a
   sliver above the snap that may read as silence.
  */
  lemma {:induction false} ReverseTrip(sqrt: real -> real, db: real)
    requires IsSqrt(sqrt) && SNAP_DB < db <= 6.0
    ensures var back := FaderDb(FaderLin(sqrt, db));
      if back == OFF_DB then db < AUDIBLE_DB else Abs(back - db) <= 0.0000001
  {
    if db < -6.0 { ReverseCurved(sqrt, db); } else { ReverseStraight(sqrt, db); }
  }

  // ---------------------------------------------------------------------
  // The step at the seam
  // ---------------------------------------------------------------------

  lemma RootsInOrder(r: real, s: real, v: real, w: real)
    requires IsRoot(r, v) && IsRoot(s, w) && v < w
    ensures r < s
  {
    RootsUp(r, s);
  }

  lemma LinRisesBelow(sqrt: real -> real, a: real, b: real)
    requires IsSqrt(sqrt) && SNAP_DB < a < b < -6.0
    ensures FaderLin(sqrt, a) <= FaderLin(sqrt, b)
  {
    assert IsRoot(sqrt(Radicand(a)), Radicand(a)) && IsRoot(sqrt(Radicand(b)), Radicand(b));
    RootsInOrder(sqrt(Radicand(b)), sqrt(Radicand(a)), Radicand(b), Radicand(a));
  }

  /** Everything below -6 dB lands below the breakpoint. */
  lemma LinBelowBreak(sqrt: real -> real, a: real)
    requires IsSqrt(sqrt) && a < -6.0
    ensures FaderLin(sqrt, a) < BREAK / STEPS
  {
    if a > SNAP_DB {
      assert IsRoot(sqrt(Radicand(a)), Radicand(a));
      RootRange(sqrt(Radicand(a)), a);
    }
  }

  /** Where the inverse is monotone: a louder level gets no lower position unless it lies just above -6 dB. */
  lemma LinRises(sqrt: real -> real, a: real, b: real)
    requires IsSqrt(sqrt) && a < b && !(-6.0 <= b < SEAM_DB)
    ensures FaderLin(sqrt, a) <= FaderLin(sqrt, b)
  {
    SeamOrder();
    if SNAP_DB < a {
      if b < -6.0 {
        LinRisesBelow(sqrt, a, b);
      } else if a < -6.0 {
        LinBelowBreak(sqrt, a);
      }
    }
  }

  /** The level just below -6 dB whose position beats `b`'s. */
  function DipWitness(b: real): real {
    var s := (177.0 + 826.0 - LinePos(b)) / 2.0;
    -(34869.0 + s * s) / 11033.0
  }

  lemma DipExists(sqrt: real -> real, b: real)
    requires IsSqrt(sqrt) && -6.0 <= b < SEAM_DB
    ensures DipWitness(b) < b && FaderLin(sqrt, b) < FaderLin(sqrt, DipWitness(b))
  {
    var s := (177.0 + 826.0 - LinePos(b)) / 2.0;
    var a := DipWitness(b);
    assert 177.0 < s < 178.0;
    SquareDifference(177.0, s);
    Grows(s - 177.0, 0.0, s + 177.0);
    assert s * s < 178.0 * 178.0 by { SquaresUp(s, 178.0); }
    assert Radicand(a) == s * s;
    assert IsRoot(sqrt(Radicand(a)), Radicand(a));
    RootUnique(sqrt(Radicand(a)), s, s * s);
  }

  /** The inverse steps down at exactly the levels from -6 dB up to the forward curve's own seam. */
  lemma DipsExactlyAtTheSeam(sqrt: real -> real, b: real)
    requires IsSqrt(sqrt)
    ensures (exists a :: a < b && FaderLin(sqrt, a) > FaderLin(sqrt, b)) <==> -6.0 <= b < SEAM_DB
  {
    if -6.0 <= b < SEAM_DB {
      DipExists(sqrt, b);
    } else {
      forall a | a < b ensures FaderLin(sqrt, a) <= FaderLin(sqrt, b) { LinRises(sqrt, a, b); }
    }
  }

  /** And the step is tiny: a louder level never gets a position more than a ten-billionth lower. */
  lemma DipIsTiny(sqrt: real -> real, a: real, b: real)
    requires IsSqrt(sqrt) && a <= b
    ensures FaderLin(sqrt, a) <= FaderLin(sqrt, b) + 0.0000000001
  {
    if a < b {
      if -6.0 <= b < SEAM_DB {
        if a < -6.0 { LinBelowBreak(sqrt, a); }
      } else {
        LinRises(sqrt, a, b);
      }
    }
  }

  /** Positions stay on the fader, and unity sits where the forward curve reads 0 dB. */
  lemma UnityPosition(sqrt: real -> real)
    ensures FaderDb(FaderLin(sqrt, 0.0)) == 0.0 && 0.8 < FaderLin(sqrt, 0.0) < 0.9
  {}

  lemma LinInRange(sqrt: real -> real, db: real)
    ensures 0.0 <= FaderLin(sqrt, db) <= 1.0
  {}
}
