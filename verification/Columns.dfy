/**
 Fixed-point database columns.  A `numeric(p, s)` column keeps `s` decimals: what is written is
 rounded to the nearest multiple of 1/10^s, halves away from zero.  The number of digits before
 the point is not bounded here.
 */
module Columns {

  function Abs(x: real): real {
    if x >= 0.0 then x else -x
  }

  /** The nearest integer, halves away from zero. */
  function RoundHalfUp(x: real): int {
    if x >= 0.0 then (x + 0.5).Floor else -((-x + 0.5).Floor)
  }

  /** Units of the last decimal: 1000 for three decimals, 10000 for four. */
  const MILLI: real := 1000.0
  const TENTH_MILLI: real := 10000.0

  predicate Fits(x: real, unit: real) {
    x * unit == (x * unit).Floor as real
  }

  /** What a column of that precision keeps of a value. */
  function Stored(x: real, unit: real): real
    requires unit > 0.0
  {
    RoundHalfUp(x * unit) as real / unit
  }

  lemma FloorOfInt(n: int)
    ensures (n as real).Floor == n
  {
  }

  lemma FloorBounds(x: real)
    ensures x.Floor as real <= x < x.Floor as real + 1.0
  {
  }

  lemma RoundHalfUpNearest(x: real)
    ensures -0.5 <= RoundHalfUp(x) as real - x <= 0.5
  {
    if x >= 0.0 {
      FloorBounds(x + 0.5);
    } else {
      FloorBounds(-x + 0.5);
    }
  }

  /** Integers at most half apart from an integer are that integer. */
  lemma RoundHalfUpOfInt(n: int)
    ensures RoundHalfUp(n as real) == n
  {
    RoundHalfUpNearest(n as real);
    var r := RoundHalfUp(n as real);
    assert -1.0 < (r - n) as real < 1.0;
  }

  lemma DivideOut(x: real, y: real, unit: real)
    requires unit > 0.0 && x == y / unit
    ensures x * unit == y
  {
  }

  lemma FitsWhole(x: real, unit: real, n: int)
    requires x * unit == n as real
    ensures Fits(x, unit)
  {
    FloorOfInt(n);
  }

  /** A stored value fits the column. */
  lemma StoredFits(x: real, unit: real)
    requires unit > 0.0
    ensures Fits(Stored(x, unit), unit)
  {
    var n := RoundHalfUp(x * unit);
    DivideOut(Stored(x, unit), n as real, unit);
    FitsWhole(Stored(x, unit), unit, n);
  }

  /** Storing a value keeps it iff it fits. */
  lemma StoredKeepsIffFits(x: real, unit: real)
    requires unit > 0.0
    ensures Stored(x, unit) == x <==> Fits(x, unit)
  {
    StoredFits(x, unit);
    if Fits(x, unit) {
      RoundHalfUpOfInt((x * unit).Floor);
      assert x == x * unit / unit;
    }
  }

  lemma ScaledError(y: real, x: real, unit: real)
    requires unit > 0.0 && -0.5 <= y * unit - x * unit <= 0.5
    ensures Abs(y - x) * unit <= 0.5
  {
    assert (y - x) * unit == y * unit - x * unit;
    assert (x - y) * unit == x * unit - y * unit;
  }

  /** The error is at most half a unit of the last decimal. */
  lemma StoredError(x: real, unit: real)
    requires unit > 0.0
    ensures Abs(Stored(x, unit) - x) * unit <= 0.5
  {
    RoundHalfUpNearest(x * unit);
    DivideOut(Stored(x, unit), RoundHalfUp(x * unit) as real, unit);
    ScaledError(Stored(x, unit), x, unit);
  }

  // ----- Values computed with an error too small to matter but at exact halves -----

  /** The nearest integer, halves toward zero. */
  function RoundHalfDown(x: real): int {
    if x >= 0.0 then -((-x + 0.5).Floor) else (x + 0.5).Floor
  }

  predicate IsHalfway(x: real) {
    x + 0.5 == (x + 0.5).Floor as real
  }

  /** Exactly between two values of the column. */
  predicate IsHalf(x: real, unit: real) {
    IsHalfway(x * unit)
  }

  function Round(x: real, away: bool): int {
    if away then RoundHalfUp(x) else RoundHalfDown(x)
  }

  /** What a column keeps of a value that was computed on the one or the other side of an exact half. */
  function Kept(x: real, unit: real, away: bool): real
    requires unit > 0.0
  {
    Round(x * unit, away) as real / unit
  }

  lemma RoundNearest(x: real, away: bool)
    ensures -0.5 <= Round(x, away) as real - x <= 0.5
  {
    RoundHalfUpNearest(x);
    FloorBounds(if x >= 0.0 then -x + 0.5 else x + 0.5);
  }

  lemma NearestIsUnique(x: real, r: int, s: int)
    requires -0.5 <= r as real - x <= 0.5 && -0.5 <= s as real - x <= 0.5
    ensures !IsHalfway(x) ==> r == s
  {
    assert -1.0 <= (r - s) as real <= 1.0;
    if r == s + 1 {
      FloorOfInt(r);
    } else if s == r + 1 {
      FloorOfInt(s);
    }
  }

  /** The direction makes no difference but at an exact half, where it makes one of a unit. */
  lemma RoundEitherWay(x: real)
    ensures Round(x, true) == Round(x, false) + if !IsHalfway(x) then 0 else if x >= 0.0 then 1 else -1
  {
    RoundNearest(x, true);
    RoundNearest(x, false);
    NearestIsUnique(x, Round(x, true), Round(x, false));
    if IsHalfway(x) {
      var n := (x + 0.5).Floor;
      assert -x + 0.5 == (1 - n) as real;
      FloorOfInt(n);
      FloorOfInt(1 - n);
    }
  }

  predicate HaveOneSign(x: real, y: real) {
    (x >= 0.0 && y >= 0.0) || (x <= 0.0 && y <= 0.0)
  }

  /** Two parts of a whole, of one sign, round to the whole unless both are exact halves that go the same way. */
  lemma RoundedPartsAdd(x: real, y: real, n: int, a: bool, b: bool)
    requires x + y == n as real && HaveOneSign(x, y)
    ensures Round(x, a) + Round(y, b) == n <==> !IsHalfway(x) || a != b
  {
    RoundNearest(x, a);
    RoundNearest(y, b);
    if !IsHalfway(x) {
      NearestIsUnique(x, Round(x, a), n - Round(y, b));
    } else {
      HalvesAdd(x, y, n, a, b);
    }
  }

  lemma HalvesAdd(x: real, y: real, n: int, a: bool, b: bool)
    requires x + y == n as real && HaveOneSign(x, y) && IsHalfway(x)
    ensures Round(x, a) + Round(y, b) == n <==> a != b
  {
    var m := (x + 0.5).Floor;
    assert x == m as real - 0.5 && y == (n - m) as real + 0.5;
    HalfRounds(x, m, a);
    HalfRounds(y, n - m + 1, b);
  }

  lemma HalfRounds(x: real, m: int, away: bool)
    requires x == m as real - 0.5
    ensures Round(x, away) == if away == (x >= 0.0) then m else m - 1
  {
    FloorOfInt(m);
    FloorOfInt(1 - m);
    assert -x + 0.5 == (1 - m) as real && x + 0.5 == m as real;
  }

  lemma KeptScaled(x: real, unit: real, away: bool)
    requires unit > 0.0
    ensures Kept(x, unit, away) * unit == Round(x * unit, away) as real
  {
    DivideOut(Kept(x, unit, away), Round(x * unit, away) as real, unit);
  }

  /** A value that fits is kept, whichever way. */
  lemma KeptKeepsIffFits(x: real, unit: real, away: bool)
    requires unit > 0.0
    ensures Kept(x, unit, away) == x <==> Fits(x, unit)
  {
    KeptScaled(x, unit, away);
    RoundNearest(x * unit, away);
    if Fits(x, unit) {
      SmallIntIsZero(Round(x * unit, away) - (x * unit).Floor);
      assert x == x * unit / unit;
    } else if Kept(x, unit, away) == x {
      FitsWhole(x, unit, Round(x * unit, away));
    }
  }

  lemma SmallIntIsZero(n: int)
    ensures -1.0 < n as real < 1.0 ==> n == 0
  {
  }

  /** At most `n` half units of the last decimal apart. */
  predicate IsNear(x: real, y: real, unit: real, n: nat) {
    Abs(x - y) * unit <= 0.5 * n as real
  }

  lemma StoredIsNear(x: real, unit: real)
    requires unit > 0.0
    ensures IsNear(Stored(x, unit), x, unit, 1)
  {
    StoredError(x, unit);
  }

  /** The two directions keep the same, or values one unit apart. */
  lemma KeptEitherWay(x: real, unit: real, a: bool, b: bool)
    requires unit > 0.0
    ensures IsNear(Kept(x, unit, a), Kept(x, unit, b), unit, if IsHalf(x, unit) then 2 else 0)
    ensures !IsHalf(x, unit) ==> Kept(x, unit, a) == Kept(x, unit, b)
  {
    RoundEitherWay(x * unit);
    KeptScaled(x, unit, a);
    KeptScaled(x, unit, b);
  }

  /** Two parts of a value that fits, of one sign, are kept as the whole unless both are exact halves that go the same way. */
  lemma KeptPartsAdd(x: real, y: real, whole: real, a: bool, b: bool)
    requires x + y == whole && Fits(whole, TENTH_MILLI) && HaveOneSign(x, y)
    ensures Kept(x, TENTH_MILLI, a) + Kept(y, TENTH_MILLI, b) == whole
       <==> !IsHalf(x, TENTH_MILLI) || a != b
  {
    RoundedPartsAdd(x * TENTH_MILLI, y * TENTH_MILLI, (whole * TENTH_MILLI).Floor, a, b);
  }

  /** Errors add up, of sums and of steps in a row. */
  lemma ErrorsAdd(d: real, e: real, f: real, unit: real, n: nat, k: nat)
    requires unit > 0.0 && Abs(f) <= Abs(d) + Abs(e)
    requires Abs(d) * unit <= 0.5 * n as real && Abs(e) * unit <= 0.5 * k as real
    ensures Abs(f) * unit <= 0.5 * (n + k) as real
  {
    assert Abs(f) * unit <= (Abs(d) + Abs(e)) * unit == Abs(d) * unit + Abs(e) * unit;
  }

  lemma NearSum(x: real, x': real, y: real, y': real, unit: real, n: nat, k: nat)
    requires unit > 0.0 && IsNear(x, x', unit, n) && IsNear(y, y', unit, k)
    ensures IsNear(x + y, x' + y', unit, n + k)
  {
    ErrorsAdd(x - x', y - y', (x + y) - (x' + y'), unit, n, k);
  }

  lemma FitsSum(x: real, y: real, unit: real)
    requires Fits(x, unit) && Fits(y, unit)
    ensures Fits(x + y, unit)
  {
    var n := (x * unit).Floor + (y * unit).Floor;
    assert (x + y) * unit == x * unit + y * unit == n as real;
    FloorOfInt(n);
  }

  /** Values that differ by what fits both fit, or neither does. */
  lemma FitTogether(x: real, y: real, unit: real)
    requires Fits(x - y, unit)
    ensures Fits(x, unit) <==> Fits(y, unit)
  {
    var d := ((x - y) * unit).Floor;
    assert x * unit == y * unit + d as real;
    assert (y * unit + d as real).Floor == (y * unit).Floor + d;
  }

  lemma StoredNotPositive(x: real, unit: real)
    requires unit > 0.0 && x <= 0.0
    ensures Stored(x, unit) <= 0.0
  {
    assert x * unit <= 0.0;
    FloorBounds(-(x * unit) + 0.5);
    assert RoundHalfUp(x * unit) <= 0;
    DivideOut(Stored(x, unit), RoundHalfUp(x * unit) as real, unit);
  }

  lemma FitsNegative(x: real, unit: real)
    requires Fits(x, unit)
    ensures Fits(-x, unit)
  {
    assert -x * unit == (-(x * unit).Floor) as real;
    FloorOfInt(-(x * unit).Floor);
  }

  lemma FitsZero(unit: real)
    ensures Fits(0.0, unit)
  {
    FloorOfInt(0);
  }
}
