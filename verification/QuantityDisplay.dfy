/**
 * An autoscaler's current reading, shown in the unit of its target: over the reals, how far the
 * shown number may be off, and which unit is chosen. Reading a quantity's text is a parameter.
 */
module QuantityDisplay {

  import opened Optional

  datatype Unit = Ei | Pi | Ti | Gi | Mi | Ki | E | P | T | G | M | K | One | Milli | Micro | Nano

  datatype Quantity = Quantity(value: real, unit: Unit)

  /** A number with its unit, or the text as it came. */
  datatype Shown = Number(value: real, unit: Unit) | Verbatim

  function Factor(u: Unit): (f: real)
    ensures f > 0.0
  {
    match u
    case Ei => 1152921504606846976.0
    case Pi => 1125899906842624.0
    case Ti => 1099511627776.0
    case Gi => 1073741824.0
    case Mi => 1048576.0
    case Ki => 1024.0
    case E => 1000000000000000000.0
    case P => 1000000000000000.0
    case T => 1000000000000.0
    case G => 1000000000.0
    case M => 1000000.0
    case K => 1000.0
    case One => 1.0
    case Milli => 0.001
    case Micro => 0.000001
    case Nano => 0.000000001
  }

  predicate IsBinary(u: Unit)
  {
    u.Ei? || u.Pi? || u.Ti? || u.Gi? || u.Mi? || u.Ki?
  }

  const BINARY_STEPS: seq<Unit> := [Ei, Pi, Ti, Gi, Mi, Ki, One]
  const DECIMAL_STEPS: seq<Unit> := [E, P, T, G, M, K, One, Milli, Micro, Nano]

  function After(steps: seq<Unit>, u: Unit): seq<Unit>
  {
    if steps == [] then [] else if steps[0] == u then steps[1..] else After(steps[1..], u)
  }

  function Steps(u: Unit): seq<Unit>
  {
    if IsBinary(u) then BINARY_STEPS else DECIMAL_STEPS
  }

  /** The units below `u` in its family, largest first; a plain number counts as decimal. */
  function SmallerUnits(u: Unit): seq<Unit>
  {
    After(Steps(u), u)
  }

  function Abs(v: real): real
  {
    if v < 0.0 then -v else v
  }

  // ---- Rounding ------------------------------------------------------------------------------------

  /** To the nearest integer, halves towards positive infinity. */
  function Round(v: real): real
  {
    (v + 0.5).Floor as real
  }

  /** The nearest number of two significant digits to a magnitude below ten. */
  function TwoDigits(a: real): real
    requires 0.0 <= a < 10.0
    decreases if a == 0.0 then 0 else (1.0 / a).Floor
  {
    if a == 0.0 then 0.0
    else if a >= 1.0 then Round(10.0 * a) / 10.0
    else
      Shrinks(a);
      TwoDigits(10.0 * a) / 10.0
  }

  lemma Shrinks(a: real)
    requires 0.0 < a < 1.0
    ensures 0 <= (1.0 / (10.0 * a)).Floor < (1.0 / a).Floor
  {
    var x := 1.0 / a;
    assert x * a == 1.0;
    assert x > 1.0;
    assert 1.0 / (10.0 * a) == x / 10.0 by {
      assert (x / 10.0) * (10.0 * a) == 1.0;
    }
  }

  /** Whole numbers from ten up, two significant digits below. */
  function RoundForDisplay(v: real): real
  {
    if Abs(v) >= 10.0 then Round(v)
    else if v < 0.0 then -TwoDigits(-v) else TwoDigits(v)
  }

  /** From ten up, rounding to an integer is off by at most one part in twenty-one. */
  lemma RoundError(v: real)
    requires Abs(v) >= 10.0
    ensures Abs(Round(v) - v) <= Abs(v) / 21.0 && Abs(Round(v)) >= 10.0
  {
    var n := (v + 0.5).Floor;
    assert n as real <= v + 0.5 < n as real + 1.0;
    if v >= 10.0 {
      assert n >= 10;
      if n == 10 {
      } else {
        assert n >= 11;
      }
    } else {
      assert v <= -10.0 && n <= -10;
      if n == -10 {
      } else {
        assert n <= -11;
      }
    }
  }

  lemma {:induction false} TwoDigitsError(a: real)
    requires 0.0 < a < 10.0
    ensures Abs(TwoDigits(a) - a) <= a / 21.0 && TwoDigits(a) > 0.0
    decreases (1.0 / a).Floor
  {
    if a >= 1.0 {
      RoundError(10.0 * a);
      assert TwoDigits(a) - a == (Round(10.0 * a) - 10.0 * a) / 10.0;
    } else {
      Shrinks(a);
      TwoDigitsError(10.0 * a);
      assert TwoDigits(a) - a == (TwoDigits(10.0 * a) - 10.0 * a) / 10.0;
    }
  }

  /** For every reading: the rounded number is off by at most 1/21 of it, and is zero only for zero. */
  lemma DisplayError(v: real)
    ensures Abs(RoundForDisplay(v) - v) <= Abs(v) / 21.0
    ensures RoundForDisplay(v) == 0.0 <==> v == 0.0
  {
    if Abs(v) >= 10.0 {
      RoundError(v);
    } else if v < 0.0 {
      TwoDigitsError(-v);
    } else if v > 0.0 {
      TwoDigitsError(v);
    }
  }

  /** The bound is met, so no smaller one holds. */
  lemma DisplayErrorIsTight()
    ensures Abs(RoundForDisplay(10.5) - 10.5) == 10.5 / 21.0
    ensures Abs(RoundForDisplay(1.05) - 1.05) == 1.05 / 21.0
  {
    assert (10.5 + 0.5).Floor == 11;
    assert 10.0 * 1.05 == 10.5;
    assert TwoDigits(1.05) == Round(10.5) / 10.0;
  }

  /** Rounding keeps the order of any two readings. */
  lemma RoundMonotone(v: real, w: real)
    requires v <= w
    ensures Round(v) <= Round(w)
  {
    FloorIs((v + 0.5).Floor, w + 0.5);
  }

  lemma FloorIs(n: int, w: real)
    requires n as real <= w
    ensures n <= w.Floor
  {
  }

  lemma {:induction false} TwoDigitsMonotone(a: real, b: real)
    requires 0.0 <= a <= b < 10.0
    ensures 0.0 <= TwoDigits(a) <= TwoDigits(b) <= 10.0
    decreases if a == 0.0 then 0 else (1.0 / a).Floor, if b == 0.0 then 0 else (1.0 / b).Floor
  {
    if a == 0.0 {
      TwoDigitsRange(b);
    } else if a >= 1.0 {
      TwoDigitsRange(a);
      TwoDigitsRange(b);
      RoundMonotone(10.0 * a, 10.0 * b);
    } else if b >= 1.0 {
      TwoDigitsRange(a);
      TwoDigitsRange(b);
    } else {
      Shrinks(a);
      TwoDigitsRange(b);
      TwoDigitsMonotone(10.0 * a, 10.0 * b);
    }
  }

  /** A magnitude stays within its power of ten. */
  lemma {:induction false} TwoDigitsRange(a: real)
    requires 0.0 <= a < 10.0
    ensures 0.0 <= TwoDigits(a) <= 10.0
    ensures a < 1.0 ==> TwoDigits(a) <= 1.0
    ensures a >= 1.0 ==> TwoDigits(a) >= 1.0
    decreases if a == 0.0 then 0 else (1.0 / a).Floor
  {
    if a >= 1.0 {
      assert 10.0 <= 10.0 * a + 0.5 < 101.0;
      assert 10 <= (10.0 * a + 0.5).Floor <= 100;
    } else if a > 0.0 {
      Shrinks(a);
      TwoDigitsRange(10.0 * a);
    }
  }

  lemma DisplayMonotone(v: real, w: real)
    requires v <= w
    ensures RoundForDisplay(v) <= RoundForDisplay(w)
  {
    RoundMonotone(v, w);
    var a, b := Abs(v), Abs(w);
    if a < 10.0 { TwoDigitsRange(a); }
    if b < 10.0 { TwoDigitsRange(b); }
    if a >= 10.0 {
      assert v >= 10.0 ==> (v + 0.5).Floor >= 10;
      assert v <= -10.0 ==> (v + 0.5).Floor <= -10;
    }
    if b >= 10.0 {
      assert w >= 10.0 ==> (w + 0.5).Floor >= 10;
      assert w <= -10.0 ==> (w + 0.5).Floor <= -10;
    }
    if a < 10.0 && b < 10.0 {
      if v >= 0.0 {
        TwoDigitsMonotone(v, w);
      } else if w < 0.0 {
        TwoDigitsMonotone(-w, -v);
      }
    }
  }

  /** In either family each unit is the next smaller one 1024 or 1000 times, and a plain number is one. */
  lemma UnitsAre()
    ensures Factor(One) == 1.0
    ensures forall i | 0 <= i < 6 :: Factor(BINARY_STEPS[i]) == 1024.0 * Factor(BINARY_STEPS[i + 1])
    ensures forall i | 0 <= i < 9 :: Factor(DECIMAL_STEPS[i]) == 1000.0 * Factor(DECIMAL_STEPS[i + 1])
  {
  }

  // ---- The choice of the unit ----------------------------------------------------------------------

  /** A reading in a unit. */
  function In(base: real, u: Unit): real
  {
    base / Factor(u)
  }

  function BaseOf(q: Quantity): real
  {
    q.value * Factor(q.unit)
  }

  /** The first of the units in which the reading is at least one. */
  function FirstUnit(base: real, units: seq<Unit>): Option<Unit>
  {
    if units == [] then None
    else if Abs(In(base, units[0])) >= 1.0 then Some(units[0])
    else FirstUnit(base, units[1..])
  }

  function ShownAs(current: Option<Quantity>, target: Option<Quantity>): Shown
  {
    if current.None? || target.None? then Verbatim
    else
      var base, u := BaseOf(current.value), target.value.unit;
      if In(base, u) == 0.0 then Number(0.0, u)
      else if Abs(In(base, u)) >= 0.1 then Number(RoundForDisplay(In(base, u)), u)
      else
        match FirstUnit(base, SmallerUnits(u))
        case None => Verbatim
        case Some(smaller) => Number(RoundForDisplay(In(base, smaller)), smaller)
  }

  method InTargetUnit(current: Option<Quantity>, target: Option<Quantity>) returns (shown: Shown)
    ensures shown == ShownAs(current, target)
    ensures current.None? || target.None? ==> shown.Verbatim?
  {
    if current.None? || target.None? {
      return Verbatim;
    }
    var base, u := BaseOf(current.value), target.value.unit;
    var converted := In(base, u);
    if converted == 0.0 {
      return Number(0.0, u);
    }
    if Abs(converted) >= 0.1 {
      return Number(RoundForDisplay(converted), u);
    }
    var units := SmallerUnits(u);
    for i := 0 to |units|
      invariant FirstUnit(base, units) == FirstUnit(base, units[i..])
    {
      assert units[i..][1..] == units[i + 1..];
      var value := In(base, units[i]);
      if Abs(value) >= 1.0 {
        return Number(RoundForDisplay(value), units[i]);
      }
    }
    shown := Verbatim;
  }

  /** Unit number `i` is the first in which the reading is at least one. */
  ghost predicate FirstAt(base: real, units: seq<Unit>, i: nat)
    requires i < |units|
  {
    Abs(In(base, units[i])) >= 1.0 && forall j | 0 <= j < i :: Abs(In(base, units[j])) < 1.0
  }

  lemma FirstLater(base: real, units: seq<Unit>, i: nat)
    requires units != [] && Abs(In(base, units[0])) < 1.0 && i < |units| - 1 && FirstAt(base, units[1..], i)
    ensures FirstAt(base, units, i + 1) && units[i + 1] == units[1..][i]
  {
    forall j | 1 <= j < i + 1 ensures Abs(In(base, units[j])) < 1.0 {
      assert units[j] == units[1..][j - 1];
    }
  }

  lemma {:induction false} FirstUnitIs(base: real, units: seq<Unit>) returns (i: nat)
    ensures FirstUnit(base, units).None? ==> forall u | u in units :: Abs(In(base, u)) < 1.0
    ensures FirstUnit(base, units).Some? ==>
            i < |units| && units[i] == FirstUnit(base, units).value
            && FirstAt(base, units, i)
  {
    i := 0;
    if units != [] && Abs(In(base, units[0])) < 1.0 {
      i := FirstUnitIs(base, units[1..]);
      assert forall u | u in units :: u == units[0] || u in units[1..];
      if FirstUnit(base, units).Some? {
        FirstLater(base, units, i);
        i := i + 1;
      }
    }
  }

  predicate Decreasing(units: seq<Unit>)
  {
    forall i, j | 0 <= i < j < |units| :: Factor(units[i]) > Factor(units[j])
  }

  lemma FirstIsLargestStep(steps: seq<Unit>)
    requires Decreasing(steps) && steps != []
    ensures Decreasing(steps[1..])
    ensures forall s :: s in steps <==> s == steps[0] || s in steps[1..]
    ensures forall s | s in steps[1..] :: Factor(s) < Factor(steps[0])
  {
    assert steps == [steps[0]] + steps[1..];
    forall s | s in steps[1..] ensures Factor(s) < Factor(steps[0]) {
      var i :| 0 <= i < |steps[1..]| && steps[1..][i] == s;
      assert steps[i + 1] == s;
    }
  }

  lemma {:induction false} AfterIs(steps: seq<Unit>, u: Unit)
    requires Decreasing(steps)
    ensures Decreasing(After(steps, u))
    ensures u in steps ==> forall s :: s in After(steps, u) <==> s in steps && Factor(s) < Factor(u)
    ensures forall s | s in After(steps, u) :: s in steps
  {
    if steps != [] {
      FirstIsLargestStep(steps);
      AfterIs(steps[1..], u);
    }
  }

  lemma StepsDecrease()
    ensures Decreasing(BINARY_STEPS) && Decreasing(DECIMAL_STEPS)
  {
  }

  predicate SameFamily(u: Unit, s: Unit)
  {
    if IsBinary(u) then IsBinary(s) || s.One? else !IsBinary(s)
  }

  lemma InBinary(s: Unit)
    ensures s in BINARY_STEPS <==> IsBinary(s) || s.One?
  {
  }

  lemma InDecimal(s: Unit)
    ensures s in DECIMAL_STEPS <==> !IsBinary(s)
  {
    if !IsBinary(s) {
      var d := DECIMAL_STEPS;
      assert d[0] == E && d[1] == P && d[2] == T && d[3] == G && d[4] == M;
      assert d[5] == K && d[6] == One && d[7] == Milli && d[8] == Micro && d[9] == Nano;
    }
  }

  lemma InSteps(u: Unit, s: Unit)
    ensures s in Steps(u) <==> SameFamily(u, s)
  {
    InBinary(s);
    InDecimal(s);
  }

  lemma StepsOfDecrease(u: Unit)
    ensures Decreasing(Steps(u))
  {
    StepsDecrease();
  }

  /** The smaller units are the units of the family with a smaller factor, from large to small. */
  lemma SmallerUnitsAre(u: Unit)
    ensures Decreasing(SmallerUnits(u))
    ensures forall s :: s in SmallerUnits(u) <==> SameFamily(u, s) && Factor(s) < Factor(u)
  {
    StepsOfDecrease(u);
    AfterIs(Steps(u), u);
    InSteps(u, u);
    forall s: Unit ensures s in Steps(u) <==> SameFamily(u, s) {
      InSteps(u, s);
    }
  }

  /**
   * Whichever unit is chosen, the shown number is within 1/21, less than five percent, of the
   * reading in that unit; and it is zero exactly if the reading is.
   */
  lemma ShownWithinFivePercent(current: Quantity, target: Quantity)
    requires ShownAs(Some(current), Some(target)).Number?
    ensures var shown, base := ShownAs(Some(current), Some(target)), BaseOf(current);
            && Abs(shown.value - In(base, shown.unit)) <= Abs(In(base, shown.unit)) / 21.0
            && Abs(shown.value - In(base, shown.unit)) <= 0.05 * Abs(In(base, shown.unit))
            && (shown.value == 0.0 <==> base == 0.0)
  {
    var shown, base := ShownAs(Some(current), Some(target)), BaseOf(current);
    DisplayError(In(base, shown.unit));
    Zero(base, shown.unit);
    Zero(base, target.unit);
  }

  lemma Zero(base: real, u: Unit)
    ensures In(base, u) == 0.0 <==> base == 0.0
  {
    assert In(base, u) * Factor(u) == base;
  }

  /**
   * The target's unit is kept for zero and from a tenth up; otherwise the unit is the largest of the
   * smaller ones in the family in which the reading is at least one, if there is one.
   */
  lemma UnitIsLargest(current: Quantity, target: Quantity)
    ensures var shown, base := ShownAs(Some(current), Some(target)), BaseOf(current);
            var converted := In(base, target.unit);
            if converted == 0.0 || Abs(converted) >= 0.1 then
              shown.Number? && shown.unit == target.unit
            else if shown.Number? then
              && SameFamily(target.unit, shown.unit) && Factor(shown.unit) < Factor(target.unit)
              && Abs(In(base, shown.unit)) >= 1.0
              && forall s | SameFamily(target.unit, s) && Factor(shown.unit) < Factor(s) < Factor(target.unit) ::
                   Abs(In(base, s)) < 1.0
            else
              forall s | SameFamily(target.unit, s) && Factor(s) < Factor(target.unit) :: Abs(In(base, s)) < 1.0
  {
    var shown, base := ShownAs(Some(current), Some(target)), BaseOf(current);
    SmallerUnitsAre(target.unit);
    var i := FirstUnitIs(base, SmallerUnits(target.unit));
    if FirstUnit(base, SmallerUnits(target.unit)).Some? {
      FirstIsLargest(base, SmallerUnits(target.unit), i);
    }
  }

  lemma FirstIsLargest(base: real, units: seq<Unit>, i: nat)
    requires Decreasing(units) && i < |units| && FirstAt(base, units, i)
    ensures forall s | s in units && Factor(units[i]) < Factor(s) :: Abs(In(base, s)) < 1.0
  {
    forall s | s in units && Factor(units[i]) < Factor(s) ensures Abs(In(base, s)) < 1.0 {
      var j :| 0 <= j < |units| && units[j] == s;
      assert j < i;
    }
  }
}
