/** The layered-magnitude score number. A value is the triple
    (startingECount, coefficient, exponent); it reads as
    coefficient * 10^exponent with `startingECount` further layers of
    "ten to the power of" wrapped around it. Numbers are exact reals here:
    the rounding of IEEE doubles is not modelled. */
module InsaneNumber {
  import opened Text

  datatype InsaneValue = InsaneValue(startingECount: int, coefficient: real, exponent: real)

  const Zero := InsaneValue(0, 0.0, 0.0)

  /** `v * Math.pow(10, k)`, one factor of ten at a time; the sign of `v`
      is kept. */
  function TimesPower10(v: real, k: int): (r: real)
    ensures v > 0.0 ==> r > 0.0
    ensures v < 0.0 ==> r < 0.0
    ensures v == 0.0 ==> r == 0.0
    decreases if k >= 0 then k else -k
  {
    if k == 0 then v
    else if k > 0 then 10.0 * TimesPower10(v, k - 1)
    else TimesPower10(v, k + 1) / 10.0
  }

  /** `v / Math.pow(10, k)`. */
  function OverPower10(v: real, k: int): (r: real)
    ensures v > 0.0 ==> r > 0.0
    ensures v < 0.0 ==> r < 0.0
    ensures v == 0.0 ==> r == 0.0
  {
    TimesPower10(v, -k)
  }

  function Max(a: int, b: int): int { if a >= b then a else b }

  /** Truncation toward zero, as JavaScript's `%` uses it. */
  function Trunc(x: real): int
  {
    if x >= 0.0 then x.Floor else -((-x).Floor)
  }

  /** `x % 1` in JavaScript: the fractional part, carrying the sign of `x`. */
  function JsMod1(x: real): real
  {
    x - Trunc(x) as real
  }

  lemma JsMod1Zero(x: real)
    ensures JsMod1(x) == 0.0 <==> IsWhole(x)
  {
    if x < 0.0 {
      var f := (-x).Floor;
      assert JsMod1(x) == x + f as real;
      if IsWhole(x) {
        var g := x.Floor;
        assert -x == (-g) as real;
        assert f == -g;
      }
      if x + f as real == 0.0 {
        assert x == (-f) as real;
      }
    }
  }

  // ---------------------------------------------------------------------------
  // Text form (fromString / toString)
  // ---------------------------------------------------------------------------

  /** The number of 'e' characters at the start of `s`. */
  function LeadingEs(s: string): (n: nat)
    ensures n <= |s|
  {
    if s != [] && s[0] == 'e' then 1 + LeadingEs(s[1..]) else 0
  }

  /** `k` copies of 'e' (none when `k` is not positive). */
  function Es(k: int): (s: string)
    ensures |s| == Max(k, 0)
  {
    if k <= 0 then "" else Es(k - 1) + "e"
  }

  /** What `fromString` reads from the text left after the leading 'e's,
      before their count is added. When an 'e' remains, a '#' suffix gives
      the wrap count and the rest splits into coefficient and exponent;
      otherwise the whole remainder is the coefficient. `None` stands for a
      field that would be NaN or undefined. */
  function ParseFields(rest: string): Option<InsaneValue>
  {
    if 'e' in rest then
      var hashed := '#' in rest;
      var halves := Split(rest, '#');
      ParseBody(if hashed then halves[0] else rest,
                if hashed then ParseNumber(halves[1]) else Some(0.0))
    else
      match ParseNumber(rest)
      case Some(c) => Some(InsaneValue(0, c, 0.0))
      case None => None
  }

  /** The coefficient and exponent on either side of the first 'e' of
      `body`, with `extra` wraps; a missing exponent, a field that is not a
      number, or a wrap count that is not whole gives `None`. */
  function ParseBody(body: string, extra: Option<real>): Option<InsaneValue>
  {
    var parts := Split(body, 'e');
    if |parts| < 2 then None
    else
      match (extra, ParseNumber(parts[0]), ParseNumber(parts[1]))
      case (Some(n), Some(c), Some(x)) =>
        if IsWhole(n) then Some(InsaneValue(n.Floor, c, x)) else None
      case _ => None
  }

  /** `v` with `k` more wraps. */
  function MoreWraps(v: Option<InsaneValue>, k: int): Option<InsaneValue>
  {
    match v
    case Some(x) => Some(x.(startingECount := x.startingECount + k))
    case None => None
  }

  /** The fields read from `rest`, after `count` leading 'e's. */
  function ParseRest(count: nat, rest: string): Option<InsaneValue>
  {
    MoreWraps(ParseFields(rest), count)
  }

  /** `InsaneInt.fromString` on text. */
  function Parse(text: string): Option<InsaneValue>
  {
    var n := LeadingEs(text);
    ParseRest(n, text[n..])
  }

  /** `toString`: the leading 'e's, the coefficient, and 'e' with the
      exponent when the exponent is not zero. */
  function Render(x: InsaneValue): string
  {
    Es(x.startingECount) + RenderedNumbers(x)
  }

  /** What follows the leading 'e's in the rendered text. */
  function RenderedNumbers(x: InsaneValue): string
  {
    RenderNumber(x.coefficient)
    + (if x.exponent != 0.0 then "e" + RenderNumber(x.exponent) else "")
  }

  // ---------------------------------------------------------------------------
  // Ordering
  // ---------------------------------------------------------------------------

  /** `greaterThan`: by startingECount, then exponent, then coefficient. */
  predicate GreaterThan(a: InsaneValue, b: InsaneValue)
  {
    if a.startingECount != b.startingECount then a.startingECount > b.startingECount
    else if a.exponent != b.exponent then a.exponent > b.exponent
    else a.coefficient > b.coefficient
  }

  /** `equalTo`: field by field. */
  predicate EqualTo(a: InsaneValue, b: InsaneValue)
  {
    a.startingECount == b.startingECount && a.exponent == b.exponent
    && a.coefficient == b.coefficient
  }

  /** `lessThan`: neither equal nor greater. */
  predicate LessThan(a: InsaneValue, b: InsaneValue)
  {
    !EqualTo(a, b) && !GreaterThan(a, b)
  }

  // ---------------------------------------------------------------------------
  // Canonical form
  // ---------------------------------------------------------------------------

  /** `isBalanced`, check by check. */
  predicate IsBalanced(x: InsaneValue)
  {
    var s, c, e := x.startingECount, x.coefficient, x.exponent;
    // wrong zeros
    if c == 0.0 && (e != 0.0 || s != 0) then false
    else if e == 0.0 && s != 0 then false
    // improper balancing
    else if (c >= 10.0 && e > 0.0) || c >= 10000000.0 then false
    else if c < 1.0 && e > 0.0 then false
    else if e > 0.0 && e < 1000000.0 && s > 1 then false
    else if e >= 10000000.0 then false
    // decimals in exponents (a whole startingECount is built into its type)
    else if JsMod1(e) != 0.0 then false
    else if e > 0.0 && c < 1.0 then false
    else true
  }

  /** The canonical form described as the set of values it admits: zero is
      (0, 0, 0); the exponent is whole and below 10^7; the coefficient is
      below 10^7; a zero exponent allows no wraps; a positive exponent
      needs a coefficient in [1, 10), and one below 10^6 allows at most
      one wrap. */
  predicate Canonical(x: InsaneValue)
  {
    var s, c, e := x.startingECount, x.coefficient, x.exponent;
    && (c == 0.0 ==> e == 0.0 && s == 0)
    && (e == 0.0 ==> s == 0)
    && c < 10000000.0 && e < 10000000.0 && IsWhole(e)
    && (e > 0.0 ==> 1.0 <= c < 10.0 && (e < 1000000.0 ==> s <= 1))
  }

  // ---------------------------------------------------------------------------
  // One pass of the balancing loop (lines 105-140 of the source)
  // ---------------------------------------------------------------------------

  /** Moves one wrap into a fractional exponent. */
  function ShiftWrap(x: InsaneValue): InsaneValue
  {
    if x.startingECount > 0 && JsMod1(x.exponent) != 0.0 then
      var s' := Max(x.startingECount - 1, 0);
      InsaneValue(s', x.coefficient, TimesPower10(x.exponent, x.startingECount - s'))
    else x
  }

  lemma NonZeroProduct(a: real, b: real)
    requires a != 0.0 && b != 0.0
    ensures a * b != 0.0
  {
  }

  /** Folds what is left of a fractional exponent into the coefficient and
      floors the exponent. */
  function FoldFraction(x: InsaneValue): (r: InsaneValue)
    requires x.coefficient != 0.0
    ensures r.coefficient != 0.0 && IsWhole(r.exponent)
  {
    JsMod1Zero(x.exponent);
    var f := JsMod1(x.exponent);
    if f != 0.0 then
      NonZeroProduct(x.coefficient, 1.0 / f);
      InsaneValue(x.startingECount, x.coefficient * (1.0 / f), x.exponent.Floor as real)
    else x
  }

  lemma WholeShift(e: real, k: int)
    requires IsWhole(e)
    ensures IsWhole(e + k as real)
  {
    var f := e.Floor;
    assert e + k as real == (f + k) as real;
  }

  lemma InverseAboveOne(c: real)
    requires 0.0 < c < 1.0
    ensures 1.0 / c > 1.0
  {
  }

  /** Moves excess coefficient digits into the exponent. */
  function ShrinkCoefficient(x: InsaneValue): (r: InsaneValue)
    requires x.coefficient != 0.0 && IsWhole(x.exponent)
    ensures r.coefficient != 0.0 && IsWhole(r.exponent)
  {
    if (x.coefficient >= 10.0 && x.exponent > 0.0) || x.coefficient >= 10000000.0 then
      var change := DigitCount(x.coefficient.Floor) - 1;
      WholeShift(x.exponent, change);
      InsaneValue(x.startingECount, OverPower10(x.coefficient, change),
                  x.exponent + change as real)
    else x
  }

  /** `Math.ceil(Math.log10(v))` for v > 1: the least k with 10^k >= v. */
  function CeilLog10(v: real): (k: nat)
    requires v > 1.0
  {
    var d := DigitCount(v.Floor);
    if v == Pow10(d - 1) as real then d - 1 else d
  }

  datatype StepResult = Next(value: InsaneValue) | NaN(value: InsaneValue)

  /** Moves exponent into a coefficient below 1, keeping the exponent at
      least 1. A negative coefficient takes the logarithm of a negative
      number: the fields become NaN. */
  function GrowCoefficient(x: InsaneValue): (r: StepResult)
    requires x.coefficient != 0.0 && IsWhole(x.exponent)
    ensures r.value.coefficient != 0.0
  {
    if x.coefficient < 1.0 && x.exponent > 0.0 then
      if x.coefficient < 0.0 then NaN(x)
      else
        InverseAboveOne(x.coefficient);
        var k := CeilLog10(1.0 / x.coefficient);
        var change: int := if k as real >= x.exponent then x.exponent.Floor - 1 else k;
        Next(InsaneValue(x.startingECount, TimesPower10(x.coefficient, change),
                         x.exponent - OverPower10(change as real, x.startingECount)))
    else Next(x)
  }

  /** Moves excess exponent digits into the wrap count. */
  function ShrinkExponent(x: InsaneValue): (r: InsaneValue)
    ensures r.coefficient == x.coefficient
  {
    if (x.exponent >= 100000.0 && x.startingECount > 0) || x.exponent >= 10000000.0 then
      var change := DigitCount(x.exponent.Floor) - 5;
      InsaneValue(x.startingECount + change, x.coefficient, OverPower10(x.exponent, change))
    else x
  }

  /** `Math.floor(v).toString().length` for a whole number `n`. */
  function TextLength(n: int): nat
  {
    if n < 0 then DigitCount(-n) + 1 else DigitCount(n)
  }

  /** Moves wraps back into a small exponent, keeping at least one wrap. */
  function GrowExponent(x: InsaneValue): (r: InsaneValue)
    ensures r.coefficient == x.coefficient
  {
    if x.exponent != 0.0 && x.exponent < 10000.0 && x.startingECount != 0 then
      var change0 := 5 - TextLength(x.exponent.Floor);
      var change := if change0 >= x.startingECount then x.startingECount - 1 else change0;
      InsaneValue(x.startingECount - change, x.coefficient, TimesPower10(x.exponent, change))
    else x
  }

  /** The body of the balancing loop after its zero check. */
  function Step(x: InsaneValue): (r: StepResult)
    requires x.coefficient != 0.0
    ensures r.value.coefficient != 0.0
  {
    var y := ShrinkCoefficient(FoldFraction(ShiftWrap(x)));
    match GrowCoefficient(y)
    case NaN(at) => NaN(at)
    case Next(z) => Next(GrowExponent(ShrinkExponent(z)))
  }

  // ---------------------------------------------------------------------------
  // The balancing loop, with an iteration cap
  // ---------------------------------------------------------------------------

  /** Passes of the loop allowed before balancing gives up. */
  const BalanceFuel: nat := 64

  /** How a run of the balancing loop ends: canonical, given up after the
      allowed passes (the source would loop on), or with NaN fields (the
      source would loop on as well, since NaN is never balanced). */
  datatype BalanceOutcome = Balanced(value: InsaneValue) | GaveUp(value: InsaneValue) | NotANumber(value: InsaneValue)

  /** `balance()` allowed `fuel` passes of its loop. */
  function BalanceRun(x: InsaneValue, fuel: nat): BalanceOutcome
    decreases fuel, 1
  {
    if IsBalanced(x) then Balanced(x)
    else if fuel == 0 then GaveUp(x)
    else if x.coefficient == 0.0 then Balanced(InsaneValue(0, 0.0, 0.0))
    else Continue(x, fuel)
  }

  /** One pass from a non-zero value, then the remaining passes. */
  function Continue(x: InsaneValue, fuel: nat): BalanceOutcome
    requires x.coefficient != 0.0 && fuel > 0
    decreases fuel, 0
  {
    match Step(x)
    case NaN(at) => NotANumber(at)
    case Next(y) => BalanceRun(y, fuel - 1)
  }

  /** One pass of the loop, unfolded. */
  lemma BalanceRunPass(x: InsaneValue, fuel: nat)
    requires !IsBalanced(x) && fuel > 0 && x.coefficient != 0.0
    ensures BalanceRun(x, fuel) == match Step(x)
                                   case NaN(at) => NotANumber(at)
                                   case Next(y) => BalanceRun(y, fuel - 1)
  {
    assert BalanceRun(x, fuel) == Continue(x, fuel);
  }

  // ---------------------------------------------------------------------------
  // Addition and division (lines 149-184 and 201-216)
  // ---------------------------------------------------------------------------

  /** `Math.pow(10, d)` is positive for every `d`. */
  ghost predicate PowerPositive(pow10: real -> real)
  {
    forall d :: pow10(d) > 0.0
  }

  /** The sum `add` builds from two balanced operands before its final
      balance: the operand with fewer wraps has its exponent scaled down,
      the smaller exponent's coefficient is scaled down, and the
      coefficients are added. `pow10` is `Math.pow(10, d)` at the
      difference `d` of the two exponents, which need not be whole once an
      exponent has been scaled. */
  function AddAligned(a: InsaneValue, b: InsaneValue, pow10: real -> real): InsaneValue
    requires PowerPositive(pow10)
  {
    var myExponent :=
      if a.startingECount < b.startingECount
      then OverPower10(a.exponent, b.startingECount - a.startingECount) else a.exponent;
    var otherExponent :=
      if a.startingECount > b.startingECount
      then OverPower10(b.exponent, a.startingECount - b.startingECount) else b.exponent;
    var startingECount := Max(a.startingECount, b.startingECount);
    if myExponent > otherExponent then
      InsaneValue(startingECount,
                  b.coefficient / pow10(myExponent - otherExponent) + a.coefficient,
                  myExponent)
    else if myExponent < otherExponent then
      InsaneValue(startingECount,
                  a.coefficient / pow10(otherExponent - myExponent) + b.coefficient,
                  otherExponent)
    else InsaneValue(startingECount, a.coefficient + b.coefficient, myExponent)
  }

  /** The quotient `div` builds from two balanced operands, the divisor's
      coefficient being non-zero, before its final balance. The wrap count
      of the result is the dividend's, whatever the divisor's. */
  function DivAligned(a: InsaneValue, b: InsaneValue): InsaneValue
    requires b.coefficient != 0.0
  {
    var exponent :=
      if a.startingECount > b.startingECount
      then a.exponent - OverPower10(b.exponent, a.startingECount - b.startingECount)
      else if a.startingECount < b.startingECount
      then OverPower10(a.exponent, b.startingECount - a.startingECount) - b.exponent
      else a.exponent - b.exponent;
    InsaneValue(a.startingECount, a.coefficient / b.coefficient, exponent)
  }

  /** What a call that ends in `balance()` returns: the balanced value, or
      `None` when the balance would not return. */
  function Returned(o: BalanceOutcome): Option<InsaneValue>
  {
    if o.Balanced? then Some(o.value) else None
  }

  /** The value `add` returns, when every balance it runs settles within the
      cap; `None` when one of them would not return. */
  function AddRun(a: InsaneValue, b: InsaneValue, pow10: real -> real, fuel: nat): Option<InsaneValue>
    requires PowerPositive(pow10)
  {
    var x, y := BalanceRun(a, fuel), BalanceRun(b, fuel);
    if x.Balanced? && y.Balanced? then Returned(BalanceRun(AddAligned(x.value, y.value, pow10), fuel))
    else None
  }

  /** The value `div` returns, as for `AddRun`; a divisor whose coefficient
      is 0 once balanced gives (0, 0, 0). */
  function DivRun(a: InsaneValue, b: InsaneValue, fuel: nat): Option<InsaneValue>
  {
    var x, y := BalanceRun(a, fuel), BalanceRun(b, fuel);
    if x.Balanced? && y.Balanced? then
      if y.value.coefficient == 0.0 then Some(Zero)
      else Returned(BalanceRun(DivAligned(x.value, y.value), fuel))
    else None
  }

  // ---------------------------------------------------------------------------
  // The mutable number
  // ---------------------------------------------------------------------------

  class InsaneInt {
    var startingECount: int
    var coefficient: real
    var exponent: real

    function Value(): InsaneValue
      reads this
    {
      InsaneValue(startingECount, coefficient, exponent)
    }

    constructor (startingECount: int, coefficient: real, exponent: real)
      ensures Value() == InsaneValue(startingECount, coefficient, exponent)
    {
      this.startingECount := startingECount;
      this.coefficient := coefficient;
      this.exponent := exponent;
    }

    /** `fromString` given an InsaneInt: a field-for-field copy. */
    constructor Copy(other: InsaneInt)
      ensures Value() == other.Value()
    {
      startingECount := other.startingECount;
      coefficient := other.coefficient;
      exponent := other.exponent;
    }

    /** `fromString` given text: strips the leading 'e's one by one, then
        reads the rest. */
    static method FromString(text: string) returns (r: Option<InsaneValue>)
      ensures r == Parse(text)
    {
      var val := text;
      var count := 0;
      while |val| > 0 && val[0] == 'e'
        invariant count <= |text| && val == text[count..]
        invariant LeadingEs(text) == count + LeadingEs(val)
      {
        assert LeadingEs(val) == 1 + LeadingEs(val[1..]);
        DropFirst(text, count);
        count := count + 1;
        val := val[1..];
      }
      assert LeadingEs(val) == 0;
      r := ParseRest(count, val);
    }

    /** `toString`: appends one 'e' per wrap, then the coefficient, then the
        exponent when it is not zero. */
    method ToString() returns (result: string)
      ensures result == Render(Value())
    {
      result := "";
      var i := 0;
      while i < startingECount
        invariant 0 <= i && (i <= startingECount || i == 0)
        invariant result == Es(i)
      {
        result := result + "e";
        i := i + 1;
      }
      assert result == Es(startingECount);
      ghost var es := result;
      result := result + RenderNumber(coefficient);
      if exponent != 0.0 {
        result := result + ("e" + RenderNumber(exponent));
      }
      Appended(es, RenderNumber(coefficient), exponent != 0.0, "e" + RenderNumber(exponent), result);
    }

    /** `balance()`: rewrites the fields pass by pass until the value is
        canonical, giving up after BalanceFuel passes. */
    method Balance() returns (outcome: BalanceOutcome)
      modifies this
      ensures outcome == BalanceRun(old(Value()), BalanceFuel)
      ensures Value() == outcome.value
    {
      var fuel := BalanceFuel;
      ghost var goal := BalanceRun(Value(), fuel);
      while !IsBalanced(Value())
        invariant BalanceRun(Value(), fuel) == goal
        decreases fuel
      {
        var stop, result := Iteration(fuel);
        if stop {
          return result;
        }
        fuel := fuel - 1;
      }
      BalanceKeepsBalanced(Value(), fuel);
      outcome := Balanced(Value());
    }

    /** One iteration of the loop of `balance()` with `fuel` passes left:
        gives up without passes, snaps a zero coefficient to (0, 0, 0), or
        runs one pass. `stop` reports that the loop ends here, with `result`;
        otherwise the rest of the run continues from the new fields. */
    method Iteration(fuel: nat) returns (stop: bool, result: BalanceOutcome)
      requires !IsBalanced(Value())
      modifies this
      ensures stop ==> result == BalanceRun(old(Value()), fuel) && Value() == result.value
      ensures !stop ==> fuel > 0 && BalanceRun(old(Value()), fuel) == BalanceRun(Value(), fuel - 1)
    {
      if fuel == 0 {
        return true, GaveUp(Value());
      }
      if coefficient == 0.0 {
        BalanceZero(Value(), fuel);
        exponent := 0.0;
        startingECount := 0;
        return true, Balanced(Value());
      }
      var nan := Pass(fuel);
      if nan {
        return true, NotANumber(Value());
      }
      stop, result := false, Balanced(Value());
    }

    /** The body of the loop of `balance()` after its zero check; reports
        whether the fields became NaN, in which case the pass stops. */
    method Pass(ghost fuel: nat) returns (nan: bool)
      requires coefficient != 0.0
      requires !IsBalanced(Value()) && fuel > 0
      modifies this
      ensures Step(old(Value())) == if nan then NaN(Value()) else Next(Value())
      ensures BalanceRun(old(Value()), fuel)
              == if nan then NotANumber(Value()) else BalanceRun(Value(), fuel - 1)
    {
      ghost var before := Value();
      BalanceRunPass(before, fuel);
      // make the exponent whole
      ShiftWrapInPlace();
      FoldFractionInPlace();
      // balance coefficient and exponent
      ShrinkCoefficientInPlace();
      nan := GrowCoefficientInPlace();
      if nan {
        return;
      }
      // balance exponent and startingECount
      ShrinkExponentInPlace();
      GrowExponentInPlace();
    }

    /** Lines 105-109: a wrap moves into a fractional exponent. */
    method ShiftWrapInPlace()
      modifies this
      ensures Value() == ShiftWrap(old(Value()))
    {
      if startingECount > 0 && JsMod1(exponent) != 0.0 {
        var prevECount := startingECount;
        startingECount := Max(startingECount - 1, 0);
        exponent := TimesPower10(exponent, prevECount - startingECount);
      }
    }

    /** Lines 110-113: the fraction left in the exponent moves into the
        coefficient. */
    method FoldFractionInPlace()
      requires coefficient != 0.0
      modifies this
      ensures Value() == FoldFraction(old(Value()))
    {
      if JsMod1(exponent) != 0.0 {
        coefficient := coefficient * (1.0 / JsMod1(exponent));
        exponent := exponent.Floor as real;
      }
    }

    /** Lines 116-120: excess coefficient digits move into the exponent. */
    method ShrinkCoefficientInPlace()
      requires coefficient != 0.0 && IsWhole(exponent)
      modifies this
      ensures Value() == ShrinkCoefficient(old(Value()))
    {
      if (coefficient >= 10.0 && exponent > 0.0) || coefficient >= 10000000.0 {
        var change := DigitCount(coefficient.Floor) - 1;
        coefficient := OverPower10(coefficient, change);
        exponent := exponent + change as real;
      }
    }

    /** Lines 122-127: exponent moves into a coefficient below 1; reports
        whether the logarithm of a negative coefficient was needed, leaving
        the fields as they were. */
    method GrowCoefficientInPlace() returns (nan: bool)
      requires coefficient != 0.0 && IsWhole(exponent)
      modifies this
      ensures GrowCoefficient(old(Value())) == if nan then NaN(Value()) else Next(Value())
    {
      nan := false;
      if coefficient < 1.0 && exponent > 0.0 {
        if coefficient < 0.0 {
          return true;
        }
        var change: int := CeilLog10(1.0 / coefficient);
        if change as real >= exponent {
          change := exponent.Floor - 1;
        }
        coefficient := TimesPower10(coefficient, change);
        exponent := exponent - OverPower10(change as real, startingECount);
      }
    }

    /** Lines 130-134: excess exponent digits move into the wrap count. */
    method ShrinkExponentInPlace()
      modifies this
      ensures Value() == ShrinkExponent(old(Value()))
    {
      if (exponent >= 100000.0 && startingECount > 0) || exponent >= 10000000.0 {
        var change := DigitCount(exponent.Floor) - 5;
        exponent := OverPower10(exponent, change);
        startingECount := startingECount + change;
      }
    }

    /** Lines 135-140: wraps move back into a small exponent, keeping at
        least one wrap. */
    method GrowExponentInPlace()
      modifies this
      ensures Value() == GrowExponent(old(Value()))
    {
      if exponent != 0.0 && exponent < 10000.0 && startingECount != 0 {
        var change := 5 - TextLength(exponent.Floor);
        if change >= startingECount {
          change := startingECount - 1;
        }
        exponent := TimesPower10(exponent, change);
        startingECount := startingECount - change;
      }
    }

    /** `add`: balances both operands in place, then returns a new number
        holding their balanced sum; `null` when one of the balances would
        not return. */
    method Add(other: InsaneInt, pow10: real -> real) returns (result: InsaneInt?)
      requires PowerPositive(pow10)
      modifies this, other
      ensures result != null ==> fresh(result)
      ensures result == null <==> AddRun(old(Value()), old(other.Value()), pow10, BalanceFuel) == None
      ensures result != null ==> AddRun(old(Value()), old(other.Value()), pow10, BalanceFuel) == Some(result.Value())
      ensures Value() == BalanceRun(old(Value()), BalanceFuel).value
      ensures BalanceRun(old(Value()), BalanceFuel).Balanced? ==>
                other.Value() == BalanceRun(old(other.Value()), BalanceFuel).value
      ensures !BalanceRun(old(Value()), BalanceFuel).Balanced? && other != this ==>
                other.Value() == old(other.Value())
    {
      ghost var a, b := Value(), other.Value();
      var mine := Balance();
      if !mine.Balanced? {
        return null;
      }
      var theirs := other.Balance();
      BalanceBoth(a, b, other == this);
      if !theirs.Balanced? {
        return null;
      }
      var sum := AddAligned(Value(), other.Value(), pow10);
      result := new InsaneInt(sum.startingECount, sum.coefficient, sum.exponent);
      var settled := result.Balance();
      if !settled.Balanced? {
        result := null;
      }
    }

    /** `div`: balances both operands in place; a divisor whose coefficient
        is then 0 gives (0, 0, 0); otherwise returns a new number holding the
        balanced quotient; `null` when one of the balances would not
        return. */
    method Div(other: InsaneInt) returns (result: InsaneInt?)
      modifies this, other
      ensures result != null ==> fresh(result)
      ensures result == null <==> DivRun(old(Value()), old(other.Value()), BalanceFuel) == None
      ensures result != null ==> DivRun(old(Value()), old(other.Value()), BalanceFuel) == Some(result.Value())
      ensures Value() == BalanceRun(old(Value()), BalanceFuel).value
      ensures BalanceRun(old(Value()), BalanceFuel).Balanced? ==>
                other.Value() == BalanceRun(old(other.Value()), BalanceFuel).value
      ensures !BalanceRun(old(Value()), BalanceFuel).Balanced? && other != this ==>
                other.Value() == old(other.Value())
    {
      ghost var a, b := Value(), other.Value();
      var mine := Balance();
      if !mine.Balanced? {
        return null;
      }
      var theirs := other.Balance();
      BalanceBoth(a, b, other == this);
      if !theirs.Balanced? {
        return null;
      }
      if other.coefficient == 0.0 {
        result := new InsaneInt(0, 0.0, 0.0);
        return;
      }
      var quotient := DivAligned(Value(), other.Value());
      result := new InsaneInt(quotient.startingECount, quotient.coefficient, quotient.exponent);
      var settled := result.Balance();
      if !settled.Balanced? {
        result := null;
      }
    }
  }

  /** Balancing one operand and then the other gives each its own balanced
      value, also when both are the same number. */
  lemma BalanceBoth(a: InsaneValue, b: InsaneValue, same: bool)
    requires same ==> a == b
    requires BalanceRun(a, BalanceFuel).Balanced?
    ensures same ==> BalanceRun(BalanceRun(a, BalanceFuel).value, BalanceFuel) == BalanceRun(b, BalanceFuel)
  {
    if same { BalanceIdempotent(a, BalanceFuel, BalanceFuel); }
  }

  // ---------------------------------------------------------------------------
  // Properties
  // ---------------------------------------------------------------------------

  /** Whatever `balance` returns is canonical. */
  lemma {:induction false} BalanceRunSound(x: InsaneValue, fuel: nat)
    ensures BalanceRun(x, fuel).Balanced? ==> IsBalanced(BalanceRun(x, fuel).value)
    decreases fuel
  {
    if !IsBalanced(x) && fuel > 0 && x.coefficient != 0.0 {
      match Step(x)
      case NaN(_) =>
      case Next(y) => BalanceRunSound(y, fuel - 1);
    }
  }

  /** A canonical value is left as it is. */
  lemma BalanceKeepsBalanced(x: InsaneValue, fuel: nat)
    requires IsBalanced(x)
    ensures BalanceRun(x, fuel) == Balanced(x)
  {
  }

  /** Balancing twice is balancing once. */
  lemma BalanceIdempotent(x: InsaneValue, fuel: nat, fuel': nat)
    requires BalanceRun(x, fuel).Balanced?
    ensures BalanceRun(BalanceRun(x, fuel).value, fuel') == BalanceRun(x, fuel)
  {
    BalanceRunSound(x, fuel);
  }

  /** A zero coefficient snaps to (0, 0, 0). */
  lemma BalanceZero(x: InsaneValue, fuel: nat)
    requires x.coefficient == 0.0 && fuel >= 1
    ensures BalanceRun(x, fuel) == Balanced(Zero)
  {
  }

  /** `isBalanced` admits exactly the canonical values. */
  lemma BalancedIsCanonical(x: InsaneValue)
    ensures IsBalanced(x) <==> Canonical(x)
  {
    JsMod1Zero(x.exponent);
  }

  /** A plain number (no wraps, no exponent) is canonical exactly when its
      coefficient is below 10^7; so (0, 15, 0) stays as it is. */
  lemma PlainBalanced(c: real)
    ensures IsBalanced(InsaneValue(0, c, 0.0)) <==> c < 10000000.0
    ensures IsBalanced(InsaneValue(0, 15.0, 0.0))
  {
    JsMod1Zero(0.0);
  }

  /** A value that the loop body leaves unchanged and that is not canonical
      keeps the loop running forever: every cap is exhausted. */
  lemma {:induction false} FixpointNeverSettles(x: InsaneValue, fuel: nat)
    requires !IsBalanced(x) && x.coefficient != 0.0 && Step(x) == Next(x)
    ensures BalanceRun(x, fuel) == GaveUp(x)
    decreases fuel
  {
    if fuel > 0 { FixpointNeverSettles(x, fuel - 1); }
  }

  /** (2, 5, 50000): rejected because the exponent is below 10^6 with two
      wraps, yet no rewrite applies to it. */
  lemma WrapGapStuck(fuel: nat)
    ensures BalanceRun(InsaneValue(2, 5.0, 50000.0), fuel) == GaveUp(InsaneValue(2, 5.0, 50000.0))
  {
    var x := InsaneValue(2, 5.0, 50000.0);
    JsMod1Zero(50000.0);
    assert ShiftWrap(x) == x;
    assert FoldFraction(x) == x;
    assert ShrinkCoefficient(x) == x;
    assert GrowCoefficient(x) == Next(x);
    assert ShrinkExponent(x) == x;
    assert GrowExponent(x) == x;
    FixpointNeverSettles(x, fuel);
  }

  /** (0, 0.5, 1): the coefficient is below 1 with a positive exponent, but
      the shift is capped at exponent - 1 = 0, so nothing changes. */
  lemma SmallCoefficientStuck(fuel: nat)
    ensures BalanceRun(InsaneValue(0, 0.5, 1.0), fuel) == GaveUp(InsaneValue(0, 0.5, 1.0))
  {
    var x := InsaneValue(0, 0.5, 1.0);
    JsMod1Zero(1.0);
    assert ShiftWrap(x) == x;
    assert FoldFraction(x) == x;
    assert ShrinkCoefficient(x) == x;
    assert (1.0 / 0.5).Floor == 2;
    assert DigitCount(2) == 1;
    assert CeilLog10(1.0 / 0.5) == 1;
    assert GrowCoefficient(x) == Next(x);
    assert ShrinkExponent(x) == x;
    assert GrowExponent(x) == x;
    FixpointNeverSettles(x, fuel);
  }

  /** (k, c, 0) with k != 0: rejected for wraps without an exponent, yet the
      only rewrite for few-digit exponents needs a non-zero exponent. This
      is what `fromString("e5")` produces. */
  lemma WrapsWithoutExponentStuck(k: int, c: real, fuel: nat)
    requires k != 0 && 1.0 <= c < 10.0
    ensures BalanceRun(InsaneValue(k, c, 0.0), fuel) == GaveUp(InsaneValue(k, c, 0.0))
  {
    var x := InsaneValue(k, c, 0.0);
    JsMod1Zero(0.0);
    assert ShiftWrap(x) == x;
    assert FoldFraction(x) == x;
    assert ShrinkCoefficient(x) == x;
    assert GrowCoefficient(x) == Next(x);
    assert ShrinkExponent(x) == x;
    assert GrowExponent(x) == x;
    FixpointNeverSettles(x, fuel);
  }

  /** `greaterThan` is irreflexive and transitive. */
  lemma GreaterThanStrictOrder(a: InsaneValue, b: InsaneValue, c: InsaneValue)
    ensures !GreaterThan(a, a)
    ensures GreaterThan(a, b) && GreaterThan(b, c) ==> GreaterThan(a, c)
  {
  }

  /** Exactly one of "greater", "equal", "less" holds, and "less" is
      "greater" with the operands swapped. */
  lemma Trichotomy(a: InsaneValue, b: InsaneValue)
    ensures EqualTo(a, b) <==> a == b
    ensures LessThan(a, b) <==> GreaterThan(b, a)
    ensures (GreaterThan(a, b) && !EqualTo(a, b) && !LessThan(a, b))
         || (!GreaterThan(a, b) && EqualTo(a, b) && !LessThan(a, b))
         || (!GreaterThan(a, b) && !EqualTo(a, b) && LessThan(a, b))
  {
  }

  /** Before its final balance, `add` is symmetric, and the result keeps the
      larger wrap count. */
  lemma AddAlignedSymmetric(a: InsaneValue, b: InsaneValue, pow10: real -> real)
    requires PowerPositive(pow10)
    ensures AddAligned(a, b, pow10) == AddAligned(b, a, pow10)
    ensures AddAligned(a, b, pow10).startingECount == Max(a.startingECount, b.startingECount)
  {
  }

  /** `a.add(b)` and `b.add(a)` return the same value. */
  lemma AddRunSymmetric(a: InsaneValue, b: InsaneValue, pow10: real -> real, fuel: nat)
    requires PowerPositive(pow10)
    ensures AddRun(a, b, pow10, fuel) == AddRun(b, a, pow10, fuel)
  {
    match (BalanceRun(a, fuel), BalanceRun(b, fuel))
    case (Balanced(x), Balanced(y)) => AddAlignedSymmetric(x, y, pow10);
    case _ =>
  }

  /** Adding zero to a canonical value with a non-negative exponent and wrap
      count returns that value. */
  lemma AddZero(x: InsaneValue, pow10: real -> real, fuel: nat)
    requires PowerPositive(pow10)
    requires IsBalanced(x) && x.exponent >= 0.0 && x.startingECount >= 0
    ensures AddRun(x, Zero, pow10, fuel) == Some(x)
  {
    assert IsBalanced(Zero) by { JsMod1Zero(0.0); }
    assert AddAligned(x, Zero, pow10) == x;
  }

  /** Dividing by a number whose balanced coefficient is 0 gives (0, 0, 0),
      whenever the dividend's balance returns. */
  lemma DivByZero(a: InsaneValue, b: InsaneValue, fuel: nat)
    requires b.coefficient == 0.0 && fuel >= 1
    requires BalanceRun(a, fuel).Balanced?
    ensures DivRun(a, b, fuel) == Some(Zero)
  {
    BalanceZero(b, fuel);
  }

  /** The quotient keeps the dividend's wrap count even when the divisor has
      more wraps. */
  lemma DivKeepsDividendWraps(a: InsaneValue, b: InsaneValue)
    requires b.coefficient != 0.0
    ensures DivAligned(a, b).startingECount == a.startingECount
  {
  }

  /** Dividing a wrapped canonical value by itself never returns: the
      quotient (k, 1, 0) has wraps without an exponent. */
  lemma DivSelfStuck(x: InsaneValue, fuel: nat)
    requires IsBalanced(x) && x.startingECount != 0
    ensures DivRun(x, x, fuel) == None
  {
    BalanceKeepsBalanced(x, fuel);
    assert x.coefficient != 0.0;
    SelfQuotient(x);
    WrapsWithoutExponentStuck(x.startingECount, 1.0, fuel);
  }

  lemma SelfQuotient(x: InsaneValue)
    requires x.coefficient != 0.0
    ensures DivAligned(x, x) == InsaneValue(x.startingECount, 1.0, 0.0)
  {
  }

  // ---------------------------------------------------------------------------
  // Text form properties
  // ---------------------------------------------------------------------------

  lemma {:induction false} LeadingEsOf(k: nat, rest: string)
    requires rest == [] || rest[0] != 'e'
    ensures LeadingEs(Es(k) + rest) == k
    ensures (Es(k) + rest)[k..] == rest
    decreases k
  {
    if k == 0 {
      assert Es(k) + rest == rest;
    } else {
      var t := Es(k - 1) + rest;
      EsCons(k);
      assert Es(k) + rest == "e" + t;
      LeadingEsOf(k - 1, rest);
      LeadingEsCons(t);
      assert ("e" + t)[k..] == t[k - 1..];
    }
  }

  lemma LeadingEsCons(t: string)
    ensures LeadingEs("e" + t) == 1 + LeadingEs(t)
  {
    assert ("e" + t)[1..] == t;
  }

  lemma EsCons(k: int)
    requires k > 0
    ensures Es(k) == "e" + Es(k - 1)
    decreases k
  {
    if k > 1 { EsCons(k - 1); }
  }

  /** Each leading 'e' adds one to the wrap count. */
  lemma ParseCountsLeadingE(t: string)
    ensures Parse("e" + t) == MoreWraps(Parse(t), 1)
  {
    LeadingEsCons(t);
    var n := LeadingEs(t);
    var rest := t[n..];
    assert ("e" + t)[1 + n..] == rest;
    var fields := ParseFields(rest);
    assert Parse("e" + t) == MoreWraps(fields, 1 + n);
    assert Parse(t) == MoreWraps(fields, n);
    MoreWrapsAdd(fields, n, 1);
  }

  lemma MoreWrapsAdd(v: Option<InsaneValue>, j: int, k: int)
    ensures MoreWraps(MoreWraps(v, j), k) == MoreWraps(v, k + j)
  {
  }

  /** Without an 'e' after the leading ones, the remainder is read whole as
      the coefficient, and a '#' in it makes it NaN. */
  lemma ParseWithoutExponent(rest: string)
    requires 'e' !in rest
    ensures Parse(rest) == match ParseNumber(rest)
                           case Some(c) => Some(InsaneValue(0, c, 0.0))
                           case None => None
    ensures '#' in rest ==> Parse(rest) == None
  {
    assert rest[0..] == rest;
    if '#' in rest {
      HashIsNotNumber(rest);
    }
  }

  lemma HashIsNotNumber(s: string)
    requires '#' in s
    ensures ParseNumber(s) == None
  {
    var i := IndexOf(s, '#');
    if s[0] == '-' || s[0] == '+' {
      UnsignedRejects(s[1..], '#');
    } else {
      UnsignedRejects(s, '#');
    }
  }

  lemma UnsignedRejects(s: string, c: char)
    requires c in s && !IsDigit(c) && c != '.'
    ensures ParseUnsigned(s) == None
  {
    var i := IndexOf(s, '.');
    var whole := s[..i];
    var frac := if i < |s| then s[i + 1..] else "";
    var j :| 0 <= j < |s| && s[j] == c;
    if j < i {
      assert whole[j] == c;
    } else {
      assert j > i;
      assert frac[j - i - 1] == c;
    }
  }

  /** Appending in two steps, the second one optional, is appending the
      two parts at once. */
  lemma Appended(a: string, b: string, more: bool, c: string, r: string)
    requires r == if more then a + b + c else a + b
    ensures r == a + (b + (if more then c else ""))
  {
    if more {
      assert a + b + c == a + (b + c);
    } else {
      assert b + "" == b;
    }
  }

  /** Rendering a value and reading it back gives the value, when its wrap
      count is not negative and both of its numbers are decimals the
      renderer writes exactly. */
  lemma ParseRender(x: InsaneValue)
    requires x.startingECount >= 0
    requires IsFiniteDecimal(x.coefficient) && IsFiniteDecimal(x.exponent)
    ensures Parse(Render(x)) == Some(x)
  {
    var rest := RenderedNumbers(x);
    RenderedNumbersStart(x);
    LeadingEsOf(x.startingECount, rest);
    ParseRenderedNumbers(x);
  }

  lemma RenderedNumbersStart(x: InsaneValue)
    ensures RenderedNumbers(x) != [] && RenderedNumbers(x)[0] != 'e'
  {
    var rc := RenderNumber(x.coefficient);
    assert RenderedNumbers(x)[0] == rc[0];
  }

  lemma ParseRenderedNumbers(x: InsaneValue)
    requires x.startingECount >= 0
    requires IsFiniteDecimal(x.coefficient) && IsFiniteDecimal(x.exponent)
    ensures ParseRest(x.startingECount, RenderedNumbers(x)) == Some(x)
  {
    var rc := RenderNumber(x.coefficient);
    RenderRoundTrip(x.coefficient);
    NumeralLacks(rc, 'e');
    NumeralLacks(rc, '#');
    var fields := InsaneValue(0, x.coefficient, x.exponent);
    if x.exponent != 0.0 {
      var re := RenderNumber(x.exponent);
      RenderRoundTrip(x.exponent);
      NumeralLacks(re, 'e');
      NumeralLacks(re, '#');
      ParseFieldsExponent(rc, re);
      assert RenderedNumbers(x) == rc + "e" + re;
    } else {
      assert RenderedNumbers(x) == rc;
    }
    assert ParseFields(RenderedNumbers(x)) == Some(fields);
    assert fields.(startingECount := 0 + x.startingECount) == x;
  }

  /** The rendered text starts with exactly as many 'e's as there are wraps
      (none for a negative count). */
  lemma RenderLeadingEs(x: InsaneValue)
    ensures LeadingEs(Render(x)) == Max(x.startingECount, 0)
  {
    var k := Max(x.startingECount, 0);
    assert Es(x.startingECount) == Es(k);
    RenderedNumbersStart(x);
    LeadingEsOf(k, RenderedNumbers(x));
  }

  /** Text without an 'e' around a single 'e': the two sides are the
      coefficient and the exponent. */
  lemma ParseBodyPair(a: string, b: string, extra: Option<real>)
    requires 'e' !in a && 'e' !in b
    ensures ParseBody(a + "e" + b, extra)
            == match (extra, ParseNumber(a), ParseNumber(b))
               case (Some(n), Some(c), Some(x)) =>
                 if IsWhole(n) then Some(InsaneValue(n.Floor, c, x)) else None
               case _ => None
  {
    assert a + "e" + b == Join([a, b], 'e');
    SplitJoin([a, b], 'e');
  }

  /** A character in neither side is not in the joined text. */
  lemma JoinedLacks(a: string, b: string, sep: char, c: char)
    requires c !in a && c !in b && c != sep
    ensures c !in a + [sep] + b
  {
    var t := a + [sep] + b;
    forall i | 0 <= i < |t| ensures t[i] != c {
      if i < |a| { assert t[i] == a[i]; }
      else if i > |a| { assert t[i] == b[i - |a| - 1]; }
    }
  }

  /** Coefficient text, 'e', exponent text: the two are read as numbers. */
  lemma ParseFieldsExponent(a: string, b: string)
    requires 'e' !in a && 'e' !in b && '#' !in a && '#' !in b
    ensures ParseFields(a + "e" + b)
            == match (ParseNumber(a), ParseNumber(b))
               case (Some(c), Some(x)) => Some(InsaneValue(0, c, x))
               case _ => None
  {
    var rest := a + "e" + b;
    assert rest[|a|] == 'e';
    JoinedLacks(a, b, 'e', '#');
    assert ParseFields(rest) == ParseBody(rest, Some(0.0));
    ParseBodyPair(a, b, Some(0.0));
    assert IsWhole(0.0) && (0.0).Floor == 0;
  }

  /** A '#' suffix holding a whole number gives that many wraps. */
  lemma ParseFieldsHash(a: string, b: string, h: string, n: int)
    requires 'e' !in a && 'e' !in b && '#' !in a && '#' !in b && '#' !in h
    requires ParseNumber(h) == Some(n as real)
    ensures ParseFields(a + "e" + b + "#" + h)
            == match (ParseNumber(a), ParseNumber(b))
               case (Some(c), Some(x)) => Some(InsaneValue(n, c, x))
               case _ => None
  {
    var body := a + "e" + b;
    var rest := body + "#" + h;
    JoinedLacks(a, b, 'e', '#');
    assert rest == Join([body, h], '#');
    SplitJoin([body, h], '#');
    assert rest[|a|] == 'e';
    assert rest[|body|] == '#';
    assert ParseFields(rest) == ParseBody(body, Some(n as real));
    ParseBodyPair(a, b, Some(n as real));
    assert IsWhole(n as real) && (n as real).Floor == n;
  }

  /** Text that does not start with 'e' is read without added wraps. */
  lemma ParseNoLeadingE(t: string)
    requires t == [] || t[0] != 'e'
    ensures Parse(t) == ParseFields(t)
  {
    TakeAll(t);
    ParseRestZero(t);
  }

  lemma ParseRestZero(rest: string)
    ensures ParseRest(0, rest) == ParseFields(rest)
  {
  }

  /** The examples: "e5e100" is (1, 5, 100), "1e5" is (0, 1, 5), "e5" is
      (1, 5, 0), and "1e5#3" adds 3 wraps. */
  lemma ParseWrappedExample(t: string)
    requires t == "e5e100"
    ensures Parse(t) == Some(InsaneValue(1, 5.0, 100.0))
  {
    var u := "5" + "e" + "100";
    WrappedExampleText(t);
    ExponentExampleFields("5", "100", 5, 100);
    ParseNoLeadingE(u);
    ParseCountsLeadingE(u);
  }

  lemma WrappedExampleText(t: string)
    requires t == "e5e100"
    ensures t == "e" + ("5" + "e" + "100")
  {
  }

  lemma ParseExponentExample(t: string)
    requires t == "1e5"
    ensures Parse(t) == Some(InsaneValue(0, 1.0, 5.0))
  {
    assert t == "1" + "e" + "5";
    ExponentExampleFields("1", "5", 1, 5);
    ParseNoLeadingE(t);
  }

  /** Two digit strings around an 'e'. */
  lemma ExponentExampleFields(a: string, b: string, m: nat, n: nat)
    requires AllDigits(a) && |a| >= 1 && DigitsValue(a) == m
    requires AllDigits(b) && |b| >= 1 && DigitsValue(b) == n
    ensures ParseFields(a + "e" + b) == Some(InsaneValue(0, m as real, n as real))
  {
    DigitExample(a, m);
    DigitExample(b, n);
    DigitsLack(a, 'e');
    DigitsLack(a, '#');
    DigitsLack(b, 'e');
    DigitsLack(b, '#');
    ParseFieldsExponent(a, b);
  }

  /** "e5" is (1, 5, 0): a wrap without an exponent. */
  lemma ParseBareWrapExample(t: string)
    requires t == "e5"
    ensures Parse(t) == Some(InsaneValue(1, 5.0, 0.0))
  {
    var a := "5";
    DigitExample(a, 5);
    DigitsLack(a, 'e');
    ParseWithoutExponent(a);
    ParseCountsLeadingE(a);
    assert t == "e" + a;
  }

  /** "1e5#3": the '#' suffix gives three wraps. */
  lemma ParseHashExample(t: string)
    requires t == "1e5#3"
    ensures Parse(t) == Some(InsaneValue(3, 1.0, 5.0))
  {
    HashExampleText(t);
    HashExampleFields("1", "5", "3", 1, 5, 3);
    ParseNoLeadingE(t);
  }

  lemma HashExampleText(t: string)
    requires t == "1e5#3"
    ensures t == "1" + "e" + "5" + "#" + "3"
  {
  }

  /** Digit strings for the coefficient, the exponent and the '#' count. */
  lemma HashExampleFields(a: string, b: string, h: string, m: nat, n: nat, k: nat)
    requires AllDigits(a) && |a| >= 1 && DigitsValue(a) == m
    requires AllDigits(b) && |b| >= 1 && DigitsValue(b) == n
    requires AllDigits(h) && |h| >= 1 && DigitsValue(h) == k
    ensures ParseFields(a + "e" + b + "#" + h) == Some(InsaneValue(k, m as real, n as real))
  {
    DigitExample(a, m);
    DigitExample(b, n);
    DigitExample(h, k);
    DigitsLack(a, 'e');
    DigitsLack(a, '#');
    DigitsLack(b, 'e');
    DigitsLack(b, '#');
    DigitsLack(h, '#');
    ParseFieldsHash(a, b, h, k);
  }

  lemma DigitExample(s: string, n: nat)
    requires AllDigits(s) && |s| >= 1 && DigitsValue(s) == n
    ensures ParseNumber(s) == Some(n as real)
  {
    ParseDigits(s);
  }
}
