/**
 * The JavaScript number semantics the components depend on: truthiness of a
 * nullable id, and percentages computed with floating-point division, where a
 * zero denominator yields Infinity or NaN instead of failing. The value of a
 * finite percentage is kept as an exact `real`; rounding is not modelled.
 */
module Numbers {
  import opened Wrappers

  /** `if (id)` on a `number | null`: false for null and for 0. */
  predicate Truthy(id: Option<int>) {
    id.Some? && id.value != 0
  }

  /** `Math.max(a, b)` on integers. */
  function Max(a: int, b: int): int {
    if a >= b then a else b
  }

  /** `Math.min(a, b)` on integers. */
  function Min(a: int, b: int): int {
    if a <= b then a else b
  }

  /** The result of `(part / whole) * 100` in JavaScript. */
  datatype Percentage = Finite(value: real) | PlusInfinity | MinusInfinity | NotANumber

  function PercentOf(part: int, whole: int): (p: Percentage)
    ensures p.Finite? <==> whole != 0
    ensures p.Finite? ==> p.value * whole as real == part as real * 100.0
    ensures p == NotANumber <==> whole == 0 && part == 0
    ensures p == PlusInfinity <==> whole == 0 && part > 0
  {
    if whole != 0 then Finite(part as real / whole as real * 100.0)
    else if part > 0 then PlusInfinity
    else if part < 0 then MinusInfinity
    else NotANumber
  }

  /** `p >= t` for a JavaScript number `p`: every comparison with NaN is false. */
  predicate AtLeast(p: Percentage, t: real) {
    match p
    case Finite(v) => v >= t
    case PlusInfinity => true
    case MinusInfinity => false
    case NotANumber => false
  }

  /** `Math.min(p, 100)`: NaN and -Infinity pass through, +Infinity becomes 100. */
  function CapAt100(p: Percentage): (r: Percentage)
    ensures r.Finite? ==> r.value <= 100.0
    ensures r.Finite? <==> p.Finite? || p == PlusInfinity
    ensures AtLeast(p, 100.0) <==> r == Finite(100.0)
    ensures p.Finite? && p.value <= 100.0 ==> r == p
    ensures !AtLeast(p, 100.0) ==> r == p
  {
    match p
    case Finite(v) => Finite(if v < 100.0 then v else 100.0)
    case PlusInfinity => Finite(100.0)
    case MinusInfinity => MinusInfinity
    case NotANumber => NotANumber
  }

  /**
   * For a positive denominator the thresholds can be decided on integers:
   * `(part / whole) * 100 >= t` exactly when `100 * part >= t * whole`.
   */
  lemma AtLeastByCrossMultiplication(part: int, whole: int, t: nat)
    requires whole > 0
    ensures AtLeast(PercentOf(part, whole), t as real) <==> 100 * part >= t * whole
  {
    var v := PercentOf(part, whole).value;
    assert v * whole as real == (100 * part) as real;
    assert (t * whole) as real == t as real * whole as real;
    if v >= t as real {
      assert v * whole as real >= t as real * whole as real;
    } else {
      assert v * whole as real < t as real * whole as real;
    }
  }

  /** A table within capacity has a finite percentage between 0 and 100, and reaches 100 exactly when full. */
  lemma PercentWithinCapacity(part: int, whole: int)
    requires 0 <= part <= whole && whole > 0
    ensures PercentOf(part, whole).Finite?
    ensures 0.0 <= PercentOf(part, whole).value <= 100.0
    ensures AtLeast(PercentOf(part, whole), 100.0) <==> part == whole
  {
    AtLeastByCrossMultiplication(part, whole, 100);
    AtLeastByCrossMultiplication(part, whole, 0);
    var v := PercentOf(part, whole).value;
    assert v * whole as real <= 100.0 * whole as real;
  }
}
