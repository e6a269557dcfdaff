/** JavaScript values the workout tracker works with: optional properties,
    numbers (including the non-finite ones a form field can produce), calendar
    dates, and the two input checks `validInputs` / `allPositive`. */
module Values {

  /** A property that may be absent from an object (`undefined`). */
  datatype Option<+T> = None | Some(value: T)

  /** A JavaScript number. `Number(...)` of a form field is a finite value, NaN,
      or an infinity; finite values are modelled as mathematical reals. */
  datatype Num = Finite(value: real) | NaN | PosInfinity | NegInfinity

  /** `x > 0` on JavaScript numbers. */
  predicate GreaterThanZero(x: Num) {
    x.PosInfinity? || (x.Finite? && x.value > 0.0)
  }

  /** Sign flip of a non-NaN number (`-x`). */
  function Negate(x: Num): (r: Num)
    ensures x.Finite? <==> r.Finite?
    ensures x.Finite? ==> r.value == -x.value
    ensures x.NaN? <==> r.NaN?
  {
    match x
    case Finite(v) => Finite(-v)
    case NaN => NaN
    case PosInfinity => NegInfinity
    case NegInfinity => PosInfinity
  }

  /** JavaScript division `a / b`. Finite by non-zero finite is real division;
      a non-zero finite divided by zero is an infinity with the dividend's sign,
      0/0 and anything involving NaN is NaN, a finite divided by an infinity
      is zero, an infinity divided by a finite keeps or flips its sign, and an
      infinity divided by an infinity is NaN. Zero is treated as +0. */
  function Div(a: Num, b: Num): (r: Num)
    ensures a.NaN? || b.NaN? ==> r.NaN?
  {
    match (a, b)
    case (NaN, _) => NaN
    case (_, NaN) => NaN
    case (Finite(x), Finite(y)) =>
      if y != 0.0 then Finite(x / y)
      else if x > 0.0 then PosInfinity
      else if x < 0.0 then NegInfinity
      else NaN
    case (Finite(_), _) => Finite(0.0)
    case (_, Finite(y)) => if y < 0.0 then Negate(a) else a
    case (_, _) => NaN
  }

  /** Finite by non-zero finite is the real quotient; finite by zero is
      never finite. */
  lemma DivLaw(a: Num, b: Num)
    ensures a.Finite? && b.Finite? && b.value != 0.0 ==>
              Div(a, b).Finite? && Div(a, b).value * b.value == a.value
    ensures a.Finite? && b.Finite? && b.value == 0.0 ==> !Div(a, b).Finite?
  {
    if a.Finite? && b.Finite? && b.value != 0.0 {
      assert Div(a, b) == Finite(a.value / b.value);
    }
  }

  /** `inputs.every(inp => Number.isFinite(inp))` (script.js:166-167). */
  function AllFinite(inputs: seq<Num>): bool {
    |inputs| == 0 || (inputs[0].Finite? && AllFinite(inputs[1..]))
  }

  /** `inputs.every(inp => inp > 0)` (script.js:168). */
  function AllPositive(inputs: seq<Num>): bool {
    |inputs| == 0 || (GreaterThanZero(inputs[0]) && AllPositive(inputs[1..]))
  }

  /** Month index as returned by `Date.prototype.getMonth`. */
  type Month = m: int | 0 <= m < 12

  /** Day of month as returned by `Date.prototype.getDate`. */
  type Day = d: int | 1 <= d <= 31 witness 1

  /** The calendar part of a `Date` that the tracker reads. */
  datatype Date = Date(month: Month, day: Day)
}
