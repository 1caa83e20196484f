/** Floating-point values as the analysis scripts see them: a number or a
    missing value (numpy's NaN), together with the NaN-aware arithmetic and
    comparisons that pandas and numpy apply column by column, and the
    exceptions a script can stop on. */
module Missing {

  datatype Option<+T> = None | Some(value: T)

  /** A float64 cell: `None` stands for NaN. */
  type Num = Option<real>

  /** The Python exceptions that stop one of the modelled computations. */
  datatype Failure =
    | InvalidNumber(token: string)   // float() raised ValueError on a token
    | EmptyReduction                 // nanmax/nanmin of a zero-size array
    | ZeroStep                       // range() with a step of zero
    | UnboundSeries                  // a variable read before any assignment

  datatype Outcome<+T> = Ok(value: T) | Err(failure: Failure)

  /** `a - b`; NaN if either operand is NaN. */
  function Sub(a: Num, b: Num): (r: Num)
    ensures r.Some? <==> a.Some? && b.Some?
    ensures r.Some? ==> r.value + b.value == a.value
  {
    if a.Some? && b.Some? then Some(a.value - b.value) else None
  }

  /** `a * b`; NaN if either operand is NaN. */
  function Mul(a: Num, b: Num): (r: Num)
    ensures r.Some? <==> a.Some? && b.Some?
  {
    if a.Some? && b.Some? then Some(a.value * b.value) else None
  }

  /** `a / b`; NaN if either operand is NaN. Division by zero gives an
      infinity or NaN in numpy; neither is a finite value, so it is missing
      here as well. */
  function Div(a: Num, b: Num): (r: Num)
    ensures r.Some? <==> a.Some? && b.Some? && b.value != 0.0
    ensures r.Some? ==> r.value * b.value == a.value
  {
    if a.Some? && b.Some? && b.value != 0.0 then Some(a.value / b.value) else None
  }

  /** `-a`; NaN stays NaN. */
  function Neg(a: Num): (r: Num)
    ensures r.Some? <==> a.Some?
    ensures r.Some? ==> r.value + a.value == 0.0
  {
    if a.Some? then Some(-a.value) else None
  }

  /** `a >= t`: false when `a` is NaN. */
  predicate Ge(a: Num, t: real) {
    a.Some? && a.value >= t
  }

  /** `a > t`: false when `a` is NaN. */
  predicate Gt(a: Num, t: real) {
    a.Some? && a.value > t
  }

  /** `a < t`: false when `a` is NaN. */
  predicate Lt(a: Num, t: real) {
    a.Some? && a.value < t
  }

  /** `a == t`: false when `a` is NaN. */
  predicate Eq(a: Num, t: real) {
    a.Some? && a.value == t
  }

  /** Python's `a != b` on floats: true whenever either side is NaN. */
  predicate NotEqual(a: Num, b: Num) {
    a.None? || b.None? || a.value != b.value
  }

  /** A non-zero factor cancels. */
  lemma Cancel(a: real, b: real, w: real)
    requires w != 0.0 && a * w == b * w
    ensures a == b
  {
    assert (a - b) * w == 0.0;
  }
}
