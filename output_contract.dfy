/**
  The pydantic field constraints shared by both `SupportOutput` models:
  every field is required, and `risk` is declared with `ge=0, le=10`.
*/
module OutputContract {
  import opened Wrappers

  const RiskMin := 0
  const RiskMax := 10

  /** The fields of the two `SupportOutput` models (the five-field one uses the first five). */
  datatype Field = SupportAdvice | CustomerName | CustomerId | BlockCard | Risk | Balance | PendingBalance

  /** The validation errors pydantic reports, by their error type. */
  datatype FieldError =
    | Missing(field: Field)
    | GreaterThanEqual(field: Field, bound: int, input: int)
    | LessThanEqual(field: Field, bound: int, input: int)

  /** The error a required field contributes: none when it is present. */
  function Required<T>(field: Field, value: Option<T>): (e: seq<FieldError>)
    ensures e == [] <==> value.Some?
    ensures e != [] ==> e == [Missing(field)]
    ensures forall x :: x in e ==> x.field == field
  {
    if value.Some? then [] else [Missing(field)]
  }

  /** The errors of the `risk` field: required, and inside [RiskMin, RiskMax]. */
  function RiskErrors(risk: Option<int>): (e: seq<FieldError>)
    ensures e == [] <==> risk.Some? && RiskMin <= risk.value <= RiskMax
    ensures Missing(Risk) in e <==> risk.None?
    ensures forall x :: x in e ==> x.field == Risk
    ensures risk.Some? && risk.value < RiskMin ==> e == [GreaterThanEqual(Risk, RiskMin, risk.value)]
    ensures risk.Some? && risk.value > RiskMax ==> e == [LessThanEqual(Risk, RiskMax, risk.value)]
  {
    match risk
    case None => [Missing(Risk)]
    case Some(v) =>
      if v < RiskMin then [GreaterThanEqual(Risk, RiskMin, v)]
      else if v > RiskMax then [LessThanEqual(Risk, RiskMax, v)]
      else []
  }
}
