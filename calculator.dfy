/**
 * The calculator's state machine: the state record, `updateState`, the
 * operator dispatch of `calculateResult`, the six input handlers and the
 * routing of a button press to a handler.
 */
module Calculator {
  import opened Wrappers
  import opened Strings
  import opened Float64
  import A = Arithmetic

  datatype Op = Addition | Subtraction | Multiplication | Division | Exponentiation

  /** The operator symbol a button carries in `data-operation`. */
  function Symbol(op: Op): string {
    match op
    case Addition => "+"
    case Subtraction => "-"
    case Multiplication => "*"
    case Division => "/"
    case Exponentiation => "^"
  }

  /** The operator a symbol stands for, if any: the inverse of `Symbol`. */
  function OperatorOf(token: string): (r: Option<Op>)
    ensures r.Some? ==> Symbol(r.value) == token
    ensures r.None? ==> forall op: Op :: Symbol(op) != token
  {
    if token == "+" then Some(Addition)
    else if token == "-" then Some(Subtraction)
    else if token == "*" then Some(Multiplication)
    else if token == "/" then Some(Division)
    else if token == "^" then Some(Exponentiation)
    else None
  }

  datatype State = State(currentValue: string, previousValue: string, operation: Option<Op>, overwrite: bool)

  const Initial: State := State("0", "", None, false)

  /** A `Partial<CalculatorState>`: the fields present are the ones to replace. */
  datatype Patch = Patch(
    currentValue: Option<string>,
    previousValue: Option<string>,
    operation: Option<Option<Op>>,
    overwrite: Option<bool>)

  const Keep: Patch := Patch(None, None, None, None)

  /** `{ ...state, ...partial }`. */
  function UpdateState(s: State, p: Patch): (r: State)
    ensures p.currentValue.None? ==> r.currentValue == s.currentValue
    ensures p.previousValue.None? ==> r.previousValue == s.previousValue
    ensures p.operation.None? ==> r.operation == s.operation
    ensures p.overwrite.None? ==> r.overwrite == s.overwrite
    ensures p.currentValue.Some? ==> r.currentValue == p.currentValue.value
    ensures p.previousValue.Some? ==> r.previousValue == p.previousValue.value
    ensures p.operation.Some? ==> r.operation == p.operation.value
    ensures p.overwrite.Some? ==> r.overwrite == p.overwrite.value
  {
    State(
      p.currentValue.GetOr(s.currentValue),
      p.previousValue.GetOr(s.previousValue),
      p.operation.GetOr(s.operation),
      p.overwrite.GetOr(s.overwrite))
  }

  /**
   * `calculateResult`: parse both operands, apply the operator, print the
   * result.  An operator outside the five returns the right operand as it is;
   * only division can fail.
   */
  function CalculateResult(h: Host, operation: string, prevValue: string, currValue: string): (r: Result<string, A.Error>)
    ensures r.Failure? <==> operation == "/" && IsZero(h.parseFloat(currValue))
    ensures r.Failure? ==> r.error == A.DivisionByZero
    ensures OperatorOf(operation).None? ==> r == Success(currValue)
    ensures r.Success? && OperatorOf(operation).Some? ==> r.value != "" && Dots(r.value) <= 1
    ensures operation == "+" ==> r == Success(h.toString(h.plus(h.parseFloat(prevValue), h.parseFloat(currValue))))
    ensures operation == "-" ==> r == Success(h.toString(h.minus(h.parseFloat(prevValue), h.parseFloat(currValue))))
    ensures operation == "*" ==> r == Success(h.toString(h.times(h.parseFloat(prevValue), h.parseFloat(currValue))))
    ensures operation == "/" && !IsZero(h.parseFloat(currValue)) ==>
              r == Success(h.toString(h.quotient(h.parseFloat(prevValue), h.parseFloat(currValue))))
    ensures operation == "^" ==> r == Success(h.toString(h.pow(h.parseFloat(prevValue), h.parseFloat(currValue))))
  {
    var a := h.parseFloat(prevValue);
    var b := h.parseFloat(currValue);
    if operation == "+" then Success(h.toString(A.Add(h, a, b)))
    else if operation == "-" then Success(h.toString(A.Subtract(h, a, b)))
    else if operation == "*" then Success(h.toString(A.Multiply(h, a, b)))
    else if operation == "/" then
      match A.Divide(h, a, b)
      case Success(q) => Success(h.toString(q))
      case Failure(e) => Failure(e)
    else if operation == "^" then Success(h.toString(A.Power(h, a, b)))
    else Success(currValue)
  }

  /** The result of the pending operation `op` on the staged and the current operand. */
  function Compute(h: Host, op: Op, prevValue: string, currValue: string): (r: Result<string, A.Error>)
    ensures r.Failure? <==> op == Division && IsZero(h.parseFloat(currValue))
    ensures r.Success? ==> r.value != "" && Dots(r.value) <= 1
  {
    CalculateResult(h, Symbol(op), prevValue, currValue)
  }

  /** Whether an operation is pending: `state.operation && state.previousValue`. */
  predicate Pending(s: State) {
    s.operation.Some? && s.previousValue != ""
  }

  function HandleNumberInput(s: State, digit: string): (r: State)
    ensures r.previousValue == s.previousValue && r.operation == s.operation
    ensures !r.overwrite
    ensures r.currentValue == if s.overwrite || s.currentValue == "0" then digit else s.currentValue + digit
  {
    if s.overwrite || s.currentValue == "0" then
      UpdateState(s, Keep.(currentValue := Some(digit), overwrite := Some(false)))
    else
      UpdateState(s, Keep.(currentValue := Some(s.currentValue + digit)))
  }

  function HandleDecimalPoint(s: State): (r: State)
    ensures '.' in r.currentValue
    ensures r.previousValue == s.previousValue && r.operation == s.operation
    ensures '.' in s.currentValue <==> r == s
    ensures '.' !in s.currentValue ==> !r.overwrite
  {
    if '.' in s.currentValue then
      s
    else if s.overwrite then
      UpdateState(s, Keep.(currentValue := Some("0."), overwrite := Some(false)))
    else
      assert (s.currentValue + ".")[|s.currentValue|] == '.';
      UpdateState(s, Keep.(currentValue := Some(s.currentValue + ".")))
  }

  function HandleOperationInput(h: Host, s: State, op: Op): (r: Result<State, A.Error>)
    ensures r.Failure? <==> Pending(s) && Compute(h, s.operation.value, s.previousValue, s.currentValue).Failure?
    ensures r.Failure? ==> r.error == A.DivisionByZero
    ensures r.Success? ==> r.value.operation == Some(op) && r.value.overwrite
    ensures r.Success? ==> r.value.previousValue == r.value.currentValue
    ensures r.Success? && !Pending(s) ==> r.value.currentValue == s.currentValue
  {
    if Pending(s) then
      match Compute(h, s.operation.value, s.previousValue, s.currentValue)
      case Failure(e) => Failure(e)
      case Success(computed) =>
        Success(UpdateState(s, Patch(Some(computed), Some(computed), Some(Some(op)), Some(true))))
    else
      Success(UpdateState(s, Keep.(previousValue := Some(s.currentValue), operation := Some(Some(op)), overwrite := Some(true))))
  }

  function HandleEquals(h: Host, s: State): (r: Result<State, A.Error>)
    ensures !Pending(s) ==> r == Success(s)
    ensures r.Failure? <==> Pending(s) && Compute(h, s.operation.value, s.previousValue, s.currentValue).Failure?
    ensures r.Failure? ==> r.error == A.DivisionByZero
    ensures Pending(s) && r.Success? ==>
              r.value.previousValue == "" && r.value.operation.None? && r.value.overwrite
  {
    if !Pending(s) then
      Success(s)
    else
      match Compute(h, s.operation.value, s.previousValue, s.currentValue)
      case Failure(e) => Failure(e)
      case Success(result) =>
        Success(UpdateState(s, Patch(Some(result), Some(""), Some(None), Some(true))))
  }

  /** `handleSqrt`: the thrown `NegativeRadicand` is caught, reported, and the state reset. */
  function HandleSqrt(h: Host, s: State): (r: State)
    ensures r == Initial <==> IsNegative(h.parseFloat(s.currentValue))
    ensures r.previousValue == "" && r.operation.None?
    ensures !IsNegative(h.parseFloat(s.currentValue)) ==>
              r.overwrite && r.currentValue == h.toString(h.squareRoot(h.parseFloat(s.currentValue)))
  {
    match A.Sqrt(h, h.parseFloat(s.currentValue))
    case Failure(_) => Initial
    case Success(root) =>
      UpdateState(s, Patch(Some(h.toString(root)), Some(""), Some(None), Some(true)))
  }

  function HandleClear(): (r: State)
    ensures r.currentValue == "0" && r.previousValue == "" && r.operation.None? && !r.overwrite
  {
    UpdateState(Initial, Keep)
  }

  /** What a button carries: its `data-number` and `data-operation` attributes, `null` as None. */
  datatype Button = Button(number: Option<string>, operation: Option<string>)

  /** The `data-operation` values the click listener acts on. */
  predicate IsCommand(token: string) {
    OperatorOf(token).Some? || token == "." || token == "=" || token == "sqrt" || token == "clear"
  }

  /** The click listener's routing of one button press, without the DOM reads and the render. */
  function Step(h: Host, s: State, b: Button): (r: Result<State, A.Error>)
    ensures b.number.None? && (b.operation.None? || !IsCommand(b.operation.value)) ==> r == Success(s)
    ensures r.Failure? ==> r.error == A.DivisionByZero
    ensures r.Failure? ==> b.number.None? && b.operation.Some? &&
                           (OperatorOf(b.operation.value).Some? || b.operation.value == "=")
  {
    match b.number
    case Some(digit) => Success(HandleNumberInput(s, digit))
    case None =>
      match b.operation
      case None => Success(s)
      case Some(token) =>
        match OperatorOf(token)
        case Some(op) => HandleOperationInput(h, s, op)
        case None =>
          if token == "." then Success(HandleDecimalPoint(s))
          else if token == "=" then HandleEquals(h, s)
          else if token == "sqrt" then Success(HandleSqrt(h, s))
          else if token == "clear" then Success(HandleClear())
          else Success(s)
  }

  /** The state after one press: a failure escapes the listener before the state is replaced. */
  function After(h: Host, s: State, b: Button): State {
    match Step(h, s, b)
    case Success(t) => t
    case Failure(_) => s
  }

  /** The state after a sequence of presses. */
  function Run(h: Host, s: State, buttons: seq<Button>): State
    decreases |buttons|
  {
    if buttons == [] then s else Run(h, After(h, s, buttons[0]), buttons[1..])
  }
}
