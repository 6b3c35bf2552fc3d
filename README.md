# Calculator state machine, in Dafny

A model of the browser calculator in `calculator.ts`. The calculator holds a four-field state:
- the display text (`currentValue`);
- the staged left operand (`previousValue`);
- the pending operator (`operation`);
- the overwrite flag.

Each button press maps the state to a new state through one of six handlers:
- digit;
- decimal point;
- operator;
- equals;
- square root;
- clear.

Operators chain left to right with no precedence. `divide` and `sqrt` throw. Only the square-root handler catches its error, and it then resets the state to the initial one. A division by zero in the operator or equals path escapes the click listener, and the state stays as it was.

Modules:
- `Wrappers` (wrappers.dfy): `Option` (JavaScript `null`) and `Result` (a thrown error).
- `Strings` (strings.dfy): the point count `Dots`, which gives the meaning of `includes(".")`, digits, and leading zeros.
- `Float64` (float64.dfy): a JavaScript number as its IEEE 754 binary64 bit pattern.
  - `IsZero` (`b === 0`) and `IsNegative` (`a < 0`) are defined exactly on the bits: both zeros are equal to 0, NaN is neither 0 nor below it, and negative infinity is below 0.
  - Everything else numeric is a field of the `Host` value that every operation takes as a parameter: `+ - * /`, `Math.pow`, `Math.sqrt`, `parseFloat` and `Number.prototype.toString`.
  - The model assumes one thing about the host: `toString` never returns an empty string or one with two points (`NumberText`).
- `Arithmetic` (arithmetic.dfy): the primitives `add` … `sqrt`. `Divide` and `Sqrt` return `Failure(DivisionByZero)` and `Failure(NegativeRadicand)` where the source throws.
- `Calculator` (calculator.dfy): the parts of the source listed below.
  - `State` and `Initial`.
  - `UpdateState`, which models the object spread over a `Patch`, a record of optional fields that stands for `Partial<CalculatorState>`.
  - `CalculateResult` and `Compute`, its use with a pending operator.
  - The six handlers.
  - `Step`, the click listener's routing of one `Button`. A `Button` holds the button's `data-number` and `data-operation` attributes.
  - `Run`, a fold of `Step` over a sequence of presses, in which a failed press leaves the state unchanged.
- `CalculatorProperties` (calculator_properties.dfy) holds the lemmas:
  - the exact effect of each handler;
  - idempotence of `.` and `=`;
  - the state invariant `Valid`, preserved by every press;
  - typing digits after `clear`;
  - left-to-right chaining;
  - the propagation of division by zero;
  - the scenarios `5 + 3 =`, `3 + 4 * 2 =` and `9 sqrt`.

In the state, `operation` is `Option<Op>` over the five operators. JavaScript tests `state.operation` for truthiness, and every operator symbol is a non-empty string, so `Some?` is that test. `calculateResult` keeps a string operator so that its pass-through default branch is modelled.

## Model

| member | source | states |
|---|---|---|
| `Float64.ZeroPatterns` | calculator.ts:36 | `b === 0` holds of exactly two bit patterns, +0 and -0 |
| `Float64.IsZero` | calculator.ts:36 | `b === 0`: the bits other than the sign bit are all zero |
| `Float64.IsNegative` | calculator.ts:47 | `a < 0`: the sign bit is set and the value is neither a zero nor a NaN |
| `Float64.ComparisonCorners` | calculator.ts:47 | the canonical NaN is neither `=== 0` nor `< 0`; -0 and +0 are not `< 0`; negative infinity is `< 0` |
| `Float64.NaNIsUnordered` | calculator.ts:47 | every NaN, whatever its sign bit, is neither `=== 0` nor `< 0` |
| `Float64.FiniteNegatives` | calculator.ts:47 | every value with its sign bit set and a finite exponent, other than -0, is `< 0` |
| `Float64.MinusFourIsNegative` | calculator.ts:47 | -4 is `< 0` |
| `Arithmetic.Add` | calculator.ts:23-25 | the host's sum of the two operands |
| `Arithmetic.Subtract` | calculator.ts:27-29 | the host's difference of the two operands |
| `Arithmetic.Multiply` | calculator.ts:31-33 | the host's product of the two operands |
| `Arithmetic.Power` | calculator.ts:42-44 | the host's `Math.pow` of the two operands |
| `Arithmetic.Divide` | calculator.ts:35-40 | fails, with `DivisionByZero`, exactly when the divisor is zero; otherwise gives the host's quotient |
| `Arithmetic.DivideFailsExactlyOnZeros` | calculator.ts:36-38 | division fails iff the divisor is +0 or -0; a NaN divisor does not fail |
| `Arithmetic.Sqrt` | calculator.ts:46-51 | fails, with `NegativeRadicand`, exactly when the radicand is below zero; otherwise gives the host's root |
| `Arithmetic.SqrtDomain` | calculator.ts:47-50 | negative infinity and -4 are rejected; both zeros, every NaN and every value with a clear sign bit are accepted |
| `Calculator.OperatorOf` | calculator.ts:69-84 | the five operator symbols and nothing else name an operator; it is the inverse of `Symbol` |
| `Calculator.UpdateState` | calculator.ts:16-21 | a field the partial gives takes the partial's value; a field it leaves out keeps its old value |
| `CalculatorProperties.UpdateStateComposes` | calculator.ts:20 | two spreads in turn equal one spread of the merged partial; the empty partial is the identity |
| `Calculator.CalculateResult` | calculator.ts:58-89 | fails iff the operator is `/` and the right operand parses to zero, and then with `DivisionByZero`; `+ - * ^` give the host's `plus`, `minus`, `times`, `pow` of (left, right) printed by `toString`, `/` with a non-zero right operand gives `quotient`; an unknown operator returns the right operand unchanged; a known one returns non-empty text with at most one point |
| `Calculator.Compute` | calculator.ts:127-132 | a pending operator fails only as a division by a zero right operand; its result is non-empty, with at most one point |
| `Calculator.Pending` | calculator.ts:126 | `state.operation && state.previousValue`: an operator is set and the staged operand is non-empty |
| `Calculator.HandleNumberInput` | calculator.ts:91-105 | operand and operator unchanged; overwrite off; the display becomes the digit when overwriting or showing "0", otherwise it is extended by the digit |
| `CalculatorProperties.NumberInputCases` | calculator.ts:95-104 | the exact new state in both branches |
| `Calculator.HandleDecimalPoint` | calculator.ts:107-120 | the display always holds a point afterwards; the state is unchanged iff it already held one; otherwise overwrite is off |
| `CalculatorProperties.DecimalPointCases` | calculator.ts:108-119 | the exact new state in each of the three branches ("0." when overwriting) |
| `CalculatorProperties.DecimalPointDots` | calculator.ts:108-118 | the point count becomes 1 when there was none and is kept otherwise, so a second point never appears |
| `CalculatorProperties.DecimalPointIdempotent` | calculator.ts:107-120 | pressing `.` twice equals pressing it once |
| `Calculator.HandleOperationInput` | calculator.ts:122-147 | fails iff the pending computation fails; on success the new operator is staged, overwrite is on, and operand and display are equal; with nothing pending the display is kept |
| `CalculatorProperties.OperationInputStages` | calculator.ts:140-146 | nothing pending: operand := display, operator := op, overwrite := true |
| `CalculatorProperties.OperationInputChains` | calculator.ts:126-139 | pending: display and operand both become `Compute` of the pending operator, or its failure propagates |
| `Calculator.HandleEquals` | calculator.ts:149-167 | no-op unless an operation is pending; fails only as a division by zero; on success operand cleared, operator cleared, overwrite on |
| `CalculatorProperties.EqualsEvaluates` | calculator.ts:154-166 | pending: the display becomes `Compute(...)` with the rest reset, or the failure propagates |
| `CalculatorProperties.EqualsIdempotent` | calculator.ts:150-152 | `=` on the state a successful `=` produced returns that state |
| `CalculatorProperties.EqualsTwiceIsOnce` | calculator.ts:149-167 | two `=` presses equal one, failures included |
| `CalculatorProperties.DivisionByZeroEscapes` | calculator.ts:122-167 | a pending `/` with a zero right operand makes the operator and equals handlers fail with `DivisionByZero`, and the press leaves the state as it was |
| `Calculator.HandleSqrt` | calculator.ts:169-183 | the result is the initial state iff the parsed display is negative; operand and operator are always cleared; otherwise the display is the host's root with overwrite on |
| `Calculator.HandleClear` | calculator.ts:185-187 | the initial state: "0", "", no operator, overwrite off |
| `CalculatorProperties.ClearFromAnyState` | calculator.ts:229-231 | `clear` gives the initial state from every state |
| `Calculator.Step` | calculator.ts:208-234 | a press with no attribute or an unknown command leaves the state unchanged; a failure is a division by zero, from an operator or `=` press only |
| `CalculatorProperties.StepRoutes` | calculator.ts:208-231 | from every state, a `data-number` press goes to the digit handler, an operator symbol to the operator handler, and `.`, `=`, `sqrt`, `clear` to their handlers |
| `Calculator.After` | calculator.ts:208-234 | the state after one press: the handler's new state, or the old state when the handler throws and `updateAndRender` is never reached |
| `CalculatorProperties.UnknownTokenIgnored` | calculator.ts:232-233 | an unrecognized `data-operation`, or no attribute, changes nothing |
| `CalculatorProperties.InitialValid` | calculator.ts:9-14 | the initial state satisfies the invariant |
| `CalculatorProperties.StepPreservesValid` | calculator.ts:208-234 | every successful press of a well-formed button keeps the display non-empty with at most one point, and an operator only with a non-empty operand |
| `CalculatorProperties.RunPreservesValid` | calculator.ts:203-236 | the invariant holds after any sequence of well-formed presses |
| `CalculatorProperties.ReachableValid` | calculator.ts:189-236 | every state reachable from the start satisfies the invariant |
| `CalculatorProperties.RunAppend` | calculator.ts:203-204 | pressing `xs` then `ys` is pressing `xs + ys` |
| `CalculatorProperties.TypingAppends` | calculator.ts:102-104 | typing into a non-overwriting display other than "0" appends the digits |
| `CalculatorProperties.TypingFromZero` | calculator.ts:95-99 | typing into a "0" display drops leading zeros |
| `CalculatorProperties.DigitsAfterClear` | calculator.ts:95-104 | after `clear`, the display is the typed digits with the leading zeros removed ("0" if nothing else) |
| `CalculatorProperties.LeftToRightChaining` | calculator.ts:126-139 | `op`, a digit and `=` on a pending state give `Compute(op, Compute(pending), digit)`, with nothing left pending |
| `CalculatorProperties.FivePlusThree` | calculator.ts:149-166 | `5 + 3 =` from the start shows `Compute(+, "5", "3")` with no operand and no operator |
| `CalculatorProperties.ThreePlusFourTimesTwo` | calculator.ts:126-139 | `3 + 4 * 2 =` evaluates `Compute(*, Compute(+, "3", "4"), "2")` |
| `CalculatorProperties.NineSqrt` | calculator.ts:169-183 | `9 sqrt` shows the host's root of the parsed 9, or the initial state if that parse were negative |

## Left out

- DOM wiring is not modelled: reading the attributes, `render`, `addEventListener`, and the module-level `calculatorState` with `updateAndRender` (calculator.ts:189-237). A `Button` stands for the two attribute reads. `Run` stands for the sequence of clicks, with the state replaced only when the handler returns normally.
- `alert(error)` is a UI call. Only its effect, the reset to the initial state, is modelled.
- Floating-point semantics are parameters of the model, not interpreted: `parseFloat`, `toString`, `Math.pow`, `Math.sqrt` and IEEE `+ - * /`. So `3 + 4 * 2 =` is proved to compute `(3 + 4) * 2`, but the text "14" is not derived, and neither is `sqrt(4) == 2`.
- `createBinaryOperation` is an identity wrapper and is left out. The unused `state` parameter of `calculateResult` is dropped.
- Object identity is not modelled. `handleSqrt` returns the shared `initialState` object, while `handleClear` returns a copy. Equal values are indistinguishable here, so "only the sqrt failure path returns `initialState`" cannot be stated.
- Calculator.HandleOperationInput: takes one of the five operators, not any string. They are the only values the click listener passes (calculator.ts:212-218).
- CalculatorProperties.StepPreservesValid: assumes each `data-number` attribute is one of the digit tokens "0" to "9". The page markup that sets these attributes is not part of this model. `handleNumberInput` itself accepts any string, and an empty one would empty the display.
