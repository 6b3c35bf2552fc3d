/** What the handlers promise, alone and over sequences of button presses. */
module CalculatorProperties {
  import opened Wrappers
  import opened Strings
  import opened Float64
  import A = Arithmetic
  import opened Calculator

  // ---------------------------------------------------------------- updateState

  /** The patch `{ ...p, ...q }`: fields of `q` win. */
  function Merge(p: Patch, q: Patch): Patch {
    Patch(
      if q.currentValue.Some? then q.currentValue else p.currentValue,
      if q.previousValue.Some? then q.previousValue else p.previousValue,
      if q.operation.Some? then q.operation else p.operation,
      if q.overwrite.Some? then q.overwrite else p.overwrite)
  }

  /** Spreading two partials in turn is spreading their merge; the empty partial changes nothing. */
  lemma UpdateStateComposes(s: State, p: Patch, q: Patch)
    ensures UpdateState(UpdateState(s, p), q) == UpdateState(s, Merge(p, q))
    ensures UpdateState(s, Keep) == s
  {
  }

  // ---------------------------------------------------------------- single handlers

  lemma NumberInputCases(s: State, digit: string)
    ensures var r := HandleNumberInput(s, digit);
      && r.previousValue == s.previousValue && r.operation == s.operation && !r.overwrite
      && r.currentValue == (if s.overwrite || s.currentValue == "0" then digit else s.currentValue + digit)
  {
  }

  /** The point is added at most once: the count of points becomes 1 and then stays put. */
  lemma DecimalPointDots(s: State)
    ensures var r := HandleDecimalPoint(s);
      Dots(r.currentValue) == if '.' in s.currentValue then Dots(s.currentValue) else 1
  {
    if '.' !in s.currentValue {
      DotsZeroIffNoPoint(s.currentValue);
      DotsAppend(s.currentValue, ".");
      assert Dots("0.") == 1;
    }
  }

  lemma DecimalPointCases(s: State)
    ensures var r := HandleDecimalPoint(s);
      r == if '.' in s.currentValue then s
           else if s.overwrite then s.(currentValue := "0.", overwrite := false)
           else s.(currentValue := s.currentValue + ".")
  {
  }

  lemma DecimalPointIdempotent(s: State)
    ensures HandleDecimalPoint(HandleDecimalPoint(s)) == HandleDecimalPoint(s)
  {
  }

  /** With nothing pending the operator only stages the current operand. */
  lemma OperationInputStages(h: Host, s: State, op: Op)
    requires !Pending(s)
    ensures HandleOperationInput(h, s, op) ==
              Success(State(s.currentValue, s.currentValue, Some(op), true))
  {
  }

  /** With an operation pending the operator first evaluates it, left to right. */
  lemma OperationInputChains(h: Host, s: State, op: Op)
    requires Pending(s)
    ensures var c := Compute(h, s.operation.value, s.previousValue, s.currentValue);
      HandleOperationInput(h, s, op) ==
        match c
        case Success(v) => Success(State(v, v, Some(op), true))
        case Failure(e) => Failure(e)
  {
  }

  lemma EqualsEvaluates(h: Host, s: State)
    requires Pending(s)
    ensures var c := Compute(h, s.operation.value, s.previousValue, s.currentValue);
      HandleEquals(h, s) ==
        match c
        case Success(v) => Success(State(v, "", None, true))
        case Failure(e) => Failure(e)
  {
  }

  /** A second `=` with nothing new staged changes nothing. */
  lemma EqualsIdempotent(h: Host, s: State, t: State)
    requires HandleEquals(h, s) == Success(t)
    ensures HandleEquals(h, t) == Success(t)
  {
  }

  /** A division by zero in the operator and equals paths is not caught: it reaches the caller. */
  lemma DivisionByZeroEscapes(h: Host, s: State, op: Op)
    requires s.operation == Some(Division) && s.previousValue != ""
    requires IsZero(h.parseFloat(s.currentValue))
    ensures HandleOperationInput(h, s, op) == Failure(A.DivisionByZero)
    ensures HandleEquals(h, s) == Failure(A.DivisionByZero)
    ensures After(h, s, Button(None, Some(Symbol(op)))) == s
    ensures After(h, s, Button(None, Some("="))) == s
  {
    assert OperatorOf(Symbol(op)) == Some(op);
  }

  lemma ClearFromAnyState(h: Host, s: State)
    ensures Step(h, s, Button(None, Some("clear"))) == Success(Initial)
  {
  }

  /** Each recognised press reaches its handler, from every state. */
  lemma StepRoutes(h: Host, s: State, d: string, o: Option<string>, op: Op)
    ensures Step(h, s, Button(Some(d), o)) == Success(HandleNumberInput(s, d))
    ensures Step(h, s, Button(None, Some(Symbol(op)))) == HandleOperationInput(h, s, op)
    ensures Step(h, s, Button(None, Some("."))) == Success(HandleDecimalPoint(s))
    ensures Step(h, s, Button(None, Some("="))) == HandleEquals(h, s)
    ensures Step(h, s, Button(None, Some("sqrt"))) == Success(HandleSqrt(h, s))
    ensures Step(h, s, Button(None, Some("clear"))) == Success(HandleClear())
  {
    assert OperatorOf(Symbol(op)) == Some(op);
  }

  /** A press that names no handler leaves the state as it was. */
  lemma UnknownTokenIgnored(h: Host, s: State, token: string)
    requires !IsCommand(token)
    ensures Step(h, s, Button(None, Some(token))) == Success(s)
    ensures Step(h, s, Button(None, None)) == Success(s)
    ensures Run(h, s, [Button(None, Some(token))]) == s
  {
  }

  // ---------------------------------------------------------------- the state invariant

  /** The display is never empty and holds at most one point; an operator is staged only with its operand. */
  predicate Valid(s: State) {
    && s.currentValue != ""
    && Dots(s.currentValue) <= 1
    && (s.operation.Some? ==> s.previousValue != "")
  }

  /** A button as the page defines them: a `data-number` attribute is one decimal digit. */
  predicate WellFormed(b: Button) {
    b.number.Some? ==> IsDigit(b.number.value)
  }

  lemma InitialValid()
    ensures Valid(Initial)
  {
  }

  lemma StepPreservesValid(h: Host, s: State, b: Button)
    requires Valid(s) && WellFormed(b)
    ensures Step(h, s, b).Success? ==> Valid(Step(h, s, b).value)
  {
    match b.number
    case Some(digit) =>
      var r := HandleNumberInput(s, digit);
      DotsAppend(s.currentValue, digit);
      assert Dots(digit) == 0;
    case None =>
      if b.operation.Some? && b.operation.value == "." {
        DecimalPointDots(s);
      }
  }

  lemma {:induction false} RunPreservesValid(h: Host, s: State, buttons: seq<Button>)
    requires Valid(s)
    requires forall i :: 0 <= i < |buttons| ==> WellFormed(buttons[i])
    ensures Valid(Run(h, s, buttons))
    decreases |buttons|
  {
    if buttons != [] {
      StepPreservesValid(h, s, buttons[0]);
      RunPreservesValid(h, After(h, s, buttons[0]), buttons[1..]);
    }
  }

  /** Every state reachable from the start satisfies the invariant. */
  lemma ReachableValid(h: Host, buttons: seq<Button>)
    requires forall i :: 0 <= i < |buttons| ==> WellFormed(buttons[i])
    ensures Valid(Run(h, Initial, buttons))
  {
    RunPreservesValid(h, Initial, buttons);
  }

  // ---------------------------------------------------------------- sequences of presses

  lemma {:induction false} RunAppend(h: Host, s: State, xs: seq<Button>, ys: seq<Button>)
    ensures Run(h, s, xs + ys) == Run(h, Run(h, s, xs), ys)
    decreases |xs|
  {
    if xs == [] {
      assert xs + ys == ys;
    } else {
      assert (xs + ys)[0] == xs[0];
      assert (xs + ys)[1..] == xs[1..] + ys;
      RunAppend(h, After(h, s, xs[0]), xs[1..], ys);
    }
  }

  /** Pressing `=` twice is pressing it once. */
  lemma EqualsTwiceIsOnce(h: Host, s: State)
    ensures Run(h, s, [Button(None, Some("=")), Button(None, Some("="))]) == Run(h, s, [Button(None, Some("="))])
  {
    var eq := Button(None, Some("="));
    assert [eq, eq][1..] == [eq];
    match HandleEquals(h, s)
    case Success(t) => EqualsIdempotent(h, s, t);
    case Failure(_) =>
  }

  function DigitButton(c: char): Button {
    Button(Some([c]), None)
  }

  function DigitButtons(ds: string): (r: seq<Button>)
    ensures |r| == |ds|
    ensures forall i :: 0 <= i < |ds| ==> r[i] == DigitButton(ds[i])
  {
    if ds == [] then [] else [DigitButton(ds[0])] + DigitButtons(ds[1..])
  }

  /** The display after typing `ds` into a display showing "0": the digits without their leading zeros. */
  function Typed(ds: string): string {
    var t := StripLeadingZeros(ds);
    if t == [] then "0" else t
  }

  /** A digit press is the digit handler; it never fails. */
  lemma DigitPress(h: Host, s: State, c: char)
    ensures After(h, s, DigitButton(c)) == HandleNumberInput(s, [c])
  {
  }

  lemma RunDigits(h: Host, s: State, ds: string)
    requires ds != []
    ensures Run(h, s, DigitButtons(ds)) == Run(h, HandleNumberInput(s, [ds[0]]), DigitButtons(ds[1..]))
  {
    assert DigitButtons(ds)[1..] == DigitButtons(ds[1..]);
    DigitPress(h, s, ds[0]);
  }

  /** Typing into a display that is neither empty nor "0" and not in overwrite mode appends. */
  lemma {:induction false} TypingAppends(h: Host, s: State, ds: string)
    requires !s.overwrite && s.currentValue != "" && s.currentValue != "0"
    ensures Run(h, s, DigitButtons(ds)) == s.(currentValue := s.currentValue + ds)
    decreases |ds|
  {
    if ds == [] {
      assert s.currentValue + ds == s.currentValue;
    } else {
      var t := HandleNumberInput(s, [ds[0]]);
      assert t == s.(currentValue := s.currentValue + [ds[0]]);
      RunDigits(h, s, ds);
      TypingAppends(h, t, ds[1..]);
      assert s.currentValue + [ds[0]] + ds[1..] == s.currentValue + ds;
    }
  }

  lemma {:induction false} TypingFromZero(h: Host, s: State, ds: string)
    requires !s.overwrite && s.currentValue == "0"
    ensures Run(h, s, DigitButtons(ds)) == s.(currentValue := Typed(ds))
    decreases |ds|
  {
    if ds != [] {
      var t := HandleNumberInput(s, [ds[0]]);
      RunDigits(h, s, ds);
      if ds[0] == '0' {
        assert t == s;
        TypingFromZero(h, t, ds[1..]);
      } else {
        assert t == s.(currentValue := [ds[0]]);
        TypingAppends(h, t, ds[1..]);
        assert [ds[0]] + ds[1..] == ds;
      }
    }
  }

  /** After `clear`, the display shows exactly the digits typed, leading zeros dropped. */
  lemma DigitsAfterClear(h: Host, s: State, ds: string)
    ensures Run(h, s, [Button(None, Some("clear"))] + DigitButtons(ds)) == Initial.(currentValue := Typed(ds))
  {
    RunAppend(h, s, [Button(None, Some("clear"))], DigitButtons(ds));
    TypingFromZero(h, Initial, ds);
  }

  /** `op1`, then `op2`, a digit and `=` evaluate `op1` first and feed its result to `op2`. */
  lemma LeftToRightChaining(h: Host, s: State, op: Op, d: char, m: string, n: string)
    requires Pending(s)
    requires Compute(h, s.operation.value, s.previousValue, s.currentValue) == Success(m)
    requires Compute(h, op, m, [d]) == Success(n)
    ensures Run(h, s, [Button(None, Some(Symbol(op))), DigitButton(d), Button(None, Some("="))]) ==
              State(n, "", None, true)
  {
    var bs := [Button(None, Some(Symbol(op))), DigitButton(d), Button(None, Some("="))];
    assert OperatorOf(Symbol(op)) == Some(op);
    var t1 := After(h, s, bs[0]);
    assert t1 == State(m, m, Some(op), true);
    var t2 := After(h, t1, bs[1]);
    assert t2 == State([d], m, Some(op), false);
    var t3 := After(h, t2, bs[2]);
    assert t3 == State(n, "", None, true);
    assert Run(h, t2, bs[2..]) == Run(h, t3, []) by { assert bs[2..][1..] == []; }
    assert Run(h, t1, bs[1..]) == Run(h, t2, bs[2..]) by { assert bs[1..][1..] == bs[2..]; }
  }

  /** 5 + 3 = shows the sum and leaves nothing pending. */
  lemma FivePlusThree(h: Host)
    ensures var r := Run(h, Initial, [DigitButton('5'), Button(None, Some("+")), DigitButton('3'), Button(None, Some("="))]);
      r == State(Compute(h, Addition, "5", "3").value, "", None, true)
  {
  }

  /** 3 + 4 * 2 = computes (3 + 4) * 2. */
  lemma ThreePlusFourTimesTwo(h: Host)
    ensures var r := Run(h, Initial, [DigitButton('3'), Button(None, Some("+")), DigitButton('4'),
                                      Button(None, Some("*")), DigitButton('2'), Button(None, Some("="))]);
      r == State(Compute(h, Multiplication, Compute(h, Addition, "3", "4").value, "2").value, "", None, true)
  {
  }

  /** 9 then sqrt shows the root of 9, or starts over if the host parsed it as negative. */
  lemma NineSqrt(h: Host)
    ensures var r := Run(h, Initial, [DigitButton('9'), Button(None, Some("sqrt"))]);
      r == if IsNegative(h.parseFloat("9")) then Initial
           else State(h.toString(h.squareRoot(h.parseFloat("9"))), "", None, true)
  {
  }
}
