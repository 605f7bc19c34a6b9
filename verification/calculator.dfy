/** The calculator's key handler as a pure reducer.

    The handler keeps four pieces of state: the text on the display
    (`current`), the left operand carried across an operation
    (`runningTotal`), the operator waiting for its right operand
    (`operation`) and whether the display shows typed input or a computed
    result (`mode`). A key press runs a fixed list of checks in order; only
    Clear and Equals-with-a-pending-operation stop early, every other key
    falls through all of them. Each check below is one function, and
    `AfterEquals` chains them in the handler's order. */
module Calculator {

  import opened Wrappers
  import opened Keys
  import opened Numeric

  /** The handler's `ENTER` and `RESULT` states. */
  datatype Mode = Enter | Result

  datatype State = State(
    current: string,
    runningTotal: string,
    operation: Option<Key>,
    mode: Mode)

  /** The state the activity starts with. */
  const Initial: State := State("", "", None, Enter)

  /** Clear: both texts emptied and typing mode restored; the pending
      operation is left as it was. */
  function ClearAll(s: State): State
  {
    s.(current := "", runningTotal := "", mode := Enter)
  }

  /** Equals with a pending operation: the operation is applied to the
      running total and the display, the result shown and the operation
      dropped. The display is parsed strictly, so text that is not a number
      makes the handler throw. */
  function EqualsPending<N>(ar: Arith<N>, s: State): Outcome<State>
    requires s.operation.Some?
  {
    match ar.parse(s.current)
    case None => Err(NumberFormat(s.current))
    case Some(b) =>
      var t := ar.fmt(HandleOperation(ar, ParseOrZero(ar, s.runningTotal), b, s.operation.value));
      Ok(State(t, t, None, Result))
  }

  /** Equals with no pending operation: the display is reformatted and
      becomes the running total too. */
  function EqualsAlone<N>(ar: Arith<N>, s: State): State
  {
    var t := ar.fmt(ParseOrZero(ar, s.current));
    s.(current := t, runningTotal := t, mode := Result)
  }

  /** A digit or Dot typed over a shown result starts a fresh operand. */
  function ClearOnResult(s: State, k: Key): State
  {
    if (GetNumber(k).Some? || k == Dot) && s.mode == Result then
      s.(mode := Enter, current := "")
    else
      s
  }

  /** A digit key appends its character to the display. */
  function AppendDigit(s: State, k: Key): State
  {
    match GetNumber(k)
    case Some(d) => s.(current := s.current + [DigitChar(d)])
    case None => s
  }

  /** Dot appends a decimal point unless the display already has one. */
  function AppendDot(s: State, k: Key): State
  {
    if k == Dot && '.' !in s.current then s.(current := s.current + ".") else s
  }

  /** The sign toggle on a non-empty text: strip a leading '-' if there is
      one, prepend one otherwise. */
  function ToggleSign(text: string): string
    requires text != ""
  {
    if text[0] == '-' then text[1..] else "-" + text
  }

  /** Negate toggles the sign of a non-empty display and returns to typing
      mode; on an empty display it does nothing. */
  function ApplyNegate(s: State, k: Key): State
  {
    if k == Negate && s.current != "" then
      s.(mode := Enter, current := ToggleSign(s.current))
    else
      s
  }

  /** The value Percent computes: `p` is the display over a hundred; with a
      pending Times it is `total * p`, with Plus `total + total * p`, with
      Minus `total - total * p`, with any other pending key `0.0`, and with
      nothing pending `p` itself. */
  function PercentValue<N>(ar: Arith<N>, s: State): N {
    var total := ParseOrZero(ar, s.runningTotal);
    var percent := ar.div(ParseOrZero(ar, s.current), ar.hundred);
    match s.operation
    case None => percent
    case Some(op) =>
      match op
      case Times => ar.mul(total, percent)
      case Plus => ar.add(total, ar.mul(total, percent))
      case Minus => ar.sub(total, ar.mul(total, percent))
      case _ => ar.zero
  }

  /** Percent on a non-empty display shows the formatted percentage as the
      new result and running total, and drops the pending operation. */
  function ApplyPercent<N>(ar: Arith<N>, s: State, k: Key): State
  {
    if k == Percent && s.current != "" then
      var t := ar.fmt(PercentValue(ar, s));
      State(t, t, None, Result)
    else
      s
  }

  /** An operator typed after an operand folds it in: with an operation
      already pending the two are combined, otherwise the operand simply
      becomes the running total. Either way the result is shown. */
  function FoldOperand<N>(ar: Arith<N>, s: State, k: Key): State
  {
    if IsOperation(k) && s.current != "" && s.mode == Enter then
      match s.operation
      case Some(op) =>
        var t := ar.fmt(HandleOperation(ar, ParseOrZero(ar, s.runningTotal), ParseOrZero(ar, s.current), op));
        s.(runningTotal := t, current := t, mode := Result)
      case None =>
        s.(runningTotal := s.current, mode := Result)
    else
      s
  }

  /** Any operator key becomes the pending operation, replacing any other. */
  function SetOperation(s: State, k: Key): State
  {
    if IsOperation(k) then s.(operation := Some(k)) else s
  }

  /** The checks that follow the Equals check, in the handler's order. */
  function AfterEquals<N>(ar: Arith<N>, s: State, k: Key): State {
    var s1 := ClearOnResult(s, k);
    var s2 := AppendDigit(s1, k);
    var s3 := AppendDot(s2, k);
    var s4 := ApplyNegate(s3, k);
    var s5 := ApplyPercent(ar, s4, k);
    var s6 := FoldOperand(ar, s5, k);
    SetOperation(s6, k)
  }

  /** One key press: the whole handler. */
  function Step<N>(ar: Arith<N>, s: State, k: Key): Outcome<State> {
    if k == Clear then
      Ok(ClearAll(s))
    else if k == Equals && s.operation.Some? then
      EqualsPending(ar, s)
    else if k == Equals then
      Ok(AfterEquals(ar, EqualsAlone(ar, s), k))
    else
      Ok(AfterEquals(ar, s, k))
  }

  /** A sequence of key presses, stopping at the first exception. */
  function Run<N>(ar: Arith<N>, s: State, keys: seq<Key>): Outcome<State>
    decreases |keys|
  {
    if keys == [] then Ok(s)
    else
      match Step(ar, s, keys[0])
      case Err(e) => Err(e)
      case Ok(s1) => Run(ar, s1, keys[1..])
  }
}
