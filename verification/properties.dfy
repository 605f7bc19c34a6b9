/** What one key press does, stated per key class against `Step`, and the
    invariants every key press keeps. */
module Properties {

  import opened Wrappers
  import opened Keys
  import opened Numeric
  import opened Calculator

  // ---------------------------------------------------------------------
  // Clear

  /** Clear empties both texts and returns to typing mode, leaves the
      pending operation alone, and cannot fail. */
  lemma StepClear<N>(ar: Arith<N>, s: State)
    ensures Step(ar, s, Clear).Ok?
    ensures var r := Step(ar, s, Clear).value;
      && r.current == "" && r.runningTotal == "" && r.mode == Enter
      && r.operation == s.operation
  {
  }

  /** Nothing after the Clear check runs: a second Clear changes nothing. */
  lemma ClearIdempotent<N>(ar: Arith<N>, s: State)
    ensures Step(ar, Step(ar, s, Clear).value, Clear) == Step(ar, s, Clear)
  {
  }

  // ---------------------------------------------------------------------
  // Digits and Dot

  /** A digit typed in Enter mode is appended; typed over a result it
      replaces the display. The running total and the pending operation are
      untouched, and the mode is Enter afterwards. */
  lemma StepDigit<N>(ar: Arith<N>, s: State, k: Key)
    requires IsDigitKey(k)
    ensures Step(ar, s, k).Ok?
    ensures var r := Step(ar, s, k).value;
      && r.current == (if s.mode == Enter then s.current else "") + [DigitChar(GetNumber(k).value)]
      && r.runningTotal == s.runningTotal
      && r.operation == s.operation
      && r.mode == Enter
  {
  }

  /** Dot typed over a result starts the operand "."; typed in Enter mode it
      appends a point only when the display has none, and otherwise changes
      nothing at all. */
  lemma StepDot<N>(ar: Arith<N>, s: State)
    ensures Step(ar, s, Dot).Ok?
    ensures var r := Step(ar, s, Dot).value;
      && r.runningTotal == s.runningTotal
      && r.operation == s.operation
      && r.mode == Enter
      && (s.mode == Result ==> r.current == ".")
      && (s.mode == Enter && '.' !in s.current ==> r.current == s.current + ".")
      && (s.mode == Enter && '.' in s.current ==> r == s)
  {
  }

  /** The character a typing key contributes to the display. */
  function KeyChar(k: Key): (c: char)
    requires IsDigitKey(k) || k == Dot
    ensures c == '.' <==> k == Dot
  {
    if k == Dot then '.' else DigitChar(GetNumber(k).value)
  }

  /** The text a sequence of typing keys spells. */
  function KeyText(keys: seq<Key>): (t: string)
    requires forall i :: 0 <= i < |keys| ==> IsDigitKey(keys[i]) || keys[i] == Dot
    ensures |t| == |keys|
  {
    if keys == [] then "" else [KeyChar(keys[0])] + KeyText(keys[1..])
  }

  /** Typing digits, with at most one point in the display and the keys
      together, appends exactly the typed characters and touches nothing
      else. */
  lemma {:induction false} TypingAppends<N>(ar: Arith<N>, s: State, keys: seq<Key>)
    requires s.mode == Enter
    requires forall i :: 0 <= i < |keys| ==> IsDigitKey(keys[i]) || keys[i] == Dot
    requires CountDots(s.current) + CountDots(KeyText(keys)) <= 1
    ensures Run(ar, s, keys) == Ok(s.(current := s.current + KeyText(keys)))
    decreases |keys|
  {
    if keys == [] {
      assert s.current + KeyText(keys) == s.current;
    } else {
      var c := [KeyChar(keys[0])];
      var t := KeyText(keys[1..]);
      var s1 := s.(current := s.current + c);
      TypingDots(s.current, keys);
      TypingRunCons(ar, s, keys);
      TypingAppends(ar, s1, keys[1..]);
      ConcatAssoc(s.current, c, t);
    }
  }

  /** Sequence associativity, as a separate obligation: stated inline, the
      same fact costs the proof above several times as much. */
  lemma ConcatAssoc(a: string, b: string, c: string)
    ensures (a + b) + c == a + (b + c)
  {
  }

  /** A run of typing keys begins by typing its first key. */
  lemma TypingRunCons<N>(ar: Arith<N>, s: State, keys: seq<Key>)
    requires s.mode == Enter && keys != []
    requires IsDigitKey(keys[0]) || keys[0] == Dot
    requires keys[0] == Dot ==> '.' !in s.current
    ensures Run(ar, s, keys) == Run(ar, s.(current := s.current + [KeyChar(keys[0])]), keys[1..])
  {
    TypingStep(ar, s, keys[0]);
  }

  /** The point count after the first typed key: a point is typed only into
      a display without one, and the rest of the keys still fit. */
  lemma TypingDots(current: string, keys: seq<Key>)
    requires keys != []
    requires forall i :: 0 <= i < |keys| ==> IsDigitKey(keys[i]) || keys[i] == Dot
    requires CountDots(current) + CountDots(KeyText(keys)) <= 1
    ensures keys[0] == Dot ==> '.' !in current
    ensures CountDots(current + [KeyChar(keys[0])]) + CountDots(KeyText(keys[1..])) <= 1
    ensures KeyText(keys) == [KeyChar(keys[0])] + KeyText(keys[1..])
  {
    var c := [KeyChar(keys[0])];
    assert KeyText(keys) == c + KeyText(keys[1..]);
    CountDotsConcat(c, KeyText(keys[1..]));
    CountDotsConcat(current, c);
    assert CountDots(c) == (if keys[0] == Dot then 1 else 0);
  }

  /** A run starts with its first key press. */
  lemma RunStep<N>(ar: Arith<N>, s: State, k: Key, s1: State, rest: seq<Key>)
    requires Step(ar, s, k) == Ok(s1)
    ensures Run(ar, s, [k] + rest) == Run(ar, s1, rest)
  {
    assert ([k] + rest)[0] == k;
    assert ([k] + rest)[1..] == rest;
  }

  /** One typing key in Enter mode appends its character, as long as a
      point is typed only into a display without one. */
  lemma TypingStep<N>(ar: Arith<N>, s: State, k: Key)
    requires s.mode == Enter
    requires IsDigitKey(k) || k == Dot
    requires k == Dot ==> '.' !in s.current
    ensures Step(ar, s, k) == Ok(s.(current := s.current + [KeyChar(k)]))
  {
    if k == Dot {
      StepDot(ar, s);
    } else {
      StepDigit(ar, s, k);
    }
  }

  // ---------------------------------------------------------------------
  // Negate

  /** Negate on an empty display changes nothing; on a non-empty one it
      toggles the leading minus and returns to typing mode. */
  lemma StepNegate<N>(ar: Arith<N>, s: State)
    ensures Step(ar, s, Negate).Ok?
    ensures var r := Step(ar, s, Negate).value;
      && (s.current == "" ==> r == s)
      && (s.current != "" && s.current[0] == '-' ==> r.current == s.current[1..])
      && (s.current != "" && s.current[0] != '-' ==> r.current == "-" + s.current)
      && (s.current != "" ==> r.mode == Enter)
      && r.runningTotal == s.runningTotal
      && r.operation == s.operation
  {
  }

  /** A display text the toggle cannot restore: "-" alone, or one starting
      with two minus signs. */
  predicate ToggleCannotRestore(text: string) {
    |text| >= 1 && text[0] == '-' && (|text| == 1 || text[1] == '-')
  }

  /** Negate twice restores the display exactly when it is not "-" and does
      not start with "--". */
  lemma NegateTwice<N>(ar: Arith<N>, s: State)
    ensures var r := Step(ar, Step(ar, s, Negate).value, Negate).value;
      r.current == s.current <==> !ToggleCannotRestore(s.current)
  {
    StepNegate(ar, s);
    var s1 := Step(ar, s, Negate).value;
    StepNegate(ar, s1);
    var c := s.current;
    if c != "" && c[0] == '-' {
      if |c| > 1 && c[1] == '-' {
        assert |s1.current| == |c| - 1;
        assert |Step(ar, s1, Negate).value.current| == |c| - 2;
      } else if |c| > 1 {
        assert "-" + c[1..] == c;
      }
    } else if c != "" {
      assert ("-" + c)[1..] == c;
    }
  }

  // ---------------------------------------------------------------------
  // Operators

  /** An operator key always ends up as the pending operation. When the
      display holds typed input, that input is folded into the running total
      (combined with the previously pending operation if there is one) and
      shown as a result; otherwise only the pending operator changes. */
  lemma StepOperator<N>(ar: Arith<N>, s: State, k: Key)
    requires IsOperation(k)
    ensures Step(ar, s, k).Ok?
    ensures Step(ar, s, k).value.operation == Some(k)
    ensures var r := Step(ar, s, k).value;
      if s.current != "" && s.mode == Enter then
        && r.mode == Result
        && r.current == r.runningTotal
        && (s.operation.None? ==> r.runningTotal == s.current)
        && (s.operation.Some? ==>
              r.runningTotal == ar.fmt(HandleOperation(ar, ParseOrZero(ar, s.runningTotal),
                                                       ParseOrZero(ar, s.current), s.operation.value)))
      else
        r == s.(operation := Some(k))
  {
  }

  /** Exactly the four operator keys set a pending operation. */
  lemma OnlyOperatorsSetOperation<N>(ar: Arith<N>, s: State, k: Key)
    requires s.operation.None?
    requires Step(ar, s, k).Ok?
    ensures Step(ar, s, k).value.operation.Some? <==> IsOperation(k)
  {
  }

  /** The two places that apply a pending operation agree where both apply
      it. With typed input on the display, an operator key folds the
      operation in with the lenient parse, while Equals uses the strict one.
      Equals succeeds exactly when the display parses, and then both keys
      show the same result and make it the running total. */
  lemma OperatorAgreesWithEquals<N>(ar: Arith<N>, s: State, k: Key)
    requires IsOperation(k) && s.operation.Some? && s.mode == Enter && s.current != ""
    ensures Step(ar, s, Equals).Ok? <==> ar.parse(s.current).Some?
    ensures Step(ar, s, Equals).Ok? ==>
      && Step(ar, s, k).value.current == Step(ar, s, Equals).value.current
      && Step(ar, s, k).value.runningTotal == Step(ar, s, Equals).value.runningTotal
  {
  }

  /** Where the two differ: on a display that does not parse, Equals throws,
      while an operator key goes on and folds the operation in with zero as
      the right operand. */
  lemma OperatorFoldsWhereEqualsThrows<N>(ar: Arith<N>, s: State, k: Key)
    requires IsOperation(k) && s.operation.Some? && s.mode == Enter && s.current != ""
    requires ar.parse(s.current).None?
    ensures Step(ar, s, Equals) == Err(NumberFormat(s.current))
    ensures Step(ar, s, k).Ok?
    ensures var r := Step(ar, s, k).value;
      && r.current == r.runningTotal
      && r.current == ar.fmt(HandleOperation(ar, ParseOrZero(ar, s.runningTotal), ar.zero,
                                             s.operation.value))
      && r.operation == Some(k)
      && r.mode == Result
  {
  }

  // ---------------------------------------------------------------------
  // Equals

  /** Equals with a pending operation fails exactly when the display does
      not parse; otherwise it shows the operation's result, makes it the
      running total and drops the operation. Without a pending operation
      it reformats the display into both texts and never fails. */
  lemma StepEquals<N>(ar: Arith<N>, s: State)
    ensures Step(ar, s, Equals).Err? <==> s.operation.Some? && ar.parse(s.current).None?
    ensures Step(ar, s, Equals).Err? ==> Step(ar, s, Equals).error == NumberFormat(s.current)
    ensures Step(ar, s, Equals).Ok? ==>
      var r := Step(ar, s, Equals).value;
      && r.mode == Result
      && r.operation == None
      && r.current == r.runningTotal
      && r.current == ar.fmt(
           if s.operation.Some? then
             HandleOperation(ar, ParseOrZero(ar, s.runningTotal), ar.parse(s.current).value,
                             s.operation.value)
           else ParseOrZero(ar, s.current))
  {
  }

  // ---------------------------------------------------------------------
  // Percent

  /** Percent on an empty display changes nothing. On a non-empty one it
      shows the percentage result (see `PercentValue`) as both texts, drops
      the pending operation and enters Result mode. */
  lemma StepPercent<N>(ar: Arith<N>, s: State)
    ensures Step(ar, s, Percent).Ok?
    ensures var r := Step(ar, s, Percent).value;
      if s.current == "" then r == s
      else
        var total := ParseOrZero(ar, s.runningTotal);
        var p := ar.div(ParseOrZero(ar, s.current), ar.hundred);
        && r.current == r.runningTotal
        && r.operation == None
        && r.mode == Result
        && r.current == ar.fmt(
             match s.operation
             case None => p
             case Some(Times) => ar.mul(total, p)
             case Some(Plus) => ar.add(total, ar.mul(total, p))
             case Some(Minus) => ar.sub(total, ar.mul(total, p))
             case Some(_) => ar.zero)
  {
  }

  // ---------------------------------------------------------------------
  // Invariants

  /** What every reachable state satisfies: a shown result is also the
      running total, and the pending operation is a binary operator. */
  predicate Invariant(s: State) {
    && (s.mode == Result ==> s.current == s.runningTotal)
    && (s.operation.Some? ==> IsOperation(s.operation.value))
  }

  lemma InitialInvariant()
    ensures Invariant(Initial) && CountDots(Initial.current) == 0
  {
  }

  /** Every key press keeps the invariant. */
  lemma StepPreservesInvariant<N>(ar: Arith<N>, s: State, k: Key)
    requires Invariant(s)
    requires Step(ar, s, k).Ok?
    ensures Invariant(Step(ar, s, k).value)
  {
    if k != Clear && !(k == Equals && s.operation.Some?) {
      var s0 := if k == Equals then EqualsAlone(ar, s) else s;
      AfterEqualsKeepsInvariant(ar, s0, k);
    }
  }

  /** The fall-through checks keep the invariant: each check that edits the
      display outside Enter mode either sets Enter or makes both texts
      equal, and only operator keys become the pending operation. */
  lemma AfterEqualsKeepsInvariant<N>(ar: Arith<N>, s: State, k: Key)
    requires Invariant(s)
    ensures Invariant(AfterEquals(ar, s, k))
  {
    var s1 := ClearOnResult(s, k);
    var s2 := AppendDigit(s1, k);
    var s3 := AppendDot(s2, k);
    var s4 := ApplyNegate(s3, k);
    assert Invariant(s4) by {
      assert Invariant(s1);
      assert Invariant(s2);
      assert Invariant(s3);
    }
    var s5 := ApplyPercent(ar, s4, k);
    assert Invariant(s5);
    var s6 := FoldOperand(ar, s5, k);
    assert Invariant(s6);
  }

  /** Every key press keeps the display to at most one decimal point,
      provided the formatter never prints more than one. */
  lemma StepKeepsOneDot<N(!new)>(ar: Arith<N>, s: State, k: Key)
    requires FmtHasOneDot(ar)
    requires CountDots(s.current) <= 1
    requires Step(ar, s, k).Ok?
    ensures CountDots(Step(ar, s, k).value.current) <= 1
  {
    if k == Clear {
    } else if k == Equals && s.operation.Some? {
      var r := Step(ar, s, k).value;
      assert r.current == ar.fmt(HandleOperation(ar, ParseOrZero(ar, s.runningTotal),
                                                 ar.parse(s.current).value, s.operation.value));
    } else {
      var s0 := if k == Equals then EqualsAlone(ar, s) else s;
      assert CountDots(s0.current) <= 1 by {
        if k == Equals {
          assert s0.current == ar.fmt(ParseOrZero(ar, s.current));
        }
      }
      AfterEqualsKeepsOneDot(ar, s0, k);
    }
  }

  /** The fall-through checks keep the display to at most one point. */
  lemma AfterEqualsKeepsOneDot<N(!new)>(ar: Arith<N>, s: State, k: Key)
    requires FmtHasOneDot(ar)
    requires CountDots(s.current) <= 1
    ensures CountDots(AfterEquals(ar, s, k).current) <= 1
  {
    var s1 := ClearOnResult(s, k);
    var s2 := AppendDigit(s1, k);
    var s3 := AppendDot(s2, k);
    var s4 := ApplyNegate(s3, k);
    assert CountDots(s2.current) <= 1 by {
      assert CountDots(s1.current) <= 1;
      if IsDigitKey(k) {
        CountDotsConcat(s1.current, [DigitChar(GetNumber(k).value)]);
      }
    }
    assert CountDots(s3.current) <= 1 by {
      if s3 != s2 {
        CountDotsConcat(s2.current, ".");
      }
    }
    assert CountDots(s4.current) <= 1 by {
      if s4 != s3 {
        ToggleSignKeepsDots(s3.current);
      }
    }
    PercentAndFoldKeepOneDot(ar, s4, k);
  }

  /** The sign toggle neither adds nor removes a point. */
  lemma ToggleSignKeepsDots(text: string)
    requires text != ""
    ensures CountDots(ToggleSign(text)) == CountDots(text)
  {
    if text[0] == '-' {
      assert text == [text[0]] + text[1..];
      CountDotsConcat([text[0]], text[1..]);
    } else {
      CountDotsConcat("-", text);
    }
  }

  /** Percent and the operator fold put only formatted numbers or the
      display itself on the display. */
  lemma PercentAndFoldKeepOneDot<N(!new)>(ar: Arith<N>, s: State, k: Key)
    requires FmtHasOneDot(ar)
    requires CountDots(s.current) <= 1
    ensures CountDots(FoldOperand(ar, ApplyPercent(ar, s, k), k).current) <= 1
  {
    var s5 := ApplyPercent(ar, s, k);
    if s5 != s {
      assert s5.current == ar.fmt(PercentValue(ar, s));
    }
    var s6 := FoldOperand(ar, s5, k);
    if s6 != s5 && s5.operation.Some? {
      assert s6.current == ar.fmt(HandleOperation(ar, ParseOrZero(ar, s5.runningTotal),
                                                  ParseOrZero(ar, s5.current), s5.operation.value));
    }
  }

  /** The invariant holds after any run of keys that does not throw, for
      every number system. */
  lemma {:induction false} RunPreservesInvariant<N>(ar: Arith<N>, s: State, keys: seq<Key>)
    requires Invariant(s)
    requires Run(ar, s, keys).Ok?
    ensures Invariant(Run(ar, s, keys).value)
    decreases |keys|
  {
    if keys != [] {
      StepPreservesInvariant(ar, s, keys[0]);
      RunPreservesInvariant(ar, Step(ar, s, keys[0]).value, keys[1..]);
    }
  }

  /** The display keeps at most one point after any run of keys that does
      not throw, provided the formatter never prints two. */
  lemma {:induction false} RunKeepsOneDot<N(!new)>(ar: Arith<N>, s: State, keys: seq<Key>)
    requires FmtHasOneDot(ar)
    requires CountDots(s.current) <= 1
    requires Run(ar, s, keys).Ok?
    ensures CountDots(Run(ar, s, keys).value.current) <= 1
    decreases |keys|
  {
    if keys != [] {
      StepKeepsOneDot(ar, s, keys[0]);
      RunKeepsOneDot(ar, Step(ar, s, keys[0]).value, keys[1..]);
    }
  }

  /** A run of keys split in two is the first part followed by the second,
      unless the first part throws, in which case the whole run throws the
      same error. */
  lemma {:induction false} RunConcat<N>(ar: Arith<N>, s: State, a: seq<Key>, b: seq<Key>)
    ensures Run(ar, s, a + b) == match Run(ar, s, a)
      case Ok(t) => Run(ar, t, b)
      case Err(e) => Err(e)
    decreases |a|
  {
    if a == [] {
      assert a + b == b;
    } else {
      assert (a + b)[0] == a[0];
      assert (a + b)[1..] == a[1..] + b;
      match Step(ar, s, a[0])
      case Err(_) =>
      case Ok(s1) => RunConcat(ar, s1, a[1..], b);
    }
  }
}
