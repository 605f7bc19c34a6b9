/** Whole key sequences from a fresh calculator. The first group holds for
    every number system; the second uses the fixed-point decimals of module
    `Decimal` to show the numbers the display ends up with. */
module Scenarios {

  import opened Wrappers
  import opened Keys
  import opened Numeric
  import opened Calculator
  import opened Properties
  import opened Decimal

  // ---------------------------------------------------------------------
  // For every number system

  /** An operator followed by Equals on a fresh calculator throws: the
      display is still empty, and the strict parse rejects "". */
  lemma OperatorThenEqualsThrows<N>(ar: Arith<N>, op: Key)
    requires IsOperation(op)
    requires ar.parse("").None?
    ensures Run(ar, Initial, [op, Equals]) == Err(NumberFormat(""))
  {
    StepOperator(ar, Initial, op);
    assert Run(ar, Initial, [op, Equals]) == Run(ar, Initial.(operation := Some(op)), [Equals]);
  }

  /** Clear does not cancel a pending operation: after "5 + C 3 =" the
      addition is still applied, to an empty (so zero) running total. */
  lemma ClearKeepsPendingOperation<N>(ar: Arith<N>)
    requires ar.parse("3").Some?
    ensures Run(ar, Initial, [Five, Plus, Clear, Three, Equals])
         == Ok(var t := ar.fmt(ar.add(ParseOrZero(ar, ""), ar.parse("3").value));
               State(t, t, None, Result))
  {
    FivePlus(ar, [Clear, Three, Equals]);
    var s2 := State("5", "5", Some(Plus), Result);
    var s3 := State("", "", Some(Plus), Enter);
    var s4 := State("3", "", Some(Plus), Enter);
    var t := ar.fmt(ar.add(ParseOrZero(ar, ""), ar.parse("3").value));
    assert Run(ar, s4, [Equals]) == Ok(State(t, t, None, Result)) by {
      StepEquals(ar, s4);
      RunStep(ar, s4, Equals, State(t, t, None, Result), []);
    }
    assert Run(ar, s3, [Three, Equals]) == Run(ar, s4, [Equals]) by {
      TypeFirstDigit(ar, s3, Three, '3');
      RunStep(ar, s3, Three, s4, [Equals]);
    }
    assert Run(ar, s2, [Clear, Three, Equals]) == Run(ar, s3, [Three, Equals]) by {
      StepClear(ar, s2);
      RunStep(ar, s2, Clear, s3, [Three, Equals]);
    }
  }

  /** "5 +" leaves five as the running total with Plus pending. */
  lemma FivePlus<N>(ar: Arith<N>, rest: seq<Key>)
    ensures Run(ar, Initial, [Five, Plus] + rest) == Run(ar, State("5", "5", Some(Plus), Result), rest)
  {
    var s1 := State("5", "", None, Enter);
    assert Step(ar, Initial, Five) == Ok(s1) by {
      TypeFirstDigit(ar, Initial, Five, '5');
    }
    assert Step(ar, s1, Plus) == Ok(State("5", "5", Some(Plus), Result)) by {
      StepOperator(ar, s1, Plus);
    }
    assert [Five, Plus] + rest == [Five] + ([Plus] + rest);
    RunStep(ar, Initial, Five, s1, [Plus] + rest);
    RunStep(ar, s1, Plus, State("5", "5", Some(Plus), Result), rest);
  }

  /** "1 2 . 5" shows "12.5". */
  lemma TypingTwelvePointFive<N>(ar: Arith<N>)
    ensures Run(ar, Initial, [One, Two, Dot, Five]) == Ok(State("12.5", "", None, Enter))
  {
    TwelvePointFiveText();
    TypingAppends(ar, Initial, [One, Two, Dot, Five]);
    assert "" + "12.5" == "12.5";
  }

  // ---------------------------------------------------------------------
  // With fixed-point decimals

  /** "5 + 3 =" shows "8" as a result with nothing pending. */
  lemma FivePlusThree()
    ensures Run(D, Initial, [Five, Plus, Three, Equals]) == Ok(State("8", "8", None, Result))
  {
    var s2 := State("5", "5", Some(Plus), Result);
    var s3 := State("3", "5", Some(Plus), Enter);
    FivePlus(D, [Three, Equals]);
    assert Step(D, s2, Three) == Ok(s3) by {
      TypeFirstDigit(D, s2, Three, '3');
    }
    FivePlusThreeEqualsStep();
    RunStep(D, s2, Three, s3, [Equals]);
    RunStep(D, s3, Equals, State("8", "8", None, Result), []);
  }

  /** "5 + =": the operator leaves the typed "5" on the display, so Equals
      reads it again as the right operand and shows "10". */
  lemma FivePlusEquals()
    ensures Run(D, Initial, [Five, Plus, Equals]) == Ok(State("10", "10", None, Result))
  {
    var s2 := State("5", "5", Some(Plus), Result);
    FivePlus(D, [Equals]);
    FivePlusFiveEqualsStep();
    RunStep(D, s2, Equals, State("10", "10", None, Result), []);
  }

  /** "2 0 %" with nothing pending shows "0.2". */
  lemma TwentyPercent()
    ensures Run(D, Initial, [Two, Zero, Percent]) == Ok(State("0.2", "0.2", None, Result))
  {
    var s2 := State("20", "", None, Enter);
    assert Run(D, Initial, [Two, Zero, Percent]) == Run(D, s2, [Percent]) by {
      TypeTwoDigits(D, Initial, Two, Zero, "20", [Percent]);
    }
    assert Run(D, s2, [Percent]) == Ok(State("0.2", "0.2", None, Result)) by {
      TwentyPercentStep();
      RunStep(D, s2, Percent, State("0.2", "0.2", None, Result), []);
    }
  }

  /** "5 0 + 1 0 %" adds ten percent of fifty: "55". */
  lemma FiftyPlusTenPercent()
    ensures Run(D, Initial, [Five, Zero, Plus, One, Zero, Percent])
         == Ok(State("55", "55", None, Result))
  {
    FiftyPlus();
    TenPercentOfFifty();
  }

  /** "5 0 +" leaves fifty as the running total with Plus pending. */
  lemma FiftyPlus()
    ensures Run(D, Initial, [Five, Zero, Plus, One, Zero, Percent])
         == Run(D, State("50", "50", Some(Plus), Result), [One, Zero, Percent])
  {
    var s2 := State("50", "", None, Enter);
    var s3 := State("50", "50", Some(Plus), Result);
    TypeTwoDigits(D, Initial, Five, Zero, "50", [Plus, One, Zero, Percent]);
    assert Step(D, s2, Plus) == Ok(s3) by {
      StepOperator(D, s2, Plus);
    }
    RunStep(D, s2, Plus, s3, [One, Zero, Percent]);
  }

  /** "1 0 %" over fifty with Plus pending. */
  lemma TenPercentOfFifty()
    ensures Run(D, State("50", "50", Some(Plus), Result), [One, Zero, Percent])
         == Ok(State("55", "55", None, Result))
  {
    var s4 := State("50", "50", Some(Plus), Result);
    var s5 := State("10", "50", Some(Plus), Enter);
    assert Run(D, s4, [One, Zero, Percent]) == Run(D, s5, [Percent]) by {
      TypeTwoDigits(D, s4, One, Zero, "10", [Percent]);
    }
    assert Run(D, s5, [Percent]) == Ok(State("55", "55", None, Result)) by {
      TenPercentOfFiftyStep();
      RunStep(D, s5, Percent, State("55", "55", None, Result), []);
    }
  }

  /** "7 = 3": the digit after a result starts a new operand while the
      running total keeps "7". */
  lemma DigitAfterResult()
    ensures Run(D, Initial, [Seven, Equals, Three]) == Ok(State("3", "7", None, Enter))
  {
    var s1 := State("7", "", None, Enter);
    assert Step(D, Initial, Seven) == Ok(s1) by {
      TypeFirstDigit(D, Initial, Seven, '7');
    }
    SevenEqualsStep();
    RunStep(D, Initial, Seven, s1, [Equals, Three]);
    SevenEqualsThree();
  }

  lemma SevenEqualsThree()
    ensures Run(D, State("7", "7", None, Result), [Three]) == Ok(State("3", "7", None, Enter))
  {
    var s2 := State("7", "7", None, Result);
    assert Step(D, s2, Three) == Ok(State("3", "7", None, Enter)) by {
      TypeFirstDigit(D, s2, Three, '3');
    }
    RunStep(D, s2, Three, State("3", "7", None, Enter), []);
  }

  // ---------------------------------------------------------------------
  // Helpers

  /** Two digits typed into an empty display or over a result. */
  lemma TypeTwoDigits<N>(ar: Arith<N>, s: State, a: Key, b: Key, text: string, rest: seq<Key>)
    requires s.mode == Result || s.current == ""
    requires IsDigitKey(a) && IsDigitKey(b)
    requires text == [DigitChar(GetNumber(a).value), DigitChar(GetNumber(b).value)]
    ensures Run(ar, s, [a, b] + rest) == Run(ar, s.(current := text, mode := Enter), rest)
  {
    var c := DigitChar(GetNumber(a).value);
    var s1 := s.(current := [c], mode := Enter);
    assert Step(ar, s, a) == Ok(s1) by {
      TypeFirstDigit(ar, s, a, c);
    }
    assert Step(ar, s1, b) == Ok(s.(current := text, mode := Enter)) by {
      TypeNextDigit(ar, s1, b, DigitChar(GetNumber(b).value));
      assert [c] + [DigitChar(GetNumber(b).value)] == text;
    }
    assert [a, b] + rest == [a] + ([b] + rest);
    RunStep(ar, s, a, s1, [b] + rest);
    RunStep(ar, s1, b, s.(current := text, mode := Enter), rest);
  }

  /** A digit typed into an empty display or over a result. */
  lemma TypeFirstDigit<N>(ar: Arith<N>, s: State, k: Key, c: char)
    requires IsDigitKey(k) && DigitChar(GetNumber(k).value) == c
    requires s.mode == Result || s.current == ""
    ensures Step(ar, s, k) == Ok(s.(current := [c], mode := Enter))
  {
    StepDigit(ar, s, k);
    assert (if s.mode == Enter then s.current else "") + [c] == [c];
  }

  /** A digit typed after others. */
  lemma TypeNextDigit<N>(ar: Arith<N>, s: State, k: Key, c: char)
    requires IsDigitKey(k) && DigitChar(GetNumber(k).value) == c
    requires s.mode == Enter
    ensures Step(ar, s, k) == Ok(s.(current := s.current + [c]))
  {
    StepDigit(ar, s, k);
  }

  lemma TwelvePointFiveText()
    ensures forall i :: 0 <= i < 4 ==> IsDigitKey([One, Two, Dot, Five][i]) || [One, Two, Dot, Five][i] == Dot
    ensures KeyText([One, Two, Dot, Five]) == "12.5"
    ensures CountDots("") + CountDots("12.5") <= 1
  {
    DigitChars();
    assert KeyText([Five]) == "5";
    assert KeyText([Dot, Five]) == ".5";
    assert KeyText([Two, Dot, Five]) == "2.5";
  }

  lemma FivePlusThreeEqualsStep()
    ensures Step(D, State("3", "5", Some(Plus), Enter), Equals) == Ok(State("8", "8", None, Result))
  {
    ParseDigits();
    FmtFacts();
    StepEquals(D, State("3", "5", Some(Plus), Enter));
  }

  lemma FivePlusFiveEqualsStep()
    ensures Step(D, State("5", "5", Some(Plus), Result), Equals) == Ok(State("10", "10", None, Result))
  {
    ParseDigits();
    FmtFacts();
    StepEquals(D, State("5", "5", Some(Plus), Result));
  }

  lemma TwentyPercentStep()
    ensures Step(D, State("20", "", None, Enter), Percent) == Ok(State("0.2", "0.2", None, Result))
  {
    ParseDigits();
    FmtFacts();
    assert ParseOrZero(D, "20") == 2000 && ParseOrZero(D, "") == 0;
    assert D.div(2000, D.hundred) == 20;
    StepPercent(D, State("20", "", None, Enter));
  }

  lemma TenPercentOfFiftyStep()
    ensures Step(D, State("10", "50", Some(Plus), Enter), Percent) == Ok(State("55", "55", None, Result))
  {
    ParseDigits();
    FmtFacts();
    assert ParseOrZero(D, "10") == 1000 && ParseOrZero(D, "50") == 5000;
    assert D.div(1000, D.hundred) == 10;
    assert D.add(5000, D.mul(5000, 10)) == 5500;
    StepPercent(D, State("10", "50", Some(Plus), Enter));
  }

  lemma SevenEqualsStep()
    ensures Step(D, State("7", "", None, Enter), Equals) == Ok(State("7", "7", None, Result))
  {
    ParseDigits();
    FmtFacts();
    StepEquals(D, State("7", "", None, Enter));
  }

  lemma DigitChars()
    ensures DigitChar(0) == '0' && DigitChar(1) == '1' && DigitChar(2) == '2'
    ensures DigitChar(3) == '3' && DigitChar(5) == '5' && DigitChar(7) == '7'
  {
  }

  lemma ParseDigits()
    ensures Parse("3") == Some(300) && Parse("5") == Some(500) && Parse("7") == Some(700)
    ensures Parse("10") == Some(1000) && Parse("20") == Some(2000) && Parse("50") == Some(5000)
    ensures Parse("") == None
  {
    assert DigitsValue("3") == Some(3);
    assert DigitsValue("5") == Some(5);
    assert DigitsValue("7") == Some(7);
    assert "10"[..1] == "1" && "20"[..1] == "2" && "50"[..1] == "5";
    assert DigitsValue("10") == Some(10);
    assert DigitsValue("20") == Some(20);
    assert DigitsValue("50") == Some(50);
  }

  lemma FmtFacts()
    ensures Fmt(800) == "8" && Fmt(1000) == "10" && Fmt(20) == "0.2"
    ensures Fmt(5500) == "55" && Fmt(700) == "7"
  {
    assert NatText(0) == "0";
    assert NatText(7) == "7";
    assert NatText(8) == "8";
    assert NatText(10) == "10";
    assert NatText(55) == "55";
    assert FracText(0) == "";
    assert FracText(20) == ".2";
  }
}
