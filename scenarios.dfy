/** Whole inputs run through the entry point, showing the precedence chain,
    the folds and the quirks of the recogniser on concrete text. */
module Scenarios {
  import opened Values
  import opened Grammar
  import opened Properties

  /** `2 * 3 + 4` is accepted as `(2 * 3) + 4`. */
  lemma ProductThenSum(s: string, slot: Value)
    requires s == "2 * 3 + 4"
    ensures ParseAndEvaluate(s, slot) == (true, Bin(ADD, Bin(MULT, Num("2"), Num("3")), Num("4")))
  {
    assert SkipWs(s, 0) == 0;
    assert SkipWs(s, 1) == 2;
    assert SkipWs(s, 3) == 4;
    assert SkipWs(s, 5) == 6;
    assert SkipWs(s, 7) == 8;
    assert SkipWs(s, 9) == 9;
    DigitOperand(s, 0);
    MulOpAt(s, 2);
    DigitOperand(s, 3);
    MulOpAt(s, 6);
    assert MulRounds(s, 6, [], 6);
    assert MulRounds(s, 2, [Step(MULT, Num("3"))], 6);
    MultiplicativeFoldsLeft(s, 0, [Step(MULT, Num("3"))], 6);
    AddOpAt(s, 6);
    DigitOperand(s, 7);
    AddOpAt(s, 9);
    assert AddRounds(s, 9, [], 9);
    assert AddRounds(s, 6, [Step(ADD, Num("4"))], 9);
    AdditiveFoldsLeft(s, 0, [Step(ADD, Num("4"))], 9);
  }

  /** `2 + 3 * 4` is rejected: the right operand of `+` is a power expression,
      so the recogniser stops at `*` with `2 + 3` written to the slot. */
  lemma SumThenProductStops(s: string, slot: Value)
    requires s == "2 + 3 * 4"
    ensures ParseAndEvaluate(s, slot) == (false, Bin(ADD, Num("2"), Num("3")))
  {
    assert SkipWs(s, 0) == 0;
    assert SkipWs(s, 1) == 2;
    assert SkipWs(s, 3) == 4;
    assert SkipWs(s, 5) == 6;
    DigitOperand(s, 0);
    MulOpAt(s, 2);
    assert MulRounds(s, 2, [], 2);
    MultiplicativeFoldsLeft(s, 0, [], 2);
    AddOpAt(s, 2);
    DigitOperand(s, 3);
    AddOpAt(s, 6);
    assert AddRounds(s, 6, [], 6);
    assert AddRounds(s, 2, [Step(ADD, Num("3"))], 6);
    AdditiveFoldsLeft(s, 0, [Step(ADD, Num("3"))], 6);
  }

  /** `8 - 2 - 1` is accepted as `(8 - 2) - 1`. */
  lemma DifferenceFoldsLeft(s: string, slot: Value)
    requires s == "8 - 2 - 1"
    ensures ParseAndEvaluate(s, slot) == (true, Bin(SUB, Bin(SUB, Num("8"), Num("2")), Num("1")))
  {
    assert SkipWs(s, 0) == 0;
    assert SkipWs(s, 1) == 2;
    assert SkipWs(s, 3) == 4;
    assert SkipWs(s, 5) == 6;
    assert SkipWs(s, 7) == 8;
    assert SkipWs(s, 9) == 9;
    DigitOperand(s, 0);
    MulOpAt(s, 2);
    assert MulRounds(s, 2, [], 2);
    MultiplicativeFoldsLeft(s, 0, [], 2);
    AddOpAt(s, 2);
    DigitOperand(s, 3);
    AddOpAt(s, 6);
    DigitOperand(s, 7);
    AddOpAt(s, 9);
    var steps := [Step(SUB, Num("2")), Step(SUB, Num("1"))];
    assert AddRounds(s, 9, [], 9);
    assert AddRounds(s, 6, steps[1..], 9);
    assert AddRounds(s, 2, steps, 9);
    AdditiveFoldsLeft(s, 0, steps, 9);
    assert FoldLeft(Num("8"), steps) == FoldLeft(Bin(SUB, Num("8"), Num("2")), steps[1..]);
  }

  /** Inside `(2 + 3) * 4` the expression `2 + 3` ends at the closing
      parenthesis. */
  lemma GroupedSum(s: string)
    requires s == "(2 + 3) * 4"
    ensures Expression(s, 1) == Accept(6, Bin(ADD, Num("2"), Num("3")))
  {
    assert SkipWs(s, 1) == 1;
    assert SkipWs(s, 2) == 3;
    assert SkipWs(s, 4) == 5;
    assert SkipWs(s, 6) == 6;
    DigitOperand(s, 1);
    MulOpAt(s, 3);
    assert MulRounds(s, 3, [], 3);
    MultiplicativeFoldsLeft(s, 1, [], 3);
    AddOpAt(s, 3);
    DigitOperand(s, 4);
    AddOpAt(s, 6);
    assert AddRounds(s, 6, [], 6);
    assert AddRounds(s, 3, [Step(ADD, Num("3"))], 6);
    AdditiveFoldsLeft(s, 1, [Step(ADD, Num("3"))], 6);
  }

  /** `(2 + 3) * 4`: parentheses let a sum be a factor. */
  lemma GroupedSumTimes(s: string, slot: Value)
    requires s == "(2 + 3) * 4"
    ensures ParseAndEvaluate(s, slot) == (true, Bin(MULT, Bin(ADD, Num("2"), Num("3")), Num("4")))
  {
    var sum := Bin(ADD, Num("2"), Num("3"));
    assert SkipWs(s, 0) == 0;
    assert SkipWs(s, 6) == 6;
    assert SkipWs(s, 7) == 8;
    assert SkipWs(s, 9) == 10;
    assert SkipWs(s, 11) == 11;
    GroupedSum(s);
    Grouped(s, 0);
    PrimaryIsUnary(s, 0);
    assert Parse(UnaryRule, s, 0) == Accept(7, sum);
    PowerOfUnary(s, 0);
    assert Parse(PowerRule, s, 0) == Accept(8, sum);
    MulOpAt(s, 8);
    DigitOperand(s, 9);
    MulOpAt(s, 11);
    assert MulRounds(s, 11, [], 11);
    assert MulRounds(s, 8, [Step(MULT, Num("4"))], 11);
    MultiplicativeFoldsLeft(s, 0, [Step(MULT, Num("4"))], 11);
    AddOpAt(s, 11);
    assert AddRounds(s, 11, [], 11);
    AdditiveFoldsLeft(s, 0, [], 11);
  }

  /** `2^3^2` is rejected: one `^` per power expression, and the second
      one is left in front of the cursor with `2^3` in the slot. */
  lemma PowerDoesNotChain(s: string, slot: Value)
    requires s == "2^3^2"
    ensures ParseAndEvaluate(s, slot) == (false, Bin(POW, Num("2"), Num("3")))
  {
    assert SkipWs(s, 0) == 0;
    assert SkipWs(s, 1) == 1;
    assert SkipWs(s, 2) == 2;
    assert SkipWs(s, 3) == 3;
    NumeralIsUnary(s, 0);
    assert NumeralEnd(s, 0) == 1 && s[0..1] == "2";
    NumeralIsUnary(s, 2);
    assert NumeralEnd(s, 2) == 3 && s[2..3] == "3";
    PowerOfTwoUnaries(s, 0);
    MulOpAt(s, 3);
    assert MulRounds(s, 3, [], 3);
    MultiplicativeFoldsLeft(s, 0, [], 3);
    AddOpAt(s, 3);
    assert AddRounds(s, 3, [], 3);
    AdditiveFoldsLeft(s, 0, [], 3);
  }

  /** `-2^2` is `pow(-2, 2)`: the minus belongs to the base. */
  lemma NegatedBase(s: string, slot: Value)
    requires s == "-2^2"
    ensures ParseAndEvaluate(s, slot) == (true, Bin(POW, Neg(Num("2")), Num("2")))
  {
    assert SkipWs(s, 0) == 0;
    assert SkipWs(s, 1) == 1;
    assert SkipWs(s, 2) == 2;
    assert SkipWs(s, 3) == 3;
    assert SkipWs(s, 4) == 4;
    NumeralIsUnary(s, 1);
    assert NumeralEnd(s, 1) == 2 && s[1..2] == "2";
    NegatedPrimary(s, 0);
    NumeralIsUnary(s, 3);
    assert NumeralEnd(s, 3) == 4 && s[3..4] == "2";
    PowerOfTwoUnaries(s, 0);
    MulOpAt(s, 4);
    assert MulRounds(s, 4, [], 4);
    MultiplicativeFoldsLeft(s, 0, [], 4);
    AddOpAt(s, 4);
    assert AddRounds(s, 4, [], 4);
    AdditiveFoldsLeft(s, 0, [], 4);
  }

  /** `2^-1` is `pow(2, -1)`: the exponent is a unary expression too. */
  lemma NegatedExponent(s: string, slot: Value)
    requires s == "2^-1"
    ensures ParseAndEvaluate(s, slot) == (true, Bin(POW, Num("2"), Neg(Num("1"))))
  {
    assert SkipWs(s, 0) == 0;
    assert SkipWs(s, 1) == 1;
    assert SkipWs(s, 2) == 2;
    assert SkipWs(s, 3) == 3;
    assert SkipWs(s, 4) == 4;
    NumeralIsUnary(s, 0);
    assert NumeralEnd(s, 0) == 1 && s[0..1] == "2";
    NumeralIsUnary(s, 3);
    assert NumeralEnd(s, 3) == 4 && s[3..4] == "1";
    NegatedPrimary(s, 2);
    PowerOfTwoUnaries(s, 0);
    MulOpAt(s, 4);
    assert MulRounds(s, 4, [], 4);
    MultiplicativeFoldsLeft(s, 0, [], 4);
    AddOpAt(s, 4);
    assert AddRounds(s, 4, [], 4);
    AdditiveFoldsLeft(s, 0, [], 4);
  }

  /** `2 +` is rejected and the slot keeps what it held: the operand after
      `+` is missing, so the whole expression rolls back. */
  lemma DanglingPlus(s: string, slot: Value)
    requires s == "2 +"
    ensures ParseAndEvaluate(s, slot) == (false, slot)
  {
    assert SkipWs(s, 0) == 0;
    assert SkipWs(s, 1) == 2;
    assert SkipWs(s, 3) == 3;
    DigitOperand(s, 0);
    MulOpAt(s, 2);
    assert MulRounds(s, 2, [], 2);
    MultiplicativeFoldsLeft(s, 0, [], 2);
    AddOpAt(s, 2);
    NothingAtEnd(PowerRule, s);
    assert Parse(PowerRule, s, 3).Reject?;
    DanglingAddOperator(s, 0, [], 2);
  }

  /** `2 *` is rejected and the slot keeps what it held. */
  lemma DanglingTimes(s: string, slot: Value)
    requires s == "2 *"
    ensures ParseAndEvaluate(s, slot) == (false, slot)
  {
    assert SkipWs(s, 0) == 0;
    assert SkipWs(s, 1) == 2;
    assert SkipWs(s, 3) == 3;
    DigitOperand(s, 0);
    MulOpAt(s, 2);
    NothingAtEnd(PowerRule, s);
    assert Parse(PowerRule, s, 3).Reject?;
    DanglingMulOperator(s, 0, [], 2);
    ParseRollsBack(AdditiveRule, s, 0);
  }

  /** `2 * 3 *` is rejected and the slot keeps what it held: the operator
      left dangling after a complete round fails the whole expression. */
  lemma DanglingSecondTimes(s: string, slot: Value)
    requires s == "2 * 3 *"
    ensures ParseAndEvaluate(s, slot) == (false, slot)
  {
    assert SkipWs(s, 0) == 0;
    assert SkipWs(s, 1) == 2;
    assert SkipWs(s, 3) == 4;
    assert SkipWs(s, 5) == 6;
    assert SkipWs(s, 7) == 7;
    DigitOperand(s, 0);
    MulOpAt(s, 2);
    DigitOperand(s, 3);
    assert MulPrefix(s, 6, [], 6);
    assert MulPrefix(s, 2, [Step(MULT, Num("3"))], 6);
    MulOpAt(s, 6);
    NothingAtEnd(PowerRule, s);
    assert Parse(PowerRule, s, 7).Reject?;
    DanglingMulOperator(s, 0, [Step(MULT, Num("3"))], 6);
    ParseRollsBack(AdditiveRule, s, 0);
  }

  /** `7 mod 2` is accepted: the three letters of `mod` make the operator. */
  lemma Modulo(s: string, slot: Value)
    requires s == "7 mod 2"
    ensures ParseAndEvaluate(s, slot) == (true, Bin(MOD, Num("7"), Num("2")))
  {
    assert SkipWs(s, 0) == 0;
    assert SkipWs(s, 1) == 2;
    assert SkipWs(s, 5) == 6;
    assert SkipWs(s, 7) == 7;
    DigitOperand(s, 0);
    assert s[2..5] == "mod";
    MulOpAt(s, 2);
    DigitOperand(s, 5);
    MulOpAt(s, 7);
    assert MulRounds(s, 7, [], 7);
    assert MulRounds(s, 2, [Step(MOD, Num("2"))], 7);
    MultiplicativeFoldsLeft(s, 0, [Step(MOD, Num("2"))], 7);
    AddOpAt(s, 7);
    assert AddRounds(s, 7, [], 7);
    AdditiveFoldsLeft(s, 0, [], 7);
  }

  /** `5 ` is accepted: the failed operator probes skip the trailing blank. */
  lemma TrailingBlankAccepted(s: string, slot: Value)
    requires s == "5 "
    ensures ParseAndEvaluate(s, slot) == (true, Num("5"))
  {
    assert SkipWs(s, 0) == 0;
    assert SkipWs(s, 1) == 2;
    assert SkipWs(s, 2) == 2;
    DigitOperand(s, 0);
    MulOpAt(s, 2);
    assert MulRounds(s, 2, [], 2);
    MultiplicativeFoldsLeft(s, 0, [], 2);
    AddOpAt(s, 2);
    assert AddRounds(s, 2, [], 2);
    AdditiveFoldsLeft(s, 0, [], 2);
  }

  /** In `sin 0 + 1` the argument of `sin` is `0 + 1`. */
  lemma SineArgument(s: string)
    requires s == "sin 0 + 1"
    ensures Expression(s, 3) == Accept(9, Bin(ADD, Num("0"), Num("1")))
  {
    assert SkipWs(s, 3) == 4;
    assert SkipWs(s, 5) == 6;
    assert SkipWs(s, 7) == 8;
    assert SkipWs(s, 9) == 9;
    DigitOperand(s, 3);
    MulOpAt(s, 6);
    assert MulRounds(s, 6, [], 6);
    MultiplicativeFoldsLeft(s, 3, [], 6);
    AddOpAt(s, 6);
    DigitOperand(s, 7);
    AddOpAt(s, 9);
    assert AddRounds(s, 9, [], 9);
    assert AddRounds(s, 6, [Step(ADD, Num("1"))], 9);
    AdditiveFoldsLeft(s, 3, [Step(ADD, Num("1"))], 9);
  }

  /** `sin 0 + 1` is `sin(0 + 1)`: a function keyword takes the whole rest. */
  lemma SineTakesTheRest(s: string, slot: Value)
    requires s == "sin 0 + 1"
    ensures ParseAndEvaluate(s, slot) == (true, Apply(Sin, Bin(ADD, Num("0"), Num("1"))))
  {
    var v := Apply(Sin, Bin(ADD, Num("0"), Num("1")));
    assert SkipWs(s, 0) == 0;
    assert SkipWs(s, 9) == 9;
    assert s[0..3] == "sin";
    SineArgument(s);
    FunctionCall(s, 0, Sin);
    assert Parse(UnaryRule, s, 0) == Accept(9, v);
    PowerOfUnary(s, 0);
    MulOpAt(s, 9);
    assert MulRounds(s, 9, [], 9);
    MultiplicativeFoldsLeft(s, 0, [], 9);
    AddOpAt(s, 9);
    assert AddRounds(s, 9, [], 9);
    AdditiveFoldsLeft(s, 0, [], 9);
  }

  /** In `sin(0)` the argument `(0)` is the expression `0`. */
  lemma ParenthesisedArgument(s: string)
    requires s == "sin(0)"
    ensures Expression(s, 3) == Accept(6, Num("0"))
  {
    assert SkipWs(s, 3) == 3;
    assert SkipWs(s, 4) == 4;
    assert SkipWs(s, 5) == 5;
    assert SkipWs(s, 6) == 6;
    DigitOperand(s, 4);
    MulOpAt(s, 5);
    assert MulRounds(s, 5, [], 5);
    MultiplicativeFoldsLeft(s, 4, [], 5);
    AddOpAt(s, 5);
    assert AddRounds(s, 5, [], 5);
    AdditiveFoldsLeft(s, 4, [], 5);
    Grouped(s, 3);
    PrimaryIsUnary(s, 3);
    assert Parse(UnaryRule, s, 3) == Accept(6, Num("0"));
    PowerOfUnary(s, 3);
    MulOpAt(s, 6);
    assert MulRounds(s, 6, [], 6);
    MultiplicativeFoldsLeft(s, 3, [], 6);
    AddOpAt(s, 6);
    assert AddRounds(s, 6, [], 6);
    AdditiveFoldsLeft(s, 3, [], 6);
  }

  /** `sin(0)` is accepted as `sin` applied to `0`. */
  lemma SineCall(s: string, slot: Value)
    requires s == "sin(0)"
    ensures ParseAndEvaluate(s, slot) == (true, Apply(Sin, Num("0")))
  {
    assert SkipWs(s, 0) == 0;
    assert SkipWs(s, 6) == 6;
    assert s[0..3] == "sin";
    ParenthesisedArgument(s);
    FunctionCall(s, 0, Sin);
    assert Parse(UnaryRule, s, 0) == Accept(6, Apply(Sin, Num("0")));
    PowerOfUnary(s, 0);
    MulOpAt(s, 6);
    assert MulRounds(s, 6, [], 6);
    MultiplicativeFoldsLeft(s, 0, [], 6);
    AddOpAt(s, 6);
    assert AddRounds(s, 6, [], 6);
    AdditiveFoldsLeft(s, 0, [], 6);
  }

  /** `-sin 0` is accepted as `sin(0)`: the minus sign is lost. */
  lemma MinusLostBeforeSine(s: string, slot: Value)
    requires s == "-sin 0"
    ensures ParseAndEvaluate(s, slot) == (true, Apply(Sin, Num("0")))
  {
    assert SkipWs(s, 0) == 0;
    assert SkipWs(s, 1) == 1;
    assert SkipWs(s, 4) == 5;
    assert SkipWs(s, 6) == 6;
    DigitOperand(s, 4);
    MulOpAt(s, 6);
    assert MulRounds(s, 6, [], 6);
    MultiplicativeFoldsLeft(s, 4, [], 6);
    AddOpAt(s, 6);
    assert AddRounds(s, 6, [], 6);
    AdditiveFoldsLeft(s, 4, [], 6);
    assert s[1..4] == "sin";
    FunctionCall(s, 1, Sin);
    MinusDroppedBeforeCall(s, 0);
    assert Parse(UnaryRule, s, 0) == Accept(6, Apply(Sin, Num("0")));
    PowerOfUnary(s, 0);
    assert MulRounds(s, 6, [], 6);
    MultiplicativeFoldsLeft(s, 0, [], 6);
    AdditiveFoldsLeft(s, 0, [], 6);
  }

  /** `-+3` is accepted as `3`: the minus sign is lost. */
  lemma MinusLostBeforePlus(s: string, slot: Value)
    requires s == "-+3"
    ensures ParseAndEvaluate(s, slot) == (true, Num("3"))
  {
    assert SkipWs(s, 0) == 0;
    assert SkipWs(s, 1) == 1;
    assert SkipWs(s, 2) == 2;
    assert SkipWs(s, 3) == 3;
    PrimaryRejects(s, 1);
    NumeralIsUnary(s, 2);
    assert NumeralEnd(s, 2) == 3 && s[2..3] == "3";
    MinusDroppedBeforePlus(s, 0);
    assert Parse(UnaryRule, s, 0) == Accept(3, Num("3"));
    PowerOfUnary(s, 0);
    MulOpAt(s, 3);
    assert MulRounds(s, 3, [], 3);
    MultiplicativeFoldsLeft(s, 0, [], 3);
    AddOpAt(s, 3);
    assert AddRounds(s, 3, [], 3);
    AdditiveFoldsLeft(s, 0, [], 3);
  }

  /** `pi` is the double literal the recogniser writes for it. */
  lemma PiConstant(s: string, slot: Value)
    requires s == "pi"
    ensures ParseAndEvaluate(s, slot) == (true, Num(PiText))
  {
    assert SkipWs(s, 0) == 0;
    assert SkipWs(s, 2) == 2;
    assert s[0..2] == "pi";
    assert Number(s, 0) == Accept(2, Num(PiText));
    assert Parse(NumberRule, s, 0) == Accept(2, Num(PiText));
    assert Primary(s, 0) == Accept(2, Num(PiText));
    assert Parse(PrimaryRule, s, 0) == Accept(2, Num(PiText));
    PrimaryIsUnary(s, 0);
    PowerOfUnary(s, 0);
    MulOpAt(s, 2);
    assert MulRounds(s, 2, [], 2);
    MultiplicativeFoldsLeft(s, 0, [], 2);
    AddOpAt(s, 2);
    assert AddRounds(s, 2, [], 2);
    AdditiveFoldsLeft(s, 0, [], 2);
  }
}
