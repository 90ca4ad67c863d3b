/** Properties of the recogniser: how literals are matched, what the rollback
    combinator restores, what the numeric recogniser reads, how the binary
    levels fold, and what the entry point reports. */
module Properties {
  import opened Values
  import opened Grammar

  // ---------------------------------------------------------------------
  // The literal matcher

  /** The probe succeeds exactly when, after the white space, the text shows
      the literal character by character, where running into the terminator
      is a mismatch like any other. */
  lemma {:induction false} TokenCharwise(s: string, p: nat, lit: string)
    requires p <= |s| && '\0' !in lit
    ensures Token(s, p, lit).ok <==>
            forall i | 0 <= i < |lit| :: At(s, SkipWs(s, p) + i) == lit[i]
  {
    var q := SkipWs(s, p);
    if LiteralAt(s, q, lit) {
      forall i | 0 <= i < |lit| ensures At(s, q + i) == lit[i] {
        assert s[q..q + |lit|][i] == lit[i];
      }
    } else if q + |lit| > |s| {
      assert lit[|s| - q] in lit;
    } else {
      assert s[q..q + |lit|] != lit;
    }
  }

  /** The empty literal always matches, after consuming the white space. */
  lemma TokenEmpty(s: string, p: nat)
    requires p <= |s|
    ensures Token(s, p, "") == Probe(true, SkipWs(s, p))
  {
  }

  // ---------------------------------------------------------------------
  // The rollback combinator

  /** Handing the multiplicative rule to the combinator runs the
      multiplicative function. */
  lemma RunsMultiplicative(s: string, p: nat)
    requires p <= |s|
    ensures Run(MultiplicativeRule, s, p) == Multiplicative(s, p)
  {
  }

  /** A failed attempt leaves the cursor after the white space it skipped,
      and a successful one is exactly the rule run from there. */
  lemma ParseRollsBack(rule: Rule, s: string, p: nat)
    requires p <= |s|
    ensures Parse(rule, s, p).Reject? ==> Parse(rule, s, p) == Reject(SkipWs(s, p))
    ensures Parse(rule, s, p).Accept? ==> Parse(rule, s, p) == Run(rule, s, SkipWs(s, p))
  {
    SkipWsIdempotent(s, p);
  }

  /** Starting the combinator anywhere inside the white space before a rule
      makes no difference. */
  lemma ParseFromBlanks(rule: Rule, s: string, p: nat)
    requires p <= |s|
    ensures Parse(rule, s, p) == Parse(rule, s, SkipWs(s, p))
  {
    SkipWsIdempotent(s, p);
  }

  // ---------------------------------------------------------------------
  // The numeric and constant recogniser

  /** Every character of `w` is a digit. */
  predicate AllDigits(w: string)
  {
    forall i | 0 <= i < |w| :: IsDigit(w[i])
  }

  /** `w` is `k` digits, alone or followed by `.` and digits. */
  predicate DigitLedAt(w: string, k: nat)
    requires 1 <= k <= |w|
  {
    AllDigits(w[..k]) && (k == |w| || (w[k] == '.' && AllDigits(w[k + 1..])))
  }

  /** `w` has the form `digit+ ('.' digit*)?` or `'.' digit+`. */
  predicate DecimalLexeme(w: string)
  {
    || (exists k | 1 <= k <= |w| :: DigitLedAt(w, k))
    || (|w| >= 2 && w[0] == '.' && AllDigits(w[1..]))
  }

  /** The recogniser fails exactly when, after the white space, neither
      `pi`, nor `e`, nor a digit, nor a `.` starts the text, and then the
      cursor is left after the white space. */
  lemma NumberRejects(s: string, p: nat)
    requires p <= |s|
    ensures var q := SkipWs(s, p);
            Number(s, p).Reject? <==>
            !(LiteralAt(s, q, "pi") || At(s, q) == 'e' || IsDigit(At(s, q)) || At(s, q) == '.')
    ensures Number(s, p).Reject? ==> Number(s, p).pos == SkipWs(s, p)
  {
    var q := SkipWs(s, p);
    SkipWsIdempotent(s, p);
    assert LiteralAt(s, q, "e") <==> At(s, q) == 'e' by {
      if At(s, q) == 'e' {
        assert s[q..q + 1] == "e";
      }
    }
  }

  /** A stretch of the text that holds only digits is a run of digits. */
  lemma DigitRun(s: string, start: nat, stop: nat)
    requires start <= stop <= |s| && forall i | start <= i < stop :: IsDigit(s[i])
    ensures AllDigits(s[start..stop])
  {
  }

  /** A digit-led literal is read as far as `digit+ ('.' digit*)?` goes. */
  lemma DigitLedShape(s: string, anchor: nat, q: nat)
    requires anchor <= q < |s| && q == SkipWs(s, anchor) && IsDigit(s[q])
    ensures var r := DigitLed(s, anchor, q);
            && q < r.pos && r.val == Num(s[q..r.pos]) && DecimalLexeme(s[q..r.pos])
            && !IsDigit(At(s, r.pos)) && ('.' !in s[q..r.pos] ==> At(s, r.pos) != '.')
  {
    var whole := DigitsEnd(s, q + 1);
    var stop := NumeralEnd(s, q);
    assert HasDigit(s, q, stop) by { assert IsDigit(s[q]); }
    assert DigitLed(s, anchor, q) == Accept(stop, Num(s[q..stop]));
    var w := s[q..stop];
    var k := whole - q;
    DigitRun(s, q, whole);
    assert w[..k] == s[q..whole];
    if At(s, whole) == '.' {
      assert w[k] == '.';
      DigitRun(s, whole + 1, stop);
      assert w[k + 1..] == s[whole + 1..stop];
      assert DigitLedAt(w, k);
    } else {
      assert stop == whole && w[..k] == w;
      assert DigitLedAt(w, k);
    }
  }

  /** A `.`-led literal is read as far as `'.' digit*` goes; without a digit
      strtod converts nothing, which gives 0 and puts the cursor back at the
      anchor. */
  lemma DotLedShape(s: string, anchor: nat, q: nat)
    requires anchor <= q < |s| && q == SkipWs(s, anchor) && s[q] == '.'
    ensures var r := DotLed(s, anchor, q);
            || (q < r.pos && r.val == Num(s[q..r.pos]) && DecimalLexeme(s[q..r.pos]) && !IsDigit(At(s, r.pos)))
            || (!IsDigit(At(s, q + 1)) && r == Accept(anchor, Num("0")))
  {
    var stop := DigitsEnd(s, q + 1);
    if stop > q + 1 {
      assert HasDigit(s, q, stop) by { assert IsDigit(s[q + 1]); }
      var w := s[q..stop];
      var fraction := w[1..];
      assert AllDigits(fraction) by {
        forall i | 0 <= i < |fraction| ensures IsDigit(fraction[i]) {
          assert fraction[i] == s[q + 1 + i];
        }
      }
    } else {
      assert !HasDigit(s, q, stop);
    }
  }

  /** What the recogniser reads, in order of preference: `pi`, `e`, a
      decimal literal scanned as far as it goes, or a lone `.` that strtod
      cannot convert, which gives 0 and leaves the cursor at the anchor. */
  lemma NumberShape(s: string, p: nat)
    requires p <= |s| && Number(s, p).Accept?
    ensures var q := SkipWs(s, p);
            var r := Number(s, p);
            || (LiteralAt(s, q, "pi") && r == Accept(q + 2, Num(PiText)))
            || (!LiteralAt(s, q, "pi") && At(s, q) == 'e' && r == Accept(q + 1, Num(EText)))
            || (q < r.pos && r.val == Num(s[q..r.pos]) && DecimalLexeme(s[q..r.pos])
                && !IsDigit(At(s, r.pos)) && ('.' !in s[q..r.pos] ==> At(s, r.pos) != '.'))
            || (At(s, q) == '.' && !IsDigit(At(s, q + 1)) && r == Accept(p, Num("0")))
  {
    var q := SkipWs(s, p);
    SkipWsIdempotent(s, p);
    NumberRejects(s, p);
    if !LiteralAt(s, q, "pi") && At(s, q) != 'e' {
      assert !LiteralAt(s, q, "e");
      if IsDigit(At(s, q)) {
        assert Number(s, p) == DigitLed(s, p, q);
        DigitLedShape(s, p, q);
      } else {
        assert Number(s, p) == DotLed(s, p, q);
        DotLedShape(s, p, q);
      }
    }
  }

  // ---------------------------------------------------------------------
  // The unary and power levels

  /** Where a digit stands, the numeric recogniser takes its digit-led
      branch: neither constant matches a digit. */
  lemma DigitTakesNumeralBranch(s: string, q: nat)
    requires q < |s| && SkipWs(s, q) == q && IsDigit(s[q])
    ensures Number(s, q) == DigitLed(s, q, q)
  {
    FirstCharMisses(s, q, "pi");
    FirstCharMisses(s, q, "e");
  }

  /** A literal whose first character is not the one under the cursor does
      not match, and its probe leaves the cursor where it is. */
  lemma FirstCharMisses(s: string, q: nat, lit: string)
    requires q < |s| && SkipWs(s, q) == q && |lit| > 0 && lit[0] != s[q]
    ensures !LiteralAt(s, q, lit) && Token(s, q, lit) == Probe(false, q)
  {
    if q + |lit| <= |s| {
      assert s[q..q + |lit|][0] == s[q];
    }
  }

  /** Where a digit stands, the numeric recogniser reads the numeral that
      starts there. */
  lemma NumeralIsNumber(s: string, q: nat)
    requires q < |s| && SkipWs(s, q) == q && IsDigit(s[q])
    ensures var stop := NumeralEnd(s, q);
            Number(s, q) == Accept(stop, Num(s[q..stop]))
  {
    var stop := NumeralEnd(s, q);
    DigitTakesNumeralBranch(s, q);
    assert HasDigit(s, q, stop) by { assert IsDigit(s[q]); }
    assert StrToD(s, q, stop) == (Num(s[q..stop]), stop);
  }

  /** A numeral on its own is a primary. */
  lemma NumeralIsPrimary(s: string, p: nat)
    requires p <= |s| && IsDigit(At(s, SkipWs(s, p)))
    ensures var q := SkipWs(s, p);
            var stop := NumeralEnd(s, q);
            Parse(PrimaryRule, s, p) == Accept(stop, Num(s[q..stop]))
  {
    var q := SkipWs(s, p);
    var n := Accept(NumeralEnd(s, q), Num(s[q..NumeralEnd(s, q)]));
    SkipWsIdempotent(s, p);
    NumeralIsNumber(s, q);
    ParseRollsBack(NumberRule, s, q);
    assert Parse(NumberRule, s, q) == n;
    assert Primary(s, q) == n;
    ParseRollsBack(PrimaryRule, s, p);
  }

  /** A numeral on its own is a primary and a unary expression: neither sign
      probe matches a digit. */
  lemma NumeralIsUnary(s: string, p: nat)
    requires p <= |s| && IsDigit(At(s, SkipWs(s, p)))
    ensures var q := SkipWs(s, p);
            var stop := NumeralEnd(s, q);
            && Parse(PrimaryRule, s, p) == Accept(stop, Num(s[q..stop]))
            && Parse(UnaryRule, s, p) == Accept(stop, Num(s[q..stop]))
  {
    NumeralIsPrimary(s, p);
    PrimaryIsUnary(s, p);
  }

  /** An unsigned primary is a unary expression: the sign probes fail and the
      bare primary alternative is tried next. */
  lemma PrimaryIsUnary(s: string, p: nat)
    requires p <= |s| && At(s, SkipWs(s, p)) !in {'-', '+'}
    requires Parse(PrimaryRule, s, p).Accept?
    ensures Parse(UnaryRule, s, p) == Parse(PrimaryRule, s, p)
  {
    var q := SkipWs(s, p);
    SkipWsIdempotent(s, p);
    ParseRollsBack(PrimaryRule, s, p);
    assert !LiteralAt(s, q, "-") && !LiteralAt(s, q, "+");
    assert TokenThen(s, q, "-", PrimaryRule) == Reject(q);
    assert TokenThen(s, q, "+", PrimaryRule) == Reject(q);
    assert Unary(s, q) == Parse(PrimaryRule, s, q);
  }

  /** A minus sign followed by a primary negates it. */
  lemma NegatedPrimary(s: string, p: nat)
    requires p <= |s| && At(s, SkipWs(s, p)) == '-'
    requires Parse(PrimaryRule, s, SkipWs(s, p) + 1).Accept?
    ensures var operand := Parse(PrimaryRule, s, SkipWs(s, p) + 1);
            Parse(UnaryRule, s, p) == Accept(operand.pos, Neg(operand.val))
  {
    var q := SkipWs(s, p);
    SkipWsIdempotent(s, p);
    assert s[q..q + 1] == "-";
    var operand := Parse(PrimaryRule, s, q + 1);
    assert TokenThen(s, q, "-", PrimaryRule) == operand;
    assert Unary(s, q) == Accept(operand.pos, Neg(operand.val));
  }

  /** An opening parenthesis starts no number, and its probe steps over it. */
  lemma OpeningParenthesis(s: string, q: nat)
    requires q <= |s| && SkipWs(s, q) == q && At(s, q) == '('
    ensures Parse(NumberRule, s, q) == Reject(q)
    ensures Token(s, q, "(") == Probe(true, q + 1)
  {
    FirstCharMisses(s, q, "pi");
    NumberRejects(s, q);
    ParseFromBlanks(NumberRule, s, q);
    assert s[q..q + 1] == "(";
  }

  /** At an opening parenthesis, the primary rule reads the inner
      expression and steps over the closing parenthesis. */
  lemma GroupedAt(s: string, q: nat)
    requires q <= |s| && SkipWs(s, q) == q && At(s, q) == '('
    requires Expression(s, q + 1).Accept?
    requires At(s, SkipWs(s, Expression(s, q + 1).pos)) == ')'
    ensures var inner := Expression(s, q + 1);
            Primary(s, q) == Accept(SkipWs(s, inner.pos) + 1, inner.val)
  {
    OpeningParenthesis(s, q);
    var inner := Expression(s, q + 1);
    ExpressionIsParse(s, q + 1);
    var c := SkipWs(s, inner.pos);
    assert s[c..c + 1] == ")";
    assert Token(s, inner.pos, ")") == Probe(true, c + 1);
  }

  /** A parenthesised expression is a primary whose value is the inner
      expression's, with the cursor after the closing parenthesis. */
  lemma Grouped(s: string, p: nat)
    requires p <= |s| && At(s, SkipWs(s, p)) == '('
    requires Expression(s, SkipWs(s, p) + 1).Accept?
    requires At(s, SkipWs(s, Expression(s, SkipWs(s, p) + 1).pos)) == ')'
    ensures var inner := Expression(s, SkipWs(s, p) + 1);
            Parse(PrimaryRule, s, p) == Accept(SkipWs(s, inner.pos) + 1, inner.val)
  {
    var q := SkipWs(s, p);
    SkipWsIdempotent(s, p);
    GroupedAt(s, q);
    var grouped := Primary(s, q);
    ParseFromBlanks(PrimaryRule, s, p);
    assert Run(PrimaryRule, s, q) == grouped;
  }

  /** No primary starts with a character that starts no number and is not
      an opening parenthesis. */
  lemma PrimaryRejects(s: string, p: nat)
    requires p <= |s|
    requires var c := At(s, SkipWs(s, p)); !IsDigit(c) && c !in {'.', '(', 'p', 'e'}
    ensures Parse(PrimaryRule, s, p) == Reject(SkipWs(s, p))
  {
    var q := SkipWs(s, p);
    SkipWsIdempotent(s, p);
    assert !LiteralAt(s, q, "pi") by {
      if q + 2 <= |s| { assert s[q..q + 2][0] != 'p'; }
    }
    NumberRejects(s, q);
    assert Parse(NumberRule, s, q) == Reject(q);
    assert !LiteralAt(s, q, "(");
    assert Primary(s, q) == Reject(q);
  }

  /** The keyword that calls each function. */
  function Keyword(f: Func): (k: string)
    ensures 3 <= |k| && '\0' !in k
  {
    match f
    case Sin => "sin"
    case Cos => "cos"
    case Tan => "tan"
    case Asin => "arcsin"
    case Acos => "arccos"
    case Atan => "arctan"
  }

  /** The outcome of a call of `f` whose argument parsed as `arg`. */
  function Call(f: Func, arg: Outcome): Outcome
    requires arg.Accept?
  {
    Accept(arg.pos, Apply(f, arg.val))
  }

  /** Where one literal stands, a literal that differs from it at a shared
      index does not. */
  lemma LiteralsClash(s: string, q: nat, lit: string, other: string, i: nat)
    requires LiteralAt(s, q, lit) && i < |lit| && i < |other| && lit[i] != other[i]
    ensures !LiteralAt(s, q, other)
  {
    assert s[q..q + |lit|][i] == s[q + i];
    if q + |other| <= |s| {
      assert s[q..q + |other|][i] == s[q + i];
    }
  }

  /** Where one keyword stands, a keyword differing from it at index `i` is
      rejected without moving the cursor. */
  lemma Misses(s: string, q: nat, lit: string, other: string, i: nat)
    requires q <= |s| && SkipWs(s, q) == q && LiteralAt(s, q, lit)
    requires i < |lit| && i < |other| && lit[i] != other[i]
    ensures TokenThen(s, q, other, ExpressionRule) == Reject(q)
  {
    LiteralsClash(s, q, lit, other, i);
  }

  /** A keyword that stands in the text hands the rest to the expression
      rule. */
  lemma KeywordHit(s: string, q: nat, lit: string)
    requires q <= |s| && SkipWs(s, q) == q && LiteralAt(s, q, lit) && |lit| > 0
    ensures TokenThen(s, q, lit, ExpressionRule) == Expression(s, q + |lit|)
  {
    TokenMatched(s, q, lit, ExpressionRule);
    ExpressionIsParse(s, q + |lit|);
  }

  /** A literal that stands in the text is stepped over, and the rule after
      it runs from there. */
  lemma TokenMatched(s: string, q: nat, lit: string, rule: Rule)
    requires q <= |s| && SkipWs(s, q) == q && LiteralAt(s, q, lit) && |lit| > 0
    ensures Token(s, q, lit) == Probe(true, q + |lit|)
    ensures TokenThen(s, q, lit, rule) == Parse(rule, s, q + |lit|)
  {
    var t := Token(s, q, lit);
    assert t == Probe(true, q + |lit|);
  }

  /** A function keyword followed by an expression: the keywords tried
      before it do not match, and the whole rest of the expression becomes
      the argument, since the keyword hands it the expression rule. */
  lemma TrigonometricCall(s: string, q: nat, f: Func)
    requires q <= |s| && SkipWs(s, q) == q && LiteralAt(s, q, Keyword(f))
    requires Expression(s, q + |Keyword(f)|).Accept?
    ensures Trigonometric(s, q) == Call(f, Expression(s, q + |Keyword(f)|))
  {
    match f
    case Sin => SinKeyword(s, q);
    case Cos => CosKeyword(s, q);
    case Tan => TanKeyword(s, q);
    case Asin => ArcsinKeyword(s, q);
    case Acos => ArccosKeyword(s, q);
    case Atan => ArctanKeyword(s, q);
  }

  /** `sin` is the first keyword tried. */
  lemma SinKeyword(s: string, q: nat)
    requires q <= |s| && SkipWs(s, q) == q && LiteralAt(s, q, "sin")
    requires Expression(s, q + 3).Accept?
    ensures Trigonometric(s, q) == Call(Sin, Expression(s, q + 3))
  {
    KeywordHit(s, q, "sin");
  }

  /** `cos` is tried after `sin`. */
  lemma CosKeyword(s: string, q: nat)
    requires q <= |s| && SkipWs(s, q) == q && LiteralAt(s, q, "cos")
    requires Expression(s, q + 3).Accept?
    ensures Trigonometric(s, q) == Call(Cos, Expression(s, q + 3))
  {
    Misses(s, q, "cos", "sin", 0);
    KeywordHit(s, q, "cos");
  }

  /** `tan` is tried after `sin` and `cos`. */
  lemma TanKeyword(s: string, q: nat)
    requires q <= |s| && SkipWs(s, q) == q && LiteralAt(s, q, "tan")
    requires Expression(s, q + 3).Accept?
    ensures Trigonometric(s, q) == Call(Tan, Expression(s, q + 3))
  {
    Misses(s, q, "tan", "sin", 0);
    Misses(s, q, "tan", "cos", 0);
    KeywordHit(s, q, "tan");
  }

  /** `arcsin` is tried after the three plain keywords. */
  lemma ArcsinKeyword(s: string, q: nat)
    requires q <= |s| && SkipWs(s, q) == q && LiteralAt(s, q, "arcsin")
    requires Expression(s, q + 6).Accept?
    ensures Trigonometric(s, q) == Call(Asin, Expression(s, q + 6))
  {
    Misses(s, q, "arcsin", "sin", 0);
    Misses(s, q, "arcsin", "cos", 0);
    Misses(s, q, "arcsin", "tan", 0);
    KeywordHit(s, q, "arcsin");
  }

  /** `arccos` is tried after the plain keywords and `arcsin`. */
  lemma ArccosKeyword(s: string, q: nat)
    requires q <= |s| && SkipWs(s, q) == q && LiteralAt(s, q, "arccos")
    requires Expression(s, q + 6).Accept?
    ensures Trigonometric(s, q) == Call(Acos, Expression(s, q + 6))
  {
    Misses(s, q, "arccos", "sin", 0);
    Misses(s, q, "arccos", "cos", 0);
    Misses(s, q, "arccos", "tan", 0);
    Misses(s, q, "arccos", "arcsin", 3);
    KeywordHit(s, q, "arccos");
  }

  /** `arctan` is the last keyword tried. */
  lemma ArctanKeyword(s: string, q: nat)
    requires q <= |s| && SkipWs(s, q) == q && LiteralAt(s, q, "arctan")
    requires Expression(s, q + 6).Accept?
    ensures Trigonometric(s, q) == Call(Atan, Expression(s, q + 6))
  {
    Misses(s, q, "arctan", "sin", 0);
    Misses(s, q, "arctan", "cos", 0);
    Misses(s, q, "arctan", "tan", 0);
    Misses(s, q, "arctan", "arcsin", 3);
    Misses(s, q, "arctan", "arccos", 3);
    KeywordHit(s, q, "arctan");
  }

  /** A function call is a unary expression and not a primary: no primary
      starts with a keyword's first letter. */
  lemma FunctionCall(s: string, p: nat, f: Func)
    requires p <= |s| && LiteralAt(s, SkipWs(s, p), Keyword(f))
    requires Expression(s, SkipWs(s, p) + |Keyword(f)|).Accept?
    ensures Parse(PrimaryRule, s, p).Reject?
    ensures Parse(TrigonometricRule, s, p) == Call(f, Expression(s, SkipWs(s, p) + |Keyword(f)|))
    ensures Parse(UnaryRule, s, p) == Call(f, Expression(s, SkipWs(s, p) + |Keyword(f)|))
  {
    var q := SkipWs(s, p);
    SkipWsIdempotent(s, p);
    CallAfterBlanks(s, q, f);
    ParseFromBlanks(PrimaryRule, s, p);
    ParseFromBlanks(TrigonometricRule, s, p);
    ParseFromBlanks(UnaryRule, s, p);
  }

  /** `FunctionCall` where the white space has been skipped already. */
  lemma CallAfterBlanks(s: string, q: nat, f: Func)
    requires q <= |s| && SkipWs(s, q) == q && LiteralAt(s, q, Keyword(f))
    requires Expression(s, q + |Keyword(f)|).Accept?
    ensures Parse(PrimaryRule, s, q).Reject?
    ensures Parse(TrigonometricRule, s, q) == Call(f, Expression(s, q + |Keyword(f)|))
    ensures Parse(UnaryRule, s, q) == Call(f, Expression(s, q + |Keyword(f)|))
  {
    var call := Call(f, Expression(s, q + |Keyword(f)|));
    assert s[q] == Keyword(f)[0] by { assert s[q..q + |Keyword(f)|][0] == s[q]; }
    PrimaryRejects(s, q);
    TrigonometricCall(s, q, f);
    assert Parse(TrigonometricRule, s, q) == call by {
      assert Run(TrigonometricRule, s, q) == Trigonometric(s, q);
    }
    UnaryFallsToCall(s, q);
    assert Run(UnaryRule, s, q) == call;
  }

  /** Where neither a sign nor a primary starts, the unary rule is the
      trigonometric rule. */
  lemma UnaryFallsToCall(s: string, q: nat)
    requires q <= |s| && SkipWs(s, q) == q && At(s, q) !in {'-', '+'}
    requires Parse(PrimaryRule, s, q) == Reject(q)
    ensures Unary(s, q) == Parse(TrigonometricRule, s, q)
  {
    assert !LiteralAt(s, q, "-") && !LiteralAt(s, q, "+");
    assert TokenThen(s, q, "-", PrimaryRule) == Reject(q);
    assert TokenThen(s, q, "+", PrimaryRule) == Reject(q);
  }

  /** A minus sign not followed by a primary is not given back: the unary
      rule goes on from after it, so the sign is lost when a function call
      follows, and the rule fails from before it otherwise. */
  lemma MinusDroppedBeforeCall(s: string, p: nat)
    requires p <= |s| && At(s, SkipWs(s, p)) == '-'
    requires Parse(PrimaryRule, s, SkipWs(s, p) + 1).Reject?
    requires At(s, SkipWs(s, SkipWs(s, p) + 1)) != '+'
    ensures var call := Parse(TrigonometricRule, s, SkipWs(s, p) + 1);
            && (call.Accept? ==> Parse(UnaryRule, s, p) == call)
            && (call.Reject? ==> Parse(UnaryRule, s, p) == Reject(SkipWs(s, p)))
  {
    var q := SkipWs(s, p);
    SkipWsIdempotent(s, p);
    assert s[q..q + 1] == "-";
    var r := SkipWs(s, q + 1);
    SkipWsIdempotent(s, q + 1);
    assert TokenThen(s, q, "-", PrimaryRule) == Reject(r);
    assert !LiteralAt(s, r, "+");
    assert TokenThen(s, r, "+", PrimaryRule) == Reject(r);
    ParseRollsBack(PrimaryRule, s, q + 1);
    assert Parse(PrimaryRule, s, r) == Reject(r);
    ParseRollsBack(TrigonometricRule, s, q + 1);
    assert Unary(s, q) == Parse(TrigonometricRule, s, r);
  }

  /** After a minus sign that no primary follows, a plus sign is still tried,
      so `-+x` reads as `x`: the minus is lost. */
  lemma MinusDroppedBeforePlus(s: string, p: nat)
    requires p <= |s| && At(s, SkipWs(s, p)) == '-'
    requires Parse(PrimaryRule, s, SkipWs(s, p) + 1).Reject?
    requires At(s, SkipWs(s, SkipWs(s, p) + 1)) == '+'
    requires Parse(PrimaryRule, s, SkipWs(s, SkipWs(s, p) + 1) + 1).Accept?
    ensures Parse(UnaryRule, s, p) == Parse(PrimaryRule, s, SkipWs(s, SkipWs(s, p) + 1) + 1)
  {
    var q := SkipWs(s, p);
    SkipWsIdempotent(s, p);
    assert s[q..q + 1] == "-";
    assert Token(s, q, "-") == Probe(true, q + 1);
    var r := SkipWs(s, q + 1);
    assert TokenThen(s, q, "-", PrimaryRule) == Reject(r);
    SkipWsIdempotent(s, q + 1);
    assert s[r..r + 1] == "+";
    assert Token(s, r, "+") == Probe(true, r + 1);
    var operand := Parse(PrimaryRule, s, r + 1);
    assert TokenThen(s, r, "+", PrimaryRule) == operand;
    assert Unary(s, q) == operand;
    ParseFromBlanks(UnaryRule, s, p);
    assert Run(UnaryRule, s, q) == operand;
  }

  /** Handing the expression rule to the combinator gives what the
      expression function gives. */
  lemma ExpressionIsParse(s: string, p: nat)
    requires p <= |s|
    ensures Parse(ExpressionRule, s, p) == Expression(s, p)
  {
    var q := SkipWs(s, p);
    SkipWsIdempotent(s, p);
    ParseFromBlanks(AdditiveRule, s, p);
    assert Run(ExpressionRule, s, q) == Expression(s, p);
  }

  /** A unary expression not followed by `^` is a whole power expression, and
      the failed probe for `^` leaves the cursor after the white space. */
  lemma PowerOfUnary(s: string, p: nat)
    requires p <= |s| && Parse(UnaryRule, s, p).Accept?
    requires At(s, SkipWs(s, Parse(UnaryRule, s, p).pos)) != '^'
    ensures var base := Parse(UnaryRule, s, p);
            Parse(PowerRule, s, p) == Accept(SkipWs(s, base.pos), base.val)
  {
    var base := Parse(UnaryRule, s, p);
    var q := SkipWs(s, p);
    ParseRollsBack(UnaryRule, s, p);
    var c := SkipWs(s, base.pos);
    assert !LiteralAt(s, c, "^");
    assert Power(s, q) == Accept(c, base.val);
  }

  /** A one-digit numeral not followed by `^` is a whole power expression. */
  lemma DigitOperand(s: string, p: nat)
    requires p <= |s|
    requires var q := SkipWs(s, p);
             q < |s| && IsDigit(s[q]) && !IsDigit(At(s, q + 1)) && At(s, q + 1) != '.'
    requires At(s, SkipWs(s, SkipWs(s, p) + 1)) != '^'
    ensures var q := SkipWs(s, p);
            && Parse(UnaryRule, s, p) == Accept(q + 1, Num([s[q]]))
            && Parse(PowerRule, s, p) == Accept(SkipWs(s, q + 1), Num([s[q]]))
  {
    var q := SkipWs(s, p);
    NumeralIsUnary(s, p);
    assert NumeralEnd(s, q) == q + 1;
    assert s[q..q + 1] == [s[q]];
    PowerOfUnary(s, p);
  }

  /** `^` takes one unary expression on each side, and the exponent ends the
      power expression, whatever follows it. */
  lemma PowerOfTwoUnaries(s: string, p: nat)
    requires p <= |s| && Parse(UnaryRule, s, p).Accept?
    requires At(s, SkipWs(s, Parse(UnaryRule, s, p).pos)) == '^'
    requires Parse(UnaryRule, s, SkipWs(s, Parse(UnaryRule, s, p).pos) + 1).Accept?
    ensures var base := Parse(UnaryRule, s, p);
            var exponent := Parse(UnaryRule, s, SkipWs(s, base.pos) + 1);
            Parse(PowerRule, s, p) == Accept(exponent.pos, Evaluate(base.val, POW, exponent.val))
  {
    var base := Parse(UnaryRule, s, p);
    var q := SkipWs(s, p);
    ParseRollsBack(UnaryRule, s, p);
    var c := SkipWs(s, base.pos);
    assert s[c..c + 1] == "^";
    assert Token(s, base.pos, "^") == Probe(true, c + 1);
    var exponent := Parse(UnaryRule, s, c + 1);
    assert Power(s, q) == Accept(exponent.pos, Evaluate(base.val, POW, exponent.val));
    assert Run(PowerRule, s, q) == Power(s, q);
  }

  // ---------------------------------------------------------------------
  // The binary levels fold from the left

  /** One round of a binary level: the operator matched and the operand
      parsed after it. */
  datatype Step = Step(op: Operation, operand: Value)

  /** The reference left fold of `acc` with `steps`. */
  function FoldLeft(acc: Value, steps: seq<Step>): Value
    decreases |steps|
  {
    if steps == [] then acc else FoldLeft(Evaluate(acc, steps[0].op, steps[0].operand), steps[1..])
  }

  /** The multiplicative probe after the white space: `*` and `/` are decided
      by one character, `mod` needs all three letters, and anything else
      matches no operator and leaves the cursor after the white space. */
  lemma MulOpAt(s: string, p: nat)
    requires p <= |s|
    ensures var q := SkipWs(s, p);
            && (At(s, q) == '*' ==> MulOp(s, p) == OpProbe(MULT, q + 1))
            && (At(s, q) == '/' ==> MulOp(s, p) == OpProbe(DIV, q + 1))
            && (LiteralAt(s, q, "mod") ==> MulOp(s, p) == OpProbe(MOD, q + 3))
            && (At(s, q) !in {'*', '/'} && !LiteralAt(s, q, "mod") ==> MulOp(s, p) == OpProbe(NONE, q))
            && (At(s, q) !in {'*', '/', 'm'} ==> MulOp(s, p) == OpProbe(NONE, q))
  {
    var q := SkipWs(s, p);
    SkipWsIdempotent(s, p);
    if At(s, q) == '*' {
      assert s[q..q + 1] == "*";
    } else if At(s, q) == '/' {
      assert s[q..q + 1] == "/";
      assert !LiteralAt(s, q, "*");
    } else if LiteralAt(s, q, "mod") {
      assert s[q..q + 3][0] == s[q];
      FirstCharMisses(s, q, "*");
      FirstCharMisses(s, q, "/");
    } else if At(s, q) !in {'*', '/', 'm'} && q + 3 <= |s| {
      assert s[q..q + 3][0] != 'm';
    }
  }

  /** The additive probe is decided by the first character after the white
      space: `+` and `-` match, anything else does not. */
  lemma AddOpAt(s: string, p: nat)
    requires p <= |s|
    ensures var q := SkipWs(s, p);
            && (At(s, q) == '+' ==> AddOp(s, p) == OpProbe(ADD, q + 1))
            && (At(s, q) == '-' ==> AddOp(s, p) == OpProbe(SUB, q + 1))
            && (At(s, q) !in {'+', '-'} ==> AddOp(s, p) == OpProbe(NONE, q))
  {
    var q := SkipWs(s, p);
    SkipWsIdempotent(s, p);
    if At(s, q) == '+' {
      assert s[q..q + 1] == "+";
    } else if At(s, q) == '-' {
      assert s[q..q + 1] == "-";
      assert !LiteralAt(s, q, "+");
    }
  }

  /** From `p` the multiplicative loop runs one round per step, each matching
      that step's operator and parsing its operand as a power expression, and
      then matches no operator, which leaves the cursor at `stop`. */
  predicate MulRounds(s: string, p: nat, steps: seq<Step>, stop: nat)
    requires p <= |s|
    decreases |steps|
  {
    var probe := MulOp(s, p);
    if steps == [] then probe.op == NONE && stop == probe.pos
    else
      && probe.op == steps[0].op && probe.op != NONE
      && var right := Parse(PowerRule, s, probe.pos);
      && right.Accept? && right.val == steps[0].operand
      && MulRounds(s, right.pos, steps[1..], stop)
  }

  /** The same for the additive loop, whose operands are power expressions
      too. */
  predicate AddRounds(s: string, p: nat, steps: seq<Step>, stop: nat)
    requires p <= |s|
    decreases |steps|
  {
    var probe := AddOp(s, p);
    if steps == [] then probe.op == NONE && stop == probe.pos
    else
      && probe.op == steps[0].op && probe.op != NONE
      && var right := Parse(PowerRule, s, probe.pos);
      && right.Accept? && right.val == steps[0].operand
      && AddRounds(s, right.pos, steps[1..], stop)
  }

  lemma {:induction false} MulTailFolds(s: string, p: nat, acc: Value, steps: seq<Step>, stop: nat)
    requires p <= |s| && MulRounds(s, p, steps, stop)
    ensures MulTail(s, p, acc) == Accept(stop, FoldLeft(acc, steps))
    decreases |steps|
  {
    if steps != [] {
      var right := Parse(PowerRule, s, MulOp(s, p).pos);
      MulTailFolds(s, right.pos, Evaluate(acc, steps[0].op, steps[0].operand), steps[1..], stop);
    }
  }

  lemma {:induction false} AddTailFolds(s: string, p: nat, acc: Value, steps: seq<Step>, stop: nat)
    requires p <= |s| && AddRounds(s, p, steps, stop)
    ensures AddTail(s, p, acc) == Accept(stop, FoldLeft(acc, steps))
    decreases |steps|
  {
    if steps != [] {
      var right := Parse(PowerRule, s, AddOp(s, p).pos);
      AddTailFolds(s, right.pos, Evaluate(acc, steps[0].op, steps[0].operand), steps[1..], stop);
    }
  }

  /** The multiplicative level folds its operands from the left, starting
      from the first power expression. */
  lemma MultiplicativeFoldsLeft(s: string, p: nat, steps: seq<Step>, stop: nat)
    requires p <= |s| && Parse(PowerRule, s, p).Accept?
    requires MulRounds(s, Parse(PowerRule, s, p).pos, steps, stop)
    ensures Multiplicative(s, p) == Accept(stop, FoldLeft(Parse(PowerRule, s, p).val, steps))
    ensures Parse(MultiplicativeRule, s, p) == Multiplicative(s, p)
  {
    var first := Parse(PowerRule, s, p);
    var q := SkipWs(s, p);
    MulTailFolds(s, first.pos, first.val, steps, stop);
    assert Multiplicative(s, p) == MulTail(s, first.pos, first.val);
    ParseRollsBack(PowerRule, s, p);
    assert Multiplicative(s, q) == Multiplicative(s, p);
    RunsMultiplicative(s, q);
  }

  /** The additive level folds its operands from the left, starting from the
      first multiplicative expression. */
  lemma AdditiveFoldsLeft(s: string, p: nat, steps: seq<Step>, stop: nat)
    requires p <= |s| && Parse(MultiplicativeRule, s, p).Accept?
    requires AddRounds(s, Parse(MultiplicativeRule, s, p).pos, steps, stop)
    ensures Additive(s, p) == Accept(stop, FoldLeft(Parse(MultiplicativeRule, s, p).val, steps))
    ensures Expression(s, p) == Additive(s, p)
  {
    var first := Parse(MultiplicativeRule, s, p);
    var q := SkipWs(s, p);
    AddTailFolds(s, first.pos, first.val, steps, stop);
    assert Additive(s, p) == AddTail(s, first.pos, first.val);
    ParseRollsBack(MultiplicativeRule, s, p);
    assert Additive(s, q) == Additive(s, p);
    assert Run(AdditiveRule, s, q) == Additive(s, q);
  }

  /** `a op1 b op2 c` at the multiplicative level is `(a op1 b) op2 c`. */
  lemma MultiplicativeThreeOperands(s: string, p: nat, a: Value, b: Value, c: Value,
                                    op1: Operation, op2: Operation, p1: nat, p2: nat, p3: nat)
    requires p <= |s| && Parse(PowerRule, s, p) == Accept(p1, a)
    requires MulOp(s, p1).op == op1 != NONE && Parse(PowerRule, s, MulOp(s, p1).pos) == Accept(p2, b)
    requires MulOp(s, p2).op == op2 != NONE && Parse(PowerRule, s, MulOp(s, p2).pos) == Accept(p3, c)
    requires MulOp(s, p3).op == NONE
    ensures Multiplicative(s, p) == Accept(SkipWs(s, p3), Evaluate(Evaluate(a, op1, b), op2, c))
  {
    var stop := SkipWs(s, p3);
    assert MulRounds(s, p3, [], stop);
    assert [Step(op2, c)][1..] == [];
    assert MulRounds(s, p2, [Step(op2, c)], stop);
    assert [Step(op1, b), Step(op2, c)][1..] == [Step(op2, c)];
    assert MulRounds(s, p1, [Step(op1, b), Step(op2, c)], stop);
    MultiplicativeFoldsLeft(s, p, [Step(op1, b), Step(op2, c)], stop);
    assert FoldLeft(a, [Step(op1, b), Step(op2, c)]) == FoldLeft(Evaluate(a, op1, b), [Step(op2, c)]);
    assert FoldLeft(Evaluate(a, op1, b), [Step(op2, c)]) == FoldLeft(Evaluate(Evaluate(a, op1, b), op2, c), []);
  }

  /** From `p` the multiplicative loop runs one complete round per step and
      arrives at `mid`, before it probes for the next operator. */
  predicate MulPrefix(s: string, p: nat, steps: seq<Step>, mid: nat)
    requires p <= |s|
    decreases |steps|
  {
    if steps == [] then mid == p
    else
      var probe := MulOp(s, p);
      && probe.op == steps[0].op && probe.op != NONE
      && var right := Parse(PowerRule, s, probe.pos);
      && right.Accept? && right.val == steps[0].operand
      && MulPrefix(s, right.pos, steps[1..], mid)
  }

  /** The same for the additive loop. */
  predicate AddPrefix(s: string, p: nat, steps: seq<Step>, mid: nat)
    requires p <= |s|
    decreases |steps|
  {
    if steps == [] then mid == p
    else
      var probe := AddOp(s, p);
      && probe.op == steps[0].op && probe.op != NONE
      && var right := Parse(PowerRule, s, probe.pos);
      && right.Accept? && right.val == steps[0].operand
      && AddPrefix(s, right.pos, steps[1..], mid)
  }

  /** After complete rounds, the multiplicative loop goes on from where they
      ended with their operands folded into the accumulator. */
  lemma {:induction false} MulTailResumes(s: string, p: nat, acc: Value, steps: seq<Step>, mid: nat)
    requires p <= |s| && MulPrefix(s, p, steps, mid)
    ensures p <= mid <= |s|
    ensures MulTail(s, p, acc) == MulTail(s, mid, FoldLeft(acc, steps))
    decreases |steps|
  {
    if steps != [] {
      var right := Parse(PowerRule, s, MulOp(s, p).pos);
      MulTailResumes(s, right.pos, Evaluate(acc, steps[0].op, steps[0].operand), steps[1..], mid);
    }
  }

  /** After complete rounds, the additive loop goes on from where they ended
      with their operands folded into the accumulator. */
  lemma {:induction false} AddTailResumes(s: string, p: nat, acc: Value, steps: seq<Step>, mid: nat)
    requires p <= |s| && AddPrefix(s, p, steps, mid)
    ensures p <= mid <= |s|
    ensures AddTail(s, p, acc) == AddTail(s, mid, FoldLeft(acc, steps))
    decreases |steps|
  {
    if steps != [] {
      var right := Parse(PowerRule, s, AddOp(s, p).pos);
      AddTailResumes(s, right.pos, Evaluate(acc, steps[0].op, steps[0].operand), steps[1..], mid);
    }
  }

  /** A round whose operator matched but whose operand does not parse fails
      the multiplicative loop. */
  lemma MulTailDangles(s: string, p: nat, acc: Value)
    requires p <= |s| && MulOp(s, p).op != NONE && Parse(PowerRule, s, MulOp(s, p).pos).Reject?
    ensures MulTail(s, p, acc).Reject?
  {
  }

  /** An operator whose operand does not parse, after any number of complete
      rounds, makes the whole multiplicative level fail, and the combinator
      gives everything back. */
  lemma DanglingMulOperator(s: string, p: nat, steps: seq<Step>, p1: nat)
    requires p <= |s| && Parse(PowerRule, s, p).Accept?
    requires MulPrefix(s, Parse(PowerRule, s, p).pos, steps, p1)
    requires p1 <= |s| && MulOp(s, p1).op != NONE && Parse(PowerRule, s, MulOp(s, p1).pos).Reject?
    ensures Multiplicative(s, p).Reject?
    ensures Parse(MultiplicativeRule, s, p) == Reject(SkipWs(s, p))
  {
    var q := SkipWs(s, p);
    var first := Parse(PowerRule, s, p);
    MulTailResumes(s, first.pos, first.val, steps, p1);
    MulTailDangles(s, p1, FoldLeft(first.val, steps));
    var level := Multiplicative(s, p);
    assert level == MulTail(s, first.pos, first.val);
    ParseFromBlanks(PowerRule, s, p);
    assert Multiplicative(s, q) == level;
    RunsMultiplicative(s, q);
  }

  /** A round whose operator matched but whose operand does not parse fails
      the additive loop. */
  lemma AddTailDangles(s: string, p: nat, acc: Value)
    requires p <= |s| && AddOp(s, p).op != NONE && Parse(PowerRule, s, AddOp(s, p).pos).Reject?
    ensures AddTail(s, p, acc).Reject?
  {
  }

  /** The same for the additive level. */
  lemma DanglingAddOperator(s: string, p: nat, steps: seq<Step>, p1: nat)
    requires p <= |s| && Parse(MultiplicativeRule, s, p).Accept?
    requires AddPrefix(s, Parse(MultiplicativeRule, s, p).pos, steps, p1)
    requires p1 <= |s| && AddOp(s, p1).op != NONE && Parse(PowerRule, s, AddOp(s, p1).pos).Reject?
    ensures Additive(s, p).Reject?
    ensures Parse(AdditiveRule, s, p) == Reject(SkipWs(s, p))
  {
    var q := SkipWs(s, p);
    var first := Parse(MultiplicativeRule, s, p);
    AddTailResumes(s, first.pos, first.val, steps, p1);
    AddTailDangles(s, p1, FoldLeft(first.val, steps));
    var level := Additive(s, p);
    assert level == AddTail(s, first.pos, first.val);
    ParseFromBlanks(MultiplicativeRule, s, p);
    assert Additive(s, q) == level;
    assert Run(AdditiveRule, s, q) == level;
  }

  /** The right operand of `+` or `-` is a single power expression: a `*`,
      `/` or `mod` after it ends the additive level, with the cursor left on
      that operator. */
  lemma AdditiveStopsAtProduct(s: string, p: nat, acc: Value)
    requires p <= |s| && AddOp(s, p).op != NONE
    requires Parse(PowerRule, s, AddOp(s, p).pos).Accept?
    requires MulOp(s, Parse(PowerRule, s, AddOp(s, p).pos).pos).op != NONE
    ensures var right := Parse(PowerRule, s, AddOp(s, p).pos);
            && AddTail(s, p, acc) == Accept(SkipWs(s, right.pos), Evaluate(acc, AddOp(s, p).op, right.val))
            && (At(s, SkipWs(s, right.pos)) in {'*', '/'} || LiteralAt(s, SkipWs(s, right.pos), "mod"))
  {
    var right := Parse(PowerRule, s, AddOp(s, p).pos);
    MulOpAt(s, right.pos);
    AddOpAt(s, right.pos);
    assert AddOp(s, right.pos).op == NONE;
  }


  // ---------------------------------------------------------------------
  // The entry point

  /** No rule accepts anything at the terminator. */
  lemma {:induction false} NothingAtEnd(rule: Rule, s: string)
    ensures Run(rule, s, |s|).Reject?
    decreases Level(rule)
  {
    match rule
    case NumberRule =>
    case PrimaryRule =>
      NothingAtEnd(NumberRule, s);
      assert Parse(NumberRule, s, |s|).Reject?;
      assert !Token(s, |s|, "(").ok;
    case TrigonometricRule =>
      assert TokenThen(s, |s|, "sin", ExpressionRule) == Reject(|s|);
      assert TokenThen(s, |s|, "cos", ExpressionRule) == Reject(|s|);
      assert TokenThen(s, |s|, "tan", ExpressionRule) == Reject(|s|);
      assert TokenThen(s, |s|, "arcsin", ExpressionRule) == Reject(|s|);
      assert TokenThen(s, |s|, "arccos", ExpressionRule) == Reject(|s|);
      assert TokenThen(s, |s|, "arctan", ExpressionRule) == Reject(|s|);
    case UnaryRule =>
      NothingAtEnd(PrimaryRule, s);
      NothingAtEnd(TrigonometricRule, s);
      assert TokenThen(s, |s|, "-", PrimaryRule) == Reject(|s|);
      assert TokenThen(s, |s|, "+", PrimaryRule) == Reject(|s|);
      assert Parse(PrimaryRule, s, |s|) == Reject(|s|);
      assert Parse(TrigonometricRule, s, |s|) == Reject(|s|);
      assert Unary(s, |s|) == Reject(|s|);
    case PowerRule =>
      NothingAtEnd(UnaryRule, s);
      assert Parse(UnaryRule, s, |s|) == Reject(|s|);
    case MultiplicativeRule =>
      NothingAtEnd(PowerRule, s);
      assert Parse(PowerRule, s, |s|) == Reject(|s|);
    case AdditiveRule =>
      NothingAtEnd(MultiplicativeRule, s);
      assert Parse(MultiplicativeRule, s, |s|) == Reject(|s|);
    case ExpressionRule =>
      NothingAtEnd(AdditiveRule, s);
      assert Parse(AdditiveRule, s, |s|) == Reject(|s|);
  }

  /** The text holds nothing but white space. */
  predicate Blank(s: string)
  {
    forall i | 0 <= i < |s| :: IsSpace(s[i])
  }

  /** Skipping white space from the start reaches the end exactly when the
      text is blank. */
  lemma BlankIffSkipsAll(s: string)
    ensures Blank(s) <==> SkipWs(s, 0) == |s|
  {
  }

  /** In text without an embedded NUL, the terminator is seen only at the end. */
  lemma TerminatorOnlyAtEnd(s: string, i: nat)
    requires '\0' !in s && i <= |s|
    ensures At(s, i) == '\0' <==> i == |s|
  {
    if i < |s| {
      assert s[i] in s;
    }
  }

  /** Empty or blank input is accepted, and the caller's result variable is
      left as it was. */
  lemma BlankInputKeepsSlot(s: string, slot: Value)
    requires Blank(s)
    ensures ParseAndEvaluate(s, slot) == (true, slot)
  {
    BlankRootRejects(s);
  }

  /** On blank text the root rule fails, with the cursor at the end. */
  lemma BlankRootRejects(s: string)
    requires Blank(s)
    ensures Expression(s, 0) == Reject(|s|)
  {
    BlankIffSkipsAll(s);
    NothingAtEnd(AdditiveRule, s);
    assert Parse(AdditiveRule, s, 0) == Reject(|s|);
  }

  /** For text without an embedded NUL, the entry point reports success
      exactly when the root rule consumed the whole text, or when the text is
      blank and the root rule failed after skipping all of it. */
  lemma EntryAccepts(s: string, slot: Value)
    requires '\0' !in s
    ensures ParseAndEvaluate(s, slot).0 <==>
            (Expression(s, 0).Accept? && Expression(s, 0).pos == |s|) || Blank(s)
  {
    var root := Expression(s, 0);
    var flag := ParseAndEvaluate(s, slot).0;
    BlankIffSkipsAll(s);
    assert flag <==> root.pos == |s|;
  }

  /** A text that is exactly a digit-led decimal literal is read whole by
      the numeric recogniser. */
  lemma DigitLexemeIsNumber(s: string, k: nat)
    requires 1 <= k <= |s| && DigitLedAt(s, k)
    ensures Number(s, 0) == Accept(|s|, Num(s))
  {
    assert s[..k][0] == s[0];
    assert SkipWs(s, 0) == 0;
    var whole := DigitsEnd(s, 1);
    assert whole == k;
    if k < |s| {
      assert DigitsEnd(s, k + 1) == |s|;
    }
    assert NumeralEnd(s, 0) == |s|;
    NumeralIsNumber(s, 0);
    assert s[0..|s|] == s;
  }

  /** A text that is exactly a `.`-led decimal literal is read whole by the
      numeric recogniser. */
  lemma DotLexemeIsNumber(s: string)
    requires |s| >= 2 && s[0] == '.' && AllDigits(s[1..])
    ensures Number(s, 0) == Accept(|s|, Num(s))
  {
    assert SkipWs(s, 0) == 0;
    FirstCharMisses(s, 0, "pi");
    FirstCharMisses(s, 0, "e");
    assert Number(s, 0) == DotLed(s, 0, 0);
    assert forall i | 1 <= i < |s| :: IsDigit(s[i]) by {
      forall i | 1 <= i < |s| ensures IsDigit(s[i]) {
        assert s[1..][i - 1] == s[i];
      }
    }
    assert DigitsEnd(s, 1) == |s|;
    assert HasDigit(s, 0, |s|) by { assert IsDigit(s[1..][0]); }
    assert s[0..|s|] == s;
  }

  /** A number is a primary with the same outcome. */
  lemma NumberIsPrimary(s: string, p: nat)
    requires p <= |s| && Parse(NumberRule, s, p).Accept?
    ensures Parse(PrimaryRule, s, p) == Parse(NumberRule, s, p)
  {
    var q := SkipWs(s, p);
    SkipWsIdempotent(s, p);
    ParseRollsBack(NumberRule, s, p);
    assert Primary(s, q) == Parse(NumberRule, s, p);
  }

  /** A text that is exactly a decimal literal, `digit+ ('.' digit*)?` or
      `'.' digit+`, is accepted whole, and its value is what strtod reads
      from it. */
  lemma DecimalLiteralAccepted(s: string, slot: Value)
    requires DecimalLexeme(s)
    ensures ParseAndEvaluate(s, slot) == (true, Num(s))
  {
    if k :| 1 <= k <= |s| && DigitLedAt(s, k) {
      DigitLexemeIsNumber(s, k);
      assert s[..k][0] == s[0];
    } else {
      DotLexemeIsNumber(s);
    }
    assert SkipWs(s, 0) == 0;
    assert At(s, 0) !in {'-', '+'};
    NumberIsPrimary(s, 0);
    PrimaryIsUnary(s, 0);
    PowerOfUnary(s, 0);
    MulOpAt(s, |s|);
    assert MulRounds(s, |s|, [], |s|);
    MultiplicativeFoldsLeft(s, 0, [], |s|);
    AddOpAt(s, |s|);
    assert AddRounds(s, |s|, [], |s|);
    AdditiveFoldsLeft(s, 0, [], |s|);
  }

}
