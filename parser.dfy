/** The recogniser as the C program runs it: one cursor into the text, moved
    by every rule, and one method per grammar rule that reports success and
    writes its value through a result slot.

    Each method is proved to do what the function of the same name in
    `Grammar` says, from the cursor position it was entered at. */
module Engine {
  import opened Values
  import Grammar

  /** `ok`, the cursor `pos` and the slot `val` after a rule are what
      outcome `o` describes; on failure the slot is left unconstrained, since
      every rule is run through the rollback combinator, which restores it. */
  predicate Reports(o: Grammar.Outcome, ok: bool, pos: nat, val: Value)
  {
    ok == o.Accept? && pos == o.pos && (ok ==> val == o.val)
  }

  class Parser {
    /** The text, without its terminator. */
    const input: string
    /** The read position. */
    var cursor: nat

    ghost predicate Valid()
      reads this
    {
      cursor <= |input|
    }

    /** A parser whose cursor is set to the start of `text`. */
    constructor (text: string)
      ensures Valid() && input == text && cursor == 0
    {
      input := text;
      cursor := 0;
    }

    /** The character under the cursor, the terminator at the end. */
    function Peek(): (c: char)
      reads this
      requires Valid()
      ensures c == '\0' <==> cursor == |input| || input[cursor] == '\0'
    {
      Grammar.At(input, cursor)
    }

    /** The skip loop that the combinator and the literal matcher start with. */
    method SkipWhitespace()
      requires Valid()
      modifies this
      ensures Valid() && cursor == Grammar.SkipWs(input, old(cursor))
    {
      while Grammar.IsSpace(Peek())
        invariant Valid() && old(cursor) <= cursor
        invariant Grammar.SkipWs(input, old(cursor)) == Grammar.SkipWs(input, cursor)
        decreases |input| - cursor
      {
        cursor := cursor + 1;
      }
    }

    /** The digit loops of the numeric recogniser. */
    method SkipDigits()
      requires Valid()
      modifies this
      ensures Valid() && cursor == Grammar.DigitsEnd(input, old(cursor))
    {
      while Grammar.IsDigit(Peek())
        invariant Valid() && old(cursor) <= cursor
        invariant Grammar.DigitsEnd(input, old(cursor)) == Grammar.DigitsEnd(input, cursor)
        decreases |input| - cursor
      {
        cursor := cursor + 1;
      }
    }

    /** `token`: skips white space, then walks the literal character by
        character against the text, the terminator included. */
    method Token(literal: string) returns (ok: bool)
      requires Valid() && '\0' !in literal
      modifies this
      ensures Valid()
      ensures ok == Grammar.Token(input, old(cursor), literal).ok
      ensures cursor == Grammar.Token(input, old(cursor), literal).pos
    {
      SkipWhitespace();
      var cursorCopy := cursor;
      var i := 0;
      while i < |literal|
        invariant Valid() && i <= |literal| && cursor == cursorCopy + i
        invariant input[cursorCopy..cursor] == literal[..i]
      {
        if literal[i] != Peek() {
          cursor := cursorCopy;
          return false;
        }
        i := i + 1;
        cursor := cursor + 1;
      }
      assert literal[..i] == literal;
      return true;
    }

    /** `number`: the constants `pi` and `e`, else a scanned numeral handed to
        strtod; the slot is written only on success. */
    method Number(result: Value) returns (ok: bool, r: Value)
      requires Valid()
      modifies this
      ensures Valid()
      ensures Reports(Grammar.Number(input, old(cursor)), ok, cursor, r)
      ensures !ok ==> r == result
    {
      var anchor := cursor;
      ghost var q := Grammar.SkipWs(input, anchor);
      Grammar.SkipWsIdempotent(input, anchor);
      ok, r := true, result;
      var pi := Token("pi");
      if pi {
        r := Num(PiText);
      } else {
        var e := Token("e");
        assert !e ==> cursor == q;
        if e {
          r := Num(EText);
        } else if Grammar.IsDigit(Peek()) {
          r := DigitLed(anchor);
        } else if Peek() == '.' {
          r := DotLed(anchor);
        } else {
          ok := false;
        }
      }
    }

    /** The digit-led branch of `number`: `digit+ ('.' digit*)?` scanned,
        then strtod from the anchor resets the cursor. */
    method DigitLed(anchor: nat) returns (r: Value)
      requires Valid() && anchor <= cursor < |input|
      requires cursor == Grammar.SkipWs(input, anchor) && Grammar.IsDigit(input[cursor])
      modifies this
      ensures Valid()
      ensures Grammar.DigitLed(input, anchor, old(cursor)) == Grammar.Accept(cursor, r)
    {
      ghost var q := cursor;
      cursor := cursor + 1;
      SkipDigits();
      if Peek() == '.' {
        cursor := cursor + 1;
        SkipDigits();
      }
      assert cursor == Grammar.NumeralEnd(input, q);
      var conversion := Grammar.StrToD(input, anchor, cursor);
      r, cursor := conversion.0, conversion.1;
    }

    /** The `.`-led branch of `number`: `'.' digit*` scanned, then strtod
        from the anchor resets the cursor. */
    method DotLed(anchor: nat) returns (r: Value)
      requires Valid() && anchor <= cursor < |input|
      requires cursor == Grammar.SkipWs(input, anchor) && input[cursor] == '.'
      modifies this
      ensures Valid()
      ensures Grammar.DotLed(input, anchor, old(cursor)) == Grammar.Accept(cursor, r)
    {
      cursor := cursor + 1;
      SkipDigits();
      var conversion := Grammar.StrToD(input, anchor, cursor);
      r, cursor := conversion.0, conversion.1;
    }

    /** `parse`: the rollback combinator.  It skips white space, snapshots the
        cursor and the slot, and restores both when the rule fails. */
    method Parse(rule: Grammar.Rule, result: Value) returns (ok: bool, r: Value)
      requires Valid()
      modifies this
      ensures Valid()
      ensures Reports(Grammar.Parse(rule, input, old(cursor)), ok, cursor, r)
      ensures !ok ==> r == result
      decreases |input| - cursor, Grammar.Level(rule), 3
    {
      SkipWhitespace();
      var cursorCopy := cursor;
      var resultCopy := result;
      ok, r := Run(rule, result);
      if !ok {
        cursor := cursorCopy;
        r := resultCopy;
      }
    }

    /** The call through the function pointer handed to `parse`. */
    method Run(rule: Grammar.Rule, result: Value) returns (ok: bool, r: Value)
      requires Valid()
      modifies this
      ensures Valid()
      ensures Reports(Grammar.Run(rule, input, old(cursor)), ok, cursor, r)
      decreases |input| - cursor, Grammar.Level(rule), 2
    {
      match rule
      case NumberRule => ok, r := Number(result);
      case PrimaryRule => ok, r := Primary(result);
      case TrigonometricRule => ok, r := Trigonometric(result);
      case UnaryRule => ok, r := Unary(result);
      case PowerRule => ok, r := Power(result);
      case MultiplicativeRule => ok, r := Multiplicative(result);
      case AdditiveRule => ok, r := Additive(result);
      case ExpressionRule => ok, r := Expression(result);
    }

    /** `token(literal) && parse(rule, result)`. */
    method TokenThen(literal: string, rule: Grammar.Rule, result: Value) returns (ok: bool, r: Value)
      requires Valid() && |literal| > 0 && '\0' !in literal
      modifies this
      ensures Valid()
      ensures Reports(Grammar.TokenThen(input, old(cursor), literal, rule), ok, cursor, r)
      ensures !ok ==> r == result
      decreases |input| - cursor, 0, 0
    {
      ok, r := false, result;
      var matched := Token(literal);
      if matched {
        ok, r := Parse(rule, result);
      }
    }

    /** `primary_expression`. */
    method Primary(result: Value) returns (ok: bool, r: Value)
      requires Valid()
      modifies this
      ensures Valid()
      ensures Reports(Grammar.Primary(input, old(cursor)), ok, cursor, r)
      decreases |input| - cursor, Grammar.Level(Grammar.PrimaryRule), 1
    {
      ok, r := Parse(Grammar.NumberRule, result);
      if ok {
        return;
      }
      var open := Token("(");
      if !open {
        return false, r;
      }
      ok, r := Parse(Grammar.ExpressionRule, r);
      if !ok {
        return;
      }
      var close := Token(")");
      if !close {
        return false, r;
      }
    }

    /** `trigonometric_expression`. */
    method Trigonometric(result: Value) returns (ok: bool, r: Value)
      requires Valid()
      modifies this
      ensures Valid()
      ensures Reports(Grammar.Trigonometric(input, old(cursor)), ok, cursor, r)
      decreases |input| - cursor, Grammar.Level(Grammar.TrigonometricRule), 1
    {
      ok, r := TokenThen("sin", Grammar.ExpressionRule, result);
      if ok {
        return ok, Apply(Sin, r);
      }
      ok, r := TokenThen("cos", Grammar.ExpressionRule, r);
      if ok {
        return ok, Apply(Cos, r);
      }
      ok, r := TokenThen("tan", Grammar.ExpressionRule, r);
      if ok {
        return ok, Apply(Tan, r);
      }
      ok, r := TokenThen("arcsin", Grammar.ExpressionRule, r);
      if ok {
        return ok, Apply(Asin, r);
      }
      ok, r := TokenThen("arccos", Grammar.ExpressionRule, r);
      if ok {
        return ok, Apply(Acos, r);
      }
      ok, r := TokenThen("arctan", Grammar.ExpressionRule, r);
      if ok {
        return ok, Apply(Atan, r);
      }
    }

    /** `unary_expression`. */
    method Unary(result: Value) returns (ok: bool, r: Value)
      requires Valid()
      modifies this
      ensures Valid()
      ensures Reports(Grammar.Unary(input, old(cursor)), ok, cursor, r)
      decreases |input| - cursor, Grammar.Level(Grammar.UnaryRule), 1
    {
      ok, r := TokenThen("-", Grammar.PrimaryRule, result);
      if ok {
        return ok, Neg(r);
      }
      ok, r := TokenThen("+", Grammar.PrimaryRule, r);
      if ok {
        return;
      }
      ok, r := Parse(Grammar.PrimaryRule, r);
      if ok {
        return;
      }
      ok, r := Parse(Grammar.TrigonometricRule, r);
    }

    /** `power_expression`; `exponent` is the uninitialised local of the
        source, so it starts from an arbitrary value. */
    method Power(result: Value) returns (ok: bool, r: Value)
      requires Valid()
      modifies this
      ensures Valid()
      ensures Reports(Grammar.Power(input, old(cursor)), ok, cursor, r)
      decreases |input| - cursor, Grammar.Level(Grammar.PowerRule), 1
    {
      ok, r := Parse(Grammar.UnaryRule, result);
      if !ok {
        return;
      }
      var caret := Token("^");
      if !caret {
        return;
      }
      var exponent: Value := *;
      ok, exponent := Parse(Grammar.UnaryRule, exponent);
      if !ok {
        return;
      }
      r := Evaluate(r, POW, exponent);
    }

    /** `multiplicative_expression`; each round probes for an operator, parses
        the right operand into the uninitialised local `right` and folds it
        into the slot. */
    method Multiplicative(result: Value) returns (ok: bool, r: Value)
      requires Valid()
      modifies this
      ensures Valid()
      ensures Reports(Grammar.Multiplicative(input, old(cursor)), ok, cursor, r)
      decreases |input| - cursor, Grammar.Level(Grammar.MultiplicativeRule), 1
    {
      ok, r := Parse(Grammar.PowerRule, result);
      if !ok {
        return;
      }
      while true
        invariant Valid() && old(cursor) <= cursor
        invariant Grammar.MulTail(input, cursor, r) == Grammar.Multiplicative(input, old(cursor))
        decreases |input| - cursor
      {
        var op := NONE;
        var matched := Token("*");
        if matched {
          op := MULT;
        } else {
          matched := Token("/");
          if matched {
            op := DIV;
          } else {
            matched := Token("mod");
            if matched {
              op := MOD;
            } else {
              return true, r;
            }
          }
        }
        var right: Value := *;
        ok, right := Parse(Grammar.PowerRule, right);
        if !ok {
          return;
        }
        r := Evaluate(r, op, right);
      }
    }

    /** `additive_expression`; the right operand of each round is a single
        power expression. */
    method Additive(result: Value) returns (ok: bool, r: Value)
      requires Valid()
      modifies this
      ensures Valid()
      ensures Reports(Grammar.Additive(input, old(cursor)), ok, cursor, r)
      decreases |input| - cursor, Grammar.Level(Grammar.AdditiveRule), 1
    {
      ok, r := Parse(Grammar.MultiplicativeRule, result);
      if !ok {
        return;
      }
      while true
        invariant Valid() && old(cursor) <= cursor
        invariant Grammar.AddTail(input, cursor, r) == Grammar.Additive(input, old(cursor))
        decreases |input| - cursor
      {
        var op := NONE;
        var matched := Token("+");
        if matched {
          op := ADD;
        } else {
          matched := Token("-");
          if matched {
            op := SUB;
          } else {
            return true, r;
          }
        }
        var right: Value := *;
        ok, right := Parse(Grammar.PowerRule, right);
        if !ok {
          return;
        }
        r := Evaluate(r, op, right);
      }
    }

    /** `expression`: the root rule, run through the combinator. */
    method Expression(result: Value) returns (ok: bool, r: Value)
      requires Valid()
      modifies this
      ensures Valid()
      ensures Reports(Grammar.Expression(input, old(cursor)), ok, cursor, r)
      ensures !ok ==> r == result
      decreases |input| - cursor, Grammar.Level(Grammar.ExpressionRule), 1
    {
      ok, r := Parse(Grammar.AdditiveRule, result);
    }
  }

  /** `parse_and_evaluate_expression`: a fresh parser per call, the root rule
      run once, and success exactly when the cursor ends on the terminator. */
  method ParseAndEvaluateExpression(text: string, result: Value) returns (ok: bool, r: Value)
    ensures (ok, r) == Grammar.ParseAndEvaluate(text, result)
  {
    var parser := new Parser(text);
    var _, value := parser.Expression(result);
    r := value;
    ok := parser.Peek() == '\0';
  }
}
