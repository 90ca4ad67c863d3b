/** What each rule of the recursive-descent recogniser does, as functions of
    the input text and the cursor position on entry.

    A rule either accepts, leaving the cursor at `pos` and having written
    `val` into its result slot, or rejects, leaving the cursor at `pos`.  The
    end of the text plays the role of the NUL terminator. */
module Grammar {
  import opened Values

  /** What a rule reports: the flag, the cursor afterwards and, on success,
      the value written. */
  datatype Outcome = Accept(pos: nat, val: Value) | Reject(pos: nat)

  /** What a literal probe reports: the flag and the cursor afterwards. */
  datatype Probe = Probe(ok: bool, pos: nat)

  /** What an operator probe of a binary level reports: the operator matched
      (`NONE` when none was) and the cursor afterwards. */
  datatype OpProbe = OpProbe(op: Operation, pos: nat)

  /** The rules that the rollback combinator can be handed. */
  datatype Rule =
    | NumberRule | PrimaryRule | TrigonometricRule | UnaryRule
    | PowerRule | MultiplicativeRule | AdditiveRule | ExpressionRule

  /** The rank of a rule in the precedence chain: a rule calls rules of lower
      rank at the same position, and rules of any rank only once it has
      consumed a character. */
  function Level(rule: Rule): nat
  {
    match rule
    case NumberRule => 0
    case PrimaryRule => 1
    case TrigonometricRule => 1
    case UnaryRule => 2
    case PowerRule => 3
    case MultiplicativeRule => 4
    case AdditiveRule => 5
    case ExpressionRule => 6
  }

  /** `isspace` in the C locale. */
  predicate IsSpace(c: char)
  {
    c == ' ' || c == '\t' || c == '\n' || c == '\U{B}' || c == '\U{C}' || c == '\r'
  }

  /** `isdigit`. */
  predicate IsDigit(c: char)
  {
    '0' <= c <= '9'
  }

  /** The character under position `i`: the terminator at or past the end. */
  function At(s: string, i: nat): char
  {
    if i < |s| then s[i] else '\0'
  }

  /** The first position at or after `p` that does not hold white space. */
  function SkipWs(s: string, p: nat): (q: nat)
    requires p <= |s|
    ensures p <= q <= |s|
    ensures forall i | p <= i < q :: IsSpace(s[i])
    ensures !IsSpace(At(s, q))
    decreases |s| - p
  {
    if p < |s| && IsSpace(s[p]) then SkipWs(s, p + 1) else p
  }

  /** Skipping white space a second time moves nothing. */
  lemma SkipWsIdempotent(s: string, p: nat)
    requires p <= |s|
    ensures SkipWs(s, SkipWs(s, p)) == SkipWs(s, p)
  {
  }

  /** The first position at or after `p` that does not hold a digit. */
  function DigitsEnd(s: string, p: nat): (q: nat)
    requires p <= |s|
    ensures p <= q <= |s|
    ensures forall i | p <= i < q :: IsDigit(s[i])
    ensures !IsDigit(At(s, q))
    decreases |s| - p
  {
    if p < |s| && IsDigit(s[p]) then DigitsEnd(s, p + 1) else p
  }

  /** `lit` stands in `s` starting at position `q`. */
  predicate LiteralAt(s: string, q: nat, lit: string)
  {
    q + |lit| <= |s| && s[q..q + |lit|] == lit
  }

  /** The literal matcher: skips white space, then either steps over `lit`
      or fails with the cursor left after the white space. */
  function Token(s: string, p: nat, lit: string): (r: Probe)
    requires p <= |s|
    ensures SkipWs(s, p) <= r.pos <= |s|
    ensures r.ok ==> r.pos == SkipWs(s, p) + |lit|
    ensures !r.ok ==> r.pos == SkipWs(s, p)
  {
    var q := SkipWs(s, p);
    if LiteralAt(s, q, lit) then Probe(true, q + |lit|) else Probe(false, q)
  }

  /** Whether the text from `start` to `stop` holds a digit. */
  predicate HasDigit(s: string, start: nat, stop: nat)
    requires start <= stop <= |s|
  {
    exists i | start <= i < stop :: IsDigit(s[i])
  }

  /** `strtod(anchor, &end)` when the decimal text it can read ends at `stop`:
      it skips white space from `anchor`, and converts the characters up to
      `stop`; with no digit among them there is no conversion, which gives 0
      and puts the end back at `anchor`. */
  function StrToD(s: string, anchor: nat, stop: nat): (r: (Value, nat))
    requires anchor <= stop <= |s| && SkipWs(s, anchor) <= stop
    ensures r.1 == stop || r.1 == anchor
  {
    var start := SkipWs(s, anchor);
    if HasDigit(s, start, stop) then (Num(s[start..stop]), stop) else (Num("0"), anchor)
  }

  /** The numeric and constant recogniser: `pi`, then `e`, then a digit-led
      literal, then a `.`-led literal; `p` is where strtod is anchored. */
  function Number(s: string, p: nat): (r: Outcome)
    requires p <= |s|
    ensures p <= r.pos <= |s|
  {
    var pi := Token(s, p, "pi");
    if pi.ok then Accept(pi.pos, Num(PiText))
    else
      var e := Token(s, pi.pos, "e");
      if e.ok then Accept(e.pos, Num(EText))
      else if IsDigit(At(s, e.pos)) then DigitLed(s, p, e.pos)
      else if At(s, e.pos) == '.' then DotLed(s, p, e.pos)
      else Reject(e.pos)
  }

  /** The end of the scan `digit+ ('.' digit*)?` that starts with the digit
      at `q`. */
  function NumeralEnd(s: string, q: nat): (stop: nat)
    requires q < |s| && IsDigit(s[q])
    ensures q < stop <= |s|
  {
    var whole := DigitsEnd(s, q + 1);
    if At(s, whole) == '.' then DigitsEnd(s, whole + 1) else whole
  }

  /** A digit-led literal scanned from `q` and converted from `anchor`. */
  function DigitLed(s: string, anchor: nat, q: nat): (r: Outcome)
    requires anchor <= q < |s| && q == SkipWs(s, anchor) && IsDigit(s[q])
    ensures anchor <= r.pos <= |s|
  {
    var conversion := StrToD(s, anchor, NumeralEnd(s, q));
    Accept(conversion.1, conversion.0)
  }

  /** A `.`-led literal `'.' digit*` scanned from `q` and converted from
      `anchor`. */
  function DotLed(s: string, anchor: nat, q: nat): (r: Outcome)
    requires anchor <= q < |s| && q == SkipWs(s, anchor) && s[q] == '.'
    ensures anchor <= r.pos <= |s|
  {
    var conversion := StrToD(s, anchor, DigitsEnd(s, q + 1));
    Accept(conversion.1, conversion.0)
  }

  /** The rollback combinator: skips white space, runs `rule`, and on failure
      puts the cursor back where the rule started. */
  function Parse(rule: Rule, s: string, p: nat): (r: Outcome)
    requires p <= |s|
    ensures SkipWs(s, p) <= r.pos <= |s|
    ensures r.Reject? ==> r.pos == SkipWs(s, p)
    decreases |s| - p, Level(rule), 3
  {
    var q := SkipWs(s, p);
    var o := Run(rule, s, q);
    if o.Accept? then o else Reject(q)
  }

  /** The rule a function pointer handed to the combinator stands for. */
  function Run(rule: Rule, s: string, p: nat): (r: Outcome)
    requires p <= |s|
    ensures p <= r.pos <= |s|
    decreases |s| - p, Level(rule), 2
  {
    match rule
    case NumberRule => Number(s, p)
    case PrimaryRule => Primary(s, p)
    case TrigonometricRule => Trigonometric(s, p)
    case UnaryRule => Unary(s, p)
    case PowerRule => Power(s, p)
    case MultiplicativeRule => Multiplicative(s, p)
    case AdditiveRule => Additive(s, p)
    case ExpressionRule => Expression(s, p)
  }

  /** `token(lit) && parse(rule, result)`: the rule runs only after the
      literal matched, and a failure of the rule does not give the literal
      back. */
  function TokenThen(s: string, p: nat, lit: string, rule: Rule): (r: Outcome)
    requires p <= |s| && |lit| > 0
    ensures p <= r.pos <= |s|
    decreases |s| - p, 0, 0
  {
    var t := Token(s, p, lit);
    if t.ok then Parse(rule, s, t.pos) else Reject(t.pos)
  }

  /** `number | '(' expression ')'`. */
  function Primary(s: string, p: nat): (r: Outcome)
    requires p <= |s|
    ensures p <= r.pos <= |s|
    decreases |s| - p, Level(PrimaryRule), 1
  {
    var n := Parse(NumberRule, s, p);
    if n.Accept? then n
    else
      var open := Token(s, n.pos, "(");
      if !open.ok then Reject(open.pos)
      else
        var inner := Parse(ExpressionRule, s, open.pos);
        if inner.Reject? then inner
        else
          var close := Token(s, inner.pos, ")");
          if close.ok then Accept(close.pos, inner.val) else Reject(close.pos)
  }

  /** A function keyword followed by a whole expression, the keywords tried in
      the order `sin cos tan arcsin arccos arctan`. */
  function Trigonometric(s: string, p: nat): (r: Outcome)
    requires p <= |s|
    ensures p <= r.pos <= |s|
    decreases |s| - p, Level(TrigonometricRule), 1
  {
    var sin := TokenThen(s, p, "sin", ExpressionRule);
    if sin.Accept? then Accept(sin.pos, Apply(Sin, sin.val)) else
    var cos := TokenThen(s, sin.pos, "cos", ExpressionRule);
    if cos.Accept? then Accept(cos.pos, Apply(Cos, cos.val)) else
    var tan := TokenThen(s, cos.pos, "tan", ExpressionRule);
    if tan.Accept? then Accept(tan.pos, Apply(Tan, tan.val)) else
    var asin := TokenThen(s, tan.pos, "arcsin", ExpressionRule);
    if asin.Accept? then Accept(asin.pos, Apply(Asin, asin.val)) else
    var acos := TokenThen(s, asin.pos, "arccos", ExpressionRule);
    if acos.Accept? then Accept(acos.pos, Apply(Acos, acos.val)) else
    var atan := TokenThen(s, acos.pos, "arctan", ExpressionRule);
    if atan.Accept? then Accept(atan.pos, Apply(Atan, atan.val)) else
    Reject(atan.pos)
  }

  /** `'-' primary | '+' primary | primary | trigonometric`. */
  function Unary(s: string, p: nat): (r: Outcome)
    requires p <= |s|
    ensures p <= r.pos <= |s|
    decreases |s| - p, Level(UnaryRule), 1
  {
    var minus := TokenThen(s, p, "-", PrimaryRule);
    if minus.Accept? then Accept(minus.pos, Neg(minus.val)) else
    var plus := TokenThen(s, minus.pos, "+", PrimaryRule);
    if plus.Accept? then plus else
    var bare := Parse(PrimaryRule, s, plus.pos);
    if bare.Accept? then bare else
    Parse(TrigonometricRule, s, bare.pos)
  }

  /** `unary ('^' unary)?`. */
  function Power(s: string, p: nat): (r: Outcome)
    requires p <= |s|
    ensures p <= r.pos <= |s|
    decreases |s| - p, Level(PowerRule), 1
  {
    var base := Parse(UnaryRule, s, p);
    if base.Reject? then base
    else
      var caret := Token(s, base.pos, "^");
      if !caret.ok then Accept(caret.pos, base.val)
      else
        var exponent := Parse(UnaryRule, s, caret.pos);
        if exponent.Reject? then exponent
        else Accept(exponent.pos, Evaluate(base.val, POW, exponent.val))
  }

  /** The operator probe of the multiplicative level: `*`, then `/`, then `mod`. */
  function MulOp(s: string, p: nat): (r: OpProbe)
    requires p <= |s|
    ensures r.op in {NONE, MULT, DIV, MOD}
    ensures r.op == NONE ==> r.pos == SkipWs(s, p)
    ensures r.op != NONE ==> SkipWs(s, p) < r.pos <= |s|
  {
    var times := Token(s, p, "*");
    if times.ok then OpProbe(MULT, times.pos)
    else
      var slash := Token(s, times.pos, "/");
      if slash.ok then OpProbe(DIV, slash.pos)
      else
        var modulo := Token(s, slash.pos, "mod");
        if modulo.ok then OpProbe(MOD, modulo.pos) else OpProbe(NONE, modulo.pos)
  }

  /** The operator probe of the additive level: `+`, then `-`. */
  function AddOp(s: string, p: nat): (r: OpProbe)
    requires p <= |s|
    ensures r.op in {NONE, ADD, SUB}
    ensures r.op == NONE ==> r.pos == SkipWs(s, p)
    ensures r.op != NONE ==> SkipWs(s, p) < r.pos <= |s|
  {
    var plus := Token(s, p, "+");
    if plus.ok then OpProbe(ADD, plus.pos)
    else
      var minus := Token(s, plus.pos, "-");
      if minus.ok then OpProbe(SUB, minus.pos) else OpProbe(NONE, minus.pos)
  }

  /** `power (('*' | '/' | 'mod') power)*`, folded from the left. */
  function Multiplicative(s: string, p: nat): (r: Outcome)
    requires p <= |s|
    ensures p <= r.pos <= |s|
    decreases |s| - p, Level(MultiplicativeRule), 1
  {
    var first := Parse(PowerRule, s, p);
    if first.Reject? then first else MulTail(s, first.pos, first.val)
  }

  /** The rounds of the multiplicative loop from position `p`, with `acc` the
      value folded so far. */
  function MulTail(s: string, p: nat, acc: Value): (r: Outcome)
    requires p <= |s|
    ensures p <= r.pos <= |s|
    decreases |s| - p, Level(MultiplicativeRule), 0
  {
    var probe := MulOp(s, p);
    if probe.op == NONE then Accept(probe.pos, acc)
    else
      var right := Parse(PowerRule, s, probe.pos);
      if right.Reject? then right
      else MulTail(s, right.pos, Evaluate(acc, probe.op, right.val))
  }

  /** `multiplicative (('+' | '-') power)*`, folded from the left: the right
      operand of `+` and `-` is a single power expression. */
  function Additive(s: string, p: nat): (r: Outcome)
    requires p <= |s|
    ensures p <= r.pos <= |s|
    decreases |s| - p, Level(AdditiveRule), 1
  {
    var first := Parse(MultiplicativeRule, s, p);
    if first.Reject? then first else AddTail(s, first.pos, first.val)
  }

  /** The rounds of the additive loop from position `p`, with `acc` the value
      folded so far. */
  function AddTail(s: string, p: nat, acc: Value): (r: Outcome)
    requires p <= |s|
    ensures p <= r.pos <= |s|
    decreases |s| - p, Level(AdditiveRule), 0
  {
    var probe := AddOp(s, p);
    if probe.op == NONE then Accept(probe.pos, acc)
    else
      var right := Parse(PowerRule, s, probe.pos);
      if right.Reject? then right
      else AddTail(s, right.pos, Evaluate(acc, probe.op, right.val))
  }

  /** The grammar root. */
  function Expression(s: string, p: nat): (r: Outcome)
    requires p <= |s|
    ensures SkipWs(s, p) <= r.pos <= |s|
    ensures r.Reject? ==> r.pos == SkipWs(s, p)
    decreases |s| - p, Level(ExpressionRule), 1
  {
    Parse(AdditiveRule, s, p)
  }

  /** The public entry point: runs the root rule from the start of `s` with
      `slot` the caller's result variable, and reports success exactly when
      the cursor ends on the terminator, whatever the root rule reported. */
  function ParseAndEvaluate(s: string, slot: Value): (r: (bool, Value))
    ensures var o := Expression(s, 0);
            && ('\0' !in s ==> (r.0 <==> o.pos == |s|))
            && (o.Accept? ==> r.1 == o.val)
            && (o.Reject? ==> r.1 == slot)
  {
    var o := Expression(s, 0);
    assert o.pos < |s| ==> s[o.pos] in s;
    (At(s, o.pos) == '\0', if o.Accept? then o.val else slot)
  }
}
