# Calculator expression recogniser, modelled in Dafny

The calculator turns a line of text such as `2 * (3 + 4) ^ 2` or `sin pi` into
a double. It does this in `parser.c`: a recursive-descent recogniser that
evaluates as it parses and never builds a syntax tree. One cursor walks a
NUL-terminated string. Each grammar rule reports success and writes its value
through a `double *result` slot. The levels, from loosest to tightest binding:

| level | rule |
|---|---|
| expression | `additive` |
| additive | `multiplicative (('+' \| '-') power)*`. The right operand of `+` and `-` is a single power expression. |
| multiplicative | `power (('*' \| '/' \| 'mod') power)*` |
| power | `unary ('^' unary)?`. There is at most one `^`. |
| unary | `'-' primary \| '+' primary \| primary \| trigonometric` |
| trigonometric | `('sin' \| 'cos' \| 'tan' \| 'arcsin' \| 'arccos' \| 'arctan') expression` |
| primary | `number \| '(' expression ')'` |

Two helpers do the bookkeeping:

- `parse` is the rollback combinator. It skips white space, snapshots the cursor and the slot, runs a rule, and restores both if the rule fails.
- `token` skips white space and then matches a fixed literal.

The project has five modules, one file each:

- `values.dfy` (`Values`): the numbers, kept symbolic. A double is the term that computes it. `Num(lexeme)` is what strtod reads from `lexeme`; the other terms are `Neg`, `Bin(op, l, r)`, `Apply(f, v)` and `NaN`. It also holds the operator tags and the pure operator evaluator `Evaluate`.
- `grammar.dfy` (`Grammar`): what every rule does, as a function of the text and the cursor on entry. The result is an `Outcome`: either `Accept(pos, val)` or `Reject(pos)`. The end of the text plays the role of the NUL terminator (`At` yields `'\0'` there). Recursion terminates on the pair (characters left, grammar level): every path back into `expression` first consumes `(` or a function keyword.
- `parser.dfy` (`Engine`): the recogniser as the C program runs it. It is a `Parser` class with the text and a mutable `cursor`, one method per C rule, and the C loops written as `while` loops. Each method is proved to report exactly what the function of the same name in `Grammar` says, from the cursor it was entered at.
- `properties.dfy` (`Properties`): what the recogniser promises, proved about the `Grammar` functions:
  - literal matching and rollback;
  - the shapes the numeric recogniser reads;
  - left folding in the binary levels;
  - the additive asymmetry and the non-chainable `^`;
  - minus signs that get dropped, and greedy function keywords;
  - what the entry point reports.
- `scenarios.dfy` (`Scenarios`): whole inputs run through the entry point, such as `2 * 3 + 4`, `2 + 3 * 4`, `2^3^2`, `-2^2`, `sin 0 + 1`, `-sin 0` and `5 `.

Three behaviours of the code are worth stating plainly, because a reader of the grammar alone would expect otherwise:

- **Trailing white space is accepted.** For `5 ` (with a trailing blank), the failed operator probes of the binary levels skip the blank, so the cursor ends on the terminator and the input is accepted (`Scenarios.TrailingBlankAccepted`).
- **A failed `token` rolls back only to the point after the white space.** It does not go back to where it was before the white space was skipped (`Grammar.Token`, `Properties.TokenCharwise`).
- **`2 + 3 * 4` is rejected.** The right operand of `+` is a single power expression, so the additive level stops on the `*` (`Scenarios.SumThenProductStops`).

## Model

| member | source | states |
|---|---|---|
| Values.Evaluate | parser.c:64-84 | Each real operator tag combines `left` and `right` in that order with its own operator. Only the `NONE` tag yields not-a-number. |
| Grammar.SkipWs | parser.c:10-11 | The first position at or after `p` that is not white space. Everything skipped is white space and the cursor stays within the text. |
| Grammar.SkipWsIdempotent | parser.c:9-11 | Skipping white space a second time moves nothing. |
| Grammar.DigitsEnd | parser.c:44-45 | The digit loop stops at the first non-digit, and everything it passes is a digit. |
| Grammar.Token | parser.c:21-34 | Always skips white space first. On a match the cursor is exactly the literal's length past the post-whitespace point. On a mismatch it is at the post-whitespace point, not at the original position. |
| Grammar.StrToD | parser.c:51 | The end strtod reports is either the scanned end or the anchor, which it uses when there is nothing to convert. |
| Grammar.Number | parser.c:36-62 | The numeric recogniser never moves the cursor backwards or past the terminator. |
| Grammar.NumeralEnd | parser.c:42-50 | The scan `digit+ ('.' digit*)?` consumes at least the leading digit. |
| Grammar.DigitLed | parser.c:42-52 | The digit-led branch leaves the cursor within the text, no earlier than the anchor. |
| Grammar.DotLed | parser.c:53-58 | The `.`-led branch leaves the cursor within the text, no earlier than the anchor. |
| Grammar.Parse | parser.c:9-19 | On failure the cursor is at the post-whitespace point. It never ends before that point. |
| Grammar.Run | parser.c:14 | A rule handed to the combinator never moves the cursor backwards. |
| Grammar.TokenThen | parser.c:102 | `token(lit) && parse(rule)` never moves the cursor backwards. |
| Grammar.Primary | parser.c:88-99 | The primary rule never moves the cursor backwards or past the terminator. |
| Grammar.Trigonometric | parser.c:101-117 | The trigonometric rule never moves the cursor backwards or past the terminator. |
| Grammar.Unary | parser.c:119-128 | The unary rule never moves the cursor backwards or past the terminator. |
| Grammar.Power | parser.c:130-141 | The power rule never moves the cursor backwards or past the terminator. |
| Grammar.MulOp | parser.c:147-155 | The operator probe yields one of `NONE`, `MULT`, `DIV` or `MOD`. With no operator the cursor is after the white space; with one, it is past it. |
| Grammar.AddOp | parser.c:167-173 | The operator probe yields one of `NONE`, `ADD` or `SUB`. With no operator the cursor is after the white space; with one, it is past it. |
| Grammar.Multiplicative | parser.c:143-161 | The multiplicative rule never moves the cursor backwards or past the terminator. |
| Grammar.MulTail | parser.c:146-160 | The rounds of the multiplicative loop never move the cursor backwards. |
| Grammar.Additive | parser.c:163-179 | The additive rule never moves the cursor backwards or past the terminator. |
| Grammar.AddTail | parser.c:166-178 | The rounds of the additive loop never move the cursor backwards. |
| Grammar.Expression | parser.c:181-183 | The root rule rolls back to the post-whitespace point on failure. |
| Grammar.ParseAndEvaluate | parser.c:185-189 | On text without an embedded NUL, the flag is true exactly when the root rule left the cursor at the end of the text. The slot holds the root's value when the root succeeded, and what it held before when the root failed. |
| Engine.Parser.constructor | parser.c:186 | A fresh parser over the text, with the cursor at its start. |
| Engine.Parser.Peek | parser.c:26 | The character under the cursor is the terminator exactly at the end of the text, or on an embedded NUL. |
| Engine.Parser.SkipWhitespace | parser.c:10-11 | The skip loop leaves the cursor at `SkipWs` of where it started. |
| Engine.Parser.SkipDigits | parser.c:44-45 | The digit loop leaves the cursor at `DigitsEnd` of where it started. |
| Engine.Parser.Token | parser.c:21-34 | The character-by-character walk reports the flag and the cursor that `Grammar.Token` describes. |
| Engine.Parser.Number | parser.c:36-62 | The recogniser's flag, cursor and value are those of `Grammar.Number`. On failure the slot is untouched. |
| Engine.Parser.DigitLed | parser.c:42-52 | The scan followed by strtod's end reset gives `Grammar.DigitLed`. |
| Engine.Parser.DotLed | parser.c:53-58 | The scan followed by strtod's end reset gives `Grammar.DotLed`. |
| Engine.Parser.Parse | parser.c:9-19 | Reports what `Grammar.Parse` does. On failure both the cursor and the slot are restored from their snapshots. |
| Engine.Parser.Run | parser.c:14 | The call through the function pointer reports what the rule handed in does. |
| Engine.Parser.TokenThen | parser.c:102 | Reports what `Grammar.TokenThen` does. On failure the slot is untouched. |
| Engine.Parser.Primary | parser.c:88-99 | Reports the flag, cursor and value of `Grammar.Primary`. |
| Engine.Parser.Trigonometric | parser.c:101-117 | Reports the flag, cursor and value of `Grammar.Trigonometric`. |
| Engine.Parser.Unary | parser.c:119-128 | Reports the flag, cursor and value of `Grammar.Unary`. |
| Engine.Parser.Power | parser.c:130-141 | Reports the flag, cursor and value of `Grammar.Power`, whatever the uninitialised `exponent` held. |
| Engine.Parser.Multiplicative | parser.c:143-161 | The `for (;;)` fold reports the flag, cursor and value of `Grammar.Multiplicative`. |
| Engine.Parser.Additive | parser.c:163-179 | The `for (;;)` fold reports the flag, cursor and value of `Grammar.Additive`. |
| Engine.Parser.Expression | parser.c:181-183 | Reports what `Grammar.Expression` does. On failure the slot is untouched. |
| Engine.ParseAndEvaluateExpression | parser.c:185-189 | The flag says whether the cursor ends on the terminator, whatever the root rule reported. The slot holds the root's value, or what it held before if the root failed. |
| Properties.TokenCharwise | parser.c:21-34 | The probe succeeds exactly when, after the white space, the text shows the literal character by character. Running into the terminator counts as a mismatch. |
| Properties.TokenEmpty | parser.c:25 | The empty literal always matches, after consuming the white space. |
| Properties.RunsMultiplicative | parser.c:14 | Handing the multiplicative rule to the combinator runs the multiplicative rule. |
| Properties.ParseRollsBack | parser.c:9-18 | A failed attempt ends at the post-whitespace point. A successful one is the rule run from there. |
| Properties.ParseFromBlanks | parser.c:10-12 | Starting the combinator anywhere inside the white space before a rule gives the same outcome. |
| Properties.NumberRejects | parser.c:36-61 | The recogniser fails exactly when none of `pi`, `e`, a digit or `.` starts after the white space. It then leaves the cursor at that point. |
| Properties.DigitRun | parser.c:44-49 | A stretch of the text that holds only digits is a run of digits. |
| Properties.DigitLedShape | parser.c:42-52 | A digit-led literal is read as far as `digit+ ('.' digit*)?` goes, and its value is that lexeme. |
| Properties.DotLedShape | parser.c:53-58 | A `.`-led literal is read as far as `'.' digit*` goes. A lone `.` gives 0 with the cursor back at the anchor. |
| Properties.NumberShape | parser.c:36-61 | On success the result is, in order of preference, `pi`, `e`, a maximal decimal lexeme, or a lone `.` read as 0. |
| Properties.FirstCharMisses | parser.c:25-28 | A literal whose first character differs from the one under the cursor fails without moving the cursor. |
| Properties.DigitTakesNumeralBranch | parser.c:38-42 | Where a digit stands, neither `pi` nor `e` matches, so the digit-led branch is taken. |
| Properties.NumeralIsNumber | parser.c:42-51 | Where a digit stands, the recogniser reads the whole numeral that starts there, as its own text. |
| Properties.NumeralIsPrimary | parser.c:88-89 | A numeral on its own is a primary with the numeral's value. |
| Properties.NumeralIsUnary | parser.c:119-124 | A numeral on its own is a primary and a unary expression, and its value is the numeral's text. |
| Properties.PrimaryIsUnary | parser.c:119-123 | An unsigned primary is a unary expression with the same outcome. |
| Properties.NegatedPrimary | parser.c:120-121 | A minus sign followed by a primary negates that primary. |
| Properties.OpeningParenthesis | parser.c:89-90 | `(` starts no number, and the `(` probe steps over it. |
| Properties.GroupedAt | parser.c:89-95 | At an opening parenthesis, the primary rule reads the inner expression and steps over the closing parenthesis. |
| Properties.Grouped | parser.c:90-95 | `( e )` is a primary whose value is `e`'s value, with the cursor after `)`. |
| Properties.PrimaryRejects | parser.c:88-98 | No primary starts with a character that starts neither a number nor `(`. |
| Properties.Keyword | parser.c:102-112 | Each function has a keyword of at least three characters. |
| Properties.LiteralsClash | parser.c:25-29 | Where one literal stands, a literal that differs from it at a shared index does not. |
| Properties.Misses | parser.c:102-112 | A function keyword that differs from the one in the text is rejected without moving the cursor. |
| Properties.TrigonometricCall | parser.c:101-117 | A keyword followed by an expression applies its function to the whole remaining expression. The keywords tried earlier do not match. |
| Properties.KeywordHit | parser.c:102 | A keyword that stands in the text hands the rest of the text to the expression rule. |
| Properties.TokenMatched | parser.c:21-34 | A literal that stands after the cursor is stepped over, and the rule after it runs from the end of the literal. |
| Properties.SinKeyword | parser.c:102-103 | `sin` is tried first, and applies `sin` to the whole rest of the expression. |
| Properties.CosKeyword | parser.c:104-105 | `cos` is reached past the failed `sin` probe, and applies `cos` to the rest. |
| Properties.TanKeyword | parser.c:106-107 | `tan` is reached past `sin` and `cos`, and applies `tan` to the rest. |
| Properties.ArcsinKeyword | parser.c:108-109 | `arcsin` is reached past the three plain keywords, and applies `asin` to the rest. |
| Properties.ArccosKeyword | parser.c:110-111 | `arccos` is reached past the plain keywords and `arcsin`, and applies `acos` to the rest. |
| Properties.ArctanKeyword | parser.c:112-113 | `arctan` is reached past every other keyword, and applies `atan` to the rest. |
| Properties.FunctionCall | parser.c:119-124 | A function call is a unary expression but not a primary. |
| Properties.CallAfterBlanks | parser.c:119-124 | `FunctionCall` after the white space has been skipped. |
| Properties.UnaryFallsToCall | parser.c:119-124 | Where neither a sign nor a primary starts, the unary rule is the trigonometric rule. |
| Properties.MinusDroppedBeforeCall | parser.c:120-124 | A minus sign with no primary after it is not given back. A function call after it is accepted without the sign; otherwise the rule fails. |
| Properties.MinusDroppedBeforePlus | parser.c:120-122 | After a minus sign with no primary, a plus sign is still tried, so `-+x` reads as `x`. |
| Properties.ExpressionIsParse | parser.c:181-183 | Handing the expression rule to the combinator gives the root rule's outcome. |
| Properties.PowerOfUnary | parser.c:130-133 | A unary expression with no `^` after it is a whole power expression. The failed probe still skips the white space. |
| Properties.DigitOperand | parser.c:130-133 | A one-digit numeral with no `^` after it is a whole unary and power expression. |
| Properties.PowerOfTwoUnaries | parser.c:130-141 | `^` takes one unary expression on each side, and the exponent ends the power expression whatever follows it. |
| Properties.MulOpAt | parser.c:147-155 | After the white space, `*` gives `MULT` and `/` gives `DIV`, each one character long. The three letters `mod` give `MOD`. Anything else, including an `m` not followed by `od`, gives `NONE` with the cursor after the white space. |
| Properties.AddOpAt | parser.c:167-173 | The additive probe is decided by the first character after the white space. |
| Properties.MulTailFolds | parser.c:146-160 | The rounds of the multiplicative loop give the reference left fold of their operators and operands. |
| Properties.AddTailFolds | parser.c:166-178 | The rounds of the additive loop give the reference left fold of their operators and operands. |
| Properties.MultiplicativeFoldsLeft | parser.c:143-161 | The multiplicative level is the left fold of its rounds, starting from the first power expression. |
| Properties.AdditiveFoldsLeft | parser.c:163-179 | The additive level is the left fold of its rounds, starting from the first multiplicative expression. |
| Properties.MultiplicativeThreeOperands | parser.c:146-160 | `a op1 b op2 c` yields `evaluate(evaluate(a, op1, b), op2, c)`. |
| Properties.MulTailResumes | parser.c:146-160 | After any number of complete rounds, the multiplicative loop goes on from where they ended, with their operands folded from the left into the accumulator. |
| Properties.AddTailResumes | parser.c:166-178 | After any number of complete rounds, the additive loop goes on from where they ended, with their operands folded from the left into the accumulator. |
| Properties.MulTailDangles | parser.c:156-158 | A round whose operator matched but whose operand fails makes the multiplicative loop fail. |
| Properties.AddTailDangles | parser.c:174-176 | A round whose operator matched but whose operand fails makes the additive loop fail. |
| Properties.DanglingMulOperator | parser.c:143-161 | An operator with no operand after it, after any number of complete rounds, makes the multiplicative level fail, and everything is rolled back. |
| Properties.DanglingAddOperator | parser.c:163-179 | An operator with no operand after it, after any number of complete rounds, makes the additive level fail, and everything is rolled back. |
| Properties.AdditiveStopsAtProduct | parser.c:174-178 | After a `+`/`-` operand, a `*`, `/` or `mod` ends the additive level with the cursor on that operator. |
| Properties.NothingAtEnd | parser.c:86-183 | No rule accepts anything at the terminator. |
| Properties.BlankIffSkipsAll | parser.c:10-11 | Skipping white space from the start reaches the end exactly when the text is blank. |
| Properties.TerminatorOnlyAtEnd | parser.c:188 | In text with no embedded NUL, the terminator is seen only at the end. |
| Properties.BlankRootRejects | parser.c:181-183 | On blank text the root rule fails, with the cursor at the end. |
| Properties.BlankInputKeepsSlot | parser.c:185-188 | Empty or blank input is accepted, and the caller's result is left untouched. |
| Properties.EntryAccepts | parser.c:185-188 | The entry point succeeds exactly when the root rule consumed the whole text, or the text is blank. |
| Properties.DigitLexemeIsNumber | parser.c:42-51 | A text that is exactly `digit+ ('.' digit*)?` is read whole by the numeric recogniser, as its own text. |
| Properties.DotLexemeIsNumber | parser.c:53-57 | A text that is exactly `'.' digit+` is read whole by the numeric recogniser, as its own text. |
| Properties.NumberIsPrimary | parser.c:88-89 | A number is a primary with the same outcome. |
| Properties.DecimalLiteralAccepted | parser.c:36-58 | A text that is exactly a decimal literal, `digit+ ('.' digit*)?` or `'.' digit+`, is accepted whole, with that text as the strtod input. |
| Scenarios.ProductThenSum | parser.c:163-178 | `2 * 3 + 4` is accepted as `(2 * 3) + 4`. |
| Scenarios.SumThenProductStops | parser.c:174-178 | `2 + 3 * 4` is rejected, with `2 + 3` in the slot. |
| Scenarios.DifferenceFoldsLeft | parser.c:166-178 | `8 - 2 - 1` is `(8 - 2) - 1`. |
| Scenarios.GroupedSum | parser.c:90-95 | Inside `(2 + 3) * 4` the sum ends at the closing parenthesis. |
| Scenarios.GroupedSumTimes | parser.c:88-99 | `(2 + 3) * 4` is accepted as the sum times 4. |
| Scenarios.PowerDoesNotChain | parser.c:130-141 | `2^3^2` is rejected, with `2^3` in the slot. |
| Scenarios.NegatedBase | parser.c:119-121 | `-2^2` is `pow(-2, 2)`. |
| Scenarios.NegatedExponent | parser.c:135-137 | `2^-1` is `pow(2, -1)`. |
| Scenarios.DanglingPlus | parser.c:174-176 | `2 +` is rejected and the slot keeps its value. |
| Scenarios.DanglingTimes | parser.c:156-158 | `2 *` is rejected and the slot keeps its value. |
| Scenarios.DanglingSecondTimes | parser.c:146-158 | `2 * 3 *` is rejected and the slot keeps its value. |
| Scenarios.Modulo | parser.c:151-152 | `7 mod 2` is accepted as `MOD(7, 2)`. |
| Scenarios.TrailingBlankAccepted | parser.c:168-173 | `5 ` is accepted, because the failed operator probes skip the trailing blank. |
| Scenarios.SineArgument | parser.c:102 | In `sin 0 + 1` the argument of `sin` is `0 + 1`. |
| Scenarios.SineTakesTheRest | parser.c:102-103 | `sin 0 + 1` is `sin(0 + 1)`. |
| Scenarios.ParenthesisedArgument | parser.c:90-95 | In `sin(0)` the argument is `0`. |
| Scenarios.SineCall | parser.c:102-103 | `sin(0)` is `sin` applied to `0`. |
| Scenarios.MinusLostBeforeSine | parser.c:120-124 | `-sin 0` is accepted as `sin(0)`, without the minus. |
| Scenarios.MinusLostBeforePlus | parser.c:120-122 | `-+3` is accepted as `3`, without the minus. |
| Scenarios.PiConstant | parser.c:38-39 | `pi` is the double literal `3.1415926535897931`. |

## Left out

- `main.c` is not part of this model. It is GTK window construction and signal wiring, and it never calls the parser.
- `parser.h` is not part of this model.
- Floating-point arithmetic is left out. Values are symbolic terms, so `+ - * /`, `fmod`, `pow`, NaN, infinities and division by zero are not computed; nor are `sin`, `cos`, `tan`, `asin`, `acos` and `atan`. Only the order in which operands are combined is modelled.
- strtod is a foreign libc call. It is modelled as reading exactly the scanned `digit+ ('.' digit*)?` or `'.' digit*` text. A lone `.` gives 0 with the end at the anchor. Exponent suffixes (`1e3`) and hexadecimal (`0x10`), which strtod would read past the scanned end, are not modelled.
- `isspace` and `isdigit` are the C-locale ASCII predicates. Locale and signed-char behaviour are left out.
- A null literal passed to `token` cannot be expressed, because Dafny strings are never null. The empty literal, which behaves the same, is modelled.
- The process-wide static cursor is a field of one `Parser` object per call, so its lack of re-entrancy is not modelled. Recursion depth and stack exhaustion are not modelled either.
- Engine.Parser.Run: on failure the contract does not say what the slot holds. Every caller reaches it through `parse`, which restores the slot.
- Engine.Parser.Primary: on failure the contract does not say what the slot holds, for the same reason.
- Engine.Parser.Trigonometric: on failure the contract does not say what the slot holds, for the same reason.
- Engine.Parser.Unary: on failure the contract does not say what the slot holds, for the same reason.
- Engine.Parser.Power: on failure the contract does not say what the slot holds, for the same reason.
- Engine.Parser.Multiplicative: on failure the contract does not say what the slot holds, for the same reason.
- Engine.Parser.Additive: on failure the contract does not say what the slot holds, for the same reason.
