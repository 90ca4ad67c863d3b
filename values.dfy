/** The numbers the calculator computes, kept symbolic.

    Every double the parser produces is described by the term that computes
    it, so that the order in which the grammar combines operands can be stated
    and proved without committing to floating-point arithmetic. */
module Values {

  /** The operator tags of the evaluator; `NONE` is the tag a binary level
      starts each round with, before an operator token has been matched. */
  datatype Operation = NONE | ADD | SUB | MULT | DIV | MOD | POW

  /** The functions behind the trigonometric keywords. */
  datatype Func = Sin | Cos | Tan | Asin | Acos | Atan

  /** A double, as the term that computes it. */
  datatype Value =
    | Num(lexeme: string)                             // what strtod reads from `lexeme`
    | Neg(arg: Value)                                 // unary minus
    | Bin(op: Operation, left: Value, right: Value)   // `left op right` in IEEE double arithmetic
    | Apply(fn: Func, arg: Value)                     // the libm function applied to `arg`
    | NaN                                             // the quiet not-a-number

  /** The double constants the recogniser writes for `pi` and `e`, as the
      decimal text of their C literals. */
  const PiText: string := "3.1415926535897931"
  const EText: string := "2.7182818284590452"

  /** The operator evaluator: each real tag combines `left` and `right`, in
      that order, with its own operator; the `NONE` tag yields not-a-number. */
  function Evaluate(left: Value, op: Operation, right: Value): (r: Value)
    ensures r == NaN <==> op == NONE
    ensures op != NONE ==> r.Bin? && r.op == op && r.left == left && r.right == right
  {
    match op
    case ADD => Bin(ADD, left, right)
    case SUB => Bin(SUB, left, right)
    case MULT => Bin(MULT, left, right)
    case DIV => Bin(DIV, left, right)
    case MOD => Bin(MOD, left, right)
    case POW => Bin(POW, left, right)
    case NONE => NaN
  }
}
