/** The printer of expression_string.py adds no unnecessary parentheses: whether an operand is put in
    parentheses depends on the two operators alone, and those that are printed cannot be dropped. */
module ExpressionParentheses {
  import opened Options
  import opened ExpressionStrings

  /** The binary operators. */
  datatype Operator = Sum | Difference | Product | Quotient | Power

  function Node(op: Operator, a: Expr, b: Expr): Expr {
    match op
    case Sum => Add(a, b)
    case Difference => Sub(a, b)
    case Product => Mul(a, b)
    case Quotient => Div(a, b)
    case Power => Pow(a, b)
  }

  function Sign(op: Operator): Token {
    match op
    case Sum => Plus
    case Difference => Minus
    case Product => Star
    case Quotient => Slash
    case Power => Caret
  }

  function Rank(op: Operator): nat {
    if op.Sum? || op.Difference? then 1 else if op.Power? then 3 else 2
  }

  // ---- One operator under another ----

  /** The inner operator forms the left or the right operand of the outer one. */
  function Nested(outer: Operator, inLeft: bool, inner: Operator, a: Expr, b: Expr, c: Expr): Expr {
    if inLeft then Node(outer, Node(inner, a, b), c) else Node(outer, a, Node(inner, b, c))
  }

  /** The level under which an operand is printed. */
  function LevelOf(outer: Operator, inLeft: bool): nat {
    match outer
    case Sum => PLUS
    case Difference => if inLeft then PLUS else MUL
    case Product => MUL
    case Quotient => if inLeft then MUL else POW
    case Power => HIGHEST
  }

  lemma {:induction false} NodeText(op: Operator, a: Expr, b: Expr)
    ensures Text(Node(op, a, b)) == Operand(a, LevelOf(op, true)) + [Sign(op)] + Operand(b, LevelOf(op, false))
    ensures Precedence(Node(op, a, b)) == Rank(op)
  {
  }

  /** The operand is printed in parentheses. */
  predicate Wrapped(e: Expr, level: nat) {
    Operand(e, level) != Text(e)
  }

  /** Whether an operand with an operator is wrapped depends on the two operators and the side alone. */
  lemma {:induction false} OperatorsDecide(outer: Operator, inLeft: bool, inner: Operator, a: Expr, b: Expr, c: Expr,
                                           d: Expr)
    ensures Wrapped(Node(inner, a, b), LevelOf(outer, inLeft)) <==> Wrapped(Node(inner, c, d), LevelOf(outer, inLeft))
    ensures Wrapped(Node(inner, a, b), LevelOf(outer, inLeft)) ==>
              Operand(Node(inner, a, b), LevelOf(outer, inLeft)) == [LeftParen] + Text(Node(inner, a, b)) + [RightParen]
  {
    NodeText(inner, a, b);
    NodeText(inner, c, d);
    var s, t := Text(Node(inner, a, b)), Text(Node(inner, c, d));
    assert |[LeftParen] + s + [RightParen]| == |s| + 2 && |[LeftParen] + t + [RightParen]| == |t| + 2;
    hide Text, Precedence;
  }

  // ---- Names as operands ----

  const X := Atom("x")
  const Y := Atom("y")
  const Z := Atom("z")

  /** The text x op1 y op2 z. */
  function Flat(first: Operator, second: Operator): seq<Token> {
    [Name("x"), Sign(first), Name("y"), Sign(second), Name("z")]
  }

  /** How it is read: the stronger operator first, equal ones from the left. */
  function Grouped(first: Operator, second: Operator): Expr {
    if Rank(second) > Rank(first) then Node(first, X, Node(second, Y, Z)) else Node(second, Node(first, X, Y), Z)
  }

  lemma {:induction false} NameOperand(name: string, level: nat)
    requires level <= HIGHEST
    ensures Operand(Atom(name), level) == [Name(name)]
  {
  }

  lemma {:induction false} FlatText(first: Operator, second: Operator)
    requires !(first.Power? && second.Power?)
    ensures Text(Grouped(first, second)) == Flat(first, second)
    ensures Reading(Grouped(first, second)) == Grouped(first, second)
  {
    if Rank(second) > Rank(first) { RightText(first, second); } else { LeftText(first, second); }
    hide Text;
  }

  lemma {:induction false} RightText(first: Operator, second: Operator)
    requires Rank(second) > Rank(first)
    ensures Text(Node(first, X, Node(second, Y, Z))) == Flat(first, second)
  {
    InnerText(second, "y", "z");
    NodeText(first, X, Node(second, Y, Z));
    NameOperand("x", LevelOf(first, true));
    hide Text, Precedence;
  }

  lemma {:induction false} LeftText(first: Operator, second: Operator)
    requires Rank(second) <= Rank(first) && !(first.Power? && second.Power?)
    ensures Text(Node(second, Node(first, X, Y), Z)) == Flat(first, second)
  {
    InnerText(first, "x", "y");
    NodeText(second, Node(first, X, Y), Z);
    NameOperand("z", LevelOf(second, false));
    hide Text, Precedence;
  }

  /** The flat text is read by precedence and from the left. */
  lemma {:induction false} FlatReads(r: Reader, first: Operator, second: Operator)
    ensures ReadText(r, Flat(first, second)) == Some(Grouped(first, second))
  {
    if first.Power? && second.Power? {
      PowersRead(r);
    } else {
      FlatText(first, second);
      assert Flat(first, second) + [] == Flat(first, second);
      WholeParses(r, Grouped(first, second), []);
    }
  }

  lemma {:induction false} PowersRead(r: Reader)
    ensures ReadText(r, Flat(Power, Power)) == Some(Pow(Pow(X, Y), Z))
  {
    var ts := Flat(Power, Power);
    var after := ts[1..];
    assert after == [Caret] + [Name("y")] + [Caret, Name("z")];
    assert ParsePrefix(r, [Name("y")] + [Caret, Name("z")]) == Parsed(Y, [Caret, Name("z")]);
    var last := [Caret, Name("z")];
    assert last == [Caret] + [Name("z")] + [];
    assert [Name("z")] + [] == [Name("z")] && ParsePrefix(r, [Name("z")]) == Parsed(Z, []);
    PowerRestStep(r, Pow(X, Y), Caret, [Name("z")], Z, []);
    assert after[1..] == [Name("y")] + last;
    assert PowerRest(r, X, after) == Parsed(Pow(Pow(X, Y), Z), []);
    assert ParsePrefix(r, ts) == Parsed(X, after);
    assert ParseProduct(r, ts) == Parsed(Pow(Pow(X, Y), Z), []);
  }

  // ---- Dropping parentheses ----

  /** The text of the nested expression without parentheses. */
  function Bare(outer: Operator, inLeft: bool, inner: Operator): seq<Token> {
    if inLeft then Flat(inner, outer) else Flat(outer, inner)
  }

  /** How the bare text is read. */
  function Reread(outer: Operator, inLeft: bool, inner: Operator): Expr {
    if inLeft then Grouped(inner, outer) else Grouped(outer, inner)
  }

  /** The bare text has the value of the nested expression, under every meaning in which a product may be
      drawn into a dividend. */
  ghost predicate Droppable(r: Reader, outer: Operator, inLeft: bool, inner: Operator) {
    forall m: Meaning :: Associates(m.div) ==> SameValue(r, m, outer, inLeft, inner)
  }

  ghost predicate SameValue(r: Reader, m: Meaning, outer: Operator, inLeft: bool, inner: Operator) {
    && ReadText(r, Bare(outer, inLeft, inner)).Some?
    && Value(m, ReadText(r, Bare(outer, inLeft, inner)).value) == Value(m, Nested(outer, inLeft, inner, X, Y, Z))
  }

  /** Exact division, with a power that depends on both arguments. */
  function Sample(x: real, y: real, z: real): Meaning {
    Meaning(name => if name == "x" then x else if name == "y" then y else z,
            (a, b) => if b == 0.0 then 0.0 else a / b, (a, b) => Some(2.0 * a + 3.0 * b), _ => None, _ => None)
  }

  lemma {:induction false} SampleAssociates(x: real, y: real, z: real)
    ensures Associates(Sample(x, y, z).div)
  {
    var div := Sample(x, y, z).div;
    assert forall a, b :: b != 0.0 ==> div(a, b) == a / b;
    ExactDivisionAssociates(div);
  }

  predicate IsWrapped(outer: Operator, inLeft: bool, inner: Operator) {
    Rank(inner) < LevelOf(outer, inLeft)
  }

  /** Names at which a wrapped operand and the bare text have different values. */
  function Witness(outer: Operator, inLeft: bool, inner: Operator): (real, real, real) {
    if outer.Quotient? && !inLeft then (1.0, 1.0, if inner.Difference? then 3.0 else 2.0)
    else if outer.Quotient? then (1.0, 0.0, 2.0)
    else if outer.Power? && inLeft then (3.0, 2.0, 1.0)
    else if outer.Power? then (3.0, 1.0, 2.0)
    else if inLeft then (1.0, 0.0, 0.0)
    else (0.0, 0.0, 1.0)
  }

  lemma {:induction false} WrappedDiffers(outer: Operator, inLeft: bool, inner: Operator)
    requires IsWrapped(outer, inLeft, inner) && !(outer.Power? && inLeft && inner.Power?)
    ensures var (x, y, z) := Witness(outer, inLeft, inner);
      Value(Sample(x, y, z), Reread(outer, inLeft, inner))
        != Value(Sample(x, y, z), Nested(outer, inLeft, inner, X, Y, Z))
  {
    var (x, y, z) := Witness(outer, inLeft, inner);
    SampleValue(outer, inLeft, inner, x, y, z);
    ResultsDiffer(outer, inLeft, inner);
    hide Value, Sample, Result, GroupedResult;
  }

  /** The two results at the witness: as nested, and as the flat text groups them. */
  predicate DifferAt(outer: Operator, inLeft: bool, inner: Operator, x: real, y: real, z: real) {
    var a, b, c := Some(x), Some(y), Some(z);
    if inLeft then Result(outer, Result(inner, a, b), c) != GroupedResult(inner, outer, a, b, c)
    else Result(outer, a, Result(inner, b, c)) != GroupedResult(outer, inner, a, b, c)
  }

  lemma {:induction false} ResultsDiffer(outer: Operator, inLeft: bool, inner: Operator)
    requires IsWrapped(outer, inLeft, inner) && !(outer.Power? && inLeft && inner.Power?)
    ensures var (x, y, z) := Witness(outer, inLeft, inner);
      DifferAt(outer, inLeft, inner, x, y, z)
  {
    if outer.Quotient? {
      QuotientDiffers(inLeft, inner);
    } else if outer.Power? {
      PowerDiffers(inLeft, inner);
    } else {
      hide GroupedResult;
      assert inner.Sum? || inner.Difference?;
      SumInside(outer, inLeft, inner);
    }
  }

  lemma {:induction false} SumInside(outer: Operator, inLeft: bool, inner: Operator)
    requires inner.Sum? || inner.Difference?
    requires outer.Product? || (outer.Difference? && !inLeft)
    ensures if inLeft then DifferAt(outer, inLeft, inner, 1.0, 0.0, 0.0)
            else DifferAt(outer, inLeft, inner, 0.0, 0.0, 1.0)
  {
  }

  lemma {:induction false} QuotientDiffers(inLeft: bool, inner: Operator)
    requires IsWrapped(Quotient, inLeft, inner)
    ensures var (x, y, z) := Witness(Quotient, inLeft, inner);
      DifferAt(Quotient, inLeft, inner, x, y, z)
  {
  }

  lemma {:induction false} PowerDiffers(inLeft: bool, inner: Operator)
    requires !(inLeft && inner.Power?)
    ensures var (x, y, z) := Witness(Power, inLeft, inner);
      DifferAt(Power, inLeft, inner, x, y, z)
  {
  }

  /** An operator on two numbers, as the sample meaning has it. */
  function Result(op: Operator, a: Option<real>, b: Option<real>): Option<real> {
    if a.None? || b.None? then None
    else
      match op
      case Sum => Some(a.value + b.value)
      case Difference => Some(a.value - b.value)
      case Product => Some(ExpressionStrings.Times(a.value, b.value))
      case Quotient => if b.value == 0.0 then None else Some(a.value / b.value)
      case Power => Some(2.0 * a.value + 3.0 * b.value)
  }

  lemma {:induction false} NodeValue(x: real, y: real, z: real, op: Operator, a: Expr, b: Expr)
    ensures var m := Sample(x, y, z);
      Value(m, Node(op, a, b)) == Result(op, Value(m, a), Value(m, b))
  {
  }

  /** The values of the nested expression and of the flat one. */
  lemma {:induction false} SampleValue(outer: Operator, inLeft: bool, inner: Operator, x: real, y: real, z: real)
    ensures var m := Sample(x, y, z);
      var a, b, c := Some(x), Some(y), Some(z);
      && Value(m, Nested(outer, inLeft, inner, X, Y, Z)) ==
         (if inLeft then Result(outer, Result(inner, a, b), c) else Result(outer, a, Result(inner, b, c)))
      && Value(m, Reread(outer, inLeft, inner)) ==
         (if inLeft then GroupedResult(inner, outer, a, b, c) else GroupedResult(outer, inner, a, b, c))
  {
    var m := Sample(x, y, z);
    assert Value(m, X) == Some(x) && Value(m, Y) == Some(y) && Value(m, Z) == Some(z);
    forall op, a, b
      ensures Value(m, Node(op, a, b)) == Result(op, Value(m, a), Value(m, b))
    {
      NodeValue(x, y, z, op, a, b);
    }
    hide Value, Result, Node, Sample;
  }

  function GroupedResult(first: Operator, second: Operator, a: Option<real>, b: Option<real>,
                         c: Option<real>): Option<real>
  {
    if Rank(second) > Rank(first) then Result(first, a, Result(second, b, c))
    else Result(second, Result(first, a, b), c)
  }

  /** The parentheses that the printer adds are exactly those that cannot be dropped, but for the ones around
      a power that is raised to a power, which it always adds. */
  lemma {:induction false} ParenthesesAreNeeded(r: Reader, outer: Operator, inLeft: bool, inner: Operator)
    ensures var e := Nested(outer, inLeft, inner, X, Y, Z);
      Text(e) == Bare(outer, inLeft, inner) <==>
        Droppable(r, outer, inLeft, inner) && !(outer.Power? && inner.Power?)
  {
    var e := Nested(outer, inLeft, inner, X, Y, Z);
    NestedText(outer, inLeft, inner);
    FlatReads(r, if inLeft then inner else outer, if inLeft then outer else inner);
    hide Text, ReadText, Value, Flat, Grouped;
    if !IsWrapped(outer, inLeft, inner) {
      forall m: Meaning | Associates(m.div)
        ensures SameValue(r, m, outer, inLeft, inner)
      {
        PrintingPreservesValue(r, m, e);
      }
    } else if !(outer.Power? && inner.Power?) || !inLeft {
      var (x, y, z) := Witness(outer, inLeft, inner);
      SampleAssociates(x, y, z);
      WrappedDiffers(outer, inLeft, inner);
      assert !SameValue(r, Sample(x, y, z), outer, inLeft, inner);
    }
  }

  lemma {:induction false} NestedText(outer: Operator, inLeft: bool, inner: Operator)
    ensures var text := Text(Nested(outer, inLeft, inner, X, Y, Z));
      text == Bare(outer, inLeft, inner) <==> !IsWrapped(outer, inLeft, inner)
  {
    var e := if inLeft then Node(inner, X, Y) else Node(inner, Y, Z);
    InnerText(inner, if inLeft then "x" else "y", if inLeft then "y" else "z");
    if inLeft { NodeText(outer, e, Z); } else { NodeText(outer, X, e); }
    NameOperand(if inLeft then "z" else "x", LevelOf(outer, !inLeft));
    NestedLength(outer, inLeft, e);
    hide Text, Precedence;
    assert |Bare(outer, inLeft, inner)| == 5;
    if !IsWrapped(outer, inLeft, inner) { assert Operand(e, LevelOf(outer, inLeft)) == Text(e); }
  }

  lemma {:induction false} InnerText(inner: Operator, a: string, b: string)
    ensures Text(Node(inner, Atom(a), Atom(b))) == [Name(a), Sign(inner), Name(b)]
    ensures Precedence(Node(inner, Atom(a), Atom(b))) == Rank(inner)
  {
    NodeText(inner, Atom(a), Atom(b));
    NameOperand(a, LevelOf(inner, true));
    NameOperand(b, LevelOf(inner, false));
    hide Text;
  }

  lemma {:induction false} NestedLength(outer: Operator, inLeft: bool, e: Expr)
    requires |Text(e)| == 3
    ensures |Operand(e, LevelOf(outer, inLeft))| == if Precedence(e) < LevelOf(outer, inLeft) then 5 else 3
  {
    var t := Text(e);
    assert |[LeftParen] + t + [RightParen]| == |t| + 2;
  }
}
