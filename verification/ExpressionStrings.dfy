/** Printing arithmetic with few parentheses (starkware/python/expression_string.py), and reading it
    back: dropping the parentheses changes the tree, but not its value. Texts are sequences of
    tokens; spacing is not modelled. */
module ExpressionStrings {
  import opened Options

  datatype Token =
    | Name(text: string)
    | Plus | Minus | Star | Slash | Caret | StarStar | Ampersand
    | NewKeyword | LeftParen | RightParen

  /** How an expression was put together. Quoted stands for an operand given as plain text. */
  datatype Expr =
    | Atom(name: string)
    | Add(left: Expr, right: Expr) | Sub(left: Expr, right: Expr)
    | Mul(left: Expr, right: Expr) | Div(left: Expr, right: Expr)
    | Pow(left: Expr, right: Expr) | DoubleStarPow(left: Expr, right: Expr)
    | Neg(operand: Expr) | AddressOf(operand: Expr) | New(operand: Expr)
    | Quoted(operand: Expr)

  // ---- The printer ----

  /** OperatorPrecedence. */
  const LOWEST := 0
  const PLUS := 1
  const MUL := 2
  const POW := 3
  const ADDROF := 4
  const HIGHEST := 5

  datatype ExpressionString = ExpressionString(txt: seq<Token>, precedence: nat) {
    /** _maybe_add_parentheses. */
    function Format(level: nat): seq<Token> {
      if precedence < level then [LeftParen] + txt + [RightParen] else txt
    }

    function Plus(other: ExpressionString): ExpressionString {
      ExpressionString(Format(PLUS) + [Token.Plus] + other.Format(PLUS), PLUS)
    }

    function Minus(other: ExpressionString): ExpressionString {
      ExpressionString(Format(PLUS) + [Token.Minus] + other.Format(MUL), PLUS)
    }

    function Times(other: ExpressionString): ExpressionString {
      ExpressionString(Format(MUL) + [Star] + other.Format(MUL), MUL)
    }

    function DividedBy(other: ExpressionString): ExpressionString {
      ExpressionString(Format(MUL) + [Slash] + other.Format(POW), MUL)
    }

    function ToThe(other: ExpressionString): ExpressionString {
      ExpressionString(Format(HIGHEST) + [Caret] + other.Format(HIGHEST), POW)
    }

    function DoubleStar(other: ExpressionString): ExpressionString {
      ExpressionString(Format(HIGHEST) + [StarStar] + other.Format(HIGHEST), POW)
    }

    function Negate(): ExpressionString {
      ExpressionString([Token.Minus] + Format(ADDROF), LOWEST)
    }

    function TakeAddress(): ExpressionString {
      ExpressionString([Ampersand] + Format(ADDROF), ADDROF)
    }

    function OperatorNew(): ExpressionString {
      ExpressionString([NewKeyword] + Format(ADDROF), LOWEST)
    }

    /** to_expr_string of the text alone. */
    function AsText(): ExpressionString {
      ExpressionString(txt, LOWEST)
    }
  }

  /** The ExpressionString that the operators build. */
  function Build(e: Expr): ExpressionString {
    match e
    case Atom(name) => ExpressionString([Name(name)], HIGHEST)
    case Add(x, y) => Build(x).Plus(Build(y))
    case Sub(x, y) => Build(x).Minus(Build(y))
    case Mul(x, y) => Build(x).Times(Build(y))
    case Div(x, y) => Build(x).DividedBy(Build(y))
    case Pow(x, y) => Build(x).ToThe(Build(y))
    case DoubleStarPow(x, y) => Build(x).DoubleStar(Build(y))
    case Neg(x) => Build(x).Negate()
    case AddressOf(x) => Build(x).TakeAddress()
    case New(x) => Build(x).OperatorNew()
    case Quoted(x) => Build(x).AsText()
  }

  function Text(e: Expr): seq<Token> {
    Build(e).txt
  }

  function Precedence(e: Expr): nat {
    Build(e).precedence
  }

  /** An operand as it is printed under a minimum precedence. */
  function Operand(e: Expr, level: nat): seq<Token> {
    Build(e).Format(level)
  }

  // ---- A parser with the stated precedences and left association ----

  datatype Parse = Fail | Parsed(tree: Expr, rest: seq<Token>)

  /** Unary minus and `new` are read at the lowest level, as the printer classifies them, or as
      prefix operators that bind tightly. The text is the same for both readers. */
  datatype Reader = Loose | Tight

  function ParseExpr(r: Reader, ts: seq<Token>): (p: Parse)
    ensures p.Parsed? ==> |p.rest| < |ts|
    decreases |ts|, 6
  {
    if r.Loose? && ts != [] && ts[0] == Minus then
      var p := ParseExpr(r, ts[1..]);
      if p.Fail? then Fail else Parsed(Neg(p.tree), p.rest)
    else if r.Loose? && ts != [] && ts[0] == NewKeyword then
      var p := ParseExpr(r, ts[1..]);
      if p.Fail? then Fail else Parsed(New(p.tree), p.rest)
    else ParseSum(r, ts)
  }

  function ParseSum(r: Reader, ts: seq<Token>): (p: Parse)
    ensures p.Parsed? ==> |p.rest| < |ts|
    decreases |ts|, 5
  {
    var p := ParseProduct(r, ts);
    if p.Fail? then Fail else SumRest(r, p.tree, p.rest)
  }

  function SumRest(r: Reader, left: Expr, ts: seq<Token>): (p: Parse)
    ensures p.Parsed? ==> |p.rest| <= |ts|
    decreases |ts|, 0
  {
    if ts != [] && (ts[0] == Plus || ts[0] == Minus) then
      var p := ParseProduct(r, ts[1..]);
      if p.Fail? then Fail
      else SumRest(r, if ts[0] == Plus then Add(left, p.tree) else Sub(left, p.tree), p.rest)
    else Parsed(left, ts)
  }

  function ParseProduct(r: Reader, ts: seq<Token>): (p: Parse)
    ensures p.Parsed? ==> |p.rest| < |ts|
    decreases |ts|, 4
  {
    var p := ParsePower(r, ts);
    if p.Fail? then Fail else ProductRest(r, p.tree, p.rest)
  }

  function ProductRest(r: Reader, left: Expr, ts: seq<Token>): (p: Parse)
    ensures p.Parsed? ==> |p.rest| <= |ts|
    decreases |ts|, 0
  {
    if ts != [] && (ts[0] == Star || ts[0] == Slash) then
      var p := ParsePower(r, ts[1..]);
      if p.Fail? then Fail
      else ProductRest(r, if ts[0] == Star then Mul(left, p.tree) else Div(left, p.tree), p.rest)
    else Parsed(left, ts)
  }

  function ParsePower(r: Reader, ts: seq<Token>): (p: Parse)
    ensures p.Parsed? ==> |p.rest| < |ts|
    decreases |ts|, 3
  {
    var p := ParsePrefix(r, ts);
    if p.Fail? then Fail else PowerRest(r, p.tree, p.rest)
  }

  function PowerRest(r: Reader, left: Expr, ts: seq<Token>): (p: Parse)
    ensures p.Parsed? ==> |p.rest| <= |ts|
    decreases |ts|, 0
  {
    if ts != [] && (ts[0] == Caret || ts[0] == StarStar) then
      var p := ParsePrefix(r, ts[1..]);
      if p.Fail? then Fail
      else PowerRest(r, if ts[0] == Caret then Pow(left, p.tree) else DoubleStarPow(left, p.tree), p.rest)
    else Parsed(left, ts)
  }

  function ParsePrefix(r: Reader, ts: seq<Token>): (p: Parse)
    ensures p.Parsed? ==> |p.rest| < |ts|
    decreases |ts|, 2
  {
    if ts == [] then Fail
    else if ts[0] == Ampersand || (r.Tight? && (ts[0] == Minus || ts[0] == NewKeyword)) then
      var p := ParsePrefix(r, ts[1..]);
      if p.Fail? then Fail
      else Parsed(if ts[0] == Ampersand then AddressOf(p.tree) else if ts[0] == Minus then Neg(p.tree)
                  else New(p.tree), p.rest)
    else ParsePrimary(r, ts)
  }

  function ParsePrimary(r: Reader, ts: seq<Token>): (p: Parse)
    ensures p.Parsed? ==> |p.rest| < |ts|
    decreases |ts|, 1
  {
    if ts == [] then Fail
    else if ts[0].Name? then Parsed(Atom(ts[0].text), ts[1..])
    else if ts[0] == LeftParen then
      var p := ParseExpr(r, ts[1..]);
      if p.Parsed? && p.rest != [] && p.rest[0] == RightParen then Parsed(p.tree, p.rest[1..]) else Fail
    else Fail
  }

  /** Reading a whole text. */
  function ReadText(r: Reader, ts: seq<Token>): Option<Expr> {
    var p := ParseExpr(r, ts);
    if p.Parsed? && p.rest == [] then Some(p.tree) else None
  }

  // ---- The tree that is read back ----

  /** The tree of the printed text: left association regroups what was printed without parentheses. */
  function Reading(e: Expr): Expr
    decreases e, 1
  {
    match e
    case Atom(_) => e
    case Add(x, y) => Chain(Reading(x), y)
    case Sub(x, y) => Sub(Reading(x), Reading(y))
    case Mul(x, y) => ProductChain(Reading(x), y)
    case Div(x, y) => Div(Reading(x), Reading(y))
    case Pow(x, y) => Pow(Reading(x), Reading(y))
    case DoubleStarPow(x, y) => DoubleStarPow(Reading(x), Reading(y))
    case Neg(x) => Neg(Reading(x))
    case AddressOf(x) => AddressOf(Reading(x))
    case New(x) => New(Reading(x))
    case Quoted(x) => Reading(x)
  }

  /** `acc + {e:PLUS}`: the terms of an unparenthesised sum are added one by one. */
  function Chain(acc: Expr, e: Expr): Expr
    decreases e, 2
  {
    match e
    case Add(x, y) => Chain(Chain(acc, x), y)
    case Sub(x, y) => Sub(Chain(acc, x), Reading(y))
    case _ => Add(acc, Reading(e))
  }

  /** `acc * {e:MUL}`. */
  function ProductChain(acc: Expr, e: Expr): Expr
    decreases e, 2
  {
    match e
    case Mul(x, y) => ProductChain(ProductChain(acc, x), y)
    case Div(x, y) => Div(ProductChain(acc, x), Reading(y))
    case _ => Mul(acc, Reading(e))
  }

  // ---- Values ----

  /** Division by numbers other than zero. */
  type Division = (real, real) -> real

  /** The meaning of atoms, division, powers and the address operators is arbitrary; only sums and
      products are fixed. Undefined results are None. */
  datatype Meaning = Meaning(
    atom: string -> real, div: Division, pow: (real, real) -> Option<real>, addressOf: real -> Option<real>,
        new_: real -> Option<real>)

  function Times(x: real, y: real): real {
    x * y
  }

  /** A product may be drawn into the dividend. */
  ghost predicate Associates(div: Division) {
    forall x, y, z :: z != 0.0 ==> Times(x, div(y, z)) == div(Times(x, y), z)
  }

  function AddV(a: Option<real>, b: Option<real>): Option<real> {
    if a.Some? && b.Some? then Some(a.value + b.value) else None
  }

  function SubV(a: Option<real>, b: Option<real>): Option<real> {
    if a.Some? && b.Some? then Some(a.value - b.value) else None
  }

  function MulV(a: Option<real>, b: Option<real>): Option<real> {
    if a.Some? && b.Some? then Some(Times(a.value, b.value)) else None
  }

  /** Division, undefined on zero. */
  function DivV(div: Division, a: Option<real>, b: Option<real>): Option<real> {
    if a.Some? && b.Some? && b.value != 0.0 then Some(div(a.value, b.value)) else None
  }

  function PowV(m: Meaning, a: Option<real>, b: Option<real>): Option<real> {
    if a.Some? && b.Some? then m.pow(a.value, b.value) else None
  }

  function Value(m: Meaning, e: Expr): Option<real> {
    match e
    case Atom(name) => Some(m.atom(name))
    case Add(x, y) => AddV(Value(m, x), Value(m, y))
    case Sub(x, y) => SubV(Value(m, x), Value(m, y))
    case Mul(x, y) => MulV(Value(m, x), Value(m, y))
    case Div(x, y) => DivV(m.div, Value(m, x), Value(m, y))
    case Pow(x, y) => PowV(m, Value(m, x), Value(m, y))
    case DoubleStarPow(x, y) => PowV(m, Value(m, x), Value(m, y))
    case Neg(x) => SubV(Some(0.0), Value(m, x))
    case AddressOf(x) => if Value(m, x).Some? then m.addressOf(Value(m, x).value) else None
    case New(x) => if Value(m, x).Some? then m.new_(Value(m, x).value) else None
    case Quoted(x) => Value(m, x)
  }

  lemma {:induction false} TimesTimes(x: real, y: real, z: real)
    ensures Times(x, Times(y, z)) == Times(Times(x, y), z)
  {
  }

  lemma {:induction false} MulAssociates(a: Option<real>, b: Option<real>, c: Option<real>)
    ensures MulV(a, MulV(b, c)) == MulV(MulV(a, b), c)
  {
    hide Times;
    if a.Some? && b.Some? && c.Some? { TimesTimes(a.value, b.value, c.value); }
  }

  lemma {:induction false} DivAssociates(div: Division, a: Option<real>, b: Option<real>, c: Option<real>)
    requires Associates(div)
    ensures MulV(a, DivV(div, b, c)) == DivV(div, MulV(a, b), c)
  {
    hide Times;
    if a.Some? && b.Some? && c.Some? && c.value != 0.0 {
      assert Times(a.value, div(b.value, c.value)) == div(Times(a.value, b.value), c.value);
    }
  }

  lemma {:induction false} AddAssociates(a: Option<real>, b: Option<real>, c: Option<real>)
    ensures AddV(a, AddV(b, c)) == AddV(AddV(a, b), c)
    ensures AddV(a, SubV(b, c)) == SubV(AddV(a, b), c)
  {
  }

  /** The values of the four arithmetic nodes. */
  lemma {:induction false} NodeValues(m: Meaning, x: Expr, y: Expr)
    ensures Value(m, Add(x, y)) == AddV(Value(m, x), Value(m, y))
            && Value(m, Sub(x, y)) == SubV(Value(m, x), Value(m, y))
    ensures Value(m, Mul(x, y)) == MulV(Value(m, x), Value(m, y))
            && Value(m, Div(x, y)) == DivV(m.div, Value(m, x), Value(m, y))
  {
  }

  /** Regrouping keeps the value. */
  lemma {:induction false} ChainValue(m: Meaning, acc: Expr, e: Expr)
    requires Associates(m.div)
    ensures Value(m, Chain(acc, e)) == AddV(Value(m, acc), Value(m, e))
    decreases e, 2
  {
    hide AddV, SubV, Value, Reading, Associates;
    if e.Add? {
      ChainValue(m, acc, e.left);
      ChainValue(m, Chain(acc, e.left), e.right);
      NodeValues(m, e.left, e.right);
      AddAssociates(Value(m, acc), Value(m, e.left), Value(m, e.right));
    } else if e.Sub? {
      ChainValue(m, acc, e.left);
      ReadingValue(m, e.right);
      NodeValues(m, Chain(acc, e.left), Reading(e.right));
      NodeValues(m, e.left, e.right);
      AddAssociates(Value(m, acc), Value(m, e.left), Value(m, e.right));
    } else {
      ReadingValue(m, e);
      NodeValues(m, acc, Reading(e));
    }
  }

  lemma {:induction false} ProductChainValue(m: Meaning, acc: Expr, e: Expr)
    requires Associates(m.div)
    ensures Value(m, ProductChain(acc, e)) == MulV(Value(m, acc), Value(m, e))
    decreases e, 2
  {
    hide MulV, DivV, Value, Reading, Associates;
    if e.Mul? {
      ProductChainValue(m, acc, e.left);
      ProductChainValue(m, ProductChain(acc, e.left), e.right);
      NodeValues(m, e.left, e.right);
      MulAssociates(Value(m, acc), Value(m, e.left), Value(m, e.right));
    } else if e.Div? {
      ProductChainValue(m, acc, e.left);
      ReadingValue(m, e.right);
      NodeValues(m, ProductChain(acc, e.left), Reading(e.right));
      NodeValues(m, e.left, e.right);
      DivAssociates(m.div, Value(m, acc), Value(m, e.left), Value(m, e.right));
    } else {
      ReadingValue(m, e);
      NodeValues(m, acc, Reading(e));
    }
  }

  lemma {:induction false} ReadingValue(m: Meaning, e: Expr)
    requires Associates(m.div)
    ensures Value(m, Reading(e)) == Value(m, e)
    decreases e, 1
  {
    match e
    case Atom(_) =>
    case Add(x, y) => ReadingValue(m, x); ChainValue(m, Reading(x), y);
    case Mul(x, y) => ReadingValue(m, x); ProductChainValue(m, Reading(x), y);
    case Sub(x, y) => ReadingValue(m, x); ReadingValue(m, y);
    case Div(x, y) => ReadingValue(m, x); ReadingValue(m, y);
    case Pow(x, y) => ReadingValue(m, x); ReadingValue(m, y);
    case DoubleStarPow(x, y) => ReadingValue(m, x); ReadingValue(m, y);
    case Neg(x) => ReadingValue(m, x);
    case AddressOf(x) => ReadingValue(m, x);
    case New(x) => ReadingValue(m, x);
    case Quoted(x) => ReadingValue(m, x);
  }

  // ---- Parsing a printed text ----

  /** What may follow a text of each level without being drawn into it. */
  predicate NoPower(rest: seq<Token>) {
    rest == [] || (rest[0] != Caret && rest[0] != StarStar)
  }

  predicate NoProduct(rest: seq<Token>) {
    NoPower(rest) && (rest == [] || (rest[0] != Star && rest[0] != Slash))
  }

  predicate NoSum(rest: seq<Token>) {
    NoProduct(rest) && (rest == [] || (rest[0] != Plus && rest[0] != Minus))
  }

  lemma {:induction false} FirstToken(t: Token, mid: seq<Token>, rest: seq<Token>)
    ensures ([t] + mid + rest)[0] == t && ([t] + mid + rest)[1..] == mid + rest
  {
  }

  /** A parenthesised text is one primary. */
  lemma {:induction false} ParenParses(r: Reader, e: Expr, rest: seq<Token>)
    ensures ParsePrefix(r, [LeftParen] + Text(e) + [RightParen] + rest) == Parsed(Reading(e), rest)
    decreases e, 10
  {
    hide ParseExpr, Reading, Text;
    var ts := [LeftParen] + Text(e) + [RightParen] + rest;
    var inner := [RightParen] + rest;
    assert ts == [LeftParen] + Text(e) + inner;
    FirstToken(LeftParen, Text(e), inner);
    WholeParses(r, e, inner);
    assert inner[1..] == rest;
    assert ParsePrimary(r, ts) == Parsed(Reading(e), rest);
  }

  /** An operand of the highest level or of an address operator. */
  lemma {:induction false} PrefixOperandParses(r: Reader, e: Expr, level: nat, rest: seq<Token>)
    requires level == ADDROF || level == HIGHEST
    ensures ParsePrefix(r, Operand(e, level) + rest) == Parsed(Reading(e), rest)
    decreases e, 11
  {
    hide ParsePrefix, Reading, Build;
    if Precedence(e) < level {
      ParenParses(r, e, rest);
    } else {
      PrefixParses(r, e, rest);
    }
  }

  lemma {:induction false} PrefixParses(r: Reader, e: Expr, rest: seq<Token>)
    requires Precedence(e) >= ADDROF
    ensures ParsePrefix(r, Text(e) + rest) == Parsed(Reading(e), rest)
    decreases e, 3
  {
    if e.Atom? {
      assert (Text(e) + rest)[0] == Name(e.name) && (Text(e) + rest)[1..] == rest;
    } else {
      FirstToken(Ampersand, Operand(e.operand, ADDROF), rest);
      PrefixOperandParses(r, e.operand, ADDROF, rest);
    }
  }

  // ---- One step of each operator loop ----

  lemma {:induction false} PowerRestStep(r: Reader, acc: Expr, t: Token, operand: seq<Token>, tree: Expr,
                                         rest: seq<Token>)
    requires (t == Caret || t == StarStar) && NoPower(rest) && ParsePrefix(r, operand + rest) == Parsed(tree, rest)
    ensures PowerRest(r, acc, [t] + operand + rest)
            == Parsed(if t == Caret then Pow(acc, tree) else DoubleStarPow(acc, tree), rest)
  {
    hide ParsePrefix;
    FirstToken(t, operand, rest);
    PowerRestStops(r, if t == Caret then Pow(acc, tree) else DoubleStarPow(acc, tree), rest);
  }

  lemma {:induction false} PowerRestStops(r: Reader, acc: Expr, rest: seq<Token>)
    requires NoPower(rest)
    ensures PowerRest(r, acc, rest) == Parsed(acc, rest)
  {
  }

  lemma {:induction false} ProductRestStep(r: Reader, acc: Expr, t: Token, operand: seq<Token>, tree: Expr,
                                           rest: seq<Token>)
    requires (t == Star || t == Slash) && ParsePower(r, operand + rest) == Parsed(tree, rest)
    ensures ProductRest(r, acc, [t] + operand + rest)
            == ProductRest(r, if t == Star then Mul(acc, tree) else Div(acc, tree), rest)
  {
    hide ParsePower;
    FirstToken(t, operand, rest);
  }

  /** A term of a sum: a product that ends before `rest`. */
  lemma {:induction false} SumRestStep(r: Reader, acc: Expr, t: Token, operand: seq<Token>, tree: Expr,
                                       rest: seq<Token>)
    requires (t == Plus || t == Minus) && NoProduct(rest)
    requires ParseProduct(r, operand + rest) == ProductRest(r, tree, rest)
    ensures SumRest(r, acc, [t] + operand + rest)
            == SumRest(r, if t == Plus then Add(acc, tree) else Sub(acc, tree), rest)
  {
    hide ParseProduct;
    FirstToken(t, operand, rest);
    assert ProductRest(r, tree, rest) == Parsed(tree, rest);
  }

  // ---- Each level ----

  lemma {:induction false} PowerOperandParses(r: Reader, e: Expr, rest: seq<Token>)
    requires NoPower(rest)
    ensures ParsePower(r, Operand(e, POW) + rest) == Parsed(Reading(e), rest)
    decreases e, 11
  {
    hide ParsePrefix, PowerRest, Reading, Build;
    if Precedence(e) < POW {
      ParenParses(r, e, rest);
      PowerRestStops(r, Reading(e), rest);
    } else {
      PowerParses(r, e, rest);
    }
  }

  lemma {:induction false} BinaryText(left: seq<Token>, t: Token, right: seq<Token>, rest: seq<Token>)
    ensures left + [t] + right + rest == left + ([t] + right + rest)
    ensures ([t] + right + rest)[0] == t && ([t] + right + rest)[1..] == right + rest
  {
  }

  lemma {:induction false} PowerParses(r: Reader, e: Expr, rest: seq<Token>)
    requires Precedence(e) >= POW && NoPower(rest)
    ensures ParsePower(r, Text(e) + rest) == Parsed(Reading(e), rest)
    decreases e, 4
  {
    hide ParsePrefix, PowerRest;
    if e.Pow? || e.DoubleStarPow? {
      var t := if e.Pow? then Caret else StarStar;
      var right := Operand(e.right, HIGHEST);
      BinaryText(Operand(e.left, HIGHEST), t, right, rest);
      PrefixOperandParses(r, e.left, HIGHEST, [t] + right + rest);
      PrefixOperandParses(r, e.right, HIGHEST, rest);
      PowerRestStep(r, Reading(e.left), t, right, Reading(e.right), rest);
    } else {
      PrefixParses(r, e, rest);
      PowerRestStops(r, Reading(e), rest);
    }
  }

  /** A product text, followed by anything but a power operator, is read up to its end. */
  lemma {:induction false} ProductParses(r: Reader, e: Expr, rest: seq<Token>)
    requires Precedence(e) >= MUL && NoPower(rest)
    ensures ParseProduct(r, Text(e) + rest) == ProductRest(r, Reading(e), rest)
    decreases e, 5
  {
    hide ProductRest, ParsePower;
    if e.Mul? {
      hide ParseProduct;
      var right := Operand(e.right, MUL);
      BinaryText(Operand(e.left, MUL), Star, right, rest);
      ProductOperandParses(r, e.left, [Star] + right + rest);
      FactorsParse(r, Reading(e.left), e.right, rest);
    } else if e.Div? {
      hide ParseProduct;
      var right := Operand(e.right, POW);
      BinaryText(Operand(e.left, MUL), Slash, right, rest);
      ProductOperandParses(r, e.left, [Slash] + right + rest);
      PowerOperandParses(r, e.right, rest);
      ProductRestStep(r, Reading(e.left), Slash, right, Reading(e.right), rest);
    } else {
      PowerParses(r, e, rest);
    }
  }

  lemma {:induction false} ProductOperandParses(r: Reader, e: Expr, rest: seq<Token>)
    requires NoPower(rest)
    ensures ParseProduct(r, Operand(e, MUL) + rest) == ProductRest(r, Reading(e), rest)
    decreases e, 12
  {
    hide ParsePower, ProductRest, Reading, Build;
    if Precedence(e) < MUL {
      PowerOperandParses(r, e, rest);
    } else {
      ProductParses(r, e, rest);
    }
  }

  /** After `acc *`, the factors of an operand are taken one by one. */
  lemma {:induction false} FactorsParse(r: Reader, acc: Expr, e: Expr, rest: seq<Token>)
    requires NoPower(rest)
    ensures ProductRest(r, acc, [Star] + Operand(e, MUL) + rest) == ProductRest(r, ProductChain(acc, e), rest)
    decreases e, 12
  {
    hide ProductRest, ParsePower, Reading;
    if e.Mul? {
      var right := Operand(e.right, MUL);
      assert [Star] + Operand(e, MUL) + rest == [Star] + Operand(e.left, MUL) + ([Star] + right + rest);
      FactorsParse(r, acc, e.left, [Star] + right + rest);
      FactorsParse(r, ProductChain(acc, e.left), e.right, rest);
    } else if e.Div? {
      var right := Operand(e.right, POW);
      assert [Star] + Operand(e, MUL) + rest == [Star] + Operand(e.left, MUL) + ([Slash] + right + rest);
      FactorsParse(r, acc, e.left, [Slash] + right + rest);
      PowerOperandParses(r, e.right, rest);
      ProductRestStep(r, ProductChain(acc, e.left), Slash, right, Reading(e.right), rest);
    } else {
      PowerOperandParses(r, e, rest);
      assert Operand(e, MUL) == Operand(e, POW);
      ProductRestStep(r, acc, Star, Operand(e, MUL), Reading(e), rest);
    }
  }

  lemma {:induction false} SumParses(r: Reader, e: Expr, rest: seq<Token>)
    requires Precedence(e) >= PLUS && NoProduct(rest)
    ensures ParseSum(r, Text(e) + rest) == SumRest(r, Reading(e), rest)
    decreases e, 6
  {
    hide SumRest, ParseProduct;
    if e.Add? {
      hide ParseSum;
      var right := Operand(e.right, PLUS);
      BinaryText(Operand(e.left, PLUS), Plus, right, rest);
      SumOperandParses(r, e.left, [Plus] + right + rest);
      TermsParse(r, Reading(e.left), e.right, rest);
    } else if e.Sub? {
      hide ParseSum;
      var right := Operand(e.right, MUL);
      BinaryText(Operand(e.left, PLUS), Minus, right, rest);
      SumOperandParses(r, e.left, [Minus] + right + rest);
      ProductOperandParses(r, e.right, rest);
      SumRestStep(r, Reading(e.left), Minus, right, Reading(e.right), rest);
    } else {
      ProductParses(r, e, rest);
      ProductRestStops(r, Reading(e), rest);
    }
  }

  lemma {:induction false} ProductRestStops(r: Reader, acc: Expr, rest: seq<Token>)
    requires NoProduct(rest)
    ensures ProductRest(r, acc, rest) == Parsed(acc, rest)
  {
  }

  lemma {:induction false} SumOperandParses(r: Reader, e: Expr, rest: seq<Token>)
    requires NoProduct(rest)
    ensures ParseSum(r, Operand(e, PLUS) + rest) == SumRest(r, Reading(e), rest)
    decreases e, 13
  {
    hide ParseProduct, SumRest, ProductRest, Reading, Build;
    if Precedence(e) < PLUS {
      ProductOperandParses(r, e, rest);
      ProductRestStops(r, Reading(e), rest);
    } else {
      SumParses(r, e, rest);
    }
  }

  /** After `acc +`, the terms of an operand are taken one by one. */
  lemma {:induction false} TermsParse(r: Reader, acc: Expr, e: Expr, rest: seq<Token>)
    requires NoProduct(rest)
    ensures SumRest(r, acc, [Plus] + Operand(e, PLUS) + rest) == SumRest(r, Chain(acc, e), rest)
    decreases e, 13
  {
    hide SumRest, ParseProduct, ProductRest, Reading;
    if e.Add? {
      var right := Operand(e.right, PLUS);
      assert [Plus] + Operand(e, PLUS) + rest == [Plus] + Operand(e.left, PLUS) + ([Plus] + right + rest);
      TermsParse(r, acc, e.left, [Plus] + right + rest);
      TermsParse(r, Chain(acc, e.left), e.right, rest);
    } else if e.Sub? {
      var right := Operand(e.right, MUL);
      assert [Plus] + Operand(e, PLUS) + rest == [Plus] + Operand(e.left, PLUS) + ([Minus] + right + rest);
      TermsParse(r, acc, e.left, [Minus] + right + rest);
      ProductOperandParses(r, e.right, rest);
      SumRestStep(r, Chain(acc, e.left), Minus, right, Reading(e.right), rest);
    } else {
      ProductOperandParses(r, e, rest);
      assert Operand(e, PLUS) == Operand(e, MUL);
      SumRestStep(r, acc, Plus, Operand(e, PLUS), Reading(e), rest);
    }
  }

  /** The first token of a text tells unary operators from everything else. */
  lemma {:induction false} TextStart(e: Expr)
    ensures Text(e) != []
    ensures Precedence(e) >= PLUS ==> Text(e)[0] != Minus && Text(e)[0] != NewKeyword
  {
    match e
    case Atom(_) =>
    case Add(x, _) => TextStart(x);
    case Sub(x, _) => TextStart(x);
    case Mul(x, _) => TextStart(x);
    case Div(x, _) => TextStart(x);
    case Pow(x, _) => TextStart(x);
    case DoubleStarPow(x, _) => TextStart(x);
    case Neg(_) =>
    case AddressOf(_) =>
    case New(_) =>
    case Quoted(x) => TextStart(x);
  }

  /** A whole text, at its end or before a closing parenthesis. */
  lemma {:induction false} WholeParses(r: Reader, e: Expr, rest: seq<Token>)
    requires NoSum(rest)
    ensures ParseExpr(r, Text(e) + rest) == Parsed(Reading(e), rest)
    decreases e, 7
  {
    if e.Quoted? {
      WholeParses(r, e.operand, rest);
    } else if e.Neg? || e.New? {
      UnaryParses(r, e, rest);
    } else {
      TextStart(e);
      assert (Text(e) + rest)[0] == Text(e)[0];
      SumParses(r, e, rest);
    }
  }

  /** A prefix expression that nothing continues is a whole sum. */
  lemma {:induction false} PrefixIsSum(r: Reader, ts: seq<Token>, tree: Expr, rest: seq<Token>)
    requires ParsePrefix(r, ts) == Parsed(tree, rest) && NoSum(rest)
    ensures ParseSum(r, ts) == Parsed(tree, rest)
  {
    hide ParsePrefix;
    PowerRestStops(r, tree, rest);
    ProductRestStops(r, tree, rest);
    assert ParsePower(r, ts) == Parsed(tree, rest);
    assert ParseProduct(r, ts) == Parsed(tree, rest);
    assert SumRest(r, tree, rest) == Parsed(tree, rest);
  }

  lemma {:induction false} UnaryParses(r: Reader, e: Expr, rest: seq<Token>)
    requires NoSum(rest) && (e.Neg? || e.New?)
    ensures ParseExpr(r, Text(e) + rest) == Parsed(Reading(e), rest)
    decreases e, 6
  {
    hide ParseSum, ParsePrimary;
    var x := e.operand;
    var t := if e.Neg? then Minus else NewKeyword;
    var operand := Operand(x, ADDROF) + rest;
    FirstToken(t, Operand(x, ADDROF), rest);
    PrefixOperandParses(r, x, ADDROF, rest);
    if r.Loose? {
      TextStart(x);
      assert operand[0] != Minus && operand[0] != NewKeyword;
      PrefixIsSum(r, operand, Reading(x), rest);
      assert ParseExpr(r, operand) == Parsed(Reading(x), rest);
    } else {
      PrefixIsSum(r, Text(e) + rest, Reading(e), rest);
    }
  }

  /** Printing with dropped parentheses preserves meaning: for every expression, either reader reads
      the printed text to a tree with the same value, whenever a product may be drawn into a dividend. */
  lemma {:induction false} PrintingPreservesValue(r: Reader, m: Meaning, e: Expr)
    requires Associates(m.div)
    ensures ReadText(r, Text(e)).Some?
    ensures Value(m, ReadText(r, Text(e)).value) == Value(m, e)
  {
    assert Text(e) + [] == Text(e);
    WholeParses(r, e, []);
    ReadingValue(m, e);
  }

  /** Exact division is such a division. */
  lemma {:induction false} ExactDivisionAssociates(div: Division)
    requires forall x, y :: y != 0.0 ==> div(x, y) == x / y
    ensures Associates(div)
  {
    forall x, y, z | z != 0.0
      ensures Times(x, div(y, z)) == div(Times(x, y), z)
    {
      var q := y / z;
      assert (x * q) * z == x * (q * z) == x * y;
    }
  }

  /** a * (b / c) is printed flat and read as (a * b) / c. */
  function FlatProduct(a: string, b: string, c: string): Expr {
    Mul(Atom(a), Div(Atom(b), Atom(c)))
  }

  lemma {:induction false} FlatPrintingRegroups(r: Reader, a: string, b: string, c: string)
    ensures Text(FlatProduct(a, b, c)) == [Name(a), Star, Name(b), Slash, Name(c)]
    ensures ReadText(r, Text(FlatProduct(a, b, c))) == Some(Div(Mul(Atom(a), Atom(b)), Atom(c)))
  {
    var quotient := Div(Atom(b), Atom(c));
    var e := FlatProduct(a, b, c);
    assert Text(quotient) == [Name(b)] + [Slash]
           + [Name(c)] by { assert Operand(Atom(b), MUL) == [Name(b)] && Operand(Atom(c), POW) == [Name(c)]; }
    assert Text(e) == [Name(a)] + [Star] + Text(quotient) by { assert Operand(Atom(a), MUL) == [Name(a)]; }
    assert Text(e) + [] == Text(e);
    WholeParses(r, e, []);
    assert ProductChain(Atom(a), Atom(b)) == Mul(Atom(a), Atom(b));
    assert Reading(e) == ProductChain(Atom(a), quotient) == Div(Mul(Atom(a), Atom(b)), Atom(c));
  }

  /** Atoms x, y and z under a division. */
  function MeaningOf(div: Division, x: real, y: real, z: real): Meaning {
    Meaning(name => if name == "x" then x else if name == "y" then y else z, div, (_, _) => None, _ => None, _ => None)
  }

  /** Which divisions the printer is safe for: printing keeps the value of every expression, under every
      meaning of the other symbols, if and only if a product may be drawn into a dividend. */
  lemma {:induction false} DivisionCondition(r: Reader, div: Division)
    ensures (forall m: Meaning, e: Expr :: m.div == div ==> PrintsSafely(r, m, e)) <==> Associates(div)
  {
    hide ReadText, Text, Value;
    if Associates(div) {
      forall m: Meaning, e: Expr | m.div == div
        ensures PrintsSafely(r, m, e)
      {
        PrintingPreservesValue(r, m, e);
      }
    }
    if forall m: Meaning, e: Expr :: m.div == div ==> PrintsSafely(r, m, e) {
      forall x, y, z | z != 0.0
        ensures Times(x, div(y, z)) == div(Times(x, y), z)
      {
        assert PrintsSafely(r, MeaningOf(div, x, y, z), FlatProduct("x", "y", "z"));
        FlatValues(r, div, x, y, z);
      }
    }
  }

  ghost predicate PrintsSafely(r: Reader, m: Meaning, e: Expr) {
    ReadText(r, Text(e)).Some? && Value(m, ReadText(r, Text(e)).value) == Value(m, e)
  }

  /** The two values of x * (y / z): as it was built, and as it is read back. */
  lemma {:induction false} FlatValues(r: Reader, div: Division, x: real, y: real, z: real)
    requires z != 0.0
    ensures var m, e := MeaningOf(div, x, y, z), FlatProduct("x", "y", "z");
      && Value(m, e) == Some(Times(x, div(y, z)))
      && ReadText(r, Text(e)).Some? && Value(m, ReadText(r, Text(e)).value) == Some(div(Times(x, y), z))
  {
    var m := MeaningOf(div, x, y, z);
    FlatPrintingRegroups(r, "x", "y", "z");
    hide ReadText, Text;
    assert m.atom("x") == x && m.atom("y") == y && m.atom("z") == z;
    assert Value(m, Div(Atom("y"), Atom("z"))) == Some(div(y, z));
    assert Value(m, Mul(Atom("x"), Atom("y"))) == Some(Times(x, y));
  }

  function FloorDivision(x: real, y: real): real {
    if y == 0.0 then 0.0 else (x / y).Floor as real
  }

  /** Division rounded down is not safe: 2 * (1 / 2) has the value 0 and is read back as 1. */
  lemma {:induction false} FloorDivisionChangesValue(r: Reader)
    ensures var m, e := MeaningOf(FloorDivision, 2.0, 1.0, 2.0), FlatProduct("x", "y", "z");
      && Value(m, e) == Some(0.0)
      && ReadText(r, Text(e)).Some? && Value(m, ReadText(r, Text(e)).value) == Some(1.0)
      && !Associates(FloorDivision)
  {
    assert FloorDivision(1.0, 2.0) == 0.0 && FloorDivision(Times(2.0, 1.0), 2.0) == 1.0;
    FlatValues(r, FloorDivision, 2.0, 1.0, 2.0);
  }
}
