/** Operator expressions by the productions of sections 13.2 and 13.4 to 13.15 of ECMA-262 (12th edition):
    which tokens are a phrase of which kind, and what expression they are. */
module EcmaGrammar {
  import opened Options
  import opened Operators

  datatype Goal = Assignment | Conditional | ShortCircuit | Coalesce | CoalesceHead | LogicalOr | LogicalAnd
                | BitwiseOr | BitwiseXor | BitwiseAnd | Equality | Relational | Shift | Additive | Multiplicative
                | Exponentiation | UnaryExpr | Update | LeftHandSide

  // Operators by their punctuators.
  type Punctuators = set<(string, OprId)>

  const ASSIGNMENTS: Punctuators := {("=", Assign), ("*=", MulAssign), ("/=", DivAssign), ("%=", ModAssign),
    ("+=", AddAssign), ("-=", SubAssign), ("<<=", ShlAssign), (">>=", ShrAssign), (">>>=", ZextAssign),
    ("&=", BandAssign), ("^=", BxorAssign), ("|=", BorAssign), ("??=", NullAssign)}
  const EQUALITIES: Punctuators := {("==", EQ), ("!=", NE), ("===", StEq), ("!==", StNe)}
  const RELATIONS: Punctuators := {("<", LT), (">", GT), ("<=", LE), (">=", GE)}
  const SIGNS: Punctuators := {("+", Plus), ("-", Minus), ("~", Bcomp), ("!", Not)}
  const PREFIXES: Punctuators := {("++", PreInc), ("--", PreDec)}
  const POSTFIXES: Punctuators := {("++", Inc), ("--", Dec)}

  // Left operand, operator, right operand.
  datatype Production = Infix(left: Goal, ops: Punctuators, right: Goal)

  function InfixOf(n: Goal): Option<Production> {
    match n
    case Assignment => Some(Infix(LeftHandSide, ASSIGNMENTS, Assignment))
    case Coalesce => Some(Infix(CoalesceHead, {("??", NullCoalesce)}, BitwiseOr))
    case LogicalOr => Some(Infix(LogicalOr, {("||", Lor)}, LogicalAnd))
    case LogicalAnd => Some(Infix(LogicalAnd, {("&&", Land)}, BitwiseOr))
    case BitwiseOr => Some(Infix(BitwiseOr, {("|", Bor)}, BitwiseXor))
    case BitwiseXor => Some(Infix(BitwiseXor, {("^", Bxor)}, BitwiseAnd))
    case BitwiseAnd => Some(Infix(BitwiseAnd, {("&", Band)}, Equality))
    case Equality => Some(Infix(Equality, EQUALITIES, Relational))
    case Relational => Some(Infix(Relational, RELATIONS, Shift))
    case Shift => Some(Infix(Shift, {("<<", Shl), (">>", Shr), (">>>", Zext)}, Additive))
    case Additive => Some(Infix(Additive, {("+", Add), ("-", Sub)}, Multiplicative))
    case Multiplicative => Some(Infix(Multiplicative, {("*", Mul), ("/", Div), ("%", Mod)}, Exponentiation))
    case Exponentiation => Some(Infix(Update, {("**", Exp)}, Exponentiation))
    case _ => None
  }

  // The kinds whose phrases are phrases of this kind as they stand.
  function Units(n: Goal): (ms: set<Goal>)
    ensures forall m <- ms :: Rank(m) < Rank(n)
  {
    match n
    case Assignment => {Conditional}
    case Conditional => {ShortCircuit}
    case ShortCircuit => {LogicalOr, Coalesce}
    case Coalesce => {}
    case CoalesceHead => {Coalesce, BitwiseOr}
    case LogicalOr => {LogicalAnd}
    case LogicalAnd => {BitwiseOr}
    case BitwiseOr => {BitwiseXor}
    case BitwiseXor => {BitwiseAnd}
    case BitwiseAnd => {Equality}
    case Equality => {Relational}
    case Relational => {Shift}
    case Shift => {Additive}
    case Additive => {Multiplicative}
    case Multiplicative => {Exponentiation}
    case Exponentiation => {UnaryExpr}
    case UnaryExpr => {Update}
    case Update => {LeftHandSide}
    case LeftHandSide => {}
  }

  function Rank(n: Goal): nat {
    match n
    case Assignment => 19
    case Conditional => 18
    case ShortCircuit => 17
    case CoalesceHead => 16
    case Coalesce => 15
    case LogicalOr => 14
    case LogicalAnd => 13
    case BitwiseOr => 12
    case BitwiseXor => 11
    case BitwiseAnd => 10
    case Equality => 9
    case Relational => 8
    case Shift => 7
    case Additive => 6
    case Multiplicative => 5
    case Exponentiation => 4
    case UnaryExpr => 3
    case Update => 2
    case LeftHandSide => 1
  }

  predicate IsOp(tok: Token, op: OprId, ops: Punctuators) {
    tok.Sym? && (tok.s, op) in ops
  }

  // The tokens are a phrase of this kind, and the expression `t`.
  ghost predicate Reads(n: Goal, toks: seq<Token>, t: Tree)
    decreases |toks|, Rank(n)
  {
    || (exists m <- Units(n) :: Reads(m, toks, t))
    || (exists i: nat :: InfixedAt(n, toks, t, i))
    || (n == Conditional && exists i: nat, j: nat :: ChosenAt(toks, t, i, j))
    || (n == UnaryExpr && Prefixed(SIGNS, toks, t))
    || (n == Update && ((Prefixed(PREFIXES, toks, t) || Postfixed(toks, t)) && t.opnd.Leaf?))
    || (n == LeftHandSide && (Alone(toks, t) || Enclosed(toks, t)))
  }

  // An operator at position `i` between its operands. What is assigned to is an atom, in parentheses or not.
  ghost predicate InfixedAt(n: Goal, toks: seq<Token>, t: Tree, i: nat)
    decreases |toks|, 0
  {
    && InfixOf(n).Some? && t.Bin? && 0 < i < |toks| - 1
    && var Infix(left, ops, right) := InfixOf(n).value;
    && IsOp(toks[i], t.op, ops) && Reads(left, toks[..i], t.a) && Reads(right, toks[i + 1..], t.b)
    && (n == Assignment ==> t.a.Leaf?)
  }

  // A condition, a question mark at position `i` and a colon at position `j`.
  ghost predicate ChosenAt(toks: seq<Token>, t: Tree, i: nat, j: nat)
    decreases |toks|, 0
  {
    && t.Ter? && 0 < i < j < |toks| - 1 && toks[i] == Quest && toks[j] == Colon
    && Reads(ShortCircuit, toks[..i], t.a) && Reads(Assignment, toks[i + 1..j], t.b) && Reads(Assignment, toks[j + 1..], t.c)
  }

  ghost predicate Prefixed(ops: Punctuators, toks: seq<Token>, t: Tree)
    decreases |toks|, 0
  {
    t.Una? && !t.isPost && |toks| > 1 && IsOp(toks[0], t.op, ops) && Reads(UnaryExpr, toks[1..], t.opnd)
  }

  ghost predicate Postfixed(toks: seq<Token>, t: Tree)
    decreases |toks|, 0
  {
    && t.Una? && t.isPost && |toks| > 1
    && IsOp(toks[|toks| - 1], t.op, POSTFIXES) && Reads(LeftHandSide, toks[..|toks| - 1], t.opnd)
  }

  predicate Alone(toks: seq<Token>, t: Tree) {
    t.Leaf? && toks == [Atom(t.id)]
  }

  ghost predicate Enclosed(toks: seq<Token>, t: Tree)
    decreases |toks|, 0
  {
    |toks| > 2 && toks[0] == LParen && toks[|toks| - 1] == RParen && Reads(Assignment, toks[1..|toks| - 1], t)
  }
}
