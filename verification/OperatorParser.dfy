/** A parser for operator expressions: levels and grouping as in the operator table, and, if wanted,
    with the restrictions of sections 13.4 to 13.15 of ECMA-262 (12th edition). */
module OperatorParser {
  import opened Options
  import opened Operators

  // The table alone, or the table with the rules of ECMA-262: targets are atoms, an expression that
  // begins with a sign, `~` or `!` is no left operand of `**`, but one that begins with `++` or `--`
  // may be, `??` does not mix with `||` and `&&`, and the third operand of a conditional is an
  // assignment expression.
  datatype Grammar = Table | Ecma

  function PrefixOp(s: string): Option<OprId> {
    if |s| == 1 then
      if s[0] == '+' then Some(Plus) else if s[0] == '-' then Some(Minus)
      else if s[0] == '~' then Some(Bcomp) else if s[0] == '!' then Some(Not) else None
    else if |s| == 2 && s[0] == '+' && s[1] == '+' then Some(PreInc)
    else if |s| == 2 && s[0] == '-' && s[1] == '-' then Some(PreDec)
    else None
  }

  function PostfixOp(s: string): Option<OprId> {
    if |s| == 2 && s[0] == '+' && s[1] == '+' then Some(Inc)
    else if |s| == 2 && s[0] == '-' && s[1] == '-' then Some(Dec)
    else None
  }

  function InfixOp1(x: char): Option<OprId> {
    if x == '+' then Some(Add) else if x == '-' then Some(Sub) else if x == '*' then Some(Mul)
    else if x == '/' then Some(Div) else if x == '%' then Some(Mod) else if x == '>' then Some(GT)
    else if x == '<' then Some(LT) else if x == '&' then Some(Band) else if x == '|' then Some(Bor)
    else if x == '^' then Some(Bxor) else if x == '=' then Some(Assign) else None
  }

  function InfixOp2(x: char, y: char): Option<OprId> {
    if y == '=' then
      if x == '=' then Some(EQ) else if x == '!' then Some(NE) else if x == '>' then Some(GE) else if x == '<' then Some(LE)
      else if x == '+' then Some(AddAssign) else if x == '-' then Some(SubAssign) else if x == '*' then Some(MulAssign)
      else if x == '/' then Some(DivAssign) else if x == '%' then Some(ModAssign) else if x == '&' then Some(BandAssign)
      else if x == '|' then Some(BorAssign) else if x == '^' then Some(BxorAssign) else None
    else if x != y then None
    else if x == '*' then Some(Exp) else if x == '<' then Some(Shl) else if x == '>' then Some(Shr)
    else if x == '&' then Some(Land) else if x == '|' then Some(Lor) else if x == '?' then Some(NullCoalesce) else None
  }

  function InfixOp3(x: char, y: char, z: char): Option<OprId> {
    if x == '>' && y == '>' then (if z == '>' then Some(Zext) else if z == '=' then Some(ShrAssign) else None)
    else if z != '=' then None
    else if x == '=' && y == '=' then Some(StEq)
    else if x == '!' && y == '=' then Some(StNe)
    else if x == '<' && y == '<' then Some(ShlAssign)
    else if x == '?' && y == '?' then Some(NullAssign)
    else None
  }

  function InfixOp(s: string): Option<OprId> {
    if |s| == 1 then InfixOp1(s[0])
    else if |s| == 2 then InfixOp2(s[0], s[1])
    else if |s| == 3 then InfixOp3(s[0], s[1], s[2])
    else if |s| == 4 && s[0] == '>' && s[1] == '>' && s[2] == '>' && s[3] == '=' then Some(ZextAssign)
    else None
  }

  // In each position the text of an operator names that operator.
  lemma UnaryTexts(op: OprId)
    ensures IsPrefix(op) ==> PrefixOp(Text(op)) == Some(op)
    ensures IsPostfix(op) ==> PostfixOp(Text(op)) == Some(op)
  {
  }

  lemma InfixTexts(op: OprId)
    requires IsInfix(op)
    ensures InfixOp(Text(op)) == Some(op) && PostfixOp(Text(op)).None?
  {
  }

  // An expression, its level, and the tokens after it.
  datatype Phrase = Phrase(tree: Tree, lvl: nat, rest: seq<Token>)

  predicate PrefixNext(toks: seq<Token>) {
    toks != [] && toks[0].Sym? && PrefixOp(toks[0].s).Some?
  }

  predicate PostfixNext(toks: seq<Token>) {
    toks != [] && toks[0].Sym? && PostfixOp(toks[0].s).Some?
  }

  predicate InfixNext(toks: seq<Token>, min: nat) {
    toks != [] && toks[0].Sym? && InfixOp(toks[0].s).Some? && Precd(InfixOp(toks[0].s).value) >= min
  }

  predicate QuestNext(toks: seq<Token>, min: nat) {
    toks != [] && toks[0] == Quest && TERNARY >= min
  }

  // A unary expression that is no update expression (sections 13.4 to 13.6).
  predicate IsBareUnary(p: Phrase) {
    p.lvl == Precd(Not) && p.tree.Una? && p.tree.op in {Plus, Minus, Bcomp, Not}
  }

  // What ECMA-262 does not allow of the operands of an infix operator.
  predicate Refused(g: Grammar, op: OprId, left: Phrase, right: Phrase) {
    g.Ecma? && ((IsAssign(op) && !left.tree.Leaf?)
                || (op == Exp && IsBareUnary(left))
                || (op == NullCoalesce && (left.lvl in {Precd(Lor), Precd(Land)} || right.lvl in {Precd(Lor), Precd(Land)})))
  }

  predicate RefusedStep(g: Grammar, op: OprId, opnd: Tree) {
    g.Ecma? && op in {Inc, Dec, PreInc, PreDec} && !opnd.Leaf?
  }

  function Primary(g: Grammar, toks: seq<Token>): (r: Option<Phrase>)
    ensures r.Some? ==> |r.value.rest| < |toks|
    decreases |toks|, 0
  {
    if toks == [] then None
    else if toks[0].Atom? then Some(Phrase(Leaf(toks[0].id), ATOM, toks[1..]))
    else if toks[0] != LParen then None
    else
      match Expr(g, 0, toks[1..])
      case None => None
      case Some(p) =>
        if p.rest != [] && p.rest[0] == RParen then Some(Phrase(p.tree, PARENTHESIS, p.rest[1..])) else None
  }

  function Postfixes(g: Grammar, p: Phrase): (r: Option<Phrase>)
    ensures r.Some? ==> |r.value.rest| <= |p.rest|
    decreases |p.rest|, 0
  {
    if !PostfixNext(p.rest) then Some(p)
    else
      var op := PostfixOp(p.rest[0].s).value;
      if RefusedStep(g, op, p.tree) then None
      else Postfixes(g, Phrase(Una(op, true, p.tree), Precd(op), p.rest[1..]))
  }

  function Unary(g: Grammar, toks: seq<Token>): (r: Option<Phrase>)
    ensures r.Some? ==> |r.value.rest| < |toks|
    decreases |toks|, 1
  {
    if PrefixNext(toks) then
      var op := PrefixOp(toks[0].s).value;
      match Unary(g, toks[1..])
      case None => None
      case Some(p) => if RefusedStep(g, op, p.tree) then None else Some(Phrase(Una(op, false, p.tree), Precd(op), p.rest))
    else
      match Primary(g, toks)
      case None => None
      case Some(p) => Postfixes(g, p)
  }

  // Operators of level `min` and up that follow a phrase, from left to right.
  function Tail(g: Grammar, min: nat, p: Phrase): (r: Option<Phrase>)
    ensures r.Some? ==> |r.value.rest| <= |p.rest|
    decreases |p.rest|, 0
  {
    if InfixNext(p.rest, min) then
      var op := InfixOp(p.rest[0].s).value;
      match Expr(g, if RlAssoc(op) then Precd(op) else Precd(op) + 1, p.rest[1..])
      case None => None
      case Some(q) => if Refused(g, op, p, q) then None else Tail(g, min, Phrase(Bin(op, p.tree, q.tree), Precd(op), q.rest))
    else if QuestNext(p.rest, min) then
      match Expr(g, 0, p.rest[1..])
      case None => None
      case Some(q) =>
        if q.rest == [] || q.rest[0] != Colon then None
        else
          match Expr(g, if g.Ecma? then Precd(Assign) else TERNARY, q.rest[1..])
          case None => None
          case Some(r) => Tail(g, min, Phrase(Ter(p.tree, q.tree, r.tree), TERNARY, r.rest))
    else Some(p)
  }

  function Expr(g: Grammar, min: nat, toks: seq<Token>): (r: Option<Phrase>)
    ensures r.Some? ==> |r.value.rest| < |toks|
    decreases |toks|, 2
  {
    match Unary(g, toks)
    case None => None
    case Some(p) => Tail(g, min, p)
  }

  // All tokens are one expression.
  function Parse(g: Grammar, toks: seq<Token>): Option<Tree> {
    match Expr(g, 0, toks)
    case None => None
    case Some(p) => if p.rest == [] then Some(p.tree) else None
  }
}
