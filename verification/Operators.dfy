/** Operators: their table, expression trees, and the tokens an expression is printed as. */
module Operators {
  import opened Options

  datatype OprId = Plus | Add | Minus | Sub | Mul | Div | Mod | PreInc | Inc | PreDec | Dec | Exp
                 | EQ | NE | GT | LT | GE | LE | Band | Bor | Bxor | Bcomp | Shl | Shr | Zext | Land | Lor | Not
                 | Assign | AddAssign | SubAssign | MulAssign | DivAssign | ModAssign | ShlAssign | ShrAssign
                 | BandAssign | BorAssign | BxorAssign | ZextAssign | NullAssign | StEq | StNe | NullCoalesce
                 | Arrow | Diamond | ArrowFunction | NA

  // Precedence in bits 0 to 5; bit 6 is on for operators that group from right to left.
  function Code(k: OprId): (c: nat)
    ensures c < 0x80
  {
    match k
    case Assign | AddAssign | SubAssign | MulAssign | DivAssign | ModAssign | ShlAssign | ShrAssign | BandAssign | BorAssign | BxorAssign | ZextAssign | NullAssign => 0x43
    case NullCoalesce => 0x05
    case Lor => 0x06
    case Land => 0x07
    case Bor => 0x08
    case Bxor => 0x09
    case Band => 0x0a
    case EQ | NE | StEq | StNe => 0x0b
    case GT | LT | GE | LE => 0x0c
    case Shl | Shr | Zext => 0x0d
    case Add | Sub => 0x0e
    case Mul | Div | Mod => 0x0f
    case Exp => 0x50
    case Plus | Minus | PreInc | PreDec | Bcomp | Not => 0x51
    case Inc | Dec => 0x12
    case Arrow | Diamond | ArrowFunction | NA => 0x18
  }

  function Text(k: OprId): string {
    match k
    case Plus => "+"
    case Add => "+"
    case Minus => "-"
    case Sub => "-"
    case Mul => "*"
    case Div => "/"
    case Mod => "%"
    case PreInc => "++"
    case Inc => "++"
    case PreDec => "--"
    case Dec => "--"
    case Exp => "**"
    case EQ => "=="
    case NE => "!="
    case GT => ">"
    case LT => "<"
    case GE => ">="
    case LE => "<="
    case Band => "&"
    case Bor => "|"
    case Bxor => "^"
    case Bcomp => "~"
    case Shl => "<<"
    case Shr => ">>"
    case Zext => ">>>"
    case Land => "&&"
    case Lor => "||"
    case Not => "!"
    case Assign => "="
    case AddAssign => "+="
    case SubAssign => "-="
    case MulAssign => "*="
    case DivAssign => "/="
    case ModAssign => "%="
    case ShlAssign => "<<="
    case ShrAssign => ">>="
    case BandAssign => "&="
    case BorAssign => "|="
    case BxorAssign => "^="
    case ZextAssign => ">>>="
    case NullAssign => "??="
    case StEq => "==="
    case StNe => "!=="
    case NullCoalesce => "??"
    case Arrow => " OPR_Arrow"
    case Diamond => " OPR_Diamond"
    case ArrowFunction => " OPR_ArrowFunction"
    case NA => " OPR_NA"
  }

  // The string of an operator: its code in the first character, then its text.
  function GetEnumOprId(k: OprId): string {
    [Code(k) as char] + Text(k)
  }

  function Precd(k: OprId): nat {
    Code(k) % 0x40
  }

  predicate RlAssoc(k: OprId) {
    Code(k) / 0x40 == 1
  }

  const TERNARY: nat := 4
  const PARENTHESIS: nat := 21
  const ATOM: nat := 24

  predicate IsPrefix(k: OprId) {
    k in {Plus, Minus, PreInc, PreDec, Bcomp, Not}
  }

  predicate IsPostfix(k: OprId) {
    k in {Inc, Dec}
  }

  predicate IsAssign(k: OprId) {
    k in {Assign, AddAssign, SubAssign, MulAssign, DivAssign, ModAssign, ShlAssign, ShrAssign,
          BandAssign, BorAssign, BxorAssign, ZextAssign, NullAssign}
  }

  predicate IsInfix(k: OprId) {
    !IsPrefix(k) && !IsPostfix(k) && k !in {Arrow, Diamond, ArrowFunction, NA}
  }

  // What the table says of the levels.
  lemma UnaryLevels(k: OprId)
    requires IsPrefix(k) || IsPostfix(k)
    ensures IsPrefix(k) ==> Precd(k) == 17 && RlAssoc(k)
    ensures IsPostfix(k) ==> Precd(k) == 18 && !RlAssoc(k)
  {
  }

  lemma InfixLevels(k: OprId)
    requires IsInfix(k)
    ensures 3 <= Precd(k) <= 16 && Precd(k) != TERNARY && (RlAssoc(k) <==> Precd(k) in {3, 16})
  {
  }

  lemma InfixKinds(k: OprId)
    requires IsInfix(k)
    ensures (IsAssign(k) <==> Precd(k) == 3) && (k == Exp <==> Precd(k) == 16)
    ensures (k == NullCoalesce <==> Precd(k) == 5) && (k in {Land, Lor} <==> Precd(k) in {6, 7})
  {
  }

  // -------- Expressions

  datatype Tree = Leaf(id: nat) | Paren(e: Tree) | Una(op: OprId, isPost: bool, opnd: Tree)
                | Bin(op: OprId, a: Tree, b: Tree) | Ter(a: Tree, b: Tree, c: Tree)

  predicate WellFormed(t: Tree) {
    match t
    case Leaf(_) => true
    case Paren(e) => WellFormed(e)
    case Una(op, isPost, e) => (if isPost then IsPostfix(op) else IsPrefix(op)) && WellFormed(e)
    case Bin(op, a, b) => IsInfix(op) && WellFormed(a) && WellFormed(b)
    case Ter(a, b, c) => WellFormed(a) && WellFormed(b) && WellFormed(c)
  }

  // Without the parentheses that are only written.
  function Strip(t: Tree): Tree {
    match t
    case Leaf(_) => t
    case Paren(e) => Strip(e)
    case Una(op, isPost, e) => Una(op, isPost, Strip(e))
    case Bin(op, a, b) => Bin(op, Strip(a), Strip(b))
    case Ter(a, b, c) => Ter(Strip(a), Strip(b), Strip(c))
  }

  function Level(t: Tree): nat {
    match t
    case Leaf(_) => ATOM
    case Paren(_) => PARENTHESIS
    case Una(op, _, _) => Precd(op)
    case Bin(op, _, _) => Precd(op)
    case Ter(_, _, _) => TERNARY
  }

  // -------- Tokens

  datatype Token = Atom(id: nat) | Sym(s: string) | LParen | RParen | Quest | Colon

  function Wrap(str: seq<Token>, parens: bool): seq<Token> {
    if parens then [LParen] + str + [RParen] else str
  }

  // Whether the operand of a unary operator is put in parentheses, and so on for the others.
  predicate UnaWraps(op: OprId, isPost: bool, lvl: nat) {
    Precd(op) > lvl || (Precd(op) == lvl && ((RlAssoc(op) && isPost) || (!RlAssoc(op) && !isPost)))
  }

  predicate LeftWraps(op: OprId, lvl: nat) {
    Precd(op) > lvl || (Precd(op) == lvl && RlAssoc(op))
  }

  predicate RightWraps(op: OprId, lvl: nat) {
    Precd(op) > lvl || (Precd(op) == lvl && !RlAssoc(op))
  }

  function Print(t: Tree): seq<Token> {
    match t
    case Leaf(id) => [Atom(id)]
    case Paren(e) => Wrap(Print(e), true)
    case Una(op, isPost, e) =>
      var opr := Wrap(Print(e), UnaWraps(op, isPost, Level(e)));
      if isPost then opr + [Sym(Text(op))] else [Sym(Text(op))] + opr
    case Bin(op, a, b) =>
      Wrap(Print(a), LeftWraps(op, Level(a))) + [Sym(Text(op))] + Wrap(Print(b), RightWraps(op, Level(b)))
    case Ter(a, b, c) =>
      Wrap(Print(a), TERNARY >= Level(a)) + [Quest] + Print(b) + [Colon] + Wrap(Print(c), TERNARY > Level(c))
  }
}
