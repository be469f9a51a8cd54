/** What is printed for an expression parses back to it: in the grammar of the operator table always,
    in that of ECMA-262 exactly when no operand breaks its rules. */
module OperatorRoundTrip {
  import opened Options
  import opened Operators
  import opened OperatorParser

  // Targets of assignments, increments and decrements are atoms, in parentheses or not.
  predicate AtomicTargets(t: Tree) {
    match t
    case Leaf(_) => true
    case Paren(e) => AtomicTargets(e)
    case Una(op, _, e) => AtomicTargets(e) && (op in {Inc, Dec, PreInc, PreDec} ==> Strip(e).Leaf?)
    case Bin(op, a, b) => AtomicTargets(a) && AtomicTargets(b) && (IsAssign(op) ==> Strip(a).Leaf?)
    case Ter(a, b, c) => AtomicTargets(a) && AtomicTargets(b) && AtomicTargets(c)
  }

  predicate IsUnaryPrefix(t: Tree) {
    t.Una? && !t.isPost
  }

  predicate IsLogical(t: Tree) {
    t.Bin? && t.op in {Land, Lor}
  }

  // A sign, `~` or `!` before its operand; `++` and `--` make an update expression.
  predicate IsSigned(t: Tree) {
    t.Una? && !t.isPost && t.op in {Plus, Minus, Bcomp, Not}
  }

  // No signed expression is the left operand of `**`, no logical one an operand of `??`, unless in parentheses.
  predicate Legal(t: Tree) {
    match t
    case Leaf(_) => true
    case Paren(e) => Legal(e)
    case Una(_, _, e) => Legal(e)
    case Bin(op, a, b) =>
      && Legal(a) && Legal(b)
      && !(op == Exp && IsSigned(a))
      && !(op == NullCoalesce && (IsLogical(a) || IsLogical(b)))
    case Ter(a, b, c) => Legal(a) && Legal(b) && Legal(c)
  }

  predicate Accepted(g: Grammar, t: Tree) {
    g.Ecma? ==> Legal(t)
  }

  // -------- The parentheses that are printed, as part of the tree

  function WrapTree(t: Tree, parens: bool): Tree {
    if parens then Paren(t) else t
  }

  function Full(t: Tree): Tree {
    match t
    case Leaf(_) => t
    case Paren(e) => Paren(Full(e))
    case Una(op, isPost, e) => Una(op, isPost, WrapTree(Full(e), UnaWraps(op, isPost, Level(e))))
    case Bin(op, a, b) => Bin(op, WrapTree(Full(a), LeftWraps(op, Level(a))), WrapTree(Full(b), RightWraps(op, Level(b))))
    case Ter(a, b, c) => Ter(WrapTree(Full(a), TERNARY >= Level(a)), Full(b), WrapTree(Full(c), TERNARY > Level(c)))
  }

  // The tokens of a tree that has its parentheses.
  function Written(t: Tree): seq<Token> {
    match t
    case Leaf(id) => [Atom(id)]
    case Paren(e) => [LParen] + Written(e) + [RParen]
    case Una(op, isPost, e) => if isPost then Written(e) + [Sym(Text(op))] else [Sym(Text(op))] + Written(e)
    case Bin(op, a, b) => Written(a) + [Sym(Text(op))] + Written(b)
    case Ter(a, b, c) => Written(a) + [Quest] + Written(b) + [Colon] + Written(c)
  }

  // The level from which on the right operand of an infix operator needs no parentheses, and so on.
  function RightLevel(op: OprId): nat {
    if RlAssoc(op) then Precd(op) else Precd(op) + 1
  }

  function LastLevel(g: Grammar): nat {
    if g.Ecma? then Precd(Assign) else TERNARY
  }

  // No operand needs more parentheses.
  predicate Fitted(g: Grammar, t: Tree) {
    match t
    case Leaf(_) => true
    case Paren(e) => Fitted(g, e)
    case Una(op, isPost, e) => Fitted(g, e) && Level(e) >= Precd(op)
    case Bin(op, a, b) =>
      && Fitted(g, a) && Fitted(g, b)
      && Level(a) >= Precd(op) && (RlAssoc(op) ==> Level(a) > Precd(op)) && Level(b) >= RightLevel(op)
    case Ter(a, b, c) => Fitted(g, a) && Fitted(g, b) && Fitted(g, c) && Level(a) > TERNARY && Level(c) >= LastLevel(g)
  }

  predicate InDomain(g: Grammar, t: Tree) {
    WellFormed(t) && Fitted(g, t) && (g.Ecma? ==> AtomicTargets(t))
  }

  lemma {:induction false} FullPrints(t: Tree)
    ensures Written(Full(t)) == Print(t)
  {
    hide Code, Text, UnaWraps, LeftWraps, RightWraps, Precd;
    match t {
      case Leaf(_) =>
      case Paren(e) => FullPrints(e);
      case Una(_, _, e) => FullPrints(e);
      case Bin(_, a, b) => FullPrints(a); FullPrints(b);
      case Ter(a, b, c) => FullPrints(a); FullPrints(b); FullPrints(c);
    }
  }

  lemma {:induction false} FullKeeps(t: Tree)
    ensures Strip(Full(t)) == Strip(t) && Level(Full(t)) == Level(t)
    ensures (WellFormed(Full(t)) <==> WellFormed(t)) && (AtomicTargets(Full(t)) <==> AtomicTargets(t))
  {
    hide Code, Text, UnaWraps, LeftWraps, RightWraps, Precd, IsInfix, IsPrefix, IsPostfix, IsAssign;
    match t {
      case Leaf(_) =>
      case Paren(e) => FullKeeps(e);
      case Una(_, _, e) => FullKeeps(e);
      case Bin(_, a, b) => FullKeeps(a); FullKeeps(b);
      case Ter(a, b, c) => FullKeeps(a); FullKeeps(b); FullKeeps(c);
    }
  }

  // No parentheses are printed around what ECMA-262 refuses.
  lemma {:induction false} FullLegal(t: Tree)
    requires WellFormed(t)
    ensures Legal(Full(t)) <==> Legal(t)
  {
    hide Code, Precd, RlAssoc, IsInfix;
    match t {
      case Leaf(_) =>
      case Paren(e) => FullLegal(e);
      case Una(_, _, e) => FullLegal(e);
      case Bin(op, a, b) =>
        FullLegal(a);
        FullLegal(b);
        OperandsKept(op, a, b);
      case Ter(a, b, c) => FullLegal(a); FullLegal(b); FullLegal(c);
    }
  }

  lemma OperandsKept(op: OprId, a: Tree, b: Tree)
    requires WellFormed(Bin(op, a, b))
    ensures op == Exp ==> (IsSigned(WrapTree(Full(a), LeftWraps(op, Level(a)))) <==> IsSigned(a))
    ensures op == NullCoalesce ==> (IsLogical(WrapTree(Full(a), LeftWraps(op, Level(a)))) <==> IsLogical(a))
    ensures op == NullCoalesce ==> (IsLogical(WrapTree(Full(b), RightWraps(op, Level(b)))) <==> IsLogical(b))
  {
    hide Code, Precd;
    InfixKinds(op);
    if a.Una? { UnaryLevels(a.op); }
    if a.Bin? { InfixKinds(a.op); }
    if b.Bin? { InfixKinds(b.op); }
  }

  lemma {:induction false} FullFits(g: Grammar, t: Tree)
    requires WellFormed(t)
    ensures Fitted(g, Full(t))
  {
    hide Code, Precd, RlAssoc, Fitted, Level;
    match t {
      case Leaf(_) => assert Fitted(g, t) by { FitsLeaf(g, t); }
      case Paren(e) => FullFits(g, e); FitsParen(g, Full(e));
      case Una(op, isPost, e) => FullFits(g, e); FitsUna(g, op, isPost, e);
      case Bin(op, a, b) => FullFits(g, a); FullFits(g, b); FitsBin(g, op, a, b);
      case Ter(a, b, c) => FullFits(g, a); FullFits(g, b); FullFits(g, c); FitsTer(g, a, b, c);
    }
  }

  lemma FitsLeaf(g: Grammar, t: Tree)
    requires t.Leaf?
    ensures Fitted(g, t)
  {
  }

  lemma FitsParen(g: Grammar, e: Tree)
    ensures Fitted(g, Paren(e)) <==> Fitted(g, e)
  {
  }

  lemma FitsUna(g: Grammar, op: OprId, isPost: bool, e: Tree)
    requires WellFormed(Una(op, isPost, e)) && Fitted(g, Full(e))
    ensures Fitted(g, Full(Una(op, isPost, e)))
  {
    FullKeeps(e);
    UnaryLevels(op);
  }

  lemma FitsBin(g: Grammar, op: OprId, a: Tree, b: Tree)
    requires WellFormed(Bin(op, a, b)) && Fitted(g, Full(a)) && Fitted(g, Full(b))
    ensures Fitted(g, Full(Bin(op, a, b)))
  {
    hide Code;
    FullKeeps(a);
    FullKeeps(b);
    InfixLevels(op);
  }

  lemma FitsTer(g: Grammar, a: Tree, b: Tree, c: Tree)
    requires WellFormed(c) && Fitted(g, Full(a)) && Fitted(g, Full(b)) && Fitted(g, Full(c))
    ensures Fitted(g, Full(Ter(a, b, c)))
  {
    hide Code, Precd, RlAssoc, IsInfix;
    FullKeeps(a);
    FullKeeps(c);
    LevelRange(c);
    AssignLevel();
  }

  // The tokens after an expression of the given level do not go on with it.
  predicate Stops(min: nat, rest: seq<Token>) {
    !PostfixNext(rest) && !InfixNext(rest, min) && !QuestNext(rest, min)
  }

  // From which level on an operator that follows would go into the last operand.
  function Edge(g: Grammar, t: Tree): nat {
    match t
    case Bin(op, _, _) => RightLevel(op)
    case Ter(_, _, _) => LastLevel(g)
    case _ => 17
  }

  function Whole(t: Tree, rest: seq<Token>): Phrase {
    Phrase(Strip(t), Level(t), rest)
  }

  lemma LevelRange(t: Tree)
    requires WellFormed(t)
    ensures 3 <= Level(t) <= 24 && (Level(t) <= 16 <==> t.Bin? || t.Ter?) && (Level(t) == 17 <==> IsUnaryPrefix(t))
    ensures Level(t) == 18 <==> t.Una? && t.isPost
  {
    match t {
      case Una(op, _, _) => UnaryLevels(op);
      case Bin(op, _, _) => InfixLevels(op);
      case _ =>
    }
  }

  lemma TailStops(g: Grammar, min: nat, p: Phrase)
    requires Stops(min, p.rest)
    ensures Tail(g, min, p) == Some(p)
  {
  }

  // -------- Unary operators

  lemma LeafBack(g: Grammar, id: nat, rest: seq<Token>)
    ensures Unary(g, [Atom(id)] + rest) == Postfixes(g, Whole(Leaf(id), rest))
  {
    var toks := [Atom(id)] + rest;
    assert toks[1..] == rest && !PrefixNext(toks);
  }

  lemma ParenBack(g: Grammar, e: Tree, rest: seq<Token>)
    requires Expr(g, 0, Written(e) + ([RParen] + rest)) == if Accepted(g, e) then Some(Whole(e, [RParen] + rest)) else None
    ensures Unary(g, Written(Paren(e)) + rest) == if Accepted(g, e) then Postfixes(g, Whole(Paren(e), rest)) else None
  {
    hide Accepted, GetEnumOprId, Expr, Postfixes, Precd;
    var toks := Written(Paren(e)) + rest;
    assert toks[1..] == Written(e) + ([RParen] + rest);
    assert toks[0] == LParen;
    assert ([RParen] + rest)[1..] == rest && !PrefixNext(toks);
    assert Strip(Paren(e)) == Strip(e);
  }

  lemma PostfixBack(g: Grammar, op: OprId, e: Tree, rest: seq<Token>)
    requires IsPostfix(op) && (g.Ecma? ==> Strip(e).Leaf?)
    ensures Postfixes(g, Whole(e, [Sym(Text(op))] + rest)) == Postfixes(g, Phrase(Una(op, true, Strip(e)), Precd(op), rest))
  {
    hide Code, Text, Level;
    UnaryTexts(op);
    var more := [Sym(Text(op))] + rest;
    assert more[1..] == rest && PostfixNext(more);
  }

  lemma PrefixBack(g: Grammar, op: OprId, e: Tree, rest: seq<Token>)
    requires IsPrefix(op) && (g.Ecma? && op in {PreInc, PreDec} ==> Strip(e).Leaf?)
    requires Unary(g, Written(e) + rest) == if Accepted(g, e) then Some(Whole(e, rest)) else None
    ensures Unary(g, [Sym(Text(op))] + Written(e) + rest) ==
            if Accepted(g, e) then Some(Phrase(Una(op, false, Strip(e)), Precd(op), rest)) else None
  {
    hide Accepted, GetEnumOprId, Primary, Postfixes, Written, Level;
    UnaryTexts(op);
    var toks := [Sym(Text(op))] + Written(e) + rest;
    assert toks[1..] == Written(e) + rest && PrefixNext(toks);
  }

  // -------- Infix operators

  // An infix operator after a left operand is not taken into that operand.
  lemma StopsAtInfix(g: Grammar, a: Tree, op: OprId, more: seq<Token>)
    requires InDomain(g, a) && IsInfix(op) && (g.Ecma? && IsAssign(op) ==> !a.Ter?)
    requires Level(a) >= Precd(op) && (RlAssoc(op) ==> Level(a) > Precd(op))
    ensures Stops(Edge(g, a), [Sym(Text(op))] + more)
  {
    hide Text, Precd, RlAssoc;
    InfixTexts(op);
    InfixLevels(op);
    InfixKinds(op);
    InfixKinds(Assign);
    if a.Bin? { InfixLevels(a.op); }
  }

  lemma EdgeOfRight(g: Grammar, b: Tree, min: nat)
    requires InDomain(g, b) && min <= Level(b) && min <= 17 && (b.Ter? && g.Ecma? ==> min <= 3)
    ensures min <= Edge(g, b)
  {
    InfixKinds(Assign);
    if b.Bin? { InfixLevels(b.op); }
  }

  lemma StopsMore(min: nat, min': nat, rest: seq<Token>)
    requires Stops(min, rest) && min <= min'
    ensures Stops(min', rest)
  {
  }

  // The rules of ECMA-262 seen from the tree.
  lemma RefusedIs(g: Grammar, op: OprId, a: Tree, b: Tree, rest: seq<Token>, rest': seq<Token>)
    requires InDomain(g, Bin(op, a, b))
    ensures Refused(g, op, Whole(a, rest), Whole(b, rest')) <==>
            g.Ecma? && ((op == Exp && IsSigned(a)) || (op == NullCoalesce && (IsLogical(a) || IsLogical(b))))
  {
    hide Precd, RlAssoc;
    InfixLevels(op);
    InfixKinds(op);
    InfixKinds(Lor);
    InfixKinds(Land);
    UnaryLevels(Not);
    LevelRange(a);
    LevelRange(b);
    if a.Bin? { InfixKinds(a.op); InfixLevels(a.op); }
    if b.Bin? { InfixKinds(b.op); InfixLevels(b.op); }
  }

  // -------- The induction

  // An expression that binds as tightly as a postfix one: postfix operators that follow are taken up.
  lemma {:induction false} TightBack(g: Grammar, t: Tree, rest: seq<Token>)
    requires InDomain(g, t) && Level(t) >= 18
    ensures Unary(g, Written(t) + rest) == if Accepted(g, t) then Postfixes(g, Whole(t, rest)) else None
    decreases t, 0
  {
    hide Code, Text, Expr, Unary, Postfixes, Stops;
    LevelRange(t);
    match t {
      case Leaf(id) => LeafBack(g, id, rest);
      case Paren(e) =>
        StopsAtEnd(Edge(g, e), 0, RParen, rest);
        ExprBack(g, e, 0, [RParen] + rest);
        TailStops(g, 0, Whole(e, [RParen] + rest));
        ParenBack(g, e, rest);
      case Una(op, _, e) =>
        UnaryLevels(op);
        TightBack(g, e, [Sym(Text(op))] + rest);
        assert Written(e) + [Sym(Text(op))] + rest == Written(e) + ([Sym(Text(op))] + rest);
        PostfixBack(g, op, e, rest);
    }
  }

  lemma {:induction false} UnaryBack(g: Grammar, t: Tree, rest: seq<Token>)
    requires InDomain(g, t) && Level(t) >= 17 && !PostfixNext(rest)
    ensures Unary(g, Written(t) + rest) == if Accepted(g, t) then Some(Whole(t, rest)) else None
    decreases t, 1
  {
    LevelRange(t);
    if Level(t) == 17 {
      UnaryLevels(t.op);
      UnaryBack(g, t.opnd, rest);
      PrefixBack(g, t.op, t.opnd, rest);
    } else {
      TightBack(g, t, rest);
    }
  }

  // An expression read at a level it reaches: operators that follow are taken up from there.
  lemma {:induction false} ExprBack(g: Grammar, t: Tree, min: nat, rest: seq<Token>)
    requires InDomain(g, t) && min <= Level(t) && Stops(Edge(g, t), rest)
    ensures Expr(g, min, Written(t) + rest) == if Accepted(g, t) then Tail(g, min, Whole(t, rest)) else None
    decreases t, 2
  {
    LevelRange(t);
    match t {
      case Bin(op, a, b) => BinBack(g, op, a, b, min, rest);
      case Ter(a, b, c) => TerBack(g, a, b, c, min, rest);
      case _ => UnaryBack(g, t, rest);
    }
  }

  lemma {:induction false} BinBack(g: Grammar, op: OprId, a: Tree, b: Tree, min: nat, rest: seq<Token>)
    requires InDomain(g, Bin(op, a, b)) && min <= Precd(op) && Stops(Edge(g, Bin(op, a, b)), rest)
    ensures var t := Bin(op, a, b);
            Expr(g, min, Written(t) + rest) == if Accepted(g, t) then Tail(g, min, Whole(t, rest)) else None
    decreases Bin(op, a, b), 1
  {
    hide Code, Text, Expr, Tail, Stops, Refused, IsInfix, Legal, WellFormed, AtomicTargets, Fitted, Written, Strip;
    BinParts(g, op, a, b);
    InfixLevels(op);
    var after := Written(b) + rest;
    StopsAtInfix(g, a, op, after);
    ExprBack(g, a, min, [Sym(Text(op))] + after);
    EdgeOfRight(g, b, RightLevel(op));
    StopsMore(RightLevel(op), Edge(g, b), rest);
    ExprBack(g, b, RightLevel(op), rest);
    TailStops(g, RightLevel(op), Whole(b, rest));
    BinJoin(g, op, a, b, min, rest);
  }

  // An infix expression from its operands.
  lemma BinJoin(g: Grammar, op: OprId, a: Tree, b: Tree, min: nat, rest: seq<Token>)
    requires InDomain(g, Bin(op, a, b)) && min <= Precd(op)
    requires var more := [Sym(Text(op))] + (Written(b) + rest);
             && Expr(g, min, Written(a) + more) == (if Accepted(g, a) then Tail(g, min, Whole(a, more)) else None)
             && Expr(g, RightLevel(op), Written(b) + rest) == (if Accepted(g, b) then Some(Whole(b, rest)) else None)
    ensures var t := Bin(op, a, b);
            Expr(g, min, Written(t) + rest) == if Accepted(g, t) then Tail(g, min, Whole(t, rest)) else None
  {
    hide Code, Text, Expr, Tail, Refused, IsInfix, Legal, WellFormed, AtomicTargets, Fitted, Written, Precd, RlAssoc, RightLevel;
    BinParts(g, op, a, b);
    BinWritten(op, a, b, rest);
    var after := Written(b) + rest;
    AcceptedBin(g, op, a, b, [Sym(Text(op))] + after, rest);
    TailInfix(g, min, Whole(a, [Sym(Text(op))] + after), op, after);
  }

  lemma BinWritten(op: OprId, a: Tree, b: Tree, rest: seq<Token>)
    ensures Written(Bin(op, a, b)) + rest == Written(a) + ([Sym(Text(op))] + (Written(b) + rest))
  {
    hide Text;
    Regroup3(Written(a), [Sym(Text(op))], Written(b), rest);
  }

  lemma Regroup3(u: seq<Token>, v: seq<Token>, w: seq<Token>, x: seq<Token>)
    ensures u + v + w + x == u + (v + (w + x))
  {
    assert v + w + x == v + (w + x);
  }

  lemma BinParts(g: Grammar, op: OprId, a: Tree, b: Tree)
    requires InDomain(g, Bin(op, a, b))
    ensures IsInfix(op) && InDomain(g, a) && InDomain(g, b) && (g.Ecma? && IsAssign(op) ==> !a.Ter?)
    ensures Level(a) >= Precd(op) && (RlAssoc(op) ==> Level(a) > Precd(op)) && Level(b) >= RightLevel(op)
  {
    hide IsInfix;
  }

  lemma AcceptedBin(g: Grammar, op: OprId, a: Tree, b: Tree, rest: seq<Token>, rest': seq<Token>)
    requires InDomain(g, Bin(op, a, b))
    ensures Accepted(g, Bin(op, a, b)) <==> Accepted(g, a) && Accepted(g, b) && !Refused(g, op, Whole(a, rest), Whole(b, rest'))
  {
    hide Refused;
    RefusedIs(g, op, a, b, rest, rest');
  }

  lemma StopsAtEnd(edge: nat, min: nat, end: Token, rest: seq<Token>)
    requires end == RParen || end == Colon
    ensures Stops(edge, [end] + rest) && Stops(min, [end] + rest)
  {
  }

  lemma TailInfix(g: Grammar, min: nat, p: Phrase, op: OprId, after: seq<Token>)
    requires IsInfix(op) && min <= Precd(op) && p.rest == [Sym(Text(op))] + after
    ensures Tail(g, min, p) ==
            match Expr(g, RightLevel(op), after)
            case None => None
            case Some(q) => if Refused(g, op, p, q) then None else Tail(g, min, Phrase(Bin(op, p.tree, q.tree), Precd(op), q.rest))
  {
    hide Precd, RlAssoc, Text, Refused;
    InfixTexts(op);
    assert p.rest[1..] == after && InfixNext(p.rest, min);
  }

  lemma TailQuest(g: Grammar, min: nat, p: Phrase, after: seq<Token>)
    requires min <= TERNARY && p.rest == [Quest] + after
    ensures Tail(g, min, p) ==
            match Expr(g, 0, after)
            case None => None
            case Some(q) =>
              if q.rest == [] || q.rest[0] != Colon then None
              else
                match Expr(g, LastLevel(g), q.rest[1..])
                case None => None
                case Some(r) => Tail(g, min, Phrase(Ter(p.tree, q.tree, r.tree), TERNARY, r.rest))
  {
    assert p.rest[1..] == after && QuestNext(p.rest, min) && !InfixNext(p.rest, min);
  }

  lemma {:induction false} TerBack(g: Grammar, a: Tree, b: Tree, c: Tree, min: nat, rest: seq<Token>)
    requires InDomain(g, Ter(a, b, c)) && min <= TERNARY && Stops(Edge(g, Ter(a, b, c)), rest)
    ensures var t := Ter(a, b, c);
            Expr(g, min, Written(t) + rest) == if Accepted(g, t) then Tail(g, min, Whole(t, rest)) else None
    decreases Ter(a, b, c), 1
  {
    hide Code, Text, Expr, Tail, Stops, Written, Strip, Legal, WellFormed, AtomicTargets, Fitted;
    var mc := LastLevel(g);
    TerParts(g, a, b, c);
    var afterB := Written(c) + rest;
    var afterA := Written(b) + ([Colon] + afterB);
    StopsAtQuest(g, a, afterA);
    ExprBack(g, a, min, [Quest] + afterA);
    StopsAtEnd(Edge(g, b), 0, Colon, afterB);
    ExprBack(g, b, 0, [Colon] + afterB);
    TailStops(g, 0, Whole(b, [Colon] + afterB));
    AssignLevel();
    EdgeOfRight(g, c, mc);
    StopsMore(mc, Edge(g, c), rest);
    ExprBack(g, c, mc, rest);
    TailStops(g, mc, Whole(c, rest));
    TerJoin(g, a, b, c, min, rest);
  }

  lemma AssignLevel()
    ensures Precd(Assign) == 3
  {
  }

  lemma TerParts(g: Grammar, a: Tree, b: Tree, c: Tree)
    requires InDomain(g, Ter(a, b, c))
    ensures InDomain(g, a) && InDomain(g, b) && InDomain(g, c) && Level(a) > TERNARY && Level(c) >= LastLevel(g)
  {
  }

  // A conditional expression from its operands.
  lemma TerJoin(g: Grammar, a: Tree, b: Tree, c: Tree, min: nat, rest: seq<Token>)
    requires min <= TERNARY
    requires var afterB := Written(c) + rest;
             var afterA := Written(b) + ([Colon] + afterB);
             && Expr(g, min, Written(a) + ([Quest] + afterA)) == (if Accepted(g, a) then Tail(g, min, Whole(a, [Quest] + afterA)) else None)
             && Expr(g, 0, afterA) == (if Accepted(g, b) then Some(Whole(b, [Colon] + afterB)) else None)
             && Expr(g, LastLevel(g), afterB) == (if Accepted(g, c) then Some(Whole(c, rest)) else None)
    ensures var t := Ter(a, b, c);
            Expr(g, min, Written(t) + rest) == if Accepted(g, t) then Tail(g, min, Whole(t, rest)) else None
  {
    hide Code, Text, Expr, Tail, WellFormed, AtomicTargets, Fitted, Precd, Written;
    var afterB := Written(c) + rest;
    var afterA := Written(b) + ([Colon] + afterB);
    TerWritten(a, b, c, rest);
    TailQuest(g, min, Whole(a, [Quest] + afterA), afterA);
    assert ([Colon] + afterB)[1..] == afterB;
  }

  lemma TerWritten(a: Tree, b: Tree, c: Tree, rest: seq<Token>)
    ensures Written(Ter(a, b, c)) + rest == Written(a) + ([Quest] + (Written(b) + ([Colon] + (Written(c) + rest))))
  {
    Regroup(Written(a), [Quest], Written(b), [Colon], Written(c), rest);
  }

  lemma Regroup(u: seq<Token>, v: seq<Token>, w: seq<Token>, x: seq<Token>, y: seq<Token>, z: seq<Token>)
    ensures u + v + w + x + y + z == u + (v + (w + (x + (y + z))))
  {
    assert x + y + z == x + (y + z);
    assert w + x + y + z == w + (x + (y + z));
    assert v + w + x + y + z == v + (w + (x + (y + z)));
  }

  lemma StopsAtQuest(g: Grammar, a: Tree, more: seq<Token>)
    requires InDomain(g, a) && Level(a) > TERNARY
    ensures Stops(Edge(g, a), [Quest] + more)
  {
    if a.Bin? { InfixLevels(a.op); }
  }

  // -------- The theorems

  // A tree that has its parentheses, as a whole text.
  lemma WrittenBack(g: Grammar, t: Tree)
    requires InDomain(g, t)
    ensures Expr(g, 0, Written(t)) == if Accepted(g, t) then Some(Phrase(Strip(t), Level(t), [])) else None
  {
    assert Written(t) + [] == Written(t);
    ExprBack(g, t, 0, []);
    TailStops(g, 0, Whole(t, []));
  }

  // In the grammar of the operator table every expression parses back, at the level of its root.
  lemma PrintThenParse(t: Tree)
    requires WellFormed(t)
    ensures Expr(Table, 0, Print(t)) == Some(Phrase(Strip(t), Level(t), []))
    ensures Parse(Table, Print(t)) == Some(Strip(t))
  {
    FullPrints(t);
    FullKeeps(t);
    FullFits(Table, t);
    WrittenBack(Table, Full(t));
  }

  // In that of ECMA-262 it does just when it is legal; otherwise its tokens are no expression.
  lemma PrintThenParseEcma(t: Tree)
    requires WellFormed(t) && AtomicTargets(t)
    ensures Parse(Ecma, Print(t)) == if Legal(t) then Some(Strip(t)) else None
  {
    FullPrints(t);
    FullKeeps(t);
    FullLegal(t);
    FullFits(Ecma, t);
    WrittenBack(Ecma, Full(t));
  }

  // Two expressions that are printed alike are alike but for written parentheses.
  lemma PrintIsInjective(t: Tree, u: Tree)
    requires WellFormed(t) && WellFormed(u) && Print(t) == Print(u)
    ensures Strip(t) == Strip(u) && Level(t) == Level(u)
  {
    PrintThenParse(t);
    PrintThenParse(u);
  }

  // (-x) ** y is printed without its parentheses, which is no expression of ECMA-262.
  lemma NegatedBase(x: nat, y: nat)
    ensures var t := Bin(Exp, Una(Minus, false, Leaf(x)), Leaf(y));
            && Print(t) == [Sym("-"), Atom(x), Sym("**"), Atom(y)]
            && Parse(Table, Print(t)) == Some(t) && Parse(Ecma, Print(t)) == None
  {
    hide Parse;
    PrefixedBase(Minus, x, y);
  }

  // ++x ** y needs none: its base is an update expression.
  lemma UpdatedBase(op: OprId, x: nat, y: nat)
    requires op in {PreInc, PreDec}
    ensures var t := Bin(Exp, Una(op, false, Leaf(x)), Leaf(y));
            && Print(t) == [Sym(Text(op)), Atom(x), Sym("**"), Atom(y)]
            && Parse(Table, Print(t)) == Some(t) && Parse(Ecma, Print(t)) == Some(t)
  {
    hide Parse;
    PrefixedBase(op, x, y);
  }

  lemma PrefixedBase(op: OprId, x: nat, y: nat)
    requires IsPrefix(op)
    ensures var t := Bin(Exp, Una(op, false, Leaf(x)), Leaf(y));
            && Print(t) == [Sym(Text(op)), Atom(x), Sym("**"), Atom(y)] && Parse(Table, Print(t)) == Some(t)
            && Parse(Ecma, Print(t)) == if op in {PreInc, PreDec} then Some(t) else None
  {
    hide Expr, Tail, Unary, Parse;
    var base := Una(op, false, Leaf(x));
    var t := Bin(Exp, base, Leaf(y));
    UnaryLevels(op);
    assert Text(Exp) == "**" && Precd(Exp) == 16;
    assert Print(base) == [Sym(Text(op))] + [Atom(x)];
    assert Print(t) == [Sym(Text(op))] + [Atom(x)] + [Sym("**")] + [Atom(y)];
    PrefixedParts(op, x);
    PrintThenParse(t);
    PrintThenParseEcma(t);
  }

  lemma PrefixedParts(op: OprId, x: nat)
    requires IsPrefix(op)
    ensures var t := Una(op, false, Leaf(x)); Strip(t) == t && WellFormed(t) && AtomicTargets(t) && Legal(t)
  {
    var leaf := Leaf(x);
    assert AtomicTargets(leaf) && Legal(leaf);
  }
}
