/** The productions of ECMA-262 against the parser: a phrase of theirs is what a legal tree with its
    parentheses is written as, and is parsed as that tree. */
module EcmaRoundTrip {
  import opened Options
  import opened Operators
  import opened OperatorParser
  import opened OperatorRoundTrip
  import opened EcmaGrammar

  // The level from which on a tree is a phrase of this kind.
  function Floor(n: Goal): nat {
    match n
    case Assignment => 3
    case Conditional => 4
    case ShortCircuit => 5
    case Coalesce => 5
    case CoalesceHead => 5
    case LogicalOr => 6
    case LogicalAnd => 7
    case BitwiseOr => 8
    case BitwiseXor => 9
    case BitwiseAnd => 10
    case Equality => 11
    case Relational => 12
    case Shift => 13
    case Additive => 14
    case Multiplicative => 15
    case Exponentiation => 16
    case UnaryExpr => 17
    case Update => 17
    case LeftHandSide => 21
  }

  predicate Suits(n: Goal, t: Tree) {
    && Level(t) >= Floor(n)
    && (n == Coalesce ==> t.Bin? && t.op == NullCoalesce)
    && (n == CoalesceHead ==> !IsLogical(t))
    && (n == Update ==> !IsSigned(t))
  }

  // A tree with its parentheses that ECMA-262 allows.
  predicate IsPhrase(t: Tree) {
    InDomain(Ecma, t) && Legal(t)
  }

  // The kind an infix operator makes.
  function KindOf(op: OprId): Goal
    requires IsInfix(op)
  {
    match op
    case NullCoalesce => Coalesce
    case Lor => LogicalOr
    case Land => LogicalAnd
    case Bor => BitwiseOr
    case Bxor => BitwiseXor
    case Band => BitwiseAnd
    case EQ => Equality
    case NE => Equality
    case StEq => Equality
    case StNe => Equality
    case LT => Relational
    case GT => Relational
    case LE => Relational
    case GE => Relational
    case Shl => Shift
    case Shr => Shift
    case Zext => Shift
    case Add => Additive
    case Sub => Additive
    case Mul => Multiplicative
    case Div => Multiplicative
    case Mod => Multiplicative
    case Exp => Exponentiation
    case _ => Assignment
  }

  // -------- The table has the levels of the productions

  lemma OperatorOf(n: Goal, s: string, op: OprId)
    requires InfixOf(n).Some? && (s, op) in InfixOf(n).value.ops
    ensures IsInfix(op) && KindOf(op) == n && Text(op) == s && Precd(op) == Floor(n)
    ensures (n == Assignment <==> IsAssign(op)) && (n == Exponentiation <==> op == Exp) && (n == Coalesce <==> op == NullCoalesce)
  {
    hide Code, Text, IsInfix, IsAssign, KindOf;
    NamedOf(n, s, op);
    TextOf(n, s, op);
    LevelOf(op);
  }

  lemma NamedOf(n: Goal, s: string, op: OprId)
    requires InfixOf(n).Some? && (s, op) in InfixOf(n).value.ops
    ensures IsInfix(op) && KindOf(op) == n
  {
    hide KindOf, IsInfix, Text, Code;
    match n {
      case Assignment => AssignmentNamed(s, op);
      case Equality => FourNamed(s, op);
      case Relational => FourNamed(s, op);
      case Shift => FewNamed(n, s, op);
      case Additive => FewNamed(n, s, op);
      case Multiplicative => FewNamed(n, s, op);
      case _ => OneNamed(n, s, op);
    }
  }

  lemma AssignmentNamed(s: string, op: OprId)
    requires (s, op) in ASSIGNMENTS
    ensures IsInfix(op) && KindOf(op) == Assignment
  {
    hide Text, Code;
  }

  lemma FourNamed(s: string, op: OprId)
    requires (s, op) in EQUALITIES || (s, op) in RELATIONS
    ensures IsInfix(op) && KindOf(op) == if (s, op) in EQUALITIES then Equality else Relational
  {
    hide Text, Code;
  }

  lemma FewNamed(n: Goal, s: string, op: OprId)
    requires n in {Shift, Additive, Multiplicative} && (s, op) in InfixOf(n).value.ops
    ensures IsInfix(op) && KindOf(op) == n
  {
    hide Text, Code;
  }

  lemma OneNamed(n: Goal, s: string, op: OprId)
    requires n in {Coalesce, LogicalOr, LogicalAnd, BitwiseOr, BitwiseXor, BitwiseAnd, Exponentiation}
    requires (s, op) in InfixOf(n).value.ops
    ensures IsInfix(op) && KindOf(op) == n
  {
    hide Text, Code;
  }

  lemma TextOf(n: Goal, s: string, op: OprId)
    requires InfixOf(n).Some? && (s, op) in InfixOf(n).value.ops
    ensures Text(op) == s
  {
    hide Text, Code;
    match n {
      case Assignment => AssignmentText(s, op);
      case Equality => FourText(s, op);
      case Relational => FourText(s, op);
      case Shift => FewText(n, s, op);
      case Additive => FewText(n, s, op);
      case Multiplicative => FewText(n, s, op);
      case _ => OneText(n, s, op);
    }
  }

  lemma AssignmentText(s: string, op: OprId)
    requires (s, op) in ASSIGNMENTS
    ensures Text(op) == s
  {
    hide Code;
  }

  lemma FourText(s: string, op: OprId)
    requires (s, op) in EQUALITIES || (s, op) in RELATIONS
    ensures Text(op) == s
  {
    hide Code;
  }

  lemma FewText(n: Goal, s: string, op: OprId)
    requires n in {Shift, Additive, Multiplicative} && (s, op) in InfixOf(n).value.ops
    ensures Text(op) == s
  {
    hide Code;
  }

  lemma OneText(n: Goal, s: string, op: OprId)
    requires n in {Coalesce, LogicalOr, LogicalAnd, BitwiseOr, BitwiseXor, BitwiseAnd, Exponentiation}
    requires (s, op) in InfixOf(n).value.ops
    ensures Text(op) == s
  {
    hide Code;
  }

  lemma LevelOf(op: OprId)
    requires IsInfix(op)
    ensures Precd(op) == Floor(KindOf(op))
    ensures (KindOf(op) == Assignment <==> IsAssign(op)) && (KindOf(op) == Exponentiation <==> op == Exp)
    ensures (KindOf(op) == Coalesce <==> op == NullCoalesce) && InfixOf(KindOf(op)).Some?
  {
    hide Text, Code, Floor, InfixOf;
    FloorOf(op);
    HasProduction(op);
  }

  lemma FloorOf(op: OprId)
    requires IsInfix(op)
    ensures Precd(op) == Floor(KindOf(op))
  {
    hide Text;
  }

  lemma HasProduction(op: OprId)
    requires IsInfix(op)
    ensures InfixOf(KindOf(op)).Some?
  {
    hide Text, Code;
  }

  lemma KindHas(op: OprId)
    requires IsInfix(op)
    ensures InfixOf(KindOf(op)).Some? && (Text(op), op) in InfixOf(KindOf(op)).value.ops
  {
  }

  // The kinds of the operands by their levels.
  lemma SidesOf(n: Goal)
    requires InfixOf(n).Some?
    ensures n !in {Conditional, ShortCircuit, CoalesceHead, UnaryExpr, Update, LeftHandSide}
    ensures var Infix(left, _, right) := InfixOf(n).value;
            && (n == Assignment ==> left == LeftHandSide && right == Assignment)
            && (n == Exponentiation ==> left == Update && right == Exponentiation)
            && (n == Coalesce ==> left == CoalesceHead && right == BitwiseOr)
            && (n !in {Assignment, Exponentiation, Coalesce} ==> left == n && Floor(right) == Floor(n) + 1 && right !in {Coalesce, CoalesceHead, Update})
  {
  }

  // Operands that fit an operator are phrases of the kinds its production names.
  lemma OperandsSuit(op: OprId, a: Tree, b: Tree)
    requires IsPhrase(Bin(op, a, b))
    ensures IsPhrase(a) && IsPhrase(b)
    ensures var p := InfixOf(KindOf(op)); p.Some? && Suits(p.value.left, a) && Suits(p.value.right, b)
  {
    hide Code, Text, InfixOf, KindOf, Suits;
    KindHas(op);
    LeftSuits(op, a, b);
    RightSuits(op, a, b);
  }

  lemma LeftSuits(op: OprId, a: Tree, b: Tree)
    requires IsPhrase(Bin(op, a, b)) && InfixOf(KindOf(op)).Some?
    ensures Suits(InfixOf(KindOf(op)).value.left, a)
  {
    hide Code, Text, InfixOf, KindOf, IsInfix;
    assert IsInfix(op) && IsPhrase(a);
    SidesOf(KindOf(op));
    LevelOf(op);
    InfixLevels(op);
    LevelRange(a);
    if KindOf(op) == Assignment { AtomLevel(a); }
  }

  lemma AtomLevel(a: Tree)
    requires Strip(a).Leaf?
    ensures Level(a) >= 21
  {
  }

  lemma RightSuits(op: OprId, a: Tree, b: Tree)
    requires IsPhrase(Bin(op, a, b)) && InfixOf(KindOf(op)).Some?
    ensures Suits(InfixOf(KindOf(op)).value.right, b)
  {
    hide Code, Text, InfixOf, KindOf, IsInfix, Precd;
    assert IsInfix(op) && IsPhrase(b);
    SidesOf(KindOf(op));
    LevelOf(op);
    InfixLevels(op);
    LevelRange(b);
    if b.Bin? { InfixKinds(b.op); }
  }

  lemma OperandsFit(n: Goal, op: OprId, a: Tree, b: Tree)
    requires InfixOf(n).Some? && (Text(op), op) in InfixOf(n).value.ops
    requires IsPhrase(a) && IsPhrase(b) && Suits(InfixOf(n).value.left, a) && Suits(InfixOf(n).value.right, b)
    requires n == Assignment ==> Strip(a).Leaf?
    ensures IsPhrase(Bin(op, a, b)) && Suits(n, Bin(op, a, b))
  {
    hide Code, Text, Precd, RlAssoc, IsInfix, InfixOf;
    OperatorOf(n, Text(op), op);
    SidesOf(n);
    InfixLevels(op);
    InfixKinds(op);
    if b.Bin? { InfixKinds(b.op); }
  }

  // -------- A legal tree is a phrase

  // The kind whose production makes the root.
  function Home(t: Tree): Goal
    requires WellFormed(t)
  {
    match t
    case Leaf(_) => LeftHandSide
    case Paren(_) => LeftHandSide
    case Una(op, _, _) => if IsSigned(t) then UnaryExpr else Update
    case Bin(op, _, _) => KindOf(op)
    case Ter(_, _, _) => Conditional
  }

  lemma Lower(n: Goal, t: Tree) returns (m: Goal)
    requires WellFormed(t) && Suits(n, t) && n != Home(t)
    ensures m in Units(n) && Suits(m, t)
  {
    hide Code, Text;
    LevelRange(t);
    if n == Update {
      m := LeftHandSide;
    } else {
      m := Below(n, t.Bin? && t.op == NullCoalesce);
      LowerSuits(n, t);
    }
  }

  function Below(n: Goal, coalesces: bool): Goal
    requires n !in {Coalesce, Update, LeftHandSide}
  {
    match n
    case Assignment => Conditional
    case Conditional => ShortCircuit
    case ShortCircuit => if coalesces then Coalesce else LogicalOr
    case CoalesceHead => if coalesces then Coalesce else BitwiseOr
    case LogicalOr => LogicalAnd
    case LogicalAnd => BitwiseOr
    case BitwiseOr => BitwiseXor
    case BitwiseXor => BitwiseAnd
    case BitwiseAnd => Equality
    case Equality => Relational
    case Relational => Shift
    case Shift => Additive
    case Additive => Multiplicative
    case Multiplicative => Exponentiation
    case Exponentiation => UnaryExpr
    case UnaryExpr => Update
  }

  lemma LowerSuits(n: Goal, t: Tree)
    requires WellFormed(t) && n !in {Coalesce, Update, LeftHandSide} && Suits(n, t) && n != Home(t)
    ensures var m := Below(n, t.Bin? && t.op == NullCoalesce); m in Units(n) && Suits(m, t)
  {
    hide Code, Text, KindOf;
    if t.Bin? {
      hide Floor;
      NextFloor(n, t.op);
      InfixKinds(t.op);
    } else {
      hide Precd, IsInfix;
      LevelRange(t);
    }
  }

  // An infix operator that is no operator of this kind binds more tightly, if it binds at all.
  lemma NextFloor(n: Goal, op: OprId)
    requires IsInfix(op) && n !in {Coalesce, Update, LeftHandSide} && n != KindOf(op) && Precd(op) >= Floor(n)
    requires n == CoalesceHead ==> op !in {Lor, Land}
    ensures var m := Below(n, op == NullCoalesce); m in Units(n) && Precd(op) >= Floor(m)
  {
    hide Code, Text;
    LevelOf(op);
  }

  lemma {:induction false} IsRead(n: Goal, t: Tree)
    requires IsPhrase(t) && Suits(n, t)
    ensures Reads(n, Written(t), Strip(t))
    decreases t, Rank(n)
  {
    hide Code, Text, Suits, Written, Strip;
    if n != Home(t) {
      var m := Lower(n, t);
      IsRead(m, t);
    } else {
      match t {
        case Leaf(_) => LeafRead(t);
        case Paren(e) =>
          PartsSuit(t);
          IsRead(Assignment, e);
          ParenRead(e);
        case Una(op, isPost, e) =>
          PartsSuit(t);
          IsRead(if isPost then LeftHandSide else UnaryExpr, e);
          UnaRead(op, isPost, e);
        case Bin(op, a, b) =>
          OperandsSuit(op, a, b);
          IsRead(InfixOf(n).value.left, a);
          IsRead(InfixOf(n).value.right, b);
          BinRead(op, a, b);
        case Ter(a, b, c) =>
          PartsSuit(t);
          IsRead(ShortCircuit, a);
          IsRead(Assignment, b);
          IsRead(Assignment, c);
          TerRead(a, b, c);
      }
    }
  }

  lemma PartsSuit(t: Tree)
    requires IsPhrase(t)
    ensures t.Paren? ==> IsPhrase(t.e) && Suits(Assignment, t.e)
    ensures t.Una? ==> IsPhrase(t.opnd) && Suits(if t.isPost then LeftHandSide else UnaryExpr, t.opnd)
    ensures t.Ter? ==> IsPhrase(t.a) && IsPhrase(t.b) && IsPhrase(t.c)
    ensures t.Ter? ==> Suits(ShortCircuit, t.a) && Suits(Assignment, t.b) && Suits(Assignment, t.c)
  {
    match t {
      case Paren(e) => LevelRange(e);
      case Una(op, _, e) => UnaryLevels(op); LevelRange(e);
      case Ter(a, b, c) => LevelRange(b); AssignLevel();
      case _ =>
    }
  }

  lemma LeafRead(t: Tree)
    requires t.Leaf?
    ensures Reads(LeftHandSide, Written(t), Strip(t))
  {
    assert Alone(Written(t), Strip(t));
  }

  lemma WrittenSome(t: Tree)
    ensures Written(t) != []
  {
  }

  lemma ParenRead(e: Tree)
    requires Reads(Assignment, Written(e), Strip(e))
    ensures Reads(LeftHandSide, Written(Paren(e)), Strip(Paren(e)))
  {
    WrittenSome(e);
    var toks := Written(Paren(e));
    assert toks[1..|toks| - 1] == Written(e);
    assert Enclosed(toks, Strip(e));
  }

  lemma UnaRead(op: OprId, isPost: bool, e: Tree)
    requires IsPhrase(Una(op, isPost, e)) && Reads(if isPost then LeftHandSide else UnaryExpr, Written(e), Strip(e))
    ensures Reads(Home(Una(op, isPost, e)), Written(Una(op, isPost, e)), Strip(Una(op, isPost, e)))
  {
    hide Reads, Legal, Fitted;
    WrittenSome(e);
    var t := Una(op, isPost, e);
    var toks := Written(t);
    if isPost {
      assert toks[..|toks| - 1] == Written(e) && toks[|toks| - 1] == Sym(Text(op));
      assert Postfixed(toks, Strip(t));
    } else {
      assert toks[1..] == Written(e) && toks[0] == Sym(Text(op));
      assert Prefixed(if op in {PreInc, PreDec} then PREFIXES else SIGNS, toks, Strip(t));
    }
    UnaHome(Home(t), toks, Strip(t));
  }

  lemma UnaHome(n: Goal, toks: seq<Token>, t: Tree)
    requires (n == UnaryExpr && Prefixed(SIGNS, toks, t))
             || (n == Update && ((Prefixed(PREFIXES, toks, t) || Postfixed(toks, t)) && t.opnd.Leaf?))
    ensures Reads(n, toks, t)
  {
  }

  lemma BinRead(op: OprId, a: Tree, b: Tree)
    requires IsPhrase(Bin(op, a, b)) && InfixOf(KindOf(op)).Some?
    requires Reads(InfixOf(KindOf(op)).value.left, Written(a), Strip(a)) && Reads(InfixOf(KindOf(op)).value.right, Written(b), Strip(b))
    ensures Reads(KindOf(op), Written(Bin(op, a, b)), Strip(Bin(op, a, b)))
  {
    hide Code, Text, Legal, Fitted, InfixOf;
    KindHas(op);
    LevelOf(op);
    WrittenSome(a);
    WrittenSome(b);
    var t := Bin(op, a, b);
    var toks, i := Written(t), |Written(a)|;
    assert toks == Written(a) + [Sym(Text(op))] + Written(b);
    assert toks[..i] == Written(a) && toks[i] == Sym(Text(op)) && toks[i + 1..] == Written(b);
    assert Strip(t) == Bin(op, Strip(a), Strip(b));
    assert InfixedAt(KindOf(op), toks, Strip(t), i) by { hide Reads; }
  }

  lemma TerRead(a: Tree, b: Tree, c: Tree)
    requires Reads(ShortCircuit, Written(a), Strip(a)) && Reads(Assignment, Written(b), Strip(b)) && Reads(Assignment, Written(c), Strip(c))
    ensures Reads(Conditional, Written(Ter(a, b, c)), Strip(Ter(a, b, c)))
  {
    hide Reads;
    WrittenSome(a);
    WrittenSome(b);
    WrittenSome(c);
    var t := Ter(a, b, c);
    var toks, i, j := Written(t), |Written(a)|, |Written(a)| + 1 + |Written(b)|;
    assert toks == Written(a) + [Quest] + Written(b) + [Colon] + Written(c);
    assert toks[..i] == Written(a) && toks[i] == Quest && toks[i + 1..j] == Written(b) && toks[j] == Colon && toks[j + 1..] == Written(c);
    assert Strip(t) == Ter(Strip(a), Strip(b), Strip(c));
    assert ChosenAt(toks, Strip(t), i, j);
    TerHome(toks, Strip(t), i, j);
  }

  lemma TerHome(toks: seq<Token>, t: Tree, i: nat, j: nat)
    requires ChosenAt(toks, t, i, j)
    ensures Reads(Conditional, toks, t)
  {
  }

  // -------- A phrase is a legal tree

  predicate Makes(n: Goal, toks: seq<Token>, u: Tree, t: Tree) {
    IsPhrase(t) && Suits(n, t) && Written(t) == toks && Strip(t) == u
  }

  lemma {:induction false} PhraseIs(n: Goal, toks: seq<Token>, u: Tree) returns (t: Tree)
    requires Reads(n, toks, u)
    ensures Makes(n, toks, u, t)
    decreases |toks|, Rank(n)
  {
    hide Code, Text, Makes, Floor, KindOf, IsOp, IsInfix, Level, Written, Strip;
    if m :| m in Units(n) && Reads(m, toks, u) {
      t := PhraseIs(m, toks, u);
      Raised(n, m, toks, u, t);
    } else if i: nat :| InfixedAt(n, toks, u, i) {
      var a := PhraseIs(InfixOf(n).value.left, toks[..i], u.a);
      var b := PhraseIs(InfixOf(n).value.right, toks[i + 1..], u.b);
      t := Bin(u.op, a, b);
      InfixMakes(n, toks, u, i, a, b);
    } else if n == Conditional {
      var i: nat, j: nat :| ChosenAt(toks, u, i, j);
      var a := PhraseIs(ShortCircuit, toks[..i], u.a);
      var b := PhraseIs(Assignment, toks[i + 1..j], u.b);
      var c := PhraseIs(Assignment, toks[j + 1..], u.c);
      t := Ter(a, b, c);
      ChoiceMakes(toks, u, i, j, a, b, c);
    } else {
      t := TightIs(n, toks, u);
    }
  }

  lemma {:induction false} TightIs(n: Goal, toks: seq<Token>, u: Tree) returns (t: Tree)
    requires || (n == UnaryExpr && Prefixed(SIGNS, toks, u))
             || (n == Update && ((Prefixed(PREFIXES, toks, u) || Postfixed(toks, u)) && u.opnd.Leaf?))
             || (n == LeftHandSide && (Alone(toks, u) || Enclosed(toks, u)))
    ensures Makes(n, toks, u, t)
    decreases |toks|, 0
  {
    hide Reads, Makes, Level, Written, Strip;
    if n == LeftHandSide && Alone(toks, u) {
      t := u;
      AloneMakes(toks, u);
    } else if n == LeftHandSide {
      var e := PhraseIs(Assignment, toks[1..|toks| - 1], u);
      t := Paren(e);
      ParenMakes(toks, u, e);
    } else if u.isPost {
      var e := PhraseIs(LeftHandSide, toks[..|toks| - 1], u.opnd);
      t := Una(u.op, true, e);
      PostfixMakes(toks, u, e);
    } else {
      var e := PhraseIs(UnaryExpr, toks[1..], u.opnd);
      t := Una(u.op, false, e);
      PrefixMakes(n, toks, u, e);
    }
  }

  lemma Raised(n: Goal, m: Goal, toks: seq<Token>, u: Tree, t: Tree)
    requires m in Units(n) && Makes(m, toks, u, t)
    ensures Makes(n, toks, u, t)
  {
    hide Code, Text, Written, Strip, Fitted, Legal, AtomicTargets;
    LevelRange(t);
    if t.Bin? { InfixKinds(t.op); }
  }

  lemma InfixMakes(n: Goal, toks: seq<Token>, u: Tree, i: nat, a: Tree, b: Tree)
    requires InfixedAt(n, toks, u, i)
    requires Makes(InfixOf(n).value.left, toks[..i], u.a, a) && Makes(InfixOf(n).value.right, toks[i + 1..], u.b, b)
    ensures Makes(n, toks, u, Bin(u.op, a, b))
  {
    hide Code, Text, Reads, IsPhrase, Suits, InfixOf;
    OperatorOf(n, toks[i].s, u.op);
    OperandsFit(n, u.op, a, b);
    assert toks == toks[..i] + [toks[i]] + toks[i + 1..];
    assert Strip(Bin(u.op, a, b)) == Bin(u.op, Strip(a), Strip(b));
  }

  lemma ChoiceMakes(toks: seq<Token>, u: Tree, i: nat, j: nat, a: Tree, b: Tree, c: Tree)
    requires ChosenAt(toks, u, i, j)
    requires Makes(ShortCircuit, toks[..i], u.a, a) && Makes(Assignment, toks[i + 1..j], u.b, b) && Makes(Assignment, toks[j + 1..], u.c, c)
    ensures Makes(Conditional, toks, u, Ter(a, b, c))
  {
    hide Code, Text, Reads, IsPhrase, Suits;
    ChoiceSuits(a, b, c);
    Cut(toks, i, j);
  }

  lemma ChoiceSuits(a: Tree, b: Tree, c: Tree)
    requires IsPhrase(a) && IsPhrase(b) && IsPhrase(c) && Suits(ShortCircuit, a) && Suits(Assignment, b) && Suits(Assignment, c)
    ensures IsPhrase(Ter(a, b, c)) && Suits(Conditional, Ter(a, b, c))
  {
    AssignLevel();
  }

  lemma Cut(toks: seq<Token>, i: nat, j: nat)
    requires i < j < |toks|
    ensures toks == toks[..i] + [toks[i]] + toks[i + 1..j] + [toks[j]] + toks[j + 1..]
  {
  }

  lemma AloneMakes(toks: seq<Token>, u: Tree)
    requires Alone(toks, u)
    ensures Makes(LeftHandSide, toks, u, u)
  {
  }

  lemma ParenMakes(toks: seq<Token>, u: Tree, e: Tree)
    requires Enclosed(toks, u) && Makes(Assignment, toks[1..|toks| - 1], u, e)
    ensures Makes(LeftHandSide, toks, u, Paren(e))
  {
    hide Code, Text, Reads;
    assert toks == [toks[0]] + toks[1..|toks| - 1] + [toks[|toks| - 1]];
  }

  lemma PostfixMakes(toks: seq<Token>, u: Tree, e: Tree)
    requires Postfixed(toks, u) && u.opnd.Leaf? && Makes(LeftHandSide, toks[..|toks| - 1], u.opnd, e)
    ensures Makes(Update, toks, u, Una(u.op, true, e))
  {
    hide Reads;
    assert toks == toks[..|toks| - 1] + [toks[|toks| - 1]];
    UnaryLevels(u.op);
  }

  lemma PrefixMakes(n: Goal, toks: seq<Token>, u: Tree, e: Tree)
    requires (n == UnaryExpr && Prefixed(SIGNS, toks, u)) || (n == Update && Prefixed(PREFIXES, toks, u) && u.opnd.Leaf?)
    requires Makes(UnaryExpr, toks[1..], u.opnd, e)
    ensures Makes(n, toks, u, Una(u.op, false, e))
  {
    hide Reads;
    assert toks == [toks[0]] + toks[1..];
    UnaryLevels(u.op);
  }

  // -------- The theorems

  // The productions and the parser agree, so no tokens are read in two ways.
  lemma ReadIsParsed(toks: seq<Token>, u: Tree)
    requires Reads(Assignment, toks, u)
    ensures Parse(Ecma, toks) == Some(u)
  {
    hide Reads;
    var t := PhraseIs(Assignment, toks, u);
    WrittenBack(Ecma, t);
  }

  // What is printed for an expression is read as that expression and as no other, if it is legal;
  // otherwise it is no expression.
  lemma PrintThenRead(t: Tree, u: Tree)
    requires WellFormed(t) && AtomicTargets(t)
    ensures Reads(Assignment, Print(t), u) <==> Legal(t) && u == Strip(t)
  {
    hide Reads;
    PrintThenParseEcma(t);
    if Reads(Assignment, Print(t), u) { ReadIsParsed(Print(t), u); }
    if Legal(t) {
      FullPrints(t);
      FullKeeps(t);
      FullLegal(t);
      FullFits(Ecma, t);
      LevelRange(t);
      IsRead(Assignment, Full(t));
    }
  }
}
