/** The emitter's operator methods: tokens are put together from those of the operands, and the level
    of what was emitted last is left in a field. */
module Emitters {
  import opened Options
  import opened Operators
  import opened OperatorParser
  import opened OperatorRoundTrip
  import opened EcmaGrammar
  import opened EcmaRoundTrip

  class Emitter {
    var mPrecedence: nat

    constructor ()
    {
      mPrecedence := ATOM;
    }

    // What is emitted parses back to the expression, and mPrecedence is the level it parses at. By the
    // productions of ECMA-262 it is that expression and no other, or, if that is not legal, no expression.
    method Emit(t: Tree) returns (str: seq<Token>)
      requires WellFormed(t)
      modifies this
      ensures Expr(Table, 0, str) == Some(Phrase(Strip(t), mPrecedence, []))
      ensures AtomicTargets(t) ==> Parse(Ecma, str) == if Legal(t) then Some(Strip(t)) else None
      ensures AtomicTargets(t) ==> forall u :: Reads(Assignment, str, u) <==> Legal(t) && u == Strip(t)
    {
      str := EmitTreeNode(t);
      PrintThenParse(t);
      if AtomicTargets(t) {
        PrintThenParseEcma(t);
        forall u ensures Reads(Assignment, str, u) <==> Legal(t) && u == Strip(t) { PrintThenRead(t, u); }
      }
    }

    method EmitTreeNode(t: Tree) returns (str: seq<Token>)
      modifies this
      ensures str == Print(t) && mPrecedence == Level(t)
      decreases t, 1
    {
      match t {
        case Leaf(id) =>
          str := [Atom(id)];
          mPrecedence := ATOM;
        case Paren(e) =>
          var s := EmitTreeNode(e);
          str := [LParen] + s + [RParen];
          mPrecedence := PARENTHESIS;
        case Una(_, _, _) => str := EmitUnaOperatorNode(t);
        case Bin(_, _, _) => str := EmitBinOperatorNode(t);
        case Ter(_, _, _) => str := EmitTerOperatorNode(t);
      }
    }

    method EmitUnaOperatorNode(t: Tree) returns (str: seq<Token>)
      requires t.Una?
      modifies this
      ensures str == Print(t) && mPrecedence == Level(t)
      decreases t, 0
    {
      hide Code, Text;
      var op := GetEnumOprId(t.op);
      assert op[0] as int == Code(t.op) && op[1..] == Text(t.op);
      var precd := op[0] as int % 0x40;
      var rl_assoc := op[0] as int / 0x40 == 1;
      var opr := EmitTreeNode(t.opnd);
      if precd > mPrecedence || (precd == mPrecedence && ((rl_assoc && t.isPost) || (!rl_assoc && !t.isPost))) {
        opr := [LParen] + opr + [RParen];
      }
      str := if t.isPost then opr + [Sym(op[1..])] else [Sym(op[1..])] + opr;
      mPrecedence := precd;
    }

    method EmitBinOperatorNode(t: Tree) returns (str: seq<Token>)
      requires t.Bin?
      modifies this
      ensures str == Print(t) && mPrecedence == Level(t)
      decreases t, 0
    {
      hide Code, Text;
      var op := GetEnumOprId(t.op);
      assert op[0] as int == Code(t.op) && op[1..] == Text(t.op);
      var precd := op[0] as int % 0x40;
      var rl_assoc := op[0] as int / 0x40 == 1;
      var lhs := EmitTreeNode(t.a);
      if precd > mPrecedence || (precd == mPrecedence && rl_assoc) { lhs := [LParen] + lhs + [RParen]; }
      var rhs := EmitTreeNode(t.b);
      if precd > mPrecedence || (precd == mPrecedence && !rl_assoc) { rhs := [LParen] + rhs + [RParen]; }
      str := lhs + [Sym(op[1..])] + rhs;
      mPrecedence := precd;
    }

    // The middle operand stands between its own delimiters and is never put in parentheses.
    method EmitTerOperatorNode(t: Tree) returns (str: seq<Token>)
      requires t.Ter?
      modifies this
      ensures str == Print(t) && mPrecedence == Level(t)
      decreases t, 0
    {
      var precd, rl_assoc := 4, true;
      str := EmitTreeNode(t.a);
      if precd > mPrecedence || (precd == mPrecedence && rl_assoc) { str := [LParen] + str + [RParen]; }
      str := str + [Quest];
      var s := EmitTreeNode(t.b);
      str := str + s + [Colon];
      s := EmitTreeNode(t.c);
      if precd > mPrecedence { s := [LParen] + s + [RParen]; }
      str := str + s;
      mPrecedence := 4;
    }
  }
}
