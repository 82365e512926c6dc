/** The parser as the object it is: it drives a scanner token by token, and what
    it builds and leaves unread is what the grammar says. */
module Parser {
  import opened Ast
  import opened Tokens
  import opened Lexing
  import opened Rendering
  import opened Grammar
  import opened Statements
  import S = Scanner
  import Literals
  import LookingAhead

  class Parser {
    const scanner: S.Scanner

    /** The parser never looks ahead, and behind the end there is only the end. */
    ghost predicate Valid()
      reads scanner
    {
      && scanner.Valid() && scanner.lookAhead.kind == TUnknown
      && LookingAhead.NoEnd(scanner.View().tokens)
      && (scanner.token.kind == TEos ==> scanner.View().tokens == [])
    }

    /** The tokens from the current one on. */
    ghost function Left(): seq<Token>
      requires Valid()
      reads scanner
    {
      if scanner.token.kind == TEos then [] else [scanner.token] + scanner.View().tokens
    }

    constructor (text: string)
      ensures Valid() && fresh(scanner) && Left() == TokensOf(text)
    {
      scanner := new S.Scanner(text);
      new;
      ScannedValid(text);
      scanner.NextToken();
      assert scanner.View().tokens == S.Rest(TokensOf(text));
      assert TokensOf(text) != [] ==> TokensOf(text) == [TokensOf(text)[0]] + TokensOf(text)[1..];
    }

    /** The current token, or the end. */
    method CurrentToken() returns (t: Token)
      requires Valid()
      ensures t.kind == Kind(Left()) && (Left() != [] ==> Left()[0] == t)
    {
      return scanner.token;
    }

    method NextToken()
      requires Valid()
      modifies scanner
      ensures Valid() && Left() == S.Rest(old(Left()))
    {
      ghost var ts := scanner.View().tokens;
      scanner.NextToken();
      assert ts != [] ==> ts == [ts[0]] + ts[1..];
    }

    /** Whether the current token is of the kind; if so it is consumed. */
    method CheckToken(kind: TokenType, moveNext: bool := true) returns (ok: bool)
      requires Valid() && kind != TEos
      modifies scanner
      ensures Valid() && ok == (Kind(old(Left())) == kind)
      ensures ok ==> old(Left()) != [] && Left() == if moveNext then old(Left())[1..] else old(Left())
      ensures !ok ==> Left() == old(Left())
    {
      hide Valid, Left;
      var current := CurrentToken();
      if current.kind != kind {
        return false;
      }
      if moveNext {
        NextToken();
      }
      return true;
    }

    method CheckUnaryOper() returns (op: Option<UnOp>)
      requires Valid()
      modifies scanner
      ensures Valid() && op == UnOpAt(Kind(old(Left())))
      ensures Left() == if op.Some? then S.Rest(old(Left())) else old(Left())
    {
      hide Valid, Left, UnOpAt;
      var current := CurrentToken();
      op := UnOpAt(current.kind);
      if op.Some? {
        NextToken();
      }
    }

    /** A binary operator of the level. */
    method CheckBinaryOper(priority: nat) returns (op: Option<BinOp>)
      requires Valid()
      modifies scanner
      ensures Valid() && op.Some? == IsOper(old(Left()), priority)
      ensures op.Some? ==> op == BinOpAt(Kind(old(Left())))
      ensures Left() == if op.Some? then S.Rest(old(Left())) else old(Left())
    {
      hide Valid, Left, BinOpAt;
      var current := CurrentToken();
      op := BinOpAt(current.kind);
      if op.Some? && Priority(op.value) != priority {
        op := None;
      }
      if op.Some? {
        NextToken();
      }
    }

    // ----- expressions -----

    method ParseExpr() returns (r: Option<Expr>, ghost t: Tree)
      requires Valid()
      modifies scanner
      ensures Valid() && r.Some? == PExpr(old(Left())).Some?
      ensures r.Some? ==> PExpr(old(Left())) == Some((t, Left())) && r.value == Erase(t)
      decreases |Left()|, 20, 0
    {
      hide EraseAll, Valid, Left, PBinary, PExpr;
      ExprStep(Left());
      ghost var c, a, f;
      var cond, onTrue, onFalse;
      cond, c := ParseExprBinary(1);
      t := c;
      if cond.None? {
        return None, t;
      }
      var ok := CheckToken(TQuestion);
      if !ok {
        return cond, t;
      }
      onTrue, a := ParseExpr();
      if onTrue.None? {
        return None, t;
      }
      ok := CheckToken(TColon);
      if !ok {
        return None, t;
      }
      onFalse, f := ParseExpr();
      if onFalse.None? {
        return None, t;
      }
      t := TreeTrinary(c, a, f);
      r := Some(Trinary(cond.value, onTrue.value, onFalse.value));
    }

    method ParseOperand(priority: nat) returns (r: Option<Expr>, ghost t: Tree)
      requires Valid() && 1 <= priority <= MAX_LEVEL
      modifies scanner
      ensures Valid() && r.Some? == POperand(priority, old(Left())).Some?
      ensures r.Some? ==> POperand(priority, old(Left())) == Some((t, Left())) && r.value == Erase(t)
      decreases |Left()|, 18 - priority, 0
    {
      hide Valid, Left, PBinary, PUnary;
      if priority < MAX_LEVEL {
        r, t := ParseExprBinary(priority + 1);
      } else {
        r, t := ParseExprUnary();
      }
    }

    method ParseExprBinary(priority: nat) returns (r: Option<Expr>, ghost t: Tree)
      requires Valid() && 1 <= priority <= MAX_LEVEL
      modifies scanner
      ensures Valid() && r.Some? == PBinary(priority, old(Left())).Some?
      ensures r.Some? ==> PBinary(priority, old(Left())) == Some((t, Left())) && r.value == Erase(t)
      decreases |Left()|, 18 - priority, 1
    {
      hide Valid, Left, POperand;
      var left;
      left, t := ParseOperand(priority);
      if left.None? {
        return None, t;
      }
      while true
        invariant Valid() && left.Some? && left.value == Erase(t)
        invariant |Left()| < |old(Left())|
        invariant PBinary(priority, old(Left())) == PBinaryTail(priority, t, Left())
        decreases |Left()|
      {
        ghost var u;
        var oper := CheckBinaryOper(priority);
        if oper.None? {
          return left, t;
        }
        var right;
        right, u := ParseOperand(priority);
        if right.None? {
          return None, t;
        }
        t := TreeBinary(oper.value, t, u);
        left := Some(Expr.Binary(oper.value, left.value, right.value));
      }
    }

    method ParseExprUnary() returns (r: Option<Expr>, ghost t: Tree)
      requires Valid()
      modifies scanner
      ensures Valid() && r.Some? == PUnary(old(Left())).Some?
      ensures r.Some? ==> PUnary(old(Left())) == Some((t, Left())) && r.value == Erase(t)
      decreases |Left()|, 9, 0
    {
      hide Valid, Left, PAtom;
      var oper := CheckUnaryOper();
      r, t := ParseAtom();
      if oper.Some? && r.Some? {
        r := Some(Unary(oper.value, r.value));
        t := TreeUnary(oper.value, t);
      }
    }

    method ParseLiteral(tok: Token) returns (r: Option<Expr>)
      requires IsLiteral(tok.kind)
      ensures r == Some(LiteralOf(tok))
    {
      hide ReadsTrue, Literals.BasedValue, Literals.DecimalValue;
      match tok.kind {
        case TIntB =>
          var n := Literals.StringToValue(false, tok.value);
          return Some(IntLit(n));
        case TIntX =>
          var n := Literals.StringToValue(true, tok.value);
          return Some(IntLit(n));
        case TIntD => return Some(IntLit(Literals.DecimalValue(tok.value)));
        case TFloat => return Some(FloatLit(tok.value));
        case TString => return Some(StrLit(tok.value));
        case _ => return Some(BoolLit(ReadsTrue(tok.value)));
      }
    }

    method ParseAtom() returns (r: Option<Expr>, ghost t: Tree)
      requires Valid()
      modifies scanner
      ensures Valid() && r.Some? == PAtom(old(Left())).Some?
      ensures r.Some? ==> PAtom(old(Left())) == Some((t, Left())) && r.value == Erase(t)
      decreases |Left()|, 8, 0
    {
      hide Valid, Left, PSuffixed, PElems;
      t := TreeName("");
      var current := CurrentToken();
      if IsLiteral(current.kind) {
        t := TreeLit(current);
        r := ParseLiteral(current);
        NextToken();
      } else if current.kind == TLsb {
        r, t := ParseArrayDef();
      } else if current.kind == TId || current.kind == TLrb {
        r, t := ParseExprSuffixed();
      } else {
        r := None;
      }
    }

    method ParseExprSuffixed() returns (r: Option<Expr>, ghost t: Tree)
      requires Valid()
      modifies scanner
      ensures Valid() && r.Some? == PSuffixed(old(Left())).Some?
      ensures r.Some? ==> PSuffixed(old(Left())) == Some((t, Left())) && r.value == Erase(t)
      decreases |Left()|, 7, 0
    {
      hide Valid, Left, PPrimary, PExpr, PArgs;
      r, t := ParseExprPrimary();
      if r.None? {
        return;
      }
      while true
        invariant Valid() && r.Some? && r.value == Erase(t)
        invariant |Left()| < |old(Left())|
        invariant PSuffixed(old(Left())) == PSuffixes(t, Left())
        decreases |Left()|
      {
        var current := CurrentToken();
        match current.kind {
          case TDot => r, t := ParseObjectRef(r.value, t);
          case TLsb => r, t := ParseIndexRef(r.value, t);
          case TLrb => r, t := ParseFuncCall(r.value, t);
          case _ => return;
        }
        if r.None? {
          return;
        }
      }
    }

    method ParseExprPrimary() returns (r: Option<Expr>, ghost t: Tree)
      requires Valid()
      modifies scanner
      ensures Valid() && r.Some? == PPrimary(old(Left())).Some?
      ensures r.Some? ==> PPrimary(old(Left())) == Some((t, Left())) && r.value == Erase(t)
      decreases |Left()|, 6, 0
    {
      hide Valid, Left, PExpr;
      t := TreeName("");
      var ok := CheckToken(TLrb);
      if ok {
        r, t := ParseExpr();
        if r.None? {
          return;
        }
        ok := CheckToken(TRrb);
        if !ok {
          return None, t;
        }
        t := TreeParen(t);
        return;
      }
      ok := CheckToken(TId, false);
      if !ok {
        return None, t;
      }
      var current := CurrentToken();
      t := TreeName(current.value);
      r := Some(Sym(current.value));
      NextToken();
    }

    /** `.` and a name behind an expression. */
    method ParseObjectRef(primary: Expr, ghost p: Tree) returns (r: Option<Expr>, ghost t: Tree)
      requires Valid() && Kind(Left()) == TDot && primary == Erase(p)
      modifies scanner
      ensures Valid()
      ensures r.Some? ==> |Left()| < |old(Left())| && r.value == Erase(t) && PSuffixes(p, old(Left())) == PSuffixes(t, Left())
      ensures r.None? ==> PSuffixes(p, old(Left())) == None
      decreases |Left()|, 5, 0
    {
      hide Valid, Left, PExpr, PArgs, PSuffixes;
      OneSuffix(p, Left());
      t := p;
      var ok := CheckToken(TDot);
      ok := CheckToken(TId, false);
      if !ok {
        return None, t;
      }
      var current := CurrentToken();
      t := TreeField(p, current.value);
      r := Some(Field(primary, current.value));
      assert old(Left())[1..][1..] == old(Left())[2..];
      NextToken();
    }

    /** An expression in square brackets behind an expression. */
    method ParseIndexRef(primary: Expr, ghost p: Tree) returns (r: Option<Expr>, ghost t: Tree)
      requires Valid() && Kind(Left()) == TLsb && primary == Erase(p)
      modifies scanner
      ensures Valid()
      ensures r.Some? ==> |Left()| < |old(Left())| && r.value == Erase(t) && PSuffixes(p, old(Left())) == PSuffixes(t, Left())
      ensures r.None? ==> PSuffixes(p, old(Left())) == None
      decreases |Left()|, 5, 0
    {
      hide Valid, Left, PExpr, PArgs, PSuffixes;
      OneSuffix(p, Left());
      t := p;
      ghost var k;
      var key;
      var ok := CheckToken(TLsb);
      key, k := ParseExpr();
      if key.None? {
        return None, t;
      }
      ok := CheckToken(TRsb);
      if !ok {
        return None, t;
      }
      t := TreeIndex(p, k);
      r := Some(Index(primary, key.value));
    }

    /** The arguments of a call behind an expression. */
    method ParseFuncCall(primary: Expr, ghost p: Tree) returns (r: Option<Expr>, ghost t: Tree)
      requires Valid() && Kind(Left()) == TLrb && primary == Erase(p)
      modifies scanner
      ensures Valid()
      ensures r.Some? ==> |Left()| < |old(Left())| && r.value == Erase(t) && PSuffixes(p, old(Left())) == PSuffixes(t, Left())
      ensures r.None? ==> PSuffixes(p, old(Left())) == None
      decreases |Left()|, 5, 0
    {
      hide Valid, Left, PExpr, PArgs, PSuffixes;
      OneSuffix(p, Left());
      t := p;
      var ok := CheckToken(TLrb);
      ghost var ts;
      var args;
      ok, args, ts := ParseArgs();
      if !ok {
        return None, t;
      }
      t := TreeCall(p, ts);
      r := Some(Call(primary, args));
    }

    method ParseArgs() returns (ok: bool, args: seq<Expr>, ghost ts: seq<Tree>)
      requires Valid()
      modifies scanner
      ensures Valid() && ok == PArgs(old(Left()), true).Some?
      ensures ok ==> PArgs(old(Left()), true) == Some((ts, Left())) && args == EraseAll(ts)
      decreases |Left()|, 21, 0
    {
      hide Kind, Valid, Left, PExpr, PArgs, Prefixed, EraseAll, Erase;
      args, ts := [], [];
      ghost var w := Left();
      EraseNone();
      PrefixedNone(PArgs(w, true));
      ArgsStep(w, true);
      PrefixedEnds([]);
      var closed := CheckToken(TRrb);
      while !closed
        invariant Valid() && args == EraseAll(ts) && |Left()| <= |w| && (args == [] <==> ts == [])
        invariant closed ==> PArgs(w, true) == Some((ts, Left()))
        invariant !closed ==> Kind(Left()) != TRrb && PArgs(w, true) == Prefixed(ts, PArgs(Left(), ts == []))
        decreases |Left()|, !closed
      {
        ghost var v := Left();
        PrefixedEnds(ts);
        ArgsStep(v, ts == []);
        if args != [] {
          ok := CheckToken(TComma);
          if !ok {
            return false, args, ts;
          }
        }
        var arg;
        ghost var t;
        arg, t := ParseExpr();
        if arg.None? {
          return false, args, ts;
        }
        PrefixedMore(ts, t, PArgs(Left(), false));
        EraseMore(ts, t);
        PrefixedEnds(ts + [t]);
        ArgsStep(Left(), false);
        args, ts := args + [arg.value], ts + [t];
        closed := CheckToken(TRrb);
      }
      ok := true;
    }

    /** Elements with commas between them; a last comma is allowed. */
    method ParseArrayDef() returns (r: Option<Expr>, ghost t: Tree)
      requires Valid() && Kind(Left()) == TLsb
      modifies scanner
      ensures Valid() && r.Some? == PAtom(old(Left())).Some?
      ensures r.Some? ==> PAtom(old(Left())) == Some((t, Left())) && r.value == Erase(t)
      decreases |Left()|, 7, 0
    {
      hide Valid, Left, PExpr, PElems, EraseAll;
      t := TreeName("");
      var ok := CheckToken(TLsb);
      var elems;
      ghost var ts, trailing;
      ok, elems, ts, trailing := ParseElems();
      if !ok {
        return None, t;
      }
      t := TreeArray(ts, trailing);
      r := Some(Array(elems));
    }

    method ParseElems() returns (ok: bool, elems: seq<Expr>, ghost ts: seq<Tree>, ghost trailing: bool)
      requires Valid()
      modifies scanner
      ensures Valid() && ok == PElems(old(Left()), false).Some?
      ensures ok ==> PElems(old(Left()), false) == Some(((ts, trailing), Left())) && elems == EraseAll(ts)
      decreases |Left()|, 21, 0
    {
      hide Valid, Left, PExpr, EraseAll;
      elems, ts, trailing := [], [], false;
      ghost var w := Left();
      EraseNone();
      ElemsNone(PElems(w, false));
      var more := true;
      while more
        invariant Valid() && elems == EraseAll(ts) && |Left()| <= |w|
        invariant more ==> PElems(w, false) == PrefixedElems(ts, PElems(Left(), ts != []))
        invariant !more ==> PElems(w, false) ==
                            if Kind(Left()) == TRsb then Some(((ts, trailing), Left()[1..])) else None
        decreases |Left()|, more
      {
        var current := CurrentToken();
        if current.kind == TRsb {
          trailing := ts != [];
          assert ts + [] == ts;
          more := false;
        } else {
          var e;
          ghost var t;
          e, t := ParseExpr();
          if e.None? {
            return false, elems, ts, trailing;
          }
          ElemsMore(ts, t, PElems(S.Rest(Left()), true));
          EraseMore(ts, t);
          elems, ts, trailing := elems + [e.value], ts + [t], false;
          more := CheckToken(TComma);
        }
      }
      ok := CheckToken(TRsb);
    }

    // ----- types -----

    method ParseType() returns (r: Option<TypeRef>)
      requires Valid()
      modifies scanner
      ensures Valid() && r.Some? == PType(old(Left())).Some?
      ensures r.Some? ==> PType(old(Left())) == Some((r.value, Left()))
      decreases |Left()|, 1
    {
      hide Valid, Left, PTypeArgs;
      var ok := CheckToken(TId, false);
      if !ok {
        return None;
      }
      var current := CurrentToken();
      NextToken();
      ok := CheckToken(TLt);
      if !ok {
        return Some(TypeRef(current.value, []));
      }
      assert old(Left())[1..][1..] == old(Left())[2..];
      var args;
      ok, args := ParseTypeArgs();
      if !ok || args == [] {
        return None;
      }
      return Some(TypeRef(current.value, args));
    }

    method ParseTypeArgs() returns (ok: bool, args: seq<TypeRef>)
      requires Valid()
      modifies scanner
      ensures Valid() && ok == PTypeArgs(old(Left()), true).Some?
      ensures ok ==> PTypeArgs(old(Left()), true) == Some((args, Left()))
      decreases |Left()|, 2
    {
      hide Kind, Valid, Left, PType, PTypeArgs, PrefixedTypes;
      args := [];
      ghost var w := Left();
      TypesNone(PTypeArgs(w, true));
      TypeArgsStep(w, true);
      TypesEnd([]);
      var closed := CheckToken(TGt);
      while !closed
        invariant Valid() && |Left()| <= |w|
        invariant closed ==> PTypeArgs(w, true) == Some((args, Left()))
        invariant !closed ==> Kind(Left()) != TGt && PTypeArgs(w, true) == PrefixedTypes(args, PTypeArgs(Left(), args == []))
        decreases |Left()|, !closed
      {
        TypeArgsStep(Left(), args == []);
        TypesEnd(args);
        if args != [] {
          ok := CheckToken(TComma);
          if !ok {
            return false, args;
          }
        }
        var arg := ParseType();
        if arg.None? {
          return false, args;
        }
        TypeArgsStep(Left(), false);
        TypesMore(args, arg.value, PTypeArgs(Left(), false));
        args := args + [arg.value];
        TypesEnd(args);
        closed := CheckToken(TGt);
      }
      ok := true;
    }

    method ParseOptType() returns (ok: bool, ty: Option<TypeRef>)
      requires Valid()
      modifies scanner
      ensures Valid() && ok == POptType(old(Left())).Some?
      ensures ok ==> POptType(old(Left())) == Some((ty, Left()))
    {
      hide Valid, Left, PType;
      ty := None;
      ok := CheckToken(TColon);
      if !ok {
        return true, ty;
      }
      ty := ParseType();
      ok := ty.Some?;
    }

    // ----- statements -----

    method ParseStmtSymbolDef() returns (r: Option<Stmt>, ghost t: STree)
      requires Valid()
      modifies scanner
      ensures Valid() && r.Some? == PDef(old(Left())).Some?
      ensures r.Some? ==> PDef(old(Left())) == Some((t, Left())) && r.value == EraseStmt(t)
    {
      hide Valid, Left, PExpr, POptType;
      t := StBreak;
      var first := CurrentToken();
      if first.kind != TVar && first.kind != TVal {
        return None, t;
      }
      NextToken();
      var ok := CheckToken(TId, false);
      if !ok {
        return None, t;
      }
      var name := CurrentToken();
      NextToken();
      assert old(Left())[1..][1..] == old(Left())[2..];
      var ty;
      ok, ty := ParseOptType();
      if !ok {
        return None, t;
      }
      ok := CheckToken(TAssign);
      if !ok {
        return None, t;
      }
      ghost var v;
      var value;
      value, v := ParseExpr();
      if value.None? {
        return None, t;
      }
      t := StDef(first.kind == TVar, name.value, ty, v);
      r := Some(SymbolDef(first.kind == TVar, name.value, ty, value.value));
    }

    method ParseStmtAssignOrCall() returns (r: Option<Stmt>, ghost t: STree)
      requires Valid()
      modifies scanner
      ensures Valid() && r.Some? == PAssignOrCall(old(Left())).Some?
      ensures r.Some? ==> PAssignOrCall(old(Left())) == Some((t, Left())) && r.value == EraseStmt(t)
    {
      hide Valid, Left, PExpr, PSuffixed;
      t := StBreak;
      ghost var l, v;
      var left, right;
      left, l := ParseExprSuffixed();
      if left.None? {
        return None, t;
      }
      var ok := CheckToken(TAssign);
      if ok {
        right, v := ParseExpr();
        if right.None? {
          return None, t;
        }
        t := StAssign(l, v);
        return Some(Assign(left.value, right.value)), t;
      }
      if !left.value.Call? {
        return None, t;
      }
      t := StInvoke(l);
      r := Some(Invoke(left.value));
    }

    method ParseStmtReturn() returns (r: Option<Stmt>, ghost t: STree)
      requires Valid()
      modifies scanner
      ensures Valid() && r.Some? == PReturn(old(Left())).Some?
      ensures r.Some? ==> PReturn(old(Left())) == Some((t, Left())) && r.value == EraseStmt(t)
    {
      hide Valid, Left, PExpr;
      t := StReturn(None);
      var ok := CheckToken(TReturn);
      if !ok {
        return None, t;
      }
      ok := CheckToken(TSemicolon, false);
      if ok {
        return Some(Return(None)), t;
      }
      ghost var v;
      var value;
      value, v := ParseExpr();
      if value.None? {
        return None, t;
      }
      t := StReturn(Some(v));
      r := Some(Return(value));
    }

    method ParseStmtLoopStep() returns (r: Option<Stmt>, ghost t: STree)
      requires Valid()
      modifies scanner
      ensures Valid() && r.Some? == PStep(old(Left())).Some?
      ensures r.Some? ==> PStep(old(Left())) == Some((t, Left())) && r.value == EraseStmt(t)
    {
      hide Valid, Left, PDef, PAssignOrCall;
      var current := CurrentToken();
      if current.kind == TVar || current.kind == TVal {
        r, t := ParseStmtSymbolDef();
      } else {
        r, t := ParseStmtAssignOrCall();
      }
    }

    method ParseStmt() returns (r: Option<Stmt>, ghost t: STree)
      requires Valid()
      modifies scanner
      ensures Valid() && r.Some? == PStmt(old(Left())).Some?
      ensures r.Some? ==> PStmt(old(Left())) == Some((t, Left())) && r.value == EraseStmt(t)
      decreases |Left()|, 1
    {
      hide Valid, Left, PStmt, Expect, PDef, PAssignOrCall, PReturn, PIf, PLoop, PItems, EraseStmt;
      r, t := None, StBreak;
      StmtByKind(Left());
      JumpsErased();
      var semicolon := true;
      var current := CurrentToken();
      match current.kind {
        case TStruct => return;
        case TEnum => return;
        case TProc => return;
        case TVar => r, t := ParseStmtSymbolDef();
        case TVal => r, t := ParseStmtSymbolDef();
        case TBreak =>
          NextToken();
          r, t := Some(Break), StBreak;
        case TContinue =>
          NextToken();
          r, t := Some(Continue), StContinue;
        case TReturn => r, t := ParseStmtReturn();
        case TIf =>
          r, t := ParseStmtIf();
          return;
        case TLoop =>
          r, t := ParseStmtLoop();
          return;
        case TLcb =>
          r, t := ParseStmtBlock();
          return;
        case _ => r, t := ParseStmtAssignOrCall();
      }
      if r.None? {
        ExpectIs(None, TSemicolon);
        return;
      }
      ExpectIs(Some((t, Left())), TSemicolon);
      var ok := CheckToken(TSemicolon);
      if !ok {
        r := None;
      }
    }

    /** A keyword and the bracket behind it. */
    method CheckOpening(kind: TokenType) returns (ok: bool)
      requires Valid() && kind != TEos
      modifies scanner
      ensures Valid() && ok == (Kind(old(Left())) == kind && Kind(old(Left())[1..]) == TLrb)
      ensures ok ==> Left() == old(Left())[2..] && |Left()| < |old(Left())|
    {
      hide Valid, Left;
      ok := CheckToken(kind);
      if !ok {
        return;
      }
      ok := CheckToken(TLrb);
      assert ok ==> old(Left())[1..][1..] == old(Left())[2..];
    }

    /** An expression and a token behind it. */
    method ParseExprThen(kind: TokenType) returns (r: Option<Expr>, ghost t: Tree)
      requires Valid() && kind != TEos
      modifies scanner
      ensures Valid() && r.Some? == Expect(PExpr(old(Left())), kind).Some?
      ensures r.Some? ==> Expect(PExpr(old(Left())), kind) == Some((t, Left())) && r.value == Erase(t)
      ensures r.Some? ==> |Left()| < |old(Left())|
    {
      hide Valid, Left, PExpr;
      r, t := ParseExpr();
      if r.None? {
        return;
      }
      var ok := CheckToken(kind);
      if !ok {
        r := None;
      }
    }

    method ParseStmtIf() returns (r: Option<Stmt>, ghost t: STree)
      requires Valid()
      modifies scanner
      ensures Valid() && r.Some? == PIf(old(Left())).Some?
      ensures r.Some? ==> PIf(old(Left())) == Some((t, Left())) && r.value == EraseStmt(t)
      decreases |Left()|, 0
    {
      hide Valid, Left, Kind, PExpr, PStmt, PIf, PElse, Expect, Erase;
      IfByElse(Left());
      t := StBreak;
      var ok := CheckOpening(TIf);
      if !ok {
        return None, t;
      }
      ghost var c, a, b;
      var cond, onTrue, onFalse;
      cond, c := ParseExprThen(TRrb);
      if cond.None? {
        return None, t;
      }
      onTrue, a := ParseStmt();
      if onTrue.None? {
        return None, t;
      }
      ok, onFalse, b := ParseElse();
      if !ok {
        return None, t;
      }
      t := StIf(c, a, b);
      r := Some(If(cond.value, onTrue, onFalse));
    }

    /** The `else` branch, if there is one. */
    method ParseElse() returns (ok: bool, r: Option<Stmt>, ghost t: Option<STree>)
      requires Valid()
      modifies scanner
      ensures Valid() && ok == PElse(old(Left())).Some?
      ensures ok ==> PElse(old(Left())) == Some((t, Left()))
      ensures ok ==> r == if t.Some? then Some(EraseStmt(t.value)) else None
      decreases |Left()|, 2
    {
      hide Valid, Left, PStmt, EraseStmt;
      r, t := None, None;
      ok := CheckToken(TElse);
      if !ok {
        return true, r, t;
      }
      ghost var b;
      r, b := ParseStmt();
      ok, t := r.Some?, Some(b);
    }

    method ParseStmtLoopInit() returns (r: Option<Stmt>, ghost t: STree)
      requires Valid()
      modifies scanner
      ensures Valid() && r.Some? == Expect(PDef(old(Left())), TSemicolon).Some?
      ensures r.Some? ==> Expect(PDef(old(Left())), TSemicolon) == Some((t, Left())) && r.value == EraseStmt(t)
    {
      hide Valid, Left, PDef;
      r, t := ParseStmtSymbolDef();
      if r.None? {
        return;
      }
      var ok := CheckToken(TSemicolon);
      if !ok {
        r := None;
      }
    }

    method ParseStmtLoopHead()
        returns (ok: bool, init: Option<Stmt>, guard: Option<Expr>, step: Option<Stmt>, ghost h: (STree, Tree, STree))
      requires Valid()
      modifies scanner
      ensures Valid() && ok == PLoopHead(old(Left())).Some?
      ensures ok ==> PLoopHead(old(Left())) == Some((h, Left()))
      ensures ok ==> init == Some(EraseStmt(h.0)) && guard == Some(Erase(h.1)) && step == Some(EraseStmt(h.2))
    {
      hide Kind, Valid, Left, PExpr, PDef, PStep, Expect, EraseStmt, Erase;
      init, guard, step, h := None, None, None, (StBreak, TreeName(""), StBreak);
      ok := CheckOpening(TLoop);
      if !ok {
        return;
      }
      ghost var i, c, s;
      init, i := ParseStmtLoopInit();
      if init.None? {
        ok := false;
        return;
      }
      guard, c := ParseExprThen(TSemicolon);
      if guard.None? {
        ok := false;
        return;
      }
      step, s := ParseStmtLoopStepThen(TRrb);
      ok := step.Some?;
      h := (i, c, s);
    }

    method ParseStmtLoopStepThen(kind: TokenType) returns (r: Option<Stmt>, ghost t: STree)
      requires Valid() && kind != TEos
      modifies scanner
      ensures Valid() && r.Some? == Expect(PStep(old(Left())), kind).Some?
      ensures r.Some? ==> Expect(PStep(old(Left())), kind) == Some((t, Left())) && r.value == EraseStmt(t)
    {
      hide Valid, Left, PStep, EraseStmt;
      r, t := ParseStmtLoopStep();
      if r.None? {
        return;
      }
      var ok := CheckToken(kind);
      if !ok {
        r := None;
      }
    }

    method ParseStmtLoop() returns (r: Option<Stmt>, ghost t: STree)
      requires Valid()
      modifies scanner
      ensures Valid() && r.Some? == PLoop(old(Left())).Some?
      ensures r.Some? ==> PLoop(old(Left())) == Some((t, Left())) && r.value == EraseStmt(t)
      decreases |Left()|, 0
    {
      hide Valid, Left, PLoopHead, PStmt;
      t := StBreak;
      ghost var h, b;
      var ok, init, guard, step, body;
      ok, init, guard, step, h := ParseStmtLoopHead();
      if !ok {
        return None, t;
      }
      body, b := ParseStmt();
      if body.None? {
        return None, t;
      }
      t := StLoop(h.0, h.1, h.2, b);
      r := Some(Loop(init, guard, step, body));
    }

    method ParseStmtBlock() returns (r: Option<Stmt>, ghost t: STree)
      requires Valid() && Kind(Left()) == TLcb
      modifies scanner
      ensures Valid() && r.Some? == PStmt(old(Left())).Some?
      ensures r.Some? ==> PStmt(old(Left())) == Some((t, Left())) && r.value == EraseStmt(t)
      decreases |Left()|, 0
    {
      hide Valid, Left, PItems, EraseItems;
      t := StBreak;
      var ok := CheckToken(TLcb);
      ghost var items;
      var stmts;
      ok, stmts, items := ParseItems();
      if !ok {
        return None, t;
      }
      t := StBlock(items);
      r := Some(Block(stmts));
    }

    method ParseItems() returns (ok: bool, stmts: seq<Stmt>, ghost items: seq<Item>)
      requires Valid()
      modifies scanner
      ensures Valid() && ok == PItems(old(Left())).Some?
      ensures ok ==> PItems(old(Left())) == Some((items, Left())) && stmts == EraseItems(items)
      decreases |Left()|, 2
    {
      hide Valid, Left, PStmt, EraseItems, EraseStmt, Kind;
      stmts, items := [], [];
      ghost var w := Left();
      ItemsNone(PItems(w));
      var closed := CheckToken(TRcb);
      while !closed
        invariant Valid() && |Left()| <= |w| && stmts == EraseItems(items)
        invariant closed ==> PItems(w) == Some((items, Left()))
        invariant !closed ==> Kind(Left()) != TRcb && PItems(w) == PrefixedItems(items, PItems(Left()))
        decreases |Left()|, !closed
      {
        var stmt;
        ghost var s;
        stmt, s := ParseStmt();
        if stmt.None? {
          return false, stmts, items;
        }
        var extra := CheckToken(TSemicolon);
        ItemsMore(items, Item(s, extra), PItems(Left()));
        stmts, items := stmts + [stmt.value], items + [Item(s, extra)];
        closed := CheckToken(TRcb);
        if closed {
          assert items + [] == items;
        }
      }
      ok := true;
    }

    /** Statements up to the end of the text. */
    method ParseModule() returns (ok: bool, body: seq<Stmt>, ghost ts: seq<STree>)
      requires Valid()
      modifies scanner
      ensures Valid() && ok == PModule(old(Left())).Some?
      ensures ok ==> PModule(old(Left())) == Some(ts) && body == EraseModule(ts)
    {
      hide Valid, Left, PStmt, EraseModule, EraseStmt;
      body, ts := [], [];
      ghost var w := Left();
      ModuleNone(PModule(w));
      var current := CurrentToken();
      while current.kind != TEos
        invariant Valid() && body == EraseModule(ts) && current.kind == Kind(Left())
        invariant PModule(w) == PrefixedModule(ts, PModule(Left()))
        decreases |Left()|
      {
        if current.kind == TImport || current.kind == TExport {
          return false, body, ts;
        }
        var stmt;
        ghost var s;
        stmt, s := ParseStmt();
        if stmt.None? {
          return false, body, ts;
        }
        ModuleMore(ts, s, PModule(Left()));
        body, ts := body + [stmt.value], ts + [s];
        current := CurrentToken();
      }
      assert ts + [] == ts;
      ok := true;
    }
  }

  /** One suffix of the loop. */
  lemma {:induction false} OneSuffix(p: Tree, w: seq<Token>)
    ensures Kind(w) == TDot ==>
              PSuffixes(p, w) == if Kind(w[1..]) == TId then PSuffixes(TreeField(p, w[1].value), w[2..]) else None
    ensures Kind(w) == TLsb ==>
              PSuffixes(p, w) ==
              match PExpr(w[1..])
              case None => None
              case Some((k, w1)) => if Kind(w1) == TRsb then PSuffixes(TreeIndex(p, k), w1[1..]) else None
    ensures Kind(w) == TLrb ==>
              PSuffixes(p, w) ==
              match PArgs(w[1..], true)
              case None => None
              case Some((ts, w1)) => PSuffixes(TreeCall(p, ts), w1)
  {
    hide PExpr, PArgs;
  }

  /** Which rule the first token selects. */
  lemma {:induction false} StmtByKind(w: seq<Token>)
    ensures var k := Kind(w);
            PStmt(w) ==
            if k in {TStruct, TEnum, TProc} then None
            else if k == TIf then PIf(w)
            else if k == TLoop then PLoop(w)
            else if k == TLcb then PStmt(w)
            else Expect(
              if k == TVar || k == TVal then PDef(w)
              else if k == TBreak then Some((StBreak, w[1..]))
              else if k == TContinue then Some((StContinue, w[1..]))
              else if k == TReturn then PReturn(w)
              else PAssignOrCall(w), TSemicolon)
  {
    hide PDef, PAssignOrCall, PReturn, PIf, PLoop, PItems, Expect;
  }

  lemma {:induction false} ExprStep(w: seq<Token>)
    ensures PExpr(w) ==
            match PBinary(1, w)
            case None => None
            case Some((c, w1)) =>
              if Kind(w1) != TQuestion then Some((c, w1)) else
              match PExpr(w1[1..])
              case None => None
              case Some((t, w2)) =>
                if Kind(w2) != TColon then None else
                match PExpr(w2[1..])
                case None => None
                case Some((f, w3)) => Some((TreeTrinary(c, t, f), w3))
  {
    hide PBinary;
  }

  ghost function PElse(w: seq<Token>): Parsed<Option<STree>> {
    if Kind(w) != TElse then Some((None, w)) else
    match PStmt(w[1..])
    case None => None
    case Some((f, w1)) => Some((Some(f), w1))
  }

  lemma {:induction false} IfByElse(w: seq<Token>)
    ensures PIf(w) ==
            if Kind(w) != TIf || Kind(w[1..]) != TLrb then None else
            match Expect(PExpr(w[2..]), TRrb)
            case None => None
            case Some((c, w1)) =>
              match PStmt(w1)
              case None => None
              case Some((t, w2)) =>
                match PElse(w2)
                case None => None
                case Some((f, w3)) => Some((StIf(c, t, f), w3))
  {
    hide PStmt, PExpr, Expect;
  }

  lemma {:induction false} ExpectIs(r: Parsed<STree>, kind: TokenType)
    ensures Expect(r, kind) ==
            if r.Some? && r.value.1 != [] && Kind(r.value.1) == kind then Some((r.value.0, r.value.1[1..])) else None
  {
  }

  ghost function PrefixedElems(ts: seq<Tree>, r: Parsed<(seq<Tree>, bool)>): Parsed<(seq<Tree>, bool)> {
    match r
    case None => None
    case Some(((us, trailing), w)) => Some(((ts + us, trailing), w))
  }

  lemma {:induction false} ElemsNone(r: Parsed<(seq<Tree>, bool)>)
    ensures PrefixedElems([], r) == r
  {
    if r.Some? {
      assert [] + r.value.0.0 == r.value.0.0;
    }
  }

  lemma {:induction false} ElemsMore(ts: seq<Tree>, t: Tree, r: Parsed<(seq<Tree>, bool)>)
    ensures PrefixedElems(ts + [t], r) == PrefixedElems(ts, PrefixedElems([t], r))
  {
    if r.Some? {
      assert ts + [t] + r.value.0.0 == ts + ([t] + r.value.0.0);
    }
  }

  lemma {:induction false} PrefixedNone(r: Parsed<seq<Tree>>)
    ensures Prefixed([], r) == r
  {
    if r.Some? {
      assert [] + r.value.0 == r.value.0;
    }
  }

  /** A parse behind trees that were read before. */
  ghost function Prefixed(ts: seq<Tree>, r: Parsed<seq<Tree>>): Parsed<seq<Tree>> {
    match r
    case None => None
    case Some((us, w)) => Some((ts + us, w))
  }

  lemma {:induction false} PrefixedMore(ts: seq<Tree>, t: Tree, r: Parsed<seq<Tree>>)
    ensures Prefixed(ts + [t], r) == Prefixed(ts, Prefixed([t], r))
  {
    if r.Some? {
      assert ts + [t] + r.value.0 == ts + ([t] + r.value.0);
    }
  }

  lemma {:induction false} PrefixedEnds(ts: seq<Tree>)
    ensures forall w :: Prefixed(ts, Some(([], w))) == Some((ts, w))
    ensures Prefixed(ts, None) == None
  {
    assert ts + [] == ts;
  }

  lemma {:induction false} ArgsStep(w: seq<Token>, first: bool)
    ensures PArgs(w, first) ==
            if Kind(w) == TRrb then Some(([], w[1..]))
            else if !first && Kind(w) != TComma then None
            else
              match PExpr(if first then w else w[1..])
              case None => None
              case Some((t, w1)) => Prefixed([t], PArgs(w1, false))
  {
    hide PExpr;
  }

  lemma {:induction false} TypesEnd(ts: seq<TypeRef>)
    ensures forall w :: PrefixedTypes(ts, Some(([], w))) == Some((ts, w))
    ensures PrefixedTypes(ts, None) == None
  {
    assert ts + [] == ts;
  }

  lemma {:induction false} TypeArgsStep(w: seq<Token>, first: bool)
    ensures PTypeArgs(w, first) ==
            if Kind(w) == TGt then Some(([], w[1..]))
            else if !first && Kind(w) != TComma then None
            else
              match PType(if first then w else w[1..])
              case None => None
              case Some((t, w1)) => PrefixedTypes([t], PTypeArgs(w1, false))
  {
    hide PType;
  }

  lemma {:induction false} EraseNone()
    ensures EraseAll([]) == []
  {
  }

  lemma {:induction false} EraseMore(ts: seq<Tree>, t: Tree)
    ensures EraseAll(ts + [t]) == EraseAll(ts) + [Erase(t)]
  {
    if ts == [] {
      assert [t][1..] == [] && ts + [t] == [t];
    } else {
      EraseMore(ts[1..], t);
      assert (ts + [t])[1..] == ts[1..] + [t];
    }
  }

  ghost function PrefixedTypes(ts: seq<TypeRef>, r: Parsed<seq<TypeRef>>): Parsed<seq<TypeRef>> {
    match r
    case None => None
    case Some((us, w)) => Some((ts + us, w))
  }

  lemma {:induction false} TypesNone(r: Parsed<seq<TypeRef>>)
    ensures PrefixedTypes([], r) == r
  {
    if r.Some? {
      assert [] + r.value.0 == r.value.0;
    }
  }

  lemma {:induction false} TypesMore(ts: seq<TypeRef>, t: TypeRef, r: Parsed<seq<TypeRef>>)
    ensures PrefixedTypes(ts + [t], r) == PrefixedTypes(ts, PrefixedTypes([t], r))
  {
    if r.Some? {
      assert ts + [t] + r.value.0 == ts + ([t] + r.value.0);
    }
  }

  ghost function PrefixedItems(ss: seq<Item>, r: Parsed<seq<Item>>): Parsed<seq<Item>> {
    match r
    case None => None
    case Some((us, w)) => Some((ss + us, w))
  }

  lemma {:induction false} ItemsNone(r: Parsed<seq<Item>>)
    ensures PrefixedItems([], r) == r && EraseItems([]) == []
  {
    if r.Some? {
      assert [] + r.value.0 == r.value.0;
    }
  }

  lemma {:induction false} ItemsMore(ss: seq<Item>, i: Item, r: Parsed<seq<Item>>)
    ensures PrefixedItems(ss + [i], r) == PrefixedItems(ss, PrefixedItems([i], r))
    ensures EraseItems(ss + [i]) == EraseItems(ss) + [EraseStmt(i.stmt)]
  {
    hide EraseStmt;
    if r.Some? {
      assert ss + [i] + r.value.0 == ss + ([i] + r.value.0);
    }
    if ss == [] {
      assert [i][1..] == [] && ss + [i] == [i];
    } else {
      ItemsMore(ss[1..], i, r);
      assert (ss + [i])[1..] == ss[1..] + [i];
    }
  }

  ghost function PrefixedModule(ss: seq<STree>, r: Option<seq<STree>>): Option<seq<STree>> {
    match r
    case None => None
    case Some(us) => Some(ss + us)
  }

  lemma {:induction false} ModuleNone(r: Option<seq<STree>>)
    ensures PrefixedModule([], r) == r && EraseModule([]) == []
  {
    if r.Some? {
      assert [] + r.value == r.value;
    }
  }

  lemma {:induction false} ModuleMore(ss: seq<STree>, s: STree, r: Option<seq<STree>>)
    ensures PrefixedModule(ss + [s], r) == PrefixedModule(ss, PrefixedModule([s], r))
    ensures EraseModule(ss + [s]) == EraseModule(ss) + [EraseStmt(s)]
  {
    hide EraseStmt;
    if r.Some? {
      assert ss + [s] + r.value == ss + ([s] + r.value);
    }
    if ss == [] {
      assert [s][1..] == [] && ss + [s] == [s];
    } else {
      ModuleMore(ss[1..], s, r);
      assert (ss + [s])[1..] == ss[1..] + [s];
    }
  }

  lemma {:induction false} JumpsErased()
    ensures EraseStmt(StBreak) == Break && EraseStmt(StContinue) == Continue
  {
  }
}
