/** Expressions, the tokens they are printed as, and the printers as functions of a precedence. */
module Expressions {

  datatype UnOp = Neg | Cmpl | LNot

  datatype BinOp =
    | Mul | Div | Mod | Add | Sub | Concat | Shl | Shr | Lss | Leq | Grt | Geq | Equ | Neq
    | BAnd | BXor | BOr | LAnd | LOr | Range | Mask

  /** A name, and the one the user gave it; a null original name counts as the name itself. */
  datatype ID = ID(name: string, original: string)

  datatype Expr =
    | PathExpression(path: ID, absolute: bool)
    | Constant(value: int)
    | BoolLiteral(truth: bool)
    | StringLiteral(text: string)
    | DefaultExpression
    | This
    | Unary(uop: UnOp, expr: Expr)
    | Binary(bop: BinOp, left: Expr, right: Expr)
    | Mux(e0: Expr, e1: Expr, e2: Expr)
    | Slice(base: Expr, hi: Expr, lo: Expr)
    | Member(of: Expr, member: ID)
    | ArrayIndex(array_: Expr, index: Expr)
    | MethodCall(method_: Expr, arguments: seq<Expr>)
    | ListExpression(components: seq<Expr>)

  /** `-` is one token, whether it negates or subtracts. */
  datatype Token =
    | Name(name: string) | Num(value: nat) | Text(text: string) | DEFAULT | THIS
    | MINUS | TILDE | BANG | STAR | SLASH | PERCENT | PLUS | PLUSPLUS | SHL | SHR | LT | LE | GT | GE | EQ | NE
    | AND | XOR | OR | ANDAND | OROR | DOTDOT | ANDANDAND
    | QUESTION | COLON | DOT | COMMA | SEMI | LPAREN | RPAREN | LBRACKET | RBRACKET | LBRACE | RBRACE

  // ---------- precedences ----------

  const POSTFIX := 15
  const PREFIX := 14
  const COND := 3
  const LOW := 1

  function Prec(op: BinOp): (p: nat)
    ensures LOW <= p < PREFIX
  {
    match op
    case Mul | Div | Mod => 13
    case Add | Sub | Concat => 12
    case Shl | Shr => 11
    case Lss | Leq | Grt | Geq => 10
    case Equ | Neq => 9
    case BAnd => 8
    case BXor => 7
    case BOr => 6
    case LAnd => 5
    case LOr => 4
    case Range | Mask => LOW
  }

  function UnToken(op: UnOp): Token
  {
    match op
    case Neg => MINUS
    case Cmpl => TILDE
    case LNot => BANG
  }

  function BinToken(op: BinOp): Token
  {
    match op
    case Mul => STAR
    case Div => SLASH
    case Mod => PERCENT
    case Add => PLUS
    case Sub => MINUS
    case Concat => PLUSPLUS
    case Shl => SHL
    case Shr => SHR
    case Lss => LT
    case Leq => LE
    case Grt => GT
    case Geq => GE
    case Equ => EQ
    case Neq => NE
    case BAnd => AND
    case BXor => XOR
    case BOr => OR
    case LAnd => ANDAND
    case LOr => OROR
    case Range => DOTDOT
    case Mask => ANDANDAND
  }

  // ---------- printing ----------

  /** The text `ts` of an operator of precedence `own` where `prec` is asked for: in parentheses if
      it binds more weakly, and ended by a semicolon if it is a statement. */
  function Framed(own: nat, prec: nat, ts: seq<Token>): seq<Token>
  {
    (if prec > own then [LPAREN] + ts + [RPAREN] else ts) + Semi(prec)
  }

  function Semi(prec: nat): seq<Token>
  {
    if prec == 0 then [SEMI] else []
  }

  /** A renamed name is followed by the original one. */
  function IdTokens(id: ID): seq<Token>
  {
    if id.original != id.name then [Name(id.name), SLASH, Name(id.original)] else [Name(id.name)]
  }

  /** What `dbprint` writes when the stream's precedence is `prec`. */
  function Print(e: Expr, prec: nat): seq<Token>
    decreases e, 1
  {
    match e
    case PathExpression(path, _) => IdTokens(path) + Semi(prec)
    case Constant(value) => if value < 0 then [MINUS, Num(-value)] else [Num(value)]
    case BoolLiteral(truth) => [Num(if truth then 1 else 0)] + Semi(prec)
    case StringLiteral(text) => [Text(text)]
    case DefaultExpression => [DEFAULT]
    case This => [THIS]
    case Unary(op, x) => UnaryTokens(op, x, prec)
    case Binary(op, l, r) => BinaryTokens(op, l, r, prec)
    case Mux(a, b, c) => MuxTokens(a, b, c, prec)
    case Slice(x, hi, lo) => SliceTokens(x, hi, lo, prec)
    case Member(x, name) => MemberTokens(x, name, prec)
    case ArrayIndex(x, i) => IndexTokens(x, i, prec)
    case MethodCall(m, args) => CallTokens(m, args, prec)
    case ListExpression(items) => ListTokens(items, prec)
  }

  function UnaryTokens(op: UnOp, x: Expr, prec: nat): seq<Token>
    decreases Unary(op, x), 0
  {
    Framed(PREFIX, prec, [UnToken(op)] + Print(x, PREFIX))
  }

  function BinaryTokens(op: BinOp, l: Expr, r: Expr, prec: nat): seq<Token>
    decreases Binary(op, l, r), 0
  {
    Framed(Prec(op), prec, Print(l, Prec(op)) + [BinToken(op)] + Print(r, Prec(op) + 1))
  }

  function MuxTokens(a: Expr, b: Expr, c: Expr, prec: nat): seq<Token>
    decreases Mux(a, b, c), 0
  {
    Framed(COND, prec, Print(a, COND + 1) + [QUESTION] + Print(b, LOW) + [COLON] + Print(c, COND))
  }

  function SliceTokens(x: Expr, hi: Expr, lo: Expr, prec: nat): seq<Token>
    decreases Slice(x, hi, lo), 0
  {
    Print(x, POSTFIX) + [LBRACKET] + Print(hi, LOW) + [COLON] + Print(lo, LOW) + [RBRACKET] + Semi(prec)
  }

  function MemberTokens(x: Expr, name: ID, prec: nat): seq<Token>
    decreases Member(x, name), 0
  {
    Print(x, POSTFIX) + [DOT] + IdTokens(name) + Semi(prec)
  }

  function IndexTokens(x: Expr, i: Expr, prec: nat): seq<Token>
    decreases ArrayIndex(x, i), 0
  {
    Print(x, POSTFIX) + [LBRACKET] + Print(i, LOW) + [RBRACKET] + Semi(prec)
  }

  function CallTokens(m: Expr, args: seq<Expr>, prec: nat): seq<Token>
    decreases MethodCall(m, args), 0
  {
    Framed(POSTFIX, prec, Print(m, POSTFIX) + [LPAREN] + PrintAll(args, 0) + [RPAREN])
  }

  function ListTokens(items: seq<Expr>, prec: nat): seq<Token>
    decreases ListExpression(items), 0
  {
    Framed(POSTFIX, prec, [LBRACE] + PrintAll(items, 0) + [RBRACE])
  }

  /** The operands from the `i`-th on, with commas between them. */
  function PrintAll(items: seq<Expr>, i: nat): seq<Token>
    requires i <= |items|
    decreases items, |items| - i
  {
    if i == |items| then []
    else Comma(i) + Print(items[i], LOW) + PrintAll(items, i + 1)
  }

  function Comma(i: nat): seq<Token>
  {
    if i > 0 then [COMMA] else []
  }

  // ---------- the printers as they run ----------

  type Precedence = p: nat | p < 16

  /** The stream a printer writes to: what has been written, and the flags, of which the lowest four
      bits are the precedence. */
  class Stream {
    var out: seq<Token>
    var prec: Precedence
    var otherFlags: nat

    constructor (prec: Precedence, otherFlags: nat)
      ensures out == [] && this.prec == prec && this.otherFlags == otherFlags
    {
      out, this.prec, this.otherFlags := [], prec, otherFlags;
    }

    method GetPrec() returns (p: Precedence)
      ensures p == prec
    {
      p := prec;
    }

    method SetPrec(p: Precedence)
      modifies this`prec
      ensures prec == p
    {
      prec := p;
    }

    method Put(ts: seq<Token>)
      modifies this`out
      ensures out == old(out) + ts
    {
      out := out + ts;
    }

    /** An operand at the precedence `prec`. */
    method PrintAt(e: Expr, p: Precedence)
      modifies this`out, this`prec
      ensures out == old(out) + Print(e, p) && prec == p
      decreases e, 5
    {
      SetPrec(p);
      DbPrint(e);
    }

    /** Every printer appends its text and leaves the flags as it found them. */
    method DbPrint(e: Expr)
      modifies this`out, this`prec
      ensures out == old(out) + Print(e, old(prec))
      ensures prec == old(prec)
      decreases e, 4
    {
      var p := GetPrec();
      match e
      case PathExpression(path, _) =>
        Put(IdTokens(path));
        End(p);
      case Constant(value) =>
        Put(if value < 0 then [MINUS, Num(-value)] else [Num(value)]);
      case BoolLiteral(truth) =>
        Put([Num(if truth then 1 else 0)]);
        End(p);
      case StringLiteral(text) =>
        Put([Text(text)]);
      case DefaultExpression =>
        Put([DEFAULT]);
      case This =>
        Put([THIS]);
      case Unary(op, x) =>
        PrintUnary(op, x);
      case Binary(op, l, r) =>
        PrintBinary(op, l, r);
      case Mux(a, b, c) =>
        PrintMux(a, b, c);
      case Slice(x, hi, lo) =>
        PrintSlice(x, hi, lo);
      case Member(x, name) =>
        PrintMember(x, name);
      case ArrayIndex(x, i) =>
        PrintArrayIndex(x, i);
      case MethodCall(m, args) =>
        PrintCall(m, args);
      case ListExpression(items) =>
        PrintList(items);
    }

    method PrintUnary(op: UnOp, x: Expr)
      modifies this`out, this`prec
      ensures out == old(out) + UnaryTokens(op, x, old(prec))
      ensures prec == old(prec)
      decreases Unary(op, x), 0
    {
      var p := GetPrec();
      ghost var start := out;
      Open(PREFIX, p);
      ghost var from := out;
      Put([UnToken(op)]);
      PrintAt(x, PREFIX);
      SetPrec(p);
      assert out == from + ([UnToken(op)] + Print(x, PREFIX));
      Shut(PREFIX, p, start, [UnToken(op)] + Print(x, PREFIX));
    }

    method PrintBinary(op: BinOp, l: Expr, r: Expr)
      modifies this`out, this`prec
      ensures out == old(out) + BinaryTokens(op, l, r, old(prec))
      ensures prec == old(prec)
      decreases Binary(op, l, r), 2
    {
      PrintInfix(op, Prec(op), BinToken(op), l, r);
    }

    /** The left operand at the operator's own precedence, the right one a step above it. */
    method PrintInfix(ghost op: BinOp, own: nat, tok: Token, l: Expr, r: Expr)
      requires own < PREFIX
      modifies this`out, this`prec
      ensures out == old(out) + Framed(own, old(prec), Print(l, own) + [tok] + Print(r, own + 1))
      ensures prec == old(prec)
      decreases Binary(op, l, r), 1
    {
      var p := GetPrec();
      ghost var start, ts := out, Print(l, own) + [tok] + Print(r, own + 1);
      Open(own, p);
      PrintSides(op, own, tok, l, r);
      SetPrec(p);
      Shut(own, p, start, ts);
    }

    method PrintSides(ghost op: BinOp, own: nat, tok: Token, l: Expr, r: Expr)
      requires own < PREFIX
      modifies this`out, this`prec
      ensures out == old(out) + (Print(l, own) + [tok] + Print(r, own + 1))
      decreases Binary(op, l, r), 0
    {
      ghost var start := out;
      PrintAt(l, own);
      Put([tok]);
      PrintAt(r, own + 1);
      Joins3(start, Print(l, own), [tok], Print(r, own + 1));
    }

    method PrintMux(a: Expr, b: Expr, c: Expr)
      modifies this`out, this`prec
      ensures out == old(out) + MuxTokens(a, b, c, old(prec))
      ensures prec == old(prec)
      decreases Mux(a, b, c), 0
    {
      var p := GetPrec();
      ghost var start := out;
      Open(COND, p);
      ghost var from := out;
      PrintAt(a, COND + 1);
      Put([QUESTION]);
      PrintAt(b, LOW);
      Put([COLON]);
      PrintAt(c, COND);
      SetPrec(p);
      ghost var x, y, z := Print(a, COND + 1), Print(b, LOW), Print(c, COND);
      ghost var ts := x + [QUESTION] + y + [COLON] + z;
      assert out == from + ts by { Joins5(from, x, [QUESTION], y, [COLON], z); }
      Shut(COND, p, start, ts);
    }

    method PrintSlice(x: Expr, hi: Expr, lo: Expr)
      modifies this`out, this`prec
      ensures out == old(out) + SliceTokens(x, hi, lo, old(prec))
      ensures prec == old(prec)
      decreases Slice(x, hi, lo), 0
    {
      var p := GetPrec();
      ghost var start := out;
      PrintAt(x, POSTFIX);
      Put([LBRACKET]);
      PrintAt(hi, LOW);
      Put([COLON]);
      PrintAt(lo, LOW);
      SetPrec(p);
      ghost var a, b, c := Print(x, POSTFIX), Print(hi, LOW), Print(lo, LOW);
      ghost var ts := a + [LBRACKET] + b + [COLON] + c;
      assert out == start + ts by { Joins5(start, a, [LBRACKET], b, [COLON], c); }
      Put([RBRACKET]);
      End(p);
      Joins3(start, ts, [RBRACKET], Semi(p));
    }

    method PrintMember(x: Expr, name: ID)
      modifies this`out, this`prec
      ensures out == old(out) + MemberTokens(x, name, old(prec))
      ensures prec == old(prec)
      decreases Member(x, name), 0
    {
      var p := GetPrec();
      ghost var start := out;
      PrintAt(x, POSTFIX);
      SetPrec(p);
      Put([DOT]);
      Put(IdTokens(name));
      ghost var a := Print(x, POSTFIX);
      ghost var ts := a + [DOT] + IdTokens(name);
      assert out == start + ts by { Joins3(start, a, [DOT], IdTokens(name)); }
      End(p);
      assert start + ts + Semi(p) == start + (ts + Semi(p));
    }

    method PrintArrayIndex(x: Expr, i: Expr)
      modifies this`out, this`prec
      ensures out == old(out) + IndexTokens(x, i, old(prec))
      ensures prec == old(prec)
      decreases ArrayIndex(x, i), 0
    {
      var p := GetPrec();
      ghost var start := out;
      PrintAt(x, POSTFIX);
      Put([LBRACKET]);
      PrintAt(i, LOW);
      ghost var a, b := Print(x, POSTFIX), Print(i, LOW);
      ghost var ts := a + [LBRACKET] + b;
      assert out == start + ts by { Joins3(start, a, [LBRACKET], b); }
      Put([RBRACKET]);
      SetPrec(p);
      End(p);
      Joins3(start, ts, [RBRACKET], Semi(p));
    }

    method PrintCall(m: Expr, args: seq<Expr>)
      modifies this`out, this`prec
      ensures out == old(out) + CallTokens(m, args, old(prec))
      ensures prec == old(prec)
      decreases MethodCall(m, args), 0
    {
      var p := GetPrec();
      ghost var start := out;
      PrintAt(m, POSTFIX);
      Put([LPAREN]);
      SetPrec(LOW);
      PrintOperands(args);
      ghost var a, b := Print(m, POSTFIX), PrintAll(args, 0);
      ghost var ts := a + [LPAREN] + b;
      assert out == start + ts by { Joins3(start, a, [LPAREN], b); }
      Put([RPAREN]);
      SetPrec(p);
      End(p);
      Joins3(start, ts, [RPAREN], Semi(p));
    }

    method PrintList(items: seq<Expr>)
      modifies this`out, this`prec
      ensures out == old(out) + ListTokens(items, old(prec))
      ensures prec == old(prec)
      decreases ListExpression(items), 0
    {
      var p := GetPrec();
      ghost var start := out;
      Put([LBRACE]);
      SetPrec(LOW);
      PrintOperands(items);
      assert out == start + ([LBRACE] + PrintAll(items, 0));
      Put([RBRACE]);
      SetPrec(p);
      End(p);
      Joins3(start, [LBRACE] + PrintAll(items, 0), [RBRACE], Semi(p));
    }

    method PrintOperands(items: seq<Expr>)
      modifies this`out, this`prec
      ensures out == old(out) + PrintAll(items, 0)
      decreases items, 0
    {
      for i := 0 to |items|
        invariant out + PrintAll(items, i) == old(out) + PrintAll(items, 0)
      {
        ghost var before := out;
        if i > 0 { Put([COMMA]); }
        PrintAt(items[i], LOW);
        Operand(before, items, i);
      }
    }

    method Open(own: nat, p: nat)
      modifies this`out
      ensures out == old(out) + OpenParen(own, p)
    {
      if p > own { Put([LPAREN]); }
    }

    /** Ends what `Open` began when the stream held `start`. */
    method Shut(own: nat, p: nat, ghost start: seq<Token>, ghost ts: seq<Token>)
      requires out == start + OpenParen(own, p) + ts
      modifies this`out
      ensures out == start + Framed(own, p, ts)
    {
      if p > own { Put([RPAREN]); }
      End(p);
      Frames(start, own, p, ts);
    }

    method End(p: nat)
      modifies this`out
      ensures out == old(out) + Semi(p)
    {
      if p == 0 { Put([SEMI]); }
    }
  }

  lemma Joins5(start: seq<Token>, a: seq<Token>, b: seq<Token>, c: seq<Token>, d: seq<Token>, e: seq<Token>)
    ensures start + a + b + c + d + e == start + (a + b + c + d + e)
  {
    Joins3(start, a, b, c);
    Joins3(start, a + b + c, d, e);
  }

  lemma Joins3(start: seq<Token>, a: seq<Token>, b: seq<Token>, c: seq<Token>)
    ensures start + a + b + c == start + (a + b + c)
  {}

  function OpenParen(own: nat, prec: nat): seq<Token>
  {
    if prec > own then [LPAREN] else []
  }

  lemma Frames(start: seq<Token>, own: nat, prec: nat, ts: seq<Token>)
    ensures prec > own ==> start + OpenParen(own, prec) + ts + [RPAREN] + Semi(prec) == start + Framed(own, prec, ts)
    ensures prec <= own ==> start + OpenParen(own, prec) + ts + Semi(prec) == start + Framed(own, prec, ts)
  {}

  lemma Operand(before: seq<Token>, items: seq<Expr>, i: nat)
    requires i < |items|
    ensures before + Comma(i) + Print(items[i], LOW) + PrintAll(items, i + 1) == before + PrintAll(items, i)
  {
    var a, b, c := Comma(i), Print(items[i], LOW), PrintAll(items, i + 1);
    assert PrintAll(items, i) == a + b + c;
    Joins3(before, a, b, c);
  }
}
