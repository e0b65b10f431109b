/** A left-associative precedence reader, and the proof that it reads back what the printers write. */
module ExprReader {
  import opened Options
  import opened Expressions

  datatype Read1 = Read1(expr: Expr, rest: seq<Token>)
  datatype ReadN = ReadN(exprs: seq<Expr>, rest: seq<Token>)

  // ---------- the reader ----------

  function InfixOf(t: Token): (op: Option<BinOp>)
    ensures forall o: BinOp :: op == Some(o) <==> t == BinToken(o)
  {
    match t
    case STAR => Some(Mul)
    case SLASH => Some(Div)
    case PERCENT => Some(Mod)
    case PLUS => Some(Add)
    case MINUS => Some(Sub)
    case PLUSPLUS => Some(Concat)
    case SHL => Some(Shl)
    case SHR => Some(Shr)
    case LT => Some(Lss)
    case LE => Some(Leq)
    case GT => Some(Grt)
    case GE => Some(Geq)
    case EQ => Some(Equ)
    case NE => Some(Neq)
    case AND => Some(BAnd)
    case XOR => Some(BXor)
    case OR => Some(BOr)
    case ANDAND => Some(LAnd)
    case OROR => Some(LOr)
    case DOTDOT => Some(Range)
    case ANDANDAND => Some(Mask)
    case _ => None
  }

  // The levels of the reader's grammar are those of the language, whatever the printer's precedences are.

  const ANY := 1
  const TERNARY := 3
  const UNARY := 14
  const TIGHTEST := 15

  /** Disjunctions are the loosest but for ranges and masks, products the tightest. */
  function InfixLevel(op: BinOp): nat
  {
    if op.Range? || op.Mask? then ANY
    else if op.LOr? then 4
    else if op.LAnd? then 5
    else if op.BOr? then 6
    else if op.BXor? then 7
    else if op.BAnd? then 8
    else if op.Equ? || op.Neq? then 9
    else if op.Lss? || op.Leq? || op.Grt? || op.Geq? then 10
    else if op.Shl? || op.Shr? then 11
    else if op.Add? || op.Sub? || op.Concat? then 12
    else 13
  }

  /** How tightly the token binds what stands before it; 0 if it continues no expression. */
  function Binds(t: Token): nat
  {
    match InfixOf(t)
    case Some(op) => InfixLevel(op)
    case None => if t == QUESTION then TERNARY else if t in {DOT, LBRACKET, LPAREN} then TIGHTEST else 0
  }

  /** The printer's precedences are the reader's levels. */
  lemma PrecIsLevel(op: BinOp)
    ensures Prec(op) == InfixLevel(op) == Binds(BinToken(op))
    ensures LOW == ANY && COND == TERNARY && PREFIX == UNARY && POSTFIX == TIGHTEST
  {
    assert InfixOf(BinToken(op)) == Some(op);
  }

  function Next(toks: seq<Token>): nat
  {
    if toks == [] then 0 else Binds(toks[0])
  }

  /** The longest expression at the head of `toks` whose outer operators all bind at least as
      tightly as `min`. */
  function Read(min: nat, toks: seq<Token>): (r: Option<Read1>)
    ensures r.Some? ==> |r.value.rest| < |toks|
    decreases |toks|, 1
  {
    if toks == [] then None
    else
      var rest := toks[1..];
      match toks[0]
      case Name(n) => Climb(min, PathExpression(ID(n, n), false), rest)
      case Num(v) => Climb(min, Constant(v), rest)
      case Text(t) => Climb(min, StringLiteral(t), rest)
      case DEFAULT => Climb(min, DefaultExpression, rest)
      case THIS => Climb(min, This, rest)
      case MINUS => ReadUnary(min, Neg, rest)
      case TILDE => ReadUnary(min, Cmpl, rest)
      case BANG => ReadUnary(min, LNot, rest)
      case LPAREN =>
        (match Read(ANY, rest)
         case Some(x) => if Starts(x.rest, RPAREN) then Climb(min, x.expr, x.rest[1..]) else None
         case None => None)
      case LBRACE =>
        (match ReadList(RBRACE, rest)
         case Some(xs) => Climb(min, ListExpression(xs.exprs), xs.rest)
         case None => None)
      case _ => None
  }

  predicate Starts(toks: seq<Token>, t: Token)
  {
    toks != [] && toks[0] == t
  }

  function ReadUnary(min: nat, op: UnOp, toks: seq<Token>): (r: Option<Read1>)
    ensures r.Some? ==> |r.value.rest| < |toks|
    decreases |toks|, 2
  {
    match Read(UNARY, toks)
    case Some(x) => Climb(min, Unary(op, x.expr), x.rest)
    case None => None
  }

  /** Goes on from `left`, which has been read, while the next token binds at least as tightly as `min`. */
  function Climb(min: nat, left: Expr, toks: seq<Token>): (r: Option<Read1>)
    ensures r.Some? ==> |r.value.rest| <= |toks|
    decreases |toks|, 0
  {
    var p := Next(toks);
    if p == 0 || p < min then Some(Read1(left, toks))
    else
      var rest := toks[1..];
      match InfixOf(toks[0])
      case Some(op) =>
        (match Read(p + 1, rest)
         case Some(x) => Climb(min, Binary(op, left, x.expr), x.rest)
         case None => None)
      case None =>
        match toks[0]
        case QUESTION => ReadMux(min, left, rest)
        case DOT =>
          if rest == [] || !rest[0].Name? then None
          else Climb(min, Member(left, ID(rest[0].name, rest[0].name)), rest[1..])
        case LPAREN =>
          (match ReadList(RPAREN, rest)
           case Some(xs) => Climb(min, MethodCall(left, xs.exprs), xs.rest)
           case None => None)
        case _ => ReadIndex(min, left, rest)
  }

  /** The rest of a conditional expression whose condition is `left`. */
  function ReadMux(min: nat, left: Expr, toks: seq<Token>): (r: Option<Read1>)
    ensures r.Some? ==> |r.value.rest| < |toks|
    decreases |toks|, 2
  {
    match Read(ANY, toks)
    case None => None
    case Some(b) =>
      if !Starts(b.rest, COLON) then None
      else
        match Read(TERNARY, b.rest[1..])
        case None => None
        case Some(c) => Climb(min, Mux(left, b.expr, c.expr), c.rest)
  }

  /** The rest of an indexed or sliced `left`. */
  function ReadIndex(min: nat, left: Expr, toks: seq<Token>): (r: Option<Read1>)
    ensures r.Some? ==> |r.value.rest| < |toks|
    decreases |toks|, 2
  {
    match Read(ANY, toks)
    case None => None
    case Some(i) =>
      if Starts(i.rest, RBRACKET) then Climb(min, ArrayIndex(left, i.expr), i.rest[1..])
      else if Starts(i.rest, COLON) then ReadSlice(min, left, i.expr, i.rest[1..])
      else None
  }

  /** The rest of a sliced `left` behind the colon. */
  function ReadSlice(min: nat, left: Expr, hi: Expr, toks: seq<Token>): (r: Option<Read1>)
    ensures r.Some? ==> |r.value.rest| < |toks|
    decreases |toks|, 2
  {
    match Read(ANY, toks)
    case None => None
    case Some(lo) =>
      if Starts(lo.rest, RBRACKET) then Climb(min, Slice(left, hi, lo.expr), lo.rest[1..]) else None
  }

  /** Expressions with commas between them, up to `close`. */
  function ReadList(close: Token, toks: seq<Token>): (r: Option<ReadN>)
    ensures r.Some? ==> |r.value.rest| < |toks|
    decreases |toks|, 3
  {
    if Starts(toks, close) then Some(ReadN([], toks[1..])) else ReadItems(close, toks)
  }

  function ReadItems(close: Token, toks: seq<Token>): (r: Option<ReadN>)
    ensures r.Some? ==> |r.value.rest| < |toks|
    decreases |toks|, 2
  {
    match Read(ANY, toks)
    case None => None
    case Some(x) =>
      if Starts(x.rest, close) then Some(ReadN([x.expr], x.rest[1..]))
      else if !Starts(x.rest, COMMA) then None
      else
        match ReadItems(close, x.rest[1..])
        case None => None
        case Some(xs) => Some(ReadN([x.expr] + xs.exprs, xs.rest))
  }

  /** A whole text: one expression, and perhaps the semicolon of a statement. */
  function ReadAll(toks: seq<Token>): Option<Expr>
  {
    match Read(ANY, toks)
    case None => None
    case Some(x) => if x.rest == [] || x.rest == [SEMI] then Some(x.expr) else None
  }

  // ---------- which expressions can be read back ----------

  predicate Renamed(id: ID)
  {
    id.original != id.name
  }

  /** A negative constant is printed just like the negation of a positive one, a Boolean like the
      constant 1 or 0, a renamed name like a division, and an absolute path like a relative one. */
  predicate Readable(e: Expr)
    decreases e, 0
  {
    match e
    case PathExpression(path, absolute) => !absolute && !Renamed(path)
    case Constant(value) => value >= 0
    case BoolLiteral(_) => false
    case Unary(_, x) => Readable(x)
    case Binary(_, l, r) => Readable(l) && Readable(r)
    case Mux(a, b, c) => Readable(a) && Readable(b) && Readable(c)
    case Slice(x, hi, lo) => Readable(x) && Readable(hi) && Readable(lo)
    case Member(x, name) => Readable(x) && !Renamed(name)
    case ArrayIndex(x, i) => Readable(x) && Readable(i)
    case MethodCall(m, args) => Readable(m) && AllReadable(args)
    case ListExpression(items) => AllReadable(items)
    case _ => true
  }

  predicate AllReadable(es: seq<Expr>)
    decreases es, 0
  {
    forall i :: 0 <= i < |es| ==> Readable(es[i])
  }

  /** How tightly the outermost operator holds together. */
  function Level(e: Expr): nat
  {
    match e
    case Unary(_, _) => PREFIX
    case Binary(op, _, _) => Prec(op)
    case Mux(_, _, _) => COND
    case _ => POSTFIX
  }

  /** The tightest token that may follow `e` without becoming part of its last operand. */
  function Follow(e: Expr): nat
  {
    match e
    case Unary(_, _) => PREFIX - 1
    case Binary(op, _, _) => Prec(op)
    case Mux(_, _, _) => COND - 1
    case _ => POSTFIX
  }

  /** `e`, printed for precedence `q` and followed by `s`, is not torn apart by a reader at `min`. */
  predicate Fits(e: Expr, q: nat, min: nat, s: seq<Token>)
  {
    q <= Level(e) ==> min <= Level(e) && Next(s) <= Follow(e)
  }

  // ---------- how texts continue ----------

  lemma Tail3(a: seq<Token>, b: seq<Token>, c: seq<Token>, s: seq<Token>)
    ensures a + b + c + s == a + (b + (c + s))
  {}

  lemma Tail5(a: seq<Token>, b: seq<Token>, c: seq<Token>, d: seq<Token>, e: seq<Token>, s: seq<Token>)
    ensures a + b + c + d + e + s == a + (b + (c + (d + (e + s))))
  {
    Tail3(a + b + c, d, e, s);
    Tail3(a, b, c, d + (e + s));
  }

  lemma BinaryText(op: BinOp, l: Expr, r: Expr, q: nat, s: seq<Token>)
    requires 1 <= q <= Prec(op)
    ensures Print(Binary(op, l, r), q) + s ==
            Print(l, Prec(op)) + ([BinToken(op)] + (Print(r, Prec(op) + 1) + s))
  {
    Tail3(Print(l, Prec(op)), [BinToken(op)], Print(r, Prec(op) + 1), s);
  }

  lemma MuxText(a: Expr, b: Expr, c: Expr, q: nat, s: seq<Token>)
    requires 1 <= q <= COND
    ensures Print(Mux(a, b, c), q) + s ==
            Print(a, COND + 1) + ([QUESTION] + (Print(b, LOW) + ([COLON] + (Print(c, COND) + s))))
  {
    Tail5(Print(a, COND + 1), [QUESTION], Print(b, LOW), [COLON], Print(c, COND), s);
  }

  lemma SliceText(x: Expr, hi: Expr, lo: Expr, q: nat, s: seq<Token>)
    requires 1 <= q
    ensures Print(Slice(x, hi, lo), q) + s ==
            Print(x, POSTFIX) + ([LBRACKET] + (Print(hi, LOW) + ([COLON] + (Print(lo, LOW) + ([RBRACKET] + s)))))
  {
    var a, b, c := Print(x, POSTFIX), Print(hi, LOW), Print(lo, LOW);
    var ts := a + [LBRACKET] + b + [COLON] + c;
    assert ts + [RBRACKET] + s == ts + ([RBRACKET] + s);
    Tail5(a, [LBRACKET], b, [COLON], c, [RBRACKET] + s);
  }

  lemma MemberText(x: Expr, name: ID, q: nat, s: seq<Token>)
    requires 1 <= q && !Renamed(name)
    ensures Print(Member(x, name), q) + s == Print(x, POSTFIX) + ([DOT, Name(name.name)] + s)
  {
    assert [DOT] + [Name(name.name)] == [DOT, Name(name.name)];
    Tail3(Print(x, POSTFIX), [DOT], [Name(name.name)], s);
  }

  lemma IndexText(x: Expr, i: Expr, q: nat, s: seq<Token>)
    requires 1 <= q
    ensures Print(ArrayIndex(x, i), q) + s == Print(x, POSTFIX) + ([LBRACKET] + (Print(i, LOW) + ([RBRACKET] + s)))
  {
    var a, b := Print(x, POSTFIX), Print(i, LOW);
    var ts := a + [LBRACKET] + b;
    assert ts + [RBRACKET] + s == ts + ([RBRACKET] + s);
    Tail3(a, [LBRACKET], b, [RBRACKET] + s);
  }

  lemma CallText(m: Expr, args: seq<Expr>, q: nat, s: seq<Token>)
    requires 1 <= q <= POSTFIX
    ensures Print(MethodCall(m, args), q) + s
         == Print(m, POSTFIX) + ([LPAREN] + (PrintAll(args, 0) + ([RPAREN] + s)))
  {
    var a, b := Print(m, POSTFIX), PrintAll(args, 0);
    var ts := a + [LPAREN] + b;
    assert ts + [RPAREN] + s == ts + ([RPAREN] + s);
    Tail3(a, [LPAREN], b, [RPAREN] + s);
  }

  lemma WrappedIs(e: Expr, q: nat)
    requires Level(e) < q <= POSTFIX
    ensures Print(e, q) == [LPAREN] + Print(e, LOW) + [RPAREN]
  {
    match e
    case Unary(op, x) => UnwrappedIs(PREFIX, q, [UnToken(op)] + Print(x, PREFIX));
    case Binary(op, l, r) => UnwrappedIs(Prec(op), q, Print(l, Prec(op)) + [BinToken(op)] + Print(r, Prec(op) + 1));
    case Mux(a, b, c) =>
      UnwrappedIs(COND, q, Print(a, COND + 1) + [QUESTION] + Print(b, LOW) + [COLON] + Print(c, COND));
  }

  lemma UnwrappedIs(own: nat, q: nat, ts: seq<Token>)
    requires LOW <= own < q
    ensures Framed(own, q, ts) == [LPAREN] + Framed(own, LOW, ts) + [RPAREN]
  {}

  /** What binds too weakly for `q` is printed in parentheses, and inside them as if at the lowest precedence. */
  lemma WrappedText(e: Expr, q: nat, s: seq<Token>)
    requires Level(e) < q <= POSTFIX
    ensures Print(e, q) + s == [LPAREN] + (Print(e, LOW) + ([RPAREN] + s))
  {
    WrappedIs(e, q);
    assert [LPAREN] + Print(e, LOW) + [RPAREN] + s == [LPAREN] + (Print(e, LOW) + ([RPAREN] + s));
  }

  // ---------- single steps of the reader ----------

  lemma OperatorStep(min: nat, op: BinOp, l: Expr, r: Expr, rest: seq<Token>, s: seq<Token>)
    requires 1 <= min <= Prec(op) && Read(Prec(op) + 1, rest) == Some(Read1(r, s))
    ensures Climb(min, l, [BinToken(op)] + rest) == Climb(min, Binary(op, l, r), s)
  {
    AtOperator(min, op, l, [BinToken(op)] + rest);
    assert ([BinToken(op)] + rest)[1..] == rest;
  }

  lemma AtOperator(min: nat, op: BinOp, l: Expr, toks: seq<Token>)
    requires 1 <= min <= Prec(op) && Starts(toks, BinToken(op))
    ensures Climb(min, l, toks) ==
      match Read(Prec(op) + 1, toks[1..])
      case Some(x) => Climb(min, Binary(op, l, x.expr), x.rest)
      case None => None
  {
    assert InfixOf(BinToken(op)) == Some(op);
  }

  lemma AtQuestion(min: nat, a: Expr, toks: seq<Token>)
    requires min <= COND && Starts(toks, QUESTION)
    ensures Climb(min, a, toks) == ReadMux(min, a, toks[1..])
  {}

  lemma AtBracket(min: nat, x: Expr, toks: seq<Token>)
    requires min <= POSTFIX && Starts(toks, LBRACKET)
    ensures Climb(min, x, toks) == ReadIndex(min, x, toks[1..])
  {}

  lemma MuxStep(min: nat, a: Expr, b: Expr, c: Expr, rest: seq<Token>, last: seq<Token>, s: seq<Token>)
    requires 1 <= min <= COND
    requires Read(LOW, rest) == Some(Read1(b, [COLON] + last)) && Read(COND, last) == Some(Read1(c, s))
    ensures Climb(min, a, [QUESTION] + rest) == Climb(min, Mux(a, b, c), s)
  {
    var toks := [QUESTION] + rest;
    assert toks[1..] == rest;
    AtQuestion(min, a, toks);
    MuxRest(min, a, b, c, rest, last, s);
  }

  lemma MuxRest(min: nat, a: Expr, b: Expr, c: Expr, rest: seq<Token>, last: seq<Token>, s: seq<Token>)
    requires Read(LOW, rest) == Some(Read1(b, [COLON] + last)) && Read(COND, last) == Some(Read1(c, s))
    ensures ReadMux(min, a, rest) == Climb(min, Mux(a, b, c), s)
  {
    assert ([COLON] + last)[1..] == last;
  }

  lemma IndexStep(min: nat, x: Expr, i: Expr, rest: seq<Token>, s: seq<Token>)
    requires 1 <= min <= POSTFIX && Read(LOW, rest) == Some(Read1(i, [RBRACKET] + s))
    ensures Climb(min, x, [LBRACKET] + rest) == Climb(min, ArrayIndex(x, i), s)
  {
    var toks := [LBRACKET] + rest;
    assert toks[1..] == rest && ([RBRACKET] + s)[1..] == s;
    AtBracket(min, x, toks);
  }

  lemma SliceStep(min: nat, x: Expr, hi: Expr, lo: Expr, rest: seq<Token>, last: seq<Token>, s: seq<Token>)
    requires 1 <= min <= POSTFIX
    requires Read(LOW, rest) == Some(Read1(hi, [COLON] + last)) && Read(LOW, last) == Some(Read1(lo, [RBRACKET] + s))
    ensures Climb(min, x, [LBRACKET] + rest) == Climb(min, Slice(x, hi, lo), s)
  {
    var toks := [LBRACKET] + rest;
    assert toks[1..] == rest;
    AtBracket(min, x, toks);
    SliceRest(min, x, hi, lo, rest, last, s);
  }

  lemma SliceRest(min: nat, x: Expr, hi: Expr, lo: Expr, rest: seq<Token>, last: seq<Token>, s: seq<Token>)
    requires Read(LOW, rest) == Some(Read1(hi, [COLON] + last)) && Read(LOW, last) == Some(Read1(lo, [RBRACKET] + s))
    ensures ReadIndex(min, x, rest) == Climb(min, Slice(x, hi, lo), s)
  {
    assert ([COLON] + last)[1..] == last && ([RBRACKET] + s)[1..] == s;
  }

  lemma MemberStep(min: nat, x: Expr, name: string, s: seq<Token>)
    requires 1 <= min <= POSTFIX
    ensures Climb(min, x, [DOT, Name(name)] + s) == Climb(min, Member(x, ID(name, name)), s)
  {
    var toks := [DOT, Name(name)] + s;
    assert toks[1..] == [Name(name)] + s && toks[1..][1..] == s;
  }

  lemma CallStep(min: nat, m: Expr, args: seq<Expr>, rest: seq<Token>, s: seq<Token>)
    requires 1 <= min <= POSTFIX && ReadList(RPAREN, rest) == Some(ReadN(args, s))
    ensures Climb(min, m, [LPAREN] + rest) == Climb(min, MethodCall(m, args), s)
  {
    assert ([LPAREN] + rest)[1..] == rest;
  }

  lemma GroupStep(min: nat, e: Expr, rest: seq<Token>, s: seq<Token>)
    requires Read(LOW, rest) == Some(Read1(e, [RPAREN] + s))
    ensures Read(min, [LPAREN] + rest) == Climb(min, e, s)
  {
    assert ([LPAREN] + rest)[1..] == rest && ([RPAREN] + s)[1..] == s;
  }

  lemma BraceStep(min: nat, items: seq<Expr>, rest: seq<Token>, s: seq<Token>)
    requires ReadList(RBRACE, rest) == Some(ReadN(items, s))
    ensures Read(min, [LBRACE] + rest) == Climb(min, ListExpression(items), s)
  {
    assert ([LBRACE] + rest)[1..] == rest;
  }

  lemma UnaryStep(min: nat, op: UnOp, x: Expr, rest: seq<Token>, s: seq<Token>)
    requires Read(PREFIX, rest) == Some(Read1(x, s))
    ensures Read(min, [UnToken(op)] + rest) == Climb(min, Unary(op, x), s)
  {
    assert ([UnToken(op)] + rest)[1..] == rest;
  }

  // ---------- reading back ----------

  lemma Stops(min: nat, e: Expr, s: seq<Token>)
    requires Next(s) < min
    ensures Climb(min, e, s) == Some(Read1(e, s))
  {}

  /** Reading the text of `e` is going on from `e`. */
  lemma {:induction false} ReadsBack(e: Expr, q: nat, min: nat, s: seq<Token>)
    requires Readable(e) && 1 <= q <= POSTFIX && 1 <= min && Fits(e, q, min, s)
    ensures Read(min, Print(e, q) + s) == Climb(min, e, s)
    decreases e, 2
  {
    if q > Level(e) {
      WrappedText(e, q, s);
      ReadsUnwrapped(e, LOW, LOW, [RPAREN] + s);
      Stops(LOW, e, [RPAREN] + s);
      GroupStep(min, e, Print(e, LOW) + ([RPAREN] + s), s);
    } else {
      ReadsUnwrapped(e, q, min, s);
    }
  }

  /** A subexpression is read whole if what follows binds less tightly than the reader asks. */
  lemma {:induction false} ReadsWhole(e: Expr, q: nat, s: seq<Token>)
    requires Readable(e) && 1 <= q <= POSTFIX && Next(s) < q
    ensures Read(q, Print(e, q) + s) == Some(Read1(e, s))
    decreases e, 3
  {
    ReadsBack(e, q, q, s);
    Stops(q, e, s);
  }

  lemma {:induction false} ReadsOperand(e: Expr, end: Token, s: seq<Token>)
    requires Readable(e) && Binds(end) == 0
    ensures Read(LOW, Print(e, LOW) + ([end] + s)) == Some(Read1(e, [end] + s))
    decreases e, 4
  {
    ReadsWhole(e, LOW, [end] + s);
  }

  lemma {:induction false} ReadsBase(e: Expr, min: nat, s: seq<Token>)
    requires Readable(e) && 1 <= min <= POSTFIX && Next(s) <= POSTFIX
    ensures Read(min, Print(e, POSTFIX) + s) == Climb(min, e, s)
    decreases e, 3
  {
    ReadsBack(e, POSTFIX, min, s);
  }

  lemma {:induction false} ReadsUnwrapped(e: Expr, q: nat, min: nat, s: seq<Token>)
    requires Readable(e) && 1 <= q <= Level(e) && 1 <= min <= Level(e) && Next(s) <= Follow(e)
    ensures Read(min, Print(e, q) + s) == Climb(min, e, s)
    decreases e, 1
  {
    if e.Unary? { UnaryBack(e, q, min, s); }
    else if e.Binary? { BinaryBack(e, q, min, s); }
    else if e.Mux? { MuxBack(e, q, min, s); }
    else if e.Slice? { SliceBack(e, q, min, s); }
    else if e.Member? { MemberBack(e, q, min, s); }
    else if e.ArrayIndex? { IndexBack(e, q, min, s); }
    else if e.MethodCall? { CallBack(e, q, min, s); }
    else if e.ListExpression? { BracesBack(e, q, min, s); }
    else { LeafBack(e, q, min, s); }
  }

  lemma LeafBack(e: Expr, q: nat, min: nat, s: seq<Token>)
    requires e.PathExpression? || e.Constant? || e.BoolLiteral? || e.StringLiteral? || e.DefaultExpression? || e.This?
    requires Readable(e) && 1 <= q
    ensures Read(min, Print(e, q) + s) == Climb(min, e, s)
  {
    assert |Print(e, q)| == 1;
    assert (Print(e, q) + s)[1..] == s;
  }

  lemma {:induction false} UnaryBack(e: Expr, q: nat, min: nat, s: seq<Token>)
    requires e.Unary? && Readable(e) && 1 <= q <= PREFIX && 1 <= min <= PREFIX && Next(s) < PREFIX
    ensures Read(min, Print(e, q) + s) == Climb(min, e, s)
    decreases e, 0
  {
    assert Print(e, q) + s == [UnToken(e.uop)] + (Print(e.expr, PREFIX) + s);
    ReadsWhole(e.expr, PREFIX, s);
    UnaryStep(min, e.uop, e.expr, Print(e.expr, PREFIX) + s, s);
  }

  lemma {:induction false} BinaryBack(e: Expr, q: nat, min: nat, s: seq<Token>)
    requires e.Binary? && Readable(e) && 1 <= q <= Prec(e.bop) && 1 <= min <= Prec(e.bop) && Next(s) <= Prec(e.bop)
    ensures Read(min, Print(e, q) + s) == Climb(min, e, s)
    decreases e, 0
  {
    var p := Prec(e.bop);
    BinaryText(e.bop, e.left, e.right, q, s);
    var rest := Print(e.right, p + 1) + s;
    assert Next([BinToken(e.bop)] + rest) == p by { assert InfixOf(BinToken(e.bop)) == Some(e.bop); }
    ReadsBack(e.left, p, min, [BinToken(e.bop)] + rest);
    ReadsWhole(e.right, p + 1, s);
    OperatorStep(min, e.bop, e.left, e.right, rest, s);
  }

  lemma {:induction false} MuxBack(e: Expr, q: nat, min: nat, s: seq<Token>)
    requires e.Mux? && Readable(e) && 1 <= q <= COND && 1 <= min <= COND && Next(s) < COND
    ensures Read(min, Print(e, q) + s) == Climb(min, e, s)
    decreases e, 0
  {
    MuxText(e.e0, e.e1, e.e2, q, s);
    var last := Print(e.e2, COND) + s;
    var rest := Print(e.e1, LOW) + ([COLON] + last);
    ReadsBack(e.e0, COND + 1, min, [QUESTION] + rest);
    ReadsOperand(e.e1, COLON, last);
    ReadsWhole(e.e2, COND, s);
    MuxStep(min, e.e0, e.e1, e.e2, rest, last, s);
  }

  lemma {:induction false} SliceBack(e: Expr, q: nat, min: nat, s: seq<Token>)
    requires e.Slice? && Readable(e) && 1 <= q <= POSTFIX && 1 <= min <= POSTFIX
    ensures Read(min, Print(e, q) + s) == Climb(min, e, s)
    decreases e, 0
  {
    var last := Print(e.lo, LOW) + ([RBRACKET] + s);
    var rest := Print(e.hi, LOW) + ([COLON] + last);
    assert Climb(min, e.base, [LBRACKET] + rest) == Climb(min, Slice(e.base, e.hi, e.lo), s) by {
      ReadsOperand(e.hi, COLON, last);
      ReadsOperand(e.lo, RBRACKET, s);
      SliceStep(min, e.base, e.hi, e.lo, rest, last, s);
    }
    ReadsBase(e.base, min, [LBRACKET] + rest);
    SliceText(e.base, e.hi, e.lo, q, s);
  }

  lemma {:induction false} MemberBack(e: Expr, q: nat, min: nat, s: seq<Token>)
    requires e.Member? && Readable(e) && 1 <= q <= POSTFIX && 1 <= min <= POSTFIX
    ensures Read(min, Print(e, q) + s) == Climb(min, e, s)
    decreases e, 0
  {
    var rest := [DOT, Name(e.member.name)] + s;
    MemberText(e.of, e.member, q, s);
    ReadsBase(e.of, min, rest);
    MemberStep(min, e.of, e.member.name, s);
  }

  lemma {:induction false} IndexBack(e: Expr, q: nat, min: nat, s: seq<Token>)
    requires e.ArrayIndex? && Readable(e) && 1 <= q <= POSTFIX && 1 <= min <= POSTFIX
    ensures Read(min, Print(e, q) + s) == Climb(min, e, s)
    decreases e, 0
  {
    var rest := Print(e.index, LOW) + ([RBRACKET] + s);
    assert Climb(min, e.array_, [LBRACKET] + rest) == Climb(min, ArrayIndex(e.array_, e.index), s) by {
      ReadsOperand(e.index, RBRACKET, s);
      IndexStep(min, e.array_, e.index, rest, s);
    }
    ReadsBase(e.array_, min, [LBRACKET] + rest);
    IndexText(e.array_, e.index, q, s);
  }

  lemma {:induction false} CallBack(e: Expr, q: nat, min: nat, s: seq<Token>)
    requires e.MethodCall? && Readable(e) && 1 <= q <= POSTFIX && 1 <= min <= POSTFIX
    ensures Read(min, Print(e, q) + s) == Climb(min, e, s)
    decreases e, 0
  {
    CallText(e.method_, e.arguments, q, s);
    var rest := PrintAll(e.arguments, 0) + ([RPAREN] + s);
    ReadsBase(e.method_, min, [LPAREN] + rest);
    ListBack(RPAREN, e.arguments, s);
    CallStep(min, e.method_, e.arguments, rest, s);
  }

  lemma {:induction false} BracesBack(e: Expr, q: nat, min: nat, s: seq<Token>)
    requires e.ListExpression? && Readable(e) && 1 <= q <= POSTFIX
    ensures Read(min, Print(e, q) + s) == Climb(min, e, s)
    decreases e, 0
  {
    var rest := PrintAll(e.components, 0) + ([RBRACE] + s);
    assert Print(e, q) + s == [LBRACE] + rest;
    ListBack(RBRACE, e.components, s);
    BraceStep(min, e.components, rest, s);
  }

  lemma {:induction false} ListBack(close: Token, items: seq<Expr>, s: seq<Token>)
    requires AllReadable(items) && close in {RPAREN, RBRACE}
    ensures ReadList(close, PrintAll(items, 0) + ([close] + s)) == Some(ReadN(items, s))
    decreases items, |items| + 2
  {
    var tail := [close] + s;
    if items == [] {
      assert PrintAll(items, 0) + tail == tail;
    } else {
      ItemsBack(close, items, 0, s);
      FirstItem(items, tail);
      NotClosed(close, items, tail);
      assert items[0..] == items;
    }
  }

  lemma NotClosed(close: Token, items: seq<Expr>, tail: seq<Token>)
    requires AllReadable(items) && close in {RPAREN, RBRACE} && items != []
    ensures !Starts(PrintAll(items, 0) + tail, close)
  {
    NeverCloses(items[0], LOW);
    FirstItem(items, tail);
  }

  lemma FirstItem(items: seq<Expr>, tail: seq<Token>)
    requires items != []
    ensures PrintAll(items, 0) + tail == Print(items[0], LOW) + (PrintAll(items, 1) + tail)
  {
    assert PrintAll(items, 0) == Print(items[0], LOW) + PrintAll(items, 1);
  }

  lemma {:induction false} ItemsBack(close: Token, items: seq<Expr>, i: nat, s: seq<Token>)
    requires AllReadable(items) && close in {RPAREN, RBRACE} && i < |items|
    ensures ReadItems(close, Print(items[i], LOW) + (PrintAll(items, i + 1) + ([close] + s)))
         == Some(ReadN(items[i..], s))
    decreases items, |items| - i
  {
    var x := items[i];
    if i + 1 == |items| {
      ReadsOperand(x, close, s);
      LastItemStep(close, x, Print(x, LOW) + ([close] + s), s);
      assert PrintAll(items, i + 1) + ([close] + s) == [close] + s;
      assert items[i..] == [x];
    } else {
      ItemsBack(close, items, i + 1, s);
      MoreItems(close, items, i, s);
    }
  }

  lemma {:induction false} MoreItems(close: Token, items: seq<Expr>, i: nat, s: seq<Token>)
    requires close in {RPAREN, RBRACE} && i + 1 < |items| && Readable(items[i])
    requires ReadItems(close, Print(items[i + 1], LOW) + (PrintAll(items, i + 2) + ([close] + s)))
          == Some(ReadN(items[i + 1..], s))
    ensures ReadItems(close, Print(items[i], LOW) + (PrintAll(items, i + 1) + ([close] + s)))
         == Some(ReadN(items[i..], s))
    decreases items, 0
  {
    var next := Print(items[i + 1], LOW) + (PrintAll(items, i + 2) + ([close] + s));
    NextItem(items, i + 1, [close] + s);
    ItemThen(close, items[i], items[i + 1..], next, s);
    FirstOf(items, i);
  }

  lemma FirstOf(items: seq<Expr>, i: nat)
    requires i < |items|
    ensures items[i..] == [items[i]] + items[i + 1..]
  {}

  /** One item, and the text of the others behind the comma. */
  lemma {:induction false} ItemThen(close: Token, x: Expr, xs: seq<Expr>, next: seq<Token>, s: seq<Token>)
    requires close in {RPAREN, RBRACE} && Readable(x) && ReadItems(close, next) == Some(ReadN(xs, s))
    ensures ReadItems(close, Print(x, LOW) + ([COMMA] + next)) == Some(ReadN([x] + xs, s))
    decreases x, 5
  {
    ReadsOperand(x, COMMA, next);
    ItemStep(close, x, xs, Print(x, LOW) + ([COMMA] + next), next, s);
  }

  lemma NextItem(items: seq<Expr>, i: nat, tail: seq<Token>)
    requires 0 < i < |items|
    ensures PrintAll(items, i) + tail == [COMMA] + (Print(items[i], LOW) + (PrintAll(items, i + 1) + tail))
  {}

  lemma LastItemStep(close: Token, x: Expr, toks: seq<Token>, s: seq<Token>)
    requires Read(LOW, toks) == Some(Read1(x, [close] + s))
    ensures ReadItems(close, toks) == Some(ReadN([x], s))
  {
    assert ([close] + s)[1..] == s;
  }

  lemma ItemStep(close: Token, x: Expr, xs: seq<Expr>, toks: seq<Token>, next: seq<Token>, s: seq<Token>)
    requires close != COMMA && Read(LOW, toks) == Some(Read1(x, [COMMA] + next))
    requires ReadItems(close, next) == Some(ReadN(xs, s))
    ensures ReadItems(close, toks) == Some(ReadN([x] + xs, s))
  {
    assert ([COMMA] + next)[1..] == next;
  }

  /** A text does not begin with a closing token. */
  lemma {:induction false} NeverCloses(e: Expr, q: nat)
    requires Readable(e) && q >= 1
    ensures Print(e, q) != [] && Print(e, q)[0] !in {RPAREN, RBRACE}
  {
    match e
    case Binary(op, l, r) => NeverCloses(l, Prec(op));
    case Mux(a, b, c) => NeverCloses(a, COND + 1);
    case Slice(x, _, _) => NeverCloses(x, POSTFIX);
    case Member(x, _) => NeverCloses(x, POSTFIX);
    case ArrayIndex(x, _) => NeverCloses(x, POSTFIX);
    case MethodCall(m, _) => NeverCloses(m, POSTFIX);
    case _ =>
  }

  // ---------- whole texts ----------

  /** Printed as a statement, an expression ends in a semicolon, unless it is a literal that asks for none. */
  lemma StatementText(e: Expr)
    ensures Print(e, 0) == Print(e, LOW) +
      if e.Constant? || e.StringLiteral? || e.DefaultExpression? || e.This? then [] else [SEMI]
  {}

  /** A readable expression is read back from its text as itself, at any precedence of the stream. */
  lemma {:induction false} ReadAllPrinted(e: Expr, q: nat)
    requires Readable(e) && q <= POSTFIX
    ensures ReadAll(Print(e, q)) == Some(e)
  {
    var end := if q == 0 && Print(e, 0) != Print(e, LOW) then [SEMI] else [];
    var p := if q == 0 then LOW else q;
    if q == 0 { StatementText(e); }
    assert Print(e, q) == Print(e, p) + end;
    if p <= Level(e) {
      ReadsUnwrapped(e, p, LOW, end);
    } else {
      ReadsBack(e, p, LOW, end);
    }
    Stops(LOW, e, end);
  }

  /** What the reader returns is readable, whatever the text. */
  lemma {:induction false} ReadIsReadable(min: nat, toks: seq<Token>)
    ensures Read(min, toks).Some? ==> Readable(Read(min, toks).value.expr)
    decreases |toks|, 1
  {
    if toks != [] {
      var t, rest := toks[0], toks[1..];
      if t in {MINUS, TILDE, BANG} {
        UnaryIsReadable(min, if t == MINUS then Neg else if t == TILDE then Cmpl else LNot, rest);
      } else if t == LPAREN {
        GroupIsReadable(min, toks);
      } else if t == LBRACE {
        BracesAreReadable(min, toks);
      } else {
        LeafIsReadable(min, toks);
      }
    }
  }

  lemma {:induction false} LeafIsReadable(min: nat, toks: seq<Token>)
    requires toks != [] && toks[0] !in {MINUS, TILDE, BANG, LPAREN, LBRACE}
    ensures Read(min, toks).Some? ==> Readable(Read(min, toks).value.expr)
    decreases |toks|, 0, 1
  {
    var leaf := LeafOf(toks[0]);
    if leaf.Some? {
      LeafRead(min, toks);
      ClimbIsReadable(min, leaf.value, toks[1..]);
    }
  }

  /** The expression that the token is by itself. */
  function LeafOf(t: Token): (e: Option<Expr>)
    ensures e.Some? ==> Readable(e.value)
  {
    match t
    case Name(n) => Some(PathExpression(ID(n, n), false))
    case Num(v) => Some(Constant(v))
    case Text(s) => Some(StringLiteral(s))
    case DEFAULT => Some(DefaultExpression)
    case THIS => Some(This)
    case _ => None
  }

  lemma LeafRead(min: nat, toks: seq<Token>)
    requires toks != [] && LeafOf(toks[0]).Some?
    ensures Read(min, toks) == Climb(min, LeafOf(toks[0]).value, toks[1..])
  {
  }

  lemma {:induction false} GroupIsReadable(min: nat, toks: seq<Token>)
    requires Starts(toks, LPAREN)
    ensures Read(min, toks).Some? ==> Readable(Read(min, toks).value.expr)
    decreases |toks|, 0, 1
  {
    ReadIsReadable(LOW, toks[1..]);
    var x := Read(LOW, toks[1..]);
    if x.Some? && Starts(x.value.rest, RPAREN) { ClimbIsReadable(min, x.value.expr, x.value.rest[1..]); }
  }

  lemma {:induction false} BracesAreReadable(min: nat, toks: seq<Token>)
    requires Starts(toks, LBRACE)
    ensures Read(min, toks).Some? ==> Readable(Read(min, toks).value.expr)
    decreases |toks|, 0, 1
  {
    ListIsReadable(RBRACE, toks[1..]);
    var xs := ReadList(RBRACE, toks[1..]);
    if xs.Some? { ClimbIsReadable(min, ListExpression(xs.value.exprs), xs.value.rest); }
  }

  lemma {:induction false} UnaryIsReadable(min: nat, op: UnOp, toks: seq<Token>)
    ensures ReadUnary(min, op, toks).Some? ==> Readable(ReadUnary(min, op, toks).value.expr)
    decreases |toks|, 2
  {
    ReadIsReadable(PREFIX, toks);
    var x := Read(PREFIX, toks);
    if x.Some? { ClimbIsReadable(min, Unary(op, x.value.expr), x.value.rest); }
  }

  lemma {:induction false} ClimbIsReadable(min: nat, left: Expr, toks: seq<Token>)
    requires Readable(left)
    ensures Climb(min, left, toks).Some? ==> Readable(Climb(min, left, toks).value.expr)
    decreases |toks|, 0, 0
  {
    var p := Next(toks);
    if p == 0 || p < min {
      Stopped(min, left, toks);
    } else if InfixOf(toks[0]).Some? {
      OperatorIsReadable(min, left, toks);
    } else if toks[0] == QUESTION {
      MuxIsReadable(min, left, toks[1..]);
    } else if toks[0] == LPAREN {
      CallIsReadable(min, left, toks);
    } else if toks[0] == DOT {
      MemberIsReadable(min, left, toks);
    } else {
      IndexIsReadable(min, left, toks[1..]);
    }
  }

  lemma Stopped(min: nat, left: Expr, toks: seq<Token>)
    requires Next(toks) == 0 || Next(toks) < min
    ensures Climb(min, left, toks) == Some(Read1(left, toks))
  {}

  lemma {:induction false} OperatorIsReadable(min: nat, left: Expr, toks: seq<Token>)
    requires Readable(left) && min <= Next(toks) && toks != [] && InfixOf(toks[0]).Some?
    ensures Climb(min, left, toks).Some? ==> Readable(Climb(min, left, toks).value.expr)
    decreases |toks| - 1, 4
  {
    var op, p, rest := InfixOf(toks[0]).value, Next(toks), toks[1..];
    AtInfix(min, left, toks);
    ReadIsReadable(p + 1, rest);
    var x := Read(p + 1, rest);
    if x.Some? { ClimbIsReadable(min, Binary(op, left, x.value.expr), x.value.rest); }
  }

  lemma AtInfix(min: nat, left: Expr, toks: seq<Token>)
    requires min <= Next(toks) && toks != [] && InfixOf(toks[0]).Some?
    ensures Climb(min, left, toks) ==
      match Read(Next(toks) + 1, toks[1..])
      case Some(x) => Climb(min, Binary(InfixOf(toks[0]).value, left, x.expr), x.rest)
      case None => None
  {}

  lemma {:induction false} CallIsReadable(min: nat, left: Expr, toks: seq<Token>)
    requires Readable(left) && min <= POSTFIX && Starts(toks, LPAREN)
    ensures Climb(min, left, toks).Some? ==> Readable(Climb(min, left, toks).value.expr)
    decreases |toks| - 1, 4
  {
    ListIsReadable(RPAREN, toks[1..]);
    var xs := ReadList(RPAREN, toks[1..]);
    if xs.Some? { ClimbIsReadable(min, MethodCall(left, xs.value.exprs), xs.value.rest); }
  }

  lemma {:induction false} MemberIsReadable(min: nat, left: Expr, toks: seq<Token>)
    requires Readable(left) && min <= POSTFIX && Starts(toks, DOT)
    ensures Climb(min, left, toks).Some? ==> Readable(Climb(min, left, toks).value.expr)
    decreases |toks| - 1, 4
  {
    var rest := toks[1..];
    if rest != [] && rest[0].Name? { ClimbIsReadable(min, Member(left, ID(rest[0].name, rest[0].name)), rest[1..]); }
  }

  lemma {:induction false} MuxIsReadable(min: nat, left: Expr, toks: seq<Token>)
    requires Readable(left)
    ensures ReadMux(min, left, toks).Some? ==> Readable(ReadMux(min, left, toks).value.expr)
    decreases |toks|, 2
  {
    ReadIsReadable(LOW, toks);
    var b := Read(LOW, toks);
    if b.Some? && Starts(b.value.rest, COLON) {
      ReadIsReadable(COND, b.value.rest[1..]);
      var c := Read(COND, b.value.rest[1..]);
      if c.Some? { ClimbIsReadable(min, Mux(left, b.value.expr, c.value.expr), c.value.rest); }
    }
  }

  lemma {:induction false} IndexIsReadable(min: nat, left: Expr, toks: seq<Token>)
    requires Readable(left)
    ensures ReadIndex(min, left, toks).Some? ==> Readable(ReadIndex(min, left, toks).value.expr)
    decreases |toks|, 2
  {
    ReadIsReadable(LOW, toks);
    var i := Read(LOW, toks);
    if i.Some? && Starts(i.value.rest, RBRACKET) {
      ClimbIsReadable(min, ArrayIndex(left, i.value.expr), i.value.rest[1..]);
    } else if i.Some? && Starts(i.value.rest, COLON) {
      SliceIsReadable(min, left, i.value.expr, i.value.rest[1..]);
    }
  }

  lemma {:induction false} SliceIsReadable(min: nat, left: Expr, hi: Expr, toks: seq<Token>)
    requires Readable(left) && Readable(hi)
    ensures ReadSlice(min, left, hi, toks).Some? ==> Readable(ReadSlice(min, left, hi, toks).value.expr)
    decreases |toks|, 2
  {
    ReadIsReadable(LOW, toks);
    var lo := Read(LOW, toks);
    if lo.Some? && Starts(lo.value.rest, RBRACKET) {
      ClimbIsReadable(min, Slice(left, hi, lo.value.expr), lo.value.rest[1..]);
    }
  }

  lemma {:induction false} ListIsReadable(close: Token, toks: seq<Token>)
    ensures ReadList(close, toks).Some? ==> AllReadable(ReadList(close, toks).value.exprs)
    decreases |toks|, 3
  {
    if !Starts(toks, close) { ItemsAreReadable(close, toks); }
  }

  lemma {:induction false} ItemsAreReadable(close: Token, toks: seq<Token>)
    ensures ReadItems(close, toks).Some? ==> AllReadable(ReadItems(close, toks).value.exprs)
    decreases |toks|, 2
  {
    ReadIsReadable(LOW, toks);
    var x := Read(LOW, toks);
    if x.Some? && !Starts(x.value.rest, close) && Starts(x.value.rest, COMMA) {
      ItemsAreReadable(close, x.value.rest[1..]);
    }
  }

  /** An expression can be read back from its text if and only if it has no negative constant, no
      Boolean literal, no renamed name and no absolute path. */
  lemma {:induction false} ReadBackIff(e: Expr, q: nat)
    requires q <= POSTFIX
    ensures ReadAll(Print(e, q)) == Some(e) <==> Readable(e)
  {
    if Readable(e) { ReadAllPrinted(e, q); }
    ReadIsReadable(LOW, Print(e, q));
  }

  /** Different expressions of that kind print differently. */
  lemma {:induction false} PrintsApart(e: Expr, f: Expr, q: nat)
    requires q <= POSTFIX && Readable(e) && Readable(f) && Print(e, q) == Print(f, q)
    ensures e == f
  {
    ReadAllPrinted(e, q);
    ReadAllPrinted(f, q);
  }

  /** Each of the four kinds prints like a readable expression.  The first is `-5`, a constant and a
      negation. */
  lemma NegativeConstantsCollide(v: int, q: nat)
    requires 0 < v && 0 < q <= PREFIX
    ensures Print(Constant(-v), q) == Print(Unary(Neg, Constant(v)), q)
  {
    assert Print(Constant(v), PREFIX) == [Num(v)];
  }

  /** `true` is printed as 1, without `boolalpha`. */
  lemma BooleansCollide(b: bool, q: nat)
    requires 0 < q
    ensures Print(BoolLiteral(b), q) == Print(Constant(if b then 1 else 0), q)
  {
    assert Semi(q) == [];
  }

  /** `a_0/a` is a renamed path and a quotient. */
  lemma RenamedPathsCollide(name: string, original: string, absolute: bool, q: nat)
    requires name != original && 0 < q <= Prec(Div)
    ensures Print(PathExpression(ID(name, original), absolute), q)
         == Print(Binary(Div, PathExpression(ID(name, name), false), PathExpression(ID(original, original), false)), q)
  {
    PathText(name, Prec(Div));
    PathText(original, Prec(Div) + 1);
    assert [Name(name)] + [SLASH] + [Name(original)] == [Name(name), SLASH, Name(original)];
  }

  lemma PathText(name: string, q: nat)
    requires 0 < q
    ensures Print(PathExpression(ID(name, name), false), q) == [Name(name)]
  {
    assert [Name(name)] + Semi(q) == [Name(name)];
  }

  /** And so is a renamed member, whatever it is a member of. */
  lemma RenamedMembersCollide(x: Expr, name: string, original: string, q: nat)
    requires name != original && 0 < q <= Prec(Div)
    ensures Print(Member(x, ID(name, original)), q)
         == Print(Binary(Div, Member(x, ID(name, name)), PathExpression(ID(original, original), false)), q)
  {
    PathText(original, Prec(Div) + 1);
    var t := Print(x, POSTFIX);
    assert Print(Member(x, ID(name, name)), Prec(Div)) == t + [DOT] + [Name(name)];
    assert t + [DOT] + [Name(name)] + [SLASH] + [Name(original)] == t + [DOT] + [Name(name), SLASH, Name(original)];
  }

  /** The dot of an absolute path is not printed. */
  lemma AbsolutePathsCollide(path: ID, q: nat)
    ensures Print(PathExpression(path, true), q) == Print(PathExpression(path, false), q)
  {}
}
