/** Where the printers write parentheses, and that none of them could be left out. */
module ExprParens {
  import opened Options
  import opened Expressions
  import opened ExprReader

  /** How tightly an expression holds together, by the levels of the reader's grammar. */
  function Tightness(e: Expr): nat
  {
    match e
    case Unary(_, _) => UNARY
    case Binary(op, _, _) => InfixLevel(op)
    case Mux(_, _, _) => TERNARY
    case _ => TIGHTEST
  }

  function Operand(e: Expr, parens: bool): seq<Token>
  {
    if parens then [LPAREN] + Print(e, LOW) + [RPAREN] else Print(e, LOW)
  }

  /** What may stand behind an operand, and what before one. */
  datatype Behind =
    | Operate(op: BinOp, right: Expr) | Choose(yes: Expr, no: Expr)
    | Select(member: ID) | Index(at: Expr) | Cut(hi: Expr, lo: Expr) | Call(args: seq<Expr>)

  datatype Ahead = Apply(uop: UnOp) | Combine(op: BinOp, left: Expr) | Otherwise(cond: Expr, yes: Expr)

  function Then(e: Expr, k: Behind): Expr
  {
    match k
    case Operate(op, r) => Binary(op, e, r)
    case Choose(yes, no) => Mux(e, yes, no)
    case Select(name) => Member(e, name)
    case Index(i) => ArrayIndex(e, i)
    case Cut(hi, lo) => Slice(e, hi, lo)
    case Call(args) => MethodCall(e, args)
  }

  function First(k: Ahead, e: Expr): Expr
  {
    match k
    case Apply(op) => Unary(op, e)
    case Combine(op, l) => Binary(op, l, e)
    case Otherwise(c, yes) => Mux(c, yes, e)
  }

  /** How tight an operand there has to be to stand without parentheses. */
  function AsksLeft(k: Behind): nat
  {
    match k
    case Operate(op, _) => InfixLevel(op)
    case Choose(_, _) => TERNARY + 1
    case _ => TIGHTEST
  }

  function AsksRight(k: Ahead): nat
  {
    match k
    case Apply(_) => UNARY
    case Combine(op, _) => InfixLevel(op) + 1
    case Otherwise(_, _) => TERNARY
  }

  function TextBehind(k: Behind): seq<Token>
  {
    match k
    case Operate(op, r) => [BinToken(op)] + Operand(r, Tightness(r) < AsksRight(Combine(op, r)))
    case Choose(yes, no) => [QUESTION] + Print(yes, LOW) + [COLON] + Operand(no, Tightness(no) < TERNARY)
    case Select(name) => [DOT] + IdTokens(name)
    case Index(i) => [LBRACKET] + Print(i, LOW) + [RBRACKET]
    case Cut(hi, lo) => [LBRACKET] + Print(hi, LOW) + [COLON] + Print(lo, LOW) + [RBRACKET]
    case Call(args) => [LPAREN] + PrintAll(args, 0) + [RPAREN]
  }

  function TextAhead(k: Ahead): seq<Token>
  {
    match k
    case Apply(op) => [UnToken(op)]
    case Combine(op, l) => Operand(l, Tightness(l) < InfixLevel(op)) + [BinToken(op)]
    case Otherwise(c, yes) => Operand(c, Tightness(c) <= TERNARY) + [QUESTION] + Print(yes, LOW) + [COLON]
  }

  // ---------- where there are parentheses ----------

  lemma LevelIsTightness(e: Expr)
    ensures Level(e) == Tightness(e)
  {
    if e.Binary? { PrecIsLevel(e.bop); }
  }

  /** An operand stands in parentheses if and only if it is looser than its place asks for. */
  lemma OperandText(e: Expr, q: nat)
    requires LOW <= q <= POSTFIX
    ensures Print(e, q) == Operand(e, Tightness(e) < q)
  {
    LevelIsTightness(e);
    if q > Level(e) {
      WrappedIs(e, q);
    } else {
      SameAbove(e, q);
    }
  }

  lemma SameAbove(e: Expr, q: nat)
    requires LOW <= q <= Level(e)
    ensures Print(e, q) == Print(e, LOW)
  {}

  lemma Bare(own: nat, ts: seq<Token>)
    requires LOW <= own
    ensures Framed(own, LOW, ts) == ts && ts + Semi(LOW) == ts
  {}

  lemma OperateText(e: Expr, op: BinOp, r: Expr)
    ensures Print(Binary(op, e, r), LOW)
         == Operand(e, Tightness(e) < InfixLevel(op)) + [BinToken(op)] + Operand(r, Tightness(r) <= InfixLevel(op))
  {
    PrecIsLevel(op);
    OperandText(e, Prec(op));
    OperandText(r, Prec(op) + 1);
    Bare(Prec(op), Print(e, Prec(op)) + [BinToken(op)] + Print(r, Prec(op) + 1));
  }

  lemma ChooseText(e: Expr, yes: Expr, no: Expr)
    ensures Print(Mux(e, yes, no), LOW)
         == Operand(e, Tightness(e) <= TERNARY) + [QUESTION] + Print(yes, LOW) + [COLON]
            + Operand(no, Tightness(no) < TERNARY)
  {
    OperandText(e, COND + 1);
    OperandText(no, COND);
    Bare(COND, Print(e, COND + 1) + [QUESTION] + Print(yes, LOW) + [COLON] + Print(no, COND));
  }

  /** What stands before an operand that something follows, and whether it is in parentheses. */
  lemma BehindText(e: Expr, k: Behind)
    ensures Print(Then(e, k), LOW) == Operand(e, Tightness(e) < AsksLeft(k)) + TextBehind(k)
  {
    var t := Operand(e, Tightness(e) < AsksLeft(k));
    match k
    case Operate(op, r) =>
      OperateText(e, op, r);
      Joins2(t, [BinToken(op)], Operand(r, Tightness(r) < AsksRight(Combine(op, r))));
    case Choose(yes, no) =>
      ChooseText(e, yes, no);
      Joins4(t, [QUESTION], Print(yes, LOW), [COLON], Operand(no, Tightness(no) < TERNARY));
    case _ => BaseText(e, k);
  }

  lemma BaseText(e: Expr, k: Behind)
    requires !k.Operate? && !k.Choose?
    ensures Print(Then(e, k), LOW) == Operand(e, Tightness(e) < TIGHTEST) + TextBehind(k)
  {
    OperandText(e, POSTFIX);
    var t := Print(e, POSTFIX);
    match k
    case Select(name) => SelectText(e, name);
    case Index(i) => IndexedText(e, i);
    case Cut(hi, lo) => CutText(e, hi, lo);
    case Call(args) => CalledText(e, args);
  }

  lemma SelectText(e: Expr, name: ID)
    ensures Print(Member(e, name), LOW) == Print(e, POSTFIX) + TextBehind(Select(name))
  {
    Bare(POSTFIX, Print(e, POSTFIX) + [DOT] + IdTokens(name));
    Joins2(Print(e, POSTFIX), [DOT], IdTokens(name));
  }

  lemma IndexedText(e: Expr, i: Expr)
    ensures Print(ArrayIndex(e, i), LOW) == Print(e, POSTFIX) + TextBehind(Index(i))
  {
    Bare(POSTFIX, Print(e, POSTFIX) + [LBRACKET] + Print(i, LOW) + [RBRACKET]);
    Joins3(Print(e, POSTFIX), [LBRACKET], Print(i, LOW), [RBRACKET]);
  }

  lemma CutText(e: Expr, hi: Expr, lo: Expr)
    ensures Print(Slice(e, hi, lo), LOW) == Print(e, POSTFIX) + TextBehind(Cut(hi, lo))
  {
    Bare(POSTFIX, Print(e, POSTFIX) + [LBRACKET] + Print(hi, LOW) + [COLON] + Print(lo, LOW) + [RBRACKET]);
    Joins5(Print(e, POSTFIX), [LBRACKET], Print(hi, LOW), [COLON], Print(lo, LOW), [RBRACKET]);
  }

  lemma CalledText(e: Expr, args: seq<Expr>)
    ensures Print(MethodCall(e, args), LOW) == Print(e, POSTFIX) + TextBehind(Call(args))
  {
    Bare(POSTFIX, Print(e, POSTFIX) + [LPAREN] + PrintAll(args, 0) + [RPAREN]);
    Joins3(Print(e, POSTFIX), [LPAREN], PrintAll(args, 0), [RPAREN]);
  }

  lemma Joins2(a: seq<Token>, b: seq<Token>, c: seq<Token>)
    ensures a + b + c == a + (b + c)
  {}

  lemma Joins4(a: seq<Token>, b: seq<Token>, c: seq<Token>, d: seq<Token>, e: seq<Token>)
    ensures a + b + c + d + e == a + (b + c + d + e)
  {
    Joins3(a, b, c, d);
    Joins2(a, b + c + d, e);
  }

  /** The same for an operand behind something. */
  lemma AheadText(k: Ahead, e: Expr)
    ensures Print(First(k, e), LOW) == TextAhead(k) + Operand(e, Tightness(e) < AsksRight(k))
  {
    match k
    case Apply(op) =>
      OperandText(e, PREFIX);
      Bare(PREFIX, [UnToken(op)] + Print(e, PREFIX));
    case Combine(op, l) => OperateText(l, op, e);
    case Otherwise(c, yes) => ChooseText(c, yes, e);
  }

  // ---------- none of them could be left out ----------

  /** `e` is looser than what follows asks for: without parentheses, that goes to the last operand of `e`. */
  function Attach(e: Expr, k: Behind): Expr
    requires Tightness(e) < AsksLeft(k)
    decreases e
  {
    match e
    case Unary(op, x) => Unary(op, if UNARY <= Tightness(x) < AsksLeft(k) then Attach(x, k) else Then(x, k))
    case Binary(op, l, x) =>
      Binary(op, l, if InfixLevel(op) < Tightness(x) < AsksLeft(k) then Attach(x, k) else Then(x, k))
    case Mux(c, yes, x) => Mux(c, yes, if TERNARY <= Tightness(x) < AsksLeft(k) then Attach(x, k) else Then(x, k))
  }

  /** And what stands before `e` goes to its first operand. */
  function Hook(k: Ahead, e: Expr): Expr
    requires Tightness(e) < AsksRight(k)
    decreases e
  {
    match e
    case Binary(op, x, r) =>
      Binary(op, if InfixLevel(op) <= Tightness(x) < AsksRight(k) then Hook(k, x) else First(k, x), r)
    case Mux(x, yes, no) => Mux(if TERNARY < Tightness(x) < AsksRight(k) then Hook(k, x) else First(k, x), yes, no)
  }

  /** An operator seen from its last operand. */
  function Outer(e: Expr): (r: (Ahead, Expr))
    requires e.Unary? || e.Binary? || e.Mux?
    ensures e == First(r.0, r.1) && r.1 < e
  {
    match e
    case Unary(op, x) => (Apply(op), x)
    case Binary(op, l, x) => (Combine(op, l), x)
    case Mux(c, yes, x) => (Otherwise(c, yes), x)
  }

  /** The outermost operator stays, and what becomes its last operand needs no parentheses. */
  lemma StaysBare(e: Expr, k: Behind)
    requires Tightness(e) < AsksLeft(k)
    ensures Tightness(Attach(e, k)) == Tightness(e)
    ensures var (h, x) := Outer(e);
      AsksRight(h) <= AsksLeft(k) && AsksRight(h) <= Tightness(Then(x, k))
      && (AsksRight(h) <= Tightness(x) < AsksLeft(k) ==> Tightness(Attach(x, k)) == Tightness(x))
  {}

  lemma {:induction false} AttachText(e: Expr, k: Behind)
    requires Tightness(e) < AsksLeft(k)
    ensures Print(Attach(e, k), LOW) == Print(e, LOW) + TextBehind(k)
    decreases e
  {
    var (h, x) := Outer(e);
    var p := AsksRight(h);
    var within := p <= Tightness(x) < AsksLeft(k);
    var x' := if within then Attach(x, k) else Then(x, k);
    assert Attach(e, k) == First(h, x');
    if within { AttachText(x, k); } else { BehindText(x, k); }
    AheadText(h, x);
    AheadText(h, x');
    StaysBare(e, k);
    assert Operand(x', Tightness(x') < p) == Operand(x, Tightness(x) < p) + TextBehind(k);
    Joins2(TextAhead(h), Operand(x, Tightness(x) < p), TextBehind(k));
  }

  /** An operator seen from its first operand. */
  function Inner(e: Expr): (r: (Expr, Behind))
    requires e.Binary? || e.Mux?
    ensures e == Then(r.0, r.1) && r.0 < e
  {
    match e
    case Binary(op, x, r) => (x, Operate(op, r))
    case Mux(x, yes, no) => (x, Choose(yes, no))
  }

  lemma StaysBareToo(k: Ahead, e: Expr)
    requires Tightness(e) < AsksRight(k)
    ensures Tightness(Hook(k, e)) == Tightness(e)
    ensures var (x, b) := Inner(e);
      AsksLeft(b) <= AsksRight(k) && AsksLeft(b) <= Tightness(First(k, x))
      && (AsksLeft(b) <= Tightness(x) < AsksRight(k) ==> Tightness(Hook(k, x)) == Tightness(x))
  {}

  lemma {:induction false} HookText(k: Ahead, e: Expr)
    requires Tightness(e) < AsksRight(k)
    ensures Print(Hook(k, e), LOW) == TextAhead(k) + Print(e, LOW)
    decreases e
  {
    var (x, b) := Inner(e);
    var p := AsksLeft(b);
    var within := p <= Tightness(x) < AsksRight(k);
    var x' := if within then Hook(k, x) else First(k, x);
    assert Hook(k, e) == Then(x', b);
    if within { HookText(k, x); } else { AheadText(k, x); }
    BehindText(x, b);
    BehindText(x', b);
    StaysBareToo(k, e);
    assert Operand(x', Tightness(x') < p) == TextAhead(k) + Operand(x, Tightness(x) < p);
    Joins2(TextAhead(k), Operand(x, Tightness(x) < p), TextBehind(b));
  }

  lemma AttachIsOther(e: Expr, k: Behind)
    requires Tightness(e) < AsksLeft(k)
    ensures Attach(e, k) != Then(e, k)
  {
    StaysBare(e, k);
  }

  lemma HookIsOther(k: Ahead, e: Expr)
    requires Tightness(e) < AsksRight(k)
    ensures Hook(k, e) != First(k, e)
  {
    StaysBareToo(k, e);
  }

  lemma {:induction false} AttachReadable(e: Expr, k: Behind)
    requires Tightness(e) < AsksLeft(k) && Readable(Then(e, k))
    ensures Readable(Attach(e, k))
    decreases e
  {
    var (h, x) := Outer(e);
    if AsksRight(h) <= Tightness(x) < AsksLeft(k) { AttachReadable(x, k); }
  }

  lemma {:induction false} HookReadable(k: Ahead, e: Expr)
    requires Tightness(e) < AsksRight(k) && Readable(First(k, e))
    ensures Readable(Hook(k, e))
    decreases e
  {
    var (x, b) := Inner(e);
    if AsksLeft(b) <= Tightness(x) < AsksRight(k) { HookReadable(k, x); }
  }

  /** Without the parentheses of an operand that something follows, the text would be that of another
      expression, and be read as that one. */
  lemma LeftParensAreNeeded(e: Expr, k: Behind)
    requires Tightness(e) < AsksLeft(k)
    ensures Print(Then(e, k), LOW) == [LPAREN] + Print(e, LOW) + [RPAREN] + TextBehind(k)
    ensures Attach(e, k) != Then(e, k) && Print(e, LOW) + TextBehind(k) == Print(Attach(e, k), LOW)
    ensures Readable(Then(e, k)) ==> ReadAll(Print(e, LOW) + TextBehind(k)) == Some(Attach(e, k))
  {
    BehindText(e, k);
    AttachText(e, k);
    AttachIsOther(e, k);
    if Readable(Then(e, k)) {
      AttachReadable(e, k);
      ReadAllPrinted(Attach(e, k), LOW);
    }
  }

  /** Nor without those of an operand behind something. */
  lemma RightParensAreNeeded(k: Ahead, e: Expr)
    requires Tightness(e) < AsksRight(k)
    ensures Print(First(k, e), LOW) == TextAhead(k) + ([LPAREN] + Print(e, LOW) + [RPAREN])
    ensures Hook(k, e) != First(k, e) && TextAhead(k) + Print(e, LOW) == Print(Hook(k, e), LOW)
    ensures Readable(First(k, e)) ==> ReadAll(TextAhead(k) + Print(e, LOW)) == Some(Hook(k, e))
  {
    AheadText(k, e);
    HookText(k, e);
    HookIsOther(k, e);
    if Readable(First(k, e)) {
      HookReadable(k, e);
      ReadAllPrinted(Hook(k, e), LOW);
    }
  }
}
