/** Every expression that the printer's own reader does not give back prints like another one, so that
    no reader can give both of them back. */
module ExprTwins {
  import opened Expressions
  import opened ExprReader

  /** Why `e` prints like another expression: `f` has the same text wherever it stands; or the text is
      that of a quotient, without its parentheses; or that of a negation, without its parentheses. */
  datatype Twin = Same(f: Expr) | Quotient(l: Expr, r: Expr) | Negated(x: Expr)

  const PRODUCT := Prec(Div)

  ghost predicate TwinOk(e: Expr, t: Twin)
  {
    match t
    case Same(f) => f != e && forall q :: LOW <= q <= POSTFIX ==> Print(f, q) == Print(e, q)
    case Quotient(l, r) =>
      && Level(e) >= PREFIX && Print(l, PRODUCT) == Print(l, PREFIX)
      && (forall q :: LOW <= q <= PREFIX ==> Print(e, q) == Divided(l, r))
      && (if e.Unary? then Print(e, POSTFIX) == [LPAREN] + Divided(l, r) + [RPAREN]
          else Print(e, POSTFIX) == Divided(l, r) && Print(r, POSTFIX) == Print(r, PREFIX))
    case Negated(x) =>
      && !e.Unary? && Print(x, POSTFIX) == Print(x, PREFIX)
      && forall q :: LOW <= q <= POSTFIX ==> Print(e, q) == [MINUS] + Print(x, PREFIX)
  }

  function Divided(l: Expr, r: Expr): seq<Token>
  {
    Print(l, PREFIX) + [SLASH] + Print(r, PREFIX)
  }

  /** The other expression, where a product may stand without parentheses. */
  function Outright(t: Twin): Expr
  {
    match t
    case Same(f) => f
    case Quotient(l, r) => Binary(Div, l, r)
    case Negated(x) => Unary(Neg, x)
  }

  lemma OutrightOk(e: Expr, t: Twin, q: nat)
    requires TwinOk(e, t) && LOW <= q <= PRODUCT
    ensures Outright(t) != e && Print(Outright(t), q) == Print(e, q)
  {
    match t
    case Same(_) =>
    case Quotient(l, r) => BinaryText(Div, l, r, q);
    case Negated(x) => UnaryText(Neg, x, q);
  }

  // ---------- texts, where no semicolon is due ----------

  lemma UnaryText(op: UnOp, x: Expr, q: nat)
    requires LOW <= q <= POSTFIX
    ensures var body := [UnToken(op)] + Print(x, PREFIX);
      Print(Unary(op, x), q) == if q == POSTFIX then [LPAREN] + body + [RPAREN] else body
  {
    var body := [UnToken(op)] + Print(x, PREFIX);
    assert body + [] == body && [LPAREN] + body + [RPAREN] + [] == [LPAREN] + body + [RPAREN];
  }

  lemma BinaryText(op: BinOp, l: Expr, r: Expr, q: nat)
    requires LOW <= q
    ensures var body := Print(l, Prec(op)) + [BinToken(op)] + Print(r, Prec(op) + 1);
      Print(Binary(op, l, r), q) == if q > Prec(op) then [LPAREN] + body + [RPAREN] else body
  {
    var body := Print(l, Prec(op)) + [BinToken(op)] + Print(r, Prec(op) + 1);
    assert body + [] == body && [LPAREN] + body + [RPAREN] + [] == [LPAREN] + body + [RPAREN];
  }

  // ---------- the base of a postfix expression ----------

  predicate HasBase(e: Expr)
  {
    e.Slice? || e.Member? || e.ArrayIndex? || e.MethodCall?
  }

  function Base(e: Expr): (x: Expr)
    requires HasBase(e)
    ensures x < e
  {
    match e
    case Slice(x, _, _) => x
    case Member(x, _) => x
    case ArrayIndex(x, _) => x
    case MethodCall(x, _) => x
  }

  function Rebased(e: Expr, b: Expr): Expr
    requires HasBase(e)
  {
    match e
    case Slice(_, hi, lo) => Slice(b, hi, lo)
    case Member(_, name) => Member(b, name)
    case ArrayIndex(_, i) => ArrayIndex(b, i)
    case MethodCall(_, args) => MethodCall(b, args)
  }

  /** What is printed behind the base. */
  function Tail(e: Expr): seq<Token>
    requires HasBase(e)
  {
    match e
    case Slice(_, hi, lo) => [LBRACKET] + (Print(hi, LOW) + [COLON] + Print(lo, LOW) + [RBRACKET])
    case Member(_, name) => [DOT] + IdTokens(name)
    case ArrayIndex(_, i) => [LBRACKET] + (Print(i, LOW) + [RBRACKET])
    case MethodCall(_, args) => [LPAREN] + (PrintAll(args, 0) + [RPAREN])
  }

  lemma RebasedText(e: Expr, b: Expr, q: nat)
    requires HasBase(e) && LOW <= q <= POSTFIX
    ensures Print(Rebased(e, b), q) == Print(b, POSTFIX) + Tail(e)
  {
    var t := Print(b, POSTFIX);
    match e
    case Slice(_, hi, lo) => Grouped(t, [LBRACKET], Print(hi, LOW), [COLON], Print(lo, LOW), [RBRACKET]);
    case Member(_, name) => Grouped(t, [DOT], IdTokens(name), [], [], []);
    case ArrayIndex(_, i) => Grouped(t, [LBRACKET], Print(i, LOW), [RBRACKET], [], []);
    case MethodCall(_, args) => Grouped(t, [LPAREN], PrintAll(args, 0), [RPAREN], [], []);
  }

  lemma Grouped<T>(t: seq<T>, a: seq<T>, b: seq<T>, c: seq<T>, d: seq<T>, e: seq<T>)
    ensures t + a + b + c + d + e + [] == t + (a + (b + c + d + e))
    ensures t + a + b + [] == t + (a + b) && t + a + b + c + [] == t + (a + (b + c))
  {}

  /** A twin of the base makes one of the whole. */
  function TwinOfBase(e: Expr, t: Twin): Twin
    requires HasBase(e)
  {
    match t
    case Same(f) => Same(Rebased(e, f))
    case Quotient(l, r) => if Base(e).Unary? then Same(Rebased(e, Outright(t))) else Quotient(l, Rebased(e, r))
    case Negated(x) => Negated(Rebased(e, x))
  }

  lemma TwinOfBaseOk(e: Expr, t: Twin)
    requires HasBase(e) && TwinOk(Base(e), t)
    ensures TwinOk(e, TwinOfBase(e, t))
  {
    match t
    case Same(f) => SameBase(e, f);
    case Quotient(l, r) =>
      if Base(e).Unary? {
        BinaryText(Div, l, r, POSTFIX);
        SameBase(e, Binary(Div, l, r));
      } else {
        forall q | LOW <= q <= POSTFIX
          ensures Print(e, q) == Print(l, PREFIX) + [SLASH] + Print(Rebased(e, r), q)
        {
          BaseText(e, r, q);
          Regroup(Print(l, PREFIX) + [SLASH], Print(r, POSTFIX), Tail(e));
        }
        SameEverywhere(e, r);
      }
    case Negated(x) =>
      forall q | LOW <= q <= POSTFIX ensures Print(e, q) == [MINUS] + Print(Rebased(e, x), q) {
        BaseText(e, x, q);
        Regroup([MINUS], Print(x, POSTFIX), Tail(e));
      }
      SameEverywhere(e, x);
  }

  lemma Regroup<T>(a: seq<T>, b: seq<T>, c: seq<T>)
    ensures a + b + c == a + (b + c)
  {}

  /** The text with the base there is, and with another one. */
  lemma BaseText(e: Expr, b: Expr, q: nat)
    requires HasBase(e) && LOW <= q <= POSTFIX
    ensures Print(e, q) == Print(Base(e), POSTFIX) + Tail(e)
    ensures Print(Rebased(e, b), q) == Print(b, POSTFIX) + Tail(e)
  {
    RebasedText(e, Base(e), q);
    RebasedText(e, b, q);
  }

  lemma SameBase(e: Expr, f: Expr)
    requires HasBase(e) && f != Base(e) && Print(f, POSTFIX) == Print(Base(e), POSTFIX)
    ensures TwinOk(e, Same(Rebased(e, f)))
  {
    forall q | LOW <= q <= POSTFIX ensures Print(Rebased(e, f), q) == Print(e, q) { BaseText(e, f, q); }
  }

  /** A postfix expression is printed in one way wherever it stands. */
  lemma SameEverywhere(e: Expr, b: Expr)
    requires HasBase(e)
    ensures forall q :: LOW <= q <= POSTFIX ==> Print(Rebased(e, b), q) == Print(Rebased(e, b), PREFIX)
  {
    RebasedText(e, b, PREFIX);
    forall q | LOW <= q <= POSTFIX ensures Print(Rebased(e, b), q) == Print(Rebased(e, b), PREFIX) {
      RebasedText(e, b, q);
    }
  }

  // ---------- lists ----------

  lemma {:induction false} SameAll(items: seq<Expr>, k: nat, f: Expr, i: nat)
    requires k < |items| && i <= |items| && Print(f, LOW) == Print(items[k], LOW)
    ensures PrintAll(items[k := f], i) == PrintAll(items, i)
    decreases |items| - i
  {
    if i < |items| { SameAll(items, k, f, i + 1); }
  }

  // ---------- all expressions ----------

  lemma {:induction false} FindTwin(e: Expr) returns (t: Twin)
    requires !Readable(e)
    ensures TwinOk(e, t)
    decreases e
  {
    match e
    case PathExpression(path, absolute) => t := PathTwin(path, absolute);
    case Constant(v) => t := Negated(Constant(-v));
    case BoolLiteral(b) => t := Same(Constant(if b then 1 else 0));
    case Unary(op, x) =>
      var s := FindTwin(x);
      t := UnaryTwin(op, x, s);
    case Binary(op, l, r) =>
      if !Readable(l) {
        var s := FindTwin(l);
        OutrightOk(l, s, Prec(op));
        t := Same(Binary(op, Outright(s), r));
      } else {
        var s := FindTwin(r);
        t := RightTwin(op, l, r, s);
      }
    case Mux(a, b, c) =>
      var k := if !Readable(a) then a else if !Readable(b) then b else c;
      var s := FindTwin(k);
      t := MuxTwin(a, b, c, s);
    case ListExpression(items) =>
      var k, f := ItemTwin(items);
      SameAll(items, k, f, 0);
      t := Same(ListExpression(items[k := f]));
    case Slice(_, _, _) | Member(_, _) | ArrayIndex(_, _) | MethodCall(_, _) => t := PostfixTwin(e);
    case StringLiteral(_) | DefaultExpression | This => assert false;
  }

  /** An element of a list that is to blame, and what may stand in its place. */
  lemma {:induction false} ItemTwin(items: seq<Expr>) returns (k: nat, f: Expr)
    requires !AllReadable(items)
    ensures k < |items| && f != items[k] && Print(f, LOW) == Print(items[k], LOW)
    decreases items
  {
    var i :| 0 <= i < |items| && !Readable(items[i]);
    var s := FindTwin(items[i]);
    OutrightOk(items[i], s, LOW);
    k, f := i, Outright(s);
  }

  lemma {:induction false} PostfixTwin(e: Expr) returns (t: Twin)
    requires !Readable(e) && HasBase(e)
    ensures TwinOk(e, t)
    decreases e, 0
  {
    if e.Member? && Renamed(e.member) {
      t := MemberTwin(e.of, e.member);
    } else if !Readable(Base(e)) {
      var s := FindTwin(Base(e));
      TwinOfBaseOk(e, s);
      t := TwinOfBase(e, s);
    } else {
      match e
      case Slice(x, hi, lo) =>
        var k := if Readable(hi) then lo else hi;
        var s := FindTwin(k);
        OutrightOk(k, s, LOW);
        t := Same(if Readable(hi) then Slice(x, hi, Outright(s)) else Slice(x, Outright(s), lo));
      case ArrayIndex(x, i) =>
        var s := FindTwin(i);
        OutrightOk(i, s, LOW);
        t := Same(ArrayIndex(x, Outright(s)));
      case MethodCall(x, args) =>
        var k, f := ItemTwin(args);
        SameAll(args, k, f, 0);
        t := Same(MethodCall(x, args[k := f]));
    }
  }

  lemma PathTwin(path: ID, absolute: bool) returns (t: Twin)
    requires !Readable(PathExpression(path, absolute))
    ensures TwinOk(PathExpression(path, absolute), t)
  {
    if absolute {
      t := Same(PathExpression(path, false));
    } else {
      t := Quotient(Plain(path.name), Plain(path.original));
      PlainText(path.name);
      PlainText(path.original);
      assert [Name(path.name)] + [SLASH] + [Name(path.original)] == IdTokens(path) + [];
    }
  }

  function Plain(name: string): Expr
  {
    PathExpression(ID(name, name), false)
  }

  lemma PlainText(name: string)
    ensures forall q :: q > 0 ==> Print(Plain(name), q) == [Name(name)]
  {
    assert [Name(name)] + [] == [Name(name)];
  }

  lemma MemberTwin(x: Expr, name: ID) returns (t: Twin)
    requires Renamed(name)
    ensures TwinOk(Member(x, name), t)
  {
    var e, l, base := Member(x, name), Member(x, ID(name.name, name.name)), Print(x, POSTFIX);
    t := Quotient(l, Plain(name.original));
    PlainText(name.original);
    forall q | LOW <= q <= POSTFIX
      ensures Print(l, q) == base + [DOT] + [Name(name.name)] && Print(e, q) == base + [DOT] + IdTokens(name) {
      assert base + [DOT] + [Name(name.name)] + [] == base + [DOT] + [Name(name.name)];
      assert base + [DOT] + IdTokens(name) + [] == base + [DOT] + IdTokens(name);
    }
    assert base + [DOT] + [Name(name.name)] + [SLASH] + [Name(name.original)] == base + [DOT] + IdTokens(name);
  }

  lemma UnaryTwin(op: UnOp, x: Expr, s: Twin) returns (t: Twin)
    requires TwinOk(x, s)
    ensures TwinOk(Unary(op, x), t)
  {
    if s.Quotient? {
      t := Quotient(Unary(op, s.l), s.r);
      UnaryQuotient(op, x, s.l, s.r);
    } else {
      if s.Negated? { UnaryText(Neg, s.x, PREFIX); }
      var f := Outright(s);
      t := Same(Unary(op, f));
      forall q | LOW <= q <= POSTFIX ensures Print(Unary(op, f), q) == Print(Unary(op, x), q) {
        UnaryText(op, x, q);
        UnaryText(op, f, q);
      }
    }
  }

  lemma UnaryQuotient(op: UnOp, x: Expr, l: Expr, r: Expr)
    requires TwinOk(x, Quotient(l, r))
    ensures TwinOk(Unary(op, x), Quotient(Unary(op, l), r))
  {
    UnaryText(op, l, PRODUCT);
    UnaryText(op, l, PREFIX);
    assert [UnToken(op)] + Divided(l, r) == [UnToken(op)] + Print(l, PREFIX) + [SLASH] + Print(r, PREFIX);
    UnaryText(op, x, POSTFIX);
    forall q | LOW <= q <= PREFIX ensures Print(Unary(op, x), q) == Divided(Unary(op, l), r) { UnaryText(op, x, q); }
  }

  /** The right operand is printed more tightly than the left one. */
  lemma RightTwin(op: BinOp, l: Expr, r: Expr, s: Twin) returns (t: Twin)
    requires TwinOk(r, s)
    ensures TwinOk(Binary(op, l, r), t)
  {
    if s.Quotient? && Prec(op) == PRODUCT {
      var first := Binary(op, l, s.l);
      t := Same(Binary(Div, first, s.r));
      BinaryText(op, l, s.l, PRODUCT);
      var begun := Print(l, PRODUCT) + [BinToken(op)];
      assert begun + Divided(s.l, s.r) == begun + Print(s.l, PREFIX) + [SLASH] + Print(s.r, PREFIX);
      forall q | LOW <= q <= POSTFIX ensures Print(t.f, q) == Print(Binary(op, l, r), q) {
        BinaryText(op, l, r, q);
        BinaryText(Div, first, s.r, q);
      }
    } else {
      RightOk(op, r, s);
      t := Same(Binary(op, l, Outright(s)));
    }
  }

  lemma RightOk(op: BinOp, r: Expr, s: Twin)
    requires TwinOk(r, s) && (s.Quotient? ==> Prec(op) < PRODUCT)
    ensures Outright(s) != r && Print(Outright(s), Prec(op) + 1) == Print(r, Prec(op) + 1)
  {
    if Prec(op) < PRODUCT {
      OutrightOk(r, s, Prec(op) + 1);
    } else if s.Negated? {
      UnaryText(Neg, s.x, PREFIX);
    }
  }

  lemma MuxTwin(a: Expr, b: Expr, c: Expr, s: Twin) returns (t: Twin)
    requires TwinOk(if !Readable(a) then a else if !Readable(b) then b else c, s)
    ensures TwinOk(Mux(a, b, c), t)
  {
    var f := Outright(s);
    if !Readable(a) {
      OutrightOk(a, s, COND + 1);
      t := Same(Mux(f, b, c));
    } else if !Readable(b) {
      OutrightOk(b, s, LOW);
      t := Same(Mux(a, f, c));
    } else {
      OutrightOk(c, s, COND);
      t := Same(Mux(a, b, f));
    }
  }

  /** No other reader could do better: an expression that is not read back prints like another one. */
  lemma AnotherPrintsAlike(e: Expr)
    requires !Readable(e)
    ensures exists f :: f != e && Print(f, LOW) == Print(e, LOW)
  {
    var t := FindTwin(e);
    OutrightOk(e, t, LOW);
  }
}
