/** Graphs that are written and do not come back. */
module LostGraphs {
  import opened Options
  import opened JsonValues
  import opened GraphJson
  import opened GraphJsonProof
  import JsonLayout
  import JsonText

  // ---------- a shared vector ----------

  const SHOP: Classes := map[
    "Call" := Class([Field("arguments", VectorField("Vector", false))], true),
    "Pair" := Class([Field("left", PointerField(false)), Field("right", PointerField(false))], true),
    "Vector" := Class([Field("vec", ElementsField)], false),
    "Leaf" := Class([], true)]

  /** Two calls that share the vector of their arguments, as a call and its clone do. */
  const TWO_CALLS: Heap := [
    Object(0, "Leaf", []),
    Object(1, "Vector", [Elements([0])]),
    Object(2, "Call", [Pointer(Some(1))]),
    Object(3, "Call", [Pointer(Some(1))]),
    Object(4, "Pair", [Pointer(Some(2)), Pointer(Some(3))])]

  lemma ShopIs()
    ensures SHOP.Keys == {"Call", "Pair", "Vector", "Leaf"}
    ensures SHOP["Call"] == Class([Field("arguments", VectorField("Vector", false))], true)
    ensures SHOP["Pair"] == Class([Field("left", PointerField(false)), Field("right", PointerField(false))], true)
    ensures SHOP["Vector"] == Class([Field("vec", ElementsField)], false)
    ensures SHOP["Leaf"] == Class([], true)
  {
    Names();
  }

  lemma Names()
    ensures "Call"[0] == 'C' && "Pair"[0] == 'P' && "Vector"[0] == 'V' && "Leaf"[0] == 'L'
    ensures "arguments"[0] == 'a' && "left"[0] == 'l' && "right"[0] == 'r' && "vec"[0] == 'v' && "Node_ID"[0] == 'N'
    ensures "Node_Type"[0] == 'N'
  {}

  lemma ShopOk()
    ensures ClassesOk(SHOP)
  {
    ShopIs();
    Names();
    forall c | c in SHOP ensures FieldsOk(SHOP, SHOP[c].fields) {
      var fs := SHOP[c].fields;
      assert |fs| <= 2;
      if |fs| > 0 { assert fs[0].name[0] != 'N'; }
      if |fs| == 2 { assert fs[1].name[0] == 'r' && fs[0].name[0] == 'l'; }
    }
  }

  lemma TwoCallsOk()
    ensures WellTyped(SHOP, TWO_CALLS) && ListedNode(SHOP, TWO_CALLS, 4)
  {
    ShopOk();
    ShopIs();
    VectorOk();
    CallsOk();
    PairOk();
  }

  lemma VectorOk()
    ensures ObjectOk(SHOP, TWO_CALLS, TWO_CALLS[0]) && ObjectOk(SHOP, TWO_CALLS, TWO_CALLS[1])
  {
    ShopIs();
  }

  lemma CallsOk()
    ensures ObjectOk(SHOP, TWO_CALLS, TWO_CALLS[2]) && ObjectOk(SHOP, TWO_CALLS, TWO_CALLS[3])
  {
    ShopIs();
  }

  lemma PairOk()
    ensures ObjectOk(SHOP, TWO_CALLS, TWO_CALLS[4])
  {
    ShopIs();
  }

  lemma TwoCallsDescend(s: Slot)
    ensures TargetOf(TWO_CALLS, s).Some? ==> TargetOf(TWO_CALLS, s).value < s.owner
  {}

  lemma TwoCallsShared()
    ensures TargetOf(TWO_CALLS, Slot(4, 0, 0)) == Some(2) && TargetOf(TWO_CALLS, Slot(4, 1, 0)) == Some(3)
    ensures TargetOf(TWO_CALLS, Slot(2, 0, 0)) == Some(1) && TargetOf(TWO_CALLS, Slot(3, 0, 0)) == Some(1)
    ensures IsVector(SHOP, TWO_CALLS, Slot(2, 0, 0))
  {
    ShopIs();
  }

  /** The graph has no cycle, and still it does not come back. */
  lemma SharedVectorIsLost(currentId: int)
    ensures WellTyped(SHOP, TWO_CALLS) && ListedNode(SHOP, TWO_CALLS, 4)
    ensures forall s: Slot :: TargetOf(TWO_CALLS, s).Some? ==> TargetOf(TWO_CALLS, s).value < s.owner
    ensures !RoundTrips(SHOP, TWO_CALLS, 4, currentId)
  {
    TwoCallsOk();
    forall s: Slot ensures TargetOf(TWO_CALLS, s).Some? ==> TargetOf(TWO_CALLS, s).value < s.owner {
      TwoCallsDescend(s);
    }
    RoundTripIff(SHOP, TWO_CALLS, 4, currentId);
    forall order ensures !Loadable(SHOP, TWO_CALLS, 4, order) {
      NotLoadable(order);
    }
  }

  lemma ReachesBoth(order: seq<Addr>)
    requires Loadable(SHOP, TWO_CALLS, 4, order)
    ensures 2 in order && 3 in order
  {
    TwoCallsShared();
    assert order[|order| - 1] in order;
    assert Downward(TWO_CALLS, order, Slot(4, 0, 0)) && Downward(TWO_CALLS, order, Slot(4, 1, 0));
  }

  lemma NotLoadable(order: seq<Addr>)
    ensures !Loadable(SHOP, TWO_CALLS, 4, order)
  {
    var s, t := Slot(2, 0, 0), Slot(3, 0, 0);
    assert Unshared(SHOP, TWO_CALLS, order, s, t) <==> !(2 in order && 3 in order) by { TwoCallsShared(); }
    if Loadable(SHOP, TWO_CALLS, 4, order) { ReachesBoth(order); }
  }

  // ---------- a null string ----------

  /** A parser of P4-14 without a default return has a null name there. */
  const PARSERS: Classes := map["V1Parser" := Class([Field("default_return", PlainField)], true)]

  const NO_RETURN: Heap := [Object(0, "V1Parser", [Plain(JNull)])]

  /** A parser that returns to a state with a double quote in its name. */
  const QUOTED_RETURN: Heap := [Object(0, "V1Parser", [Plain(JString("a\"b"))])]

  lemma ParserOk(j: Json)
    requires j.JNull? || j.JString?
    ensures (var g := [Object(0, "V1Parser", [Plain(j)])];
      && WellTyped(PARSERS, g) && ListedNode(PARSERS, g, 0)
      && forall s: Slot :: TargetOf(g, s).None?)
  {
    assert PARSERS["V1Parser"] == Class([Field("default_return", PlainField)], true);
    assert "default_return"[0] == 'd' && "Node_ID"[0] == 'N' && "Node_Type"[0] == 'N';
    assert "V1Parser"[0] == 'V';
  }

  /** One node, nothing shared, no cycle: the null name is written, and cannot be read. */
  lemma NullStringIsLost(currentId: int)
    ensures WellTyped(PARSERS, NO_RETURN) && ListedNode(PARSERS, NO_RETURN, 0)
    ensures forall s: Slot :: TargetOf(NO_RETURN, s).None?
    ensures !RoundTrips(PARSERS, NO_RETURN, 0, currentId)
  {
    ParserOk(JNull);
    RoundTripIff(PARSERS, NO_RETURN, 0, currentId);
    assert !NoNull(NO_RETURN[0]) by { assert NO_RETURN[0].values[0] == Plain(JNull); }
    forall order ensures !Loadable(PARSERS, NO_RETURN, 0, order) {
      if order != [] && order[|order| - 1] == 0 { assert 0 in order; }
    }
  }

  /** With a quote in the name, the value comes back ... */
  lemma QuotedValueComesBack(currentId: int)
    ensures WellTyped(PARSERS, QUOTED_RETURN) && ListedNode(PARSERS, QUOTED_RETURN, 0)
    ensures RoundTrips(PARSERS, QUOTED_RETURN, 0, currentId)
  {
    ParserOk(JString("a\"b"));
    assert Loadable(PARSERS, QUOTED_RETURN, 0, [0]);
    LoadableRoundTrips(PARSERS, QUOTED_RETURN, 0, [0], currentId);
  }

  /** ... but its text does not. */
  lemma QuotedStringIsLost(currentId: int, rest: string)
    ensures WellTyped(PARSERS, QUOTED_RETURN) && ListedNode(PARSERS, QUOTED_RETURN, 0)
    ensures RoundTrips(PARSERS, QUOTED_RETURN, 0, currentId)
    ensures (var text := JsonText.Text(JsonLayout.Layout(Write(PARSERS, QUOTED_RETURN, 0), 0)) + rest;
      !Restores(QUOTED_RETURN, 0, JsonLayout.ReadText(PARSERS, text, currentId)))
  {
    QuotedValueComesBack(currentId);
    ParserNames();
    JsonLayout.TextRoundTripIff(PARSERS, QUOTED_RETURN, 0, currentId, rest);
    forall order ensures !(Loadable(PARSERS, QUOTED_RETURN, 0, order) && JsonLayout.QuoteFree(QUOTED_RETURN, order)) {
      NotQuoteFree(order);
    }
  }

  lemma NotQuoteFree(order: seq<Addr>)
    ensures !(Loadable(PARSERS, QUOTED_RETURN, 0, order) && JsonLayout.QuoteFree(QUOTED_RETURN, order))
  {
    assert !JsonLayout.ValueQuoteFree(QUOTED_RETURN[0].values[0]) by { assert "a\"b"[1] == '"'; }
    if order != [] && order[|order| - 1] == 0 { assert 0 in order; }
  }

  lemma ParserNames()
    ensures JsonLayout.NamesQuoteFree(PARSERS)
  {
    assert PARSERS["V1Parser"].fields == [Field("default_return", PlainField)];
    assert JsonText.NoQuote("V1Parser") && JsonText.NoQuote("default_return");
  }
}
