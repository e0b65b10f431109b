/** JSON as text: texts with any whitespace between the tokens, and the reader. */
module JsonText {
  import opened Options
  import opened JsonValues

  // ---------- texts ----------

  /** A value with the whitespace that its text has between the tokens. */
  datatype Doc =
    | DNull
    | DBool(truth: bool)
    | DNumber(number: int)
    | DString(text: string)
    | DVector(space: string, items: seq<DItem>)
    | DObject(space: string, entries: seq<DEntry>)

  datatype DItem = DItem(before: string, value: Doc, after: string)
  datatype DEntry = DEntry(before: string, key: string, beforeColon: string, afterColon: string, value: Doc,
                           after: string)

  predicate IsSpace(c: char)
  {
    c == ' ' || '\t' <= c <= '\r'
  }

  predicate AllSpace(s: string)
  {
    forall i :: 0 <= i < |s| ==> IsSpace(s[i])
  }

  predicate IsDigit(c: char)
  {
    '0' <= c <= '9'
  }

  function Digits(n: nat): (s: string)
    ensures |s| > 0 && forall i :: 0 <= i < |s| ==> IsDigit(s[i])
  {
    if n < 10 then [('0' as int + n) as char] else Digits(n / 10) + [('0' as int + n % 10) as char]
  }

  function NumberText(n: int): string
  {
    if n < 0 then "-" + Digits(-n) else Digits(n)
  }

  function Quoted(s: string): string
  {
    "\"" + s + "\""
  }

  function Text(d: Doc): string
    decreases d, 0
  {
    match d
    case DNull => "null"
    case DBool(b) => if b then "true" else "false"
    case DNumber(n) => NumberText(n)
    case DString(s) => Quoted(s)
    case DVector(space, items) => "[" + (if items == [] then space + "]" else ItemsText(items))
    case DObject(space, entries) => "{" + (if entries == [] then space + "}" else EntriesText(entries))
  }

  /** The items, each ended by a comma or by the bracket. */
  function ItemsText(items: seq<DItem>): string
    requires items != []
    decreases items, 1, |items|
  {
    ItemText(items[0]) + (if |items| == 1 then "]" else "," + ItemsText(items[1..]))
  }

  function ItemText(i: DItem): string
    decreases i, 0
  {
    i.before + Text(i.value) + i.after
  }

  function EntriesText(entries: seq<DEntry>): string
    requires entries != []
    decreases entries, 1, |entries|
  {
    EntryText(entries[0]) + (if |entries| == 1 then "}" else "," + EntriesText(entries[1..]))
  }

  function EntryText(e: DEntry): string
    decreases e, 0
  {
    e.before + (Quoted(e.key) + (e.beforeColon + (":" + (e.afterColon + (Text(e.value) + e.after)))))
  }

  function ValueOf(d: Doc): Json
  {
    match d
    case DNull => JNull
    case DBool(b) => JBool(b)
    case DNumber(n) => JNumber(n)
    case DString(s) => JString(s)
    case DVector(_, items) => JVector(ItemValues(items))
    case DObject(_, entries) => JObject(EntryValues(entries))
  }

  function ItemValues(items: seq<DItem>): (js: seq<Json>)
    ensures |js| == |items| && forall i :: 0 <= i < |items| ==> js[i] == ValueOf(items[i].value)
  {
    if items == [] then [] else [ValueOf(items[0].value)] + ItemValues(items[1..])
  }

  function EntryValues(entries: seq<DEntry>): (es: seq<Entry>)
    ensures |es| == |entries|
    ensures forall i :: 0 <= i < |entries| ==> es[i] == Entry(entries[i].key, ValueOf(entries[i].value))
  {
    if entries == [] then [] else [Entry(entries[0].key, ValueOf(entries[0].value))] + EntryValues(entries[1..])
  }

  predicate NoQuote(s: string)
  {
    '"' !in s
  }

  /** The gaps are whitespace, no string holds a double quote, and no object repeats a key. */
  ghost predicate Proper(d: Doc)
    decreases d, 0
  {
    match d
    case DString(s) => NoQuote(s)
    case DVector(space, items) => AllSpace(space) && forall i :: 0 <= i < |items| ==> ProperItem(items[i])
    case DObject(space, entries) =>
      && AllSpace(space)
      && (forall i :: 0 <= i < |entries| ==> ProperEntry(entries[i]))
      && (forall i, j :: 0 <= i < j < |entries| ==> entries[i].key != entries[j].key)
    case _ => true
  }

  ghost predicate ProperItem(i: DItem)
    decreases i, 1
  {
    AllSpace(i.before) && AllSpace(i.after) && Proper(i.value)
  }

  ghost predicate ProperEntry(e: DEntry)
    decreases e, 1
  {
    && AllSpace(e.before) && AllSpace(e.beforeColon) && AllSpace(e.afterColon) && AllSpace(e.after)
    && NoQuote(e.key) && Proper(e.value)
  }

  // ---------- the reader ----------

  datatype Parsed = Parsed(value: Json, rest: string)

  /** What is left from the first character that is not whitespace. */
  function Skip(s: string): (r: string)
    ensures |r| <= |s| && (r != [] ==> !IsSpace(r[0]))
  {
    if s != [] && IsSpace(s[0]) then Skip(s[1..]) else s
  }

  function Drop(s: string, n: nat): (r: string)
    ensures |r| <= |s|
  {
    if n <= |s| then s[n..] else []
  }

  /** Up to the next quote, which is dropped; `getline` takes everything if there is none. */
  function UpToQuote(s: string): (r: Parsed)
    ensures |r.rest| <= |s| && r.value.JString?
  {
    if s == [] then Parsed(JString(""), "")
    else if s[0] == '"' then Parsed(JString(""), s[1..])
    else var p := UpToQuote(s[1..]); Parsed(JString([s[0]] + p.value.text), p.rest)
  }

  datatype Num = Num(value: int, rest: string)

  function ReadDigits(acc: int, s: string): (r: Num)
    ensures |r.rest| <= |s|
    decreases |s|
  {
    if s != [] && IsDigit(s[0]) then ReadDigits(acc * 10 + (s[0] as int - '0' as int), s[1..]) else Num(acc, s)
  }

  function Number(n: Num): Parsed
  {
    Parsed(JNumber(n.value), n.rest)
  }

  function Negated(n: Num): Parsed
  {
    Parsed(JNumber(-n.value), n.rest)
  }

  /** The field `key` is set: where it was, or at the end. */
  function Put(entries: seq<Entry>, key: string, v: Json): seq<Entry>
  {
    var i := Find(entries, key);
    if i < |entries| then entries[i := Entry(key, v)] else entries + [Entry(key, v)]
  }

  /** `operator>>`.  No result stands for a text on which the value is left unset. */
  function Parse(s: string): (r: Option<Parsed>)
    ensures r.Some? ==> |r.value.rest| < |s|
    decreases |s|, 0, 0
  {
    var t := Skip(s);
    if t == [] then None
    else
      var c, rest := t[0], t[1..];
      if c == '{' then ParseEntries([], rest)
      else if c == '[' then ParseItems([], rest)
      else if c == '"' then Some(UpToQuote(rest))
      else if c == '-' then
        if rest != [] && IsDigit(rest[0]) then Some(Negated(ReadDigits(0, rest))) else None
      else if IsDigit(c) then Some(Number(ReadDigits(c as int - '0' as int, rest)))
      else if c in "tT" then Some(Parsed(JBool(true), Drop(rest, 3)))
      else if c in "fF" then Some(Parsed(JBool(false), Drop(rest, 4)))
      else if c in "nN" then Some(Parsed(JNull, Drop(rest, 3)))
      else None
  }

  /** The rest of an object of which `entries` have been read.  Any character is taken for the
      colon, any but the brace for the comma, and the end of the text ends the object. */
  function ParseEntries(entries: seq<Entry>, s: string): (r: Option<Parsed>)
    ensures r.Some? ==> |r.value.rest| <= |s|
    decreases |s|, 1
  {
    var t := Skip(s);
    if t == [] then None
    else if t[0] == '}' then Some(Parsed(JObject(entries), t[1..]))
    else
      match ParseEntry(t)
      case None => None
      case Some(ParsedEntry(key, v, rest)) =>
        var after := Skip(rest);
        if after == [] || after[0] == '}' then Some(Parsed(JObject(Put(entries, key, v)), Drop(after, 1)))
        else ParseEntries(Put(entries, key, v), after[1..])
  }

  datatype ParsedEntry = ParsedEntry(key: string, value: Json, rest: string)

  function ParseEntry(s: string): (r: Option<ParsedEntry>)
    ensures r.Some? ==> |r.value.rest| < |s|
    decreases |s|, 0, 1
  {
    match Parse(s)
    case Some(Parsed(JString(key), rest)) =>
      var colon := Skip(rest);
      if colon == [] then None
      else
        (match Parse(colon[1..])
         case Some(Parsed(v, rest')) => Some(ParsedEntry(key, v, rest'))
         case None => None)
    case _ => None
  }

  function ParseItems(items: seq<Json>, s: string): (r: Option<Parsed>)
    ensures r.Some? ==> |r.value.rest| <= |s|
    decreases |s|, 1
  {
    var t := Skip(s);
    if t == [] then None
    else if t[0] == ']' then Some(Parsed(JVector(items), t[1..]))
    else
      match Parse(t)
      case None => None
      case Some(Parsed(v, rest)) =>
        var after := Skip(rest);
        if after == [] || after[0] == ']' then Some(Parsed(JVector(items + [v]), Drop(after, 1)))
        else ParseItems(items + [v], after[1..])
  }

  // ---------- reading back ----------

  lemma {:induction false} SkipsSpace(w: string, s: string)
    requires AllSpace(w)
    ensures Skip(w + s) == Skip(s)
  {
    if w != [] {
      assert (w + s)[1..] == w[1..] + s;
      SkipsSpace(w[1..], s);
    } else {
      assert w + s == s;
    }
  }

  /** Whitespace before a value does not matter. */
  lemma ParseSkips(w: string, s: string)
    requires AllSpace(w)
    ensures Parse(w + s) == Parse(s) && Parse(s) == Parse(Skip(s))
  {
    SkipsSpace(w, s);
    SkipTwice(s);
  }

  lemma {:induction false} SkipTwice(s: string)
    ensures Skip(Skip(s)) == Skip(s)
    decreases |s|
  {
    if s != [] && IsSpace(s[0]) { SkipTwice(s[1..]); }
  }

  lemma {:induction false} QuoteBack(s: string, rest: string)
    requires NoQuote(s)
    ensures UpToQuote(s + "\"" + rest) == Parsed(JString(s), rest)
  {
    var t := s + "\"" + rest;
    if s == "" {
      assert t[0] == '"' && t[1..] == rest;
    } else {
      assert t[0] == s[0] && t[1..] == s[1..] + "\"" + rest;
      assert s[0] in s && NoQuote(s[1..]) by { forall c | c in s[1..] ensures c in s {} }
      QuoteBack(s[1..], rest);
      assert s == [s[0]] + s[1..];
    }
  }

  function Shifted(acc: int, n: nat): int
  {
    if n < 10 then acc * 10 + n else Shifted(acc, n / 10) * 10 + n % 10
  }

  predicate EndsNumber(rest: string)
  {
    rest != [] ==> !IsDigit(rest[0])
  }

  lemma {:induction false} DigitsBack(acc: int, n: nat, rest: string)
    ensures ReadDigits(acc, Digits(n) + rest) == ReadDigits(Shifted(acc, n), rest)
  {
    var d := [('0' as int + n % 10) as char];
    assert (d + rest)[1..] == rest;
    if n >= 10 {
      assert Digits(n) + rest == Digits(n / 10) + (d + rest);
      DigitsBack(acc, n / 10, d + rest);
    }
  }

  lemma {:induction false} ShiftedZero(n: nat)
    ensures Shifted(0, n) == n
  {
    if n >= 10 { ShiftedZero(n / 10); }
  }

  lemma FirstDigit(t: string)
    requires t != [] && IsDigit(t[0])
    ensures ReadDigits(0, t) == ReadDigits(t[0] as int - '0' as int, t[1..])
  {}

  lemma NatBack(m: nat, rest: string)
    requires EndsNumber(rest)
    ensures ReadDigits(0, Digits(m) + rest) == Num(m, rest)
  {
    DigitsBack(0, m, rest);
    ShiftedZero(m);
  }

  lemma PositiveBack(t: string, n: Num)
    requires t != [] && IsDigit(t[0]) && ReadDigits(0, t) == n
    ensures Parse(t) == Some(Number(n))
  {
    FirstDigit(t);
  }

  lemma NegativeBack(t: string, n: Num)
    requires t != [] && IsDigit(t[0]) && ReadDigits(0, t) == n
    ensures Parse("-" + t) == Some(Negated(n))
  {
    var u := "-" + t;
    assert u[0] == '-' && u[1..] == t;
  }

  lemma NumberBack(n: int, rest: string)
    requires EndsNumber(rest)
    ensures Parse(NumberText(n) + rest) == Some(Parsed(JNumber(n), rest))
  {
    var m := if n < 0 then -n else n;
    var t := Digits(m) + rest;
    NatBack(m, rest);
    assert IsDigit(Digits(m)[0]) && t[0] == Digits(m)[0];
    if n < 0 {
      assert NumberText(n) + rest == "-" + t;
      NegativeBack(t, Num(m, rest));
    } else {
      PositiveBack(t, Num(m, rest));
    }
  }

  lemma WordBack(d: Doc, rest: string)
    requires d.DNull? || d.DBool?
    ensures Parse(Text(d) + rest) == Some(Parsed(ValueOf(d), rest))
  {
    var t := Text(d) + rest;
    assert t[0] == Text(d)[0];
    assert t[1..] == Text(d)[1..] + rest;
    assert t[1..][|Text(d)| - 1..] == rest;
  }

  lemma StringBack(s: string, rest: string)
    requires NoQuote(s)
    ensures Parse(Quoted(s) + rest) == Some(Parsed(JString(s), rest))
  {
    var t := Quoted(s) + rest;
    assert t[0] == '"' && t[1..] == s + "\"" + rest;
    QuoteBack(s, rest);
  }

  /** Reading the text of a value, with any whitespace between its tokens, gives that value and stops
      just behind it. */
  lemma {:induction false} ParsesBack(d: Doc, rest: string)
    requires Proper(d) && (d.DNumber? ==> EndsNumber(rest))
    ensures Parse(Text(d) + rest) == Some(Parsed(ValueOf(d), rest))
    decreases d, 0
  {
    match d
    case DNull => WordBack(d, rest);
    case DBool(_) => WordBack(d, rest);
    case DNumber(n) => NumberBack(n, rest);
    case DString(s) => StringBack(s, rest);
    case DVector(space, items) =>
      var inner := if items == [] then space + "]" else ItemsText(items);
      var t := Text(d) + rest;
      assert t[0] == '[' && t[1..] == inner + rest;
      if items == [] {
        EmptyBack(space, ']', rest);
      } else {
        ItemsBack([], items, rest);
        assert [] + ItemValues(items) == ItemValues(items);
      }
    case DObject(space, entries) =>
      var inner := if entries == [] then space + "}" else EntriesText(entries);
      var t := Text(d) + rest;
      assert t[0] == '{' && t[1..] == inner + rest;
      if entries == [] {
        EmptyBack(space, '}', rest);
      } else {
        DistinctAreNew([], entries);
        EntriesBack([], entries, rest);
        assert [] + EntryValues(entries) == EntryValues(entries);
      }
  }

  lemma EmptyBack(space: string, close: char, rest: string)
    requires AllSpace(space) && !IsSpace(close)
    ensures Skip(space + [close] + rest) == [close] + rest
  {
    assert space + [close] + rest == space + ([close] + rest);
    SkipsSpace(space, [close] + rest);
  }

  lemma SpaceEnds(after: string, c: char, rest: string)
    requires AllSpace(after) && !IsSpace(c) && !IsDigit(c)
    ensures EndsNumber(after + ([c] + rest)) && Skip(after + ([c] + rest)) == [c] + rest
  {
    SkipsSpace(after, [c] + rest);
    if after != [] { assert (after + ([c] + rest))[0] == after[0]; }
  }

  /** The first character of a value's text. */
  lemma TextHead(d: Doc, rest: string)
    ensures (var t := Text(d) + rest; t != [] && !IsSpace(t[0]) && t[0] != ']' && t[0] != '}')
  {
    assert (Text(d) + rest)[0] == Text(d)[0];
    if d.DNumber? { assert NumberText(d.number)[0] == '-' || IsDigit(NumberText(d.number)[0]); }
  }

  lemma {:induction false} ItemBack(i: DItem, c: char, rest: string)
    requires ProperItem(i) && !IsSpace(c) && !IsDigit(c)
    ensures (var t := Skip(ItemText(i) + ([c] + rest));
      && t != [] && t[0] != ']'
      && Parse(t) == Some(Parsed(ValueOf(i.value), i.after + ([c] + rest)))
      && Skip(i.after + ([c] + rest)) == [c] + rest)
    decreases i, 1
  {
    var tail := i.after + ([c] + rest);
    assert ItemText(i) + ([c] + rest) == i.before + (Text(i.value) + tail);
    SkipsSpace(i.before, Text(i.value) + tail);
    TextHead(i.value, tail);
    SpaceEnds(i.after, c, rest);
    ParsesBack(i.value, tail);
  }

  lemma {:induction false} ItemsBack(done: seq<Json>, items: seq<DItem>, rest: string)
    requires items != [] && forall i :: 0 <= i < |items| ==> ProperItem(items[i])
    ensures ParseItems(done, ItemsText(items) + rest) == Some(Parsed(JVector(done + ItemValues(items)), rest))
    decreases items, 1, |items|
  {
    var v := ValueOf(items[0].value);
    if |items| == 1 {
      assert ItemsText(items) + rest == ItemText(items[0]) + ([']'] + rest);
      ItemBack(items[0], ']', rest);
      assert ItemValues(items) == [v];
    } else {
      var more := ItemsText(items[1..]) + rest;
      assert ItemsText(items) + rest == ItemText(items[0]) + ([','] + more);
      ItemBack(items[0], ',', more);
      ItemsBack(done + [v], items[1..], rest);
      assert done + [v] + ItemValues(items[1..]) == done + ItemValues(items);
    }
  }

  lemma EntrySplit(e: DEntry, tail: string)
    ensures EntryText(e) + tail
         == e.before + (Quoted(e.key) + (e.beforeColon + (":" + (e.afterColon + (Text(e.value) + (e.after + tail))))))
  {
    var a := Text(e.value) + (e.after + tail);
    assert Text(e.value) + e.after + tail == a;
    assert e.afterColon + (Text(e.value) + e.after) + tail == e.afterColon + a;
    var b := ":" + (e.afterColon + a);
    assert ":" + (e.afterColon + (Text(e.value) + e.after)) + tail == b;
    assert e.beforeColon + (":" + (e.afterColon + (Text(e.value) + e.after))) + tail == e.beforeColon + b;
    var q := Quoted(e.key);
    assert q + (e.beforeColon + (":" + (e.afterColon + (Text(e.value) + e.after)))) + tail == q + (e.beforeColon + b);
  }

  lemma {:induction false} EntryBack(e: DEntry, c: char, rest: string)
    requires ProperEntry(e) && !IsSpace(c) && !IsDigit(c)
    ensures (var t := Skip(EntryText(e) + ([c] + rest));
      && t != [] && t[0] == '"'
      && ParseEntry(t) == Some(ParsedEntry(e.key, ValueOf(e.value), e.after + ([c] + rest)))
      && Skip(e.after + ([c] + rest)) == [c] + rest)
    decreases e, 1
  {
    var tail := [c] + rest;
    EntrySplit(e, tail);
    var value := Text(e.value) + (e.after + tail);
    var colon := ":" + (e.afterColon + value);
    var t := Quoted(e.key) + (e.beforeColon + colon);
    SkipsSpace(e.before, t);
    assert t[0] == '"';
    StringBack(e.key, e.beforeColon + colon);
    SkipsSpace(e.beforeColon, colon);
    assert colon[0] == ':' && colon[1..] == e.afterColon + value;
    SpaceEnds(e.after, c, rest);
    ParsesBack(e.value, e.after + tail);
    ParseSkips(e.afterColon, value);
  }

  lemma {:induction false} EntriesBack(done: seq<Entry>, entries: seq<DEntry>, rest: string)
    requires entries != [] && AllProper(entries) && NewKeys(done, entries)
    ensures ParseEntries(done, EntriesText(entries) + rest)
         == Some(Parsed(JObject(done + EntryValues(entries)), rest))
    decreases entries, 3, |entries|
  {
    if |entries| == 1 {
      LastEntry(done, entries, rest);
      assert EntryValues(entries) == [ReadEntry(entries[0])];
    } else {
      NextEntry(done, entries, rest);
      TailProper(entries);
      EntriesBack(done + [ReadEntry(entries[0])], entries[1..], rest);
    }
    EntryValuesSplit(done, entries);
  }

  lemma EntryValuesSplit(done: seq<Entry>, entries: seq<DEntry>)
    requires entries != []
    ensures done + EntryValues(entries) == done + [ReadEntry(entries[0])] + EntryValues(entries[1..])
  {
    assert EntryValues(entries) == [ReadEntry(entries[0])] + EntryValues(entries[1..]);
  }

  lemma {:induction false} LastEntry(done: seq<Entry>, entries: seq<DEntry>, rest: string)
    requires |entries| == 1 && ProperEntry(entries[0]) && NoKey(done, entries[0].key)
    ensures ParseEntries(done, EntriesText(entries) + rest)
         == Some(Parsed(JObject(done + [ReadEntry(entries[0])]), rest))
    decreases entries, 3, 0
  {
    assert EntriesText(entries) + rest == EntryText(entries[0]) + (['}'] + rest);
    EntriesStep(done, entries[0], '}', rest);
  }

  lemma {:induction false} NextEntry(done: seq<Entry>, entries: seq<DEntry>, rest: string)
    requires |entries| > 1 && ProperEntry(entries[0]) && NoKey(done, entries[0].key)
    ensures ParseEntries(done, EntriesText(entries) + rest)
         == ParseEntries(done + [ReadEntry(entries[0])], EntriesText(entries[1..]) + rest)
    decreases entries, 3, 0
  {
    CommaText(EntryText(entries[0]), EntriesText(entries[1..]), rest);
    EntriesStep(done, entries[0], ',', EntriesText(entries[1..]) + rest);
  }

  ghost predicate AllProper(entries: seq<DEntry>)
    decreases entries, 2
  {
    forall i :: 0 <= i < |entries| ==> ProperEntry(entries[i])
  }

  function ReadEntry(e: DEntry): Entry
  {
    Entry(e.key, ValueOf(e.value))
  }

  /** The keys of `entries` differ from each other and from those of `done`. */
  ghost predicate NewKeys(done: seq<Entry>, entries: seq<DEntry>)
    decreases |entries|
  {
    entries == [] || (NoKey(done, entries[0].key) && NewKeys(done + [ReadEntry(entries[0])], entries[1..]))
  }

  lemma {:induction false} DistinctAreNew(done: seq<Entry>, entries: seq<DEntry>)
    requires forall i, j :: 0 <= i < j < |entries| ==> entries[i].key != entries[j].key
    requires forall i :: 0 <= i < |entries| ==> NoKey(done, entries[i].key)
    ensures NewKeys(done, entries)
    decreases |entries|
  {
    if entries != [] {
      forall i | 0 <= i < |entries| - 1 ensures NoKey(done + [ReadEntry(entries[0])], entries[1..][i].key) {
        assert NoKey(done, entries[i + 1].key);
      }
      DistinctAreNew(done + [ReadEntry(entries[0])], entries[1..]);
    }
  }

  lemma TailProper(entries: seq<DEntry>)
    requires entries != [] && AllProper(entries)
    ensures AllProper(entries[1..])
  {
    forall i | 0 <= i < |entries| - 1 ensures ProperEntry(entries[1..][i]) {
      assert ProperEntry(entries[i + 1]);
    }
  }

  lemma CommaText(first: string, more: string, rest: string)
    ensures first + ("," + more) + rest == first + ([','] + (more + rest))
  {}

  lemma {:induction false} EntriesStep(done: seq<Entry>, e: DEntry, c: char, rest: string)
    requires ProperEntry(e) && c in ",}" && NoKey(done, e.key)
    ensures ParseEntries(done, EntryText(e) + ([c] + rest))
         == (var es := done + [ReadEntry(e)];
             if c == '}' then Some(Parsed(JObject(es), rest)) else ParseEntries(es, rest))
    decreases e, 2
  {
    EntryBack(e, c, rest);
    assert Find(done, e.key) == |done|;
    var after := [c] + rest;
    assert after[1..] == rest && Drop(after, 1) == rest;
  }

  /** A string literal is read back if and only if the string holds no double quote. */
  lemma {:induction false} StringBackIff(s: string, rest: string)
    ensures Parse(Quoted(s) + rest) == Some(Parsed(JString(s), rest)) <==> NoQuote(s)
  {
    if NoQuote(s) {
      StringBack(s, rest);
    } else {
      var t := Quoted(s) + rest;
      assert t[0] == '"' && t[1..] == s + "\"" + rest;
      EndsAtQuote(s, "\"" + rest);
      assert s + ("\"" + rest) == s + "\"" + rest;
    }
  }

  lemma {:induction false} EndsAtQuote(s: string, rest: string)
    requires !NoQuote(s)
    ensures |UpToQuote(s + rest).value.text| < |s|
  {
    if s[0] != '"' {
      assert s == [s[0]] + s[1..];
      assert (s + rest)[1..] == s[1..] + rest;
      EndsAtQuote(s[1..], rest);
    }
  }
}
