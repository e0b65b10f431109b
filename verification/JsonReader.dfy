/** The reader of JSON as it runs, over a stream of characters. */
module JsonReader {
  import opened Options
  import opened JsonValues
  import opened JsonText

  class Stream {
    var rest: string

    constructor (text: string)
      ensures rest == text
    {
      rest := text;
    }

    /** `in >> std::ws` */
    method SkipSpace()
      modifies this
      ensures rest == Skip(old(rest))
    {
      while rest != [] && IsSpace(rest[0])
        invariant Skip(rest) == Skip(old(rest))
        decreases |rest|
      {
        rest := rest[1..];
      }
    }

    /** `getline` up to a quote */
    method GetLine() returns (s: string)
      modifies this
      ensures Parsed(JString(s), rest) == UpToQuote(old(rest))
    {
      s := "";
      while rest != [] && rest[0] != '"'
        invariant UpToQuote(old(rest)) == Parsed(JString(s + UpToQuote(rest).value.text), UpToQuote(rest).rest)
        decreases |rest|
      {
        assert UpToQuote(rest).value.text == [rest[0]] + UpToQuote(rest[1..]).value.text;
        s := s + [rest[0]];
        rest := rest[1..];
      }
      assert s + "" == s;
      rest := Drop(rest, 1);
    }

    method GetDigits(start: int) returns (n: int)
      modifies this
      ensures Num(n, rest) == ReadDigits(start, old(rest))
    {
      n := start;
      while rest != [] && IsDigit(rest[0])
        invariant ReadDigits(n, rest) == ReadDigits(start, old(rest))
        decreases |rest|
      {
        n, rest := n * 10 + (rest[0] as int - '0' as int), rest[1..];
      }
    }

    method Ignore(n: nat)
      modifies this
      ensures rest == Drop(old(rest), n)
    {
      rest := Drop(rest, n);
    }

    /** The value read is the one the text stands for, and the stream is left just behind it. */
    method Read() returns (r: Option<Json>)
      modifies this
      ensures match Parse(old(rest)) { case Some(p) => r == Some(p.value) && rest == p.rest case None => r.None? }
      decreases |rest|, 0
    {
      SkipSpace();
      if rest == [] { return None; }
      var c := rest[0];
      rest := rest[1..];
      if c == '{' {
        r := ReadObject();
      } else if c == '[' {
        r := ReadVector();
      } else if c == '"' {
        var s := GetLine();
        r := Some(JString(s));
      } else if c == '-' {
        if rest == [] || !IsDigit(rest[0]) { return None; }
        var n := GetDigits(0);
        r := Some(JNumber(-n));
      } else if IsDigit(c) {
        var n := GetDigits(c as int - '0' as int);
        r := Some(JNumber(n));
      } else if c in "tT" {
        Ignore(3);
        r := Some(JBool(true));
      } else if c in "fF" {
        Ignore(4);
        r := Some(JBool(false));
      } else if c in "nN" {
        Ignore(3);
        r := Some(JNull);
      } else {
        r := None;
      }
    }

    method ReadObject() returns (r: Option<Json>)
      modifies this
      ensures match ParseEntries([], old(rest)) {
        case Some(p) => r == Some(p.value) && rest == p.rest
        case None => r.None? }
      decreases |rest|, 1
    {
      var obj := [];
      while true
        invariant |rest| <= |old(rest)|
        invariant ParseEntries(obj, rest) == ParseEntries([], old(rest))
        decreases |rest|
      {
        ghost var start := rest;
        SkipSpace();
        if rest == [] { return None; }
        if rest[0] == '}' {
          rest := rest[1..];
          return Some(JObject(obj));
        }
        ghost var inner := rest;
        var key := Read();
        if key.None? || !key.value.JString? { return None; }
        SkipSpace();
        if rest == [] { return None; }
        rest := rest[1..];
        var val := Read();
        if val.None? { return None; }
        assert ParseEntry(inner) == Some(ParsedEntry(key.value.text, val.value, rest));
        obj := Put(obj, key.value.text, val.value);
        SkipSpace();
        if rest == [] || rest[0] == '}' {
          rest := Drop(rest, 1);
          return Some(JObject(obj));
        }
        rest := rest[1..];
      }
    }

    method ReadVector() returns (r: Option<Json>)
      modifies this
      ensures match ParseItems([], old(rest)) {
        case Some(p) => r == Some(p.value) && rest == p.rest
        case None => r.None? }
      decreases |rest|, 1
    {
      var vec := [];
      while true
        invariant |rest| <= |old(rest)|
        invariant ParseItems(vec, rest) == ParseItems([], old(rest))
        decreases |rest|
      {
        SkipSpace();
        if rest == [] { return None; }
        if rest[0] == ']' {
          rest := rest[1..];
          return Some(JVector(vec));
        }
        var elem := Read();
        if elem.None? { return None; }
        vec := vec + [elem.value];
        SkipSpace();
        if rest == [] || rest[0] == ']' {
          rest := Drop(rest, 1);
          return Some(JVector(vec));
        }
        rest := rest[1..];
      }
    }
  }
}
