/** The default alias of a symbol: the shortest suffix of its components that no other symbol has. */
module Aliases {

  type Path = seq<string>

  // ---------- components ----------

  /** `boost::split` at the dots: there is one component more than there are dots. */
  function Split(s: string): (r: Path)
    ensures r != []
  {
    if s == [] then [[]]
    else
      var r := Split(s[1..]);
      if s[0] == '.' then [[]] + r else [[s[0]] + r[0]] + r[1..]
  }

  ghost predicate DotFree(cs: Path)
  {
    forall i :: 0 <= i < |cs| ==> '.' !in cs[i]
  }

  /** The components with a dot between any two. */
  function Dotted(cs: Path): string
  {
    if cs == [] then [] else if |cs| == 1 then cs[0] else cs[0] + "." + Dotted(cs[1..])
  }

  lemma {:induction false} SplitIsDotFree(s: string)
    ensures DotFree(Split(s))
    decreases s
  {
    if s != [] { SplitIsDotFree(s[1..]); }
  }

  lemma {:induction false} DottedSplit(s: string)
    ensures Dotted(Split(s)) == s
    decreases s
  {
    if s != [] {
      DottedSplit(s[1..]);
      var r := Split(s[1..]);
      assert s == [s[0]] + s[1..];
      if s[0] == '.' {
        assert ([[]] + r)[1..] == r;
      } else {
        var q := [[s[0]] + r[0]] + r[1..];
        assert q[1..] == r[1..];
        assert Dotted(q) == [s[0]] + Dotted(r);
      }
    }
  }

  lemma {:induction false} SplitDotted(cs: Path)
    requires cs != [] && DotFree(cs)
    ensures Split(Dotted(cs)) == cs
    decreases |cs|, |cs[0]|
  {
    var c := cs[0];
    if c == [] {
      if |cs| > 1 {
        SplitDotted(cs[1..]);
        assert Dotted(cs)[1..] == Dotted(cs[1..]);
        assert cs == [[]] + cs[1..];
      }
    } else {
      var ds := [c[1..]] + cs[1..];
      assert ds[1..] == cs[1..];
      SplitDotted(ds);
      assert c == [c[0]] + c[1..];
      assert Dotted(cs) == [c[0]] + Dotted(ds);
      assert c[0] in c;
      assert cs == [c] + cs[1..];
    }
  }

  lemma SplitInjective(s: string, t: string)
    requires Split(s) == Split(t)
    ensures s == t
  {
    DottedSplit(s);
    DottedSplit(t);
  }

  // ---------- shared suffixes ----------

  predicate Ends(cs: Path, c: Path)
  {
    |c| <= |cs| && cs[|cs| - |c|..] == c
  }

  /** The last `k` components. */
  function Last(cs: Path, k: nat): (r: Path)
    requires k <= |cs|
    ensures |r| == k
  {
    cs[|cs| - k..]
  }

  lemma LastOfLast(cs: Path, k: nat, j: nat)
    requires j <= k <= |cs|
    ensures Last(Last(cs, k), j) == Last(cs, j)
  {
  }

  lemma EndsIsLast(cs: Path, c: Path)
    requires Ends(cs, c)
    ensures c == Last(cs, |c|)
  {
  }

  lemma LastEnds(cs: Path, k: nat)
    requires k <= |cs|
    ensures Ends(cs, Last(cs, k))
  {
  }

  ghost function Having(symbols: set<string>, c: Path): set<string>
  {
    set s | s in symbols && Ends(Split(s), c)
  }

  /** How many symbols have the suffix `c`. */
  ghost function Count(symbols: set<string>, c: Path): nat
  {
    |Having(symbols, c)|
  }

  lemma CountOfTwo(symbols: set<string>, c: Path, s: string, t: string)
    requires s in symbols && t in symbols && s != t && Ends(Split(s), c) && Ends(Split(t), c)
    ensures Count(symbols, c) >= 2
  {
    assert s in Having(symbols, c) && t in Having(symbols, c);
    TwoIn(Having(symbols, c), s, t);
  }

  lemma TwoIn<T>(a: set<T>, x: T, y: T)
    requires x in a && y in a && x != y
    ensures |a| >= 2
  {
    assert a == {x, y} + (a - {x, y});
  }

  /** A set of no other elements. */
  lemma Lone<T>(a: set<T>, x: T)
    requires forall y :: y in a ==> y == x
    ensures |a| <= 1
  {
    if a != {} {
      assert a == {x};
    }
  }

  lemma CountPositive(symbols: set<string>, c: Path, s: string)
    requires s in symbols && Ends(Split(s), c)
    ensures Count(symbols, c) >= 1
  {
    assert s in Having(symbols, c);
  }

  lemma OnlyOne(symbols: set<string>, c: Path, s: string, t: string)
    requires Count(symbols, c) < 2 && s in symbols && t in symbols && Ends(Split(s), c) && Ends(Split(t), c)
    ensures s == t
  {
    if s != t { CountOfTwo(symbols, c, s, t); }
  }

  lemma CountAdd(symbols: set<string>, s: string, c: Path)
    requires s !in symbols
    ensures Count(symbols + {s}, c) == Count(symbols, c) + if Ends(Split(s), c) then 1 else 0
  {
    var a, b := Having(symbols, c), Having(symbols + {s}, c);
    if Ends(Split(s), c) { assert b == a + {s}; } else { assert b == a; }
  }

  /** The number of components the alias of a symbol needs: it stops at the first suffix that one
      symbol only has. */
  ghost function Needed(symbols: set<string>, cs: Path, k: nat): (n: nat)
    requires 0 < k <= |cs|
    ensures k <= n <= |cs|
    decreases |cs| - k
  {
    if k == |cs| || Count(symbols, Last(cs, k)) < 2 then k else Needed(symbols, cs, k + 1)
  }

  ghost function AliasPath(symbols: set<string>, s: string): (c: Path)
    ensures c != []
  {
    Last(Split(s), Needed(symbols, Split(s), 1))
  }

  /** The loop that writes the alias: a dot goes before a component unless nothing has been written yet. */
  function Written(acc: string, cs: Path): string
    decreases |cs|
  {
    if cs == [] then acc else Written((if acc == [] then acc else acc + ".") + cs[0], cs[1..])
  }

  ghost function Alias(symbols: set<string>, s: string): string
  {
    Written([], AliasPath(symbols, s))
  }

  lemma {:induction false} NeededIsLeast(symbols: set<string>, cs: Path, k: nat)
    requires 0 < k <= |cs|
    ensures var n := Needed(symbols, cs, k);
      && (forall j :: k <= j < n ==> Count(symbols, Last(cs, j)) >= 2)
      && (n < |cs| ==> Count(symbols, Last(cs, n)) < 2)
    decreases |cs| - k
  {
    if !(k == |cs| || Count(symbols, Last(cs, k)) < 2) { NeededIsLeast(symbols, cs, k + 1); }
  }

  /** Some other symbol has the suffix `c`, too. */
  ghost predicate Shared(symbols: set<string>, s: string, c: Path)
  {
    exists t :: t in symbols && t != s && Ends(Split(t), c)
  }

  lemma SharedIffCount(symbols: set<string>, s: string, c: Path)
    requires s in symbols && Ends(Split(s), c)
    ensures Shared(symbols, s, c) <==> Count(symbols, c) >= 2
  {
    if Shared(symbols, s, c) {
      var t :| t in symbols && t != s && Ends(Split(t), c);
      CountOfTwo(symbols, c, s, t);
    }
    if Count(symbols, c) >= 2 && !Shared(symbols, s, c) {
      Lone(Having(symbols, c), s);
    }
  }

  /** The alias path of a symbol is its shortest suffix that no other symbol has, or the whole symbol
      if every suffix is shared. */
  lemma ShortestUniqueSuffix(symbols: set<string>, s: string)
    requires s in symbols
    ensures var cs, c := Split(s), AliasPath(symbols, s);
      && Ends(cs, c)
      && (forall k :: 0 < k < |c| ==> Shared(symbols, s, Last(cs, k)))
      && (Shared(symbols, s, c) ==> c == cs)
  {
    var cs, c := Split(s), AliasPath(symbols, s);
    NeededIsLeast(symbols, cs, 1);
    forall k | 0 < k < |c| ensures Shared(symbols, s, Last(cs, k)) { SuffixShared(symbols, s, k); }
    SharedIffCount(symbols, s, c);
  }

  lemma SuffixShared(symbols: set<string>, s: string, k: nat)
    requires s in symbols && k <= |Split(s)| && Count(symbols, Last(Split(s), k)) >= 2
    ensures Shared(symbols, s, Last(Split(s), k))
  {
    LastEnds(Split(s), k);
    SharedIffCount(symbols, s, Last(Split(s), k));
  }

  /** Different symbols have different alias paths, even if one ends in the other. */
  lemma AliasPathsDiffer(symbols: set<string>, s: string, t: string)
    requires s in symbols && t in symbols && s != t
    ensures AliasPath(symbols, s) != AliasPath(symbols, t)
  {
    var c := AliasPath(symbols, s);
    if c == AliasPath(symbols, t) {
      ShortestUniqueSuffix(symbols, s);
      ShortestUniqueSuffix(symbols, t);
      assert Shared(symbols, s, c) && Shared(symbols, t, c);
      SplitInjective(s, t);
    }
  }

  // ---------- the text of an alias ----------

  function Stripped(c: Path): (r: Path)
    ensures |r| <= |c|
  {
    if c == [] || c[0] != [] then c else Stripped(c[1..])
  }

  function Empties(k: nat): (r: Path)
    ensures |r| == k && forall i :: 0 <= i < k ==> r[i] == []
  {
    seq(k, i => [])
  }

  /** `d` is `c` behind empty components. */
  ghost predicate Padded(d: Path, c: Path)
  {
    && |c| <= |d|
    && (forall i :: 0 <= i < |d| - |c| ==> d[i] == [])
    && (forall i :: 0 <= i < |c| ==> d[i + |d| - |c|] == c[i])
  }

  lemma PaddedIs(d: Path, c: Path)
    requires Padded(d, c)
    ensures d == Empties(|d| - |c|) + c
  {
  }

  lemma {:induction false} StrippedIs(c: Path)
    ensures Padded(c, Stripped(c))
    decreases |c|
  {
    if c != [] && c[0] == [] {
      StrippedIs(c[1..]);
      forall i | 0 <= i < |c| - |Stripped(c)| ensures c[i] == [] {
        if i > 0 { assert c[1..][i - 1] == c[i]; }
      }
      forall i | 0 <= i < |Stripped(c)| ensures c[i + |c| - |Stripped(c)|] == Stripped(c)[i] {
        assert c[1..][i + |c| - |Stripped(c)| - 1] == c[i + |c| - |Stripped(c)|];
      }
    }
  }

  lemma PaddedBetween(c: Path, d: Path, r: Path)
    requires Padded(c, r) && Padded(d, r) && |c| <= |d|
    ensures Padded(d, c)
  {
    forall i | 0 <= i < |c| ensures d[i + |d| - |c|] == c[i] {
      if i >= |c| - |r| {
        assert c[(i - (|c| - |r|)) + |c| - |r|] == r[i - (|c| - |r|)];
        assert d[(i - (|c| - |r|)) + |d| - |r|] == r[i - (|c| - |r|)];
      }
    }
  }

  lemma {:induction false} StrippedHead(c: Path)
    ensures Stripped(c) != [] ==> Stripped(c)[0] != []
    decreases |c|
  {
    if c != [] && c[0] == [] { StrippedHead(c[1..]); }
  }

  lemma {:induction false} StrippedPadded(d: Path, c: Path)
    requires Padded(d, c)
    ensures Stripped(d) == Stripped(c)
    decreases |d|
  {
    if |d| == |c| {
      assert d == c;
    } else {
      forall i | 0 <= i < |c| ensures d[1..][i + |d[1..]| - |c|] == c[i] { assert d[i + |d| - |c|] == c[i]; }
      StrippedPadded(d[1..], c);
    }
  }

  lemma {:induction false} WrittenFrom(acc: string, cs: Path)
    requires acc != []
    ensures Written(acc, cs) == Dotted([acc] + cs)
    decreases |cs|
  {
    if cs == [] {
      assert [acc] + cs == [acc];
    } else {
      var a := acc + "." + cs[0];
      WrittenFrom(a, cs[1..]);
      assert ([acc] + cs)[1..] == cs;
      assert ([a] + cs[1..])[1..] == cs[1..];
    }
  }

  /** Leading empty components leave no trace in the text. */
  lemma {:induction false} WrittenIs(cs: Path)
    ensures Written([], cs) == Dotted(Stripped(cs))
    decreases |cs|
  {
    if cs != [] {
      if cs[0] == [] {
        WrittenIs(cs[1..]);
      } else {
        assert [] + cs[0] == cs[0];
        WrittenFrom(cs[0], cs[1..]);
        assert cs == [cs[0]] + cs[1..];
      }
    }
  }

  lemma DottedStripped(c: Path)
    requires DotFree(c)
    ensures var r := Stripped(c); Dotted(r) == [] <==> r == []
    ensures var r := Stripped(c); DotFree(r) && (r != [] ==> Split(Dotted(r)) == r)
  {
    var r := Stripped(c);
    StrippedIs(c);
    StrippedHead(c);
    forall i | 0 <= i < |r| ensures '.' !in r[i] { assert r[i] == c[i + |c| - |r|]; }
    if r != [] { SplitDotted(r); }
  }

  /** Two aliases have the same text exactly if their paths differ in leading empty components only. */
  lemma SameText(c: Path, d: Path)
    requires DotFree(c) && DotFree(d)
    ensures Written([], c) == Written([], d) <==> Stripped(c) == Stripped(d)
  {
    WrittenIs(c);
    WrittenIs(d);
    DottedStripped(c);
    DottedStripped(d);
  }

  /** Two symbols of the set have the same alias. */
  ghost predicate AliasClash(symbols: set<string>)
  {
    exists s, t :: s in symbols && t in symbols && s != t && Alias(symbols, s) == Alias(symbols, t)
  }

  /** Some symbol `t` reappears behind `k` empty components at the end of a symbol of its own, or of
      one symbol only. */
  ghost predicate Hidden(symbols: set<string>, t: string, k: nat)
  {
    && t in symbols && k > 0
    && (Count(symbols, Empties(k) + Split(t)) == 1 || Dotted(Empties(k) + Split(t)) in symbols)
  }

  lemma AliasPathDotFree(symbols: set<string>, s: string)
    ensures DotFree(AliasPath(symbols, s))
  {
    SplitIsDotFree(s);
  }

  /** Aliases are injective unless some symbol is hidden behind empty components, and only then. */
  lemma AliasClashIff(symbols: set<string>)
    ensures AliasClash(symbols) <==> exists t, k :: Hidden(symbols, t, k)
  {
    if AliasClash(symbols) {
      var s, t :| s in symbols && t in symbols && s != t && Alias(symbols, s) == Alias(symbols, t);
      if |AliasPath(symbols, s)| <= |AliasPath(symbols, t)| {
        ClashHides(symbols, s, t);
      } else {
        ClashHides(symbols, t, s);
      }
    }
    if exists t, k :: Hidden(symbols, t, k) {
      var t, k :| Hidden(symbols, t, k);
      HiddenClashes(symbols, t, k);
    }
  }

  lemma ClashHides(symbols: set<string>, s: string, t: string)
    requires s in symbols && t in symbols && s != t && Alias(symbols, s) == Alias(symbols, t)
    requires |AliasPath(symbols, s)| <= |AliasPath(symbols, t)|
    ensures exists k :: Hidden(symbols, s, k)
  {
    var c, d := AliasPath(symbols, s), AliasPath(symbols, t);
    AliasPathsDiffer(symbols, s, t);
    AliasPathDotFree(symbols, s);
    AliasPathDotFree(symbols, t);
    SameText(c, d);
    EmptiesBetween(c, d);
    PaddedIs(d, c);
    ShorterIsWhole(symbols, s, t);
    SplitIsWhole(symbols, t);
    assert Hidden(symbols, s, |d| - |c|);
  }

  lemma EmptiesBetween(c: Path, d: Path)
    requires Stripped(c) == Stripped(d) && |c| <= |d| && c != d
    ensures |c| < |d| && Padded(d, c) && Ends(d, c)
  {
    var r := Stripped(c);
    StrippedIs(c);
    StrippedIs(d);
    PaddedBetween(c, d, r);
  }

  /** An alias path that is a suffix of a longer one is the whole symbol. */
  lemma ShorterIsWhole(symbols: set<string>, s: string, t: string)
    requires s in symbols && t in symbols && s != t
    requires var c, d := AliasPath(symbols, s), AliasPath(symbols, t); |c| < |d| && Ends(d, c)
    ensures AliasPath(symbols, s) == Split(s)
  {
    var c, d := AliasPath(symbols, s), AliasPath(symbols, t);
    ShortestUniqueSuffix(symbols, s);
    ShortestUniqueSuffix(symbols, t);
    LastOfLast(Split(t), |d|, |c|);
    EndsIsLast(d, c);
    EndsIsLast(Split(t), d);
    assert Ends(Split(t), c);
    assert Shared(symbols, s, c);
  }

  lemma SplitIsWhole(symbols: set<string>, t: string)
    requires t in symbols
    ensures Count(symbols, AliasPath(symbols, t)) == 1 || Dotted(AliasPath(symbols, t)) in symbols
  {
    var d := AliasPath(symbols, t);
    ShortestUniqueSuffix(symbols, t);
    if Shared(symbols, t, d) {
      DottedSplit(t);
    } else {
      SharedIffCount(symbols, t, d);
      CountPositive(symbols, d, t);
    }
  }

  lemma HiddenClashes(symbols: set<string>, t: string, k: nat)
    requires Hidden(symbols, t, k)
    ensures AliasClash(symbols)
  {
    var x, d := HiddenIn(symbols, t, k);
    var n := Needed(symbols, Split(x), 1);
    HiddenRange(symbols, t, x, d);
    OwnNeeds(symbols, t, x, d);
    PaddedTail(Split(x), d, Split(t), n);
    PaddedAlias(symbols, t, x);
  }

  lemma PaddedTail(xs: Path, d: Path, cs: Path, n: nat)
    requires |cs| <= n <= |d| <= |xs| && Last(xs, |d|) == d && Padded(d, cs)
    ensures Padded(Last(xs, n), cs)
  {
    var w := Last(xs, n);
    forall i | 0 <= i < n ensures w[i] == d[i + |d| - n] { assert d[i + |d| - n] == Last(xs, |d|)[i + |d| - n]; }
    forall i | 0 <= i < |cs| ensures w[i + |w| - |cs|] == cs[i] { assert d[i + |d| - |cs|] == cs[i]; }
  }

  lemma PaddedAlias(symbols: set<string>, t: string, x: string)
    requires AliasPath(symbols, t) == Split(t) && Padded(AliasPath(symbols, x), Split(t))
    ensures Alias(symbols, t) == Alias(symbols, x)
  {
    StrippedPadded(AliasPath(symbols, x), Split(t));
    AliasPathDotFree(symbols, x);
    SplitIsDotFree(t);
    SameText(AliasPath(symbols, x), Split(t));
  }

  /** `x` is another symbol, and ends in `t` behind at least one empty component. */
  ghost predicate Behind(symbols: set<string>, t: string, x: string, d: Path)
  {
    && t in symbols && x in symbols && x != t
    && |Split(t)| < |d| <= |Split(x)| && Last(Split(x), |d|) == d && Padded(d, Split(t))
  }

  lemma HiddenRange(symbols: set<string>, t: string, x: string, d: Path)
    requires Behind(symbols, t, x, d) && (Count(symbols, d) < 2 || Split(x) == d)
    ensures |Split(t)| < Needed(symbols, Split(x), 1) <= |d|
  {
    NeededStops(symbols, Split(x), |d|);
    var n := Needed(symbols, Split(x), 1);
    if n <= |Split(t)| {
      SharedSuffix(symbols, t, x, d, n);
      NeededEnds(symbols, Split(x));
    }
  }

  lemma OwnNeeds(symbols: set<string>, t: string, x: string, d: Path)
    requires Behind(symbols, t, x, d)
    ensures AliasPath(symbols, t) == Split(t)
  {
    SharedSuffix(symbols, t, x, d, Needed(symbols, Split(t), 1));
    NeededEnds(symbols, Split(t));
  }

  lemma NeededEnds(symbols: set<string>, cs: Path)
    requires cs != []
    ensures var n := Needed(symbols, cs, 1); n < |cs| ==> Count(symbols, Last(cs, n)) < 2
  {
    NeededIsLeast(symbols, cs, 1);
  }

  lemma NeededStops(symbols: set<string>, cs: Path, j: nat)
    requires 0 < j <= |cs| && (Count(symbols, Last(cs, j)) < 2 || j == |cs|)
    ensures Needed(symbols, cs, 1) <= j
  {
    NeededIsLeast(symbols, cs, 1);
  }

  lemma SharedSuffix(symbols: set<string>, t: string, x: string, d: Path, j: nat)
    requires Behind(symbols, t, x, d) && j <= |Split(t)|
    ensures Last(Split(x), j) == Last(Split(t), j) && Count(symbols, Last(Split(t), j)) >= 2
  {
    SharedTail(Split(x), d, Split(t), j);
    CountOfLast(symbols, t, x, j);
  }

  lemma CountOfLast(symbols: set<string>, s: string, t: string, j: nat)
    requires s in symbols && t in symbols && s != t && j <= |Split(s)| && j <= |Split(t)|
      && Last(Split(s), j) == Last(Split(t), j)
    ensures Count(symbols, Last(Split(s), j)) >= 2
  {
    LastEnds(Split(s), j);
    LastEnds(Split(t), j);
    CountOfTwo(symbols, Last(Split(s), j), s, t);
  }

  lemma SharedTail(xs: Path, d: Path, cs: Path, j: nat)
    requires j <= |cs| <= |d| <= |xs| && Last(xs, |d|) == d && Padded(d, cs)
    ensures Last(xs, j) == Last(cs, j)
  {
    forall i | 0 <= i < j ensures Last(xs, j)[i] == Last(cs, j)[i] {
      assert d[(i + |cs| - j) + |d| - |cs|] == cs[i + |cs| - j];
      assert Last(xs, |d|)[i + |d| - j] == d[i + |d| - j];
    }
  }

  /** The symbol that hides `t`. */
  lemma HiddenIn(symbols: set<string>, t: string, k: nat) returns (x: string, d: Path)
    requires Hidden(symbols, t, k)
    ensures Behind(symbols, t, x, d) && d[0] == [] && (Count(symbols, d) < 2 || Split(x) == d)
  {
    d := Empties(k) + Split(t);
    SplitIsDotFree(t);
    if Dotted(d) in symbols {
      x := Dotted(d);
      SplitDotted(d);
    } else {
      x :| x in Having(symbols, d);
    }
  }

  /** In particular no two symbols clash if no symbol has an empty component. */
  lemma NoEmptyComponents(symbols: set<string>)
    requires forall s :: s in symbols ==> [] !in Split(s)
    ensures !AliasClash(symbols)
  {
    AliasClashIff(symbols);
    if exists t, k :: Hidden(symbols, t, k) {
      var t, k :| Hidden(symbols, t, k);
      var x, d := HiddenIn(symbols, t, k);
      EmptyInside(Split(x), d);
    }
  }

  lemma EmptyInside(xs: Path, d: Path)
    requires 0 < |d| <= |xs| && Last(xs, |d|) == d && d[0] == []
    ensures [] in xs
  {
    assert xs[|xs| - |d|] == Last(xs, |d|)[0];
  }

  /** A leading dot is enough for a clash. */
  lemma LeadingDotClashes()
    ensures AliasClash({"a", ".a"})
  {
    assert "a"[1..] == "" && ".a"[1..] == "a" && Split("") == [""];
    var none: Path := [""];
    assert none[1..] == [] && ['a'] + "" == "a";
    assert Split("a") == ["a"];
    assert Split(".a") == [[]] + ["a"];
    assert Empties(1) + Split("a") == ["", "a"] && Dotted(["", "a"]) == ".a";
    HiddenClashes({"a", ".a"}, "a", 1);
  }
}
