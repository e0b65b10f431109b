/**
 Two runs that are not the plain rewrite.  A node `old` is a field of the root and, before the root's
 other field is visited, has been renamed to `new`.  If that field is a `leaf`, preorder prunes; if it is
 a `mid`, preorder renames it to `A` if its first child is an `old`, and to `B` if not.
 */
module HistoryExample {
  import opened IRGraph
  import opened Rewrite
  import opened RewriteSteps
  import opened RewriteProof
  import opened RewriteScene
  import opened RewriteReturned
  import opened RewriteHistory
  import opened RewriteWeights

  const TOP := Tag("top", false)
  const LIST := Tag("list", true)
  const BOTH := Classes(TOP, LIST)

  function Class(name: string): Tag
  {
    Tag(name, false)
  }

  function Decide(tag: Tag, n: nat, overOld: bool): PreAction
  {
    Go(if tag != Class("mid") then tag else if overOld then Class("A") else Class("B"), Iota(n), false,
       tag == Class("leaf"))
  }

  function Rename<T>(tag: Tag, ks: seq<Slot<T>>): PostAction
  {
    Build(if tag == Class("old") then Class("new") else tag, Olds(ks), false)
  }

  predicate PtrOverOld(g: Nodes, ks: seq<Slot<Ptr>>)
  {
    ks != [] && ks[0].at.Ref? && ks[0].at.id in g && g[ks[0].at.id].tag == Class("old")
  }

  predicate TreeOverOld(ts: seq<Slot<Tree>>)
  {
    ts != [] && ts[0].at.Tree? && ts[0].at.tag == Class("old")
  }

  function V(): Visitor
  {
    Visitor(
      (g: Nodes, n: Node, c: Node) => Decide(c.tag, |c.kids|, PtrOverOld(g, c.kids)),
      (g: Nodes, n: Node, c: Node) => Rename(c.tag, c.kids),
      true, true)
  }

  function M(): Meaning
  {
    Meaning(
      (t: Tree, u: Tree) => if u.Nil? then Remove else Decide(u.tag, |u.kids|, TreeOverOld(u.kids)),
      (t: Tree, u: Tree) => if u.Nil? then Drop else Rename(u.tag, u.kids))
  }

  const OLD := Tree(Class("old"), [])
  const NEW := Tree(Class("new"), [])

  function Over(tag: Tag, t: Tree): Tree
  {
    Tree(tag, [Slot(One, t)])
  }

  function Top(a: Tree, b: Tree): Tree
  {
    Tree(TOP, [Slot(One, a), Slot(One, b)])
  }

  lemma InScope()
    ensures Implements(V(), M()) && V().Forwards() && LeavesBothAlone(M(), BOTH)
  {
    forall g: Nodes, n: Node, c: Node, ts: seq<Slot<Tree>>, us: seq<Slot<Tree>> |
      UnfoldsAll(g, n.kids, ts) && UnfoldsAll(g, c.kids, us)
      ensures V().pre(g, n, c) == M().pre(Tree(n.tag, ts), Tree(c.tag, us))
      ensures V().post(g, n, c) == M().post(Tree(n.tag, ts), Tree(c.tag, us))
    {
      SameOlds(g, c.kids, us);
      if us != [] { assert UnfoldsAt(g, c.kids[0], us[0]); }
    }
  }

  lemma SameOlds(g: Nodes, ks: seq<Slot<Ptr>>, us: seq<Slot<Tree>>)
    requires UnfoldsAll(g, ks, us)
    ensures Olds(ks) == Olds(us)
  {
    forall i | 0 <= i < |us| ensures Olds(ks)[i] == Olds(us)[i] { assert UnfoldsAt(g, ks[i], us[i]); }
  }

  lemma OldIsRenamed()
    ensures RewriteTree(M(), OLD) == NEW && StableAt(M(), OLD)
  {
    assert Plain(M(), OLD) == [] && Nows([]) == [] && Olds<Tree>([]) == [];
    assert Pick(Plain(M(), OLD), Iota(0), NONE) == [];
  }

  /** A node over an `old` one: its plain rewrite, and the outcome once the `old` one is renamed. */
  lemma OverOld(tag: Tag)
    requires tag != Class("old")
    ensures (var t := Over(tag, OLD);
      && RewriteTree(M(), t) == (if tag == Class("leaf") then t
                                 else Over(if tag == Class("mid") then Class("A") else tag, NEW))
      && Outcome(M(), t, Mix(M(), t.kids, [true])) == Over(if tag == Class("mid") then Class("B") else tag, NEW))
  {
    var t, one := Over(tag, OLD), [Slot(One, NEW)];
    OldIsRenamed();
    var before := Plain(M(), t);
    PickIota(before, NONE);
    assert Nows(before) == t.kids && before[1..] == [];
    assert Settle(before) == one + [];
    var seen := Mix(M(), t.kids, [true]);
    assert t.kids[1..] == [] && [true][1..] == [];
    assert TreePiece(t.kids[0], RewriteTree(M(), OLD)) == one && Mix(M(), [], []) == [];
    assert seen == Same(one) + [];
    SettleSame(one);
    PickIota(seen, NONE);
    GrowOlds(one);
  }

  /** The root with the field `old` before the other one. */
  lemma RootOver(t: Tree)
    requires t.Tree? && t.kids == [Slot(One, OLD)]
    ensures Chosen(t.kids, [true]) == [Slot(One, OLD)]
    ensures RootTree(BOTH, t, [true], false) == Top(OLD, t)
  {
    assert t.kids[1..] == [] && [true][1..] == [];
    assert Chosen(t.kids, [true]) == [Slot(One, OLD)] + [];
  }

  lemma LateOver(t: Tree)
    requires t.Tree? && t.kids == [Slot(One, OLD)]
    ensures LateRewrites(M(), t, [true]) == [Slot(One, NEW), Slot(One, Outcome(M(), t, Mix(M(), t.kids, [true])))]
  {
    RootOver(t);
    OldIsRenamed();
    assert Rewrites(M(), [Slot(One, OLD)]) == [Slot(One, NEW)];
  }

  /** The stack holds three nodes at most. */
  lemma ThreeDeep(tag: Tag)
    requires tag in {Class("leaf"), Class("mid")}
    ensures Need(M(), Top(OLD, Over(tag, OLD))) <= 3
  {
    var t := Over(tag, OLD);
    OverOld(tag);
    OldIsRenamed();
    assert t.kids[1..] == [] && Top(OLD, t).kids[1..] == [Slot(One, t)] && [Slot(One, t)][1..] == [];
    assert Need(M(), OLD) == 1 && Height(NEW) == 1 && Height(OLD) == 1;
    assert NeedAll(M(), t.kids) == 1 && HeightAll(t.kids) == 1;
    var u := RewriteTree(M(), t);
    assert Height(u) == 2 by { assert u.kids[1..] == [] && Height(u.kids[0].at) == 1 && HeightAll(u.kids) == 1; }
    assert NeedAll(M(), [Slot(One, t)]) == 2;
  }

  /** The run on a root with the fields `old` and, over it, a node of the class `tag`. */
  lemma RunOver(tag: Tag, d: nat) returns (c: Scene)
    requires tag in {Class("leaf"), Class("mid")} && d >= 3
    ensures SceneOk(c, BOTH, Over(tag, OLD), [true], false)
    ensures Yields(V(), c.g, c.root + 1, Ref(c.root), d,
                   Top(NEW, Over(if tag == Class("mid") then Class("B") else tag, NEW)))
  {
    var t := Over(tag, OLD);
    InScope();
    OverOld(tag);
    OldIsRenamed();
    assert KidsSound(V(), M(), t.kids);
    LateOver(t);
    RootOver(t);
    ThreeDeep(tag);
    c := TooLate(V(), M(), BOTH, t, [true], d);
  }

  lemma PlainOver(tag: Tag)
    requires tag in {Class("leaf"), Class("mid")}
    ensures RewriteTree(M(), Top(OLD, Over(tag, OLD)))
         == Top(NEW, if tag == Class("leaf") then Over(tag, OLD) else Over(Class("A"), NEW))
  {
    var t := Over(tag, OLD);
    InScope();
    OverOld(tag);
    OldIsRenamed();
    var ts := Top(OLD, t).kids;
    AlonePlain(M(), TOP, ts);
    SettleFields(M(), ts);
    assert Rewrites(M(), ts) == [Slot(One, NEW), Slot(One, RewriteTree(M(), t))];
  }

  /** The child of the pruned node is renamed; the plain rewrite keeps it. */
  lemma PrunedNodeIsRewritten(d: nat) returns (c: Scene)
    requires d >= 3
    ensures SceneOk(c, BOTH, Over(Class("leaf"), OLD), [true], false)
    ensures Yields(V(), c.g, c.root + 1, Ref(c.root), d, Top(NEW, Over(Class("leaf"), NEW)))
    ensures RewriteTree(M(), Top(OLD, Over(Class("leaf"), OLD))) == Top(NEW, Over(Class("leaf"), OLD))
  {
    c := RunOver(Class("leaf"), d);
    PlainOver(Class("leaf"));
  }

  /** Preorder sees the renamed child and answers `B`; on the original it answers `A`. */
  lemma ForwardedChildIsSeen(d: nat) returns (c: Scene)
    requires d >= 3
    ensures SceneOk(c, BOTH, Over(Class("mid"), OLD), [true], false)
    ensures Yields(V(), c.g, c.root + 1, Ref(c.root), d, Top(NEW, Over(Class("B"), NEW)))
    ensures RewriteTree(M(), Top(OLD, Over(Class("mid"), OLD))) == Top(NEW, Over(Class("A"), NEW))
  {
    c := RunOver(Class("mid"), d);
    PlainOver(Class("mid"));
  }

  // ---------- what the visitor does shows ----------

  /** The nodes on which it acts. */
  function Acting(): Tag -> nat
  {
    (tag: Tag) => if tag in {Class("old"), Class("mid")} then 1 else 0
  }

  /** What becomes of a node that is not pruned. */
  lemma RenamedTree(t: Tree)
    requires t.Tree? && t.tag != Class("leaf")
    ensures (var u := RewriteTree(M(), t);
      && u.Tree? && u.kids == Settle(Originals(M(), t.kids)) && Acting()(u.tag) == 0
      && (t.tag !in {Class("old"), Class("mid")} ==> u.tag == t.tag))
  {
    var seen := Plain(M(), t);
    assert seen == Originals(M(), t.kids);
    PickIota(seen, NONE);
    var go := M().pre(t, Tree(t.tag, Nows(seen)));
    assert go.sel == Iota(|seen|) && !go.prune;
    GrowOlds(Settle(seen));
  }

  /** What becomes of a pruned node whose children have been visited before. */
  lemma {:induction false} AllForwarded(ts: seq<Slot<Tree>>, done: seq<bool>)
    requires |done| == |ts| && forall i :: 0 <= i < |ts| ==> done[i]
    ensures Nows(Mix(M(), ts, done)) == Settle(Originals(M(), ts))
  {
    if ts != [] {
      AllForwarded(ts[1..], done[1..]);
      assert Originals(M(), ts)[1..] == Originals(M(), ts[1..]);
      var piece := TreePiece(ts[0], RewriteTree(M(), ts[0].at));
      NowsAppend(piece, Mix(M(), ts[1..], done[1..]));
    }
  }

  lemma NowsAppend(ts: seq<Slot<Tree>>, ps: seq<Slot<Part>>)
    ensures Nows(Same(ts) + ps) == ts + Nows(ps)
  {
  }

  lemma PrunedIsStable(t: Tree)
    requires t.Tree? && t.tag == Class("leaf") && StableAt(M(), t)
    ensures RewriteTree(M(), t) == t && Settle(Originals(M(), t.kids)) == t.kids
  {
    var done := seq(|t.kids|, i => true);
    var plain, mix := Plain(M(), t), Mix(M(), t.kids, done);
    assert Nows(plain) == t.kids && Tree(t.tag, t.kids) == t;
    PickIota(plain, NONE);
    assert Outcome(M(), t, mix) == RewriteTree(M(), t);
    PickIota(mix, NONE);
    AllForwarded(t.kids, done);
  }

  /** It leaves alone what has no weight and takes weight away from the rest. */
  lemma {:induction false} ActsOnWeight(t: Tree)
    requires FitBelow(V(), M(), t)
    ensures Lightens(Acting(), M(), t) && (Weigh(Acting(), t) == 0 ==> Untouched(V(), M(), t))
    decreases t
  {
    if t.Tree? {
      forall i | 0 <= i < |t.kids| ensures Lightens(Acting(), M(), t.kids[i].at) { ActsOnWeight(t.kids[i].at); }
      SettleWeighs(Acting(), M(), t.kids);
      if t.tag == Class("leaf") { PrunedIsStable(t); } else { RenamedTree(t); }
      if Weigh(Acting(), t) == 0 {
        forall i | 0 <= i < |t.kids| ensures Untouched(V(), M(), t.kids[i].at) {
          WeightlessKid(Acting(), t.kids, i);
          ActsOnWeight(t.kids[i].at);
        }
      }
    }
  }

  /** So the exact condition covers it. */
  lemma IsOvert()
    ensures Overt(V(), M())
  {
    forall t: Tree | IsVector(t) && FitBelow(V(), M(), t)
      ensures Untouched(V(), M(), t) || RewriteTree(M(), t) != t
    {
      ActsOnWeight(t);
    }
    forall t: Tree, done: seq<bool> | t.Tree? && |done| == |t.kids|
      ensures OvertFor(V(), M(), t, Mix(M(), t.kids, done))
    {
      var seen := Mix(M(), t.kids, done);
      var go := M().pre(t, Tree(t.tag, Nows(seen)));
      var ks := Settle(Pick(seen, go.sel, NONE));
      OldsLast(V(), M(), Olds(ks), ks);
    }
  }

  /** With forwarding some run is not the plain rewrite: the condition fails. */
  lemma NotEveryRunIsPlain()
    ensures !EveryRunIsPlain(V(), M())
  {
    InScope();
    IsOvert();
    HistoryFreeIff(V(), M(), BOTH);
    OverOld(Class("leaf"));
    assert !Fit(V(), M(), Over(Class("leaf"), OLD));
  }
}
