/** Weights of trees, by which it shows that a visitor acts: it acts on what has a weight, and takes some
    of it away. */
module RewriteWeights {
  import opened IRGraph
  import opened Rewrite
  import opened RewriteScene

  ghost function Weigh(w: Tag -> nat, t: Tree): nat
    decreases t
  {
    if t.Nil? then 0 else w(t.tag) + WeighAll(w, t.kids)
  }

  ghost function WeighAll(w: Tag -> nat, ts: seq<Slot<Tree>>): nat
    decreases ts
  {
    if ts == [] then 0
    else
      assert ts[0].at < ts[0];
      Weigh(w, ts[0].at) + WeighAll(w, ts[1..])
  }

  lemma {:induction false} WeighAppend(w: Tag -> nat, ts: seq<Slot<Tree>>, us: seq<Slot<Tree>>)
    ensures WeighAll(w, ts + us) == WeighAll(w, ts) + WeighAll(w, us)
    decreases |ts|
  {
    if ts == [] {
      assert ts + us == us;
    } else {
      WeighAppend(w, ts[1..], us);
      assert (ts + us)[0] == ts[0] && (ts + us)[1..] == ts[1..] + us;
    }
  }

  lemma {:induction false} WeighRekind(w: Tag -> nat, ts: seq<Slot<Tree>>, k: Kind)
    ensures WeighAll(w, Rekind(ts, k)) == WeighAll(w, ts)
    decreases |ts|
  {
    if ts != [] {
      WeighRekind(w, ts[1..], k);
      assert Rekind(ts, k)[1..] == Rekind(ts[1..], k);
    }
  }

  /** What stands in the place of a child weighs no more than what was returned for it. */
  lemma PieceWeighs(w: Tag -> nat, s: Slot<Tree>, u: Tree)
    ensures WeighAll(w, TreePiece(s, u)) <= Weigh(w, u)
  {
    if s.kind.Elem? && u != s.at && IsVector(u) {
      WeighRekind(w, u.kids, s.kind);
    } else if s.kind.One? || u == s.at || u.Tree? {
      assert TreePiece(s, u) == [Slot(s.kind, u)] && TreePiece(s, u)[1..] == [];
    }
  }

  /** If the children do not gain weight, their list does not, and if one of them loses some it does. */
  lemma {:induction false} SettleWeighs(w: Tag -> nat, m: Meaning, ts: seq<Slot<Tree>>)
    requires forall i :: 0 <= i < |ts| ==> Lightens(w, m, ts[i].at)
    ensures if WeighAll(w, ts) == 0 then WeighAll(w, Settle(Originals(m, ts))) == 0
      else WeighAll(w, Settle(Originals(m, ts))) < WeighAll(w, ts)
  {
    if ts != [] {
      var u := RewriteTree(m, ts[0].at);
      assert Lightens(w, m, ts[0].at);
      PieceWeighs(w, ts[0], u);
      forall i | 0 <= i < |ts| - 1 ensures Lightens(w, m, ts[1..][i].at) { assert Lightens(w, m, ts[i + 1].at); }
      SettleWeighs(w, m, ts[1..]);
      assert Originals(m, ts)[1..] == Originals(m, ts[1..]);
      WeighAppend(w, TreePiece(ts[0], u), Settle(Originals(m, ts[1..])));
    }
  }

  /** The rewrite takes weight away, if there is any. */
  ghost predicate Lightens(w: Tag -> nat, m: Meaning, t: Tree)
  {
    if Weigh(w, t) == 0 then Weigh(w, RewriteTree(m, t)) == 0 else Weigh(w, RewriteTree(m, t)) < Weigh(w, t)
  }

  lemma {:induction false} WeightlessKid(w: Tag -> nat, ts: seq<Slot<Tree>>, i: nat)
    requires i < |ts| && WeighAll(w, ts) == 0
    ensures Weigh(w, ts[i].at) == 0
  {
    if i > 0 { WeightlessKid(w, ts[1..], i - 1); }
  }
}
