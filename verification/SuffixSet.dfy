/** `P4SymbolSuffixSet` as it runs: a tree of suffixes, its nodes in a table and its edges numbers in it. */
module SuffixSets {
  import opened Aliases

  datatype SuffixNode = SuffixNode(instances: nat, edges: map<string, nat>)

  /** The table is a tree: the suffix of a node is that of its parent behind one more component. */
  ghost predicate Tree(nodes: seq<SuffixNode>, paths: seq<Path>)
  {
    && |nodes| == |paths| > 0 && paths[0] == []
    && (forall i, j :: 0 <= i < j < |paths| ==> paths[i] != paths[j])
    && (forall i, d :: 0 <= i < |nodes| && d in nodes[i].edges ==>
          nodes[i].edges[d] < |nodes| && paths[nodes[i].edges[d]] == [d] + paths[i])
    && (forall j :: 0 < j < |paths| ==> HasParent(nodes, paths, j))
  }

  ghost predicate HasParent(nodes: seq<SuffixNode>, paths: seq<Path>, j: nat)
  {
    exists i :: ParentOf(nodes, paths, i, j)
  }

  ghost predicate ParentOf(nodes: seq<SuffixNode>, paths: seq<Path>, i: nat, j: nat)
  {
    && i < |nodes| == |paths| && j < |paths| && paths[j] != []
    && paths[i] == paths[j][1..] && paths[j][0] in nodes[i].edges && nodes[i].edges[paths[j][0]] == j
  }

  /** A node with the suffix of a child is reached by the child's edge. */
  lemma EdgeExists(nodes: seq<SuffixNode>, paths: seq<Path>, i: nat, d: string)
    requires Tree(nodes, paths) && i < |nodes|
    ensures [d] + paths[i] in paths <==> d in nodes[i].edges
  {
    if [d] + paths[i] in paths {
      var j: nat :| j < |paths| && paths[j] == [d] + paths[i];
      assert j > 0 && HasParent(nodes, paths, j);
      var p: nat :| ParentOf(nodes, paths, p, j);
      assert paths[j][1..] == paths[i];
      assert p == i;
    }
    if d in nodes[i].edges { assert paths[nodes[i].edges[d]] in paths; }
  }

  lemma ChildAdded(nodes: seq<SuffixNode>, paths: seq<Path>, i: nat, d: string)
    requires Tree(nodes, paths) && i < |nodes| && d !in nodes[i].edges
    ensures Tree(WithChild(nodes, i, d), paths + [[d] + paths[i]])
  {
    var n, ns := |nodes|, WithChild(nodes, i, d);
    var ps := paths + [[d] + paths[i]];
    EdgeExists(nodes, paths, i, d);
    forall j | 0 < j < |ps| ensures HasParent(ns, ps, j) {
      if j < n { ParentKept(nodes, paths, i, d, j); } else { assert ParentOf(ns, ps, i, j); }
    }
  }

  lemma ParentKept(nodes: seq<SuffixNode>, paths: seq<Path>, i: nat, d: string, j: nat)
    requires Tree(nodes, paths) && i < |nodes| && d !in nodes[i].edges && 0 < j < |nodes|
    ensures HasParent(WithChild(nodes, i, d), paths + [[d] + paths[i]], j)
  {
    assert HasParent(nodes, paths, j);
    var p: nat :| ParentOf(nodes, paths, p, j);
    assert ParentOf(WithChild(nodes, i, d), paths + [[d] + paths[i]], p, j);
  }

  class P4SymbolSuffixSet {
    var symbols: set<string>
    var nodes: seq<SuffixNode>
    /** The suffix that leads to each node. */
    ghost var paths: seq<Path>

    /** Every node but the root counts the symbols with its suffix, and every suffix of a symbol has
        its node. */
    ghost predicate Valid()
      reads this
    {
      && Tree(nodes, paths)
      && (forall j :: 0 < j < |nodes| ==> nodes[j].instances == Count(symbols, paths[j]))
      && (forall c :: Count(symbols, c) > 0 ==> c in paths)
    }

    constructor ()
      ensures Valid() && symbols == {}
    {
      symbols, nodes, paths := {}, [SuffixNode(0, map[])], [[]];
      new;
      forall c ensures Count(symbols, c) == 0 { assert Having({}, c) == {}; }
    }

    method AddSymbol(symbol: string)
      requires Valid() && symbol != ""
      modifies this
      ensures Valid() && symbols == old(symbols) + {symbol}
    {
      if symbol in symbols {
        return;
      }
      ghost var before := symbols;
      symbols := symbols + {symbol};
      var components := Split(symbol);
      var node, k := 0, 0;
      while k < |components|
        invariant k <= |components| && symbols == before + {symbol}
        invariant Entering(nodes, paths, before, components, k, node)
      {
        node := Enter(node, components, k, before);
        k := k + 1;
      }
      Recount(nodes, paths, before, symbol);
    }

    /** Goes down along the next component and counts the symbol there. */
    method Enter(node: nat, components: Path, k: nat, ghost before: set<string>) returns (next: nat)
      requires k < |components| && Entering(nodes, paths, before, components, k, node)
      modifies this`nodes, this`paths
      ensures Entering(nodes, paths, before, components, k + 1, next)
    {
      var component := components[|components| - 1 - k];
      EdgeExists(nodes, paths, node, component);
      LastStep(components, k);
      if component !in nodes[node].edges {
        CountingChild(nodes, paths, before, components, k, node, component);
        AddChild(node, component);
      }
      next := nodes[node].edges[component];
      CountAt(next, components, k, before);
    }

    method CountAt(node: nat, ghost components: Path, ghost k: nat, ghost before: set<string>)
      requires Tree(nodes, paths) && Counting(nodes, paths, before, components, k) && node < |nodes|
      requires k < |components| && paths[node] == Last(components, k + 1)
      modifies this`nodes
      ensures Entering(nodes, paths, before, components, k + 1, node)
    {
      CountingStep(nodes, paths, before, components, k, node);
      nodes := nodes[node := nodes[node].(instances := nodes[node].instances + 1)];
    }

    /** `node->edges[component] = new SuffixNode` */
    method AddChild(node: nat, component: string)
      requires Tree(nodes, paths) && node < |nodes| && component !in nodes[node].edges
      modifies this`nodes, this`paths
      ensures Tree(nodes, paths) && paths == old(paths) + [[component] + old(paths)[node]]
      ensures nodes == WithChild(old(nodes), node, component)
    {
      ChildAdded(nodes, paths, node, component);
      paths := paths + [[component] + paths[node]];
      nodes := nodes[node := nodes[node].(edges := nodes[node].edges[component := |nodes|])] + [SuffixNode(0, map[])];
    }

    /** `shortestUniqueSuffix`, the alias of a symbol of the set. */
    method ShortestUniqueSuffix(symbol: string) returns (alias: string)
      requires Valid() && symbol in symbols
      ensures alias == Alias(symbols, symbol)
    {
      var components := Split(symbol);
      var node, needed := 0, 0;
      ghost var n := Needed(symbols, components, 1);
      while needed < |components|
        invariant needed <= |components| && node < |nodes| && paths[node] == Last(components, needed)
        invariant n == if needed < |components| then Needed(symbols, components, needed + 1) else needed
      {
        CountPositive(symbols, Last(components, needed + 1), symbol);
        node := Down(node, components, needed);
        needed := needed + 1;
        if nodes[node].instances < 2 {
          break;
        }
      }
      assert needed == n;
      alias := Serialize(components, needed);
    }

    /** The node for one component more. */
    method Down(node: nat, components: Path, k: nat) returns (next: nat)
      requires Valid() && k < |components| && Count(symbols, Last(components, k + 1)) > 0
      requires node < |nodes| && paths[node] == Last(components, k)
      ensures next < |nodes| && paths[next] == Last(components, k + 1)
      ensures nodes[next].instances == Count(symbols, Last(components, k + 1))
    {
      var component := components[|components| - 1 - k];
      LastStep(components, k);
      assert [component] + paths[node] in paths;
      EdgeExists(nodes, paths, node, component);
      next := nodes[node].edges[component];
    }

    /** The last `needed` components with dots, as the loop writes them. */
    static method Serialize(components: Path, needed: nat) returns (text: string)
      requires needed <= |components|
      ensures text == Written("", Last(components, needed))
    {
      var i := |components| - needed;
      text := "";
      while i < |components|
        invariant |components| - needed <= i <= |components|
        invariant Written("", Last(components, needed)) == Written(text, components[i..])
      {
        assert components[i..][1..] == components[i + 1..];
        if text != "" {
          text := text + ".";
        }
        text := text + components[i];
        i := i + 1;
      }
    }
  }

  function WithChild(nodes: seq<SuffixNode>, i: nat, d: string): seq<SuffixNode>
    requires i < |nodes|
  {
    nodes[i := nodes[i].(edges := nodes[i].edges[d := |nodes|])] + [SuffixNode(0, map[])]
  }

  /** One more for the suffixes of length up to `k` of the symbol that is being added. */
  ghost function Bonus(c: Path, cs: Path, k: nat): nat
  {
    if 0 < |c| <= k && Ends(cs, c) then 1 else 0
  }

  /** The counts when the last `k` components of `cs` have been entered. */
  ghost predicate Counting(nodes: seq<SuffixNode>, paths: seq<Path>, symbols: set<string>, cs: Path, k: nat)
  {
    && |nodes| == |paths| && k <= |cs|
    && (forall j :: 0 < j < |nodes| ==> CountingAt(nodes[j], paths[j], symbols, cs, k))
    && (forall c :: Count(symbols, c) > 0 ==> c in paths)
    && (forall j :: 0 < j <= k ==> Last(cs, j) in paths)
  }

  /** `node` is where the last `k` components lead. */
  ghost predicate Entering(nodes: seq<SuffixNode>, paths: seq<Path>, symbols: set<string>, cs: Path, k: nat, node: nat)
  {
    Tree(nodes, paths) && Counting(nodes, paths, symbols, cs, k) && node < |nodes| && paths[node] == Last(cs, k)
  }

  lemma LastStep(cs: Path, k: nat)
    requires k < |cs|
    ensures Last(cs, k + 1) == [cs[|cs| - 1 - k]] + Last(cs, k)
  {
  }

  ghost predicate CountingAt(node: SuffixNode, c: Path, symbols: set<string>, cs: Path, k: nat)
  {
    node.instances == Count(symbols, c) + Bonus(c, cs, k)
  }

  lemma CountingChild(nodes: seq<SuffixNode>, paths: seq<Path>, symbols: set<string>, cs: Path, k: nat, i: nat,
                      d: string)
    requires Tree(nodes, paths) && Counting(nodes, paths, symbols, cs, k) && i < |nodes| && k < |cs| && |paths[i]| == k
    requires [d] + paths[i] !in paths
    ensures Counting(WithChild(nodes, i, d), paths + [[d] + paths[i]], symbols, cs, k)
  {
    var ns, ps := WithChild(nodes, i, d), paths + [[d] + paths[i]];
    forall j | 0 < j < |ns| ensures CountingAt(ns[j], ps[j], symbols, cs, k) {
      if j < |nodes| {
        assert CountingAt(nodes[j], paths[j], symbols, cs, k);
      } else {
        assert Count(symbols, ps[j]) == 0;
      }
    }
  }

  lemma CountingStep(nodes: seq<SuffixNode>, paths: seq<Path>, symbols: set<string>, cs: Path, k: nat, i: nat)
    requires Tree(nodes, paths) && Counting(nodes, paths, symbols, cs, k) && i < |nodes| && k < |cs|
      && paths[i] == Last(cs, k + 1)
    ensures var ns := nodes[i := nodes[i].(instances := nodes[i].instances + 1)];
      Tree(ns, paths) && Counting(ns, paths, symbols, cs, k + 1)
  {
    var node := nodes[i].(instances := nodes[i].instances + 1);
    var ns := nodes[i := node];
    forall j | 0 < j < |ns| ensures CountingAt(ns[j], paths[j], symbols, cs, k + 1) {
      assert CountingAt(nodes[j], paths[j], symbols, cs, k);
      BonusStep(cs, k, paths[i], paths[j], i == j);
    }
    TreeKept(nodes, paths, i, node);
  }

  lemma BonusStep(cs: Path, k: nat, entered: Path, c: Path, same: bool)
    requires k < |cs| && entered == Last(cs, k + 1) && (same <==> c == entered)
    ensures Bonus(c, cs, k + 1) == Bonus(c, cs, k) + if same then 1 else 0
  {
    if Ends(cs, c) { EndsIsLast(cs, c); }
  }

  lemma TreeKept(nodes: seq<SuffixNode>, paths: seq<Path>, i: nat, node: SuffixNode)
    requires Tree(nodes, paths) && i < |nodes| && node.edges == nodes[i].edges
    ensures Tree(nodes[i := node], paths)
  {
    var ns := nodes[i := node];
    forall j | 0 < j < |paths| ensures HasParent(ns, paths, j) {
      assert HasParent(nodes, paths, j);
      var p: nat :| ParentOf(nodes, paths, p, j);
      assert ParentOf(ns, paths, p, j);
    }
  }

  lemma Recount(nodes: seq<SuffixNode>, paths: seq<Path>, symbols: set<string>, s: string)
    requires Tree(nodes, paths) && Counting(nodes, paths, symbols, Split(s), |Split(s)|) && s !in symbols
    ensures forall j :: 0 < j < |nodes| ==> nodes[j].instances == Count(symbols + {s}, paths[j])
    ensures forall c :: Count(symbols + {s}, c) > 0 ==> c in paths
  {
    var cs := Split(s);
    forall j | 0 < j < |nodes| ensures nodes[j].instances == Count(symbols + {s}, paths[j]) {
      assert CountingAt(nodes[j], paths[j], symbols, cs, |cs|);
      assert paths[0] != paths[j];
      CountAdd(symbols, s, paths[j]);
    }
    forall c | Count(symbols + {s}, c) > 0 ensures c in paths {
      CountAdd(symbols, s, c);
      if Ends(cs, c) { EndsIsLast(cs, c); }
    }
  }
}
