/** Directed graphs given by successor lists: walks, cycles and counting. */
module Graph {

  // Node ids; only their equality matters.
  type Node(==, !new, 00)

  // Successors may repeat, and may name nodes that are not keys.
  type Graph = map<Node, seq<Node>>

  predicate Edge(g: Graph, u: Node, v: Node) {
    u in g && v in g[u]
  }

  predicate IsWalk(g: Graph, w: seq<Node>) {
    w != [] && forall i :: 0 <= i < |w| - 1 ==> Edge(g, w[i], w[i+1])
  }

  predicate WalkFromTo(g: Graph, w: seq<Node>, u: Node, v: Node) {
    IsWalk(g, w) && w[0] == u && w[|w|-1] == v
  }

  ghost predicate Reaches(g: Graph, u: Node, v: Node) {
    exists w :: WalkFromTo(g, w, u, v)
  }

  predicate IsCycle(g: Graph, w: seq<Node>) {
    |w| >= 2 && IsWalk(g, w) && w[0] == w[|w|-1]
  }

  ghost predicate Acyclic(g: Graph) {
    forall w :: !IsCycle(g, w)
  }

  // On a directed cycle, or downstream of one.
  ghost predicate AfterCycle(g: Graph, v: Node) {
    exists c :: IsCycle(g, c) && Reaches(g, c[0], v)
  }

  predicate Distinct(s: seq<Node>) {
    forall i, j :: 0 <= i < j < |s| ==> s[i] != s[j]
  }

  lemma {:induction false} DistinctBounded(s: seq<Node>, all: set<Node>)
    requires Distinct(s) && forall x <- s :: x in all
    ensures |s| <= |all|
    decreases |s|
  {
    if s != [] {
      var more := s[1..];
      assert s[0] !in more;
      assert forall x <- more :: x in s && x != s[0];
      DistinctBounded(more, all - {s[0]});
    }
  }

  // A walk that meets a node twice goes round a cycle and on to its end.
  lemma RepeatIsCycle(g: Graph, w: seq<Node>, i: nat, j: nat)
    requires IsWalk(g, w) && i < j < |w| && w[i] == w[j]
    ensures IsCycle(g, w[i..j+1]) && AfterCycle(g, w[|w|-1])
  {
    var c := w[i..j+1];
    assert IsCycle(g, c);
    assert WalkFromTo(g, w[i..], c[0], w[|w|-1]);
  }

  lemma AcyclicWalkDistinct(g: Graph, w: seq<Node>)
    requires Acyclic(g) && IsWalk(g, w)
    ensures Distinct(w)
  {
    forall i, j | 0 <= i < j < |w|
      ensures w[i] != w[j]
    {
      if w[i] == w[j] { RepeatIsCycle(g, w, i, j); }
    }
  }

  // In an acyclic graph no walk over its nodes is longer than their number.
  lemma AcyclicWalkBounded(g: Graph, w: seq<Node>, all: set<Node>)
    requires Acyclic(g) && IsWalk(g, w) && forall x <- w :: x in all
    ensures |w| <= |all|
  {
    AcyclicWalkDistinct(g, w);
    DistinctBounded(w, all);
  }

  lemma WalkAppend(g: Graph, w: seq<Node>, v: Node)
    requires IsWalk(g, w) && Edge(g, w[|w|-1], v)
    ensures IsWalk(g, w + [v])
  {}

  lemma WalkPrepend(g: Graph, u: Node, w: seq<Node>)
    requires IsWalk(g, w) && Edge(g, u, w[0])
    ensures IsWalk(g, [u] + w)
  {}

  // ------------------------------------------------ sets without a source

  ghost predicate HasSource(g: Graph, inside: set<Node>, v: Node) {
    exists u :: u in inside && Edge(g, u, v)
  }

  // Every node of the set has a predecessor in it.
  ghost predicate Sourceless(g: Graph, inside: set<Node>) {
    forall v :: v in inside ==> HasSource(g, inside, v)
  }

  lemma SourceOf(g: Graph, inside: set<Node>, v: Node) returns (u: Node)
    requires Sourceless(g, inside) && v in inside
    ensures u in inside && Edge(g, u, v)
  {
    assert HasSource(g, inside, v);
    u :| u in inside && Edge(g, u, v);
  }

  // Inside such a set there are walks of any length to each node.
  lemma {:induction false} BackwardWalk(g: Graph, inside: set<Node>, v: Node, k: nat) returns (w: seq<Node>)
    requires Sourceless(g, inside) && v in inside
    ensures |w| == k + 1 && IsWalk(g, w) && w[k] == v && forall x <- w :: x in inside
    decreases k
  {
    hide Sourceless;
    if k == 0 {
      w := [v];
    } else {
      w := BackwardWalk(g, inside, v, k - 1);
      var u := SourceOf(g, inside, w[0]);
      WalkPrepend(g, u, w);
      w := [u] + w;
    }
  }

  // So each of them lies on or after a cycle.
  lemma SourcelessAfterCycle(g: Graph, inside: set<Node>, v: Node)
    requires Sourceless(g, inside) && v in inside
    ensures AfterCycle(g, v)
  {
    hide Sourceless, AfterCycle;
    var w := BackwardWalk(g, inside, v, |inside|);
    if Distinct(w) {
      DistinctBounded(w, inside);
    }
    var i, j :| 0 <= i < j < |w| && w[i] == w[j];
    RepeatIsCycle(g, w, i, j);
  }

  // ------------------------------------------------------ topological order

  // Every predecessor of an entry comes before it.
  ghost predicate Topological(g: Graph, s: seq<Node>) {
    forall i, u :: 0 <= i < |s| && Edge(g, u, s[i]) ==> u in s[..i]
  }

  // A walk that ends among the first k entries starts among them, and before
  // the k-th if it takes a step.
  lemma {:induction false} WalkBackInOrder(g: Graph, s: seq<Node>, w: seq<Node>, k: nat)
    requires Topological(g, s) && IsWalk(g, w) && k <= |s| && w[|w|-1] in s[..k]
    ensures k > 0 && w[0] in if |w| >= 2 then s[..k-1] else s[..k]
    decreases |w|
  {
    if |w| >= 2 {
      var i :| 0 <= i < k && s[i] == w[|w|-1];
      var front := w[..|w|-1];
      assert Edge(g, w[|w|-2], w[|w|-1]);
      WalkBackInOrder(g, s, front, i);
      assert w[0] in s[..i];
      var m :| 0 <= m < i && s[m] == w[0];
      assert s[..k-1][m] == w[0];
    }
  }

  lemma {:induction false} NoCycleInOrder(g: Graph, s: seq<Node>, c: seq<Node>, k: nat)
    requires Topological(g, s) && IsCycle(g, c) && k <= |s|
    ensures c[0] !in s[..k]
    decreases k
  {
    if c[0] in s[..k] {
      WalkBackInOrder(g, s, c, k);
      NoCycleInOrder(g, s, c, k - 1);
    }
  }

  // No entry of a topological order lies on or after a cycle.
  lemma OrderedNotAfterCycle(g: Graph, s: seq<Node>, v: Node)
    requires Topological(g, s) && v in s
    ensures !AfterCycle(g, v)
  {
    if AfterCycle(g, v) {
      var c :| IsCycle(g, c) && Reaches(g, c[0], v);
      var w :| WalkFromTo(g, w, c[0], v);
      assert s[..|s|] == s;
      WalkBackInOrder(g, s, w, |s|);
      assert c[0] in s[..|s|];
      NoCycleInOrder(g, s, c, |s|);
    }
  }

  // --------------------------------------------------------------- counting

  // How often a node is a successor of nodes not yet done.
  function Remaining(g: Graph, order: seq<Node>, done: set<Node>, v: Node): nat
    requires forall u <- order :: u in g
  {
    if order == [] then 0
    else
      (if order[0] in done then 0 else multiset(g[order[0]])[v]) + Remaining(g, order[1..], done, v)
  }

  lemma {:induction false} RemainingZero(g: Graph, order: seq<Node>, done: set<Node>, v: Node)
    requires forall u <- order :: u in g
    ensures Remaining(g, order, done, v) == 0 <==> forall u <- order :: u in done || v !in g[u]
    decreases |order|
  {
    if order != [] {
      assert order == [order[0]] + order[1..];
      RemainingZero(g, order[1..], done, v);
      assert v in g[order[0]] <==> v in multiset(g[order[0]]);
    }
  }

  lemma {:induction false} RemainingSame(g: Graph, order: seq<Node>, done: set<Node>, x: Node, v: Node)
    requires (forall u <- order :: u in g) && x !in order
    ensures Remaining(g, order, done + {x}, v) == Remaining(g, order, done, v)
    decreases |order|
  {
    if order != [] { RemainingSame(g, order[1..], done, x, v); }
  }

  lemma {:induction false} RemainingDone(g: Graph, order: seq<Node>, done: set<Node>, x: Node, v: Node)
    requires (forall u <- order :: u in g) && Distinct(order) && x in order && x !in done
    ensures Remaining(g, order, done, v) == Remaining(g, order, done + {x}, v) + multiset(g[x])[v]
    decreases |order|
  {
    if order[0] == x {
      assert x !in order[1..];
      RemainingSame(g, order[1..], done, x, v);
    } else {
      assert x in order[1..];
      RemainingDone(g, order[1..], done, x, v);
    }
  }
}
