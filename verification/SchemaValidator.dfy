/** The graph checks of the workflow validator. */
module SchemaValidator {
  import opened Basics
  import opened Graph
  import opened Workflow

  function Select(order: seq<Node>, excluded: set<Node>): seq<Node> {
    if order == [] then []
    else (if order[0] in excluded then [] else [order[0]]) + Select(order[1..], excluded)
  }

  // ------------------------------------------------------------ cycle check

  // In-degrees as they stand when `done` are processed.
  ghost predicate Degrees(g: Graph, order: seq<Node>, done: set<Node>, inDegree: map<Node, int>) {
    (forall u <- order :: u in g) && inDegree.Keys == g.Keys &&
    forall v :: v in g ==> inDegree[v] == Remaining(g, order, done, v)
  }

  // Appends one node's collected targets and counts them.
  method AddEdges(d: Definition, n: Node, inDegree: map<Node, int>, adjacency: map<Node, seq<Node>>)
    returns (inDegree': map<Node, int>, adjacency': map<Node, seq<Node>>)
    requires n in d.nodes && adjacency.Keys == inDegree.Keys == d.nodes.Keys && adjacency[n] == []
    ensures adjacency' == adjacency[n := Existing(d, Targets(d.nodes[n]))]
    ensures inDegree'.Keys == d.nodes.Keys
    ensures forall v :: v in d.nodes ==> inDegree'[v] == inDegree[v] + multiset(adjacency'[n])[v]
  {
    hide Targets;
    inDegree' := inDegree;
    var targets := Targets(d.nodes[n]);
    var list: seq<Node> := [];
    var j := 0;
    while j < |targets|
      invariant 0 <= j <= |targets| && list == Existing(d, targets[..j])
      invariant inDegree'.Keys == d.nodes.Keys
      invariant forall v :: v in d.nodes ==> inDegree'[v] == inDegree[v] + multiset(list)[v]
    {
      var t := targets[j];
      ExistingSnoc(d, targets, j);
      hide Existing;
      if t in inDegree' {
        list := list + [t];
        inDegree' := inDegree'[t := inDegree'[t] + 1];
      }
      j := j + 1;
    }
    assert targets[..|targets|] == targets;
    adjacency' := adjacency[n := list];
  }

  lemma ExistingSnoc(d: Definition, targets: seq<Node>, j: nat)
    requires j < |targets|
    ensures Existing(d, targets[..j+1])
            == Existing(d, targets[..j]) + if targets[j] in d.nodes then [targets[j]] else []
  {
    ExistingConcat(d, targets[..j], [targets[j]]);
    assert targets[..j+1] == targets[..j] + [targets[j]];
    assert Existing(d, [targets[j]]) == if targets[j] in d.nodes then [targets[j]] else [];
  }

  // The graph as it stands when the first i keys have been read.
  function GraphUpTo(d: Definition, i: nat): Graph
    requires i <= |d.order|
  {
    map n | n in d.nodes :: if n in d.order[..i] then Existing(d, Targets(d.nodes[n])) else []
  }

  method BuildGraph(d: Definition) returns (inDegree: map<Node, int>, adjacency: map<Node, seq<Node>>)
    requires ValidDefinition(d)
    ensures adjacency == Collected(d) && Degrees(adjacency, d.order, {}, inDegree)
  {
    hide Targets, Existing, GraphUpTo, CountsUpTo, Degrees, Collected, ValidDefinition;
    inDegree := map n | n in d.nodes :: 0;
    adjacency := map n | n in d.nodes :: [];
    BuildStart(d, inDegree, adjacency);
    var i := 0;
    while i < |d.order|
      invariant 0 <= i <= |d.order|
      invariant adjacency == GraphUpTo(d, i) && CountsUpTo(d, i, inDegree)
    {
      GraphUpToNext(d, i);
      CountsKeys(d, i, inDegree);
      ghost var before := inDegree;
      inDegree, adjacency := AddEdges(d, d.order[i], inDegree, adjacency);
      CountsUpToNext(d, i, before, inDegree);
      i := i + 1;
    }
    BuildEnd(d, inDegree);
  }

  lemma BuildStart(d: Definition, inDegree: map<Node, int>, adjacency: map<Node, seq<Node>>)
    requires ValidDefinition(d)
    requires inDegree == (map n | n in d.nodes :: 0) && adjacency == map n | n in d.nodes :: []
    ensures adjacency == GraphUpTo(d, 0) && CountsUpTo(d, 0, inDegree)
  {
    hide Targets, Existing;
  }

  lemma BuildEnd(d: Definition, inDegree: map<Node, int>)
    requires ValidDefinition(d) && CountsUpTo(d, |d.order|, inDegree)
    ensures GraphUpTo(d, |d.order|) == Collected(d) && Degrees(Collected(d), d.order, {}, inDegree)
  {
    hide Targets, Existing;
    assert d.order[..|d.order|] == d.order;
  }

  ghost predicate CountsUpTo(d: Definition, i: nat, inDegree: map<Node, int>)
    requires ValidDefinition(d) && i <= |d.order|
  {
    inDegree.Keys == d.nodes.Keys &&
    forall v :: v in d.nodes ==> inDegree[v] == Remaining(Collected(d), d.order[..i], {}, v)
  }

  lemma CountsKeys(d: Definition, i: nat, inDegree: map<Node, int>)
    requires ValidDefinition(d) && i <= |d.order| && CountsUpTo(d, i, inDegree)
    ensures inDegree.Keys == d.nodes.Keys
  {}

  lemma CountsUpToNext(d: Definition, i: nat, before: map<Node, int>, after: map<Node, int>)
    requires ValidDefinition(d) && i < |d.order| && CountsUpTo(d, i, before)
    requires after.Keys == d.nodes.Keys
    requires forall v :: v in d.nodes ==> after[v] == before[v] + multiset(Existing(d, Targets(d.nodes[d.order[i]])))[v]
    ensures CountsUpTo(d, i + 1, after)
  {
    hide Targets, Existing;
    var g, n := Collected(d), d.order[i];
    assert d.order[..i+1] == d.order[..i] + [n];
    forall v | v in d.nodes
      ensures Remaining(g, d.order[..i+1], {}, v) == Remaining(g, d.order[..i], {}, v) + multiset(g[n])[v]
    {
      RemainingSnoc(g, d.order[..i], n, v);
    }
    hide Remaining;
  }

  lemma GraphUpToNext(d: Definition, i: nat)
    requires ValidDefinition(d) && i < |d.order|
    ensures var n := d.order[i];
            n in d.nodes && GraphUpTo(d, i).Keys == d.nodes.Keys && GraphUpTo(d, i)[n] == [] &&
            GraphUpTo(d, i + 1) == GraphUpTo(d, i)[n := Existing(d, Targets(d.nodes[n]))]
  {
    hide Targets, Existing;
    assert d.order[i] !in d.order[..i];
    assert d.order[..i+1] == d.order[..i] + [d.order[i]];
  }

  lemma {:induction false} RemainingSnoc(g: Graph, order: seq<Node>, n: Node, v: Node)
    requires (forall u <- order :: u in g) && n in g
    ensures Remaining(g, order + [n], {}, v) == Remaining(g, order, {}, v) + multiset(g[n])[v]
    decreases |order|
  {
    if order == [] {
      assert order + [n] == [n];
    } else {
      assert (order + [n])[1..] == order[1..] + [n];
      RemainingSnoc(g, order[1..], n, v);
    }
  }

  ghost function Members(s: seq<Node>): set<Node> {
    set x | x in s
  }

  // What holds of Kahn's pass between two steps: the queue holds exactly the
  // unprocessed nodes without an unprocessed predecessor.
  ghost predicate KahnState(g: Graph, order: seq<Node>, inDegree: map<Node, int>, queue: seq<Node>, done: seq<Node>) {
    Degrees(g, order, Members(done), inDegree) && Distinct(queue) && Topological(g, done) &&
    (forall v :: v in done ==> v in g) &&
    (forall v :: v in queue <==> v in g && v !in done && inDegree[v] == 0)
  }

  // The nodes of a queue have all their predecessors processed.
  lemma QueueReady(g: Graph, order: seq<Node>, inDegree: map<Node, int>, queue: seq<Node>, done: seq<Node>, v: Node,
                   u: Node)
    requires KahnState(g, order, inDegree, queue, done) && v in queue && Edge(g, u, v)
    requires forall n :: n in g <==> n in order
    ensures u in done
  {
    RemainingZero(g, order, Members(done), v);
  }

  lemma TopologicalSnoc(g: Graph, done: seq<Node>, v: Node)
    requires Topological(g, done) && forall u :: Edge(g, u, v) ==> u in done
    ensures Topological(g, done + [v])
  {
    var t := done + [v];
    forall i, u | 0 <= i < |t| && Edge(g, u, t[i])
      ensures u in t[..i]
    {
      if i < |done| { assert t[..i] == done[..i]; } else { assert t[..i] == done; }
    }
  }

  lemma EarlierInOrder(g: Graph, done: seq<Node>, u: Node, v: Node)
    requires Topological(g, done) && Edge(g, u, v)
    ensures v in done ==> u in done
  {}

  // Takes one node from the in-degrees of its successors and queues those that
  // reach zero.
  method Release(g: Graph, order: seq<Node>, current: Node, ghost done: seq<Node>, inDegree: map<Node, int>,
                 queue: seq<Node>)
    returns (inDegree': map<Node, int>, queue': seq<Node>)
    requires current in g && Releasing(g, order, done, inDegree, queue, g[current])
    ensures Releasing(g, order, done, inDegree', queue', [])
  {
    hide Releasing;
    inDegree', queue' := inDegree, queue;
    var neighbors := g[current];
    var j := 0;
    assert neighbors[0..] == neighbors;
    while j < |neighbors|
      invariant 0 <= j <= |neighbors| && Releasing(g, order, done, inDegree', queue', neighbors[j..])
    {
      var neighbor := neighbors[j];
      ReleaseOne(g, order, done, inDegree', queue', neighbors[j..]);
      assert neighbors[j..][1..] == neighbors[j+1..];
      var newDegree := inDegree'[neighbor] - 1;
      inDegree' := inDegree'[neighbor := newDegree];
      if newDegree == 0 { queue' := queue' + [neighbor]; }
      j := j + 1;
    }
    assert neighbors[j..] == [];
  }

  // Midway through a release, with these successors still to come.
  ghost predicate Releasing(g: Graph, order: seq<Node>, done: seq<Node>, inDegree: map<Node, int>,
                            queue: seq<Node>, left: seq<Node>)
  {
    (forall u <- order :: u in g) && inDegree.Keys == g.Keys && Distinct(queue) &&
    (forall v <- left :: v in g && v !in done) && Counted(g, order, done, inDegree, left) &&
      Queued(g, done, inDegree, queue)
  }

  // The in-degrees count what is still to come.
  ghost predicate Counted(g: Graph, order: seq<Node>, done: seq<Node>, inDegree: map<Node, int>, left: seq<Node>)
    requires (forall u <- order :: u in g) && inDegree.Keys == g.Keys
  {
    forall v :: v in g ==> inDegree[v] == Remaining(g, order, Members(done), v) + multiset(left)[v]
  }

  ghost predicate Queued(g: Graph, done: seq<Node>, inDegree: map<Node, int>, queue: seq<Node>)
    requires inDegree.Keys == g.Keys
  {
    forall v :: v in queue <==> v in g && v !in done && inDegree[v] == 0
  }

  lemma ReleaseOne(g: Graph, order: seq<Node>, done: seq<Node>, inDegree: map<Node, int>,
                   queue: seq<Node>, left: seq<Node>)
    requires Releasing(g, order, done, inDegree, queue, left) && left != []
    ensures left[0] in inDegree
    ensures var n := inDegree[left[0]] - 1;
            Releasing(g, order, done, inDegree[left[0] := n], if n == 0 then queue + [left[0]] else queue, left[1..])
  {
    var x := left[0];
    assert forall v :: v in left[1..] ==> v in left;
    assert x in left;
    ReleaseCounted(g, order, done, inDegree, left);
    hide Counted, Remaining, Members;
    assert inDegree[x] > 0 by { StillCounted(g, order, done, inDegree, left); }
    QueueAppend(queue, x);
    ReleaseQueued(g, done, inDegree, queue, x);
    hide Queued, Distinct;
  }

  lemma StillCounted(g: Graph, order: seq<Node>, done: seq<Node>, inDegree: map<Node, int>, left: seq<Node>)
    requires (forall u <- order :: u in g) && inDegree.Keys == g.Keys && left != [] && left[0] in g
    requires Counted(g, order, done, inDegree, left)
    ensures inDegree[left[0]] > 0
  {
    hide Remaining;
    assert left[0] in multiset(left);
  }

  lemma ReleaseCounted(g: Graph, order: seq<Node>, done: seq<Node>, inDegree: map<Node, int>, left: seq<Node>)
    requires (forall u <- order :: u in g) && inDegree.Keys == g.Keys && left != [] && left[0] in g
    requires Counted(g, order, done, inDegree, left)
    ensures Counted(g, order, done, inDegree[left[0] := inDegree[left[0]] - 1], left[1..])
  {
    hide Remaining, Members;
    assert left == [left[0]] + left[1..];
    forall v | v in g
      ensures multiset(left)[v] == multiset([left[0]])[v] + multiset(left[1..])[v]
    {}
  }

  // A node whose count reaches zero was not in the queue.
  lemma ReleaseQueued(g: Graph, done: seq<Node>, inDegree: map<Node, int>, queue: seq<Node>, x: Node)
    requires inDegree.Keys == g.Keys && x in g && x !in done && inDegree[x] > 0 && Queued(g, done, inDegree, queue)
    ensures var n := inDegree[x] - 1;
            x !in queue && Queued(g, done, inDegree[x := n], if n == 0 then queue + [x] else queue)
  {}

  lemma QueueAppend(queue: seq<Node>, x: Node)
    requires Distinct(queue) && x !in queue
    ensures Distinct(queue + [x]) && forall v :: v in queue + [x] <==> v in queue || v == x
  {}

  function ZeroDegrees(order: seq<Node>, inDegree: map<Node, int>): seq<Node>
    requires forall v <- order :: v in inDegree
  {
    if order == [] then []
    else (if inDegree[order[0]] == 0 then [order[0]] else []) + ZeroDegrees(order[1..], inDegree)
  }

  lemma {:induction false} ZeroDegreesMembers(order: seq<Node>, inDegree: map<Node, int>)
    requires (forall v <- order :: v in inDegree) && Distinct(order)
    ensures var q := ZeroDegrees(order, inDegree);
            Distinct(q) && forall v :: v in q <==> v in order && inDegree[v] == 0
    decreases |order|
  {
    if order != [] {
      assert order == [order[0]] + order[1..];
      assert order[0] !in order[1..];
      ZeroDegreesMembers(order[1..], inDegree);
    }
  }

  lemma CollectedClosed(d: Definition)
    requires ValidDefinition(d)
    ensures var g := Collected(d);
            (forall n :: n in g <==> n in d.order) && forall u, v :: Edge(g, u, v) ==> v in g
  {
    var g := Collected(d);
    forall u, v | Edge(g, u, v)
      ensures v in g
    {
      ExistingMembers(d, Targets(d.nodes[u]), v);
    }
    hide Targets, Existing;
  }

  // The first node of the queue has no unprocessed predecessor and no
  // processed successor, and its successors still count it.
  lemma KahnStep(g: Graph, order: seq<Node>, inDegree: map<Node, int>, queue: seq<Node>, done: seq<Node>)
    requires KahnState(g, order, inDegree, queue, done) && queue != [] && Distinct(order)
    requires (forall n :: n in g <==> n in order) && forall u, v :: Edge(g, u, v) ==> v in g
    ensures var current, done' := queue[0], done + [queue[0]];
            current in g && current !in done && Topological(g, done') &&
            Members(done') == Members(done) + {current} && (forall v :: v in done' ==> v in g) &&
            Releasing(g, order, done', inDegree, queue[1..], g[current])
  {
    var current, done' := queue[0], done + [queue[0]];
    assert current in queue;
    forall u | Edge(g, u, current)
      ensures u in done
    {
      QueueReady(g, order, inDegree, queue, done, current, u);
    }
    TopologicalSnoc(g, done, current);
    assert Members(done') == Members(done) + {current};
    forall v | v in g
      ensures inDegree[v] == Remaining(g, order, Members(done'), v) + multiset(g[current])[v]
    {
      RemainingDone(g, order, Members(done), current, v);
    }
    forall v | v in g[current]
      ensures v in g && v !in done'
    {
      assert Edge(g, current, v);
      EarlierInOrder(g, done, current, v);
    }
    hide Remaining, Degrees;
    assert queue == [current] + queue[1..];
    assert current !in queue[1..];
  }

  lemma KahnStart(g: Graph, order: seq<Node>, inDegree: map<Node, int>)
    requires Degrees(g, order, {}, inDegree) && Distinct(order) && forall n :: n in g <==> n in order
    ensures (forall v <- order :: v in inDegree)
    ensures KahnState(g, order, inDegree, ZeroDegrees(order, inDegree), []) && Members([]) == {}
  {
    ZeroDegreesMembers(order, inDegree);
    hide Remaining;
    assert Members([]) == {};
  }

  lemma KahnNext(g: Graph, order: seq<Node>, inDegree: map<Node, int>, queue: seq<Node>, done: seq<Node>)
    requires Releasing(g, order, done, inDegree, queue, []) && Topological(g, done)
    requires forall v :: v in done ==> v in g
    ensures KahnState(g, order, inDegree, queue, done)
  {}

  // Fewer visited nodes than keys means that some key was not visited.
  lemma AllVisited(order: seq<Node>, done: seq<Node>)
    requires Distinct(order) && forall v :: v in done ==> v in order
    ensures |Members(done)| < |order| <==> exists v :: v in order && v !in done
  {
    DistinctMembers(order);
    assert Members(done) <= Members(order);
    if forall v :: v in order ==> v in done {
      assert Members(done) == Members(order);
    } else {
      var v :| v in order && v !in done;
      assert Members(done) <= Members(order) - {v};
      CardinalityMonotone(Members(done), Members(order) - {v});
    }
  }

  lemma {:induction false} CardinalityMonotone(a: set<Node>, b: set<Node>)
    requires a <= b
    ensures |a| <= |b|
    decreases a
  {
    if x :| x in a { CardinalityMonotone(a - {x}, b - {x}); }
  }

  ghost function CycleNodes(g: Graph, order: seq<Node>): seq<Node> {
    if order == [] then []
    else (if AfterCycle(g, order[0]) then [order[0]] else []) + CycleNodes(g, order[1..])
  }

  lemma {:induction false} SelectIsCycleNodes(g: Graph, order: seq<Node>, visited: set<Node>)
    requires forall v <- order :: v in visited <==> !AfterCycle(g, v)
    ensures Select(order, visited) == CycleNodes(g, order)
    decreases |order|
  {
    hide AfterCycle;
    if order != [] { SelectIsCycleNodes(g, order[1..], visited); }
  }

  lemma {:induction false} DistinctMembers(s: seq<Node>)
    requires Distinct(s)
    ensures |Members(s)| == |s|
    decreases |s|
  {
    if s == [] {
      assert Members(s) == {};
    } else {
      assert s[0] !in s[1..];
      assert Members(s) == {s[0]} + Members(s[1..]);
      DistinctMembers(s[1..]);
    }
  }

  // When the queue is empty, what is left unprocessed has no source, so it
  // lies on or after a cycle; what was processed does not.
  lemma KahnEnd(g: Graph, order: seq<Node>, inDegree: map<Node, int>, done: seq<Node>)
    requires KahnState(g, order, inDegree, [], done)
    requires forall n :: n in g <==> n in order
    ensures forall v :: v in order ==> (v in done <==> !AfterCycle(g, v))
  {
    var left := set v | v in order && v !in done;
    forall v | v in left
      ensures HasSource(g, left, v)
    {
      RemainingZero(g, order, Members(done), v);
      var u :| u in order && u !in Members(done) && v in g[u];
      assert Edge(g, u, v) && u in left;
    }
    forall v | v in order
      ensures v in done <==> !AfterCycle(g, v)
    {
      if v in done { OrderedNotAfterCycle(g, done, v); } else { SourcelessAfterCycle(g, left, v); }
    }
  }

  lemma CycleNodesEmpty(g: Graph, order: seq<Node>)
    requires forall n :: n in g ==> n in order
    ensures (forall v :: v in order ==> !AfterCycle(g, v)) <==> Acyclic(g)
  {
    if c :| IsCycle(g, c) {
      assert Edge(g, c[0], c[1]);
      assert WalkFromTo(g, [c[0]], c[0], c[0]);
      assert AfterCycle(g, c[0]);
    }
  }

  datatype CircularDependency = CircularDependency(involving: seq<Node>)

  // It reports a cycle exactly when there is one, and names the nodes on or
  // downstream of a cycle, in key order.
  method DetectCircularDependencies(d: Definition) returns (errors: seq<CircularDependency>)
    requires ValidDefinition(d)
    ensures var g := Collected(d);
            errors == if Acyclic(g) then [] else [CircularDependency(CycleNodes(g, d.order))]
  {
    var inDegree, g := BuildGraph(d);
    CollectedClosed(d);
    hide Collected, Remaining, Degrees;
    ghost var done: seq<Node> := [];
    var visited: set<Node> := {};
    KahnStart(g, d.order, inDegree);
    var queue := ZeroDegrees(d.order, inDegree);
    while queue != []
      invariant KahnState(g, d.order, inDegree, queue, done) && visited == Members(done)
      decreases g.Keys - visited
    {
      var current := queue[0];
      KahnStep(g, d.order, inDegree, queue, done);
      hide KahnState, Releasing, Topological;
      done := done + [current];
      visited := visited + {current};
      inDegree, queue := Release(g, d.order, current, done, inDegree, queue[1..]);
      KahnNext(g, d.order, inDegree, queue, done);
    }
    KahnEnd(g, d.order, inDegree, done);
    SelectIsCycleNodes(g, d.order, visited);
    CycleNodesEmpty(g, d.order);
    AllVisited(d.order, done);
    return if |visited| < |d.order| then [CircularDependency(Select(d.order, visited))] else [];
  }

  // ----------------------------------------------------- reachability check

  // What holds of the breadth-first search between two steps.
  ghost predicate SearchState(g: Graph, start: Node, reachable: set<Node>, queue: seq<Node>) {
    (start in reachable || start in queue) &&
    (forall v :: v in reachable || v in queue ==> Reaches(g, start, v)) &&
    (forall u, v :: u in reachable && Edge(g, u, v) ==> v in reachable || v in queue)
  }

  lemma ReachesSelf(g: Graph, v: Node)
    ensures Reaches(g, v, v)
  {
    assert WalkFromTo(g, [v], v, v);
  }

  lemma ReachesStep(g: Graph, u: Node, v: Node, x: Node)
    requires Reaches(g, u, v) && Edge(g, v, x)
    ensures Reaches(g, u, x)
  {
    var w :| WalkFromTo(g, w, u, v);
    WalkAppend(g, w, x);
    assert WalkFromTo(g, w + [x], u, x);
  }

  lemma SearchStep(g: Graph, start: Node, reachable: set<Node>, queue: seq<Node>)
    requires SearchState(g, start, reachable, queue) && queue != []
    ensures var current := queue[0];
            SearchState(g, start, reachable + {current},
                        queue[1..] + if current in reachable || current !in g then [] else g[current])
  {
    var current := queue[0];
    var added := if current in reachable || current !in g then [] else g[current];
    assert queue == [current] + queue[1..];
    forall v | v in added
      ensures Reaches(g, start, v)
    {
      assert Reaches(g, start, current) && Edge(g, current, v);
      ReachesStep(g, start, current, v);
    }
    hide Reaches;
  }

  // A set that holds the start and is closed under edges holds whatever the
  // start reaches.
  lemma {:induction false} ClosedHoldsWalk(g: Graph, inside: set<Node>, w: seq<Node>)
    requires IsWalk(g, w) && w[0] in inside
    requires forall u, v :: u in inside && Edge(g, u, v) ==> v in inside
    ensures w[|w|-1] in inside
    decreases |w|
  {
    if |w| > 1 {
      assert Edge(g, w[0], w[1]);
      ClosedHoldsWalk(g, inside, w[1..]);
    }
  }

  lemma SearchEnd(g: Graph, start: Node, reachable: set<Node>)
    requires SearchState(g, start, reachable, [])
    ensures forall v :: v in reachable <==> Reaches(g, start, v)
  {
    forall v | Reaches(g, start, v)
      ensures v in reachable
    {
      var w :| WalkFromTo(g, w, start, v);
      ClosedHoldsWalk(g, reachable, w);
    }
  }

  // Every node id the search can meet.
  function SearchUniverse(g: Graph, start: Node): set<Node> {
    {start} + g.Keys + set u, v | u in g && v in g[u] :: v
  }

  ghost function UnreachedNodes(g: Graph, start: Node, order: seq<Node>): seq<Node> {
    if order == [] then []
    else (if Reaches(g, start, order[0]) then [] else [order[0]]) + UnreachedNodes(g, start, order[1..])
  }

  lemma {:induction false} SelectIsUnreached(g: Graph, start: Node, order: seq<Node>, reachable: set<Node>)
    requires forall v :: v in reachable <==> Reaches(g, start, v)
    ensures Select(order, reachable) == UnreachedNodes(g, start, order)
    decreases |order|
  {
    hide Reaches;
    if order != [] { SelectIsUnreached(g, start, order[1..], reachable); }
  }

  // One warning for each node that no walk from the start node reaches over
  // next, failureNext, conditional and default targets, in key order.
  method DetectUnreachableNodes(d: Definition) returns (warnings: seq<Node>)
    requires ValidDefinition(d)
    ensures warnings == UnreachedNodes(Visited(d), d.startNode, d.order)
  {
    hide VisitedTargets;
    ghost var g, all := Visited(d), SearchUniverse(Visited(d), d.startNode);
    var reachable: set<Node> := {};
    var queue := [d.startNode];
    ReachesSelf(g, d.startNode);
    while queue != []
      invariant SearchState(g, d.startNode, reachable, queue)
      invariant reachable <= all && forall v :: v in queue ==> v in all
      decreases all - reachable, |queue|
    {
      SearchStep(g, d.startNode, reachable, queue);
      hide SearchState;
      var current := queue[0];
      queue := queue[1..];
      if current !in reachable {
        reachable := reachable + {current};
        if current in d.nodes {
          queue := queue + VisitedTargets(d.nodes[current]);
        }
      } else {
        assert reachable + {current} == reachable;
      }
    }
    SearchEnd(g, d.startNode, reachable);
    SelectIsUnreached(g, d.startNode, d.order, reachable);
    warnings := Select(d.order, reachable);
  }
}
