/**
 The batch loop that runs a workflow instance: policy retries, failure paths
 and rollback jumps.  What a node does when it is executed is an oracle.
 */
module Orchestrator {
  import opened Basics
  import opened Graph
  import opened Workflow
  import opened SchemaValidator
  import opened References
  import opened RetryPolicies
  import opened StateMachine

  // The outcome of executing a node: by round, place in the batch, node and
  // attempt.
  type Oracle = (nat, nat, Node, nat) -> Outcome

  function Attempts(oracle: Oracle, round: nat, index: nat, n: Node): nat -> Outcome {
    (attempt: nat) => oracle(round, index, n, attempt)
  }

  datatype RunError = NodeFailed(failure: Outcome) | TargetMissing(target: Node)

  datatype Exit = Returned | Threw(error: RunError)

  // ------------------------------------------------------------- assumptions

  ghost predicate AllLimited(d: Definition) {
    forall n :: n in d.nodes ==> Limited(d.nodes[n])
  }

  ghost predicate EdgesTo(d: Definition, n: Node, targets: seq<Node>) {
    forall t :: t in targets ==> Edge(Collected(d), n, t)
  }

  // A node that succeeds goes on only along collected edges.
  ghost predicate Routes(d: Definition, oracle: Oracle) {
    forall round, index, n, attempt ::
      n in d.nodes && oracle(round, index, n, attempt).Success? ==>
      EdgesTo(d, n, oracle(round, index, n, attempt).next)
  }

  ghost predicate NoRollback(d: Definition) {
    forall n :: n in d.nodes ==> d.nodes[n].rollbackTo.None?
  }

  // No node has more than one successor at a time.
  ghost predicate Sequential(d: Definition, oracle: Oracle) {
    (forall n :: n in d.nodes ==> |d.nodes[n].failureNext| <= 1) &&
    forall round, index, n, attempt ::
      oracle(round, index, n, attempt).Success? ==> |oracle(round, index, n, attempt).next| <= 1
  }

  // -------------------------------------------------- the bounded counters

  function MaxRollbacks(node: TaskNode): int {
    if node.maxRetries.Some? then node.maxRetries.value else 2
  }

  function NodeLimit(node: TaskNode): nat {
    Max(0, Max(MaxRollbacks(node), if node.retryPolicy.Some? then node.retryPolicy.value.maximumAttempts else 0))
  }

  function Limit(d: Definition, order: seq<Node>): nat {
    if order == [] then 0
    else Max(if order[0] in d.nodes then NodeLimit(d.nodes[order[0]]) else 0, Limit(d, order[1..]))
  }

  lemma {:induction false} LimitCovers(d: Definition, order: seq<Node>, n: Node)
    requires n in order && n in d.nodes
    ensures NodeLimit(d.nodes[n]) <= Limit(d, order)
    decreases |order|
  {
    if order[0] != n { LimitCovers(d, order[1..], n); }
  }

  // The keys under which counters can be kept: key or id of a node, or the
  // key of an undefined id.
  function Keys(d: Definition, order: seq<Node>): seq<Option<Node>> {
    if order == [] then [None]
    else (if order[0] in d.nodes then [Some(order[0]), Some(d.nodes[order[0]].id)] else []) + Keys(d, order[1..])
  }

  lemma {:induction false} KeysCover(d: Definition, order: seq<Node>, n: Node)
    ensures None in Keys(d, order)
    ensures n in order && n in d.nodes ==> Some(n) in Keys(d, order) && Some(d.nodes[n].id) in Keys(d, order)
    decreases |order|
  {
    if order != [] {
      KeysCover(d, order[1..], n);
      var front := if order[0] in d.nodes then [Some(order[0]), Some(d.nodes[order[0]].id)] else [];
      assert forall k :: k in front || k in Keys(d, order[1..]) ==> k in front + Keys(d, order[1..]);
      if order[0] == n && n in d.nodes { assert front[0] == Some(n) && front[1] == Some(d.nodes[n].id); }
    }
  }

  // How far the counters are from their common bound, over all keys.
  function Left(keys: seq<Option<Node>>, limit: nat, r: Retries): nat {
    if keys == [] then 0 else Max(0, limit - Count(r, keys[0])) + Left(keys[1..], limit, r)
  }

  ghost predicate Grown(r: Retries, r': Retries) {
    forall k :: Count(r, k) <= Count(r', k)
  }

  lemma {:induction false} LeftGrown(keys: seq<Option<Node>>, limit: nat, r: Retries, r': Retries)
    requires Grown(r, r')
    ensures Left(keys, limit, r') <= Left(keys, limit, r)
    decreases |keys|
  {
    if keys != [] { LeftGrown(keys[1..], limit, r, r'); }
  }

  lemma {:induction false} LeftBump(keys: seq<Option<Node>>, limit: nat, r: Retries, key: Option<Node>)
    ensures Left(keys, limit, Bump(r, key)) <= Left(keys, limit, r)
    ensures key in keys && Count(r, key) < limit ==> Left(keys, limit, Bump(r, key)) < Left(keys, limit, r)
    decreases |keys|
  {
    if keys != [] {
      assert keys == [keys[0]] + keys[1..];
      LeftBump(keys[1..], limit, r, key);
    }
  }

  function Unspent(d: Definition, r: Retries): nat {
    Left(Keys(d, d.order), Limit(d, d.order), r)
  }

  // A counter raised below the limit of some node spends one unit.
  lemma BumpSpends(d: Definition, r: Retries, key: Option<Node>, n: Node)
    requires ValidDefinition(d) && n in d.nodes && Count(r, key) < NodeLimit(d.nodes[n])
    requires key.None? || key.value in d.nodes || key.value == d.nodes[n].id
    ensures Unspent(d, Bump(r, key)) < Unspent(d, r)
  {
    hide NodeLimit, Keys, Limit, Left, Bump, Count;
    LimitCovers(d, d.order, n);
    KeysCover(d, d.order, n);
    if key.Some? { KeysCover(d, d.order, key.value); }
    LeftBump(Keys(d, d.order), Limit(d, d.order), r, key);
  }

  lemma UnspentGrown(d: Definition, r: Retries, r': Retries)
    requires Grown(r, r')
    ensures Unspent(d, r') <= Unspent(d, r)
  {
    LeftGrown(Keys(d, d.order), Limit(d, d.order), r, r');
  }

  lemma GrownSelf(r: Retries)
    ensures Grown(r, r)
  {}

  lemma GrownBump(r: Retries, key: Option<Node>, r': Retries)
    ensures Grown(r, Bump(r, key))
    ensures Grown(Bump(r, key), r') ==> Grown(r, r')
  {}

  lemma GrownTrans(r: Retries, r': Retries, r'': Retries)
    requires Grown(r, r') && Grown(r', r'')
    ensures Grown(r, r'')
  {}

  // ------------------------------------------------------------ forward walks

  ghost predicate Exist(d: Definition, nodes: seq<Node>) {
    forall n :: n in nodes ==> n in d.nodes
  }

  // A walk of this many existing nodes ends at n.
  ghost predicate IsForwardWalk(d: Definition, w: seq<Node>, n: Node, length: nat) {
    |w| == length && length > 0 && IsWalk(Collected(d), w) && w[length-1] == n && forall x <- w :: x in d.nodes
  }

  ghost predicate HasWalk(d: Definition, n: Node, length: nat) {
    exists w :: IsForwardWalk(d, w, n, length)
  }

  // The nodes are there, and each ends a walk of this length.
  ghost predicate Forward(d: Definition, nodes: seq<Node>, length: nat) {
    forall n :: n in nodes ==> n in d.nodes && HasWalk(d, n, length)
  }

  lemma ForwardStart(d: Definition, nodes: seq<Node>)
    requires Exist(d, nodes)
    ensures Forward(d, nodes, 1)
  {
    hide Collected;
    forall n | n in nodes
      ensures HasWalk(d, n, 1)
    {
      assert IsForwardWalk(d, [n], n, 1);
    }
  }

  lemma WalkLonger(d: Definition, n: Node, t: Node, length: nat)
    requires ValidDefinition(d) && HasWalk(d, n, length) && Edge(Collected(d), n, t)
    ensures t in d.nodes && HasWalk(d, t, length + 1)
  {
    hide Collected, Edge;
    CollectedClosed(d);
    EdgeEnds(Collected(d), n, t);
    hide IsWalk;
    var w :| IsForwardWalk(d, w, n, length);
    WalkAppend(Collected(d), w, t);
    assert forall x <- w + [t] :: x in w || x == t;
    assert IsForwardWalk(d, w + [t], t, length + 1);
  }

  lemma EdgeEnds(g: Graph, n: Node, t: Node)
    requires Edge(g, n, t)
    ensures n in g && t in g[n]
  {}

  lemma ForwardAppend(d: Definition, nodes: seq<Node>, n: Node, more: seq<Node>, length: nat)
    requires ValidDefinition(d) && Forward(d, nodes, length + 1) && n in d.nodes && HasWalk(d, n, length)
    requires EdgesTo(d, n, more)
    ensures Forward(d, nodes + more, length + 1)
  {
    hide HasWalk, Collected, Edge;
    forall t | t in more
      ensures t in d.nodes && HasWalk(d, t, length + 1)
    {
      WalkLonger(d, n, t, length);
    }
  }

  lemma ForwardShort(d: Definition, nodes: seq<Node>, length: nat)
    requires ValidDefinition(d) && Acyclic(Collected(d)) && Forward(d, nodes, length) && nodes != []
    ensures length <= |d.nodes|
  {
    hide Collected, Acyclic, IsWalk;
    assert HasWalk(d, nodes[0], length);
    var w :| IsForwardWalk(d, w, nodes[0], length);
    AcyclicWalkBounded(Collected(d), w, d.nodes.Keys);
  }

  // ---------------------------------------------------------- de-duplication

  // Keeps the first occurrence of each node.
  function Dedupe(s: seq<Node>): seq<Node> {
    if s == [] then []
    else
      var front := Dedupe(s[..|s|-1]);
      if s[|s|-1] in front then front else front + [s[|s|-1]]
  }

  lemma {:induction false} DedupeDistinct(s: seq<Node>)
    ensures Distinct(Dedupe(s)) && |Dedupe(s)| <= |s| && (s != [] ==> Dedupe(s) != [])
    ensures forall n :: n in Dedupe(s) <==> n in s
    decreases |s|
  {
    if s != [] {
      assert s == s[..|s|-1] + [s[|s|-1]];
      DedupeDistinct(s[..|s|-1]);
    }
  }

  // Where a node occurs first.
  function FirstAt(s: seq<Node>, n: Node): (i: nat)
    requires n in s
    ensures i < |s| && s[i] == n && forall j :: 0 <= j < i ==> s[j] != n
  {
    if s[0] == n then 0 else 1 + FirstAt(s[1..], n)
  }

  // De-duplication keeps the order of first occurrence.
  lemma {:induction false} DedupeOrder(s: seq<Node>, i: nat, j: nat)
    requires i < j < |Dedupe(s)|
    ensures Dedupe(s)[i] in s && Dedupe(s)[j] in s && FirstAt(s, Dedupe(s)[i]) < FirstAt(s, Dedupe(s)[j])
    decreases |s|
  {
    DedupeDistinct(s);
    var front, last := s[..|s|-1], s[|s|-1];
    assert s == front + [last];
    DedupeDistinct(front);
    var a, b := Dedupe(s)[i], Dedupe(s)[j];
    if j < |Dedupe(front)| {
      DedupeOrder(front, i, j);
      FirstInFront(front, last, a);
      FirstInFront(front, last, b);
    } else {
      FirstInFront(front, last, a);
      assert b == last && b !in front;
    }
  }

  lemma FirstInFront(front: seq<Node>, last: Node, n: Node)
    requires n in front
    ensures n in front + [last] && FirstAt(front + [last], n) == FirstAt(front, n)
  {
    var s := front + [last];
    assert s[FirstAt(front, n)] == n;
  }

  method DedupeNodes(s: seq<Node>) returns (r: seq<Node>)
    ensures r == Dedupe(s)
  {
    r := [];
    var seen: set<Node> := {};
    var i := 0;
    while i < |s|
      invariant 0 <= i <= |s| && r == Dedupe(s[..i])
      invariant forall n :: n in seen <==> n in r
    {
      assert s[..i+1][..i] == s[..i];
      if s[i] !in seen {
        seen := seen + {s[i]};
        r := r + [s[i]];
      }
      i := i + 1;
    }
    assert s[..|s|] == s;
  }

  // --------------------------------------------- runs without rollback targets

  datatype NodeResult = Goes(nodes: seq<Node>) | Ends(error: RunError)

  // Where a node leads that settled on an outcome and rolls nothing back.
  function Follow(node: TaskNode, o: Outcome): NodeResult {
    if o.Success? then Goes(o.next)
    else if node.failureNext != [] then Goes(node.failureNext)
    else Ends(NodeFailed(o))
  }

  datatype BatchResult = Proceeds(nodes: seq<Node>, retries: Retries) | Fails(error: RunError, retries: Retries)

  // Visits a batch from an index on: each node settles, and its successors or
  // failure targets are appended.
  function VisitBatch(d: Definition, oracle: Oracle, round: nat, batch: seq<Node>, index: nat, r: Retries,
                      acc: seq<Node>): BatchResult
    requires AllLimited(d)
    decreases |batch| - index
  {
    if index >= |batch| then Proceeds(acc, r)
    else if batch[index] !in d.nodes then VisitBatch(d, oracle, round, batch, index + 1, r, acc)
    else
      var node := d.nodes[batch[index]];
      var settled := Settle(node, Attempts(oracle, round, index, batch[index]), 0, r);
      match Follow(node, settled.0)
      case Goes(nodes) => VisitBatch(d, oracle, round, batch, index + 1, settled.1, acc + nodes)
      case Ends(e) => Fails(e, settled.1)
  }

  datatype Point = At(batch: seq<Node>, retries: Retries) | Stopped(error: RunError, retries: Retries)

  function NextPoint(d: Definition, oracle: Oracle, round: nat, p: Point): Point
    requires AllLimited(d)
  {
    if p.Stopped? then p
    else
      match VisitBatch(d, oracle, round, p.batch, 0, p.retries, [])
      case Fails(e, r) => Stopped(e, r)
      case Proceeds(nodes, r) => At(Dedupe(nodes), r)
  }

  // The batch before the k-th round of a run, or the error that ended it
  // earlier.
  function PointAt(d: Definition, oracle: Oracle, start: Point, round: nat, k: nat): Point
    requires AllLimited(d)
  {
    if k == 0 then start else NextPoint(d, oracle, round + k - 1, PointAt(d, oracle, start, round, k - 1))
  }

  // The batches of the first k rounds.
  function Batches(d: Definition, oracle: Oracle, start: Point, round: nat, k: nat): seq<seq<Node>>
    requires AllLimited(d)
  {
    if k == 0 then []
    else
      Batches(d, oracle, start, round, k - 1) +
      match PointAt(d, oracle, start, round, k - 1)
      case At(batch, _) => [batch]
      case Stopped(_, _) => []
  }

  // -------------------------------------------------------------- the run

  // Every failure of a run leaves the instance failed: no rollback target is
  // followed, or the run is sequential and at most one node is active.
  ghost predicate Simple(d: Definition, oracle: Oracle, active: seq<Node>) {
    NoRollback(d) || (Sequential(d, oracle) && |active| <= 1)
  }

  ghost predicate Sound(d: Definition, oracle: Oracle) {
    Accepted(d) && AllLimited(d) && Routes(d, oracle)
  }

  lemma StartExists(d: Definition)
    requires Accepted(d)
    ensures d.startNode in d.nodes
  {
    assert !Dangling(d, Reference(d.startNode, StartNode, 0, d.startNode));
  }

  lemma SuccessEdges(d: Definition, oracle: Oracle, round: nat, index: nat, n: Node, attempt: nat)
    requires Sound(d, oracle) && n in d.nodes && oracle(round, index, n, attempt).Success?
    ensures ValidDefinition(d) && EdgesTo(d, n, oracle(round, index, n, attempt).next)
    ensures Sequential(d, oracle) ==> |oracle(round, index, n, attempt).next| <= 1
  {}

  lemma FailureEdges(d: Definition, oracle: Oracle, n: Node)
    requires Sound(d, oracle) && n in d.nodes
    ensures ValidDefinition(d) && EdgesTo(d, n, d.nodes[n].failureNext)
    ensures d.nodes[n].rollbackTo.Some? ==> d.nodes[n].rollbackTo.value in d.nodes && !NoRollback(d)
    ensures Sequential(d, oracle) ==> |d.nodes[n].failureNext| <= 1
  {
    AcceptedTargets(d, n);
    hide Dangling, Acyclic, Collected, Edge;
  }

  lemma SettleStep(node: TaskNode, attempts: nat -> Outcome, attempt: nat, r: Retries)
    requires Limited(node)
    ensures Settle(node, attempts, attempt, r) ==
            if attempts(attempt).Failure? && CanRetry(node, attempts(attempt), r)
            then Settle(node, attempts, attempt + 1, Bump(r, Some(node.id)))
            else (attempts(attempt), r)
  {}

  lemma LimitedNode(d: Definition, oracle: Oracle, n: Node)
    requires Sound(d, oracle) && n in d.nodes
    ensures Limited(d.nodes[n])
  {}

  // A retry under a policy spends one unit.
  lemma RetrySpends(d: Definition, oracle: Oracle, n: Node, o: Outcome, r: Retries)
    requires Sound(d, oracle) && n in d.nodes && o.Failure? && CanRetry(d.nodes[n], o, r)
    ensures Unspent(d, Bump(r, Some(d.nodes[n].id))) < Unspent(d, r)
  {
    LimitedNode(d, oracle, n);
    assert Count(r, Some(d.nodes[n].id)) < NodeLimit(d.nodes[n]);
    hide Dangling, Acyclic, Collected, IsRetryable, Unspent, Bump, Count;
    BumpSpends(d, r, Some(d.nodes[n].id), n);
  }

  lemma RollbackSpends(d: Definition, oracle: Oracle, active: seq<Node>, from: Node, r: Retries)
    requires Sound(d, oracle) && Exist(d, active) && from in d.nodes
    requires Count(r, FirstOf(active)) + 1 <= MaxRollbacks(d.nodes[from])
    ensures Unspent(d, Bump(r, FirstOf(active))) < Unspent(d, r)
  {
    hide Dangling, Acyclic, Collected, Unspent, Bump, Count;
    BumpSpends(d, r, FirstOf(active), from);
  }

  function FirstOf(nodes: seq<Node>): Option<Node> {
    if nodes != [] then Some(nodes[0]) else None
  }

  lemma SoundAccepted(d: Definition, oracle: Oracle)
    requires Sound(d, oracle)
    ensures Accepted(d)
  {}

  lemma VisitStep(d: Definition, oracle: Oracle, round: nat, batch: seq<Node>, i: nat, r: Retries, acc: seq<Node>)
    requires Sound(d, oracle) && i < |batch|
    ensures AllLimited(d)
    ensures batch[i] !in d.nodes ==>
              VisitBatch(d, oracle, round, batch, i, r, acc) == VisitBatch(d, oracle, round, batch, i + 1, r, acc)
    ensures batch[i] in d.nodes ==>
              Limited(d.nodes[batch[i]]) &&
              var s := Settle(d.nodes[batch[i]], Attempts(oracle, round, i, batch[i]), 0, r);
              VisitBatch(d, oracle, round, batch, i, r, acc) ==
              match Follow(d.nodes[batch[i]], s.0)
              case Goes(nodes) => VisitBatch(d, oracle, round, batch, i + 1, s.1, acc + nodes)
              case Ends(e) => Fails(e, s.1)
  {}

  lemma VisitPast(d: Definition, oracle: Oracle, round: nat, batch: seq<Node>, i: nat, r: Retries, acc: seq<Node>)
    requires Sound(d, oracle) && i >= |batch|
    ensures AllLimited(d) && VisitBatch(d, oracle, round, batch, i, r, acc) == Proceeds(acc, r)
  {}

  lemma PointStep(d: Definition, oracle: Oracle, start: Point, round: nat, k: nat)
    requires Sound(d, oracle)
    ensures AllLimited(d)
    ensures PointAt(d, oracle, start, round, 0) == start && Batches(d, oracle, start, round, 0) == []
    ensures PointAt(d, oracle, start, round, k + 1)
            == NextPoint(d, oracle, round + k, PointAt(d, oracle, start, round, k))
    ensures Batches(d, oracle, start, round, k + 1) ==
            Batches(d, oracle, start, round, k) +
            if PointAt(d, oracle, start, round, k).At? then [PointAt(d, oracle, start, round, k).batch] else []
  {}

  lemma ForwardNone(d: Definition, length: nat)
    ensures Forward(d, [], length)
  {}

  lemma ForwardAt(d: Definition, nodes: seq<Node>, i: nat, length: nat)
    requires Forward(d, nodes, length) && i < |nodes|
    ensures nodes[i] in d.nodes && HasWalk(d, nodes[i], length)
  {}

  lemma ForwardAccepted(d: Definition, oracle: Oracle, nodes: seq<Node>, length: nat)
    requires Sound(d, oracle) && Forward(d, nodes, length) && nodes != []
    ensures length <= |d.nodes| && Exist(d, nodes)
  {
    hide Dangling, AllLimited, Routes, HasWalk, Collected, Acyclic;
    ForwardShort(d, nodes, length);
  }

  lemma DedupeForward(d: Definition, nodes: seq<Node>, length: nat)
    requires Forward(d, nodes, length)
    ensures Forward(d, Dedupe(nodes), length) && Exist(d, Dedupe(nodes)) && Distinct(Dedupe(nodes))
    ensures |Dedupe(nodes)| <= |nodes| && (Dedupe(nodes) == [] <==> nodes == [])
  {}

  lemma {:induction false} VisitForward(d: Definition, oracle: Oracle, round: nat, batch: seq<Node>, i: nat,
                                        r: Retries, acc: seq<Node>, length: nat)
    requires Sound(d, oracle) && Forward(d, batch, length) && Forward(d, acc, length + 1)
    ensures AllLimited(d)
    ensures var b := VisitBatch(d, oracle, round, batch, i, r, acc); b.Proceeds? ==> Forward(d, b.nodes, length + 1)
    decreases |batch| - i
  {
    hide Accepted, Routes, Forward, HasWalk, VisitBatch, Settle, Limited;
    if i >= |batch| {
      VisitPast(d, oracle, round, batch, i, r, acc);
    } else {
      VisitStep(d, oracle, round, batch, i, r, acc);
      if batch[i] in d.nodes {
        ForwardAt(d, batch, i, length);
        var s := Settle(d.nodes[batch[i]], Attempts(oracle, round, i, batch[i]), 0, r);
        SettledEdges(d, oracle, round, i, batch[i], 0, r);
        if Follow(d.nodes[batch[i]], s.0).Goes? {
          var more := Follow(d.nodes[batch[i]], s.0).nodes;
          ForwardAppend(d, acc, batch[i], more, length);
          VisitForward(d, oracle, round, batch, i + 1, s.1, acc + more, length);
        }
      } else {
        VisitForward(d, oracle, round, batch, i + 1, r, acc, length);
      }
    }
  }

  lemma {:induction false} SettledEdges(d: Definition, oracle: Oracle, round: nat, i: nat, n: Node, attempt: nat,
                                        r: Retries)
    requires Sound(d, oracle) && n in d.nodes
    ensures Limited(d.nodes[n]) && ValidDefinition(d)
    ensures var f := Follow(d.nodes[n], Settle(d.nodes[n], Attempts(oracle, round, i, n), attempt, r).0);
            f.Goes? ==> EdgesTo(d, n, f.nodes)
    decreases if n in d.nodes then AttemptsLeft(d.nodes[n], r) else 0
  {
    LimitedNode(d, oracle, n);
    FailureEdges(d, oracle, n);
    hide Sound, EdgesTo, Settle, ValidDefinition;
    var node := d.nodes[n];
    var o := oracle(round, i, n, attempt);
    SettleStep(node, Attempts(oracle, round, i, n), attempt, r);
    if o.Success? {
      SuccessEdges(d, oracle, round, i, n, attempt);
    } else if CanRetry(node, o, r) {
      SettledEdges(d, oracle, round, i, n, attempt + 1, Bump(r, Some(node.id)));
    }
  }

  // The k-th batch of a run is made of nodes that end walks of k + 1 nodes.
  lemma {:induction false} PointForward(d: Definition, oracle: Oracle, start: Point, round: nat, k: nat)
    requires Sound(d, oracle) && start.At? && Exist(d, start.batch)
    ensures AllLimited(d)
    ensures var p := PointAt(d, oracle, start, round, k); p.At? ==> Forward(d, p.batch, k + 1)
    ensures var p := PointAt(d, oracle, start, round, k); p.At? && Distinct(start.batch) ==> Distinct(p.batch)
  {
    hide Accepted, Routes, Forward, HasWalk, VisitBatch, PointAt, Batches, Distinct, Exist;
    PointStep(d, oracle, start, round, if k == 0 then 0 else k - 1);
    if k == 0 {
      ForwardStart(d, start.batch);
    } else {
      PointForward(d, oracle, start, round, k - 1);
      var p := PointAt(d, oracle, start, round, k - 1);
      if p.At? {
        ForwardNone(d, k + 1);
        VisitForward(d, oracle, round + k - 1, p.batch, 0, p.retries, [], k);
        var b := VisitBatch(d, oracle, round + k - 1, p.batch, 0, p.retries, []);
        if b.Proceeds? { DedupeForward(d, b.nodes, k + 1); }
      }
    }
  }

  // An accepted definition without rollback targets runs at most as many
  // rounds as it has nodes: by then no node is active, or an error ended it.
  lemma RunEnds(d: Definition, oracle: Oracle, start: Point, round: nat)
    requires Sound(d, oracle) && start.At? && Exist(d, start.batch)
    ensures AllLimited(d)
    ensures var p := PointAt(d, oracle, start, round, |d.nodes|); p.Stopped? || p.batch == []
  {
    PointForward(d, oracle, start, round, |d.nodes|);
    hide Accepted, Routes, Forward, HasWalk, PointAt;
    var p := PointAt(d, oracle, start, round, |d.nodes|);
    if p.At? && p.batch != [] { ForwardAccepted(d, oracle, p.batch, |d.nodes| + 1); }
  }

  // Every batch of a run is free of duplicates and made of existing nodes.
  lemma {:induction false} BatchesDistinct(d: Definition, oracle: Oracle, start: Point, round: nat, k: nat)
    requires Sound(d, oracle) && start.At? && Exist(d, start.batch) && Distinct(start.batch)
    ensures AllLimited(d)
    ensures forall b :: b in Batches(d, oracle, start, round, k) ==> Distinct(b) && Exist(d, b)
  {
    hide Accepted, Routes, Forward, HasWalk, PointAt, Batches, Distinct, Exist;
    PointStep(d, oracle, start, round, if k == 0 then 0 else k - 1);
    if k > 0 {
      BatchesDistinct(d, oracle, start, round, k - 1);
      PointForward(d, oracle, start, round, k - 1);
      var p := PointAt(d, oracle, start, round, k - 1);
      if p.At? { ForwardExist(d, p.batch, k); }
    }
  }

  lemma ForwardExist(d: Definition, nodes: seq<Node>, length: nat)
    requires Forward(d, nodes, length)
    ensures Exist(d, nodes)
  {}

  // The rounds after some earlier ones begin with this batch.
  ghost predicate Begins(earlier: seq<seq<Node>>, batch: seq<Node>, all: seq<seq<Node>>) {
    earlier + [batch] <= all
  }

  lemma BeginsHere(earlier: seq<seq<Node>>, batch: seq<Node>, all: seq<seq<Node>>)
    requires earlier + [batch] <= all
    ensures Begins(earlier, batch, all)
  {}

  lemma BeginsMore(earlier: seq<seq<Node>>, batch: seq<Node>, all: seq<seq<Node>>, next: seq<Node>,
                   all': seq<seq<Node>>)
    requires Begins(earlier, batch, all) && Begins(all, next, all')
    ensures Begins(earlier, batch, all')
  {}

  lemma NoRollbackAt(d: Definition, n: Node)
    requires n in d.nodes
    ensures NoRollback(d) ==> d.nodes[n].rollbackTo.None?
  {}

  // ---------------------------------------------------- runs with rollbacks

  // What a run has come to.  `jumped` is a history: whether a rollback has
  // returned since the last time the instance was started.
  datatype Run = Run(
    batch: seq<Node>,
    status: Status,
    retries: Retries,
    maxReached: bool,
    rounds: nat,
    trace: seq<seq<Node>>,
    jumped: bool)

  datatype RunEnd = RunEnd(run: Run, exit: Exit)

  datatype JumpEnd = JumpEnd(run: Run, success: bool, exit: Exit)

  datatype NodeEnd = NodeEnd(run: Run, exit: Exit, next: seq<Node>)

  // The counters have grown, and all nodes named exist.
  ghost predicate Kept(d: Definition, before: Run, after: Run) {
    Grown(before.retries, after.retries) && Exist(d, after.batch)
  }

  // One node: retries, then its successors, its failure targets, its rollback
  // or its failure.
  ghost function NodeRun(d: Definition, oracle: Oracle, s: Run, round: nat, index: nat, n: Node, attempt: nat,
                         next: seq<Node>): (e: NodeEnd)
    requires Sound(d, oracle) && Exist(d, s.batch) && Exist(d, next) && n in d.nodes
    ensures Kept(d, s, e.run) && Exist(d, e.next)
    decreases Unspent(d, s.retries), 1, 0
  {
    var node, o := d.nodes[n], oracle(round, index, n, attempt);
    if o.Success? then
      SuccessExist(d, oracle, round, index, n, attempt);
      NodeEnd(s, Returned, next + o.next)
    else if CanRetry(node, o, s.retries) then
      RetrySpends(d, oracle, n, o, s.retries);
      var t := s.(retries := Bump(s.retries, Some(node.id)));
      NodeRun(d, oracle, t, round, index, n, attempt + 1, next)
    else if node.failureNext != [] then
      FailureExist(d, oracle, n);
      NodeEnd(s, Returned, next + node.failureNext)
    else if node.rollbackTo.None? then NodeEnd(s.(status := Transition(s.status, Fail)), Threw(NodeFailed(o)), next)
    else
      var j := JumpRun(d, oracle, s, n, node.rollbackTo.value);
      if j.exit.Threw? then NodeEnd(j.run, j.exit, next)
      else if j.success then NodeEnd(j.run, Returned, next)
      else NodeEnd(j.run.(status := Transition(j.run.status, Fail)), Threw(NodeFailed(o)), next)
  }

  // A jump back: the instance is run again from the target, within this run.
  ghost function JumpRun(d: Definition, oracle: Oracle, s: Run, from: Node, to: Node): (e: JumpEnd)
    requires Sound(d, oracle) && Exist(d, s.batch) && from in d.nodes
    ensures Kept(d, s, e.run)
    decreases Unspent(d, s.retries), 0, 0
  {
    var first := FirstOf(s.batch);
    if to !in d.nodes then JumpEnd(s, false, Threw(TargetMissing(to)))
    else if Count(s.retries, first) + 1 > MaxRollbacks(d.nodes[from]) then
      JumpEnd(s.(retries := Bump(s.retries, first), status := Failed, maxReached := true), false, Returned)
    else
      RollbackSpends(d, oracle, s.batch, from, s.retries);
      var t := s.(retries := Bump(s.retries, first), batch := [to], status := Transition(s.status, Rollback));
      var e := InstanceRun(d, oracle, t);
      JumpEnd(e.run.(jumped := e.run.jumped || e.exit.Returned?), true, e.exit)
  }

  // Starts the instance and runs it to its end.
  ghost function InstanceRun(d: Definition, oracle: Oracle, s: Run): (e: RunEnd)
    requires Sound(d, oracle) && Exist(d, s.batch)
    ensures Kept(d, s, e.run)
    decreases Unspent(d, s.retries), 4, 0
  {
    LoopRun(d, oracle, s.(status := Running, jumped := false), 0)
  }

  // Round after round; never more than there are nodes.
  ghost function LoopRun(d: Definition, oracle: Oracle, s: Run, k: nat): (e: RunEnd)
    requires Sound(d, oracle) && Exist(d, s.batch)
    ensures Kept(d, s, e.run)
    decreases Unspent(d, s.retries), 3, |d.nodes| + 1 - k
  {
    if s.batch == [] || k > |d.nodes| then RunEnd(s, Returned)
    else
      var e := BatchRun(d, oracle, s);
      UnspentGrown(d, s.retries, e.run.retries);
      if e.exit.Threw? then e else LoopRun(d, oracle, e.run, k + 1)
  }

  // One round: the nodes of the batch in order, then the next batch.
  ghost function BatchRun(d: Definition, oracle: Oracle, s: Run): (e: RunEnd)
    requires Sound(d, oracle) && Exist(d, s.batch)
    ensures Kept(d, s, e.run)
    decreases Unspent(d, s.retries), 2, |s.batch| + 1
  {
    var v := VisitRun(d, oracle, s.(rounds := s.rounds + 1, trace := s.trace + [s.batch]), s.rounds, s.batch, 0, []);
    if v.exit.Threw? then RunEnd(v.run, v.exit)
    else
      DedupeExist(d, v.next);
      var batch := Dedupe(v.next);
      var status := if batch == [] then Transition(v.run.status, Complete) else v.run.status;
      RunEnd(v.run.(batch := batch, status := status), Returned)
  }

  ghost function VisitRun(d: Definition, oracle: Oracle, s: Run, round: nat, batch: seq<Node>, i: nat,
                          next: seq<Node>): (e: NodeEnd)
    requires Sound(d, oracle) && Exist(d, s.batch) && Exist(d, next)
    ensures Kept(d, s, e.run) && Exist(d, e.next)
    decreases Unspent(d, s.retries), 2, |batch| - i
  {
    if i >= |batch| then NodeEnd(s, Returned, next)
    else if batch[i] !in d.nodes then VisitRun(d, oracle, s, round, batch, i + 1, next)
    else
      var e := NodeRun(d, oracle, s, round, i, batch[i], 0, next);
      UnspentGrown(d, s.retries, e.run.retries);
      if e.exit.Threw? then e else VisitRun(d, oracle, e.run, round, batch, i + 1, e.next)
  }

  lemma NodeRunStep(d: Definition, oracle: Oracle, s: Run, round: nat, index: nat, n: Node, attempt: nat,
                    next: seq<Node>)
    requires Sound(d, oracle) && Exist(d, s.batch) && Exist(d, next) && n in d.nodes
    ensures var node, o := d.nodes[n], oracle(round, index, n, attempt);
            NodeRun(d, oracle, s, round, index, n, attempt, next) ==
            if o.Success? then NodeEnd(s, Returned, next + o.next)
            else if CanRetry(node, o, s.retries) then
              NodeRun(d, oracle, s.(retries := Bump(s.retries, Some(node.id))), round, index, n, attempt + 1, next)
            else if node.failureNext != [] then NodeEnd(s, Returned, next + node.failureNext)
            else if node.rollbackTo.None?
              then NodeEnd(s.(status := Transition(s.status, Fail)), Threw(NodeFailed(o)), next)
            else
              var j := JumpRun(d, oracle, s, n, node.rollbackTo.value);
              if j.exit.Threw? then NodeEnd(j.run, j.exit, next)
              else if j.success then NodeEnd(j.run, Returned, next)
              else NodeEnd(j.run.(status := Transition(j.run.status, Fail)), Threw(NodeFailed(o)), next)
  {
    hide Sound, Exist, JumpRun, Unspent, Grown;
  }

  lemma JumpRunStep(d: Definition, oracle: Oracle, s: Run, from: Node, to: Node)
    requires Sound(d, oracle) && Exist(d, s.batch) && from in d.nodes
    ensures var first := FirstOf(s.batch);
            JumpRun(d, oracle, s, from, to) ==
            if to !in d.nodes then JumpEnd(s, false, Threw(TargetMissing(to)))
            else if Count(s.retries, first) + 1 > MaxRollbacks(d.nodes[from]) then
              JumpEnd(s.(retries := Bump(s.retries, first), status := Failed, maxReached := true), false, Returned)
            else
              var t := s.(retries := Bump(s.retries, first), batch := [to], status := Transition(s.status, Rollback));
              var e := InstanceRun(d, oracle, t);
              JumpEnd(e.run.(jumped := e.run.jumped || e.exit.Returned?), true, e.exit)
  {
    hide Sound, InstanceRun, Unspent, Grown;
  }

  lemma VisitRunStep(d: Definition, oracle: Oracle, s: Run, round: nat, batch: seq<Node>, i: nat, next: seq<Node>)
    requires Sound(d, oracle) && Exist(d, s.batch) && Exist(d, next) && i < |batch|
    ensures VisitRun(d, oracle, s, round, batch, i, next) ==
            if batch[i] !in d.nodes then VisitRun(d, oracle, s, round, batch, i + 1, next)
            else
              var e := NodeRun(d, oracle, s, round, i, batch[i], 0, next);
              if e.exit.Threw? then e else VisitRun(d, oracle, e.run, round, batch, i + 1, e.next)
  {
    hide Sound, Exist, NodeRun, Unspent, Grown;
  }

  lemma VisitRunPast(d: Definition, oracle: Oracle, s: Run, round: nat, batch: seq<Node>, i: nat, next: seq<Node>)
    requires Sound(d, oracle) && Exist(d, s.batch) && Exist(d, next) && i >= |batch|
    ensures VisitRun(d, oracle, s, round, batch, i, next) == NodeEnd(s, Returned, next)
  {
    hide Sound, Exist, NodeRun, Unspent, Grown;
  }

  lemma LoopRunStep(d: Definition, oracle: Oracle, s: Run, k: nat)
    requires Sound(d, oracle) && Exist(d, s.batch) && s.batch != [] && k <= |d.nodes|
    ensures var e := BatchRun(d, oracle, s);
            LoopRun(d, oracle, s, k) == if e.exit.Threw? then e else LoopRun(d, oracle, e.run, k + 1)
  {
    hide Sound, Exist, BatchRun, Unspent, Grown;
  }

  lemma LoopRunEnd(d: Definition, oracle: Oracle, s: Run, k: nat)
    requires Sound(d, oracle) && Exist(d, s.batch) && s.batch == []
    ensures LoopRun(d, oracle, s, k) == RunEnd(s, Returned)
  {
    hide Sound, Exist, BatchRun, Unspent, Grown;
  }

  lemma ExistNone(d: Definition)
    ensures Exist(d, [])
  {}

  lemma EdgesExist(d: Definition, n: Node, targets: seq<Node>)
    requires ValidDefinition(d) && EdgesTo(d, n, targets)
    ensures Exist(d, targets)
  {
    CollectedClosed(d);
    hide Edge;
    forall t | t in targets
      ensures t in d.nodes
    {
      EdgeEnds(Collected(d), n, t);
      hide Collected;
    }
  }

  lemma SuccessExist(d: Definition, oracle: Oracle, round: nat, index: nat, n: Node, attempt: nat)
    requires Sound(d, oracle) && n in d.nodes && oracle(round, index, n, attempt).Success?
    ensures Exist(d, oracle(round, index, n, attempt).next)
  {
    SuccessEdges(d, oracle, round, index, n, attempt);
    hide Sound, EdgesTo;
    EdgesExist(d, n, oracle(round, index, n, attempt).next);
  }

  lemma FailureExist(d: Definition, oracle: Oracle, n: Node)
    requires Sound(d, oracle) && n in d.nodes
    ensures Exist(d, d.nodes[n].failureNext)
  {
    FailureEdges(d, oracle, n);
    hide Sound, EdgesTo;
    EdgesExist(d, n, d.nodes[n].failureNext);
  }

  lemma DedupeExist(d: Definition, nodes: seq<Node>)
    requires Exist(d, nodes)
    ensures Exist(d, Dedupe(nodes))
  {
    DedupeDistinct(nodes);
  }

  // A failed node jumps back: its counter has not reached its bound.
  predicate RollsBack(node: TaskNode, r: Retries, first: Option<Node>) {
    node.rollbackTo.Some? && Count(r, first) < MaxRollbacks(node)
  }

  class Instance {
    const d: Definition
    const oracle: Oracle
    var currentNodes: seq<Node>
    var status: Status
    var retries: Retries
    var maxRetriesReached: bool
    // The number of rounds begun, and the batch of each.
    var rounds: nat
    ghost var trace: seq<seq<Node>>
    ghost var jumped: bool

    constructor (d: Definition, oracle: Oracle)
      requires Sound(d, oracle)
      ensures this.d == d && this.oracle == oracle && Valid()
      ensures currentNodes == [d.startNode] && status == Pending && retries == map[] && rounds == 0 && trace == []
      ensures Come() == Run([d.startNode], Pending, map[], false, 0, [], false)
    {
      hide Sound;
      this.d, this.oracle := d, oracle;
      currentNodes, status, retries, maxRetriesReached, rounds := [d.startNode], Pending, map[], false, 0;
      trace, jumped := [], false;
      assert d.startNode in d.nodes by { SoundAccepted(d, oracle); StartExists(d); }
    }

    ghost predicate Valid()
      reads this
    {
      Sound(d, oracle) && Exist(d, currentNodes)
    }

    ghost function Come(): Run
      reads this
    {
      Run(currentNodes, status, retries, maxRetriesReached, rounds, trace, jumped)
    }

    // One node of a batch: what it settles on decides which nodes it adds, or
    // whether the run jumps back or ends.
    method ExecuteNode(round: nat, index: nat, n: Node, attempt: nat, nextNodes: seq<Node>, ghost length: nat)
      returns (exit: Exit, nextNodes': seq<Node>)
      requires Valid() && n in d.nodes && (status.Running? || status.Completed?)
      requires HasWalk(d, n, length) && Forward(d, nextNodes, length + 1)
      modifies this
      ensures Valid() && Grown(old(retries), retries)
      ensures Forward(d, nextNodes', length + 1) && Exist(d, nextNodes)
      ensures NodeEnd(Come(), exit, nextNodes') == NodeRun(d, oracle, old(Come()), round, index, n, attempt, nextNodes)
      ensures exit.Returned? ==> status.Running? || status.Completed?
      ensures exit.Threw? ==> status.Failed? || status.Completed?
      ensures exit.Threw? && old(status).Running? && Simple(d, oracle, old(currentNodes)) ==> status.Failed?
      ensures exit.Returned? && old(status).Running? && Simple(d, oracle, old(currentNodes)) ==>
                status.Running? || (!NoRollback(d) && nextNodes' == nextNodes)
      ensures Sequential(d, oracle) ==> |nextNodes'| <= |nextNodes| + 1
      ensures old(trace) <= trace
      ensures var s := Settle(d.nodes[n], Attempts(oracle, round, index, n), attempt, old(retries));
              match Follow(d.nodes[n], s.0)
              case Goes(nodes) =>
                exit.Returned? && nextNodes' == nextNodes + nodes && retries == s.1 &&
                  unchanged(`status, `currentNodes, `rounds, `trace)
              case Ends(e) =>
                var first := FirstOf(old(currentNodes));
                if RollsBack(d.nodes[n], s.1, first) then
                  Begins(old(trace), [d.nodes[n].rollbackTo.value], trace) && Grown(Bump(s.1, first), retries)
                else
                  exit == Threw(e) && unchanged(`currentNodes, `rounds, `trace) &&
                  retries == (if d.nodes[n].rollbackTo.Some? then Bump(s.1, first) else s.1) &&
                  status == if d.nodes[n].rollbackTo.Some? then Failed else Transition(old(status), Fail)
      decreases Unspent(d, retries), 2
    {
      hide Sound, HasWalk, Forward, Unspent, Exist, Grown, CanRetry, Settle, Bump, Count, EdgesTo, Sequential,
        NoRollback, ValidDefinition;
      ForwardExist(d, nextNodes, length + 1);
      NodeRunStep(d, oracle, Come(), round, index, n, attempt, nextNodes);
      hide NodeRun, JumpRun;
      LimitedNode(d, oracle, n);
      var node := d.nodes[n];
      var outcome := oracle(round, index, n, attempt);
      SettleStep(node, Attempts(oracle, round, index, n), attempt, retries);
      if outcome.Success? {
        GrownSelf(retries);
        SuccessEdges(d, oracle, round, index, n, attempt);
        ForwardAppend(d, nextNodes, n, outcome.next, length);
        return Returned, nextNodes + outcome.next;
      }
      if CanRetry(node, outcome, retries) {
        RetrySpends(d, oracle, n, outcome, retries);
        retries := Bump(retries, Some(node.id));
        exit, nextNodes' := ExecuteNode(round, index, n, attempt + 1, nextNodes, length);
        GrownBump(old(retries), Some(node.id), retries);
        return;
      }
      GrownSelf(retries);
      FailureEdges(d, oracle, n);
      if node.failureNext != [] {
        ForwardAppend(d, nextNodes, n, node.failureNext, length);
        return Returned, nextNodes + node.failureNext;
      }
      if node.rollbackTo.Some? {
        var success, thrown := RollBack(n, node.rollbackTo.value, MaxRollbacks(node));
        if thrown.Threw? { return thrown, nextNodes; }
        if !success {
          status := Transition(status, Fail);
          return Threw(NodeFailed(outcome)), nextNodes;
        }
        return Returned, nextNodes;
      }
      status := Transition(status, Fail);
      return Threw(NodeFailed(outcome)), nextNodes;
    }

    // Jumps back to a node and runs on from there, unless the counter of the
    // first active node passes its bound.
    method RollBack(ghost from: Node, to: Node, maxRetries: int) returns (success: bool, thrown: Exit)
      requires Valid() && from in d.nodes && maxRetries == MaxRollbacks(d.nodes[from])
      requires status.Running? || status.Completed?
      modifies this
      ensures Valid() && Grown(old(retries), retries)
      ensures JumpEnd(Come(), success, thrown) == JumpRun(d, oracle, old(Come()), from, to)
      ensures to !in d.nodes ==> thrown == Threw(TargetMissing(to)) && unchanged(this)
      ensures to in d.nodes ==>
                (thrown.Returned? && !success <==> old(Count(retries, FirstOf(currentNodes))) >= maxRetries)
      ensures to in d.nodes && !(thrown.Returned? && !success) ==>
                Grown(Bump(old(retries), FirstOf(old(currentNodes))), retries) &&
                Begins(old(trace), [to], trace)
      ensures thrown.Returned? && !success ==>
                retries == Bump(old(retries), FirstOf(old(currentNodes))) && unchanged(`currentNodes, `rounds, `trace)
      ensures thrown.Returned? && success ==> status.Completed? && currentNodes == []
      ensures thrown.Returned? && !success ==> status.Failed? && maxRetriesReached
      ensures thrown.Threw? && to in d.nodes ==> status.Failed? || status.Completed?
      ensures thrown.Threw? && to in d.nodes && Sequential(d, oracle) ==> status.Failed?
      decreases Unspent(d, retries), 1
    {
      JumpRunStep(d, oracle, Come(), from, to);
      hide Sound, Unspent, Grown, Bump, Count, Sequential, NoRollback, JumpRun, InstanceRun, NodeRun, Transition,
        MaxRollbacks;
      if to !in d.nodes {
        GrownSelf(retries);
        return false, Threw(TargetMissing(to));
      }
      var rollbackFrom := FirstOf(currentNodes);
      GrownBump(retries, rollbackFrom, retries);
      GrownSelf(Bump(retries, rollbackFrom));
      if Count(retries, rollbackFrom) + 1 > maxRetries {
        retries := Bump(retries, rollbackFrom);
        status := Failed;
        maxRetriesReached := true;
        return false, Returned;
      }
      ghost var before := retries;
      thrown := JumpBack(from, to);
      GrownBump(before, rollbackFrom, retries);
      success := true;
    }

    method JumpBack(ghost from: Node, to: Node) returns (thrown: Exit)
      requires Valid() && from in d.nodes && to in d.nodes
      requires Count(retries, FirstOf(currentNodes)) + 1 <= MaxRollbacks(d.nodes[from])
      modifies this
      ensures Valid() && Grown(Bump(old(retries), FirstOf(old(currentNodes))), retries)
      ensures var s := old(Come());
              var t := s.(retries := Bump(s.retries, FirstOf(s.batch)), batch := [to],
                          status := Transition(s.status, Rollback));
              var e := InstanceRun(d, oracle, t);
              Exist(d, [to]) && Come() == e.run.(jumped := e.run.jumped || e.exit.Returned?) && thrown == e.exit
      ensures Begins(old(trace), [to], trace)
      ensures if thrown.Returned? then status.Completed? && currentNodes == [] else status.Failed? || status.Completed?
      ensures thrown.Threw? && Sequential(d, oracle) ==> status.Failed?
      decreases Unspent(d, retries), 0
    {
      hide Sound, Unspent, Grown, Bump, Count, Sequential, NoRollback, JumpRun, InstanceRun, NodeRun, Transition,
        MaxRollbacks, Begins;
      var rollbackFrom := FirstOf(currentNodes);
      RollbackSpends(d, oracle, currentNodes, from, retries);
      retries := Bump(retries, rollbackFrom);
      currentNodes := [to];
      status := Transition(status, Rollback);
      thrown := Execute();
      if thrown.Returned? { jumped := true; }
    }

    // One round: the nodes of the batch in order, then the next batch.
    method RunBatch(ghost length: nat) returns (done: bool, thrown: Exit)
      requires Valid() && currentNodes != [] && (status.Running? || status.Completed?)
      requires Forward(d, currentNodes, length)
      modifies this
      ensures Valid() && Grown(old(retries), retries)
      ensures RunEnd(Come(), thrown) == BatchRun(d, oracle, old(Come()))
      ensures thrown.Threw? ==> status.Failed? || status.Completed?
      ensures thrown.Threw? && old(status).Running? && Simple(d, oracle, old(currentNodes)) ==> status.Failed?
      ensures thrown.Returned? ==> Forward(d, currentNodes, length + 1) && (done <==> currentNodes == [])
      ensures thrown.Returned? ==> status.Completed? || (!done && status.Running?)
      ensures thrown.Returned? && !done && old(status).Running? && Simple(d, oracle, old(currentNodes)) ==>
                status.Running? && Simple(d, oracle, currentNodes)
      ensures thrown.Returned? ==> Distinct(currentNodes)
      ensures Begins(old(trace), old(currentNodes), trace)
      ensures NoRollback(d) ==>
                rounds == old(rounds) + 1 && trace == old(trace) + [old(currentNodes)] &&
                NextPoint(d, oracle, old(rounds), At(old(currentNodes), old(retries)))
                == if thrown.Threw? then Stopped(thrown.error, retries) else At(currentNodes, retries)
      decreases Unspent(d, retries), 4
    {
      hide Accepted, AllLimited, Routes, HasWalk, Forward, Unspent, Exist, Grown, Settle, Bump, Count, Sequential,
        NoRollback, Follow, VisitBatch, Dedupe, Distinct, NodeRun, VisitRun, Begins;
      var round, batch := rounds, currentNodes;
      rounds, trace := rounds + 1, trace + [currentNodes];
      GrownSelf(retries);
      ExistNone(d);
      var exit, nextNodes := VisitNodes(round, batch, length);
      BeginsHere(old(trace), batch, trace);
      if exit.Threw? { return false, exit; }
      currentNodes := DedupeNodes(nextNodes);
      DedupeForward(d, nextNodes, length + 1);
      done := currentNodes == [];
      thrown := Returned;
      if done { status := Transition(status, Complete); }
    }

    // The nodes of a batch in order, with what they add to the next one.
    method VisitNodes(round: nat, batch: seq<Node>, ghost length: nat) returns (exit: Exit, nextNodes: seq<Node>)
      requires Valid() && batch == currentNodes && (status.Running? || status.Completed?)
      requires Forward(d, batch, length) && Exist(d, [])
      modifies this
      ensures Valid() && Grown(old(retries), retries) && Forward(d, nextNodes, length + 1) && Exist(d, nextNodes)
      ensures NodeEnd(Come(), exit, nextNodes) == VisitRun(d, oracle, old(Come()), round, batch, 0, [])
      ensures exit.Returned? ==> status.Running? || status.Completed?
      ensures exit.Threw? ==> status.Failed? || status.Completed?
      ensures exit.Threw? && old(status).Running? && Simple(d, oracle, batch) ==> status.Failed?
      ensures old(trace) <= trace
      ensures exit.Returned? && old(status).Running? && Simple(d, oracle, batch) ==>
                status.Running? || (!NoRollback(d) && nextNodes == [])
      ensures exit.Returned? && Sequential(d, oracle) ==> |nextNodes| <= |batch|
      ensures NoRollback(d) ==>
                rounds == old(rounds) && trace == old(trace) && AllLimited(d) &&
                VisitBatch(d, oracle, round, batch, 0, old(retries), [])
                == if exit.Threw? then Fails(exit.error, retries) else Proceeds(nextNodes, retries)
      decreases Unspent(d, retries), 3
    {
      hide Accepted, AllLimited, Routes, HasWalk, Forward, Unspent, Exist, Grown, Settle, Bump, Count, Sequential,
        NoRollback, Follow, VisitBatch, Dedupe, Distinct, NodeRun, VisitRun, Begins;
      nextNodes := [];
      ghost var visited := VisitRun(d, oracle, Come(), round, batch, 0, nextNodes);
      GrownSelf(retries);
      UnspentGrown(d, retries, retries);
      ForwardNone(d, length + 1);
      var i := 0;
      while i < |batch|
        invariant 0 <= i <= |batch| && Valid() && Grown(old(retries), retries) && Forward(d, nextNodes, length + 1)
        invariant Unspent(d, retries) <= Unspent(d, old(retries))
        invariant Exist(d, nextNodes) && visited == VisitRun(d, oracle, Come(), round, batch, i, nextNodes)
        invariant status.Running? || status.Completed?
        invariant i == 0 || NoRollback(d) ==> status == old(status) && currentNodes == batch
        invariant old(trace) <= trace
        invariant old(status).Running? && Simple(d, oracle, batch) ==>
                    status.Running? || (!NoRollback(d) && nextNodes == [])
        invariant Sequential(d, oracle) ==> |nextNodes| <= i
        invariant NoRollback(d) ==>
                    rounds == old(rounds) && trace == old(trace) &&
                    VisitBatch(d, oracle, round, batch, 0, old(retries), [])
                    == VisitBatch(d, oracle, round, batch, i, retries, nextNodes)
      {
        VisitStep(d, oracle, round, batch, i, retries, nextNodes);
        VisitRunStep(d, oracle, Come(), round, batch, i, nextNodes);
        if batch[i] in d.nodes {
          ghost var before := retries;
          ForwardAt(d, batch, i, length);
          NoRollbackAt(d, batch[i]);
          exit, nextNodes := ExecuteNode(round, i, batch[i], 0, nextNodes, length);
          UnspentGrown(d, before, retries);
          GrownTrans(old(retries), before, retries);
          if exit.Threw? { return; }
        }
        i := i + 1;
      }
      VisitPast(d, oracle, round, batch, i, retries, nextNodes);
      VisitRunPast(d, oracle, Come(), round, batch, i, nextNodes);
      exit := Returned;
    }

    method Begin()
      modifies `status, `jumped
      ensures status.Running? && !jumped
    {
      if status.Pending? || status.RolledBack? { status := Transition(status, Start); }
      if !status.Running? { status := Running; }
      jumped := false;
    }

    // Runs the instance until no node is active or a failure is not handled.
    method Execute() returns (exit: Exit)
      requires Valid()
      modifies this
      ensures Valid() && Grown(old(retries), retries)
      ensures RunEnd(Come(), exit) == InstanceRun(d, oracle, old(Come()))
      ensures exit.Returned? ==>
                currentNodes == [] && if old(currentNodes) != [] then status.Completed? else status.Running?
      ensures exit.Threw? ==> status.Failed? || status.Completed?
      ensures exit.Threw? && Simple(d, oracle, old(currentNodes)) ==> status.Failed?
      ensures if old(currentNodes) == [] then trace == old(trace) else Begins(old(trace), old(currentNodes), trace)
      ensures NoRollback(d) ==>
                var k, start := rounds - old(rounds), At(old(currentNodes), old(retries));
                0 <= k <= |d.nodes| &&
                trace == old(trace) + Batches(d, oracle, start, old(rounds), k) &&
                PointAt(d, oracle, start, old(rounds), k)
                == if exit.Threw? then Stopped(exit.error, retries) else At([], retries)
      decreases Unspent(d, retries), 5
    {
      hide Accepted, AllLimited, Routes, HasWalk, Forward, Unspent, Exist, Grown, Bump, Count, Simple, Sequential,
        NoRollback, NextPoint, PointAt, Batches, Distinct, Begins, LoopRun, BatchRun, VisitRun, NodeRun, JumpRun;
      Begin();
      ghost var ends := LoopRun(d, oracle, Come(), 0);
      ghost var k: nat := 0;
      ghost var start := At(currentNodes, retries);
      GrownSelf(retries);
      UnspentGrown(d, retries, retries);
      ForwardStart(d, currentNodes);
      PointStep(d, oracle, start, rounds, 0);
      hide Sound;
      while currentNodes != []
        invariant Valid() && Grown(old(retries), retries) && Unspent(d, retries) <= Unspent(d, old(retries))
        invariant ends == LoopRun(d, oracle, Come(), k)
        invariant status.Running? || status.Completed?
        invariant if k == 0 then currentNodes == old(currentNodes) && status.Running?
                  else old(currentNodes) != [] && (currentNodes == [] ==> status.Completed?)
        invariant if k == 0 then trace == old(trace) else Begins(old(trace), old(currentNodes), trace)
        invariant currentNodes != [] && Simple(d, oracle, old(currentNodes)) ==>
                    status.Running? && Simple(d, oracle, currentNodes)
        invariant Forward(d, currentNodes, k + 1) && k <= |d.nodes|
        invariant NoRollback(d) ==>
                    rounds == old(rounds) + k &&
                    trace == old(trace) + Batches(d, oracle, start, old(rounds), k) &&
                    PointAt(d, oracle, start, old(rounds), k) == At(currentNodes, retries)
        decreases |d.nodes| + 1 - k
      {
        ForwardAccepted(d, oracle, currentNodes, k + 1);
        LoopRunStep(d, oracle, Come(), k);
        PointStep(d, oracle, start, old(rounds), k);
        ghost var before, batch, seen := retries, currentNodes, trace;
        var done, thrown := RunBatch(k + 1);
        if k > 0 { BeginsMore(old(trace), old(currentNodes), seen, batch, trace); }
        UnspentGrown(d, before, retries);
        GrownTrans(old(retries), before, retries);
        k := k + 1;
        if thrown.Threw? { return thrown; }
      }
      LoopRunEnd(d, oracle, Come(), k);
      return Returned;
    }
  }
}
