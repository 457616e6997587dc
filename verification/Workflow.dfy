/** Workflow definitions: what the validator checks and the orchestrator runs. */
module Workflow {
  import opened Basics
  import opened Graph

  datatype Kind = Approval | Join | OtherKind

  // `maximumAttempts` 0 (the default) means no limit.
  datatype RetryPolicy = RetryPolicy(maximumAttempts: int, nonRetryableErrors: seq<string>)

  // An optional target is None when absent or empty: the source tests truthiness.
  datatype TaskNode = TaskNode(
    id: Node,
    kind: Kind,
    next: seq<Node>,
    failureNext: seq<Node>,
    conditionalTargets: seq<Option<Node>>,
    defaultNext: Option<Node>,
    approvedTarget: Option<Node>,
    rejectedTarget: Option<Node>,
    waitFor: seq<Node>,
    rollbackTo: Option<Node>,
    maxRetries: Option<int>,
    retryPolicy: Option<RetryPolicy>)

  // `order` is the order of the keys of `nodes`.
  datatype Definition = Definition(order: seq<Node>, nodes: map<Node, TaskNode>, startNode: Node)

  ghost predicate ValidDefinition(d: Definition) {
    Distinct(d.order) && (forall n :: n in d.nodes <==> n in d.order)
  }

  function Optional(n: Option<Node>): seq<Node> {
    if n.Some? then [n.value] else []
  }

  // An empty target names no node.
  function Present(targets: seq<Option<Node>>): seq<Node> {
    if targets == [] then [] else Optional(targets[0]) + Present(targets[1..])
  }

  // The targets the cycle check collects, in order and with repetitions.
  function Targets(node: TaskNode): seq<Node> {
    node.next + node.failureNext + Present(node.conditionalTargets) + Optional(node.defaultNext)
    + if node.kind.Approval? then Optional(node.approvedTarget) + Optional(node.rejectedTarget) else []
  }

  // The targets the reachability check follows: not those of approvals.
  function VisitedTargets(node: TaskNode): seq<Node> {
    node.next + node.failureNext + Present(node.conditionalTargets) + Optional(node.defaultNext)
  }

  function Existing(d: Definition, targets: seq<Node>): seq<Node> {
    if targets == [] then []
    else (if targets[0] in d.nodes then [targets[0]] else []) + Existing(d, targets[1..])
  }

  // The edge multigraph of the cycle check.
  function Collected(d: Definition): Graph {
    map n | n in d.nodes :: Existing(d, Targets(d.nodes[n]))
  }

  // The graph of the reachability check; targets may dangle.
  function Visited(d: Definition): Graph {
    map n | n in d.nodes :: VisitedTargets(d.nodes[n])
  }

  lemma {:induction false} ExistingMembers(d: Definition, targets: seq<Node>, n: Node)
    ensures n in Existing(d, targets) <==> n in targets && n in d.nodes
    decreases |targets|
  {
    if targets != [] {
      assert targets == [targets[0]] + targets[1..];
      ExistingMembers(d, targets[1..], n);
    }
  }

  lemma {:induction false} ExistingConcat(d: Definition, a: seq<Node>, b: seq<Node>)
    ensures Existing(d, a + b) == Existing(d, a) + Existing(d, b)
    decreases |a|
  {
    if a == [] {
      assert a + b == b;
    } else {
      assert (a + b)[1..] == a[1..] + b;
      ExistingConcat(d, a[1..], b);
    }
  }
}
