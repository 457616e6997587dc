/** The reference check of the workflow validator, and what an accepted definition guarantees. */
module References {
  import opened Basics
  import opened Graph
  import opened Workflow
  import opened SchemaValidator

  datatype Field =
    | StartNode | Next | FailureNext | ConditionalTarget | DefaultNext
    | RollbackTo | ApprovedTarget | RejectedTarget | WaitFor

  // `owner` is the node that refers, and the start node itself for StartNode.
  datatype Reference = Reference(owner: Node, field: Field, index: nat, target: Node)

  // The target of a field at an index, if the field has one there.
  function TargetAt(d: Definition, owner: Node, field: Field, index: nat): Option<Node> {
    if field.StartNode? then if owner == d.startNode && index == 0 then Some(d.startNode) else None
    else if owner !in d.nodes then None
    else FieldAt(d.nodes[owner], field, index)
  }

  function FieldAt(node: TaskNode, field: Field, index: nat): Option<Node> {
    match field
    case StartNode => None
    case Next => if index < |node.next| then Some(node.next[index]) else None
    case FailureNext => if index < |node.failureNext| then Some(node.failureNext[index]) else None
    case ConditionalTarget => if index < |node.conditionalTargets| then node.conditionalTargets[index] else None
    case DefaultNext => if index == 0 then node.defaultNext else None
    case RollbackTo => if index == 0 then node.rollbackTo else None
    case ApprovedTarget => if index == 0 && node.kind.Approval? then node.approvedTarget else None
    case RejectedTarget => if index == 0 && node.kind.Approval? then node.rejectedTarget else None
    case WaitFor => if node.kind.Join? && index < |node.waitFor| then Some(node.waitFor[index]) else None
  }

  // A reference of the definition to a node that does not exist.
  predicate Dangling(d: Definition, r: Reference) {
    TargetAt(d, r.owner, r.field, r.index) == Some(r.target) && r.target !in d.nodes
  }

  function AsTargets(targets: seq<Node>): seq<Option<Node>> {
    if targets == [] then [] else [Some(targets[0])] + AsTargets(targets[1..])
  }

  lemma {:induction false} AsTargetsAt(targets: seq<Node>)
    ensures |AsTargets(targets)| == |targets|
    ensures forall i :: 0 <= i < |targets| ==> AsTargets(targets)[i] == Some(targets[i])
    decreases |targets|
  {
    if targets != [] { AsTargetsAt(targets[1..]); }
  }

  // The targets of one field in order.
  function FieldTargets(node: TaskNode, field: Field): seq<Option<Node>> {
    match field
    case StartNode => []
    case Next => AsTargets(node.next)
    case FailureNext => AsTargets(node.failureNext)
    case ConditionalTarget => node.conditionalTargets
    case DefaultNext => [node.defaultNext]
    case RollbackTo => [node.rollbackTo]
    case ApprovedTarget => if node.kind.Approval? then [node.approvedTarget] else []
    case RejectedTarget => if node.kind.Approval? then [node.rejectedTarget] else []
    case WaitFor => if node.kind.Join? then AsTargets(node.waitFor) else []
  }

  lemma FieldTargetsAt(node: TaskNode, field: Field, index: nat)
    ensures FieldAt(node, field, index)
            == if index < |FieldTargets(node, field)| then FieldTargets(node, field)[index] else None
  {
    AsTargetsAt(node.next);
    AsTargetsAt(node.failureNext);
    AsTargetsAt(node.waitFor);
    hide AsTargets;
  }

  const NODE_FIELDS := [Next, FailureNext, ConditionalTarget, DefaultNext, RollbackTo, ApprovedTarget, RejectedTarget,
                        WaitFor]

  method CheckField(d: Definition, n: Node, field: Field, errors: seq<Reference>) returns (errors': seq<Reference>)
    requires n in d.nodes && !field.StartNode?
    ensures errors <= errors'
    ensures forall r :: r in errors' <==> r in errors || (Dangling(d, r) && r.owner == n && r.field == field)
  {
    errors' := errors;
    var targets := FieldTargets(d.nodes[n], field);
    var i := 0;
    while i < |targets|
      invariant 0 <= i <= |targets| && errors <= errors'
      invariant forall r :: r in errors' <==>
                  r in errors || (Dangling(d, r) && r.owner == n && r.field == field && r.index < i)
    {
      FieldTargetsAt(d.nodes[n], field, i);
      hide FieldAt, FieldTargets;
      if targets[i].Some? && targets[i].value !in d.nodes {
        errors' := errors' + [Reference(n, field, i, targets[i].value)];
      }
      i := i + 1;
    }
    forall r | Dangling(d, r) && r.owner == n && r.field == field
      ensures r.index < |targets|
    {
      FieldTargetsAt(d.nodes[n], field, r.index);
    }
    hide FieldAt, FieldTargets;
  }

  // Every dangling reference is reported, and nothing else is.
  method ValidateNodeReferences(d: Definition) returns (errors: seq<Reference>)
    requires ValidDefinition(d)
    ensures forall r :: r in errors <==> Dangling(d, r)
  {
    errors := [];
    if d.startNode !in d.nodes { errors := [Reference(d.startNode, StartNode, 0, d.startNode)]; }
    assert forall r :: r in errors <==> Dangling(d, r) && r.field.StartNode?;
    var i := 0;
    while i < |d.order|
      invariant 0 <= i <= |d.order|
      invariant forall r :: r in errors <==> Dangling(d, r) && (r.field.StartNode? || r.owner in d.order[..i])
    {
      var n := d.order[i];
      assert d.order[..i+1] == d.order[..i] + [n];
      ghost var before := errors;
      var j := 0;
      while j < |NODE_FIELDS|
        invariant 0 <= j <= |NODE_FIELDS|
        invariant forall r :: r in errors <==>
                    r in before || (Dangling(d, r) && r.owner == n && r.field in NODE_FIELDS[..j])
      {
        hide Dangling;
        assert NODE_FIELDS[..j+1] == NODE_FIELDS[..j] + [NODE_FIELDS[j]];
        errors := CheckField(d, n, NODE_FIELDS[j], errors);
        j := j + 1;
      }
      assert NODE_FIELDS[..j] == NODE_FIELDS;
      assert forall f: Field :: f.StartNode? || f in NODE_FIELDS;
      hide Dangling;
      i := i + 1;
    }
    assert d.order[..i] == d.order;
  }

  // ------------------------------------------------------------------- edges

  lemma {:induction false} PresentMembers(targets: seq<Option<Node>>, t: Node)
    ensures t in Present(targets) <==> exists i :: 0 <= i < |targets| && targets[i] == Some(t)
    decreases |targets|
  {
    if targets != [] {
      PresentMembers(targets[1..], t);
      assert targets == [targets[0]] + targets[1..];
      if t in Present(targets[1..]) {
        var i :| 0 <= i < |targets[1..]| && targets[1..][i] == Some(t);
        assert targets[i+1] == Some(t);
      }
      if exists i :: 0 < i < |targets| && targets[i] == Some(t) {
        var i :| 0 < i < |targets| && targets[i] == Some(t);
        assert targets[1..][i-1] == Some(t);
      }
    }
  }

  // A node that a field of a node names.
  ghost predicate Names(node: TaskNode, field: Field, t: Node) {
    exists i: nat :: FieldAt(node, field, i) == Some(t)
  }

  // The edges of the reachability check: what next, failure, conditional and
  // default targets name.
  lemma VisitedAreNamed(node: TaskNode, t: Node)
    ensures t in VisitedTargets(node) <==>
            Names(node, Next, t) || Names(node, FailureNext, t) || Names(node, ConditionalTarget, t) ||
            Names(node, DefaultNext, t)
  {
    ListNamed(node, t);
    PresentMembers(node.conditionalTargets, t);
    assert Names(node, ConditionalTarget, t) <==> t in Present(node.conditionalTargets) by {
      if t in Present(node.conditionalTargets) {
        var i: nat :| i < |node.conditionalTargets| && node.conditionalTargets[i] == Some(t);
        assert FieldAt(node, ConditionalTarget, i) == Some(t);
      }
    }
    assert Names(node, DefaultNext, t) <==> node.defaultNext == Some(t) by {
      if node.defaultNext == Some(t) { assert FieldAt(node, DefaultNext, 0) == Some(t); }
    }
    hide Names, Present;
  }

  lemma ListNamed(node: TaskNode, t: Node)
    ensures Names(node, Next, t) <==> t in node.next
    ensures Names(node, FailureNext, t) <==> t in node.failureNext
  {
    if t in node.next {
      var i: nat :| i < |node.next| && node.next[i] == t;
      assert FieldAt(node, Next, i) == Some(t);
    }
    if t in node.failureNext {
      var i: nat :| i < |node.failureNext| && node.failureNext[i] == t;
      assert FieldAt(node, FailureNext, i) == Some(t);
    }
  }

  lemma ApprovalNamed(node: TaskNode, t: Node)
    ensures Names(node, ApprovedTarget, t) <==> node.kind.Approval? && node.approvedTarget == Some(t)
    ensures Names(node, RejectedTarget, t) <==> node.kind.Approval? && node.rejectedTarget == Some(t)
  {
    if node.kind.Approval? && node.approvedTarget == Some(t) {
      assert FieldAt(node, ApprovedTarget, 0) == Some(t);
    }
    if node.kind.Approval? && node.rejectedTarget == Some(t) {
      assert FieldAt(node, RejectedTarget, 0) == Some(t);
    }
  }

  // The edges of the cycle check: those, and what the two targets of an
  // approval name, to nodes that exist.
  lemma CollectedAreNamed(d: Definition, n: Node, t: Node)
    ensures Edge(Collected(d), n, t) <==>
            n in d.nodes && t in d.nodes &&
            exists field :: Names(d.nodes[n], field, t) &&
                            field in {Next, FailureNext, ConditionalTarget, DefaultNext, ApprovedTarget, RejectedTarget}
  {
    if n in d.nodes {
      var node := d.nodes[n];
      VisitedAreNamed(node, t);
      ApprovalNamed(node, t);
      TargetsSplit(node, t);
      hide Names, Targets, VisitedTargets, Existing, FieldAt;
      ExistingMembers(d, Targets(node), t);
    }
  }

  lemma TargetsSplit(node: TaskNode, t: Node)
    ensures t in Targets(node) <==>
            t in VisitedTargets(node) ||
            (node.kind.Approval? && (node.approvedTarget == Some(t) || node.rejectedTarget == Some(t)))
  {
    hide Present;
  }

  // ---------------------------------------------------- accepted definitions

  // What the two checks together accept.
  ghost predicate Accepted(d: Definition) {
    ValidDefinition(d) && (forall r :: !Dangling(d, r)) && Acyclic(Collected(d))
  }

  method Validate(d: Definition) returns (valid: bool)
    requires ValidDefinition(d)
    ensures valid <==> Accepted(d)
  {
    hide Dangling, Acyclic, Collected;
    var references := ValidateNodeReferences(d);
    var cycles := DetectCircularDependencies(d);
    valid := references == [] && cycles == [];
    if references != [] { assert references[0] in references; }
  }

  // In an accepted definition the failure targets and the rollback target of
  // every node exist, and the failure targets are collected edges.
  lemma AcceptedTargets(d: Definition, n: Node)
    requires Accepted(d) && n in d.nodes
    ensures d.startNode in d.nodes
    ensures forall t <- d.nodes[n].failureNext :: t in d.nodes && Edge(Collected(d), n, t)
    ensures d.nodes[n].rollbackTo.Some? ==> d.nodes[n].rollbackTo.value in d.nodes
  {
    hide Targets, Existing, Acyclic;
    assert !Dangling(d, Reference(d.startNode, StartNode, 0, d.startNode));
    var node := d.nodes[n];
    forall t | t in node.failureNext
      ensures t in d.nodes && Edge(Collected(d), n, t)
    {
      var i :| 0 <= i < |node.failureNext| && node.failureNext[i] == t;
      assert !Dangling(d, Reference(n, FailureNext, i, t));
      FailureIsTarget(node, t);
      ExistingMembers(d, Targets(node), t);
    }
    if node.rollbackTo.Some? {
      assert !Dangling(d, Reference(n, RollbackTo, 0, node.rollbackTo.value));
    }
  }

  lemma FailureIsTarget(node: TaskNode, t: Node)
    requires t in node.failureNext
    ensures t in Targets(node)
  {}
}
