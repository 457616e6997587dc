/**
 The reachability check does not follow the targets of approvals, which the
 cycle check collects: when its warnings are right none the less.
 */
module ApprovalWarnings {
  import opened Basics
  import opened Graph
  import opened Workflow
  import opened SchemaValidator

  // All targets, those of approvals included; they may dangle.
  function Followed(d: Definition): Graph {
    map n | n in d.nodes :: Targets(d.nodes[n])
  }

  function ApprovalTargets(node: TaskNode): seq<Node> {
    if node.kind.Approval? then Optional(node.approvedTarget) + Optional(node.rejectedTarget) else []
  }

  lemma FollowedEdge(d: Definition, u: Node, v: Node)
    ensures Edge(Followed(d), u, v) <==> Edge(Visited(d), u, v) || (u in d.nodes && v in ApprovalTargets(d.nodes[u]))
  {}

  // Every existing target of an approval that the check reaches is reached
  // over other targets too.
  ghost predicate ApprovalsCovered(d: Definition) {
    forall n, t ::
      n in d.nodes && Reaches(Visited(d), d.startNode, n) && t in ApprovalTargets(d.nodes[n]) && t in d.nodes ==>
      Reaches(Visited(d), d.startNode, t)
  }

  ghost predicate WarningsRight(d: Definition) {
    forall n :: n in d.nodes ==> (Reaches(Visited(d), d.startNode, n) <==> Reaches(Followed(d), d.startNode, n))
  }

  lemma {:induction false} VisitedWalk(d: Definition, w: seq<Node>)
    requires IsWalk(Visited(d), w)
    ensures IsWalk(Followed(d), w)
  {}

  lemma VisitedReaches(d: Definition, n: Node)
    requires Reaches(Visited(d), d.startNode, n)
    ensures Reaches(Followed(d), d.startNode, n)
  {
    hide Visited, Followed;
    var w :| WalkFromTo(Visited(d), w, d.startNode, n);
    VisitedWalk(d, w);
    assert WalkFromTo(Followed(d), w, d.startNode, n);
  }

  // A walk over all targets that ends at an existing node stays within what
  // the check reaches.
  lemma {:induction false} FollowedWalk(d: Definition, w: seq<Node>)
    requires ApprovalsCovered(d) && IsWalk(Followed(d), w) && w[0] == d.startNode && w[|w|-1] in d.nodes
    ensures Reaches(Visited(d), d.startNode, w[|w|-1])
    decreases |w|
  {
    hide ApprovalTargets, VisitedTargets, Targets, Reaches;
    if |w| == 1 {
      ReachesSelf(Visited(d), d.startNode);
    } else {
      var front, last := w[..|w|-1], w[|w|-1];
      var u := front[|front|-1];
      assert Edge(Followed(d), w[|w|-2], w[|w|-1]);
      FollowedWalk(d, front);
      FollowedEdge(d, u, last);
      hide Visited;
      if Edge(Visited(d), u, last) { ReachesStep(Visited(d), d.startNode, u, last); }
    }
  }

  // The warnings name exactly the nodes no walk over all targets reaches if
  // and only if approvals are covered.
  lemma WarningsRightIff(d: Definition)
    ensures WarningsRight(d) <==> ApprovalsCovered(d)
  {
    hide ApprovalTargets, Visited, Followed;
    if ApprovalsCovered(d) {
      forall n | n in d.nodes
        ensures Reaches(Visited(d), d.startNode, n) <==> Reaches(Followed(d), d.startNode, n)
      {
        if Reaches(Followed(d), d.startNode, n) {
          var w :| WalkFromTo(Followed(d), w, d.startNode, n);
          FollowedWalk(d, w);
        }
        if Reaches(Visited(d), d.startNode, n) { VisitedReaches(d, n); }
      }
    }
    if WarningsRight(d) {
      hide Reaches;
      forall n, t | n in d.nodes && Reaches(Visited(d), d.startNode, n) && t in ApprovalTargets(d.nodes[n]) &&
        t in d.nodes
        ensures Reaches(Visited(d), d.startNode, t)
      {
        FollowedEdge(d, n, t);
        ReachesStep(Followed(d), d.startNode, n, t);
      }
    }
  }

  function Bare(id: Node): TaskNode {
    TaskNode(id, OtherKind, [], [], [], None, None, None, [], None, None, None)
  }

  // An approval that alone leads to a second node.
  function ApprovalOnly(a: Node, b: Node): Definition {
    Definition([a, b], map[b := Bare(b), a := Bare(a).(kind := Approval, approvedTarget := Some(b))], a)
  }

  // Its second node is warned of, although the approval leads there.
  lemma ApprovalTargetMissed(a: Node, b: Node)
    requires a != b
    ensures var d := ApprovalOnly(a, b);
            ValidDefinition(d) && Reaches(Followed(d), d.startNode, b) && !Reaches(Visited(d), d.startNode, b) &&
              !WarningsRight(d)
  {
    var d := ApprovalOnly(a, b);
    assert Edge(Followed(d), a, b);
    assert WalkFromTo(Followed(d), [a, b], a, b);
    forall w
      ensures !WalkFromTo(Visited(d), w, a, b)
    {
      if |w| >= 2 && w[0] == a { assert !Edge(Visited(d), w[0], w[1]); }
    }
  }
}
