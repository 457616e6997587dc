/** Where one node of a run leads, by what its attempts do and what its definition says. */
module NodeOutcomes {
  import opened Basics
  import opened Graph
  import opened Workflow
  import opened SchemaValidator
  import opened References
  import opened RetryPolicies
  import opened StateMachine
  import opened Orchestrator

  function Made(r: Retries, id: Node): nat {
    if Some(id) in r then r[Some(id)] else 0
  }

  // The policy has an attempt left after so many, and does not list the failure.
  ghost predicate Again(node: TaskNode, made: nat, o: Outcome) {
    o.Failure? && node.retryPolicy.Some? && made < node.retryPolicy.value.maximumAttempts &&
    !Listed(o, node.retryPolicy.value)
  }

  // The node is tried again after each of the first k attempts and not after
  // the next one.
  ghost predicate TriedAgain(d: Definition, oracle: Oracle, round: nat, index: nat, n: Node, attempt: nat, made: nat,
                             k: nat)
    requires n in d.nodes
    decreases k
  {
    if k == 0 then !Again(d.nodes[n], made, oracle(round, index, n, attempt))
    else
      Again(d.nodes[n], made, oracle(round, index, n, attempt)) &&
      TriedAgain(d, oracle, round, index, n, attempt + 1, made + 1, k - 1)
  }

  // What a settled outcome leads to: its successors, the failure targets of the
  // node, a jump to its rollback target, or the end of the run.
  ghost function LeadsTo(d: Definition, oracle: Oracle, s: Run, n: Node, o: Outcome, next: seq<Node>): NodeEnd
    requires Sound(d, oracle) && Exist(d, s.batch) && n in d.nodes
  {
    var node := d.nodes[n];
    match o
    case Success(successors) => NodeEnd(s, Returned, next + successors)
    case Failure(_, _) =>
      if |node.failureNext| > 0 then NodeEnd(s, Returned, next + node.failureNext)
      else
        match node.rollbackTo
        case None => NodeEnd(if s.status.Running? then s.(status := Failed) else s, Threw(NodeFailed(o)), next)
        case Some(to) =>
          var j := JumpRun(d, oracle, s, n, to);
          if j.exit.Threw? then NodeEnd(j.run, j.exit, next)
          else if j.success then NodeEnd(j.run, Returned, next)
          else NodeEnd(if j.run.status.Running? then j.run.(status := Failed) else j.run, Threw(NodeFailed(o)), next)
  }

  lemma FailOnlyRunning(status: Status)
    ensures Transition(status, Fail) == if status.Running? then Failed else status
  {}

  lemma CanRetryIff(node: TaskNode, o: Outcome, r: Retries)
    requires Limited(node) && o.Failure?
    ensures CanRetry(node, o, r) <==> Again(node, Made(r, node.id), o)
  {
    if node.retryPolicy.Some? { ListedIff(o, node.retryPolicy.value); }
    hide IsRetryable, Listed;
  }

  // However often the node is tried again, it then leads where its last
  // attempt does, with its counter that much higher.
  lemma {:induction false} NodeLeads(d: Definition, oracle: Oracle, s: Run, round: nat, index: nat, n: Node,
                                     attempt: nat, next: seq<Node>, k: nat)
    requires Sound(d, oracle) && Exist(d, s.batch) && Exist(d, next) && n in d.nodes
    requires TriedAgain(d, oracle, round, index, n, attempt, Made(s.retries, d.nodes[n].id), k)
    ensures var id, made := d.nodes[n].id, Made(s.retries, d.nodes[n].id);
            var t := if k == 0 then s else s.(retries := s.retries[Some(id) := made + k]);
            NodeRun(d, oracle, s, round, index, n, attempt, next)
            == LeadsTo(d, oracle, t, n, oracle(round, index, n, attempt + k), next)
    decreases k
  {
    hide Sound, Exist, NodeRun, JumpRun, CanRetry, Listed;
    var node, o := d.nodes[n], oracle(round, index, n, attempt);
    NodeRunStep(d, oracle, s, round, index, n, attempt, next);
    LimitedNode(d, oracle, n);
    if o.Failure? { CanRetryIff(node, o, s.retries); }
    if k == 0 {
      assert attempt + 0 == attempt;
      FailOnlyRunning(s.status);
      if o.Failure? && node.rollbackTo.Some? {
        FailOnlyRunning(JumpRun(d, oracle, s, n, node.rollbackTo.value).run.status);
      }
    } else {
      var made := Made(s.retries, node.id);
      var t := s.(retries := s.retries[Some(node.id) := made + 1]);
      assert t.retries == Bump(s.retries, Some(node.id));
      NodeLeads(d, oracle, t, round, index, n, attempt + 1, next, k - 1);
      assert t.retries[Some(node.id) := made + 1 + (k - 1)] == s.retries[Some(node.id) := made + k];
    }
  }

  // A jump is made as often as the node that fails allows, twice unless it says
  // otherwise, counted by the first active node; the next one fails the
  // instance.
  lemma JumpsAllowed(d: Definition, oracle: Oracle, s: Run, from: Node, to: Node)
    requires Sound(d, oracle) && Exist(d, s.batch) && from in d.nodes && to in d.nodes && s.batch != []
    ensures var allowed, made := (if d.nodes[from].maxRetries.Some? then d.nodes[from].maxRetries.value else 2),
                                 Made(s.retries, s.batch[0]);
            var raised := s.(retries := s.retries[Some(s.batch[0]) := made + 1]);
            JumpRun(d, oracle, s, from, to) ==
            if made < allowed then
              var t := raised.(batch := [to],
                               status := if s.status.Running? || s.status.Failed? then RolledBack else s.status);
              assert Exist(d, [to]);
              var e := InstanceRun(d, oracle, t);
              JumpEnd(e.run.(jumped := e.run.jumped || e.exit.Returned?), true, e.exit)
            else JumpEnd(raised.(status := Failed, maxReached := true), false, Returned)
  {
    hide Sound, JumpRun, InstanceRun;
    JumpRunStep(d, oracle, s, from, to);
    assert Exist(d, [to]);
  }
}
