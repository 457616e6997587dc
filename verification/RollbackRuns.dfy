/** What a run with rollbacks leaves behind when it throws. */
module RollbackRuns {
  import opened Basics
  import opened Graph
  import opened Workflow
  import opened SchemaValidator
  import opened References
  import opened RetryPolicies
  import opened StateMachine
  import opened Orchestrator

  // Within a run: running, or completed by a rollback that has returned.
  predicate Going(s: Run) {
    !s.maxReached && s.status == if s.jumped then Completed else Running
  }

  // After a throw: completed exactly if a rollback had returned, and it was not
  // the bound on rollbacks that ended the run.
  predicate Thrown(s: Run) {
    s.status.Completed? <==> s.jumped && !s.maxReached
  }

  predicate Done(s: Run) {
    s.status.Completed? && !s.maxReached && s.batch == []
  }

  lemma {:induction false} NodeEnds(d: Definition, oracle: Oracle, s: Run, round: nat, index: nat, n: Node,
                                    attempt: nat, next: seq<Node>, length: nat)
    requires Sound(d, oracle) && Exist(d, s.batch) && Exist(d, next) && n in d.nodes
    requires Going(s) && HasWalk(d, n, length) && Forward(d, next, length + 1)
    ensures var e := NodeRun(d, oracle, s, round, index, n, attempt, next);
            Forward(d, e.next, length + 1) && if e.exit.Returned? then Going(e.run) else Thrown(e.run)
    decreases Unspent(d, s.retries), 1, 0
  {
    hide Sound, HasWalk, Forward, Exist, Unspent, NodeRun, JumpRun, CanRetry, Bump, EdgesTo, ValidDefinition,
      NoRollback, Sequential, Grown;
    NodeRunStep(d, oracle, s, round, index, n, attempt, next);
    var node, o := d.nodes[n], oracle(round, index, n, attempt);
    if o.Success? {
      SuccessEdges(d, oracle, round, index, n, attempt);
      ForwardAppend(d, next, n, o.next, length);
    } else if CanRetry(node, o, s.retries) {
      RetrySpends(d, oracle, n, o, s.retries);
      var t := s.(retries := Bump(s.retries, Some(node.id)));
      NodeEnds(d, oracle, t, round, index, n, attempt + 1, next, length);
    } else {
      FailureEdges(d, oracle, n);
      if node.failureNext != [] {
        ForwardAppend(d, next, n, node.failureNext, length);
      } else if node.rollbackTo.Some? {
        JumpEnds(d, oracle, s, n, node.rollbackTo.value);
      }
    }
  }

  lemma {:induction false} JumpEnds(d: Definition, oracle: Oracle, s: Run, from: Node, to: Node)
    requires Sound(d, oracle) && Exist(d, s.batch) && from in d.nodes && to in d.nodes && Going(s)
    ensures var j := JumpRun(d, oracle, s, from, to);
            if j.exit.Threw? then Thrown(j.run)
            else if j.success then Going(j.run)
            else j.run.status.Failed? && j.run.maxReached
    decreases Unspent(d, s.retries), 0, 0
  {
    hide Sound, Unspent, JumpRun, InstanceRun, Bump, Grown, MaxRollbacks, Count;
    JumpRunStep(d, oracle, s, from, to);
    var first := FirstOf(s.batch);
    if Count(s.retries, first) + 1 <= MaxRollbacks(d.nodes[from]) {
      RollbackSpends(d, oracle, s.batch, from, s.retries);
      var t := s.(retries := Bump(s.retries, first), batch := [to], status := Transition(s.status, Rollback));
      InstanceEnds(d, oracle, t);
    }
  }

  lemma {:induction false} InstanceEnds(d: Definition, oracle: Oracle, s: Run)
    requires Sound(d, oracle) && Exist(d, s.batch) && !s.maxReached && s.batch != []
    ensures var e := InstanceRun(d, oracle, s); if e.exit.Returned? then Done(e.run) else Thrown(e.run)
    decreases Unspent(d, s.retries), 4, 0
  {
    hide Sound, Unspent, LoopRun, Exist, Forward;
    ForwardStart(d, s.batch);
    LoopEnds(d, oracle, s.(status := Running, jumped := false), 0);
  }

  lemma {:induction false} LoopEnds(d: Definition, oracle: Oracle, s: Run, k: nat)
    requires Sound(d, oracle) && Exist(d, s.batch) && Forward(d, s.batch, k + 1)
    requires if s.batch == [] then Done(s) else Going(s)
    ensures var e := LoopRun(d, oracle, s, k); if e.exit.Returned? then Done(e.run) else Thrown(e.run)
    decreases Unspent(d, s.retries), 3, |d.nodes| + 1 - k
  {
    hide Sound, Unspent, LoopRun, BatchRun, Exist, Forward, Grown;
    if s.batch == [] {
      LoopRunEnd(d, oracle, s, k);
    } else {
      ForwardAccepted(d, oracle, s.batch, k + 1);
      LoopRunStep(d, oracle, s, k);
      BatchEnds(d, oracle, s, k + 1);
      var e := BatchRun(d, oracle, s);
      UnspentGrown(d, s.retries, e.run.retries);
      if e.exit.Returned? { LoopEnds(d, oracle, e.run, k + 1); }
    }
  }

  lemma {:induction false} BatchEnds(d: Definition, oracle: Oracle, s: Run, length: nat)
    requires Sound(d, oracle) && Exist(d, s.batch) && Forward(d, s.batch, length) && Going(s)
    ensures var e := BatchRun(d, oracle, s);
            if e.exit.Threw? then Thrown(e.run)
            else Forward(d, e.run.batch, length + 1) && if e.run.batch == [] then Done(e.run) else Going(e.run)
    decreases Unspent(d, s.retries), 2, |s.batch| + 1
  {
    hide Sound, Unspent, VisitRun, Exist, Forward, Grown, Dedupe;
    ExistNone(d);
    ForwardNone(d, length + 1);
    var t := s.(rounds := s.rounds + 1, trace := s.trace + [s.batch]);
    VisitEnds(d, oracle, t, s.rounds, s.batch, 0, [], length);
    DedupeForward(d, VisitRun(d, oracle, t, s.rounds, s.batch, 0, []).next, length + 1);
  }

  lemma {:induction false} VisitEnds(d: Definition, oracle: Oracle, s: Run, round: nat, batch: seq<Node>, i: nat,
                                     next: seq<Node>, length: nat)
    requires Sound(d, oracle) && Exist(d, s.batch) && Exist(d, next)
    requires Going(s) && Forward(d, batch, length) && Forward(d, next, length + 1)
    ensures var e := VisitRun(d, oracle, s, round, batch, i, next);
            Forward(d, e.next, length + 1) && if e.exit.Returned? then Going(e.run) else Thrown(e.run)
    decreases Unspent(d, s.retries), 2, |batch| - i
  {
    hide Sound, Unspent, VisitRun, NodeRun, Exist, Forward, HasWalk, Grown;
    if i >= |batch| {
      VisitRunPast(d, oracle, s, round, batch, i, next);
    } else {
      VisitRunStep(d, oracle, s, round, batch, i, next);
      ForwardAt(d, batch, i, length);
      NodeEnds(d, oracle, s, round, i, batch[i], 0, next, length);
      var e := NodeRun(d, oracle, s, round, i, batch[i], 0, next);
      UnspentGrown(d, s.retries, e.run.retries);
      if e.exit.Returned? { VisitEnds(d, oracle, e.run, round, batch, i + 1, e.next, length); }
    }
  }

  // A run that throws leaves the instance completed exactly when, since the
  // instance was last started, a rollback had returned into it, and the bound
  // on rollbacks was not what ended it; one that returns has completed it.
  lemma ThrowLeavesCompletedIff(d: Definition, oracle: Oracle, s: Run)
    requires Sound(d, oracle) && Exist(d, s.batch) && !s.maxReached && s.batch != []
    ensures var e := InstanceRun(d, oracle, s);
            if e.exit.Threw? then e.run.status.Completed? <==> e.run.jumped && !e.run.maxReached
            else e.run.status.Completed? && e.run.batch == []
  {
    hide InstanceRun, Sound;
    InstanceEnds(d, oracle, s);
  }

  // ------------------------------------------------------------- a failing input

  function Plain(id: Node): TaskNode {
    TaskNode(id, OtherKind, [], [], [], None, None, None, [], None, None, None)
  }

  // Two nodes side by side, of which the first may be run again.
  function Fork(s: Node, a: Node, b: Node): Definition {
    Definition([s, a, b],
               map[s := Plain(s).(next := [a, b]), a := Plain(a).(rollbackTo := Some(a)), b := Plain(b)], s)
  }

  // The start leads to both; the first node fails once, the second always.
  function Forked(s: Node, a: Node, b: Node): Oracle {
    (round: nat, index: nat, n: Node, attempt: nat) =>
      if n == s then Success([a, b])
      else if n == a && round > 1 then Success([])
      else Failure("Error", "failed")
  }

  lemma ForkSound(s: Node, a: Node, b: Node)
    requires s != a && s != b && a != b
    ensures Sound(Fork(s, a, b), Forked(s, a, b)) && Fork(s, a, b).nodes.Keys == {s, a, b}
  {
    hide Collected, Acyclic, Dangling, Routes, AllLimited;
    var d := Fork(s, a, b);
    ForkAcyclic(s, a, b);
    ForkDangles(s, a, b);
    assert Accepted(d);
    ForkRoutes(s, a, b);
  }

  lemma ForkTargets(s: Node, a: Node, b: Node)
    requires s != a && s != b && a != b
    ensures var g := Collected(Fork(s, a, b)); g.Keys == {s, a, b} && g[s] == [a, b] && g[a] == [] && g[b] == []
  {
    var d := Fork(s, a, b);
    assert Targets(d.nodes[s]) == [a, b] && Targets(d.nodes[a]) == [] && Targets(d.nodes[b]) == [];
    assert [a, b][1..] == [b] && [b][1..] == [];
    assert Existing(d, [b]) == [b] && Existing(d, [a, b]) == [a] + [b];
  }

  lemma ForkAcyclic(s: Node, a: Node, b: Node)
    requires s != a && s != b && a != b
    ensures Acyclic(Collected(Fork(s, a, b)))
  {
    hide Collected, Fork, Reaches;
    var g := Collected(Fork(s, a, b));
    ForkTargets(s, a, b);
    forall w
      ensures !IsCycle(g, w)
    {
      if |w| >= 2 && IsWalk(g, w) {
        assert Edge(g, w[0], w[1]) && Edge(g, w[|w|-2], w[|w|-2+1]);
        assert w[0] == s && w[|w|-1] != s;
      }
    }
  }

  lemma ForkDangles(s: Node, a: Node, b: Node)
    requires s != a && s != b && a != b
    ensures forall r :: !Dangling(Fork(s, a, b), r)
  {}

  lemma ForkRoutes(s: Node, a: Node, b: Node)
    requires s != a && s != b && a != b
    ensures Routes(Fork(s, a, b), Forked(s, a, b)) && AllLimited(Fork(s, a, b))
  {
    var d, oracle := Fork(s, a, b), Forked(s, a, b);
    ForkTargets(s, a, b);
    forall round: nat, index: nat, n, attempt: nat | n in d.nodes && oracle(round, index, n, attempt).Success?
      ensures EdgesTo(d, n, oracle(round, index, n, attempt).next)
    {}
  }

  // The visit of a single node that succeeds.
  lemma OneVisit(d: Definition, oracle: Oracle, t: Run, round: nat, n: Node)
    requires Sound(d, oracle) && Exist(d, t.batch) && Exist(d, []) && n in d.nodes && oracle(round, 0, n, 0).Success?
    ensures VisitRun(d, oracle, t, round, [n], 0, []) == NodeEnd(t, Returned, oracle(round, 0, n, 0).next)
  {
    hide Sound, VisitRun, NodeRun, Exist;
    VisitRunStep(d, oracle, t, round, [n], 0, []);
    NodeRunStep(d, oracle, t, round, 0, n, 0, []);
    SuccessExist(d, oracle, round, 0, n, 0);
    var next := oracle(round, 0, n, 0).next;
    assert [] + next == next;
    VisitRunPast(d, oracle, t, round, [n], 1, next);
  }

  // The round of a single node that succeeds.
  lemma OneSucceeds(d: Definition, oracle: Oracle, s: Run, n: Node)
    requires Sound(d, oracle) && Exist(d, s.batch) && n in d.nodes && s.batch == [n]
    requires oracle(s.rounds, 0, n, 0).Success?
    ensures var nodes := Dedupe(oracle(s.rounds, 0, n, 0).next);
            BatchRun(d, oracle, s) ==
            RunEnd(s.(rounds := s.rounds + 1, trace := s.trace + [[n]], batch := nodes,
                      status := if nodes == [] then Transition(s.status, Complete) else s.status), Returned)
  {
    hide Sound, VisitRun, Dedupe, Exist, Transition;
    ExistNone(d);
    OneVisit(d, oracle, s.(rounds := s.rounds + 1, trace := s.trace + [[n]]), s.rounds, n);
  }

  lemma OneRound(d: Definition, oracle: Oracle, t: Run, u: Run)
    requires Sound(d, oracle) && Exist(d, t.batch) && Exist(d, u.batch) && t.batch != [] && u.batch == []
    requires BatchRun(d, oracle, t) == RunEnd(u, Returned)
    ensures LoopRun(d, oracle, t, 0) == RunEnd(u, Returned)
  {
    hide Sound, LoopRun, BatchRun, Exist;
    LoopRunStep(d, oracle, t, 0);
    LoopRunEnd(d, oracle, u, 1);
  }

  lemma AgainReturns(s: Node, a: Node, b: Node, again: Run)
    requires s != a && s != b && a != b
    requires again == Run([a], RolledBack, map[Some(a) := 1], false, 2, [[s], [a, b]], false)
    ensures var (d, oracle) := (Fork(s, a, b), Forked(s, a, b));
            Sound(d, oracle) && Exist(d, again.batch) &&
            InstanceRun(d, oracle, again)
            == RunEnd(Run([], Completed, map[Some(a) := 1], false, 3, [[s], [a, b], [a]], false), Returned)
  {
    var d, oracle := Fork(s, a, b), Forked(s, a, b);
    ForkSound(s, a, b);
    assert Exist(d, [a]);
    assert Dedupe([]) == [];
    hide Sound, BatchRun, LoopRun, Exist, Dedupe, ValidDefinition, Fork;
    var t := again.(status := Running);
    OneSucceeds(d, oracle, t, a);
    assert [[s], [a, b]] + [[a]] == [[s], [a, b], [a]];
    OneRound(d, oracle, t, Run([], Completed, map[Some(a) := 1], false, 3, [[s], [a, b], [a]], false));
  }

  // The first node rolls back, runs again and returns.
  lemma FirstReturns(s: Node, a: Node, b: Node, t: Run)
    requires s != a && s != b && a != b
    requires t == Run([a, b], Running, map[], false, 2, [[s], [a, b]], false)
    ensures var (d, oracle) := (Fork(s, a, b), Forked(s, a, b));
            Sound(d, oracle) && Exist(d, [a, b]) && Exist(d, []) &&
            NodeRun(d, oracle, t, 1, 0, a, 0, []) ==
            NodeEnd(Run([], Completed, map[Some(a) := 1], false, 3, [[s], [a, b], [a]], true), Returned, [])
  {
    var d, oracle := Fork(s, a, b), Forked(s, a, b);
    ForkSound(s, a, b);
    ExistNone(d);
    assert Exist(d, [a, b]) && Exist(d, [a]);
    hide Sound, NodeRun, JumpRun, InstanceRun, Exist, ValidDefinition;
    NodeRunStep(d, oracle, t, 1, 0, a, 0, []);
    JumpRunStep(d, oracle, t, a, a);
    AgainReturns(s, a, b, Run([a], RolledBack, map[Some(a) := 1], false, 2, [[s], [a, b]], false));
  }

  // The second node fails.
  lemma SecondFails(s: Node, a: Node, b: Node, u: Run)
    requires s != a && s != b && a != b && u.batch == [] && u.status == Completed
    ensures var (d, oracle) := (Fork(s, a, b), Forked(s, a, b));
            Sound(d, oracle) && Exist(d, []) &&
            NodeRun(d, oracle, u, 1, 1, b, 0, []) == NodeEnd(u, Threw(NodeFailed(Failure("Error", "failed"))), [])
  {
    var d, oracle := Fork(s, a, b), Forked(s, a, b);
    ForkSound(s, a, b);
    ExistNone(d);
    hide Sound, NodeRun, JumpRun, InstanceRun, Exist, ValidDefinition;
    NodeRunStep(d, oracle, u, 1, 1, b, 0, []);
  }

  lemma TwoVisits(d: Definition, oracle: Oracle, t: Run, u: Run, round: nat, a: Node, b: Node, exit: Exit)
    requires Sound(d, oracle) && Exist(d, t.batch) && Exist(d, u.batch) && Exist(d, [])
    requires d.nodes.Keys >= {a, b} && exit.Threw?
    requires NodeRun(d, oracle, t, round, 0, a, 0, []) == NodeEnd(u, Returned, [])
    requires NodeRun(d, oracle, u, round, 1, b, 0, []) == NodeEnd(u, exit, [])
    ensures VisitRun(d, oracle, t, round, [a, b], 0, []) == NodeEnd(u, exit, [])
  {
    hide Sound, VisitRun, NodeRun, Exist;
    VisitRunStep(d, oracle, t, round, [a, b], 0, []);
    VisitRunStep(d, oracle, u, round, [a, b], 1, []);
  }

  lemma BatchThrows(d: Definition, oracle: Oracle, r: Run, u: Run, exit: Exit)
    requires Sound(d, oracle) && Exist(d, r.batch) && Exist(d, []) && exit.Threw?
    requires var t := r.(rounds := r.rounds + 1, trace := r.trace + [r.batch]);
             VisitRun(d, oracle, t, r.rounds, r.batch, 0, []) == NodeEnd(u, exit, [])
    ensures BatchRun(d, oracle, r) == RunEnd(u, exit)
  {
    hide Sound, VisitRun;
  }

  // The round of both nodes.
  lemma ForkedRound(s: Node, a: Node, b: Node, r: Run)
    requires s != a && s != b && a != b
    requires r == Run([a, b], Running, map[], false, 1, [[s]], false)
    ensures var (d, oracle) := (Fork(s, a, b), Forked(s, a, b));
            Sound(d, oracle) && Exist(d, r.batch) &&
            BatchRun(d, oracle, r) == RunEnd(Run([], Completed, map[Some(a) := 1], false, 3, [[s], [a, b], [a]], true),
                                             Threw(NodeFailed(Failure("Error", "failed"))))
  {
    var d, oracle := Fork(s, a, b), Forked(s, a, b);
    ForkSound(s, a, b);
    hide Sound, VisitRun, NodeRun, BatchRun, Exist, Fork, Forked, ValidDefinition;
    var t := r.(rounds := 2, trace := [[s], [a, b]]);
    FirstReturns(s, a, b, t);
    var u := Run([], Completed, map[Some(a) := 1], false, 3, [[s], [a, b], [a]], true);
    SecondFails(s, a, b, u);
    TwoVisits(d, oracle, t, u, 1, a, b, Threw(NodeFailed(Failure("Error", "failed"))));
    assert [[s]] + [[a, b]] == [[s], [a, b]];
    BatchThrows(d, oracle, r, u, Threw(NodeFailed(Failure("Error", "failed"))));
  }

  lemma SomeNodes(s: Node, a: Node, b: Node)
    requires s != a && s != b && a != b
    ensures |Fork(s, a, b).nodes| >= 1
  {
    assert s in Fork(s, a, b).nodes;
  }

  lemma DedupeTwo(a: Node, b: Node)
    requires a != b
    ensures Dedupe([a, b]) == [a, b]
  {
    assert [a, b][..1] == [a] && [a][..0] == [];
    assert Dedupe([a]) == [] + [a];
    assert [a] + [b] == [a, b];
  }

  lemma StartForks(s: Node, a: Node, b: Node, t: Run)
    requires s != a && s != b && a != b && t == Run([s], Running, map[], false, 0, [], false)
    ensures var (d, oracle) := (Fork(s, a, b), Forked(s, a, b));
            Sound(d, oracle) && Exist(d, t.batch) &&
            BatchRun(d, oracle, t) == RunEnd(Run([a, b], Running, map[], false, 1, [[s]], false), Returned)
  {
    var d, oracle := Fork(s, a, b), Forked(s, a, b);
    ForkSound(s, a, b);
    assert Exist(d, [s]);
    hide Sound, BatchRun, Dedupe, Exist, ValidDefinition;
    OneSucceeds(d, oracle, t, s);
    DedupeTwo(a, b);
    assert [] + [[s]] == [[s]];
  }

  // A throw can leave the instance completed.
  lemma ThrowsCompleted(s: Node, a: Node, b: Node)
    requires s != a && s != b && a != b
    ensures var (d, oracle) := (Fork(s, a, b), Forked(s, a, b));
            Sound(d, oracle) && Exist(d, [s]) &&
            var e := InstanceRun(d, oracle, Run([s], Pending, map[], false, 0, [], false));
            e.exit == Threw(NodeFailed(Failure("Error", "failed"))) && e.run.status.Completed? &&
            e.run.trace == [[s], [a, b], [a]]
  {
    var d, oracle := Fork(s, a, b), Forked(s, a, b);
    ForkSound(s, a, b);
    assert Exist(d, [s]) && Exist(d, [a, b]);
    hide Sound, LoopRun, BatchRun, Fork, Forked;
    var t := Run([s], Running, map[], false, 0, [], false);
    StartForks(s, a, b, t);
    LoopRunStep(d, oracle, t, 0);
    var r := Run([a, b], Running, map[], false, 1, [[s]], false);
    SomeNodes(s, a, b);
    ForkedRound(s, a, b, r);
    LoopRunStep(d, oracle, r, 1);
  }
}
