/** Policy retries are stuttering steps: they change no batch of a run. */
module RetryStuttering {
  import opened Basics
  import opened Graph
  import opened Workflow
  import opened RetryPolicies
  import opened Orchestrator

  // How often a node fails before it succeeds, by round and place.
  type Failures = (nat, nat, Node) -> nat

  // With these counters the node fails as often as its policy still allows and
  // then succeeds as it does at once under the steady oracle.
  ghost predicate Recovers(d: Definition, faulty: Oracle, steady: Oracle, fails: nat, round: nat, index: nat, n: Node,
                           r: Retries)
    requires n in d.nodes
  {
    && steady(round, index, n, 0).Success? && faulty(round, index, n, fails) == steady(round, index, n, 0)
    && (fails > 0 ==> d.nodes[n].retryPolicy.Some? &&
                      Count(r, Some(d.nodes[n].id)) + fails <= d.nodes[n].retryPolicy.value.maximumAttempts)
    && forall a :: 0 <= a < fails ==>
         faulty(round, index, n, a).Failure? && !Listed(faulty(round, index, n, a), d.nodes[n].retryPolicy.value)
  }

  function SettledRetries(d: Definition, oracle: Oracle, round: nat, index: nat, n: Node, r: Retries): Retries
    requires AllLimited(d) && n in d.nodes
  {
    Settle(d.nodes[n], Attempts(oracle, round, index, n), 0, r).1
  }

  // Every node of the batch from an index on recovers.
  ghost predicate BatchRecovers(d: Definition, faulty: Oracle, steady: Oracle, fails: Failures, round: nat,
                                batch: seq<Node>, index: nat, r: Retries)
    requires AllLimited(d)
    decreases |batch| - index
  {
    index < |batch| ==>
      if batch[index] in d.nodes then
        Recovers(d, faulty, steady, fails(round, index, batch[index]), round, index, batch[index], r) &&
        BatchRecovers(d, faulty, steady, fails, round, batch, index + 1,
                      SettledRetries(d, faulty, round, index, batch[index], r))
      else BatchRecovers(d, faulty, steady, fails, round, batch, index + 1, r)
  }

  // The successors of the existing nodes of a batch, each node's once and in
  // batch order.
  function Successors(d: Definition, steady: Oracle, round: nat, batch: seq<Node>, index: nat): seq<Node>
    decreases |batch| - index
  {
    if index >= |batch| then []
    else
      (if batch[index] in d.nodes && steady(round, index, batch[index], 0).Success?
       then steady(round, index, batch[index], 0).next
       else [])
      + Successors(d, steady, round, batch, index + 1)
  }

  lemma RecoversSettles(d: Definition, faulty: Oracle, steady: Oracle, fails: nat, round: nat, index: nat, n: Node,
                        r: Retries, r': Retries)
    requires AllLimited(d) && n in d.nodes && Recovers(d, faulty, steady, fails, round, index, n, r)
    ensures Settle(d.nodes[n], Attempts(faulty, round, index, n), 0, r).0 == steady(round, index, n, 0)
    ensures Settle(d.nodes[n], Attempts(steady, round, index, n), 0, r') == (steady(round, index, n, 0), r')
  {
    hide CanRetry, Listed;
    SettleSkipsFailures(d.nodes[n], Attempts(faulty, round, index, n), 0, r, fails);
  }

  lemma {:induction false} BatchStutters(d: Definition, faulty: Oracle, steady: Oracle, fails: Failures, round: nat,
                                         batch: seq<Node>, index: nat, r: Retries, r': Retries, acc: seq<Node>)
    requires AllLimited(d) && BatchRecovers(d, faulty, steady, fails, round, batch, index, r)
    ensures var b := VisitBatch(d, faulty, round, batch, index, r, acc);
            b.Proceeds? && b.nodes == acc + Successors(d, steady, round, batch, index)
    ensures VisitBatch(d, steady, round, batch, index, r', acc)
            == Proceeds(acc + Successors(d, steady, round, batch, index), r')
    decreases |batch| - index
  {
    if index < |batch| {
      var n := batch[index];
      if n in d.nodes {
        hide AllLimited, Settle;
        var next := steady(round, index, n, 0).next;
        RecoversSettles(d, faulty, steady, fails(round, index, n), round, index, n, r, r');
        BatchStutters(d, faulty, steady, fails, round, batch, index + 1, SettledRetries(d, faulty, round, index, n, r),
                      r', acc + next);
        assert acc + (next + Successors(d, steady, round, batch, index + 1))
            == acc + next + Successors(d, steady, round, batch, index + 1);
      } else {
        BatchStutters(d, faulty, steady, fails, round, batch, index + 1, r, r', acc);
        assert [] + Successors(d, steady, round, batch, index + 1) == Successors(d, steady, round, batch, index + 1);
      }
    } else {
      assert acc + [] == acc;
    }
  }

  // Every node of the first k rounds of the faulty run recovers.
  ghost predicate RunRecovers(d: Definition, faulty: Oracle, steady: Oracle, fails: Failures, start: Point, round: nat,
                              k: nat)
    requires AllLimited(d)
  {
    forall j :: 0 <= j < k ==> RoundRecovers(d, faulty, steady, fails, PointAt(d, faulty, start, round, j), round + j)
  }

  ghost predicate RoundRecovers(d: Definition, faulty: Oracle, steady: Oracle, fails: Failures, p: Point, round: nat)
    requires AllLimited(d)
  {
    p.At? ==> BatchRecovers(d, faulty, steady, fails, round, p.batch, 0, p.retries)
  }

  // The run with failures visits the batches of the run without any: from each
  // to the successors of its nodes, in batch order and without repetitions.
  lemma {:induction false} RetriesStutter(d: Definition, faulty: Oracle, steady: Oracle, fails: Failures,
                                          batch: seq<Node>, r: Retries, round: nat, k: nat)
    requires AllLimited(d) && RunRecovers(d, faulty, steady, fails, At(batch, r), round, k)
    ensures var p := PointAt(d, faulty, At(batch, r), round, k);
            p.At? && PointAt(d, steady, At(batch, r), round, k) == At(p.batch, r)
    ensures k > 0 ==>
              var p := PointAt(d, faulty, At(batch, r), round, k - 1);
              p.At? &&
              PointAt(d, faulty, At(batch, r), round, k).batch
              == Dedupe(Successors(d, steady, round + k - 1, p.batch, 0))
    ensures Batches(d, faulty, At(batch, r), round, k) == Batches(d, steady, At(batch, r), round, k)
  {
    hide AllLimited, VisitBatch, Successors, BatchRecovers, Dedupe;
    if k > 0 {
      RetriesStutter(d, faulty, steady, fails, batch, r, round, k - 1);
      var p := PointAt(d, faulty, At(batch, r), round, k - 1);
      assert RoundRecovers(d, faulty, steady, fails, p, round + (k - 1));
      BatchStutters(d, faulty, steady, fails, round + k - 1, p.batch, 0, p.retries, r, []);
      assert [] + Successors(d, steady, round + k - 1, p.batch, 0) == Successors(d, steady, round + k - 1, p.batch, 0);
    }
  }
}
