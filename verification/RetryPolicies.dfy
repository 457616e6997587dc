/** Retry policies and what repeated attempts at one node lead to. */
module RetryPolicies {
  import opened Basics
  import opened Graph
  import opened Workflow

  datatype Outcome = Success(next: seq<Node>) | Failure(errorType: string, message: string)

  // Retry counters are kept per node id.  The key None stands for the counter
  // an undefined node id would use.
  type Retries = map<Option<Node>, nat>

  function Count(r: Retries, key: Option<Node>): nat {
    if key in r then r[key] else 0
  }

  function Bump(r: Retries, key: Option<Node>): Retries {
    r[key := Count(r, key) + 1]
  }

  predicate ShouldRetry(attempt: nat, policy: RetryPolicy) {
    policy.maximumAttempts == 0 || attempt < policy.maximumAttempts
  }

  predicate Contains(s: string, part: string) {
    exists i, j :: 0 <= i <= j <= |s| && s[i..j] == part
  }

  predicate IsRetryable(f: Outcome, policy: RetryPolicy)
    requires f.Failure?
  {
    !exists i :: 0 <= i < |policy.nonRetryableErrors| &&
      (f.errorType == policy.nonRetryableErrors[i] || Contains(f.message, policy.nonRetryableErrors[i]))
  }

  predicate CanRetry(node: TaskNode, f: Outcome, r: Retries)
    requires f.Failure?
  {
    node.retryPolicy.Some? &&
    ShouldRetry(Count(r, Some(node.id)), node.retryPolicy.value) && IsRetryable(f, node.retryPolicy.value)
  }

  // A policy with a limit: zero means none.
  predicate Limited(node: TaskNode) {
    node.retryPolicy.Some? ==> node.retryPolicy.value.maximumAttempts != 0
  }

  function AttemptsLeft(node: TaskNode, r: Retries): nat {
    if node.retryPolicy.None? || node.retryPolicy.value.maximumAttempts <= Count(r, Some(node.id)) then 0
    else node.retryPolicy.value.maximumAttempts - Count(r, Some(node.id))
  }

  // The outcome a node settles on after its retries, and the counters then.
  function Settle(node: TaskNode, attempts: nat -> Outcome, attempt: nat, r: Retries): (Outcome, Retries)
    requires Limited(node)
    decreases AttemptsLeft(node, r)
  {
    var o := attempts(attempt);
    if o.Failure? && CanRetry(node, o, r) then Settle(node, attempts, attempt + 1, Bump(r, Some(node.id)))
    else (o, r)
  }

  // --------------------------------------------------------- which are retried

  ghost predicate Occurs(part: string, s: string) {
    exists before: string, after: string :: before + part + after == s
  }

  // The policy lists the type of the error, or a part of its message.
  ghost predicate Listed(f: Outcome, policy: RetryPolicy)
    requires f.Failure?
  {
    exists i :: 0 <= i < |policy.nonRetryableErrors| &&
      (policy.nonRetryableErrors[i] == f.errorType || Occurs(policy.nonRetryableErrors[i], f.message))
  }

  lemma OccursIff(part: string, s: string)
    ensures Contains(s, part) <==> Occurs(part, s)
  {
    if Contains(s, part) {
      var i, j :| 0 <= i <= j <= |s| && s[i..j] == part;
      assert s[..i] + part + s[j..] == s;
    }
    if Occurs(part, s) {
      var before, after :| before + part + after == s;
      assert s[|before|..|before|+|part|] == part;
    }
  }

  lemma ListedIff(f: Outcome, policy: RetryPolicy)
    requires f.Failure?
    ensures IsRetryable(f, policy) <==> !Listed(f, policy)
  {
    hide Contains, Occurs;
    forall i | 0 <= i < |policy.nonRetryableErrors|
      ensures Contains(f.message, policy.nonRetryableErrors[i])
              <==> Occurs(policy.nonRetryableErrors[i], f.message)
    {
      OccursIff(policy.nonRetryableErrors[i], f.message);
    }
  }

  // A failure is retried, with the node's counter one higher, exactly if the
  // node has a policy with attempts left that does not list the failure;
  // otherwise the node settles on it and the counters stay as they were.
  lemma RetriedIff(node: TaskNode, attempts: nat -> Outcome, attempt: nat, r: Retries)
    requires Limited(node) && attempts(attempt).Failure?
    ensures var key := Some(node.id);
            var made := if key in r then r[key] else 0;
            Settle(node, attempts, attempt, r) ==
            if node.retryPolicy.Some? && made < node.retryPolicy.value.maximumAttempts &&
               !Listed(attempts(attempt), node.retryPolicy.value)
            then Settle(node, attempts, attempt + 1, r[key := made + 1])
            else (attempts(attempt), r)
  {
    hide Listed, IsRetryable;
    if node.retryPolicy.Some? { ListedIff(attempts(attempt), node.retryPolicy.value); }
  }

  // A node that fails a number of times its policy allows and then succeeds
  // settles on that success.
  lemma {:induction false} SettleSkipsFailures(node: TaskNode, attempts: nat -> Outcome, attempt: nat, r: Retries,
                                               fails: nat)
    requires Limited(node) && attempts(attempt + fails).Success?
    requires fails > 0 ==>
               node.retryPolicy.Some? && Count(r, Some(node.id)) + fails <= node.retryPolicy.value.maximumAttempts
    requires forall a :: attempt <= a < attempt + fails ==>
               attempts(a).Failure? && !Listed(attempts(a), node.retryPolicy.value)
    ensures Settle(node, attempts, attempt, r).0 == attempts(attempt + fails)
    ensures Count(Settle(node, attempts, attempt, r).1, Some(node.id)) == Count(r, Some(node.id)) + fails
    decreases fails
  {
    hide Listed;
    if fails > 0 {
      RetriedIff(node, attempts, attempt, r);
      SettleSkipsFailures(node, attempts, attempt + 1, Bump(r, Some(node.id)), fails - 1);
    }
  }

  // Under a policy without a limit a node that keeps failing is retried
  // forever: no number of attempts settles it.
  function SettleWithin(node: TaskNode, attempts: nat -> Outcome, attempt: nat, r: Retries, fuel: nat): Option<Outcome>
    decreases fuel
  {
    var o := attempts(attempt);
    if o.Failure? && CanRetry(node, o, r) then
      if fuel == 0 then None else SettleWithin(node, attempts, attempt + 1, Bump(r, Some(node.id)), fuel - 1)
    else Some(o)
  }

  lemma {:induction false} UnlimitedNeverSettles(node: TaskNode, attempts: nat -> Outcome, attempt: nat, r: Retries,
                                                 fuel: nat)
    requires node.retryPolicy.Some? && !Limited(node)
    requires forall a :: attempts(a).Failure? && !Listed(attempts(a), node.retryPolicy.value)
    ensures SettleWithin(node, attempts, attempt, r, fuel).None?
    decreases fuel
  {
    hide Listed, IsRetryable;
    ListedIff(attempts(attempt), node.retryPolicy.value);
    if fuel > 0 { UnlimitedNeverSettles(node, attempts, attempt + 1, Bump(r, Some(node.id)), fuel - 1); }
  }

  ghost predicate Settles(node: TaskNode, attempts: nat -> Outcome, r: Retries) {
    exists fuel :: SettleWithin(node, attempts, 0, r, fuel).Some?
  }

  // A node settles whatever its attempts do exactly when its policy has a
  // limit (given a failure that its policy would retry).
  lemma SettlesIffLimited(node: TaskNode, f: Outcome)
    requires node.retryPolicy.Some? && f.Failure? && !Listed(f, node.retryPolicy.value)
    ensures Limited(node) <==> forall attempts, r :: Settles(node, attempts, r)
  {
    if Limited(node) {
      forall attempts, r
        ensures Settles(node, attempts, r)
      {
        LimitedSettles(node, attempts, 0, r, AttemptsLeft(node, r));
      }
    } else {
      var attempts := (a: nat) => f;
      forall fuel: nat
        ensures SettleWithin(node, attempts, 0, map[], fuel).None?
      {
        UnlimitedNeverSettles(node, attempts, 0, map[], fuel);
      }
      assert !Settles(node, attempts, map[]);
    }
  }

  lemma {:induction false} LimitedSettles(node: TaskNode, attempts: nat -> Outcome, attempt: nat, r: Retries, fuel: nat)
    requires Limited(node) && AttemptsLeft(node, r) <= fuel
    ensures SettleWithin(node, attempts, attempt, r, fuel) == Some(Settle(node, attempts, attempt, r).0)
    decreases fuel
  {
    var o := attempts(attempt);
    if o.Failure? && CanRetry(node, o, r) {
      LimitedSettles(node, attempts, attempt + 1, Bump(r, Some(node.id)), fuel - 1);
    }
  }
}
