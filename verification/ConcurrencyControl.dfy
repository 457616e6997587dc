/**
 Locks with a time-out, and the bodies that run under them.  Between any two
 steps others may acquire and release, the clock may advance, and expired
 locks may be cleaned up.
 */
module ConcurrencyControl {
  import opened Basics

  type Resource(==, !new, 00)

  type Holder(==, !new, 00)

  datatype Lock = Lock(holder: Holder, expiresAt: int)

  // A body under a lock, from the acquisition to the release; `expiresAt` is
  // when the lock it acquired expires.
  datatype Body = Body(resource: Resource, holder: Holder, expiresAt: int)

  // `owners` is a history: the body for which each lock was set last.
  datatype State = State(locks: map<Resource, Lock>, bodies: map<nat, Body>, now: int, nextBody: nat,
                         owners: map<Resource, nat>)

  // ------------------------------------------------------------------- steps

  predicate Live(locks: map<Resource, Lock>, r: Resource, now: int) {
    r in locks && locks[r].expiresAt > now
  }

  // Another holder has the resource.
  predicate Taken(locks: map<Resource, Lock>, r: Resource, h: Holder, now: int) {
    Live(locks, r, now) && locks[r].holder != h
  }

  // Locks the resource or renews the lock, unless another holder has it.
  function Acquire(locks: map<Resource, Lock>, r: Resource, h: Holder, timeout: int, now: int): map<Resource, Lock> {
    if Taken(locks, r, h, now) then locks else locks[r := Lock(h, now + timeout)]
  }

  function Release(locks: map<Resource, Lock>, r: Resource, h: Holder): map<Resource, Lock> {
    if r in locks && locks[r].holder == h then locks - {r} else locks
  }

  function Cleanup(locks: map<Resource, Lock>, now: int): map<Resource, Lock> {
    map r | r in locks && locks[r].expiresAt > now :: locks[r]
  }

  datatype Step =
    | Begin(resource: Resource, holder: Holder, timeout: int)
    | End(body: nat)
    | CleanupStep
    | Tick(now: int)

  // A body begins if its lock is acquired, and releases the lock at its end.
  function Next(s: State, step: Step): State {
    match step
    case Begin(r, h, timeout) =>
      if Taken(s.locks, r, h, s.now) then s
      else
        s.(locks := Acquire(s.locks, r, h, timeout, s.now), owners := s.owners[r := s.nextBody],
           bodies := s.bodies[s.nextBody := Body(r, h, s.now + timeout)], nextBody := s.nextBody + 1)
    case End(b) =>
      if b !in s.bodies then s
      else s.(locks := Release(s.locks, s.bodies[b].resource, s.bodies[b].holder), bodies := s.bodies - {b})
    case CleanupStep => s.(locks := Cleanup(s.locks, s.now))
    case Tick(now) => if now >= s.now then s.(now := now) else s
  }

  function Initial(now: int): State {
    State(map[], map[], now, 0, map[])
  }

  // A cleanup leaves no lock that has expired, and nobody can tell that it
  // ran: who may acquire a resource, now or later, is the same as without it.
  lemma CleanupInvisible(locks: map<Resource, Lock>, cleaned: int, r: Resource, h: Holder, timeout: int, now: int)
    requires cleaned <= now
    ensures var kept := Cleanup(locks, cleaned);
            (forall x :: x in kept ==> kept[x].expiresAt > cleaned) &&
            (Taken(kept, r, h, now) <==> r in locks && locks[r].holder != h && locks[r].expiresAt > now) &&
            (Taken(kept, r, h, now) <==> Taken(locks, r, h, now)) &&
            (!Taken(kept, r, h, now) ==> Acquire(kept, r, h, timeout, now)[r] == Acquire(locks, r, h, timeout, now)[r])
  {}

  // --------------------------------------------------------------- assumptions

  // No body of this holder runs on this resource.
  ghost predicate Unused(s: State, r: Resource, h: Holder) {
    forall b :: b in s.bodies ==> !(s.bodies[b].resource == r && s.bodies[b].holder == h)
  }

  // A holder id is not used twice at a time on a resource.
  ghost predicate Fresh(s: State, step: Step) {
    step.Begin? ==> Unused(s, step.resource, step.holder)
  }

  // No running body on this resource has outlived its lock.
  ghost predicate OnTime(s: State, r: Resource) {
    forall b :: b in s.bodies && s.bodies[b].resource == r ==> s.now < s.bodies[b].expiresAt
  }

  // A lock is asked for only while those who have the resource are on time.
  ghost predicate Punctual(s: State, step: Step) {
    step.Begin? ==> OnTime(s, step.resource)
  }

  function After(now: int, steps: seq<Step>): State {
    if steps == [] then Initial(now) else Next(After(now, steps[..|steps|-1]), steps[|steps|-1])
  }

  // At every step of the run:
  ghost predicate HoldersDistinct(now: int, steps: seq<Step>) {
    steps == [] || (HoldersDistinct(now, steps[..|steps|-1]) && Fresh(After(now, steps[..|steps|-1]), steps[|steps|-1]))
  }

  ghost predicate AlwaysPunctual(now: int, steps: seq<Step>) {
    steps == [] ||
      (AlwaysPunctual(now, steps[..|steps|-1]) && Punctual(After(now, steps[..|steps|-1]), steps[|steps|-1]))
  }

  ghost predicate AlwaysOnTime(now: int, steps: seq<Step>) {
    (forall r :: OnTime(After(now, steps), r)) && (steps == [] || AlwaysOnTime(now, steps[..|steps|-1]))
  }

  // No two running bodies have the same resource.
  ghost predicate Exclusive(s: State) {
    forall a, b :: a in s.bodies && b in s.bodies && s.bodies[a].resource == s.bodies[b].resource ==> a == b
  }

  ghost predicate AlwaysExclusive(now: int, steps: seq<Step>) {
    Exclusive(After(now, steps)) && (steps == [] || AlwaysExclusive(now, steps[..|steps|-1]))
  }

  // ---------------------------------------------------------------- invariants

  // Every lock belongs to a running body, and no two running bodies on a
  // resource have the same holder.
  ghost predicate Owned(s: State) {
    && (forall r :: r in s.locks ==> OwnedBy(s, r))
    && (forall b :: b in s.bodies ==> b < s.nextBody)
    && (forall a, b :: a in s.bodies && b in s.bodies && SameUse(s.bodies[a], s.bodies[b]) ==> a == b)
  }

  ghost predicate SameUse(a: Body, b: Body) {
    a.resource == b.resource && a.holder == b.holder
  }

  ghost predicate OwnedBy(s: State, r: Resource) {
    r in s.locks && r in s.owners && s.owners[r] in s.bodies &&
    s.bodies[s.owners[r]] == Body(r, s.locks[r].holder, s.locks[r].expiresAt)
  }

  // Every running body still has its lock, or has outlived it.
  ghost predicate Held(s: State) {
    forall b :: b in s.bodies ==> HeldBy(s, b) || s.bodies[b].expiresAt <= s.now
  }

  ghost predicate HeldBy(s: State, b: nat) {
    b in s.bodies && s.bodies[b].resource in s.locks && s.bodies[b].resource in s.owners &&
      s.owners[s.bodies[b].resource] == b
  }

  lemma OwnedStep(s: State, step: Step)
    requires Owned(s) && Fresh(s, step)
    ensures Owned(Next(s, step))
  {}

  // A step breaks exclusion exactly when it asks for a lock that is not held
  // on time.
  lemma ExclusiveStep(s: State, step: Step)
    requires Owned(s) && Held(s) && Exclusive(s) && Fresh(s, step)
    ensures Exclusive(Next(s, step)) <==> Punctual(s, step)
  {
    if step.Begin? {
      var r := step.resource;
      if r in s.locks { assert OwnedBy(s, r); }
      if Punctual(s, step) {
        forall b | b in s.bodies && s.bodies[b].resource == r
          ensures Taken(s.locks, r, step.holder, s.now)
        {
          assert HeldBy(s, b);
        }
      } else {
        var b :| b in s.bodies && s.bodies[b].resource == r && s.bodies[b].expiresAt <= s.now;
        assert b in Next(s, step).bodies && s.nextBody in Next(s, step).bodies;
      }
    }
  }

  lemma HeldStep(s: State, step: Step)
    requires Owned(s) && Held(s) && Exclusive(s) && Fresh(s, step) && Punctual(s, step)
    ensures Held(Next(s, step))
  {}

  lemma {:induction false} OwnedAlways(now: int, steps: seq<Step>)
    requires HoldersDistinct(now, steps)
    ensures Owned(After(now, steps))
    decreases |steps|
  {
    hide Owned, Fresh, Next;
    if steps == [] {
      InitialOwned(now);
    } else {
      OwnedAlways(now, steps[..|steps|-1]);
      OwnedStep(After(now, steps[..|steps|-1]), steps[|steps|-1]);
    }
  }

  lemma InitialOwned(now: int)
    ensures Owned(Initial(now)) && Held(Initial(now)) && Exclusive(Initial(now))
  {}

  // A holder id used again while its body runs is given the lock once more.
  lemma ReuseOverlaps(s: State, step: Step)
    requires Owned(s) && Exclusive(s) && !Fresh(s, step)
    ensures !Exclusive(Next(s, step))
  {
    var r := step.resource;
    var b :| b in s.bodies && s.bodies[b].resource == r && s.bodies[b].holder == step.holder;
    if r in s.locks { assert OwnedBy(s, r); }
    var t := Next(s, step);
    assert b in t.bodies && s.nextBody in t.bodies && t.bodies[b].resource == t.bodies[s.nextBody].resource;
  }

  lemma {:induction false} ExclusiveAlways(now: int, steps: seq<Step>)
    ensures AlwaysExclusive(now, steps) <==> HoldersDistinct(now, steps) && AlwaysPunctual(now, steps)
    ensures AlwaysExclusive(now, steps) ==> Held(After(now, steps))
    decreases |steps|
  {
    hide Owned, Held, Fresh, Exclusive, Punctual, Next;
    if steps == [] {
      InitialOwned(now);
    } else {
      var before, step := After(now, steps[..|steps|-1]), steps[|steps|-1];
      ExclusiveAlways(now, steps[..|steps|-1]);
      if AlwaysExclusive(now, steps[..|steps|-1]) {
        OwnedAlways(now, steps[..|steps|-1]);
        if Fresh(before, step) { ExclusiveStep(before, step); } else { ReuseOverlaps(before, step); }
        if Fresh(before, step) && Punctual(before, step) { HeldStep(before, step); }
      }
    }
  }

  // ------------------------------------------------------------------- results

  // In any run, bodies on a resource never overlap exactly when no holder id
  // is used again while its body runs, and whoever asks for a lock finds the
  // body that has the resource, if any, on time.
  lemma MutualExclusionIff(now: int, steps: seq<Step>)
    ensures AlwaysExclusive(now, steps) <==> HoldersDistinct(now, steps) && AlwaysPunctual(now, steps)
  {
    ExclusiveAlways(now, steps);
  }

  lemma {:induction false} OnTimePunctual(now: int, steps: seq<Step>)
    requires AlwaysOnTime(now, steps)
    ensures AlwaysPunctual(now, steps)
    decreases |steps|
  {
    if steps != [] { OnTimePunctual(now, steps[..|steps|-1]); }
  }

  // In particular if every body ends before its lock expires.
  lemma MutualExclusion(now: int, steps: seq<Step>, s: State, a: nat, b: nat)
    requires HoldersDistinct(now, steps) && AlwaysOnTime(now, steps) && s == After(now, steps)
    requires a in s.bodies && b in s.bodies && s.bodies[a].resource == s.bodies[b].resource
    ensures a == b
  {
    OnTimePunctual(now, steps);
    ExclusiveAlways(now, steps);
    hide After;
  }

  // However late a body ends, its release takes away no lock but its own.
  lemma LateReleaseHarmless(now: int, steps: seq<Step>, s: State, b: nat)
    requires HoldersDistinct(now, steps) && s == After(now, steps) && b in s.bodies
    ensures forall r :: r in s.locks && (r in s.owners ==> s.owners[r] != b) ==>
              r in Next(s, End(b)).locks && Next(s, End(b)).locks[r] == s.locks[r]
  {
    OwnedAlways(now, steps);
    hide After, HoldersDistinct;
    forall r | r in s.locks && (r in s.owners ==> s.owners[r] != b)
      ensures r in Next(s, End(b)).locks && Next(s, End(b)).locks[r] == s.locks[r]
    {
      assert OwnedBy(s, r);
    }
  }

  // A body that outlives its lock overlaps with the next one.
  lemma ExpiredBodiesOverlap(r: Resource, a: Holder, b: Holder, timeout: nat)
    ensures var s := After(0, [Begin(r, a, timeout), Tick(timeout), Begin(r, b, timeout)]);
            0 in s.bodies && 1 in s.bodies && s.bodies[0].resource == s.bodies[1].resource
  {
    var one := [Begin(r, a, timeout)];
    var two := one + [Tick(timeout)];
    var three := two + [Begin(r, b, timeout)];
    assert three[..2] == two && two[..1] == one && one[..0] == [];
    assert three == [Begin(r, a, timeout), Tick(timeout), Begin(r, b, timeout)];
    assert After(0, one).bodies == map[0 := Body(r, a, timeout)];
  }

  // A holder id used twice renews the lock: the bodies overlap, and the end of
  // the first takes the lock away from the second.
  lemma ReusedHolderOverlaps(r: Resource, h: Holder, timeout: nat)
    ensures var s := After(0, [Begin(r, h, timeout), Begin(r, h, timeout)]);
            0 in s.bodies && 1 in s.bodies && s.bodies[0].resource == r && s.bodies[1].resource == r &&
            1 in Next(s, End(0)).bodies && r !in Next(s, End(0)).locks
  {
    var one := [Begin(r, h, timeout)];
    var two := one + [Begin(r, h, timeout)];
    assert two[..1] == one && one[..0] == [];
    assert two == [Begin(r, h, timeout), Begin(r, h, timeout)];
    assert After(0, one).locks == map[r := Lock(h, timeout)];
    assert After(0, two).locks == map[r := Lock(h, timeout)];
  }

  // ------------------------------------------------------------ the controller

  class Controller {
    var locks: map<Resource, Lock>
    const lockTimeout: int

    constructor (lockTimeout: int)
      ensures this.lockTimeout == lockTimeout && locks == map[]
    {
      this.lockTimeout, locks := lockTimeout, map[];
    }

    method AcquireLock(r: Resource, h: Holder, timeout: Option<int>, now: int) returns (acquired: bool)
      modifies this
      ensures acquired <==> !Taken(old(locks), r, h, now)
      ensures locks == Acquire(old(locks), r, h, if timeout.Some? then timeout.value else lockTimeout, now)
    {
      var lasts := if timeout.Some? then timeout.value else lockTimeout;
      if r in locks && locks[r].expiresAt > now {
        if locks[r].holder == h {
          locks := locks[r := locks[r].(expiresAt := now + lasts)];
          return true;
        }
        return false;
      }
      locks := locks[r := Lock(h, now + lasts)];
      return true;
    }

    method ReleaseLock(r: Resource, h: Holder) returns (released: bool)
      modifies this
      ensures locks == Release(old(locks), r, h)
      ensures released <==> r !in locks
    {
      if r !in locks { return true; }
      if locks[r].holder != h { return false; }
      locks := locks - {r};
      return true;
    }

    method CleanupExpiredLocks(now: int)
      modifies this
      ensures locks == Cleanup(old(locks), now)
    {
      var rest := locks.Keys;
      while rest != {}
        invariant rest <= old(locks).Keys && rest <= locks.Keys
        invariant forall r :: r in locks <==> r in old(locks) && (r in rest || old(locks)[r].expiresAt > now)
        invariant forall r :: r in locks ==> locks[r] == old(locks)[r]
        decreases |rest|
      {
        var r :| r in rest;
        rest := rest - {r};
        if locks[r].expiresAt <= now { locks := locks - {r}; }
      }
    }
  }
}
