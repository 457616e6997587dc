/**
 Several updates of one instance in one process: each puts its instance in
 memory at once, and later what its last storage call saw.  A call takes effect
 in storage some time before its answer is gone on with.
 */
module InstanceMemory {
  import opened Basics
  import opened InstanceStore

  // An update under way: a call issued, or one that took effect and whose
  // answer is to come; `seen` is the number of commits when it took effect.
  datatype Phase =
    | Casing(data: Data, updatedAt: nat, current: int, retries: int)
    | CasDone(data: Data, updatedAt: nat, current: int, retries: int, matched: bool, seen: nat)
    | Loading(data: Data, updatedAt: nat, retries: int)
    | LoadDone(data: Data, updatedAt: nat, retries: int, snapshot: Snapshot, seen: nat)

  // `commits` counts all commits, and `ended` what the last call of the update
  // that ended last had seen of them.
  datatype State = State(
    stored: Snapshot,
    memory: Snapshot,
    updates: map<nat, Phase>,
    nextKey: nat,
    commits: nat,
    ended: Option<nat>)

  datatype Step =
    | BeginStep(data: Data, updatedAt: nat, version: Option<int>, maxRetries: int)
    | EffectStep(key: nat)
    | GoOnStep(key: nat)
    | OtherStep(data: Data, updatedAt: nat)

  function Store(s: State, data: Data, updatedAt: nat): State {
    s.(stored := Snapshot(data, updatedAt, Some(VersionOf(s.stored) + 1)), commits := s.commits + 1)
  }

  // The caller's instance is in memory before anything is stored.
  function Begin(s: State, data: Data, updatedAt: nat, version: Option<int>, maxRetries: int): State {
    var caller := Snapshot(data, updatedAt, version);
    if maxRetries <= 0 then s.(memory := caller, ended := None)
    else
      s.(memory := caller, ended := None, nextKey := s.nextKey + 1,
         updates := s.updates[s.nextKey := Casing(data, updatedAt, VersionOf(caller), maxRetries - 1)])
  }

  // A call takes effect in storage.
  function Effect(s: State, k: nat): State
    requires k in s.updates
  {
    match s.updates[k]
    case Casing(data, at, current, n) =>
      var matched := VersionOf(s.stored) == current;
      var t := if matched then Store(s, data, at) else s;
      t.(updates := s.updates[k := CasDone(data, at, current, n, matched, t.commits)])
    case Loading(data, at, n) => s.(updates := s.updates[k := LoadDone(data, at, n, s.stored, s.commits)])
    case _ => s
  }

  // Its answer is gone on with: an update ends with what it stored, or with
  // what it loaded last.
  function GoOn(s: State, k: nat): State
    requires k in s.updates
  {
    match s.updates[k]
    case CasDone(data, at, current, n, matched, seen) =>
      if matched then End(s, k, Snapshot(data, at, Some(current + 1)), seen)
      else s.(updates := s.updates[k := Loading(data, at, n)])
    case LoadDone(data, at, n, snapshot, seen) =>
      if n > 0 then s.(updates := s.updates[k := Casing(data, at, VersionOf(snapshot), n - 1)])
      else End(s, k, snapshot, seen)
    case _ => s
  }

  function End(s: State, k: nat, snapshot: Snapshot, seen: nat): State {
    s.(updates := s.updates - {k}, memory := snapshot, ended := Some(seen))
  }

  function Next(s: State, step: Step): State {
    match step
    case BeginStep(data, at, version, n) => Begin(s, data, at, version, n)
    case EffectStep(k) => if k in s.updates then Effect(s, k) else s
    case GoOnStep(k) => if k in s.updates then GoOn(s, k) else s
    case OtherStep(data, at) => Store(s, data, at)
  }

  function After(s: State, steps: seq<Step>): State {
    if steps == [] then s else Next(After(s, steps[..|steps|-1]), steps[|steps|-1])
  }

  function Initial(stored: Snapshot): State {
    State(stored, stored, map[], 0, 0, None)
  }

  // --------------------------------------------------------------- invariant

  // A snapshot seen after so many commits: its version tells how many, and it
  // is what is stored if none came later.
  ghost predicate SeenOk(s: State, snapshot: Snapshot, seen: nat) {
    seen <= s.commits && VersionOf(snapshot) == VersionOf(s.stored) - (s.commits - seen) &&
    (seen == s.commits ==> snapshot == s.stored)
  }

  ghost predicate PhaseOk(s: State, p: Phase) {
    match p
    case CasDone(data, at, current, _, matched, seen) =>
      matched ==> SeenOk(s, Snapshot(data, at, Some(current + 1)), seen)
    case LoadDone(_, _, _, snapshot, seen) => SeenOk(s, snapshot, seen)
    case _ => true
  }

  ghost predicate Inv(s: State) {
    && (forall k :: k in s.updates ==> PhaseOk(s, s.updates[k]))
    && (s.ended.Some? ==> SeenOk(s, s.memory, s.ended.value))
  }

  lemma StoreKeeps(s: State, data: Data, updatedAt: nat)
    requires Inv(s)
    ensures Inv(Store(s, data, updatedAt))
  {
    var t := Store(s, data, updatedAt);
    forall k | k in t.updates
      ensures PhaseOk(t, t.updates[k])
    {
      assert PhaseOk(s, s.updates[k]);
    }
  }

  lemma EffectKeeps(s: State, k: nat)
    requires Inv(s) && k in s.updates
    ensures Inv(Effect(s, k))
  {
    var t := Effect(s, k);
    if s.updates[k].Casing? && VersionOf(s.stored) == s.updates[k].current {
      StoreKeeps(s, s.updates[k].data, s.updates[k].updatedAt);
    }
    forall j | j in t.updates
      ensures PhaseOk(t, t.updates[j])
    {
      if j != k { assert PhaseOk(s, s.updates[j]); }
    }
  }

  lemma GoOnKeeps(s: State, k: nat)
    requires Inv(s) && k in s.updates
    ensures Inv(GoOn(s, k))
  {
    var t := GoOn(s, k);
    assert PhaseOk(s, s.updates[k]);
    forall j | j in t.updates
      ensures PhaseOk(t, t.updates[j])
    {
      if j != k { assert PhaseOk(s, s.updates[j]); }
    }
  }

  lemma BeginKeeps(s: State, data: Data, updatedAt: nat, version: Option<int>, maxRetries: int)
    requires Inv(s)
    ensures Inv(Begin(s, data, updatedAt, version, maxRetries))
  {
    var t := Begin(s, data, updatedAt, version, maxRetries);
    forall j | j in t.updates && j in s.updates
      ensures PhaseOk(t, s.updates[j])
    {
      assert PhaseOk(s, s.updates[j]);
    }
  }

  lemma {:induction false} AlwaysInv(stored: Snapshot, steps: seq<Step>)
    ensures Inv(After(Initial(stored), steps))
    decreases |steps|
  {
    hide Inv, Begin, Effect, GoOn, Store;
    if steps == [] {
      InitialInv(stored);
    } else {
      var before := After(Initial(stored), steps[..|steps|-1]);
      AlwaysInv(stored, steps[..|steps|-1]);
      match steps[|steps|-1]
      case BeginStep(data, at, version, n) => BeginKeeps(before, data, at, version, n);
      case EffectStep(k) => if k in before.updates { EffectKeeps(before, k); }
      case GoOnStep(k) => if k in before.updates { GoOnKeeps(before, k); }
      case OtherStep(data, at) => StoreKeeps(before, data, at);
    }
  }

  lemma InitialInv(stored: Snapshot)
    ensures Inv(Initial(stored))
  {}

  // ------------------------------------------------------------------ results

  // Once an update has ended and until the next one begins: memory has what is
  // stored exactly when nobody committed since the last storage call of the
  // update that ended last took effect; otherwise it is behind by as many
  // versions as there were commits since.
  lemma MemoryCurrentIff(stored: Snapshot, steps: seq<Step>, s: State)
    requires s == After(Initial(stored), steps) && s.ended.Some?
    ensures s.memory == s.stored <==> s.ended.value == s.commits
    ensures VersionOf(s.stored) - VersionOf(s.memory) == s.commits - s.ended.value >= 0
  {
    AlwaysInv(stored, steps);
  }

  // The object of the update that was begun last.
  function LastBegun(stored: Snapshot, steps: seq<Step>): Snapshot {
    if steps == [] then stored
    else
      match steps[|steps|-1]
      case BeginStep(data, at, version, _) => Snapshot(data, at, version)
      case _ => LastBegun(stored, steps[..|steps|-1])
  }

  // From the begin of an update until one ends, memory has the caller's object,
  // which is not stored yet.
  lemma {:induction false} MemoryIsCallers(stored: Snapshot, steps: seq<Step>)
    ensures var s := After(Initial(stored), steps); s.ended.None? ==> s.memory == LastBegun(stored, steps)
    decreases |steps|
  {
    if steps != [] { MemoryIsCallers(stored, steps[..|steps|-1]); }
  }

  // How many retries the update of this key was begun with.
  function Tries(stored: Snapshot, steps: seq<Step>, k: nat): int
    decreases |steps|
  {
    if steps == [] then 0
    else
      var front, step := steps[..|steps|-1], steps[|steps|-1];
      if step.BeginStep? && step.maxRetries > 0 && After(Initial(stored), front).nextKey == k then step.maxRetries
      else Tries(stored, front, k)
  }

  // How many of its storage calls were gone on with.
  function Answered(stored: Snapshot, steps: seq<Step>, k: nat): nat
    decreases |steps|
  {
    if steps == [] then 0
    else
      var front, step := steps[..|steps|-1], steps[|steps|-1];
      var s := After(Initial(stored), front);
      Answered(stored, front, k) +
      if step == GoOnStep(k) && k in s.updates && (s.updates[k].CasDone? || s.updates[k].LoadDone?) then 1 else 0
  }

  // How many calls an update may still make, the one under way included: a
  // write and a load for each retry.
  function CallsLeft(p: Phase): int {
    if p.Casing? || p.CasDone? then 2 * p.retries + 2 else 2 * p.retries + 1
  }

  // An update makes at most two storage calls for each of its retries, of which
  // every other is a write; without retries it makes none.
  lemma {:induction false} CallsBounded(stored: Snapshot, steps: seq<Step>, k: nat)
    ensures var s := After(Initial(stored), steps);
            (k in s.updates ==>
               k < s.nextKey && s.updates[k].retries >= 0 &&
               Answered(stored, steps, k) + CallsLeft(s.updates[k]) == 2 * Tries(stored, steps, k)) &&
            (k >= s.nextKey ==> Answered(stored, steps, k) == 0) &&
            (k !in s.updates && k < s.nextKey ==> Answered(stored, steps, k) <= 2 * Tries(stored, steps, k))
    decreases |steps|
  {
    if steps != [] { CallsBounded(stored, steps[..|steps|-1], k); }
  }

  // One update without others: memory has what is stored when it ends.
  lemma AloneIsCurrent(stored: Snapshot, data: Data, updatedAt: nat)
    ensures var s := After(Initial(stored),
                           [BeginStep(data, updatedAt, stored.version, 3), EffectStep(0), GoOnStep(0)]);
            s.updates == map[] && s.memory == s.stored == Snapshot(data, updatedAt, Some(VersionOf(stored) + 1))
  {
    var steps := [BeginStep(data, updatedAt, stored.version, 3), EffectStep(0), GoOnStep(0)];
    ThreeSteps(Initial(stored), steps);
    hide After;
    assert map[0 := Casing(data, updatedAt, VersionOf(stored), 2)] - {0} == map[];
  }

  // An update that gives up can put back what another one has passed: it loads
  // version 2, the other stores version 3 and ends, and memory is left at 2.
  lemma GivingUpPutsBack(read: Data, a: Data, b: Data, other: Data)
    ensures var start := Initial(Snapshot(read, 0, Some(1)));
            var begun := [BeginStep(a, 1, Some(1), 1), OtherStep(other, 2), EffectStep(0), GoOnStep(0), EffectStep(0)];
            var passed := [BeginStep(b, 3, Some(2), 3), EffectStep(1), GoOnStep(1), GoOnStep(0)];
            var s := After(After(start, begun), passed);
            s.updates == map[] && s.memory == Snapshot(other, 2, Some(2)) && s.stored == Snapshot(b, 3, Some(3))
  {
    var start := Initial(Snapshot(read, 0, Some(1)));
    var begun := [BeginStep(a, 1, Some(1), 1), OtherStep(other, 2), EffectStep(0), GoOnStep(0), EffectStep(0)];
    var passed := [BeginStep(b, 3, Some(2), 3), EffectStep(1), GoOnStep(1), GoOnStep(0)];
    var s1 := State(Snapshot(other, 2, Some(2)), Snapshot(a, 1, Some(1)),
                    map[0 := LoadDone(a, 1, 0, Snapshot(other, 2, Some(2)), 1)], 1, 1, None);
    FiveSteps(start, begun);
    assert After(start, begun) == s1;
    FourSteps(s1, passed);
  }

  lemma ThreeSteps(s: State, steps: seq<Step>)
    requires |steps| == 3
    ensures After(s, steps) == Next(Next(Next(s, steps[0]), steps[1]), steps[2])
  {
    hide Next;
    var b, c := steps[..2], steps[..1];
    assert b[..1] == c && c[..0] == [];
    assert After(s, []) == s;
    assert After(s, c) == Next(s, steps[0]);
    assert After(s, b) == Next(After(s, c), steps[1]);
  }

  lemma FourSteps(s: State, steps: seq<Step>)
    requires |steps| == 4
    ensures After(s, steps) == Next(Next(Next(Next(s, steps[0]), steps[1]), steps[2]), steps[3])
  {
    hide Next;
    ThreeSteps(s, steps[..3]);
  }

  lemma FiveSteps(s: State, steps: seq<Step>)
    requires |steps| == 5
    ensures After(s, steps) == Next(Next(Next(Next(Next(s, steps[0]), steps[1]), steps[2]), steps[3]), steps[4])
  {
    hide Next;
    FourSteps(s, steps[..4]);
  }
}
