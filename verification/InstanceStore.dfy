/**
 Optimistic updates of one stored instance.  What the other writers commit
 between two storage calls, and which calls fail, is an environment that may
 do anything.
 */
module InstanceStore {
  import opened Basics

  type Data(==, !new, 00)

  type Author = nat

  // An absent version counts as 1.
  datatype Snapshot = Snapshot(data: Data, updatedAt: nat, version: Option<int>)

  function VersionOf(s: Snapshot): int {
    if s.version.Some? then s.version.value else 1
  }

  // A call can fail before it has any effect, or after it had its effect.
  datatype Fault = NoFault | Refused | AnswerLost

  // A commit of another writer: the version it read is the stored one.
  datatype Other = Other(author: Author, data: Data, updatedAt: nat)

  // What happens before and at each storage call, by its number.
  datatype Environment = Environment(commits: nat -> seq<Other>, fault: nat -> Fault)

  // `author` is None for the writer under study.
  datatype Entry = Entry(author: Option<Author>, snapshot: Snapshot)

  // The stored instance, the commits so far, and the storage calls so far.
  datatype World = World(stored: Option<Snapshot>, log: seq<Entry>, calls: nat)

  // A compare-and-swap that matches: the stored version goes up by one.
  function Commit(w: World, author: Option<Author>, data: Data, updatedAt: nat): World
    requires w.stored.Some?
  {
    var s := Snapshot(data, updatedAt, Some(VersionOf(w.stored.value) + 1));
    w.(stored := Some(s), log := w.log + [Entry(author, s)])
  }

  function Others(w: World, commits: seq<Other>): World {
    if commits == [] || w.stored.None? then w
    else
      var last := commits[|commits|-1];
      var before := Others(w, commits[..|commits|-1]);
      if before.stored.None? then before else Commit(before, Some(last.author), last.data, last.updatedAt)
  }

  // The other writers act, and the next call begins.
  function Before(env: Environment, w: World): World {
    Others(w, env.commits(w.calls)).(calls := w.calls + 1)
  }

  datatype Answer<T> = Answered(value: T) | Thrown

  function Cas(env: Environment, w: World, s: Snapshot): (World, Answer<bool>) {
    var now := Before(env, w);
    var matches := now.stored.Some? && VersionOf(now.stored.value) == VersionOf(s);
    var after := if matches && !env.fault(w.calls).Refused? then Commit(now, None, s.data, s.updatedAt) else now;
    (after, if env.fault(w.calls).NoFault? then Answered(matches) else Thrown)
  }

  function Load(env: Environment, w: World): (World, Answer<Option<Snapshot>>) {
    var now := Before(env, w);
    (now, if env.fault(w.calls).NoFault? then Answered(now.stored) else Thrown)
  }

  datatype Exit = Updated(version: int) | Conflict(lastGood: Option<Snapshot>) | StorageFailed

  datatype Round = Ended(world: World, exit: Exit) | Again(world: World, current: int, lastGood: Option<Snapshot>)

  // One write based on version `current`, and a reload if it does not match.
  function OneRound(env: Environment, w: World, data: Data, updatedAt: nat, current: int,
                    lastGood: Option<Snapshot>): Round {
    var cas := Cas(env, w, Snapshot(data, updatedAt, Some(current)));
    if cas.1.Thrown? then Ended(cas.0, StorageFailed)
    else if cas.1.value then Ended(cas.0, Updated(current + 1))
    else
      var load := Load(env, cas.0);
      if load.1.Thrown? then Ended(load.0, StorageFailed)
      else if load.1.value.None? then Again(load.0, current, lastGood)
      else Again(load.0, VersionOf(load.1.value.value), load.1.value)
  }

  function Attempts(env: Environment, w: World, data: Data, updatedAt: nat, current: int, retries: int,
                    lastGood: Option<Snapshot>): (World, Exit)
    decreases retries
  {
    if retries <= 0 then (w, Conflict(lastGood))
    else
      match OneRound(env, w, data, updatedAt, current, lastGood)
      case Ended(after, exit) => (after, exit)
      case Again(after, next, good) => Attempts(env, after, data, updatedAt, next, retries - 1, good)
  }

  // ------------------------------------------------------------- the history

  // Each commit stores the version after the one before it, the first the
  // version after `from`, and the last is what is stored.
  ghost predicate History(w: World, from: int) {
    && (forall i :: 0 <= i < |w.log| ==> w.log[i].snapshot.version == Some(from + i + 1))
    && (w.stored.None? ==> w.log == [])
    && (w.stored.Some? ==> VersionOf(w.stored.value) == from + |w.log|)
    && (w.log != [] ==> w.stored == Some(w.log[|w.log|-1].snapshot))
  }

  // How many of these commits are those of the writer under study.
  function Own(log: seq<Entry>): nat {
    if log == [] then 0 else Own(log[..|log|-1]) + if log[|log|-1].author.None? then 1 else 0
  }

  lemma CommitKeeps(w: World, author: Option<Author>, data: Data, updatedAt: nat, from: int)
    requires History(w, from) && w.stored.Some?
    ensures var t := Commit(w, author, data, updatedAt);
            History(t, from) && t.log == w.log + [Entry(author, Snapshot(data, updatedAt, Some(from + |w.log| + 1)))] &&
            t.stored.Some? && t.calls == w.calls && Own(t.log) == Own(w.log) + if author.None? then 1 else 0
  {}

  lemma {:induction false} OthersKeep(w: World, commits: seq<Other>, from: int)
    requires History(w, from)
    ensures var t := Others(w, commits);
            History(t, from) && w.log <= t.log && Own(t.log) == Own(w.log) && t.stored.Some? == w.stored.Some? &&
            |t.log| == |w.log| + if w.stored.Some? then |commits| else 0
    decreases |commits|
  {
    hide History, Own, Commit;
    if commits != [] && w.stored.Some? {
      var front, last := commits[..|commits|-1], commits[|commits|-1];
      OthersKeep(w, front, from);
      CommitKeeps(Others(w, front), Some(last.author), last.data, last.updatedAt, from);
    }
  }

  // Between two calls the others' commits are added.
  lemma BeforeKeeps(env: Environment, w: World, from: int)
    requires History(w, from)
    ensures var t := Before(env, w);
            History(t, from) && w.log <= t.log && Own(t.log) == Own(w.log) && t.stored.Some? == w.stored.Some? &&
            t.calls == w.calls + 1 && |t.log| == |w.log| + if w.stored.Some? then |env.commits(w.calls)| else 0
  {
    OthersKeep(w, env.commits(w.calls), from);
    hide Others, Own;
  }

  lemma StoredVersion(w: World, from: int)
    requires History(w, from)
    ensures w.stored.Some? ==> VersionOf(w.stored.value) == from + |w.log|
  {}

  // A write: the log grows by others' commits, and by one own commit exactly
  // when the write matches and is not refused.
  lemma CasKeeps(env: Environment, w: World, s: Snapshot, from: int)
    requires History(w, from) && s.version.Some?
    ensures var r := Cas(env, w, s);
            var matches := w.stored.Some? && from + |w.log| + |env.commits(w.calls)| == s.version.value;
            var committed := matches && !env.fault(w.calls).Refused?;
            History(r.0, from) && w.log <= r.0.log && r.0.calls == w.calls + 1 && r.0.stored.Some? == w.stored.Some? &&
            Own(r.0.log) == Own(w.log) + (if committed then 1 else 0) &&
            (committed ==>
             |r.0.log| > |w.log| && r.0.log[|r.0.log|-1] == Entry(None, s.(version := Some(s.version.value + 1))) &&
                           s.version.value + 1 == from + |r.0.log|) &&
            r.1 == if env.fault(w.calls).NoFault? then Answered(matches) else Thrown
  {
    hide Before, Commit, History, Own;
    BeforeKeeps(env, w, from);
    var now := Before(env, w);
    StoredVersion(now, from);
    if now.stored.Some? { CommitKeeps(now, None, s.data, s.updatedAt, from); }
  }

  ghost predicate ExitOk(w: World, after: World, exit: Exit, data: Data, updatedAt: nat, from: int) {
    && History(after, from) && w.log <= after.log && after.stored.None? == w.stored.None?
    && match exit
       case Updated(v) =>
         Own(after.log) == Own(w.log) + 1 && |after.log| > |w.log| &&
         after.log[|after.log|-1] == Entry(None, Snapshot(data, updatedAt, Some(v))) && v == from + |after.log|
       case Conflict(_) => Own(after.log) == Own(w.log)
       case StorageFailed => Own(after.log) <= Own(w.log) + 1
  }

  lemma RoundOk(env: Environment, w: World, data: Data, updatedAt: nat, current: int, lastGood: Option<Snapshot>,
                from: int)
    requires History(w, from)
    ensures match OneRound(env, w, data, updatedAt, current, lastGood)
            case Ended(after, exit) => !exit.Conflict? && ExitOk(w, after, exit, data, updatedAt, from)
            case Again(after, next, good) =>
              ExitOk(w, after, Conflict(good), data, updatedAt, from) && after.calls == w.calls + 2 &&
              good == if after.stored.None? then lastGood else after.stored
  {
    hide History, Before, Own, Cas;
    var s := Snapshot(data, updatedAt, Some(current));
    var cas := Cas(env, w, s);
    CasKeeps(env, w, s, from);
    BeforeKeeps(env, cas.0, from);
  }

  // Normal return: exactly one own write is committed, the last of all, and
  // takes the stored version from v - 1 to v.  Conflict: none is, and the
  // snapshot loaded last is what is stored.  Storage failure: at most one is.
  lemma {:induction false} UpdateOutcome(env: Environment, w: World, data: Data, updatedAt: nat, current: int,
                                         retries: int, lastGood: Option<Snapshot>, from: int)
    requires History(w, from)
    ensures var r := Attempts(env, w, data, updatedAt, current, retries, lastGood);
            ExitOk(w, r.0, r.1, data, updatedAt, from) &&
            (r.1.Conflict? ==> r.1.lastGood == if retries <= 0 || r.0.stored.None? then lastGood else r.0.stored)
    decreases retries
  {
    hide History, OneRound;
    if retries > 0 {
      RoundOk(env, w, data, updatedAt, current, lastGood, from);
      var round := OneRound(env, w, data, updatedAt, current, lastGood);
      if round.Again? {
        UpdateOutcome(env, round.world, data, updatedAt, round.current, retries - 1, round.lastGood, from);
      }
    }
  }

  // ------------------------------------------------------- when it conflicts

  // No call fails from this one on.
  ghost predicate Faultless(env: Environment, call: nat) {
    forall k :: k >= call ==> env.fault(k).NoFault?
  }

  // Another writer commits between the reload of some round and the next write.
  ghost predicate Outrun(env: Environment, call: nat, rounds: int) {
    forall i :: 1 <= i < rounds ==> env.commits(call + 2 * i) != []
  }

  // With a stored instance and no failing call, the update conflicts exactly
  // when its first version is stale and another writer commits before each
  // further write.
  lemma {:induction false} ConflictIffOutrun(env: Environment, w: World, data: Data, updatedAt: nat, current: int,
                                             retries: int, lastGood: Option<Snapshot>, from: int)
    requires History(w, from) && w.stored.Some? && Faultless(env, w.calls) && retries > 0
    ensures Attempts(env, w, data, updatedAt, current, retries, lastGood).1.Conflict? <==>
            from + |w.log| + |env.commits(w.calls)| != current && Outrun(env, w.calls, retries)
    decreases retries
  {
    RoundOk(env, w, data, updatedAt, current, lastGood, from);
    RoundFaultless(env, w, data, updatedAt, current, lastGood, from);
    hide History, OneRound;
    var round := OneRound(env, w, data, updatedAt, current, lastGood);
    if round.Again? && retries > 1 {
      ConflictIffOutrun(env, round.world, data, updatedAt, round.current, retries - 1, round.lastGood, from);
      OutrunStep(env, w.calls, retries);
    }
  }

  lemma OutrunStep(env: Environment, call: nat, rounds: int)
    requires rounds > 1
    ensures Outrun(env, call, rounds) <==> env.commits(call + 2) != [] && Outrun(env, call + 2, rounds - 1)
  {
    if Outrun(env, call, rounds) {
      forall i | 1 <= i < rounds - 1
        ensures env.commits(call + 2 + 2 * i) != []
      {
        assert env.commits(call + 2 * (i + 1)) != [];
      }
      assert env.commits(call + 2 * 1) != [];
    }
    if env.commits(call + 2) != [] && Outrun(env, call + 2, rounds - 1) {
      forall i | 1 <= i < rounds
        ensures env.commits(call + 2 * i) != []
      {
        if i > 1 { assert env.commits(call + 2 + 2 * (i - 1)) != []; }
      }
    }
  }

  lemma RoundFaultless(env: Environment, w: World, data: Data, updatedAt: nat, current: int,
                       lastGood: Option<Snapshot>, from: int)
    requires History(w, from) && w.stored.Some? && Faultless(env, w.calls)
    ensures var r := OneRound(env, w, data, updatedAt, current, lastGood);
            if from + |w.log| + |env.commits(w.calls)| == current then r.Ended? && r.exit.Updated?
            else r.Again? && r.current == from + |r.world.log|
  {
    hide History, Before, Own, Cas;
    var cas := Cas(env, w, Snapshot(data, updatedAt, Some(current)));
    CasKeeps(env, w, Snapshot(data, updatedAt, Some(current)), from);
    BeforeKeeps(env, cas.0, from);
    StoredVersion(Before(env, cas.0), from);
  }

  // ------------------------------------------------ when a commit is overwritten

  // With a version that was read from storage: a normal return, whatever calls
  // would fail later, is at the version after the one that was read exactly
  // when nobody committed before the first write.  Otherwise the write
  // replaces commits that were never read.
  lemma {:induction false} NothingOverwrittenIff(env: Environment, w: World, data: Data, updatedAt: nat, current: int,
                                                 retries: int, lastGood: Option<Snapshot>, from: int)
    requires History(w, from) && current <= from + |w.log|
    requires Attempts(env, w, data, updatedAt, current, retries, lastGood).1.Updated?
    ensures var v := Attempts(env, w, data, updatedAt, current, retries, lastGood).1.version;
            v > current && (v == current + 1 <==> from + |w.log| + |env.commits(w.calls)| == current)
    decreases retries
  {
    UpdateOutcome(env, w, data, updatedAt, current, retries, lastGood, from);
    assert w.stored.Some?;
    RoundOk(env, w, data, updatedAt, current, lastGood, from);
    RoundGrows(env, w, data, updatedAt, current, lastGood, from);
    hide History, OneRound;
    var round := OneRound(env, w, data, updatedAt, current, lastGood);
    if round.Again? {
      NothingOverwrittenIff(env, round.world, data, updatedAt, round.current, retries - 1, round.lastGood, from);
    }
  }

  lemma RoundGrows(env: Environment, w: World, data: Data, updatedAt: nat, current: int, lastGood: Option<Snapshot>,
                   from: int)
    requires History(w, from) && w.stored.Some?
    ensures var r, now := OneRound(env, w, data, updatedAt, current, lastGood), from + |w.log| + |env.commits(w.calls)|;
            (r.Ended? && r.exit.Updated? ==> r.exit.version == current + 1 && now == current) &&
            (r.Again? ==> now != current && from + |r.world.log| >= now && r.current == from + |r.world.log|)
  {
    hide History, Before, Own, Cas;
    var s := Snapshot(data, updatedAt, Some(current));
    CasKeeps(env, w, s, from);
    CasGrows(env, w, s, from);
    BeforeKeeps(env, Cas(env, w, s).0, from);
    StoredVersion(Before(env, Cas(env, w, s).0), from);
  }

  lemma CasGrows(env: Environment, w: World, s: Snapshot, from: int)
    requires History(w, from) && w.stored.Some?
    ensures |Cas(env, w, s).0.log| >= |w.log| + |env.commits(w.calls)|
  {
    BeforeKeeps(env, w, from);
    hide Before, History;
  }

  // One such run: what another writer stored as version 2 is replaced by an
  // update that read version 1, and the update returns normally.
  lemma CommitOverwritten(read: Data, other: Data, data: Data, author: Author)
    ensures var w := World(Some(Snapshot(read, 0, Some(1))), [], 0);
            var env := Environment(k => if k == 0 then [Other(author, other, 1)] else [], k => NoFault);
            var r := Attempts(env, w, data, 2, 1, 3, None);
            r.1 == Updated(3) && r.0.stored == Some(Snapshot(data, 2, Some(3))) &&
            r.0.log == [Entry(Some(author), Snapshot(other, 1, Some(2))), Entry(None, Snapshot(data, 2, Some(3)))]
  {
    var w := World(Some(Snapshot(read, 0, Some(1))), [], 0);
    var first := [Other(author, other, 1)];
    var env := Environment(k => if k == 0 then first else [], k => NoFault);
    assert first[..0] == [];
    var seen := Snapshot(other, 1, Some(2));
    assert Others(w, first) == Commit(w, Some(author), other, 1);
    assert OneRound(env, w, data, 2, 1, None)
        == Again(World(Some(seen), [Entry(Some(author), seen)], 2), 2, Some(seen));
  }

  // ------------------------------------------------------------- many writers

  // One writer of many: how often its update returned normally, how many of
  // its writes were made without the answer reaching it, and what it does now.
  datatype Phase =
    | Idle
    | Writing(data: Data, updatedAt: nat, current: int, retries: int)
    | Reloading(data: Data, updatedAt: nat, current: int, retries: int)

  datatype Writer = Writer(phase: Phase, returned: nat, lost: nat)

  datatype Shared = Shared(world: World, writers: seq<Writer>)

  datatype Action = Begin(data: Data, updatedAt: nat, version: int, maxRetries: int) | Call(fault: Fault)

  // The next storage call of a writer, or the beginning of an update.
  function Act(s: Shared, i: nat, action: Action): (t: Shared)
    requires i < |s.writers|
    ensures |t.writers| == |s.writers| && forall j :: 0 <= j < |s.writers| && j != i ==> t.writers[j] == s.writers[j]
  {
    var w := s.writers[i];
    match (w.phase, action)
    case (Idle, Begin(data, at, version, n)) => Set(s, i, w.(phase := NextWrite(data, at, version, n)))
    case (Writing(data, at, current, n), Call(fault)) =>
      var matches := s.world.stored.Some? && VersionOf(s.world.stored.value) == current;
      if fault.Refused? then Set(s, i, w.(phase := Idle))
      else if fault.AnswerLost? then
        if matches then Set(s.(world := Commit(s.world, Some(i), data, at)), i, w.(phase := Idle, lost := w.lost + 1))
        else Set(s, i, w.(phase := Idle))
      else if matches then
        Set(s.(world := Commit(s.world, Some(i), data, at)), i, w.(phase := Idle, returned := w.returned + 1))
      else Set(s, i, w.(phase := Reloading(data, at, current, n - 1)))
    case (Reloading(data, at, current, n), Call(fault)) =>
      if !fault.NoFault? then Set(s, i, w.(phase := Idle))
      else
        var version := if s.world.stored.Some? then VersionOf(s.world.stored.value) else current;
        Set(s, i, w.(phase := NextWrite(data, at, version, n)))
    case _ => s
  }

  function NextWrite(data: Data, updatedAt: nat, version: int, retries: int): Phase {
    if retries <= 0 then Idle else Writing(data, updatedAt, version, retries)
  }

  function Set(s: Shared, i: nat, w: Writer): Shared
    requires i < |s.writers|
  {
    s.(writers := s.writers[i := w])
  }

  function By(log: seq<Entry>, author: Author): nat {
    if log == [] then 0 else By(log[..|log|-1], author) + if log[|log|-1].author == Some(author) then 1 else 0
  }

  // Every version from the first on was committed once, by one writer, and a
  // writer has as many commits as updates that returned or lost their answer.
  ghost predicate Accounted(s: Shared, from: int) {
    History(s.world, from) && (forall k :: 0 <= k < |s.world.log| ==> InRange(s, s.world.log[k].author)) &&
    forall i :: 0 <= i < |s.writers| ==> By(s.world.log, i) == s.writers[i].returned + s.writers[i].lost
  }

  ghost predicate InRange(s: Shared, author: Option<Author>) {
    author.Some? && author.value < |s.writers|
  }

  lemma SetKeeps(s: Shared, i: nat, w: Writer, from: int)
    requires Accounted(s, from) && i < |s.writers|
    requires w.returned + w.lost == s.writers[i].returned + s.writers[i].lost
    ensures Accounted(Set(s, i, w), from)
  {}

  lemma CommitAccounted(s: Shared, i: nat, data: Data, updatedAt: nat, w: Writer, from: int)
    requires Accounted(s, from) && i < |s.writers| && s.world.stored.Some?
    requires w.returned + w.lost == s.writers[i].returned + s.writers[i].lost + 1
    ensures Accounted(Set(s.(world := Commit(s.world, Some(i), data, updatedAt)), i, w), from)
  {}

  lemma ActKeeps(s: Shared, i: nat, action: Action, from: int)
    requires Accounted(s, from) && i < |s.writers|
    ensures Accounted(Act(s, i, action), from)
  {
    hide Accounted, Commit, Set, NextWrite;
    var w := s.writers[i];
    match (w.phase, action)
    case (Idle, Begin(data, at, version, n)) => SetKeeps(s, i, w.(phase := NextWrite(data, at, version, n)), from);
    case (Writing(data, at, current, n), Call(fault)) =>
      SetKeeps(s, i, w.(phase := Idle), from);
      SetKeeps(s, i, w.(phase := Reloading(data, at, current, n - 1)), from);
      if s.world.stored.Some? {
        CommitAccounted(s, i, data, at, w.(phase := Idle, lost := w.lost + 1), from);
        CommitAccounted(s, i, data, at, w.(phase := Idle, returned := w.returned + 1), from);
      }
    case (Reloading(data, at, current, n), Call(fault)) =>
      SetKeeps(s, i, w.(phase := Idle), from);
      var version := if s.world.stored.Some? then VersionOf(s.world.stored.value) else current;
      SetKeeps(s, i, w.(phase := NextWrite(data, at, version, n)), from);
    case _ =>
  }

  function ActAll(s: Shared, schedule: seq<(nat, Action)>): Shared
    decreases |schedule|
  {
    if schedule == [] then s
    else if schedule[0].0 < |s.writers| then ActAll(Act(s, schedule[0].0, schedule[0].1), schedule[1..])
    else ActAll(s, schedule[1..])
  }

  // Over every interleaving of the calls of all writers.
  lemma {:induction false} VersionsGapFree(s: Shared, schedule: seq<(nat, Action)>, from: int)
    requires Accounted(s, from)
    ensures var t := ActAll(s, schedule);
            Accounted(t, from) && forall k :: 0 <= k < |t.world.log| ==>
              t.world.log[k].snapshot.version == Some(from + k + 1) && InRange(t, t.world.log[k].author)
    decreases |schedule|
  {
    if schedule != [] {
      hide Act, By;
      if schedule[0].0 < |s.writers| {
        ActKeeps(s, schedule[0].0, schedule[0].1, from);
        hide Accounted;
        VersionsGapFree(Act(s, schedule[0].0, schedule[0].1), schedule[1..], from);
      } else {
        VersionsGapFree(s, schedule[1..], from);
      }
    }
  }

  // -------------------------------------------- each writer runs the retry loop

  // What one writer sees: its own commits, and those of the others.
  function ViewLog(log: seq<Entry>, i: nat): seq<Entry> {
    if log == [] then []
    else
      var e := log[|log|-1];
      ViewLog(log[..|log|-1], i) + [if e.author == Some(i) then Entry(None, e.snapshot) else e]
  }

  function View(w: World, i: nat, calls: nat): World {
    World(w.stored, ViewLog(w.log, i), calls)
  }

  // What others do before a call of the writer under study, and how it fares.
  datatype Turn = Turn(others: seq<(nat, Action)>, fault: Fault)

  function TakeTurn(s: Shared, i: nat, turn: Turn): (t: Shared)
    requires i < |s.writers|
    ensures |t.writers| == |s.writers|
  {
    SameWriters(s, turn.others);
    Act(ActAll(s, turn.others), i, Call(turn.fault))
  }

  lemma {:induction false} SameWriters(s: Shared, schedule: seq<(nat, Action)>)
    ensures |ActAll(s, schedule).writers| == |s.writers|
    decreases |schedule|
  {
    if schedule != [] {
      hide Act;
      SameWriters(if schedule[0].0 < |s.writers| then Act(s, schedule[0].0, schedule[0].1) else s, schedule[1..]);
    }
  }

  function TakeTurns(s: Shared, i: nat, turns: seq<Turn>): Shared
    requires i < |s.writers|
    decreases |turns|
  {
    if turns == [] then s else TakeTurns(TakeTurn(s, i, turns[0]), i, turns[1..])
  }

  // The update ends with the last of these turns.
  predicate Finishes(s: Shared, i: nat, turns: seq<Turn>)
    requires i < |s.writers|
    decreases |turns|
  {
    turns != [] &&
    var t := TakeTurn(s, i, turns[0]);
    if t.writers[i].phase.Idle? then turns[1..] == [] else Finishes(t, i, turns[1..])
  }

  function CommitOf(s: Shared, j: nat, action: Action): seq<Other>
    requires j < |s.writers|
  {
    match (s.writers[j].phase, action)
    case (Writing(data, at, current, _), Call(fault)) =>
      if !fault.Refused? && s.world.stored.Some? && VersionOf(s.world.stored.value) == current then [Other(j, data, at)]
      else []
    case _ => []
  }

  // What the others of a schedule commit.
  function Committed(s: Shared, schedule: seq<(nat, Action)>): seq<Other>
    decreases |schedule|
  {
    if schedule == [] then []
    else if schedule[0].0 < |s.writers| then
      CommitOf(s, schedule[0].0, schedule[0].1) + Committed(Act(s, schedule[0].0, schedule[0].1), schedule[1..])
    else Committed(s, schedule[1..])
  }

  predicate OfOthers(i: nat, schedule: seq<(nat, Action)>) {
    forall k :: 0 <= k < |schedule| ==> schedule[k].0 != i
  }

  // The environment that the others make for the writer, from this call on.
  ghost predicate Induces(s: Shared, i: nat, turns: seq<Turn>, env: Environment, call: nat)
    requires i < |s.writers|
    decreases |turns|
  {
    turns == [] ||
    (OfOthers(i, turns[0].others) && env.commits(call) == Committed(s, turns[0].others) &&
     env.fault(call) == turns[0].fault && Induces(TakeTurn(s, i, turns[0]), i, turns[1..], env, call + 1))
  }

  // There always is such an environment.
  lemma InducedEnvironment(s: Shared, i: nat, turns: seq<Turn>, call: nat) returns (env: Environment)
    requires i < |s.writers| && forall k :: 0 <= k < |turns| ==> OfOthers(i, turns[k].others)
    ensures Induces(s, i, turns, env, call)
  {
    env := Environment(k => if k < call then [] else CommitsAt(s, i, turns, k - call),
                       k => if call <= k < call + |turns| then turns[k - call].fault else NoFault);
    InducesAll(s, i, turns, env, call);
  }

  function CommitsAt(s: Shared, i: nat, turns: seq<Turn>, k: nat): seq<Other>
    requires i < |s.writers|
    decreases k
  {
    if k >= |turns| then []
    else if k == 0 then Committed(s, turns[0].others)
    else CommitsAt(TakeTurn(s, i, turns[0]), i, turns[1..], k - 1)
  }

  lemma {:induction false} InducesAll(s: Shared, i: nat, turns: seq<Turn>, env: Environment, call: nat)
    requires i < |s.writers|
    requires forall k :: 0 <= k < |turns| ==> OfOthers(i, turns[k].others) && env.fault(call + k) == turns[k].fault
    requires forall k :: 0 <= k < |turns| ==> env.commits(call + k) == CommitsAt(s, i, turns, k)
    ensures Induces(s, i, turns, env, call)
    decreases |turns|
  {
    hide TakeTurn, Committed, OfOthers;
    if turns != [] {
      forall k | 0 <= k < |turns[1..]|
        ensures OfOthers(i, turns[1..][k].others) && env.fault(call + 1 + k) == turns[1..][k].fault
        ensures env.commits(call + 1 + k) == CommitsAt(TakeTurn(s, i, turns[0]), i, turns[1..], k)
      {
        assert OfOthers(i, turns[k + 1].others) && env.fault(call + (k + 1)) == turns[k + 1].fault;
        assert env.commits(call + (k + 1)) == CommitsAt(s, i, turns, k + 1);
      }
      assert env.commits(call + 0) == CommitsAt(s, i, turns, 0) && env.fault(call + 0) == turns[0].fault;
      InducesAll(TakeTurn(s, i, turns[0]), i, turns[1..], env, call + 1);
    }
  }

  lemma ViewCommit(w: World, i: nat, author: Author, data: Data, at: nat, calls: nat)
    requires w.stored.Some?
    ensures View(Commit(w, Some(author), data, at), i, calls) ==
            Commit(View(w, i, calls), if author == i then None else Some(author), data, at)
  {
    var t := Commit(w, Some(author), data, at);
    assert t.log[..|t.log|-1] == w.log;
  }

  lemma {:induction false} OthersConcat(w: World, a: seq<Other>, b: seq<Other>)
    ensures Others(w, a + b) == Others(Others(w, a), b)
    decreases |b|
  {
    hide Commit;
    if b == [] {
      assert a + b == a;
    } else {
      assert (a + b)[..|a+b|-1] == a + b[..|b|-1];
      OthersConcat(w, a, b[..|b|-1]);
    }
  }

  lemma OtherActs(s: Shared, i: nat, j: nat, action: Action, calls: nat)
    requires i < |s.writers| && j < |s.writers| && i != j
    ensures View(Act(s, j, action).world, i, calls) == Others(View(s.world, i, calls), CommitOf(s, j, action))
  {
    var w := s.writers[j];
    var commits := CommitOf(s, j, action);
    if commits != [] {
      ViewCommit(s.world, i, j, w.phase.data, w.phase.updatedAt, calls);
      assert commits[..0] == [];
    }
    hide Commit, ViewLog;
  }

  lemma {:induction false} OthersAct(s: Shared, i: nat, schedule: seq<(nat, Action)>, calls: nat)
    requires i < |s.writers| && OfOthers(i, schedule)
    ensures var t := ActAll(s, schedule);
            |t.writers| == |s.writers| && t.writers[i] == s.writers[i] &&
            View(t.world, i, calls) == Others(View(s.world, i, calls), Committed(s, schedule))
    decreases |schedule|
  {
    hide Act, View, CommitOf, Others;
    if schedule == [] {
      OthersNone(View(s.world, i, calls));
    } else {
      var (j, action) := schedule[0];
      if j < |s.writers| {
        var t := Act(s, j, action);
        OtherActs(s, i, j, action, calls);
        OthersAct(t, i, schedule[1..], calls);
        OthersConcat(View(s.world, i, calls), CommitOf(s, j, action), Committed(t, schedule[1..]));
      } else {
        OthersAct(s, i, schedule[1..], calls);
      }
    }
  }

  lemma OthersNone(w: World)
    ensures Others(w, []) == w
  {}

  // A turn of a writer that is to write is a compare-and-swap.
  lemma WriteTurn(s: Shared, i: nat, turn: Turn, env: Environment, call: nat)
    requires i < |s.writers| && s.writers[i].phase.Writing? && OfOthers(i, turn.others)
    requires env.commits(call) == Committed(s, turn.others) && env.fault(call) == turn.fault
    ensures var p, t := s.writers[i].phase, TakeTurn(s, i, turn);
            var cas := Cas(env, View(s.world, i, call), Snapshot(p.data, p.updatedAt, Some(p.current)));
            View(t.world, i, call + 1) == cas.0 &&
            t.writers[i].phase ==
            (if cas.1 == Answered(false) then Reloading(p.data, p.updatedAt, p.current, p.retries - 1) else Idle) &&
            t.writers[i].returned == s.writers[i].returned + if cas.1 == Answered(true) then 1 else 0
  {
    var a := ActAll(s, turn.others);
    OthersAct(s, i, turn.others, call);
    hide Act, ViewLog, Others, ActAll, Committed, OfOthers, Cas;
    assert View(a.world, i, call + 1) == Before(env, View(s.world, i, call));
    hide View, Before;
    assert View(s.world, i, call).calls == call by { ViewCalls(s.world, i, call); }
    WriteCall(a, i, env, View(s.world, i, call));
  }

  lemma ViewCalls(w: World, i: nat, calls: nat)
    ensures View(w, i, calls).calls == calls
  {}

  lemma WriteCall(s: Shared, i: nat, env: Environment, seen: World)
    requires i < |s.writers| && s.writers[i].phase.Writing?
    requires View(s.world, i, seen.calls + 1) == Before(env, seen)
    ensures var p, t := s.writers[i].phase, Act(s, i, Call(env.fault(seen.calls)));
            var cas := Cas(env, seen, Snapshot(p.data, p.updatedAt, Some(p.current)));
            View(t.world, i, seen.calls + 1) == cas.0 &&
            t.writers[i].phase ==
            (if cas.1 == Answered(false) then Reloading(p.data, p.updatedAt, p.current, p.retries - 1) else Idle) &&
            t.writers[i].returned == s.writers[i].returned + if cas.1 == Answered(true) then 1 else 0
  {
    var p := s.writers[i].phase;
    if s.world.stored.Some? { ViewCommit(s.world, i, i, p.data, p.updatedAt, seen.calls + 1); }
    hide Commit, ViewLog, Before;
  }

  lemma ReloadTurn(s: Shared, i: nat, turn: Turn, env: Environment, call: nat)
    requires i < |s.writers| && s.writers[i].phase.Reloading? && OfOthers(i, turn.others)
    requires env.commits(call) == Committed(s, turn.others) && env.fault(call) == turn.fault
    ensures var p, t := s.writers[i].phase, TakeTurn(s, i, turn);
            var load := Load(env, View(s.world, i, call));
            View(t.world, i, call + 1) == load.0 && t.writers[i].returned == s.writers[i].returned &&
            t.writers[i].phase == if load.1.Thrown? then Idle
                                  else NextWrite(p.data, p.updatedAt,
                                                 if load.1.value.Some? then VersionOf(load.1.value.value)
                                                   else p.current,
                                                 p.retries)
  {
    var a := ActAll(s, turn.others);
    OthersAct(s, i, turn.others, call);
    hide Commit, ViewLog, Others, ActAll, Committed, OfOthers;
    assert View(a.world, i, call + 1) == Before(env, View(s.world, i, call));
  }

  // Each of many writers, whatever the others do between its calls, does what
  // the retry loop does in the environment the others make.
  lemma {:induction false} WriterIsAttempts(s: Shared, i: nat, turns: seq<Turn>, env: Environment, call: nat,
                                            lastGood: Option<Snapshot>)
    requires i < |s.writers| && s.writers[i].phase.Writing? && s.writers[i].phase.retries > 0
    requires Finishes(s, i, turns) && Induces(s, i, turns, env, call)
    ensures var p, t := s.writers[i].phase, TakeTurns(s, i, turns);
            var r := Attempts(env, View(s.world, i, call), p.data, p.updatedAt, p.current, p.retries, lastGood);
            |t.writers| == |s.writers| && View(t.world, i, call + |turns|) == r.0 &&
            t.writers[i].returned == s.writers[i].returned + if r.1.Updated? then 1 else 0
    decreases |turns|
  {
    hide View, TakeTurn, Cas, Load, Committed;
    var p, t := s.writers[i].phase, TakeTurn(s, i, turns[0]);
    WriteTurn(s, i, turns[0], env, call);
    if t.writers[i].phase.Idle? {
      assert TakeTurns(s, i, turns) == t;
    } else {
      var rest := turns[1..];
      ReloadTurn(t, i, rest[0], env, call + 1);
      var u := TakeTurn(t, i, rest[0]);
      assert TakeTurns(s, i, turns) == TakeTurns(u, i, rest[1..]);
      if !u.writers[i].phase.Idle? {
        var round := OneRound(env, View(s.world, i, call), p.data, p.updatedAt, p.current, lastGood);
        WriterIsAttempts(u, i, rest[1..], env, call + 2, round.lastGood);
      }
    }
  }
}
