/**
 Operations of the dead-letter queue that overlap: how far it can outgrow its
 capacity, and when storage keeps what memory has dropped.
 */
module DeadLetterOverlaps {
  import opened Basics
  import opened DeadLetters

  // -------------------------------------------------------------------- size

  lemma Snoc(q: Queue, maxSize: int, steps: seq<Step>, step: Step)
    ensures After(q, maxSize, steps + [step]) == Next(After(q, maxSize, steps), maxSize, step)
  {
    assert (steps + [step])[..|steps|] == steps;
  }

  lemma {:induction false} Filled(maxSize: nat, n: nat) returns (steps: seq<Step>)
    requires n <= maxSize
    ensures var q := After(Restore([]), maxSize, steps);
            |q.letters| == n && q.pushing == map[] && q.nextKey == 0 && q.overlap == 0
    decreases n
  {
    hide IdOf, Ids;
    if n == 0 {
      steps := [];
    } else {
      var before := Filled(maxSize, n - 1);
      steps := before + [PushStep(0)];
      Snoc(Restore([]), maxSize, before, PushStep(0));
    }
  }

  function Below(p: nat): (r: set<nat>)
    ensures forall k :: k in r ==> k < p
  {
    if p == 0 then {} else Below(p - 1) + {p - 1}
  }

  // As many pushes wait, each of which evicted a letter whose place the next
  // push took.
  lemma {:induction false} Waiting(maxSize: nat, p: nat) returns (steps: seq<Step>)
    requires maxSize >= 1
    ensures var q := After(Restore([]), maxSize, steps);
            |q.letters| == maxSize && q.pushing.Keys == Below(p) && q.nextKey == p && q.overlap == p
    decreases p
  {
    hide After, Restore;
    if p == 0 {
      steps := Filled(maxSize, maxSize);
    } else {
      var before := Waiting(maxSize, p - 1);
      steps := before + [PushStep(0)] + [PushStep(0)];
      Snoc(Restore([]), maxSize, before, PushStep(0));
      Snoc(Restore([]), maxSize, before + [PushStep(0)], PushStep(0));
      TwoPushes(After(Restore([]), maxSize, before), maxSize, p - 1);
    }
  }

  lemma {:induction false} BelowSize(p: nat)
    ensures |Below(p)| == p
    decreases p
  {
    if p > 0 { BelowSize(p - 1); }
  }

  lemma TwoPushes(q: Queue, maxSize: nat, p: nat)
    requires maxSize >= 1 && |q.letters| == maxSize && q.pushing.Keys == Below(p) && q.nextKey == p && q.overlap == p
    ensures var t := Push(Push(q, maxSize, 0), maxSize, 0);
            |t.letters| == maxSize && t.pushing.Keys == Below(p + 1) && t.nextKey == p + 1 && t.overlap == p + 1
  {
    hide IdOf, Ids;
    BelowSize(p);
    BelowSize(p + 1);
    var t := Push(q, maxSize, 0);
    assert |q.pushing| == |q.pushing.Keys|;
    assert t.pushing.Keys == Below(p + 1) && |t.pushing| == |t.pushing.Keys|;
  }

  lemma {:induction false} Finished(maxSize: nat, p: nat, j: nat) returns (steps: seq<Step>)
    requires maxSize >= 1 && j <= p
    ensures var q := After(Restore([]), maxSize, steps);
            |q.letters| == maxSize + j && q.pushing.Keys == Below(p - j) && q.overlap == p
    decreases j
  {
    hide After, Restore, IdOf, Ids;
    if j == 0 {
      steps := Waiting(maxSize, p);
    } else {
      var before := Finished(maxSize, p, j - 1);
      var step := FinishPushStep(p - j);
      steps := before + [step];
      Snoc(Restore([]), maxSize, before, step);
      assert p - j in Below(p - j + 1) && Below(p - j + 1) - {p - j} == Below(p - j);
    }
  }

  // The bound on the size is reached: whatever the capacity and however many
  // pushes are to wait, some run ends that far above.
  lemma SizeReached(maxSize: nat, p: nat) returns (steps: seq<Step>)
    requires maxSize >= 1
    ensures var q := After(Restore([]), maxSize, steps);
            |q.letters| == maxSize + p && q.overlap == p && q.pushing == map[]
  {
    steps := Finished(maxSize, p, p);
    assert Below(0) == {};
  }

  // And a queue above its capacity stays so: a push puts back what it evicts.
  lemma PushNeverShrinks(q: Queue, maxSize: int, now: nat)
    requires |q.letters| >= maxSize && q.letters != []
    ensures var t := Push(q, maxSize, now);
            q.nextKey in t.pushing && |FinishPush(t, q.nextKey).letters| == |q.letters|
  {
    hide IdOf, Ids;
  }

  // ----------------------------------------------------------------- storage

  // Nothing is in storage that memory does not have.
  ghost predicate Mirrored(q: Queue) {
    q.stored <= Ids(q.letters)
  }

  // What memory has is in storage, or was listed by a clear that waits.
  ghost predicate Covered(q: Queue) {
    forall i :: 0 <= i < |q.letters| ==>
      q.letters[i].id in q.stored || exists k :: k in q.clearing && q.letters[i].id in q.clearing[k]
  }

  // A clear ends while something is in storage: a letter that was appended, or
  // saved again, after the clear began.
  predicate Leaves(q: Queue, step: Step) {
    step.FinishClearStep? && step.key in q.clearing && q.stored != {}
  }

  lemma PopMirrors(q: Queue)
    requires DistinctIds(q.letters) && Mirrored(q) && Covered(q)
    ensures Mirrored(Pop(q)) && Covered(Pop(q))
  {
    if q.letters != [] {
      var first, rest := q.letters[0], q.letters[1..];
      forall id | id in q.stored && id != first.id
        ensures id in Ids(rest)
      {
        var i :| 0 <= i < |q.letters| && q.letters[i].id == id;
        assert rest[i - 1] == q.letters[i];
      }
      forall i | 0 <= i < |rest|
        ensures rest[i] == q.letters[i + 1] && rest[i].id != first.id
      {}
    }
  }

  lemma IssueMirrors(q: Queue, now: nat)
    ensures Mirrored(Issue(q, now)) <==> Mirrored(q)
    ensures Covered(Issue(q, now)) <==> Covered(q)
  {}

  lemma AppendMirrors(q: Queue, id: string)
    requires Mirrored(q) && Covered(q)
    ensures Mirrored(Append(q, id)) && Covered(Append(q, id))
  {
    AppendedIds(q, id);
    hide Ids;
    var t := Append(q, id);
    forall i | 0 <= i < |t.letters|
      ensures t.letters[i].id in t.stored || exists k :: k in t.clearing && t.letters[i].id in t.clearing[k]
    {
      if i < |q.letters| { assert t.letters[i] == q.letters[i]; }
    }
  }

  lemma PushMirrors(q: Queue, maxSize: int, now: nat)
    requires DistinctIds(q.letters) && Mirrored(q) && Covered(q)
    ensures Mirrored(Push(q, maxSize, now)) && Covered(Push(q, maxSize, now))
  {
    var t := Issue(q, now);
    IssueMirrors(q, now);
    assert t.letters == q.letters;
    hide IdOf, Ids, DistinctIds;
    PopMirrors(t);
    AppendMirrors(t, IdOf(now, q.counter + 1));
  }

  lemma FinishPushMirrors(q: Queue, k: nat)
    requires Mirrored(q) && Covered(q)
    ensures Mirrored(FinishPush(q, k)) && Covered(FinishPush(q, k))
  {
    hide Ids;
    if k in q.pushing { AppendMirrors(q.(pushing := q.pushing - {k}), q.pushing[k]); }
  }

  lemma RemoveMirrors(q: Queue, id: string)
    requires DistinctIds(q.letters) && Mirrored(q) && Covered(q)
    ensures Mirrored(Remove(q, id)) && Covered(Remove(q, id))
  {
    var r := Without(q.letters, id);
    WithoutIs(q.letters, id);
    hide Without, DistinctIds;
    forall x | x in q.stored && x != id
      ensures x in Ids(r)
    {
      var i :| 0 <= i < |q.letters| && q.letters[i].id == x;
      assert q.letters[i] in r;
    }
    forall i | 0 <= i < |r|
      ensures r[i] in q.letters && r[i].id != id
    {
      assert r[i] in r;
    }
  }

  lemma TouchMirrors(q: Queue, id: string)
    requires Mirrored(q) && Covered(q)
    ensures Mirrored(Touch(q, id)) && Covered(Touch(q, id))
  {}

  lemma ClearMirrors(q: Queue)
    requires Mirrored(q)
    ensures q.nextKey !in q.clearing ==> Mirrored(Clear(q)) && Covered(Clear(q))
  {
    var t := Clear(q);
    forall i | 0 <= i < |t.letters|
      ensures q.nextKey in t.clearing && t.letters[i].id in t.clearing[q.nextKey]
    {}
  }

  lemma FinishClearMirrors(q: Queue, k: nat)
    requires Mirrored(q) && Covered(q)
    ensures Mirrored(FinishClear(q, k)) <==> !Leaves(q, FinishClearStep(k))
    ensures Covered(FinishClear(q, k))
  {}

  lemma ClearKeys(q: Queue, maxSize: int, step: Step)
    requires forall k :: k in q.clearing ==> k < q.nextKey
    ensures forall k :: k in Next(q, maxSize, step).clearing ==> k < Next(q, maxSize, step).nextKey
  {
    hide IdOf, Ids;
  }

  // All that is kept along a run.
  ghost predicate Stands(q: Queue, maxSize: int) {
    Valid(q, maxSize) && Covered(q) && forall k :: k in q.clearing ==> k < q.nextKey
  }

  // One step leaves something behind in storage exactly when a clear ends that
  // did not list it.
  lemma StepMirrorsIff(q: Queue, maxSize: int, step: Step)
    requires Stands(q, maxSize) && Mirrored(q)
    ensures Mirrored(Next(q, maxSize, step)) <==> !Leaves(q, step)
    ensures Mirrored(Next(q, maxSize, step)) ==> Stands(Next(q, maxSize, step), maxSize)
  {
    StepKeeps(q, maxSize, step);
    ClearKeys(q, maxSize, step);
    assert DistinctIds(q.letters);
    hide Valid, Mirrored, Covered, DistinctIds, Push, FinishPush, Pop, Remove, Touch, Clear, FinishClear;
    match step
    case PushStep(now) => PushMirrors(q, maxSize, now);
    case FinishPushStep(k) => FinishPushMirrors(q, k);
    case PopStep => PopMirrors(q);
    case RemoveStep(id) => RemoveMirrors(q, id);
    case TouchStep(id) => TouchMirrors(q, id);
    case ClearStep => ClearMirrors(q);
    case FinishClearStep(k) => FinishClearMirrors(q, k);
  }

  ghost predicate AlwaysMirrored(q: Queue, maxSize: int, steps: seq<Step>) {
    Mirrored(After(q, maxSize, steps)) && (steps == [] || AlwaysMirrored(q, maxSize, steps[..|steps|-1]))
  }

  predicate NeverLeaves(q: Queue, maxSize: int, steps: seq<Step>) {
    steps == [] ||
    (NeverLeaves(q, maxSize, steps[..|steps|-1]) && !Leaves(After(q, maxSize, steps[..|steps|-1]), steps[|steps|-1]))
  }

  lemma {:induction false} MirroredIff(q: Queue, maxSize: int, steps: seq<Step>)
    requires Stands(q, maxSize) && Mirrored(q)
    ensures AlwaysMirrored(q, maxSize, steps) <==> NeverLeaves(q, maxSize, steps)
    ensures AlwaysMirrored(q, maxSize, steps) ==> Stands(After(q, maxSize, steps), maxSize)
    decreases |steps|
  {
    hide Stands, Mirrored, Leaves, Next;
    if steps != [] {
      var front := steps[..|steps|-1];
      MirroredIff(q, maxSize, front);
      if AlwaysMirrored(q, maxSize, front) {
        assert Mirrored(After(q, maxSize, front));
        StepMirrorsIff(After(q, maxSize, front), maxSize, steps[|steps|-1]);
      }
    }
  }

  // Over every interleaving of operations on a restored queue: storage never
  // has a letter that memory does not, exactly when every clear ends with
  // nothing in storage.
  lemma StorageMirroredIff(letters: seq<Letter>, maxSize: int, steps: seq<Step>)
    requires DistinctIds(letters) && forall i :: 0 <= i < |letters| ==> letters[i].number == i
    ensures AlwaysMirrored(Restore(letters), maxSize, steps) <==> NeverLeaves(Restore(letters), maxSize, steps)
  {
    RestoreValid(letters, maxSize);
    RestoreStands(letters, maxSize);
    hide Restore;
    MirroredIff(Restore(letters), maxSize, steps);
  }

  lemma RestoreStands(letters: seq<Letter>, maxSize: int)
    requires Valid(Restore(letters), maxSize)
    ensures Stands(Restore(letters), maxSize) && Mirrored(Restore(letters))
  {
    hide Valid, HighestSuffix;
  }

  // A letter pushed while a clear waits is gone from memory when the clear
  // ends, and comes back from storage with the next process.
  lemma PushedDuringClear(maxSize: nat, now: nat)
    requires maxSize >= 1
    ensures var q := After(Restore([]), maxSize, [ClearStep, PushStep(now), FinishClearStep(0)]);
            q.letters == [] && q.departed == [] && q.stored == {IdOf(now, 1)}
  {
    hide IdOf, After;
    var q, one, two := Restore([]), [ClearStep], [ClearStep, PushStep(now)];
    Nothing(q, maxSize);
    Snoc(q, maxSize, [], ClearStep);
    Snoc(q, maxSize, one, PushStep(now));
    Snoc(q, maxSize, two, FinishClearStep(0));
    assert [] + [ClearStep] == one && one + [PushStep(now)] == two;
    assert two + [FinishClearStep(0)] == [ClearStep, PushStep(now), FinishClearStep(0)];
    assert Ids([]) == {};
  }

  lemma Nothing(q: Queue, maxSize: int)
    ensures After(q, maxSize, []) == q
  {}
}
