/**
 The dead-letter queue as a step machine: ids with arrival numbers, oldest
 first.  A step is what runs between two awaits: a push that evicts waits
 before it appends, and a clear waits before it empties.
 */
module DeadLetters {
  import opened Basics
  import opened JsText

  // An entry by its id and its place in the order of arrival.
  datatype Letter = Letter(id: string, number: nat)

  // `counter` is the number in the last id issued; `pushing` has the ids of
  // the pushes that wait, `clearing` what the clears that wait have listed,
  // and `stored` the ids in storage.  Histories: all ids restored or issued,
  // what was popped or evicted, how many letters the queue began with, and the
  // most pushes that waited when another one began.
  datatype Queue = Queue(
    letters: seq<Letter>,
    counter: nat,
    arrivals: nat,
    issued: set<string>,
    departed: seq<Letter>,
    restored: nat,
    pushing: map<nat, string>,
    clearing: map<nat, set<string>>,
    stored: set<string>,
    nextKey: nat,
    overlap: nat)

  // ----------------------------------------------------------------------- ids

  function IdOf(now: nat, counter: nat): string {
    "dlq_" + Digits(now) + "_" + Digits(counter)
  }

  // The number after the last underscore.
  function Suffix(id: string): ParsedInt {
    var parts := Split(id, '_');
    ParseInt(parts[|parts|-1])
  }

  predicate SuffixAtMost(id: string, n: int) {
    Suffix(id).Int? ==> Suffix(id).value <= n
  }

  lemma {:induction false} SplitLast(a: string, b: string, separator: char)
    requires separator !in b
    ensures var parts := Split(a + [separator] + b, separator); parts[|parts|-1] == b
    decreases |a|
  {
    var s := a + [separator] + b;
    if a == "" {
      assert s[1..] == b;
      SplitWhole(b, separator);
    } else {
      assert s[1..] == a[1..] + [separator] + b;
      SplitLast(a[1..], b, separator);
      var rest := Split(s[1..], separator);
      if s[0] != separator && |rest| == 1 { SplitTwo(a[1..], b, separator); }
    }
  }

  lemma {:induction false} SplitTwo(a: string, b: string, separator: char)
    ensures |Split(a + [separator] + b, separator)| >= 2
    decreases |a|
  {
    var s := a + [separator] + b;
    if a != "" {
      assert s[1..] == a[1..] + [separator] + b;
      SplitTwo(a[1..], b, separator);
    }
  }

  lemma SuffixOfId(now: nat, counter: nat)
    ensures Suffix(IdOf(now, counter)) == Int(counter)
  {
    DigitsAreDigits(counter);
    var b := Digits(counter);
    assert '_' !in b by { assert forall i :: 0 <= i < |b| ==> b[i] != '_'; }
    SplitLast("dlq_" + Digits(now), b, '_');
    ParsePrinted(counter, "");
    assert b + "" == b;
    hide ParseInt, Split, Digits;
    assert IdOf(now, counter) == "dlq_" + Digits(now) + ['_'] + b;
  }

  // The highest number in the ids, or zero.
  function HighestSuffix(letters: seq<Letter>): nat {
    if letters == [] then 0
    else
      var before := HighestSuffix(letters[..|letters|-1]);
      match Suffix(letters[|letters|-1].id)
      case NotANumber => before
      case Int(n) => if n > before then n else before
  }

  lemma {:induction false} HighestCovers(letters: seq<Letter>, i: nat)
    requires i < |letters|
    ensures SuffixAtMost(letters[i].id, HighestSuffix(letters))
    decreases |letters|
  {
    hide Suffix;
    if i < |letters| - 1 { HighestCovers(letters[..|letters|-1], i); }
  }

  // ---------------------------------------------------------------- operations

  function Ids(letters: seq<Letter>): set<string> {
    set i | 0 <= i < |letters| :: letters[i].id
  }

  function Restore(letters: seq<Letter>): Queue {
    Queue(letters, HighestSuffix(letters), |letters|, Ids(letters), [], |letters|, map[], map[], Ids(letters), 0, 0)
  }

  function Pop(q: Queue): Queue {
    if q.letters == [] then q
    else
      q.(letters := q.letters[1..], departed := q.departed + [q.letters[0]], stored := q.stored - {q.letters[0].id})
  }

  // In memory and in storage.
  function Append(q: Queue, id: string): Queue {
    q.(letters := q.letters + [Letter(id, q.arrivals)], arrivals := q.arrivals + 1, stored := q.stored + {id})
  }

  function Issue(q: Queue, now: nat): Queue {
    q.(counter := q.counter + 1, issued := q.issued + {IdOf(now, q.counter + 1)},
       overlap := Max(q.overlap, |q.pushing|))
  }

  // At capacity the oldest letter is evicted, and the push waits.
  function Push(q: Queue, maxSize: int, now: nat): Queue {
    var t, id := Issue(q, now), IdOf(now, q.counter + 1);
    if |q.letters| >= maxSize && q.letters != [] then
      Pop(t).(pushing := q.pushing[q.nextKey := id], nextKey := q.nextKey + 1)
    else Append(t, id)
  }

  function FinishPush(q: Queue, k: nat): Queue {
    if k in q.pushing then Append(q.(pushing := q.pushing - {k}), q.pushing[k]) else q
  }

  function Without(letters: seq<Letter>, id: string): seq<Letter> {
    if letters == [] then []
    else if letters[0].id == id then letters[1..]
    else [letters[0]] + Without(letters[1..], id)
  }

  function Remove(q: Queue, id: string): Queue {
    if id in Ids(q.letters) then q.(letters := Without(q.letters, id), stored := q.stored - {id}) else q
  }

  // Saves an entry that was changed.
  function Touch(q: Queue, id: string): Queue {
    if id in Ids(q.letters) then q.(stored := q.stored + {id}) else q
  }

  // What is listed is deleted from storage at once, and what there is in
  // memory then, later.
  function Clear(q: Queue): Queue {
    q.(clearing := q.clearing[q.nextKey := Ids(q.letters)], nextKey := q.nextKey + 1,
       stored := q.stored - Ids(q.letters))
  }

  function FinishClear(q: Queue, k: nat): Queue {
    if k in q.clearing then q.(letters := [], clearing := q.clearing - {k}) else q
  }

  datatype Step =
    | PushStep(now: nat)
    | FinishPushStep(key: nat)
    | PopStep
    | RemoveStep(id: string)
    | TouchStep(id: string)
    | ClearStep
    | FinishClearStep(key: nat)

  function Next(q: Queue, maxSize: int, step: Step): Queue {
    match step
    case PushStep(now) => Push(q, maxSize, now)
    case FinishPushStep(k) => FinishPush(q, k)
    case PopStep => Pop(q)
    case RemoveStep(id) => Remove(q, id)
    case TouchStep(id) => Touch(q, id)
    case ClearStep => Clear(q)
    case FinishClearStep(k) => FinishClear(q, k)
  }

  function After(q: Queue, maxSize: int, steps: seq<Step>): Queue {
    if steps == [] then q else Next(After(q, maxSize, steps[..|steps|-1]), maxSize, steps[|steps|-1])
  }

  // ---------------------------------------------------------------- invariants

  // In order of arrival.
  ghost predicate Increasing(letters: seq<Letter>) {
    forall i, j :: 0 <= i < j < |letters| ==> letters[i].number < letters[j].number
  }

  ghost predicate DistinctIds(letters: seq<Letter>) {
    forall i, j :: 0 <= i < j < |letters| ==> letters[i].id != letters[j].id
  }

  // The letters: distinct, in order behind what departed, all of them known.
  ghost predicate LettersOk(q: Queue) {
    && DistinctIds(q.letters) && Increasing(q.departed + q.letters)
    && (forall i :: 0 <= i < |q.letters| ==> q.letters[i].number < q.arrivals && q.letters[i].id in q.issued)
    && (forall i :: 0 <= i < |q.departed| ==> q.departed[i].number < q.arrivals)
  }

  ghost predicate IdsOk(q: Queue) {
    forall id :: id in q.issued ==> SuffixAtMost(id, q.counter)
  }

  // The pushes that wait have ids of their own.
  ghost predicate PushingOk(q: Queue) {
    && (forall k :: k in q.pushing ==> k < q.nextKey && q.pushing[k] in q.issued && q.pushing[k] !in Ids(q.letters))
    && (forall j, k :: j in q.pushing && k in q.pushing && q.pushing[j] == q.pushing[k] ==> j == k)
  }

  // What a sequence of pushes, one after the other, may hold.
  function Capacity(q: Queue, maxSize: int): int {
    Max(1, Max(maxSize, q.restored))
  }

  ghost predicate SizeOk(q: Queue, maxSize: int) {
    |q.letters| + |q.pushing| <= Capacity(q, maxSize) + q.overlap
  }

  ghost predicate Valid(q: Queue, maxSize: int) {
    LettersOk(q) && IdsOk(q) && PushingOk(q) && SizeOk(q, maxSize)
  }

  lemma RestoreValid(letters: seq<Letter>, maxSize: int)
    requires DistinctIds(letters) && forall i :: 0 <= i < |letters| ==> letters[i].number == i
    ensures Valid(Restore(letters), maxSize)
  {
    hide SuffixAtMost, HighestSuffix;
    forall i | 0 <= i < |letters|
      ensures SuffixAtMost(letters[i].id, HighestSuffix(letters))
    {
      HighestCovers(letters, i);
    }
    assert [] + letters == letters;
  }

  lemma PopKeeps(q: Queue, maxSize: int)
    requires Valid(q, maxSize)
    ensures Valid(Pop(q), maxSize)
    ensures |Pop(q).letters| == Max(0, |q.letters| - 1) && Pop(q).departed + Pop(q).letters == q.departed + q.letters
  {
    hide SuffixAtMost;
    if q.letters != [] {
      assert q.departed + [q.letters[0]] + q.letters[1..] == q.departed + q.letters;
      assert Ids(q.letters[1..]) <= Ids(q.letters) by { IdsTail(q.letters); }
    }
  }

  lemma IdsTail(letters: seq<Letter>)
    requires letters != []
    ensures Ids(letters[1..]) <= Ids(letters)
  {
    assert letters == [letters[0]] + letters[1..];
  }

  // An id is new: its number is higher than that of any id before.
  lemma NewId(issued: set<string>, counter: nat, now: nat)
    requires forall id :: id in issued ==> SuffixAtMost(id, counter)
    ensures IdOf(now, counter + 1) !in issued
    ensures forall id :: id in issued || id == IdOf(now, counter + 1) ==> SuffixAtMost(id, counter + 1)
  {
    hide IdOf, Suffix;
    SuffixOfId(now, counter + 1);
  }

  // A new id is no letter's and no waiting push's.
  lemma IssueKeeps(q: Queue, maxSize: int, now: nat)
    requires Valid(q, maxSize)
    ensures var t, id := Issue(q, now), IdOf(now, q.counter + 1);
            id !in q.issued && id in t.issued && id !in Ids(q.letters) &&
            (forall k :: k in q.pushing ==> q.pushing[k] != id) &&
            Valid(t, maxSize) && t.overlap >= |t.pushing|
  {
    NewId(q.issued, q.counter, now);
    hide SuffixAtMost, IdOf, Increasing;
  }

  lemma PushKeeps(q: Queue, maxSize: int, now: nat)
    requires Valid(q, maxSize)
    ensures Valid(Push(q, maxSize, now), maxSize)
    ensures IdOf(now, q.counter + 1) !in q.issued
  {
    var t, id := Issue(q, now), IdOf(now, q.counter + 1);
    IssueKeeps(q, maxSize, now);
    SameLetters(q, now);
    hide Valid, Issue, IdOf, Pop, Append, Ids;
    if |q.letters| >= maxSize && q.letters != [] {
      PopKeeps(t, maxSize);
      WaitKeeps(t, maxSize, id);
    } else {
      AppendKeeps(t, maxSize, id);
    }
  }

  lemma SameLetters(q: Queue, now: nat)
    ensures var t := Issue(q, now);
            t.letters == q.letters && t.pushing == q.pushing && t.nextKey == q.nextKey && t.restored == q.restored
  {}

  lemma WaitKeeps(q: Queue, maxSize: int, id: string)
    requires Valid(q, maxSize) && Valid(Pop(q), maxSize) && q.letters != [] && id in q.issued && id !in Ids(q.letters)
    requires forall k :: k in q.pushing ==> q.pushing[k] != id
    ensures Valid(Pop(q).(pushing := q.pushing[q.nextKey := id], nextKey := q.nextKey + 1), maxSize)
  {
    IdsTail(q.letters);
    hide SuffixAtMost, Increasing, DistinctIds, Ids;
    assert q.nextKey !in q.pushing;
  }

  // A letter with an id of its own is appended: at once where there is room, or
  // in the place of a push that waited.
  lemma AppendKeeps(q: Queue, maxSize: int, id: string)
    requires LettersOk(q) && IdsOk(q) && PushingOk(q) && id in q.issued && id !in Ids(q.letters)
    requires forall k :: k in q.pushing ==> q.pushing[k] != id
    requires |q.letters| + |q.pushing| < Capacity(q, maxSize) + q.overlap
             || (q.overlap >= |q.pushing| && (|q.letters| < maxSize || q.letters == []))
    ensures Valid(Append(q, id), maxSize)
  {
    hide SuffixAtMost;
    AppendLetters(q, id);
    AppendedIds(q, id);
    hide DistinctIds, Increasing, LettersOk, Ids;
  }

  lemma AppendedIds(q: Queue, id: string)
    ensures Ids(Append(q, id).letters) == Ids(q.letters) + {id}
  {
    var letters, more := q.letters, Append(q, id).letters;
    assert forall i :: 0 <= i < |letters| ==> more[i] == letters[i];
    assert more[|letters|].id == id;
  }

  lemma AppendLetters(q: Queue, id: string)
    requires LettersOk(q) && id in q.issued && id !in Ids(q.letters)
    ensures LettersOk(Append(q, id))
  {
    var all, more := q.departed + q.letters, q.letters + [Letter(id, q.arrivals)];
    assert q.departed + more == all + [Letter(id, q.arrivals)];
    forall i | 0 <= i < |all|
      ensures all[i].number < q.arrivals
    {
      if i >= |q.departed| { assert all[i] == q.letters[i - |q.departed|]; }
    }
    forall i | 0 <= i < |q.letters|
      ensures q.letters[i].id != id
    {
      assert q.letters[i].id in Ids(q.letters);
    }
  }

  lemma OneLess<T>(m: map<nat, T>, k: nat)
    requires k in m
    ensures |m - {k}| == |m| - 1
  {
    assert m == (m - {k})[k := m[k]];
  }

  lemma FinishPushKeeps(q: Queue, maxSize: int, k: nat)
    requires Valid(q, maxSize)
    ensures Valid(FinishPush(q, k), maxSize)
  {
    if k in q.pushing {
      var t := q.(pushing := q.pushing - {k});
      OneLess(q.pushing, k);
      hide SuffixAtMost, Increasing, DistinctIds, Ids;
      assert LettersOk(t) && IdsOk(t) && PushingOk(t);
      AppendKeeps(t, maxSize, q.pushing[k]);
    }
  }

  // What is left is in the same order, and is what has another id.
  lemma {:induction false} WithoutIs(letters: seq<Letter>, id: string)
    requires DistinctIds(letters)
    ensures forall x :: x in Without(letters, id) <==> x in letters && x.id != id
    ensures |Without(letters, id)| <= |letters|
    decreases |letters|
  {
    if letters != [] {
      var first, rest := letters[0], letters[1..];
      assert letters == [first] + rest;
      WithoutIs(rest, id);
      if first.id == id { RestOthers(letters); }
      hide DistinctIds;
    }
  }

  lemma RestOthers(letters: seq<Letter>)
    requires DistinctIds(letters) && letters != []
    ensures forall x :: x in letters[1..] ==> x.id != letters[0].id
  {}

  lemma TailOrder(letters: seq<Letter>)
    requires DistinctIds(letters) && Increasing(letters) && letters != []
    ensures DistinctIds(letters[1..]) && Increasing(letters[1..])
  {}

  lemma HeadOrder(first: Letter, rest: seq<Letter>)
    requires DistinctIds(rest) && Increasing(rest)
    requires forall x :: x in rest ==> x.id != first.id && first.number < x.number
    ensures DistinctIds([first] + rest) && Increasing([first] + rest)
  {}

  lemma {:induction false} WithoutOrder(letters: seq<Letter>, id: string)
    requires DistinctIds(letters) && Increasing(letters)
    ensures DistinctIds(Without(letters, id)) && Increasing(Without(letters, id))
    decreases |letters|
  {
    if letters != [] {
      var first, rest := letters[0], letters[1..];
      TailOrder(letters);
      RestOthers(letters);
      RestLater(letters);
      WithoutIs(rest, id);
      hide DistinctIds, Increasing;
      WithoutOrder(rest, id);
      if first.id != id { HeadOrder(first, Without(rest, id)); }
    }
  }

  lemma RestLater(letters: seq<Letter>)
    requires Increasing(letters) && letters != []
    ensures forall x :: x in letters[1..] ==> letters[0].number < x.number
  {}

  lemma IncreasingParts(a: seq<Letter>, b: seq<Letter>)
    ensures Increasing(a + b) <==>
            Increasing(a) && Increasing(b) && forall i, j :: 0 <= i < |a| && 0 <= j < |b| ==> a[i].number < b[j].number
  {
    var c := a + b;
    if Increasing(c) {
      forall i, j | 0 <= i < |a| && 0 <= j < |b|
        ensures a[i].number < b[j].number
      {
        assert c[i] == a[i] && c[|a| + j] == b[j];
      }
      forall i, j | 0 <= i < j < |b|
        ensures b[i].number < b[j].number
      {
        assert c[|a| + i] == b[i] && c[|a| + j] == b[j];
      }
      forall i, j | 0 <= i < j < |a|
        ensures a[i].number < a[j].number
      {
        assert c[i] == a[i] && c[j] == a[j];
      }
    }
  }

  lemma RemoveKeeps(q: Queue, maxSize: int, id: string)
    requires Valid(q, maxSize)
    ensures Valid(Remove(q, id), maxSize)
  {
    var r := Without(q.letters, id);
    IncreasingParts(q.departed, q.letters);
    WithoutIs(q.letters, id);
    WithoutOrder(q.letters, id);
    IncreasingParts(q.departed, r);
    hide Increasing, SuffixAtMost, Without, DistinctIds;
    forall i | 0 <= i < |r|
      ensures r[i] in q.letters
    {
      assert r[i] in r;
    }
    forall x | x in Ids(r)
      ensures x in Ids(q.letters)
    {
      var i :| 0 <= i < |r| && r[i].id == x;
      var j :| 0 <= j < |q.letters| && q.letters[j] == r[i];
    }
  }

  // Storage alone, or the lists of clears, change nothing else.
  lemma AsideKeeps(q: Queue, maxSize: int, stored: set<string>, clearing: map<nat, set<string>>, nextKey: nat)
    requires Valid(q, maxSize) && nextKey >= q.nextKey
    ensures Valid(q.(stored := stored, clearing := clearing, nextKey := nextKey), maxSize)
  {
    hide SuffixAtMost, Increasing, DistinctIds, Ids;
  }

  lemma FinishClearKeeps(q: Queue, maxSize: int, k: nat)
    requires Valid(q, maxSize)
    ensures Valid(FinishClear(q, k), maxSize)
  {
    IncreasingParts(q.departed, q.letters);
    IncreasingParts(q.departed, []);
    hide SuffixAtMost;
  }

  lemma StepKeeps(q: Queue, maxSize: int, step: Step)
    requires Valid(q, maxSize)
    ensures Valid(Next(q, maxSize, step), maxSize)
  {
    hide Valid, Push, Pop, Remove, FinishPush, FinishClear, Ids;
    match step
    case PushStep(now) => PushKeeps(q, maxSize, now);
    case FinishPushStep(k) => FinishPushKeeps(q, maxSize, k);
    case PopStep => PopKeeps(q, maxSize);
    case RemoveStep(id) => RemoveKeeps(q, maxSize, id);
    case TouchStep(id) => AsideKeeps(q, maxSize, q.stored + {id}, q.clearing, q.nextKey);
    case ClearStep =>
      AsideKeeps(q, maxSize, q.stored - Ids(q.letters), q.clearing[q.nextKey := Ids(q.letters)], q.nextKey + 1);
    case FinishClearStep(k) => FinishClearKeeps(q, maxSize, k);
  }

  lemma {:induction false} AlwaysValid(q: Queue, maxSize: int, steps: seq<Step>)
    requires Valid(q, maxSize)
    ensures Valid(After(q, maxSize, steps), maxSize)
    decreases |steps|
  {
    if steps != [] {
      hide Valid, Next;
      AlwaysValid(q, maxSize, steps[..|steps|-1]);
      StepKeeps(After(q, maxSize, steps[..|steps|-1]), maxSize, steps[|steps|-1]);
    }
  }

  // Over every interleaving of operations on a restored queue: its size is
  // bounded by its capacity, or by what was restored, and the most pushes that
  // waited when another one began; what was popped or evicted left in the order
  // in which it was appended, and before all that is still there; no id is
  // issued twice, nor one that was restored.
  lemma QueueAlways(letters: seq<Letter>, maxSize: int, steps: seq<Step>, now: nat)
    requires DistinctIds(letters) && forall i :: 0 <= i < |letters| ==> letters[i].number == i
    ensures var q := After(Restore(letters), maxSize, steps);
            |q.letters| + |q.pushing| <= Max(1, Max(maxSize, |letters|)) + q.overlap && DistinctIds(q.letters) &&
            Increasing(q.departed + q.letters) && IdOf(now, q.counter + 1) !in q.issued
    ensures var q := After(Restore(letters), maxSize, steps);
            forall i :: 0 <= i < |letters| ==> letters[i].id in q.issued
  {
    RestoreValid(letters, maxSize);
    AlwaysValid(Restore(letters), maxSize, steps);
    IssuedGrows(Restore(letters), maxSize, steps);
    hide Restore;
    PushKeeps(After(Restore(letters), maxSize, steps), maxSize, now);
    hide After, IdOf, SuffixAtMost, IdsOk, PushingOk;
    assert Restore(letters).issued == Ids(letters) && Restore(letters).restored == |letters| by {
      RestoreIssued(letters);
    }
    forall i | 0 <= i < |letters|
      ensures letters[i].id in Ids(letters)
    {}
  }

  lemma RestoreIssued(letters: seq<Letter>)
    ensures Restore(letters).issued == Ids(letters) && Restore(letters).restored == |letters|
  {}

  lemma {:induction false} IssuedGrows(q: Queue, maxSize: int, steps: seq<Step>)
    ensures q.issued <= After(q, maxSize, steps).issued && After(q, maxSize, steps).restored == q.restored
    decreases |steps|
  {
    hide IdOf, Ids;
    if steps != [] { IssuedGrows(q, maxSize, steps[..|steps|-1]); }
  }
}
