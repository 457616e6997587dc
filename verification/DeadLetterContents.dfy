/** What each step of the dead-letter queue puts in, takes out and leaves, letter by letter. */
module DeadLetterContents {
  import opened Basics
  import opened JsText
  import opened DeadLetters

  predicate Full(q: Queue, maxSize: int) {
    q.letters != [] && |q.letters| >= maxSize
  }

  // The letter leaves: the oldest by a pop or by a push to a full queue, one
  // that is removed, and all when a clear goes on.
  predicate Goes(q: Queue, maxSize: int, step: Step, x: Letter) {
    match step
    case PopStep => q.letters != [] && x == q.letters[0]
    case PushStep(_) => Full(q, maxSize) && x == q.letters[0]
    case RemoveStep(id) => x.id == id
    case FinishClearStep(k) => k in q.clearing
    case _ => false
  }

  // The letter comes: by a push to a queue that is not full, or when a push
  // that waited goes on; its number is the next one.
  predicate Comes(q: Queue, maxSize: int, step: Step, x: Letter) {
    match step
    case PushStep(now) =>
      !Full(q, maxSize) && x == Letter("dlq_" + Digits(now) + "_" + Digits(q.counter + 1), q.arrivals)
    case FinishPushStep(k) => k in q.pushing && x == Letter(q.pushing[k], q.arrivals)
    case _ => false
  }

  lemma {:induction false} WithoutIs(letters: seq<Letter>, id: string, x: Letter)
    requires DistinctIds(letters)
    ensures x in Without(letters, id) <==> x in letters && x.id != id
    decreases |letters|
  {
    if letters != [] {
      var rest := letters[1..];
      assert letters == [letters[0]] + rest;
      if letters[0].id == id {
        assert x in rest ==> x.id != id;
      } else {
        WithoutIs(rest, id, x);
      }
    }
  }

  // After any step exactly those letters are in the queue that were and did
  // not leave, and that came.
  lemma LettersMove(q: Queue, maxSize: int, step: Step, x: Letter)
    requires Valid(q, maxSize)
    ensures x in Next(q, maxSize, step).letters <==>
            (x in q.letters && !Goes(q, maxSize, step, x)) || Comes(q, maxSize, step, x)
  {
    assert DistinctIds(q.letters);
    match step
    case RemoveStep(id) =>
      WithoutIs(q.letters, id, x);
      if id !in Ids(q.letters) { assert x in q.letters ==> x.id != id; }
    case PopStep => if q.letters != [] { FirstGoes(q.letters, x); }
    case PushStep(now) => if Full(q, maxSize) { FirstGoes(q.letters, x); }
    case _ =>
  }

  lemma FirstGoes(letters: seq<Letter>, x: Letter)
    requires letters != [] && DistinctIds(letters)
    ensures x in letters[1..] <==> x in letters && x != letters[0]
  {
    assert letters == [letters[0]] + letters[1..];
    if x in letters[1..] {
      var i :| 0 <= i < |letters[1..]| && letters[1..][i] == x;
      assert letters[i+1] == x && x.id != letters[0].id;
    }
  }

  // A push to a full queue waits until it goes on, and so does a clear; what
  // was popped or evicted is remembered as departed.
  lemma WaitsMove(q: Queue, maxSize: int, step: Step, k: nat)
    ensures k in Next(q, maxSize, step).pushing <==>
            (k in q.pushing && step != FinishPushStep(k)) || (step.PushStep? && Full(q, maxSize) && k == q.nextKey)
    ensures k in Next(q, maxSize, step).clearing <==>
            (k in q.clearing && step != FinishClearStep(k)) || (step.ClearStep? && k == q.nextKey)
    ensures Next(q, maxSize, step).departed ==
            if q.letters != [] && (step.PopStep? || (step.PushStep? && Full(q, maxSize)))
            then q.departed + [q.letters[0]]
            else q.departed
  {
    hide IdOf, Ids, Without;
  }
}
