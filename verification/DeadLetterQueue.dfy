/** The dead-letter queue: an array of entries and an index of the same entries by id. */
module DeadLetterQueue {
  import opened Basics
  import opened DeadLetters
  import opened JsText
  import opened StableSort
  import Steps = DeadLetters

  type Content(==, !new, 00)

  datatype Status = PendingEntry | Retried | Acknowledged | PermanentlyFailed

  // What storage keeps of an entry.
  datatype Stored = Stored(id: string, content: Content, failedAt: nat, retryCount: int, status: Option<Status>,
                           notes: Option<string>)

  class DeadLetterEntry {
    const id: string
    const content: Content
    const failedAt: nat
    var retryCount: int
    var status: Option<Status>
    var notes: Option<string>
    // Its place in the order of arrival.
    ghost const number: nat

    constructor (s: Stored, ghost number: nat)
      ensures id == s.id && Is(s) && this.number == number
    {
      id, content, failedAt, retryCount, status, notes := s.id, s.content, s.failedAt, s.retryCount, s.status, s.notes;
      this.number := number;
    }

    predicate Is(s: Stored)
      reads this
    {
      id == s.id && content == s.content && failedAt == s.failedAt && retryCount == s.retryCount &&
        status == s.status && notes == s.notes
    }
  }

  // ------------------------------------------------------------------ sorting

  function CompareTimes(a: Stored, b: Stored): int {
    a.failedAt - b.failedAt
  }

  // The stable sort by time of failure.
  function SortByTime(all: seq<Stored>): seq<Stored> {
    Sort(CompareTimes, all)
  }

  ghost predicate ByTime(s: seq<Stored>) {
    forall i, j :: 0 <= i < j < |s| ==> s[i].failedAt <= s[j].failedAt
  }

  lemma SortedByTime(all: seq<Stored>)
    ensures ByTime(SortByTime(all)) && multiset(SortByTime(all)) == multiset(all) && |SortByTime(all)| == |all|
    ensures forall x :: Ties(CompareTimes, SortByTime(all), x) == Ties(CompareTimes, all, x)
  {
    SortSorts(CompareTimes, all);
    hide Sort, Ties;
    var sorted := SortByTime(all);
    forall i, j | 0 <= i < j < |sorted|
      ensures sorted[i].failedAt <= sorted[j].failedAt
    {
      assert CompareTimes(sorted[i], sorted[j]) <= 0;
    }
  }

  ghost predicate DistinctStored(s: seq<Stored>) {
    forall i, j :: 0 <= i < j < |s| ==> s[i].id != s[j].id
  }

  // Letters numbered from zero.
  function Numbered(s: seq<Stored>): seq<Letter> {
    seq(|s|, i requires 0 <= i < |s| => Letter(s[i].id, i))
  }

  lemma SortDistinct(all: seq<Stored>)
    requires DistinctStored(all)
    ensures DistinctStored(SortByTime(all))
  {
    SortedByTime(all);
    hide SortByTime, ByTime, Ties;
    PermutedDistinct(all, SortByTime(all));
  }

  // No record occurs twice where the ids are distinct, so none does in another
  // order.
  lemma PermutedDistinct(s: seq<Stored>, t: seq<Stored>)
    requires DistinctStored(s) && multiset(s) == multiset(t)
    ensures DistinctStored(t)
  {
    forall i, j | 0 <= i < j < |t|
      ensures t[i].id != t[j].id
    {
      OnceEach(s, t[i]);
      if t[i] == t[j] { TwiceThere(t, i, j); }
      assert t[i] in multiset(t) && t[j] in multiset(t);
      var k :| 0 <= k < |s| && s[k] == t[i];
      var l :| 0 <= l < |s| && s[l] == t[j];
      assert k != l;
    }
  }

  lemma {:induction false} OnceEach(s: seq<Stored>, x: Stored)
    requires DistinctStored(s)
    ensures multiset(s)[x] <= 1
    decreases |s|
  {
    if s != [] {
      var front, last := s[..|s|-1], s[|s|-1];
      assert s == front + [last];
      OnceEach(front, x);
      forall i | 0 <= i < |front|
        ensures front[i] != last
      {
        assert s[i].id != s[|s|-1].id;
      }
    }
  }

  lemma TwiceThere(s: seq<Stored>, i: nat, j: nat)
    requires i < j < |s| && s[i] == s[j]
    ensures multiset(s)[s[i]] >= 2
  {
    assert s == s[..j] + s[j..];
    assert s[..j][i] in multiset(s[..j]) && s[j..][0] in multiset(s[j..]);
  }

  // ---------------------------------------------------------------- the queue

  ghost function LettersOf(entries: seq<DeadLetterEntry>): seq<Letter> {
    seq(|entries|, i requires 0 <= i < |entries| => Letter(entries[i].id, entries[i].number))
  }

  function PushingIds(pushing: map<nat, Stored>): map<nat, string> {
    map k | k in pushing :: pushing[k].id
  }

  // `pushing` has the entries of the pushes that wait for an eviction, and
  // `clearing` the counts of the clears that wait for their deletions.
  class Queue {
    var entries: seq<DeadLetterEntry>
    var entryIndex: map<string, DeadLetterEntry>
    const maxSize: int
    var idCounter: nat
    var pushing: map<nat, Stored>
    var clearing: map<nat, nat>
    var stored: set<string>
    var nextKey: nat
    ghost var arrivals: nat
    ghost var issued: set<string>
    ghost var departed: seq<Letter>
    ghost var restored: nat
    ghost var listed: map<nat, set<string>>
    ghost var overlap: nat

    ghost function Abstract(): Steps.Queue
      reads this
    {
      Steps.Queue(LettersOf(entries), idCounter, arrivals, issued, departed, restored, PushingIds(pushing), listed,
                  stored, nextKey, overlap)
    }

    // The index is exactly the view of the entries by id.
    ghost predicate Indexed()
      reads `entries, `entryIndex
    {
      && (forall i :: 0 <= i < |entries| ==> entries[i].id in entryIndex && entryIndex[entries[i].id] == entries[i])
      && forall id :: id in entryIndex ==> entryIndex[id] in entries && entryIndex[id].id == id
    }

    ghost predicate Consistent()
      reads this
    {
      Indexed() && Valid(Abstract(), maxSize) && clearing.Keys == listed.Keys
    }

    constructor (maxSize: int)
      ensures this.maxSize == maxSize && Consistent() && Abstract() == Restore([]) && entries == []
    {
      this.maxSize := maxSize;
      entries, entryIndex, idCounter, arrivals, issued, departed, restored := [], map[], 0, 0, {}, [], 0;
      pushing, clearing, stored, nextKey, listed, overlap := map[], map[], {}, 0, map[], 0;
      new;
      RestoreValid([], maxSize);
      assert LettersOf([]) == [];
    }

    method RebuildIndex()
      requires DistinctIds(LettersOf(entries))
      modifies `entryIndex
      ensures Indexed()
    {
      entryIndex := map[];
      var i := 0;
      while i < |entries|
        invariant 0 <= i <= |entries|
        invariant forall j :: 0 <= j < i ==> entries[j].id in entryIndex && entryIndex[entries[j].id] == entries[j]
        invariant forall id :: id in entryIndex ==> entryIndex[id] in entries[..i] && entryIndex[id].id == id
      {
        forall j | 0 <= j < i
          ensures entries[j].id != entries[i].id
        {
          assert LettersOf(entries)[j].id != LettersOf(entries)[i].id;
        }
        entryIndex := entryIndex[entries[i].id := entries[i]];
        assert entries[..i+1] == entries[..i] + [entries[i]];
        i := i + 1;
      }
    }

    // Loads what storage has, oldest first; its ids are distinct.
    method RestoreFromStorage(stored: seq<Stored>)
      requires DistinctStored(stored)
      modifies this
      ensures Consistent() && Abstract() == Restore(Numbered(SortByTime(stored)))
      ensures |entries| == |stored|
      ensures forall i :: 0 <= i < |entries| ==> fresh(entries[i]) && entries[i].Is(SortByTime(stored)[i])
    {
      hide SortByTime, Valid, Suffix, HighestSuffix, Indexed, Numbered, DistinctStored, LettersOf, Ids;
      var sorted := SortByTime(stored);
      SortedByTime(stored);
      SortDistinct(stored);
      Adopt(sorted);
      NumberedDistinct(sorted);
      RestoreValid(Numbered(sorted), maxSize);
      hide Restore;
      StartOver(sorted);
    }

    method StartOver(ghost sorted: seq<Stored>)
      requires LettersOf(entries) == Numbered(sorted)
      modifies `idCounter, `arrivals, `departed, `restored, `issued, `overlap, `pushing, `clearing, `listed, `nextKey,
               `stored
      ensures Abstract() == Restore(Numbered(sorted)) && clearing == map[] && listed == map[]
    {
      hide LettersOf, Numbered, HighestSuffix, Ids, PushingIds;
      var max := Highest();
      LettersLength(entries);
      NonePushing();
      var ids := EntryIdSet();
      idCounter, stored, issued := max, ids, ids;
      arrivals, departed, restored, overlap := |entries|, [], |entries|, 0;
      pushing, clearing, listed, nextKey := map[], map[], map[], 0;
    }

    method EntryIdSet() returns (ids: set<string>)
      ensures ids == Ids(LettersOf(entries))
    {
      ids := set e | e in entries :: e.id;
      EntryIds(entries);
    }

    method Adopt(sorted: seq<Stored>)
      requires DistinctStored(sorted)
      modifies `entries, `entryIndex
      ensures Indexed() && LettersOf(entries) == Numbered(sorted) && |entries| == |sorted|
      ensures forall i :: 0 <= i < |entries| ==> fresh(entries[i]) && entries[i].Is(sorted[i])
    {
      entries := LoadEntries(sorted);
      assert LettersOf(entries) == Numbered(sorted);
      NumberedDistinct(sorted);
      hide Numbered, LettersOf, Indexed;
      RebuildIndex();
    }

    method Highest() returns (max: nat)
      ensures max == HighestSuffix(LettersOf(entries))
    {
      hide Suffix;
      max := 0;
      var i := 0;
      while i < |entries|
        invariant 0 <= i <= |entries| && max == HighestSuffix(LettersOf(entries)[..i])
      {
        ghost var letters := LettersOf(entries);
        assert letters[..i+1][..i] == letters[..i] && letters[i].id == entries[i].id;
        var suffix := Suffix(entries[i].id);
        if suffix.Int? && suffix.value > max { max := suffix.value; }
        i := i + 1;
      }
      assert LettersOf(entries)[..i] == LettersOf(entries);
    }

    // Adds an entry under a new id: at once, or at capacity after the oldest
    // one was evicted, for which the push waits.
    method PushEntry(content: Content, retryCount: int, now: nat) returns (id: string, waits: Option<nat>)
      requires Consistent()
      modifies this
      ensures Consistent() && Abstract() == Push(old(Abstract()), maxSize, now)
      ensures id == IdOf(now, old(idCounter) + 1) && id !in old(issued)
      ensures waits.Some? <==> old(entries) != [] && |old(entries)| >= maxSize
      ensures var s := Stored(id, content, now, retryCount, None, None);
              if waits.Some? then pushing == old(pushing)[waits.value := s] && id !in entryIndex
              else pushing == old(pushing) && id in entryIndex && fresh(entryIndex[id]) && entryIndex[id].Is(s)
    {
      hide Valid, IdOf, Pop, LettersOf, Indexed, PushingIds, Ids, Append, Issue;
      ghost var before := Abstract();
      PushKeeps(before, maxSize, now);
      ValidDistinct(before, maxSize);
      IssueKeeps(before, maxSize, now);
      SameLetters(before, now);
      LettersLength(entries);
      NotThere(entries, IdOf(now, idCounter + 1));
      NotIndexed(IdOf(now, idCounter + 1));
      id := IssueId(now);
      var s := Stored(id, content, now, retryCount, None, None);
      if |entries| >= maxSize && entries != [] {
        waits := Some(nextKey);
        EvictAndWait(s);
      } else {
        AppendEntry(s);
        waits := None;
      }
    }

    method IssueId(now: nat) returns (id: string)
      modifies `idCounter, `issued, `overlap
      ensures id == IdOf(now, old(idCounter) + 1) && Abstract() == Issue(old(Abstract()), now)
    {
      hide LettersOf, IdOf, PushingIds;
      id := IdOf(now, idCounter + 1);
      idCounter, issued, overlap := idCounter + 1, issued + {id}, Max(overlap, |PushingIds(pushing)|);
    }

    method EvictAndWait(s: Stored)
      requires Indexed() && DistinctIds(LettersOf(entries)) && entries != []
      modifies `entries, `entryIndex, `departed, `stored, `pushing, `nextKey
      ensures Indexed() && pushing == old(pushing)[old(nextKey) := s]
      ensures entryIndex == old(entryIndex) - {old(entries)[0].id}
      ensures var q := old(Abstract());
              Abstract() == Pop(q).(pushing := q.pushing[q.nextKey := s.id], nextKey := q.nextKey + 1)
    {
      hide Indexed, LettersOf, DistinctIds, PushingIds;
      var _ := Shift();
      PushingMore(pushing, nextKey, s);
      pushing, nextKey := pushing[nextKey := s], nextKey + 1;
    }

    lemma NotIndexed(id: string)
      requires Indexed() && forall i :: 0 <= i < |entries| ==> entries[i].id != id
      ensures id !in entryIndex
    {}

    // The eviction is done, and the push goes on.
    method FinishPush(k: nat)
      requires Consistent() && k in pushing
      modifies this
      ensures Consistent() && Abstract() == Steps.FinishPush(old(Abstract()), k)
      ensures var s := old(pushing)[k];
              pushing == old(pushing) - {k} && s.id in entryIndex && fresh(entryIndex[s.id]) && entryIndex[s.id].Is(s)
    {
      hide Valid, LettersOf, Indexed, Ids, Steps.Append;
      ghost var before := Abstract();
      FinishPushKeeps(before, maxSize, k);
      WaitingApart(before, maxSize, k);
      PushingLess(pushing, k);
      LettersLength(entries);
      NotThere(entries, pushing[k].id);
      var s := pushing[k];
      pushing := pushing - {k};
      hide PushingIds;
      AppendEntry(s);
    }

    method AppendEntry(s: Stored)
      requires Indexed() && forall i :: 0 <= i < |entries| ==> entries[i].id != s.id
      modifies `entries, `entryIndex, `arrivals, `stored
      ensures Indexed() && Abstract() == Steps.Append(old(Abstract()), s.id)
      ensures s.id in entryIndex && fresh(entryIndex[s.id]) && entryIndex[s.id].Is(s)
    {
      var entry := new DeadLetterEntry(s, arrivals);
      assert LettersOf(entries + [entry]) == LettersOf(entries) + [Letter(entry.id, entry.number)];
      entries := entries + [entry];
      entryIndex := entryIndex[entry.id := entry];
      arrivals, stored := arrivals + 1, stored + {s.id};
    }

    // Takes the oldest entry out.
    method Shift() returns (removed: DeadLetterEntry)
      requires Indexed() && DistinctIds(LettersOf(entries)) && entries != []
      modifies `entries, `entryIndex, `departed, `stored
      ensures removed == old(entries)[0] && entries == old(entries)[1..] && Indexed()
      ensures entryIndex == old(entryIndex) - {removed.id}
      ensures Abstract() == Pop(old(Abstract()))
    {
      removed := entries[0];
      assert LettersOf(entries)[0] == Letter(removed.id, removed.number);
      forall i | 0 < i < |entries|
        ensures entries[i].id != removed.id
      {
        assert LettersOf(entries)[0].id != LettersOf(entries)[i].id;
      }
      assert LettersOf(entries)[1..] == LettersOf(entries[1..]);
      departed := departed + [Letter(removed.id, removed.number)];
      entries := entries[1..];
      entryIndex, stored := entryIndex - {removed.id}, stored - {removed.id};
    }

    method PopOldest() returns (oldest: Option<DeadLetterEntry>)
      requires Consistent()
      modifies this
      ensures Consistent() && Abstract() == Pop(old(Abstract()))
      ensures oldest == if old(entries) == [] then None else Some(old(entries)[0])
    {
      ValidDistinct(Abstract(), maxSize);
      PopKeeps(Abstract(), maxSize);
      hide Valid;
      if entries == [] { return None; }
      var removed := Shift();
      return Some(removed);
    }

    // Removes the entry with an id, wherever it is.
    method RemoveEntry(id: string) returns (found: bool)
      requires Consistent()
      modifies this
      ensures Consistent() && Abstract() == Remove(old(Abstract()), id)
      ensures found <==> id in old(entryIndex)
      ensures id !in entryIndex && entryIndex == old(entryIndex) - {id}
    {
      hide Valid, Without, LettersOf, Ids, Indexed, DistinctIds, PushingIds;
      ValidDistinct(Abstract(), maxSize);
      RemoveKeeps(Abstract(), maxSize, id);
      IndexedIds(id);
      var index := FindIndex(id);
      if index == |entries| { return false; }
      LettersLength(entries);
      WithoutAt(LettersOf(entries), index);
      Splice(index);
      stored := stored - {id};
      return true;
    }

    // The index of the entry with an id, or the number of entries.
    method FindIndex(id: string) returns (index: nat)
      requires Indexed() && DistinctIds(LettersOf(entries))
      ensures index <= |entries| && (index < |entries| <==> id in entryIndex)
      ensures index < |entries| ==> LettersOf(entries)[index].id == id
      ensures forall i :: 0 <= i < |entries| && i != index ==> LettersOf(entries)[i].id != id
    {
      index := 0;
      while index < |entries| && entries[index].id != id
        invariant 0 <= index <= |entries| && forall j :: 0 <= j < index ==> entries[j].id != id
      {
        index := index + 1;
      }
      forall i | 0 <= i < |entries| && i != index
        ensures LettersOf(entries)[i].id != id
      {
        if index < i { assert LettersOf(entries)[index].id != LettersOf(entries)[i].id; }
      }
    }

    method Splice(index: nat)
      requires Indexed() && DistinctIds(LettersOf(entries)) && index < |entries|
      modifies `entries, `entryIndex
      ensures Indexed() && LettersOf(entries) == LettersOf(old(entries))[..index] + LettersOf(old(entries))[index+1..]
      ensures entryIndex == old(entryIndex) - {LettersOf(old(entries))[index].id}
    {
      var id := entries[index].id;
      forall i | 0 <= i < |entries| && i != index
        ensures entries[i].id != id
      {
        assert LettersOf(entries)[i].id != LettersOf(entries)[index].id;
      }
      SpliceLetters(entries, index);
      ghost var was := entries;
      entries := entries[..index] + entries[index+1..];
      entryIndex := entryIndex - {id};
      hide LettersOf;
      forall x | x in entryIndex
        ensures entryIndex[x] in entries
      {
        var j :| 0 <= j < |was| && was[j] == entryIndex[x];
        assert entries[if j < index then j else j - 1] == entryIndex[x];
      }
    }

    // Counts the entries and has them deleted from storage, and waits for that.
    method BeginClear() returns (k: nat)
      requires Consistent()
      modifies `clearing, `listed, `nextKey, `stored
      ensures Consistent() && Abstract() == Clear(old(Abstract()))
      ensures k in clearing && clearing[k] == |entries|
    {
      hide Valid, LettersOf, Indexed, Ids, PushingIds;
      ClearKeeps(Abstract(), maxSize);
      var ids := EntryIdSet();
      k := nextKey;
      stored := stored - ids;
      clearing, listed := clearing[k := |entries|], listed[k := ids];
      nextKey := nextKey + 1;
    }

    // Empties the queue of all that is in memory now.
    method FinishClear(k: nat) returns (count: nat)
      requires Consistent() && k in clearing
      modifies `entries, `entryIndex, `clearing, `listed
      ensures Consistent() && Abstract() == Steps.FinishClear(old(Abstract()), k)
      ensures count == old(clearing)[k] && entries == [] && entryIndex == map[]
    {
      hide Valid, LettersOf, Indexed, PushingIds;
      FinishClearKeeps(Abstract(), maxSize, k);
      count := clearing[k];
      Empty();
      clearing, listed := clearing - {k}, listed - {k};
    }

    method Empty()
      modifies `entries, `entryIndex
      ensures entries == [] && entryIndex == map[] && Indexed() && LettersOf(entries) == []
    {
      entries, entryIndex := [], map[];
    }

    // The entry with an id, if there is one.
    method GetEntry(id: string) returns (entry: Option<DeadLetterEntry>)
      requires Consistent()
      ensures entry.Some? ==> entry.value in entries && entry.value.id == id
      ensures entry.None? ==> forall i :: 0 <= i < |entries| ==> entries[i].id != id
    {
      return if id in entryIndex then Some(entryIndex[id]) else None;
    }

    // The index reaches the very entry in the array: what it changes is there
    // changed, and nowhere else.
    method UpdateStatus(id: string, status: Status, notes: Option<string>) returns (found: bool)
      requires Consistent()
      modifies `stored, set i | 0 <= i < |entries| && entries[i].id == id :: entries[i]
      ensures Consistent() && Abstract() == Touch(old(Abstract()), id)
      ensures found <==> exists i :: 0 <= i < |entries| && entries[i].id == id
      ensures forall i :: 0 <= i < |entries| && entries[i].id == id ==>
                entries[i].status == Some(status) && entries[i].retryCount == old(entries[i].retryCount) &&
                entries[i].notes == if notes.Some? then notes else old(entries[i].notes)
    {
      TouchKeeps(Abstract(), maxSize, id);
      IndexedIds(id);
      hide Valid;
      if id !in entryIndex { return false; }
      var entry := entryIndex[id];
      OnlyOne(entry);
      entry.status := Some(status);
      if notes.Some? { entry.notes := notes; }
      stored := stored + {id};
      return true;
    }

    method IncrementRetry(id: string) returns (count: Option<int>)
      requires Consistent()
      modifies `stored, set i | 0 <= i < |entries| && entries[i].id == id :: entries[i]
      ensures Consistent() && Abstract() == Touch(old(Abstract()), id)
      ensures count.None? <==> forall i :: 0 <= i < |entries| ==> entries[i].id != id
      ensures forall i :: 0 <= i < |entries| && entries[i].id == id ==>
                entries[i].retryCount == old(entries[i].retryCount) + 1 && count == Some(entries[i].retryCount) &&
                entries[i].status == old(entries[i].status) && entries[i].notes == old(entries[i].notes)
    {
      TouchKeeps(Abstract(), maxSize, id);
      IndexedIds(id);
      hide Valid;
      if id !in entryIndex { return None; }
      var entry := entryIndex[id];
      OnlyOne(entry);
      entry.retryCount := entry.retryCount + 1;
      stored := stored + {id};
      return Some(entry.retryCount);
    }

    lemma IndexedIds(id: string)
      requires Indexed()
      ensures id in Ids(LettersOf(entries)) <==> id in entryIndex
    {
      if id in entryIndex {
        var i :| 0 <= i < |entries| && entries[i] == entryIndex[id];
        assert LettersOf(entries)[i].id == id;
      }
    }

    lemma OnlyOne(entry: DeadLetterEntry)
      requires Indexed() && entry.id in entryIndex && entryIndex[entry.id] == entry
      ensures forall i :: 0 <= i < |entries| && entries[i].id == entry.id ==> entries[i] == entry
      ensures exists i :: 0 <= i < |entries| && entries[i] == entry
    {}
  }

  method LoadEntries(sorted: seq<Stored>) returns (entries: seq<DeadLetterEntry>)
    ensures |entries| == |sorted|
    ensures forall i :: 0 <= i < |entries| ==> fresh(entries[i]) && entries[i].Is(sorted[i]) && entries[i].number == i
  {
    entries := [];
    var i := 0;
    while i < |sorted|
      invariant 0 <= i <= |sorted| && |entries| == i
      invariant forall j :: 0 <= j < i ==> fresh(entries[j]) && entries[j].Is(sorted[j]) && entries[j].number == j
    {
      var entry := new DeadLetterEntry(sorted[i], i);
      entries := entries + [entry];
      i := i + 1;
    }
  }

  lemma LettersLength(entries: seq<DeadLetterEntry>)
    ensures |LettersOf(entries)| == |entries|
  {}

  lemma SpliceLetters(entries: seq<DeadLetterEntry>, index: nat)
    requires index < |entries|
    ensures LettersOf(entries[..index] + entries[index+1..])
            == LettersOf(entries)[..index] + LettersOf(entries)[index+1..]
    ensures LettersOf(entries)[index].id == entries[index].id
  {}

  lemma EntryIds(entries: seq<DeadLetterEntry>)
    ensures (set e | e in entries :: e.id) == Ids(LettersOf(entries))
  {
    var letters := LettersOf(entries);
    assert forall i :: 0 <= i < |entries| ==> letters[i].id == entries[i].id;
    forall x | x in Ids(letters)
      ensures x in set e | e in entries :: e.id
    {
      var i :| 0 <= i < |letters| && letters[i].id == x;
      assert entries[i] in entries;
    }
  }

  lemma NotThere(entries: seq<DeadLetterEntry>, id: string)
    requires id !in Ids(LettersOf(entries))
    ensures forall i :: 0 <= i < |entries| ==> entries[i].id != id
  {
    forall i | 0 <= i < |entries|
      ensures entries[i].id != id
    {
      assert LettersOf(entries)[i].id in Ids(LettersOf(entries));
    }
  }

  lemma NonePushing()
    ensures PushingIds(map[]) == map[]
  {}

  lemma PushingMore(pushing: map<nat, Stored>, k: nat, s: Stored)
    ensures PushingIds(pushing[k := s]) == PushingIds(pushing)[k := s.id]
  {}

  lemma PushingLess(pushing: map<nat, Stored>, k: nat)
    ensures PushingIds(pushing - {k}) == PushingIds(pushing) - {k}
    ensures k in pushing ==> k in PushingIds(pushing) && PushingIds(pushing)[k] == pushing[k].id
  {}

  lemma WaitingApart(q: Steps.Queue, maxSize: int, k: nat)
    requires Valid(q, maxSize) && k in q.pushing
    ensures q.pushing[k] !in Ids(q.letters)
  {}

  lemma ClearKeeps(q: Steps.Queue, maxSize: int)
    requires Valid(q, maxSize)
    ensures Valid(Clear(q), maxSize)
  {
    hide Valid;
    AsideKeeps(q, maxSize, q.stored - Ids(q.letters), q.clearing[q.nextKey := Ids(q.letters)], q.nextKey + 1);
  }

  lemma TouchKeeps(q: Steps.Queue, maxSize: int, id: string)
    requires Valid(q, maxSize)
    ensures Valid(Touch(q, id), maxSize)
  {
    hide Valid;
    AsideKeeps(q, maxSize, q.stored + {id}, q.clearing, q.nextKey);
  }

  lemma NumberedDistinct(sorted: seq<Stored>)
    requires DistinctStored(sorted)
    ensures DistinctIds(Numbered(sorted)) && |Numbered(sorted)| == |sorted|
    ensures forall i :: 0 <= i < |sorted| ==> Numbered(sorted)[i].number == i
  {}

  lemma ValidDistinct(q: Steps.Queue, maxSize: int)
    requires Valid(q, maxSize)
    ensures DistinctIds(q.letters)
  {}

  lemma {:induction false} WithoutAt(letters: seq<Letter>, index: nat)
    requires DistinctIds(letters) && index < |letters|
    ensures Without(letters, letters[index].id) == letters[..index] + letters[index+1..]
    decreases |letters|
  {
    if index > 0 {
      var first, rest := letters[0], letters[1..];
      assert first.id != letters[index].id;
      WithoutAt(rest, index - 1);
      hide Without, DistinctIds;
      assert letters == [first] + rest;
      assert letters[..index] == [first] + rest[..index-1] && letters[index+1..] == rest[index..];
    }
  }
}
