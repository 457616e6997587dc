/** Registered workflow versions and the latest of each workflow. */
module WorkflowVersions {
  import opened Basics
  import opened JsText
  import opened StableSort

  type Id(==, !new, 00)

  type Body(==, !new, 00)

  datatype Workflow = Workflow(id: Id, version: Option<string>, body: Body)

  // The entries of a version map, in the order of insertion.
  datatype Entry = Entry(version: string, workflow: Workflow)

  datatype State = State(versions: map<Id, seq<Entry>>, latest: map<Id, string>)

  // ---------------------------------------------------------------- comparing

  function Part(s: string): int {
    match ParseInt(s)
    case NotANumber => 0
    case Int(n) => n
  }

  function Parts(v: string): seq<int> {
    var texts := Split(v, '.');
    seq(|texts|, i requires 0 <= i < |texts| => Part(texts[i]))
  }

  // The part at an index, zero past the end.
  function At(parts: seq<int>, i: nat): int {
    if i < |parts| then parts[i] else 0
  }

  // The difference of the first parts that differ from an index on, or zero.
  function Difference(a: seq<int>, b: seq<int>, i: nat): int
    decreases Max(|a|, |b|) - i
  {
    if i >= Max(|a|, |b|) then 0
    else if At(a, i) != At(b, i) then At(a, i) - At(b, i)
    else Difference(a, b, i + 1)
  }

  function Compare(a: string, b: string): int {
    Difference(Parts(a), Parts(b), 0)
  }

  method CompareVersions(a: string, b: string) returns (r: int)
    ensures r == Compare(a, b)
  {
    hide Parts;
    var partsA, partsB := Parts(a), Parts(b);
    var maxLen := Max(|partsA|, |partsB|);
    var i := 0;
    while i < maxLen
      invariant 0 <= i <= maxLen && Difference(partsA, partsB, i) == Compare(a, b)
    {
      if At(partsA, i) != At(partsB, i) { return At(partsA, i) - At(partsB, i); }
      i := i + 1;
    }
    return 0;
  }

  // The parts agree before the index.
  ghost predicate Agree(a: seq<int>, b: seq<int>, i: nat) {
    forall j: nat :: j < i ==> At(a, j) == At(b, j)
  }

  // The sign of a difference tells the lexicographic order of the zero-padded
  // lists.
  lemma {:induction false} DifferenceMeans(a: seq<int>, b: seq<int>, i: nat)
    requires Agree(a, b, i)
    ensures Difference(a, b, i) == 0 <==> forall j: nat :: At(a, j) == At(b, j)
    ensures Difference(a, b, i) < 0 <==> exists k :: Agree(a, b, k) && At(a, k) < At(b, k)
    ensures Difference(a, b, i) > 0 <==> exists k :: Agree(a, b, k) && At(a, k) > At(b, k)
    decreases Max(|a|, |b|) - i
  {
    if i >= Max(|a|, |b|) {
      assert forall j: nat :: At(a, j) == At(b, j);
    } else if At(a, i) != At(b, i) {
      forall k: nat | Agree(a, b, k) && At(a, k) != At(b, k)
        ensures k == i
      {}
    } else {
      assert Agree(a, b, i + 1);
      DifferenceMeans(a, b, i + 1);
    }
  }

  lemma AgreeTrans(a: seq<int>, b: seq<int>, c: seq<int>, i: nat, j: nat)
    requires Agree(a, b, i) && Agree(b, c, j)
    ensures Agree(a, c, if i <= j then i else j)
  {}

  // A total preorder on zero-padded lists: every two versions compare, the
  // comparison is antisymmetric up to padding, and transitive.
  lemma CompareTotalPreorder(a: string, b: string, c: string)
    ensures Compare(a, b) == 0 <==> forall j: nat :: At(Parts(a), j) == At(Parts(b), j)
    ensures Compare(a, b) < 0 <==> Compare(b, a) > 0
    ensures Compare(a, b) <= 0 && Compare(b, c) <= 0 ==> Compare(a, c) <= 0
    ensures Compare(a, b) <= 0 && Compare(b, c) < 0 ==> Compare(a, c) < 0
    ensures Compare(a, b) < 0 && Compare(b, c) <= 0 ==> Compare(a, c) < 0
  {
    var x, y, z := Parts(a), Parts(b), Parts(c);
    hide Parts;
    DifferenceMeans(x, y, 0);
    DifferenceMeans(y, x, 0);
    Symmetric(x, y);
    if Compare(a, b) <= 0 && Compare(b, c) <= 0 { Transitive(x, y, z); }
  }

  lemma Symmetric(x: seq<int>, y: seq<int>)
    ensures Difference(x, y, 0) < 0 <==> Difference(y, x, 0) > 0
  {
    DifferenceMeans(x, y, 0);
    DifferenceMeans(y, x, 0);
    hide Difference;
    if Difference(x, y, 0) < 0 {
      var k :| Agree(x, y, k) && At(x, k) < At(y, k);
      assert Agree(y, x, k);
    }
    if Difference(y, x, 0) > 0 {
      var k :| Agree(y, x, k) && At(y, k) > At(x, k);
      assert Agree(x, y, k);
    }
  }

  lemma Transitive(x: seq<int>, y: seq<int>, z: seq<int>)
    requires Difference(x, y, 0) <= 0 && Difference(y, z, 0) <= 0
    ensures Difference(x, z, 0) <= 0
    ensures Difference(x, y, 0) < 0 || Difference(y, z, 0) < 0 ==> Difference(x, z, 0) < 0
  {
    DifferenceMeans(x, y, 0);
    DifferenceMeans(y, z, 0);
    DifferenceMeans(x, z, 0);
    hide Difference;
    if Difference(x, y, 0) < 0 && Difference(y, z, 0) < 0 {
      var i :| Agree(x, y, i) && At(x, i) < At(y, i);
      var j :| Agree(y, z, j) && At(y, j) < At(z, j);
      AgreeTrans(x, y, z, i, j);
      var k := if i <= j then i else j;
      assert At(x, k) < At(z, k);
    } else if Difference(x, y, 0) < 0 {
      var i :| Agree(x, y, i) && At(x, i) < At(y, i);
      assert Agree(x, z, i) && At(x, i) < At(z, i);
    } else if Difference(y, z, 0) < 0 {
      var j :| Agree(y, z, j) && At(y, j) < At(z, j);
      assert Agree(x, z, j) && At(x, j) < At(z, j);
    } else {
      forall j: nat
        ensures At(x, j) == At(z, j)
      {
        assert At(x, j) == At(y, j);
      }
    }
  }

  // A version as it is usually written: numbers between dots.
  function VersionText(numbers: seq<nat>): string {
    if numbers == [] then ""
    else if |numbers| == 1 then Digits(numbers[0])
    else Digits(numbers[0]) + "." + VersionText(numbers[1..])
  }

  lemma {:induction false} SplitVersion(numbers: seq<nat>)
    requires numbers != []
    ensures |Split(VersionText(numbers), '.')| == |numbers|
    ensures forall i :: 0 <= i < |numbers| ==> Split(VersionText(numbers), '.')[i] == Digits(numbers[i])
    decreases |numbers|
  {
    DigitsAreDigits(numbers[0]);
    hide Digits, Split;
    if |numbers| == 1 {
      SplitWhole(Digits(numbers[0]), '.');
    } else {
      SplitVersion(numbers[1..]);
      SplitFirst(Digits(numbers[0]), VersionText(numbers[1..]), '.');
      assert Digits(numbers[0]) + "." + VersionText(numbers[1..])
          == Digits(numbers[0]) + ['.'] + VersionText(numbers[1..]);
    }
  }

  // Versions of numbers compare as the lists of their numbers do, number by
  // number and with zeros for those that are missing.
  lemma PrintedVersionsCompare(a: seq<nat>, b: seq<nat>)
    requires a != [] && b != []
    ensures Compare(VersionText(a), VersionText(b)) == 0 <==> forall j: nat :: At(a, j) == At(b, j)
    ensures Compare(VersionText(a), VersionText(b)) > 0 <==> exists k :: Agree(a, b, k) && At(a, k) > At(b, k)
    ensures Compare(VersionText(a), VersionText(b)) < 0 <==> exists k :: Agree(a, b, k) && At(a, k) < At(b, k)
  {
    PartsOfNumbers(a);
    PartsOfNumbers(b);
    hide Parts, VersionText, Difference;
    DifferenceMeans(a, b, 0);
  }

  lemma PartsOfNumbers(numbers: seq<nat>)
    requires numbers != []
    ensures Parts(VersionText(numbers)) == numbers
  {
    SplitVersion(numbers);
    hide VersionText, Split, ParseInt, Digits;
    forall i | 0 <= i < |numbers|
      ensures Part(Digits(numbers[i])) == numbers[i]
    {
      ParsePrinted(numbers[i], "");
      assert Digits(numbers[i]) + "" == Digits(numbers[i]);
    }
  }

  // What follows the number of a part is ignored.
  lemma SuffixIgnored(n: nat, suffix: string)
    requires suffix == "" || !IsDigit(suffix[0])
    ensures Part(Digits(n) + suffix) == n
  {
    ParsePrinted(n, suffix);
  }

  // ------------------------------------------------------------------ sorting

  lemma ComparePreorder()
    ensures Preorder(Compare)
  {
    hide Compare;
    forall a, b
      ensures Compare(a, b) < 0 <==> Compare(b, a) > 0
    {
      CompareTotalPreorder(a, b, b);
    }
    forall a, b, c
      ensures Compare(a, b) <= 0 && Compare(b, c) <= 0 ==> Compare(a, c) <= 0
    {
      CompareTotalPreorder(a, b, c);
    }
  }

  // Sorting permutes the versions into order, ties staying in their order.
  lemma SortedVersions(keys: seq<string>)
    ensures var sorted := Sort(Compare, keys);
            Ordered(Compare, sorted) && multiset(sorted) == multiset(keys) && |sorted| == |keys| &&
            forall x :: Ties(Compare, sorted, x) == Ties(Compare, keys, x)
  {
    ComparePreorder();
    SortSorts(Compare, keys);
  }

  // ------------------------------------------------------------- version maps

  function Keys(entries: seq<Entry>): seq<string> {
    seq(|entries|, i requires 0 <= i < |entries| => entries[i].version)
  }

  function Put(entries: seq<Entry>, e: Entry): seq<Entry> {
    if entries == [] then [e]
    else if entries[0].version == e.version then [e] + entries[1..]
    else [entries[0]] + Put(entries[1..], e)
  }

  function Remove(entries: seq<Entry>, v: string): seq<Entry> {
    if entries == [] then []
    else if entries[0].version == v then entries[1..]
    else [entries[0]] + Remove(entries[1..], v)
  }

  function Find(entries: seq<Entry>, v: string): Option<Workflow> {
    if entries == [] then None
    else if entries[0].version == v then Some(entries[0].workflow)
    else Find(entries[1..], v)
  }

  predicate Has(entries: seq<Entry>, v: string) {
    Find(entries, v).Some?
  }

  ghost predicate DistinctVersions(entries: seq<Entry>) {
    forall i, j :: 0 <= i < j < |entries| ==> entries[i].version != entries[j].version
  }

  lemma {:induction false} HasKey(entries: seq<Entry>, v: string)
    ensures Has(entries, v) <==> v in Keys(entries)
    decreases |entries|
  {
    if entries != [] {
      HasKey(entries[1..], v);
      assert Keys(entries) == [entries[0].version] + Keys(entries[1..]);
    }
  }

  lemma {:induction false} PutFinds(entries: seq<Entry>, e: Entry, v: string)
    ensures Find(Put(entries, e), v) == if v == e.version then Some(e.workflow) else Find(entries, v)
    ensures Put(entries, e) != []
    decreases |entries|
  {
    if entries != [] {
      assert ([e] + entries[1..])[1..] == entries[1..];
      assert ([entries[0]] + Put(entries[1..], e))[1..] == Put(entries[1..], e);
      PutFinds(entries[1..], e, v);
    }
  }

  lemma {:induction false} RemoveFinds(entries: seq<Entry>, x: string, v: string)
    requires DistinctVersions(entries)
    ensures Find(Remove(entries, x), v) == if v == x then None else Find(entries, v)
    ensures DistinctVersions(Remove(entries, x)) && forall e :: e in Remove(entries, x) ==> e in entries
    decreases |entries|
  {
    if entries != [] {
      var rest := entries[1..];
      RemoveFinds(rest, x, v);
      if entries[0].version == x {
        NotAgain(entries, x);
      } else {
        assert ([entries[0]] + Remove(rest, x))[1..] == Remove(rest, x);
        forall i | 0 <= i < |Remove(rest, x)|
          ensures Remove(rest, x)[i].version != entries[0].version
        {
          assert Remove(rest, x)[i] in rest;
          var j :| 0 <= j < |rest| && rest[j] == Remove(rest, x)[i];
          assert entries[j+1] == rest[j];
        }
      }
    }
  }

  lemma NotAgain(entries: seq<Entry>, x: string)
    requires DistinctVersions(entries) && entries != [] && entries[0].version == x
    ensures Find(entries[1..], x).None?
  {
    HasKey(entries[1..], x);
    forall i | 0 <= i < |entries[1..]|
      ensures Keys(entries[1..])[i] != x
    {
      assert entries[i+1].version != entries[0].version;
    }
  }

  lemma {:induction false} PutDistinct(entries: seq<Entry>, e: Entry)
    requires DistinctVersions(entries)
    ensures DistinctVersions(Put(entries, e))
    ensures forall x :: x in Put(entries, e) ==> x == e || x in entries
    decreases |entries|
  {
    if entries != [] {
      var rest := entries[1..];
      PutDistinct(rest, e);
      if entries[0].version != e.version {
        forall i | 0 <= i < |Put(rest, e)|
          ensures Put(rest, e)[i].version != entries[0].version
        {
          var x := Put(rest, e)[i];
          assert x in Put(rest, e);
          if x != e {
            var j :| 0 <= j < |rest| && rest[j] == x;
            assert entries[j+1] == x;
          }
        }
      }
    }
  }

  // --------------------------------------------------------------- the manager

  const FIRST_VERSION: string := "1.0.0"

  // The version a workflow is registered under.
  function VersionOf(w: Workflow): string {
    if w.version.Some? && w.version.value != "" then w.version.value else FIRST_VERSION
  }

  function Entries(s: State, id: Id): seq<Entry> {
    if id in s.versions then s.versions[id] else []
  }

  function Register(s: State, w: Workflow): State {
    var v := VersionOf(w);
    State(s.versions[w.id := Put(Entries(s, w.id), Entry(v, w.(version := Some(v))))],
          if w.id !in s.latest || Compare(v, s.latest[w.id]) > 0 then s.latest[w.id := v] else s.latest)
  }

  function DeleteVersion(s: State, id: Id, v: string): State {
    if id !in s.versions || !Has(s.versions[id], v) then s
    else
      var rest := Remove(s.versions[id], v);
      if !(id in s.latest && s.latest[id] == v) then s.(versions := s.versions[id := rest])
      else if rest == [] then State(s.versions - {id}, s.latest - {id})
      else
        SortedVersions(Keys(rest));
        var sorted := Sort(Compare, Keys(rest));
        State(s.versions[id := rest], s.latest[id := sorted[|sorted|-1]])
  }

  function DeleteWorkflow(s: State, id: Id): State {
    State(s.versions - {id}, s.latest - {id})
  }

  // Without a version, or with an empty one, the latest.
  function Get(s: State, id: Id, v: Option<string>): Option<Workflow> {
    if id !in s.versions then None
    else if v.Some? && v.value != "" then Find(s.versions[id], v.value)
    else if id in s.latest then Find(s.versions[id], s.latest[id])
    else None
  }

  function GetVersions(s: State, id: Id): seq<string> {
    Sort(Compare, Keys(Entries(s, id)))
  }

  // The latest version is registered, and no registered one exceeds it.
  ghost predicate LatestOk(entries: seq<Entry>, latest: string) {
    Has(entries, latest) && forall v :: Has(entries, v) ==> Compare(v, latest) <= 0
  }

  ghost predicate Valid(s: State) {
    && (forall id :: id in s.versions <==> id in s.latest)
    && (forall id :: id in s.versions ==> DistinctVersions(s.versions[id]) && LatestOk(s.versions[id], s.latest[id]))
  }

  // Registering stores the workflow under its version, and changes no other.
  lemma RegisterKeeps(s: State, w: Workflow, id: Id, v: string)
    requires Valid(s)
    ensures var t := Register(s, w);
            Valid(t) && Find(Entries(t, id), v)
            == if id == w.id && v == VersionOf(w) then Some(w.(version := Some(v))) else Find(Entries(s, id), v)
  {
    var v' := VersionOf(w);
    var e := Entry(v', w.(version := Some(v')));
    var entries := Entries(s, w.id);
    PutFinds(entries, e, v);
    ValidAt(s, w.id);
    hide Valid, LatestOk, DistinctVersions, Put, Find, Compare, VersionOf;
    PutDistinct(entries, e);
    RegisteredLatest(entries, e, if w.id in s.latest then Some(s.latest[w.id]) else None);
    if w.id in s.latest { SameLatest(s, w.id); }
    SetValid(s, w.id, Put(entries, e),
             if w.id !in s.latest || Compare(v', s.latest[w.id]) > 0 then v' else s.latest[w.id]);
  }

  lemma SameLatest(s: State, id: Id)
    requires id in s.latest
    ensures s.latest[id := s.latest[id]] == s.latest
  {}

  lemma ValidAt(s: State, id: Id)
    requires Valid(s)
    ensures if id in s.versions then
              id in s.latest && DistinctVersions(s.versions[id]) && LatestOk(s.versions[id], s.latest[id])
            else id !in s.latest && DistinctVersions([])
  {}

  lemma DropValid(s: State, id: Id)
    requires Valid(s)
    ensures Valid(State(s.versions - {id}, s.latest - {id}))
  {
    hide LatestOk, DistinctVersions;
  }

  lemma RegisteredLatest(entries: seq<Entry>, e: Entry, latest: Option<string>)
    requires if latest.Some? then LatestOk(entries, latest.value) else entries == []
    ensures LatestOk(Put(entries, e),
                     if latest.None? || Compare(e.version, latest.value) > 0 then e.version else latest.value)
  {
    forall x
      ensures Has(Put(entries, e), x) <==> x == e.version || Has(entries, x)
    {
      PutFinds(entries, e, x);
    }
    hide Compare, Put;
    CompareTotalPreorder(e.version, e.version, e.version);
    if latest.Some? {
      CompareTotalPreorder(e.version, latest.value, e.version);
      forall x | Has(entries, x)
        ensures Compare(e.version, latest.value) > 0 ==> Compare(x, e.version) <= 0
      {
        CompareTotalPreorder(x, latest.value, e.version);
        CompareTotalPreorder(latest.value, e.version, e.version);
      }
    }
  }

  // Deleting a version takes away that one, and changes no other.
  lemma DeleteVersionKeeps(s: State, id: Id, v: string, other: Id, x: string)
    requires Valid(s)
    ensures var t := DeleteVersion(s, id, v);
            Valid(t) && Find(Entries(t, other), x) == if other == id && x == v then None else Find(Entries(s, other), x)
  {
    if id in s.versions && Has(s.versions[id], v) {
      var entries := s.versions[id];
      RemoveFinds(entries, v, x);
      DeletedLatest(s, id, v);
      NoneFound(x);
      hide Remove, Find, Compare, DistinctVersions, LatestOk, Sort, Keys, Valid;
    }
  }

  lemma SetValid(s: State, id: Id, entries: seq<Entry>, latest: string)
    requires Valid(s) && DistinctVersions(entries) && LatestOk(entries, latest)
    ensures Valid(State(s.versions[id := entries], s.latest[id := latest]))
  {
    hide DistinctVersions, LatestOk;
  }

  lemma DeletedLatest(s: State, id: Id, v: string)
    requires Valid(s) && id in s.versions && Has(s.versions[id], v)
    ensures Valid(DeleteVersion(s, id, v))
  {
    var entries := s.versions[id];
    ValidAt(s, id);
    hide Valid, LatestOk, Find, Compare, Sort, Keys;
    RemoveFinds(entries, v, v);
    var rest := Remove(entries, v);
    hide Remove, DistinctVersions;
    if s.latest[id] != v {
      RemoveOther(entries, v, s.latest[id]);
      SetValid(s, id, rest, s.latest[id]);
      SameLatest(s, id);
    } else if rest == [] {
      DropValid(s, id);
    } else {
      LastIsLatest(rest);
      SetValid(s, id, rest, Sort(Compare, Keys(rest))[|Sort(Compare, Keys(rest))|-1]);
    }
  }

  lemma RemoveOther(entries: seq<Entry>, v: string, latest: string)
    requires DistinctVersions(entries) && LatestOk(entries, latest) && latest != v
    ensures LatestOk(Remove(entries, v), latest)
  {
    forall y
      ensures Has(Remove(entries, v), y) <==> y != v && Has(entries, y)
    {
      RemoveFinds(entries, v, y);
    }
    hide Remove, Find, Compare;
  }

  lemma NoneFound(v: string)
    ensures Find([], v).None?
  {}

  lemma LastIsLatest(entries: seq<Entry>)
    requires entries != []
    ensures |Sort(Compare, Keys(entries))| > 0 &&
            LatestOk(entries, Sort(Compare, Keys(entries))[|Sort(Compare, Keys(entries))|-1])
  {
    var keys := Keys(entries);
    SortedVersions(keys);
    var sorted := Sort(Compare, keys);
    var last := sorted[|sorted|-1];
    hide Compare, Sort, Keys, Find;
    assert last in multiset(sorted);
    HasKey(entries, last);
    CompareTotalPreorder(last, last, last);
    forall x | Has(entries, x)
      ensures Compare(x, last) <= 0
    {
      HasKey(entries, x);
      assert x in multiset(keys);
      assert x in sorted;
      var i :| 0 <= i < |sorted| && sorted[i] == x;
    }
  }

  lemma DeleteWorkflowKeeps(s: State, id: Id, other: Id, x: string)
    requires Valid(s)
    ensures var t := DeleteWorkflow(s, id);
            Valid(t) && Find(Entries(t, other), x) == if other == id then None else Find(Entries(s, other), x)
  {}

  datatype Step =
    | RegisterStep(workflow: Workflow)
    | DeleteVersionStep(id: Id, version: string)
    | DeleteWorkflowStep(id: Id)

  function Next(s: State, step: Step): State {
    match step
    case RegisterStep(w) => Register(s, w)
    case DeleteVersionStep(id, v) => DeleteVersion(s, id, v)
    case DeleteWorkflowStep(id) => DeleteWorkflow(s, id)
  }

  function After(steps: seq<Step>): State {
    if steps == [] then State(map[], map[]) else Next(After(steps[..|steps|-1]), steps[|steps|-1])
  }

  // What was registered under a version last, unless deleted since.
  function LastRegistered(steps: seq<Step>, id: Id, v: string): Option<Workflow> {
    if steps == [] then None else Left(steps[|steps|-1], id, v, LastRegistered(steps[..|steps|-1], id, v))
  }

  // After any sequence of operations each version gives what was registered
  // under it last; the latest version of a workflow is one that no registered
  // version exceeds, and there is one exactly if any version is registered.
  lemma {:induction false} LatestAlways(steps: seq<Step>)
    ensures Valid(After(steps))
    ensures forall id, v :: Find(Entries(After(steps), id), v) == LastRegistered(steps, id, v)
    decreases |steps|
  {
    if steps != [] {
      LatestAlways(steps[..|steps|-1]);
      var s, step := After(steps[..|steps|-1]), steps[|steps|-1];
      hide Valid, Find, Next, After;
      StepKeeps(s, step, StepId(step), "");
      forall id, v
        ensures Find(Entries(Next(s, step), id), v) == LastRegistered(steps, id, v)
      {
        StepKeeps(s, step, id, v);
      }
      assert After(steps) == Next(s, step) by { AfterStep(steps); }
    }
  }

  lemma AfterStep(steps: seq<Step>)
    requires steps != []
    ensures After(steps) == Next(After(steps[..|steps|-1]), steps[|steps|-1])
  {}

  function StepId(step: Step): Id {
    match step
    case RegisterStep(w) => w.id
    case DeleteVersionStep(id, _) => id
    case DeleteWorkflowStep(id) => id
  }

  // What a step leaves under a version.
  function Left(step: Step, id: Id, v: string, before: Option<Workflow>): Option<Workflow> {
    match step
    case RegisterStep(w) => if w.id == id && VersionOf(w) == v then Some(w.(version := Some(v))) else before
    case DeleteVersionStep(x, y) => if x == id && y == v then None else before
    case DeleteWorkflowStep(x) => if x == id then None else before
  }

  lemma StepKeeps(s: State, step: Step, id: Id, v: string)
    requires Valid(s)
    ensures Valid(Next(s, step)) && Find(Entries(Next(s, step), id), v) == Left(step, id, v, Find(Entries(s, id), v))
  {
    hide Valid, Find, Register, DeleteVersion, DeleteWorkflow, VersionOf;
    match step
    case RegisterStep(w) => RegisterKeeps(s, w, id, v);
    case DeleteVersionStep(x, y) => DeleteVersionKeeps(s, x, y, id, v);
    case DeleteWorkflowStep(x) => DeleteWorkflowKeeps(s, x, id, v);
  }

  // So asking without a version gives a registered workflow whose version no
  // registered version exceeds, whenever there is one.
  lemma GetLatest(steps: seq<Step>, s: State, id: Id, v: string)
    requires s == After(steps) && v != "" && LastRegistered(steps, id, v).Some?
    ensures Get(s, id, Some(v)) == LastRegistered(steps, id, v)
    ensures id in s.latest && Get(s, id, None) == LastRegistered(steps, id, s.latest[id])
    ensures Get(s, id, None).Some? && Compare(v, s.latest[id]) <= 0
  {
    LatestAlways(steps);
    hide After, LastRegistered, Compare;
    assert Find(Entries(s, id), v) == LastRegistered(steps, id, v);
    NoneFound(v);
    assert Has(s.versions[id], v);
    assert LatestOk(s.versions[id], s.latest[id]);
    assert Find(Entries(s, id), s.latest[id]) == LastRegistered(steps, id, s.latest[id]);
    hide Find;
  }

  // A workflow without a version, or with an empty one, is registered as the
  // first version; any other as the version it has.
  lemma RegisteredUnder(steps: seq<Step>, w: Workflow)
    ensures var v := match w.version case None => "1.0.0" case Some(x) => if |x| == 0 then "1.0.0" else x;
            Get(After(steps + [RegisterStep(w)]), w.id, Some(v)) == Some(Workflow(w.id, Some(v), w.body))
  {
    LatestAlways(steps);
    var v := VersionOf(w);
    RegisterKeeps(After(steps), w, w.id, v);
    var all := steps + [RegisterStep(w)];
    assert all[..|all|-1] == steps;
    hide Valid, After, Find, Put, Compare;
    assert After(all) == Register(After(steps), w) by { AfterStep(all); }
  }

  // ------------------------------------------------------------------ the class

  class VersionManager {
    var versions: map<Id, seq<Entry>>
    var latestVersions: map<Id, string>

    ghost function Abstract(): State
      reads this
    {
      State(versions, latestVersions)
    }

    constructor ()
      ensures Abstract() == After([])
    {
      versions, latestVersions := map[], map[];
    }

    method RegisterWorkflow(w: Workflow)
      modifies this
      ensures Abstract() == Register(old(Abstract()), w)
    {
      hide Put, Compare;
      var version := VersionOf(w);
      var entries := if w.id in versions then versions[w.id] else [];
      versions := versions[w.id := Put(entries, Entry(version, w.(version := Some(version))))];
      if w.id !in latestVersions {
        latestVersions := latestVersions[w.id := version];
      } else {
        var order := CompareVersions(version, latestVersions[w.id]);
        if order > 0 { latestVersions := latestVersions[w.id := version]; }
      }
    }

    method GetWorkflow(id: Id, version: Option<string>) returns (w: Option<Workflow>)
      ensures w == Get(Abstract(), id, version)
    {
      if id !in versions { return None; }
      if version.Some? && version.value != "" { return Find(versions[id], version.value); }
      if id in latestVersions { return Find(versions[id], latestVersions[id]); }
      return None;
    }

    method ListVersions(id: Id) returns (all: seq<string>)
      ensures all == GetVersions(Abstract(), id)
      ensures Ordered(Compare, all) && multiset(all) == multiset(Keys(Entries(Abstract(), id)))
    {
      hide Sort, Keys;
      all := Sort(Compare, Keys(if id in versions then versions[id] else []));
      SortedVersions(Keys(Entries(Abstract(), id)));
    }

    method DeleteOneVersion(id: Id, version: string) returns (deleted: bool)
      modifies this
      ensures Abstract() == DeleteVersion(old(Abstract()), id, version)
      ensures deleted <==> Has(Entries(old(Abstract()), id), version)
    {
      hide Find, Remove, Sort, Keys;
      if id !in versions {
        NoneFound(version);
        return false;
      }
      if !Has(versions[id], version) { return false; }
      var remaining := Remove(versions[id], version);
      versions := versions[id := remaining];
      if id in latestVersions && latestVersions[id] == version {
        if remaining != [] {
          SortedVersions(Keys(remaining));
          var sorted := Sort(Compare, Keys(remaining));
          LastIsLatest(remaining);
          latestVersions := latestVersions[id := sorted[|sorted|-1]];
        } else {
          latestVersions, versions := latestVersions - {id}, versions - {id};
        }
      }
      return true;
    }

    method DeleteWholeWorkflow(id: Id) returns (deleted: bool)
      modifies this
      ensures Abstract() == DeleteWorkflow(old(Abstract()), id)
      ensures deleted <==> id in old(versions)
    {
      deleted := id in versions;
      versions, latestVersions := versions - {id}, latestVersions - {id};
    }
  }
}
