/**
 Task queues with workers, as a step machine: a step is what runs between two
 awaits.  Task ids are fresh, as the source's timestamp and random suffix make
 them; workers decide when and how a running task ends.
 */
module TaskQueue {
  import opened Basics

  type Id(==, !new, 00)

  type Name(==, !new, 00)

  type WorkerId(==, !new, 00)

  type Payload(!new, 00)

  type Routing = Payload -> Name

  datatype Task = Task(id: Id, queueName: Name)

  // A pending list has an identity: a running task keeps the list it came
  // from, which may since have been deleted or replaced.
  datatype PendingList = PendingList(identity: nat, tasks: seq<Task>)

  datatype Registration = Registration(queueNames: seq<Name>, maxConcurrent: int, activeCount: int)

  // `registration` is a key of `registrations`: registering a worker id again
  // makes a new registration while running tasks keep the old one.
  datatype Worker = Worker(id: WorkerId, registration: nat)

  // A task at a worker; `awaited` is whether its settlement was found when it
  // was dispatched.
  datatype Slot = Slot(task: Task, queue: Name, list: nat, registration: nat, awaited: bool)

  datatype Outcome = Resolved | Rejected | QueueDeleted

  datatype Settlement = Settlement(id: Id, outcome: Outcome)

  datatype Place = Waiting(queue: Name) | Running(slot: nat)

  // The fields of the manager, the tasks its workers run, and histories: the
  // ids submitted, the settlements made, where each task was put last, and
  // the tasks that came to and left from each list.
  datatype State = State(
    queues: set<Name>,
    pending: map<Name, PendingList>,
    routing: map<Name, Routing>,
    workers: seq<Worker>,
    registrations: map<nat, Registration>,
    settlements: set<Id>,
    slots: map<nat, Slot>,
    nextKey: nat,
    submitted: set<Id>,
    log: seq<Settlement>,
    home: map<Id, Place>,
    arrived: map<nat, seq<Task>>,
    started: map<nat, seq<Task>>)

  // ------------------------------------------------------------------ steps

  function Tasks(s: State, q: Name): seq<Task> {
    if q in s.pending then s.pending[q].tasks else []
  }

  function NewList(s: State, q: Name): State {
    s.(pending := s.pending[q := PendingList(s.nextKey, [])],
       arrived := s.arrived[s.nextKey := []],
       started := s.started[s.nextKey := []],
       nextKey := s.nextKey + 1)
  }

  function CreateQueue(s: State, q: Name, routing: Option<Routing>): State {
    var t := NewList(s, q);
    t.(queues := t.queues + {q}, routing := if routing.Some? then t.routing[q := routing.value] else t.routing)
  }

  function Settled(settlements: set<Id>, log: seq<Settlement>, id: Id, outcome: Outcome): (set<Id>, seq<Settlement>) {
    (settlements - {id}, log + [Settlement(id, outcome)])
  }

  function Settle(settlements: set<Id>, log: seq<Settlement>, id: Id, outcome: Outcome): (set<Id>, seq<Settlement>) {
    if id in settlements then Settled(settlements, log, id, outcome) else (settlements, log)
  }

  // Fails the callers that wait for these tasks, in order.
  function RejectAll(settlements: set<Id>, log: seq<Settlement>, tasks: seq<Task>): (set<Id>, seq<Settlement>) {
    if tasks == [] then (settlements, log)
    else
      var r := RejectAll(settlements, log, tasks[..|tasks|-1]);
      Settle(r.0, r.1, tasks[|tasks|-1].id, QueueDeleted)
  }

  function DeleteQueue(s: State, q: Name): State {
    if q !in s.queues then s
    else
      var r := RejectAll(s.settlements, s.log, Tasks(s, q));
      s.(queues := s.queues - {q}, pending := s.pending - {q}, routing := s.routing - {q}, settlements := r.0,
         log := r.1)
  }

  function Target(s: State, q: Name, payload: Payload): Name {
    if q in s.routing then s.routing[q](payload) else q
  }

  function Appended(lists: map<nat, seq<Task>>, list: nat, task: Task): map<nat, seq<Task>> {
    lists[list := (if list in lists then lists[list] else []) + [task]]
  }

  function Append(s: State, q: Name, id: Id): State
    requires q in s.pending
  {
    var l := s.pending[q];
    s.(pending := s.pending[q := PendingList(l.identity, l.tasks + [Task(id, q)])],
       home := s.home[id := Waiting(q)],
       arrived := Appended(s.arrived, l.identity, Task(id, q)))
  }

  function Put(s: State, q: Name, id: Id): State {
    Append(if q in s.pending then s else NewList(s, q), q, id)
  }

  predicate Serves(s: State, w: Worker, q: Name) {
    w.registration in s.registrations &&
    var r := s.registrations[w.registration];
    q in r.queueNames && r.activeCount < r.maxConcurrent
  }

  // The first worker from an index on that can take a task of the queue.
  function FirstServing(s: State, q: Name, i: nat): Option<nat>
    decreases |s.workers| - i
  {
    if i >= |s.workers| then None
    else if Serves(s, s.workers[i], q) then Some(s.workers[i].registration)
    else FirstServing(s, q, i + 1)
  }

  function Start(s: State, q: Name, registration: nat): State
    requires q in s.pending && s.pending[q].tasks != [] && registration in s.registrations
  {
    var l := s.pending[q];
    var r := s.registrations[registration];
    var task := l.tasks[0];
    s.(pending := s.pending[q := PendingList(l.identity, l.tasks[1..])],
       registrations := s.registrations[registration := r.(activeCount := r.activeCount + 1)],
       slots := s.slots[s.nextKey := Slot(task, q, l.identity, registration, task.id in s.settlements)],
       nextKey := s.nextKey + 1,
       home := s.home[task.id := Running(s.nextKey)],
       started := Appended(s.started, l.identity, task))
  }

  function Dispatch(s: State, q: Name): State {
    var r := FirstServing(s, q, 0);
    if q in s.queues && Tasks(s, q) != [] && r.Some? && r.value in s.registrations then Start(s, q, r.value) else s
  }

  datatype Entered = Entered(state: State) | QueueNotFound

  function Enqueue(s: State, q: Name, payload: Payload, id: Id): Entered {
    if q !in s.queues then QueueNotFound
    else
      var target := Target(s, q, payload);
      Entered(Dispatch(Put(s, target, id), target))
  }

  function Await(s: State, id: Id): State {
    s.(settlements := s.settlements + {id}, submitted := s.submitted + {id})
  }

  function Submit(s: State, q: Name, payload: Payload, id: Id): Entered {
    if q !in s.queues then QueueNotFound
    else
      var target := Target(s, q, payload);
      Entered(Dispatch(Await(Put(s, target, id), id), target))
  }

  // A failed task that nobody waits for goes back to the front of its list.
  function PutBack(s: State, slot: Slot): State {
    if slot.queue in s.pending && s.pending[slot.queue].identity == slot.list then
      s.(pending := s.pending[slot.queue := PendingList(slot.list, [slot.task] + s.pending[slot.queue].tasks)],
         home := s.home[slot.task.id := Waiting(slot.queue)])
    else s
  }

  function Free(s: State, k: nat): State
    requires k in s.slots
  {
    var reg := s.slots[k].registration;
    s.(slots := s.slots - {k},
       registrations :=
         if reg !in s.registrations then s.registrations
         else s.registrations[reg := s.registrations[reg].(activeCount := s.registrations[reg].activeCount - 1)])
  }

  // A running task ends; the settlement found at its dispatch is made, whether
  // or not it is still kept.
  function Finish(s: State, k: nat, ok: bool): State
    requires k in s.slots
  {
    var slot := s.slots[k];
    if slot.awaited then
      var r := Settled(s.settlements, s.log, slot.task.id, if ok then Resolved else Rejected);
      Free(s.(settlements := r.0, log := r.1), k)
    else if ok then Free(s, k)
    else Free(PutBack(s, slot), k)
  }

  function Complete(s: State, k: nat, ok: bool): State
    requires k in s.slots
  {
    Dispatch(Finish(s, k, ok), s.slots[k].queue)
  }

  function SetWorker(workers: seq<Worker>, w: Worker): seq<Worker> {
    if workers == [] then [w]
    else if workers[0].id == w.id then [w] + workers[1..]
    else [workers[0]] + SetWorker(workers[1..], w)
  }

  function CreateMissing(s: State, names: seq<Name>): State {
    if names == [] then s
    else
      var t := CreateMissing(s, names[..|names|-1]);
      var q := names[|names|-1];
      if q in t.queues then t else CreateQueue(t, q, None)
  }

  function AddRegistration(s: State, w: WorkerId, names: seq<Name>, maxConcurrent: int): State {
    s.(workers := SetWorker(s.workers, Worker(w, s.nextKey)),
       registrations := s.registrations[s.nextKey := Registration(names, maxConcurrent, 0)],
       nextKey := s.nextKey + 1)
  }

  function Register(s: State, w: WorkerId, names: seq<Name>, maxConcurrent: int): State {
    CreateMissing(AddRegistration(s, w, names, maxConcurrent), names)
  }

  function RemoveWorker(workers: seq<Worker>, w: WorkerId): seq<Worker> {
    if workers == [] then []
    else if workers[0].id == w then workers[1..]
    else [workers[0]] + RemoveWorker(workers[1..], w)
  }

  function Unregister(s: State, w: WorkerId): State {
    s.(workers := RemoveWorker(s.workers, w))
  }

  // -------------------------------------------------------------- invariants

  ghost predicate HasTask(tasks: seq<Task>, id: Id) {
    exists i :: 0 <= i < |tasks| && tasks[i].id == id
  }

  ghost predicate DistinctIds(tasks: seq<Task>) {
    forall i, j :: 0 <= i < j < |tasks| ==> tasks[i].id != tasks[j].id
  }

  ghost predicate HomeIs(s: State, id: Id, p: Place) {
    id in s.home && s.home[id] == p
  }

  // The tasks of a pending list: none twice, each put here last, each still
  // awaited if it was submitted.
  ghost predicate ListOk(s: State, q: Name, l: PendingList) {
    && l.identity < s.nextKey && l.identity in s.arrived && l.identity in s.started
    && DistinctIds(l.tasks)
    && (forall i :: 0 <= i < |l.tasks| ==> HomeIs(s, l.tasks[i].id, Waiting(q)))
    && (forall i :: 0 <= i < |l.tasks| ==> l.tasks[i].id in s.submitted ==> l.tasks[i].id in s.settlements)
    && (forall i :: 0 <= i < |l.tasks| ==> l.tasks[i] in s.arrived[l.identity])
  }

  ghost predicate ListsOk(s: State) {
    && (forall q :: q in s.queues ==> q in s.pending)
    && (forall q :: q in s.pending ==> ListOk(s, q, s.pending[q]))
    && (forall q, q' :: q in s.pending && q' in s.pending && s.pending[q].identity == s.pending[q'].identity ==>
          q == q')
  }

  ghost predicate SlotOk(s: State, k: nat, slot: Slot) {
    && k < s.nextKey && HomeIs(s, slot.task.id, Running(k))
    && (slot.awaited <==> slot.task.id in s.submitted) && (slot.awaited ==> slot.task.id in s.settlements)
    && slot.registration in s.registrations && slot.registration < s.nextKey
    && slot.list in s.arrived && slot.task in s.arrived[slot.list]
  }

  ghost predicate SlotsOk(s: State) {
    forall k :: k in s.slots ==> SlotOk(s, k, s.slots[k])
  }

  // An awaited task is where it was put last.
  ghost predicate Placed(s: State, id: Id) {
    id in s.home &&
    match s.home[id]
    case Waiting(q) => q in s.pending && HasTask(s.pending[q].tasks, id)
    case Running(k) => k in s.slots && s.slots[k].task.id == id
  }

  ghost predicate AllPlaced(s: State, except: set<Id>) {
    forall id :: id in s.settlements && id !in except ==> Placed(s, id)
  }

  ghost predicate Logged(log: seq<Settlement>, id: Id) {
    exists i :: 0 <= i < |log| && log[i].id == id
  }

  // The settlements still to come are those submitted and not yet made, and
  // none is made twice.
  ghost predicate LedgerOk(submitted: set<Id>, settlements: set<Id>, log: seq<Settlement>) {
    && (forall id :: id in settlements <==> id in submitted && !Logged(log, id))
    && (forall i :: 0 <= i < |log| ==> log[i].id in submitted)
    && (forall i, j :: 0 <= i < j < |log| ==> log[i].id != log[j].id)
  }

  ghost function SlotsOf(s: State, registration: nat): set<nat> {
    set k | k in s.slots && s.slots[k].registration == registration
  }

  ghost predicate CountOk(s: State, registration: nat, r: Registration) {
    registration < s.nextKey && r.activeCount == |SlotsOf(s, registration)| &&
    (r.activeCount > 0 ==> r.activeCount <= r.maxConcurrent)
  }

  ghost predicate CountsOk(s: State) {
    forall r :: r in s.registrations ==> CountOk(s, r, s.registrations[r])
  }

  ghost predicate SubmitOnly(s: State, tasks: seq<Task>) {
    forall i :: 0 <= i < |tasks| ==> tasks[i].id in s.submitted
  }

  // What left a list to which only submitted tasks came left it in the order
  // of arrival.
  ghost predicate OrderOk(s: State) {
    && (forall l :: l in s.arrived ==>
          l < s.nextKey && l in s.started && forall i :: 0 <= i < |s.arrived[l]| ==> s.arrived[l][i].id in s.home)
    && (forall l :: l in s.arrived && SubmitOnly(s, s.arrived[l]) ==> s.started[l] <= s.arrived[l])
    && (forall q :: q in s.pending ==> ListQueued(s, s.pending[q]))
  }

  ghost predicate ListQueued(s: State, l: PendingList) {
    l.identity in s.arrived && l.identity in s.started &&
    (SubmitOnly(s, s.arrived[l.identity]) ==> s.arrived[l.identity] == s.started[l.identity] + l.tasks)
  }

  ghost predicate InvBut(s: State, except: set<Id>) {
    && ListsOk(s) && SlotsOk(s) && AllPlaced(s, except) && LedgerOk(s.submitted, s.settlements, s.log)
    && CountsOk(s) && OrderOk(s)
    && forall id :: id in s.submitted && id !in except ==> id in s.home
  }

  ghost predicate Inv(s: State) {
    InvBut(s, {})
  }

  // Counts depend on slots and registrations only.
  lemma CountsSame(s: State, t: State)
    requires CountsOk(s) && t.slots == s.slots && t.registrations == s.registrations && t.nextKey >= s.nextKey
    ensures CountsOk(t)
  {}

  // ------------------------------------------------------------ putting tasks

  lemma AwaitKeeps(s: State, id: Id)
    requires Inv(s) && id !in s.home
    ensures InvBut(Await(s, id), {id}) && id !in Await(s, id).home
  {
    var t := Await(s, id);
    AwaitLists(s, id);
    AwaitSlots(s, id);
    AwaitPlaced(s, id);
    CountsSame(s, t);
    AwaitOrder(s, id);
    AwaitLedger(s, id);
    hide ListsOk, SlotsOk, AllPlaced, CountsOk, OrderOk, LedgerOk;
  }

  lemma AwaitLists(s: State, id: Id)
    requires ListsOk(s) && id !in s.home
    ensures ListsOk(Await(s, id))
  {}

  lemma AwaitSlots(s: State, id: Id)
    requires SlotsOk(s) && id !in s.home
    ensures SlotsOk(Await(s, id))
  {}

  lemma AwaitPlaced(s: State, id: Id)
    requires AllPlaced(s, {})
    ensures AllPlaced(Await(s, id), {id})
  {}

  lemma AwaitLedger(s: State, id: Id)
    requires Inv(s) && id !in s.home
    ensures LedgerOk(s.submitted + {id}, s.settlements + {id}, s.log)
  {}

  lemma AwaitOrder(s: State, id: Id)
    requires OrderOk(s) && id !in s.home
    ensures OrderOk(Await(s, id))
  {
    var t := Await(s, id);
    forall l | l in s.arrived && SubmitOnly(t, s.arrived[l])
      ensures SubmitOnly(s, s.arrived[l])
    {}
  }

  // No caller waits for a task of this list.
  ghost predicate NobodyWaits(s: State, q: Name) {
    forall i :: 0 <= i < |Tasks(s, q)| ==> Tasks(s, q)[i].id !in s.settlements
  }

  lemma NewListKeeps(s: State, q: Name, except: set<Id>)
    requires InvBut(s, except) && NobodyWaits(s, q)
    ensures InvBut(NewList(s, q), except)
  {
    NewListLists(s, q);
    NewListSlots(s, q);
    NewListPlaced(s, q, except);
    CountsSame(s, NewList(s, q));
    NewListOrder(s, q);
    hide ListsOk, SlotsOk, AllPlaced, CountsOk, OrderOk, LedgerOk, NobodyWaits;
  }

  lemma NewListLists(s: State, q: Name)
    requires ListsOk(s)
    ensures ListsOk(NewList(s, q))
  {
    var t := NewList(s, q);
    hide DistinctIds;
    forall p | p in t.pending
      ensures ListOk(t, p, t.pending[p])
    {
      if p == q {
        assert DistinctIds(t.pending[q].tasks) by { DistinctNone(t.pending[q].tasks); }
      } else {
        assert ListOk(s, p, s.pending[p]);
      }
    }
    forall p, p' | p in t.pending && p' in t.pending && t.pending[p].identity == t.pending[p'].identity
      ensures p == p'
    {
      if p != q { assert ListOk(s, p, s.pending[p]); }
      if p' != q { assert ListOk(s, p', s.pending[p']); }
    }
  }

  lemma DistinctNone(tasks: seq<Task>)
    requires |tasks| <= 1
    ensures DistinctIds(tasks)
  {}

  lemma NewListSlots(s: State, q: Name)
    requires SlotsOk(s) && OrderOk(s)
    ensures SlotsOk(NewList(s, q))
  {}

  lemma NewListPlaced(s: State, q: Name, except: set<Id>)
    requires AllPlaced(s, except) && NobodyWaits(s, q)
    ensures AllPlaced(NewList(s, q), except)
  {
    var t := NewList(s, q);
    forall x | x in t.settlements && x !in except
      ensures Placed(t, x)
    {
      assert Placed(s, x);
      NobodyWaitsFor(s, q, x);
    }
  }

  lemma NobodyWaitsFor(s: State, q: Name, id: Id)
    requires NobodyWaits(s, q) && id in s.settlements
    ensures !HasTask(Tasks(s, q), id)
  {}

  lemma NewListOrder(s: State, q: Name)
    requires OrderOk(s) && ListsOk(s)
    ensures OrderOk(NewList(s, q))
  {
    var t := NewList(s, q);
    forall p | p in t.pending
      ensures ListQueued(t, t.pending[p])
    {
      if p != q {
        assert ListOk(s, p, s.pending[p]);
        assert ListQueued(s, s.pending[p]);
        assert SubmitOnly(t, s.arrived[s.pending[p].identity]) ==> SubmitOnly(s, s.arrived[s.pending[p].identity]);
      }
    }
    forall l | l in t.arrived && SubmitOnly(t, t.arrived[l])
      ensures t.started[l] <= t.arrived[l]
    {
      if l != s.nextKey { assert SubmitOnly(s, s.arrived[l]); }
    }
  }

  // The new id may be awaited already, but is not placed anywhere yet.
  lemma AppendKeeps(s: State, q: Name, id: Id)
    requires InvBut(s, {id}) && q in s.pending && id !in s.home && (id in s.submitted ==> id in s.settlements)
    ensures Inv(Append(s, q, id))
  {
    var t := Append(s, q, id);
    AppendLists(s, q, id);
    AppendSlots(s, q, id);
    AppendPlaced(s, q, id);
    CountsSame(s, t);
    AppendOrder(s, q, id);
    hide ListsOk, SlotsOk, AllPlaced, CountsOk, OrderOk, LedgerOk;
  }

  lemma AppendThis(s: State, q: Name, id: Id)
    requires q in s.pending && ListOk(s, q, s.pending[q]) && id !in s.home &&
             (id in s.submitted ==> id in s.settlements)
    ensures var t := Append(s, q, id); ListOk(t, q, t.pending[q])
  {}

  lemma AppendOther(s: State, q: Name, id: Id, p: Name)
    requires q in s.pending && p in s.pending && ListOk(s, p, s.pending[p]) && ListOk(s, q, s.pending[q]) &&
             id !in s.home && p != q
    ensures var t := Append(s, q, id); ListOk(t, p, t.pending[p])
  {}

  lemma AppendLists(s: State, q: Name, id: Id)
    requires ListsOk(s) && q in s.pending && id !in s.home && (id in s.submitted ==> id in s.settlements)
    ensures ListsOk(Append(s, q, id))
  {
    var t := Append(s, q, id);
    forall p | p in t.pending
      ensures ListOk(t, p, t.pending[p])
    {
      assert ListOk(s, p, s.pending[p]);
      if p == q { AppendThis(s, q, id); } else { AppendOther(s, q, id, p); }
    }
    hide ListOk;
    forall p, p' | p in t.pending && p' in t.pending && t.pending[p].identity == t.pending[p'].identity
      ensures p == p'
    {
      assert s.pending[p].identity == s.pending[p'].identity;
    }
  }

  lemma AppendSlots(s: State, q: Name, id: Id)
    requires SlotsOk(s) && q in s.pending && id !in s.home
    ensures SlotsOk(Append(s, q, id))
  {}

  lemma AppendPlaced(s: State, q: Name, id: Id)
    requires AllPlaced(s, {id}) && q in s.pending && id !in s.home
    ensures AllPlaced(Append(s, q, id), {})
  {
    var t := Append(s, q, id);
    var was, now := s.pending[q].tasks, t.pending[q].tasks;
    assert now[|was|].id == id;
    forall x | x in t.settlements
      ensures Placed(t, x)
    {
      if x != id {
        assert Placed(s, x);
        if s.home[x] == Waiting(q) {
          var i :| 0 <= i < |was| && was[i].id == x;
          assert now[i].id == x;
        }
      }
    }
  }

  lemma PrefixSubmitOnly(s: State, t: State, tasks: seq<Task>, task: Task)
    requires t.submitted == s.submitted && SubmitOnly(t, tasks + [task])
    ensures SubmitOnly(s, tasks)
  {
    forall i | 0 <= i < |tasks|
      ensures tasks[i].id in s.submitted
    {
      assert (tasks + [task])[i] == tasks[i];
    }
  }

  lemma AppendOrder(s: State, q: Name, id: Id)
    requires OrderOk(s) && ListsOk(s) && q in s.pending && id !in s.home
    ensures OrderOk(Append(s, q, id))
  {
    var t := Append(s, q, id);
    var l := s.pending[q];
    assert ListOk(s, q, l) && ListQueued(s, l);
    var arrived := s.arrived[l.identity];
    assert t.arrived[l.identity] == arrived + [Task(id, q)];
    if SubmitOnly(t, t.arrived[l.identity]) { PrefixSubmitOnly(s, t, arrived, Task(id, q)); }
    hide SubmitOnly;
    forall p | p in t.pending
      ensures ListQueued(t, t.pending[p])
    {
      if p != q { OtherList(s, t, p, q); }
    }
    hide ListQueued, ListOk;
    forall m | m in t.arrived
      ensures m < t.nextKey && m in t.started && forall i :: 0 <= i < |t.arrived[m]| ==> t.arrived[m][i].id in t.home
    {}
    forall m | m in t.arrived && SubmitOnly(t, t.arrived[m])
      ensures t.started[m] <= t.arrived[m]
    {
      if m != l.identity { SameSubmitOnly(s, t, s.arrived[m]); }
    }
  }

  lemma SameSubmitOnly(s: State, t: State, tasks: seq<Task>)
    requires t.submitted == s.submitted
    ensures SubmitOnly(t, tasks) <==> SubmitOnly(s, tasks)
  {}

  lemma OtherList(s: State, t: State, p: Name, q: Name)
    requires OrderOk(s) && ListsOk(s) && p in s.pending && q in s.pending && p != q
    requires p in t.pending && t.pending[p] == s.pending[p] && t.submitted == s.submitted
    requires forall l :: l in s.arrived && l != s.pending[q].identity ==>
               l in t.arrived && t.arrived[l] == s.arrived[l] &&
                 (l in s.started ==> l in t.started && t.started[l] == s.started[l])
    ensures ListQueued(t, t.pending[p])
  {}

  lemma PutKeeps(s: State, q: Name, id: Id)
    requires InvBut(s, {id}) && id !in s.home && (id in s.submitted ==> id in s.settlements)
    ensures Inv(Put(s, q, id))
  {
    if q !in s.pending {
      assert NobodyWaits(s, q);
      NewListKeeps(s, q, {id});
    }
    hide InvBut;
    AppendKeeps(if q in s.pending then s else NewList(s, q), q, id);
  }

  // --------------------------------------------------------------- dispatching

  lemma StartKeeps(s: State, q: Name, registration: nat)
    requires Inv(s) && q in s.pending && s.pending[q].tasks != [] && registration in s.registrations
    requires s.registrations[registration].activeCount < s.registrations[registration].maxConcurrent
    ensures Inv(Start(s, q, registration))
  {
    StartLists(s, q, registration);
    StartSlots(s, q, registration);
    StartPlaced(s, q, registration);
    StartCounts(s, q, registration);
    StartOrder(s, q, registration);
    hide ListsOk, SlotsOk, AllPlaced, CountsOk, OrderOk, LedgerOk;
  }

  lemma StartLists(s: State, q: Name, registration: nat)
    requires ListsOk(s) && q in s.pending && s.pending[q].tasks != [] && registration in s.registrations
    ensures ListsOk(Start(s, q, registration))
  {
    var t := Start(s, q, registration);
    forall p | p in t.pending
      ensures ListOk(t, p, t.pending[p])
    {
      assert ListOk(s, p, s.pending[p]);
      if p == q { StartThis(s, q, registration); } else { StartOther(s, q, registration, p); }
    }
    hide ListOk;
    forall p, p' | p in t.pending && p' in t.pending && t.pending[p].identity == t.pending[p'].identity
      ensures p == p'
    {
      assert s.pending[p].identity == s.pending[p'].identity;
    }
  }

  lemma StartThis(s: State, q: Name, registration: nat)
    requires q in s.pending && s.pending[q].tasks != [] && registration in s.registrations && ListOk(s, q, s.pending[q])
    ensures var t := Start(s, q, registration); ListOk(t, q, t.pending[q])
  {}

  lemma StartOther(s: State, q: Name, registration: nat, p: Name)
    requires q in s.pending && s.pending[q].tasks != [] && registration in s.registrations && ListOk(s, q, s.pending[q])
    requires p in s.pending && p != q && ListOk(s, p, s.pending[p])
    ensures var t := Start(s, q, registration); ListOk(t, p, t.pending[p])
  {}

  lemma StartSlots(s: State, q: Name, registration: nat)
    requires Inv(s) && q in s.pending && s.pending[q].tasks != [] && registration in s.registrations
    ensures SlotsOk(Start(s, q, registration))
  {
    hide AllPlaced, CountsOk, OrderOk, DistinctIds;
    var t := Start(s, q, registration);
    var task := s.pending[q].tasks[0];
    assert ListOk(s, q, s.pending[q]);
    assert HomeIs(s, task.id, Waiting(q));
    assert registration < s.nextKey by { RegistrationKey(s, registration); }
    forall k | k in t.slots
      ensures SlotOk(t, k, t.slots[k])
    {
      if k in s.slots { assert SlotOk(s, k, s.slots[k]); }
    }
  }

  lemma RegistrationKey(s: State, registration: nat)
    requires Inv(s) && registration in s.registrations
    ensures registration < s.nextKey
  {}

  lemma StartPlaced(s: State, q: Name, registration: nat)
    requires Inv(s) && q in s.pending && s.pending[q].tasks != [] && registration in s.registrations
    ensures AllPlaced(Start(s, q, registration), {})
  {
    hide CountsOk, OrderOk, LedgerOk, ListsOk;
    var t := Start(s, q, registration);
    var was, now := s.pending[q].tasks, t.pending[q].tasks;
    forall x | x in t.settlements
      ensures Placed(t, x)
    {
      assert Placed(s, x);
      if x != was[0].id {
        if s.home[x] == Waiting(q) {
          var i :| 0 <= i < |was| && was[i].id == x;
          assert now[i-1].id == x;
        } else if s.home[x].Running? {
          assert SlotOk(s, s.home[x].slot, s.slots[s.home[x].slot]);
        }
      }
    }
  }

  lemma FreshKey(s: State)
    requires SlotsOk(s)
    ensures s.nextKey !in s.slots
  {}

  lemma StartSlotsOf(s: State, q: Name, registration: nat, r: nat)
    requires s.nextKey !in s.slots && q in s.pending && s.pending[q].tasks != [] && registration in s.registrations
    ensures |SlotsOf(Start(s, q, registration), r)| == |SlotsOf(s, r)| + if r == registration then 1 else 0
  {
    var t := Start(s, q, registration);
    var slot := t.slots[s.nextKey];
    assert t.slots == s.slots[s.nextKey := slot] && slot.registration == registration;
    hide Start;
    var before, after := SlotsOf(s, r), SlotsOf(t, r);
    assert s.nextKey !in before;
    if r == registration {
      assert after == before + {s.nextKey};
    } else {
      assert after == before;
    }
  }

  lemma StartRegistrations(s: State, q: Name, registration: nat)
    requires q in s.pending && s.pending[q].tasks != [] && registration in s.registrations
    ensures var t, r := Start(s, q, registration), s.registrations[registration];
            t.nextKey == s.nextKey + 1 &&
            t.registrations == s.registrations[registration := r.(activeCount := r.activeCount + 1)]
  {}

  lemma StartCounts(s: State, q: Name, registration: nat)
    requires Inv(s) && q in s.pending && s.pending[q].tasks != [] && registration in s.registrations
    requires s.registrations[registration].activeCount < s.registrations[registration].maxConcurrent
    ensures CountsOk(Start(s, q, registration))
  {
    var t := Start(s, q, registration);
    assert CountsOk(s) && s.nextKey !in s.slots by { FreshKey(s); }
    hide Inv, Start, SlotsOf;
    StartRegistrations(s, q, registration);
    forall r | r in t.registrations
      ensures CountOk(t, r, t.registrations[r])
    {
      assert CountOk(s, r, s.registrations[r]);
      StartSlotsOf(s, q, registration, r);
    }
  }

  lemma StartOrder(s: State, q: Name, registration: nat)
    requires OrderOk(s) && ListsOk(s) && q in s.pending && s.pending[q].tasks != [] && registration in s.registrations
    ensures OrderOk(Start(s, q, registration))
  {
    var t := Start(s, q, registration);
    var l := s.pending[q];
    assert ListOk(s, q, l) && ListQueued(s, l);
    assert SubmitOnly(t, t.arrived[l.identity]) ==> SubmitOnly(s, s.arrived[l.identity]);
    assert s.started[l.identity] + l.tasks == s.started[l.identity] + [l.tasks[0]] + l.tasks[1..];
    forall p | p in t.pending
      ensures ListQueued(t, t.pending[p])
    {
      if p != q { OtherList(s, t, p, q); }
    }
    forall m | m in t.arrived
      ensures m < t.nextKey && m in t.started && forall i :: 0 <= i < |t.arrived[m]| ==> t.arrived[m][i].id in t.home
    {
      hide SubmitOnly, ListQueued, ListOk;
    }
    forall m | m in t.arrived && SubmitOnly(t, t.arrived[m])
      ensures t.started[m] <= t.arrived[m]
    {
      assert SubmitOnly(s, s.arrived[m]);
    }
  }

  lemma {:induction false} FirstServingServes(s: State, q: Name, i: nat)
    ensures var r := FirstServing(s, q, i);
            r.Some? ==>
              r.value in s.registrations &&
              s.registrations[r.value].activeCount < s.registrations[r.value].maxConcurrent
    decreases |s.workers| - i
  {
    if i < |s.workers| { FirstServingServes(s, q, i + 1); }
  }

  lemma DispatchKeeps(s: State, q: Name)
    requires Inv(s)
    ensures Inv(Dispatch(s, q))
  {
    hide Inv, Start, FirstServing;
    FirstServingServes(s, q, 0);
    if Dispatch(s, q) != s {
      StartKeeps(s, q, FirstServing(s, q, 0).value);
    }
  }

  // ------------------------------------------------------------------ finishing

  // A slot ends: its task is no longer awaited.
  lemma EndKeeps(s: State, k: nat, settlements: set<Id>, log: seq<Settlement>)
    requires Inv(s) && k in s.slots && settlements == s.settlements - {s.slots[k].task.id}
    requires LedgerOk(s.submitted, settlements, log)
    ensures Inv(Free(s.(settlements := settlements, log := log), k))
  {
    EndLists(s, k, settlements, log);
    EndSlots(s, k, settlements, log);
    EndPlaced(s, k, settlements, log);
    EndCounts(s, k, settlements, log);
    EndOrder(s, k, settlements, log);
    hide ListsOk, SlotsOk, AllPlaced, CountsOk, OrderOk, LedgerOk;
  }

  lemma EndLists(s: State, k: nat, settlements: set<Id>, log: seq<Settlement>)
    requires Inv(s) && k in s.slots && settlements == s.settlements - {s.slots[k].task.id}
    ensures ListsOk(Free(s.(settlements := settlements, log := log), k))
  {
    hide AllPlaced, OrderOk, LedgerOk, CountsOk, DistinctIds;
    var t := Free(s.(settlements := settlements, log := log), k);
    assert SlotOk(s, k, s.slots[k]);
    forall q | q in t.pending
      ensures ListOk(t, q, t.pending[q])
    {
      assert ListOk(s, q, s.pending[q]);
      var tasks := t.pending[q].tasks;
      forall i | 0 <= i < |tasks|
        ensures HomeIs(t, tasks[i].id, Waiting(q)) && (tasks[i].id in t.submitted ==> tasks[i].id in t.settlements)
      {
        assert HomeIs(s, tasks[i].id, Waiting(q));
      }
    }
  }

  lemma EndSlots(s: State, k: nat, settlements: set<Id>, log: seq<Settlement>)
    requires Inv(s) && k in s.slots && settlements == s.settlements - {s.slots[k].task.id}
    ensures SlotsOk(Free(s.(settlements := settlements, log := log), k))
  {
    hide AllPlaced, OrderOk, LedgerOk, ListsOk, CountsOk;
    var t := Free(s.(settlements := settlements, log := log), k);
    assert SlotOk(s, k, s.slots[k]);
    forall j | j in t.slots
      ensures SlotOk(t, j, t.slots[j])
    {
      assert SlotOk(s, j, s.slots[j]);
    }
  }

  lemma EndPlaced(s: State, k: nat, settlements: set<Id>, log: seq<Settlement>)
    requires Inv(s) && k in s.slots && settlements == s.settlements - {s.slots[k].task.id}
    ensures AllPlaced(Free(s.(settlements := settlements, log := log), k), {})
  {
    hide OrderOk, LedgerOk, ListsOk, CountsOk, SlotsOk;
    forall x | x in settlements
      ensures Placed(Free(s.(settlements := settlements, log := log), k), x)
    {
      assert Placed(s, x);
    }
  }

  lemma EndCounts(s: State, k: nat, settlements: set<Id>, log: seq<Settlement>)
    requires Inv(s) && k in s.slots
    ensures CountsOk(Free(s.(settlements := settlements, log := log), k))
  {
    hide AllPlaced, OrderOk, LedgerOk, ListsOk;
    var t := Free(s.(settlements := settlements, log := log), k);
    assert SlotOk(s, k, s.slots[k]);
    var registration := s.slots[k].registration;
    assert CountOk(s, registration, s.registrations[registration]);
    assert k in SlotsOf(s, registration);
    assert |SlotsOf(s, registration)| > 0;
    forall r | r in t.registrations
      ensures CountOk(t, r, t.registrations[r])
    {
      assert CountOk(s, r, s.registrations[r]);
      if r == registration {
        assert SlotsOf(t, r) == SlotsOf(s, r) - {k};
      } else {
        assert SlotsOf(t, r) == SlotsOf(s, r);
      }
    }
  }

  lemma OrderSame(s: State, t: State)
    requires OrderOk(s) && t.arrived == s.arrived && t.started == s.started && t.submitted == s.submitted
    requires t.nextKey >= s.nextKey && forall id :: id in s.home ==> id in t.home
    requires forall q :: q in t.pending ==> q in s.pending && t.pending[q] == s.pending[q]
    ensures OrderOk(t)
  {
    forall q | q in t.pending
      ensures ListQueued(t, t.pending[q])
    {
      assert ListQueued(s, s.pending[q]);
      var l := s.pending[q];
      assert SubmitOnly(t, t.arrived[l.identity]) ==> SubmitOnly(s, s.arrived[l.identity]);
    }
    hide ListQueued;
    forall m | m in t.arrived && SubmitOnly(t, t.arrived[m])
      ensures t.started[m] <= t.arrived[m]
    {
      assert SubmitOnly(s, s.arrived[m]);
    }
  }

  lemma EndOrder(s: State, k: nat, settlements: set<Id>, log: seq<Settlement>)
    requires Inv(s) && k in s.slots
    ensures OrderOk(Free(s.(settlements := settlements, log := log), k))
  {
    OrderSame(s, Free(s.(settlements := settlements, log := log), k));
  }

  // A settlement is made once.
  lemma SettleKeeps(submitted: set<Id>, settlements: set<Id>, log: seq<Settlement>, id: Id, outcome: Outcome)
    requires LedgerOk(submitted, settlements, log)
    ensures var r := Settle(settlements, log, id, outcome);
            LedgerOk(submitted, r.0, r.1) && r.0 == settlements - {id} && log <= r.1
  {
    if id in settlements {
      var log' := log + [Settlement(id, outcome)];
      assert log'[|log|].id == id;
      forall x
        ensures Logged(log', x) <==> Logged(log, x) || x == id
      {
        if Logged(log, x) {
          var i :| 0 <= i < |log| && log[i].id == x;
          assert log'[i].id == x;
        }
      }
      assert !Logged(log, id);
    }
  }

  // A task nobody awaits, placed nowhere, goes to the front of its list.
  lemma PutBackKeeps(s: State, slot: Slot)
    requires Inv(s) && slot.task.id in s.home && slot.task.id !in s.submitted
    requires s.home[slot.task.id].Running? && s.home[slot.task.id].slot !in s.slots
    requires slot.list in s.arrived && slot.task in s.arrived[slot.list]
    ensures Inv(PutBack(s, slot))
    ensures slot.queue in s.pending && s.pending[slot.queue].identity == slot.list ==>
              Tasks(PutBack(s, slot), slot.queue) == [slot.task] + Tasks(s, slot.queue)
  {
    if slot.queue in s.pending && s.pending[slot.queue].identity == slot.list {
      PutBackLists(s, slot);
      PutBackSlots(s, slot);
      PutBackPlaced(s, slot);
      CountsSame(s, PutBack(s, slot));
      PutBackOrder(s, slot);
    }
    hide ListsOk, SlotsOk, AllPlaced, CountsOk, OrderOk, LedgerOk;
  }

  ghost predicate Returns(s: State, slot: Slot) {
    && Inv(s) && slot.task.id in s.home && slot.task.id !in s.submitted
    && s.home[slot.task.id].Running? && s.home[slot.task.id].slot !in s.slots
    && slot.list in s.arrived && slot.task in s.arrived[slot.list]
    && slot.queue in s.pending && s.pending[slot.queue].identity == slot.list
  }

  lemma PutBackLists(s: State, slot: Slot)
    requires Returns(s, slot)
    ensures ListsOk(PutBack(s, slot))
  {
    hide AllPlaced, OrderOk, LedgerOk, CountsOk, SlotsOk;
    var t := PutBack(s, slot);
    var q := slot.queue;
    forall p | p in t.pending
      ensures ListOk(t, p, t.pending[p])
    {
      assert ListOk(s, p, s.pending[p]);
      var was, now := s.pending[p].tasks, t.pending[p].tasks;
      forall i | 0 <= i < |was|
        ensures was[i].id != slot.task.id && HomeIs(t, was[i].id, Waiting(p))
      {
        assert HomeIs(s, was[i].id, Waiting(p));
      }
      if p == q {
        forall i | 0 <= i < |now|
          ensures HomeIs(t, now[i].id, Waiting(q)) && now[i] in t.arrived[slot.list]
          ensures now[i].id in t.submitted ==> now[i].id in t.settlements
        {
          if i > 0 { assert now[i] == was[i-1]; }
        }
        assert DistinctIds(now) by {
          forall i, j | 0 <= i < j < |now|
            ensures now[i].id != now[j].id
          {
            assert now[j] == was[j-1];
            if i > 0 { assert now[i] == was[i-1]; }
          }
        }
      }
    }
    hide ListOk;
    forall p, p' | p in t.pending && p' in t.pending && t.pending[p].identity == t.pending[p'].identity
      ensures p == p'
    {
      assert s.pending[p].identity == s.pending[p'].identity;
    }
  }

  lemma PutBackSlots(s: State, slot: Slot)
    requires Returns(s, slot)
    ensures SlotsOk(PutBack(s, slot))
  {
    hide AllPlaced, OrderOk, LedgerOk, CountsOk, ListsOk;
    var t := PutBack(s, slot);
    forall k | k in t.slots
      ensures SlotOk(t, k, t.slots[k])
    {
      assert SlotOk(s, k, s.slots[k]);
    }
  }

  lemma PutBackPlaced(s: State, slot: Slot)
    requires Returns(s, slot)
    ensures AllPlaced(PutBack(s, slot), {})
  {
    hide OrderOk, CountsOk, ListsOk, SlotsOk;
    var t := PutBack(s, slot);
    var was, now := s.pending[slot.queue].tasks, t.pending[slot.queue].tasks;
    assert slot.task.id !in s.settlements;
    forall x | x in t.settlements
      ensures Placed(t, x)
    {
      assert Placed(s, x);
      if s.home[x] == Waiting(slot.queue) {
        var i :| 0 <= i < |was| && was[i].id == x;
        assert now[i+1].id == x;
      }
    }
  }

  lemma PutBackOrder(s: State, slot: Slot)
    requires Returns(s, slot)
    ensures OrderOk(PutBack(s, slot))
  {
    hide AllPlaced, LedgerOk, CountsOk, SlotsOk;
    var t := PutBack(s, slot);
    var q := slot.queue;
    assert !SubmitOnly(t, t.arrived[slot.list]) by {
      var i :| 0 <= i < |t.arrived[slot.list]| && t.arrived[slot.list][i] == slot.task;
    }
    forall p | p in t.pending
      ensures ListQueued(t, t.pending[p])
    {
      if p != q { OtherList(s, t, p, q); } else { assert ListQueued(s, s.pending[q]); }
    }
    hide ListQueued;
    forall m | m in t.arrived && SubmitOnly(t, t.arrived[m])
      ensures t.started[m] <= t.arrived[m]
    {
      assert SubmitOnly(s, s.arrived[m]);
    }
  }

  lemma FinishKeeps(s: State, k: nat, ok: bool)
    requires Inv(s) && k in s.slots
    ensures Inv(Finish(s, k, ok))
  {
    var slot := s.slots[k];
    FinishFacts(s, k);
    if slot.awaited {
      SettleKeeps(s.submitted, s.settlements, s.log, slot.task.id, if ok then Resolved else Rejected);
      assert slot.task.id in s.settlements;
      hide Inv, LedgerOk, Free;
      var r := Settled(s.settlements, s.log, slot.task.id, if ok then Resolved else Rejected);
      EndKeeps(s, k, r.0, r.1);
    } else {
      hide Inv, LedgerOk;
      EndKeeps(s, k, s.settlements, s.log);
      assert s.(settlements := s.settlements, log := s.log) == s;
      hide Free;
      if !ok { FailKeeps(s, k); }
    }
  }

  lemma FailKeeps(s: State, k: nat)
    requires Inv(s) && k in s.slots && !s.slots[k].awaited && Inv(Free(s, k))
    ensures Inv(Free(PutBack(s, s.slots[k]), k))
  {
    var slot := s.slots[k];
    FinishFacts(s, k);
    hide Inv, LedgerOk;
    PutBackKeeps(Free(s, k), slot);
    FreePutBack(s, k, slot);
    hide Free, PutBack;
  }

  lemma FreePutBack(s: State, k: nat, slot: Slot)
    requires k in s.slots
    ensures Free(PutBack(s, slot), k) == PutBack(Free(s, k), slot)
  {}

  lemma FinishFacts(s: State, k: nat)
    requires Inv(s) && k in s.slots
    ensures LedgerOk(s.submitted, s.settlements, s.log) && SlotOk(s, k, s.slots[k])
    ensures !s.slots[k].awaited ==> s.slots[k].task.id !in s.settlements
  {}

  // --------------------------------------------------- creating and deleting

  lemma {:induction false} RejectAllKeeps(submitted: set<Id>, settlements: set<Id>, log: seq<Settlement>,
                                          tasks: seq<Task>)
    requires LedgerOk(submitted, settlements, log)
    ensures var r := RejectAll(settlements, log, tasks);
            LedgerOk(submitted, r.0, r.1) && log <= r.1 &&
            forall id :: id in r.0 <==> id in settlements && !HasTask(tasks, id)
    decreases |tasks|
  {
    hide LedgerOk;
    if tasks != [] {
      var front := tasks[..|tasks|-1];
      RejectAllKeeps(submitted, settlements, log, front);
      var r := RejectAll(settlements, log, front);
      SettleKeeps(submitted, r.0, r.1, tasks[|tasks|-1].id, QueueDeleted);
      hide Settle;
      forall id
        ensures HasTask(tasks, id) <==> HasTask(front, id) || tasks[|tasks|-1].id == id
      {
        if HasTask(front, id) {
          var i :| 0 <= i < |front| && front[i].id == id;
          assert tasks[i].id == id;
        }
      }
    }
  }

  lemma DeleteKeeps(s: State, q: Name)
    requires Inv(s)
    ensures Inv(DeleteQueue(s, q))
  {
    if q in s.queues {
      RejectAllKeeps(s.submitted, s.settlements, s.log, Tasks(s, q));
      hide RejectAll, DistinctIds;
      DeleteLists(s, q);
      DeleteSlots(s, q);
      DeletePlaced(s, q);
      CountsSame(s, DeleteQueue(s, q));
      OrderSame(s, DeleteQueue(s, q));
      hide ListsOk, SlotsOk, AllPlaced, CountsOk, OrderOk, LedgerOk;
    }
  }

  ghost predicate Rejects(s: State, q: Name) {
    Inv(s) && q in s.queues &&
    forall id :: id in RejectAll(s.settlements, s.log, Tasks(s, q)).0 <==>
      id in s.settlements && !HasTask(Tasks(s, q), id)
  }

  lemma DeleteLists(s: State, q: Name)
    requires Rejects(s, q)
    ensures ListsOk(DeleteQueue(s, q))
  {
    hide AllPlaced, OrderOk, LedgerOk, CountsOk, SlotsOk, DistinctIds, RejectAll;
    var t := DeleteQueue(s, q);
    assert ListOk(s, q, s.pending[q]);
    forall p | p in t.pending
      ensures ListOk(t, p, t.pending[p])
    {
      assert ListOk(s, p, s.pending[p]);
      var tasks := t.pending[p].tasks;
      forall i | 0 <= i < |tasks|
        ensures !HasTask(Tasks(s, q), tasks[i].id)
      {
        assert HomeIs(s, tasks[i].id, Waiting(p));
        NotHere(s, q, tasks[i].id);
      }
    }
  }

  lemma NotHere(s: State, q: Name, id: Id)
    requires q in s.pending && ListOk(s, q, s.pending[q]) && id in s.home && s.home[id] != Waiting(q)
    ensures !HasTask(Tasks(s, q), id)
  {}

  lemma DeleteSlots(s: State, q: Name)
    requires Rejects(s, q)
    ensures SlotsOk(DeleteQueue(s, q))
  {}

  lemma DeletePlaced(s: State, q: Name)
    requires Rejects(s, q)
    ensures AllPlaced(DeleteQueue(s, q), {})
  {}

  // Creating a queue keeps every awaited task in its place exactly when no
  // caller waits for a task already pending under that name.
  lemma CreateKeepsIff(s: State, q: Name, routing: Option<Routing>)
    requires Inv(s)
    ensures Inv(CreateQueue(s, q, routing)) <==> NobodyWaits(s, q)
  {
    var t := CreateQueue(s, q, routing);
    if NobodyWaits(s, q) {
      NewListKeeps(s, q, {});
      hide NobodyWaits;
      CreateQueueKeeps(NewList(s, q), q, t);
    } else {
      hide SlotsOk, LedgerOk, CountsOk, OrderOk;
      var i :| 0 <= i < |Tasks(s, q)| && Tasks(s, q)[i].id in s.settlements;
      var id := Tasks(s, q)[i].id;
      assert ListOk(s, q, s.pending[q]);
      assert HomeIs(s, id, Waiting(q));
      assert !Placed(t, id);
      assert !AllPlaced(t, {});
    }
  }

  // Queue names, routings and the order of workers are free, as long as every
  // queue has its list.
  lemma CreateQueueKeeps(s: State, q: Name, t: State)
    requires Inv(s) && q in s.pending
    requires t == s.(queues := t.queues, routing := t.routing) && t.queues == s.queues + {q}
    ensures Inv(t)
  {
    hide SlotsOk, AllPlaced, CountsOk, OrderOk, LedgerOk;
    SetupKeeps(s, t);
  }

  lemma SetupKeeps(s: State, t: State)
    requires Inv(s) && t == s.(queues := t.queues, routing := t.routing, workers := t.workers)
    requires forall q :: q in t.queues ==> q in t.pending
    ensures Inv(t)
  {
    SetupLists(s, t);
    SetupSlots(s, t);
    SetupPlaced(s, t);
    CountsSame(s, t);
    OrderSame(s, t);
    hide ListsOk, SlotsOk, AllPlaced, CountsOk, OrderOk, LedgerOk;
  }

  lemma SetupLists(s: State, t: State)
    requires ListsOk(s) && t == s.(queues := t.queues, routing := t.routing, workers := t.workers)
    requires forall q :: q in t.queues ==> q in t.pending
    ensures ListsOk(t)
  {}

  lemma SetupSlots(s: State, t: State)
    requires SlotsOk(s) && t == s.(queues := t.queues, routing := t.routing, workers := t.workers)
    ensures SlotsOk(t)
  {}

  lemma SetupPlaced(s: State, t: State)
    requires AllPlaced(s, {}) && t == s.(queues := t.queues, routing := t.routing, workers := t.workers)
    ensures AllPlaced(t, {})
  {}

  // ------------------------------------------------------------------- workers

  lemma AddRegistrationKeeps(s: State, w: WorkerId, names: seq<Name>, maxConcurrent: int)
    requires Inv(s)
    ensures Inv(AddRegistration(s, w, names, maxConcurrent))
  {
    hide SetWorker;
    var t := AddRegistration(s, w, names, maxConcurrent);
    AddRegistrationLists(s, t);
    AddRegistrationSlots(s, t);
    AddRegistrationCounts(s, w, names, maxConcurrent);
    OrderSame(s, t);
    assert AllPlaced(t, {}) by {
      hide ListsOk, SlotsOk, OrderOk, LedgerOk, CountsOk;
      forall x | x in t.settlements
        ensures Placed(t, x)
      {
        assert Placed(s, x);
      }
    }
    hide ListsOk, SlotsOk, AllPlaced, CountsOk, OrderOk, LedgerOk;
  }

  lemma AddRegistrationLists(s: State, t: State)
    requires ListsOk(s) && t == s.(workers := t.workers, registrations := t.registrations, nextKey := s.nextKey + 1)
    ensures ListsOk(t)
  {}

  lemma AddRegistrationSlots(s: State, t: State)
    requires SlotsOk(s) && t == s.(workers := t.workers, registrations := t.registrations, nextKey := s.nextKey + 1)
    requires forall r :: r in s.registrations ==> r in t.registrations
    ensures SlotsOk(t)
  {}

  lemma AddRegistrationCounts(s: State, w: WorkerId, names: seq<Name>, maxConcurrent: int)
    requires CountsOk(s) && SlotsOk(s)
    ensures CountsOk(AddRegistration(s, w, names, maxConcurrent))
  {}

  // No caller waits for a task of a queue still to be created for these names.
  ghost predicate NobodyWaitsMissing(s: State, names: seq<Name>) {
    forall i :: 0 <= i < |names| && names[i] !in s.queues ==> NobodyWaits(s, names[i])
  }

  lemma CreateNobodyWaits(s: State, q: Name, p: Name)
    requires NobodyWaits(s, p)
    ensures NobodyWaits(CreateQueue(s, q, None), p)
  {
    if p != q { assert Tasks(CreateQueue(s, q, None), p) == Tasks(s, p); }
  }

  lemma {:induction false} CreateMissingKeeps(s: State, names: seq<Name>)
    requires Inv(s) && NobodyWaitsMissing(s, names)
    ensures Inv(CreateMissing(s, names))
    ensures forall q :: q in CreateMissing(s, names).queues <==> q in s.queues || q in names
    ensures forall q :: NobodyWaits(s, q) ==> NobodyWaits(CreateMissing(s, names), q)
    decreases |names|
  {
    hide Inv;
    if names != [] {
      var front, q := names[..|names|-1], names[|names|-1];
      assert names == front + [q];
      CreateMissingKeeps(s, front);
      var t := CreateMissing(s, front);
      if q !in t.queues {
        CreateKeepsIff(t, q, None);
        forall p | NobodyWaits(t, p)
          ensures NobodyWaits(CreateQueue(t, q, None), p)
        {
          CreateNobodyWaits(t, q, p);
        }
      }
    }
  }

  lemma RegisterKeeps(s: State, w: WorkerId, names: seq<Name>, maxConcurrent: int)
    requires Inv(s) && NobodyWaitsMissing(s, names)
    ensures Inv(Register(s, w, names, maxConcurrent))
  {
    AddRegistrationKeeps(s, w, names, maxConcurrent);
    hide Inv, SetWorker;
    var t := AddRegistration(s, w, names, maxConcurrent);
    assert NobodyWaitsMissing(t, names) by {
      forall i | 0 <= i < |names| && names[i] !in t.queues
        ensures NobodyWaits(t, names[i])
      {
        assert NobodyWaits(s, names[i]);
        assert Tasks(t, names[i]) == Tasks(s, names[i]);
      }
    }
    CreateMissingKeeps(t, names);
  }

  // Registering creates the queues that are missing, and with them new lists.
  lemma {:induction false} MissingTasks(s: State, names: seq<Name>)
    ensures var t := CreateMissing(s, names);
            t.workers == s.workers && t.registrations == s.registrations && s.queues <= t.queues &&
            t.settlements == s.settlements && t.slots == s.slots && t.home == s.home &&
            (forall q :: q in s.queues || q !in names ==> Tasks(t, q) == Tasks(s, q)) &&
            (forall q :: q in names ==> q in t.queues) &&
            forall q :: q in t.queues && q !in s.queues ==> q in names && Tasks(t, q) == []
    decreases |names|
  {
    if names != [] {
      var front := names[..|names|-1];
      MissingTasks(s, front);
      assert names == front + [names[|names|-1]];
    }
  }

  lemma RegisterLoses(s: State, w: WorkerId, names: seq<Name>, maxConcurrent: int, q: Name, i: nat)
    requires Inv(s) && q in names && q !in s.queues && i < |Tasks(s, q)| && Tasks(s, q)[i].id in s.settlements
    ensures var t := Register(s, w, names, maxConcurrent);
            !Placed(t, Tasks(s, q)[i].id) && Tasks(s, q)[i].id in t.settlements
  {
    var id := Tasks(s, q)[i].id;
    assert HomeIs(s, id, Waiting(q)) by {
      hide SlotsOk, LedgerOk, CountsOk, OrderOk;
      assert ListOk(s, q, s.pending[q]);
    }
    hide Inv, SetWorker, CreateMissing;
    MissingTasks(AddRegistration(s, w, names, maxConcurrent), names);
    var t := Register(s, w, names, maxConcurrent);
    assert Tasks(t, q) == [];
  }

  lemma RegisterKeepsIff(s: State, w: WorkerId, names: seq<Name>, maxConcurrent: int)
    requires Inv(s)
    ensures Inv(Register(s, w, names, maxConcurrent)) <==> NobodyWaitsMissing(s, names)
  {
    hide Inv, Register;
    if NobodyWaitsMissing(s, names) {
      RegisterKeeps(s, w, names, maxConcurrent);
    } else {
      var j :| 0 <= j < |names| && names[j] !in s.queues && !NobodyWaits(s, names[j]);
      var i :| 0 <= i < |Tasks(s, names[j])| && Tasks(s, names[j])[i].id in s.settlements;
      RegisterLoses(s, w, names, maxConcurrent, names[j], i);
      NotPlacedNotInv(Register(s, w, names, maxConcurrent), Tasks(s, names[j])[i].id);
    }
  }

  lemma NotPlacedNotInv(s: State, id: Id)
    requires id in s.settlements && !Placed(s, id)
    ensures !Inv(s)
  {
    hide ListsOk, SlotsOk, LedgerOk, CountsOk, OrderOk;
  }

  lemma UnregisterKeeps(s: State, w: WorkerId)
    requires Inv(s)
    ensures Inv(Unregister(s, w))
  {
    hide RemoveWorker, SlotsOk, AllPlaced, CountsOk, OrderOk, LedgerOk;
    SetupKeeps(s, Unregister(s, w));
  }

  // ---------------------------------------------------------------------- runs

  datatype Step =
    | CreateStep(queue: Name, routing: Option<Routing>)
    | DeleteStep(queue: Name)
    | EnqueueStep(queue: Name, payload: Payload, id: Id)
    | SubmitStep(queue: Name, payload: Payload, id: Id)
    | CompleteStep(slot: nat, ok: bool)
    | RegisterStep(worker: WorkerId, names: seq<Name>, maxConcurrent: int)
    | UnregisterStep(worker: WorkerId)

  // New ids are fresh, only running tasks end, and no queue is created over
  // pending tasks that callers wait for.
  ghost predicate Enabled(s: State, step: Step) {
    match step
    case CreateStep(q, _) => NobodyWaits(s, q)
    case EnqueueStep(_, _, id) => id !in s.home
    case SubmitStep(_, _, id) => id !in s.home
    case CompleteStep(k, _) => k in s.slots
    case RegisterStep(_, names, _) => NobodyWaitsMissing(s, names)
    case _ => true
  }

  function Or(e: Entered, s: State): State {
    if e.Entered? then e.state else s
  }

  function Next(s: State, step: Step): State {
    match step
    case CreateStep(q, routing) => CreateQueue(s, q, routing)
    case DeleteStep(q) => DeleteQueue(s, q)
    case EnqueueStep(q, payload, id) => Or(Enqueue(s, q, payload, id), s)
    case SubmitStep(q, payload, id) => Or(Submit(s, q, payload, id), s)
    case CompleteStep(k, ok) => if k in s.slots then Complete(s, k, ok) else s
    case RegisterStep(w, names, maxConcurrent) => Register(s, w, names, maxConcurrent)
    case UnregisterStep(w) => Unregister(s, w)
  }

  function Initial(): State {
    State({}, map[], map[], [], map[], {}, map[], 0, {}, [], map[], map[], map[])
  }

  function After(steps: seq<Step>): State {
    if steps == [] then Initial() else Next(After(steps[..|steps|-1]), steps[|steps|-1])
  }

  // Every step of the run was enabled when it was taken.
  ghost predicate Legal(steps: seq<Step>) {
    steps == [] || (Legal(steps[..|steps|-1]) && Enabled(After(steps[..|steps|-1]), steps[|steps|-1]))
  }

  ghost predicate Reachable(s: State) {
    exists steps :: Legal(steps) && s == After(steps)
  }

  lemma EnterKeeps(s: State, q: Name, id: Id)
    requires Inv(s) && id !in s.home
    ensures Inv(Put(s, q, id)) && Inv(Await(Put(s, q, id), id))
  {
    AwaitKeeps(s, id);
    assert id !in s.submitted;
    assert InvBut(s, {id}) by { ButWeaker(s, id); }
    hide InvBut, Inv, NewList;
    PutKeeps(s, q, id);
    PutKeeps(Await(s, id), q, id);
    AwaitPut(s, q, id);
  }

  lemma ButWeaker(s: State, id: Id)
    requires Inv(s)
    ensures InvBut(s, {id})
  {}

  lemma AwaitPut(s: State, q: Name, id: Id)
    ensures Await(Put(s, q, id), id) == Put(Await(s, id), q, id)
  {
    if q in s.pending {
      AwaitAppend(s, q, id);
    } else {
      AwaitAppend(NewList(s, q), q, id);
      assert Await(NewList(s, q), id) == NewList(Await(s, id), q);
    }
    hide Append, NewList;
  }

  lemma AwaitAppend(s: State, q: Name, id: Id)
    requires q in s.pending
    ensures Await(Append(s, q, id), id) == Append(Await(s, id), q, id)
  {}

  lemma StepKeeps(s: State, step: Step)
    requires Inv(s) && Enabled(s, step)
    ensures Inv(Next(s, step))
  {
    hide Inv, NobodyWaits, NobodyWaitsMissing, Dispatch, Put, Await, Finish, DeleteQueue, CreateQueue, Register,
      Unregister, Target;
    match step
    case CreateStep(q, routing) => CreateKeepsIff(s, q, routing);
    case DeleteStep(q) => DeleteKeeps(s, q);
    case EnqueueStep(q, payload, id) =>
      EnterKeeps(s, Target(s, q, payload), id);
      DispatchKeeps(Put(s, Target(s, q, payload), id), Target(s, q, payload));
    case SubmitStep(q, payload, id) =>
      EnterKeeps(s, Target(s, q, payload), id);
      DispatchKeeps(Await(Put(s, Target(s, q, payload), id), id), Target(s, q, payload));
    case CompleteStep(k, ok) =>
      FinishKeeps(s, k, ok);
      DispatchKeeps(Finish(s, k, ok), s.slots[k].queue);
    case RegisterStep(w, names, maxConcurrent) => RegisterKeeps(s, w, names, maxConcurrent);
    case UnregisterStep(w) => UnregisterKeeps(s, w);
  }

  lemma {:induction false} LegalInv(steps: seq<Step>)
    requires Legal(steps)
    ensures Inv(After(steps))
    decreases |steps|
  {
    hide Enabled, Next;
    if steps == [] {
      InitialInv();
    } else {
      hide Inv;
      LegalInv(steps[..|steps|-1]);
      StepKeeps(After(steps[..|steps|-1]), steps[|steps|-1]);
    }
  }

  lemma ReachableInv(s: State)
    requires Reachable(s)
    ensures Inv(s)
  {
    hide Inv, Legal, After;
    var steps :| Legal(steps) && s == After(steps);
    LegalInv(steps);
  }

  lemma InitialInv()
    ensures Inv(Initial())
  {}

  // ---------------------------------------------------------- what callers see

  datatype Spot = InList(queue: Name, index: nat) | InSlot(slot: nat)

  ghost predicate At(s: State, id: Id, spot: Spot) {
    match spot
    case InList(q, i) => q in s.pending && i < |s.pending[q].tasks| && s.pending[q].tasks[i].id == id
    case InSlot(k) => k in s.slots && s.slots[k].task.id == id
  }

  function Settlements(log: seq<Settlement>, id: Id): nat {
    if log == [] then 0 else (if log[0].id == id then 1 else 0) + Settlements(log[1..], id)
  }

  lemma {:induction false} SettledOnce(log: seq<Settlement>, id: Id)
    requires forall i, j :: 0 <= i < j < |log| ==> log[i].id != log[j].id
    ensures Settlements(log, id) == if Logged(log, id) then 1 else 0
    decreases |log|
  {
    if log != [] {
      var rest := log[1..];
      SettledOnce(rest, id);
      if Logged(rest, id) {
        var i :| 0 <= i < |rest| && rest[i].id == id;
        assert log[i+1].id == id;
      }
      if Logged(log, id) && log[0].id != id {
        var i :| 0 <= i < |log| && log[i].id == id;
        assert rest[i-1].id == id;
      }
    }
  }

  lemma AtHome(s: State, id: Id, spot: Spot)
    requires Inv(s) && At(s, id, spot)
    ensures id in s.home && s.home[id] == if spot.InList? then Waiting(spot.queue) else Running(spot.slot)
  {}

  // No task is in two places.
  lemma OneSpot(s: State, id: Id, a: Spot, b: Spot)
    requires Inv(s) && At(s, id, a) && At(s, id, b)
    ensures a == b
  {
    AtHome(s, id, a);
    AtHome(s, id, b);
    if a.InList? {
      hide AllPlaced, LedgerOk, CountsOk, OrderOk;
      assert ListOk(s, a.queue, s.pending[a.queue]);
    }
  }

  // In every reachable state each submitted task is settled at most once, and
  // while it is not it is in exactly one pending list or worker slot; the
  // settlements kept are exactly those still to be made.
  lemma SubmittedOnce(s: State, id: Id)
    requires Reachable(s) && id in s.submitted
    ensures Settlements(s.log, id) == 1 <==> id !in s.settlements
    ensures Settlements(s.log, id) == 0 <==> id in s.settlements
    ensures id in s.settlements ==> exists spot :: At(s, id, spot) && forall other :: At(s, id, other) ==> other == spot
    ensures id !in s.settlements ==> forall spot :: !At(s, id, spot)
  {
    ReachableInv(s);
    hide Reachable;
    SettledOnce(s.log, id);
    hide ListsOk, SlotsOk, CountsOk, OrderOk, Settlements, At;
    if id in s.settlements {
      var spot := PlacedSpot(s, id);
      forall other | At(s, id, other)
        ensures other == spot
      {
        OneSpot(s, id, other, spot);
      }
    } else {
      forall spot
        ensures !At(s, id, spot)
      {
        if At(s, id, spot) { SpotAwaited(s, id, spot); }
      }
    }
  }

  lemma PlacedSpot(s: State, id: Id) returns (spot: Spot)
    requires Inv(s) && id in s.settlements
    ensures At(s, id, spot)
  {
    hide ListsOk, SlotsOk, CountsOk, OrderOk, LedgerOk;
    assert Placed(s, id);
    match s.home[id]
    case Waiting(q) =>
      var i :| 0 <= i < |s.pending[q].tasks| && s.pending[q].tasks[i].id == id;
      spot := InList(q, i);
    case Running(k) => spot := InSlot(k);
  }

  lemma SpotAwaited(s: State, id: Id, spot: Spot)
    requires Inv(s) && id in s.submitted && At(s, id, spot)
    ensures id in s.settlements
  {}

  // A registration counts its running tasks, and never has more than it may.
  lemma ActiveCountExact(s: State, registration: nat)
    requires Reachable(s) && registration in s.registrations
    ensures var r := s.registrations[registration];
            r.activeCount == |SlotsOf(s, registration)| && (r.activeCount > 0 ==> r.activeCount <= r.maxConcurrent)
  {
    ReachableInv(s);
    hide Reachable, ListsOk, SlotsOk, AllPlaced, OrderOk, LedgerOk;
    assert CountOk(s, registration, s.registrations[registration]);
  }

  // A list to which only submitted tasks came gives them out in the order in
  // which they came.
  lemma SubmitOnlyFifo(s: State, list: nat)
    requires Reachable(s) && list in s.arrived && SubmitOnly(s, s.arrived[list])
    ensures list in s.started && s.started[list] <= s.arrived[list]
    ensures forall q :: q in s.pending && s.pending[q].identity == list ==>
              s.arrived[list] == s.started[list] + s.pending[q].tasks
  {
    ReachableInv(s);
    hide Reachable, ListsOk, SlotsOk, AllPlaced, LedgerOk, CountsOk;
    forall q | q in s.pending && s.pending[q].identity == list
      ensures s.arrived[list] == s.started[list] + s.pending[q].tasks
    {
      assert ListQueued(s, s.pending[q]);
    }
  }

  // ------------------------------------------------- what a caller must avoid

  // Every pending list belongs to a queue.
  ghost predicate Tidy(s: State) {
    forall q :: q in s.pending ==> q in s.queues
  }

  // New queue names, and routing to existing queues only.
  ghost predicate Careful(s: State, step: Step) {
    match step
    case CreateStep(q, _) => q !in s.queues
    case EnqueueStep(q, payload, _) => Target(s, q, payload) in s.queues
    case SubmitStep(q, payload, _) => Target(s, q, payload) in s.queues
    case _ => true
  }

  // With those no queue is ever created over pending tasks.
  lemma CarefulIsEnough(s: State, step: Step)
    requires Tidy(s) && Careful(s, step)
    ensures Tidy(Next(s, step))
    ensures step.CreateStep? || step.RegisterStep? ==> Enabled(s, step)
  {
    hide Dispatch, Put, Await, Finish, Target, CreateMissing, RejectAll, SetWorker, RemoveWorker;
    match step
    case CreateStep(_, _) =>
    case DeleteStep(_) =>
    case EnqueueStep(q, payload, id) =>
      PutTidy(s, Target(s, q, payload), id);
      DispatchTidy(Put(s, Target(s, q, payload), id), Target(s, q, payload));
    case SubmitStep(q, payload, id) =>
      PutTidy(s, Target(s, q, payload), id);
      DispatchTidy(Await(Put(s, Target(s, q, payload), id), id), Target(s, q, payload));
    case CompleteStep(k, ok) =>
      if k in s.slots {
        FinishTidy(s, k, ok);
        DispatchTidy(Finish(s, k, ok), s.slots[k].queue);
      }
    case RegisterStep(w, names, maxConcurrent) => CreateMissingTidy(AddRegistration(s, w, names, maxConcurrent), names);
    case UnregisterStep(_) =>
  }

  // Fresh ids, as the source makes them, and only running tasks end.
  predicate Sound(s: State, step: Step) {
    match step
    case EnqueueStep(_, _, id) => id !in s.home
    case SubmitStep(_, _, id) => id !in s.home
    case CompleteStep(k, _) => k in s.slots
    case _ => true
  }

  ghost predicate AllCareful(steps: seq<Step>) {
    steps == [] ||
    (AllCareful(steps[..|steps|-1]) &&
     Careful(After(steps[..|steps|-1]), steps[|steps|-1]) && Sound(After(steps[..|steps|-1]), steps[|steps|-1]))
  }

  // So a run of careful steps is legal throughout: all that is shown of legal
  // runs holds for callers who keep to new names and existing queues.
  lemma {:induction false} CarefulRunLegal(steps: seq<Step>)
    requires AllCareful(steps)
    ensures Legal(steps) && Tidy(After(steps))
    decreases |steps|
  {
    hide Tidy, Careful, Next;
    if steps == [] {
      InitialTidy();
    } else {
      var before, step := steps[..|steps|-1], steps[|steps|-1];
      CarefulRunLegal(before);
      CarefulIsEnough(After(before), step);
    }
  }

  lemma InitialTidy()
    ensures Tidy(Initial())
  {}

  lemma PutTidy(s: State, q: Name, id: Id)
    requires Tidy(s) && q in s.queues
    ensures Tidy(Put(s, q, id)) && Tidy(Await(Put(s, q, id), id))
  {}

  lemma DispatchTidy(s: State, q: Name)
    requires Tidy(s)
    ensures Tidy(Dispatch(s, q))
  {}

  lemma FinishTidy(s: State, k: nat, ok: bool)
    requires Tidy(s) && k in s.slots
    ensures Tidy(Finish(s, k, ok))
  {}

  lemma {:induction false} CreateMissingTidy(s: State, names: seq<Name>)
    requires Tidy(s)
    ensures Tidy(CreateMissing(s, names))
    decreases |names|
  {
    if names != [] { CreateMissingTidy(s, names[..|names|-1]); }
  }

  // Creating a queue again while a submitted task is pending in it leaves the
  // caller waiting for a task that is nowhere.
  lemma RecreatedQueueLosesTask(q: Name, payload: Payload, id: Id)
    ensures var s := After([CreateStep(q, None), SubmitStep(q, payload, id)]);
            var t := CreateQueue(s, q, None);
            Reachable(s) && id in t.settlements && Settlements(t.log, id) == 0 && forall spot :: !At(t, id, spot)
  {
    var first := [CreateStep(q, None)];
    var steps := first + [SubmitStep(q, payload, id)];
    assert steps[..1] == first && first[..0] == [];
    assert Legal([]) && After([]) == Initial();
    assert Legal(first) && After(first) == CreateQueue(Initial(), q, None);
    assert Legal(steps);
    assert steps == [CreateStep(q, None), SubmitStep(q, payload, id)];
    assert Reachable(After(steps));
  }
}
