/** Every interleaving of subscribers, publishers, slot creators and shutdown notifiers on one result
    channel. A step is one locked section, one notification or one registration. */
module RelayProtocol {
  import opened Wrappers
  import opened ResultChannel

  /** Where a task stands. The `Sub` states from `SubLock` to `SubWait` hold a registration on the
      slot's notifier; `reachable` records whether the slot was still in the table when the task
      found it empty. */
  datatype Task =
    | SubEnsure(key: Key)
    | SubRegister(key: Key, id: SlotId)
    | SubLock(key: Key, id: SlotId)
    | SubCheck(key: Key, id: SlotId)
    | SubWait(key: Key, id: SlotId, reachable: bool)
    | SubRelock(key: Key, id: SlotId)
    | SubRead(key: Key, id: SlotId)
    | SubDone(key: Key, result: Option<Summary>)
    | PubEnsure(key: Key, summary: Summary)
    | PubLock(key: Key, id: SlotId, summary: Summary)
    | PubWrite(key: Key, id: SlotId, summary: Summary)
    | PubNotify(key: Key, id: SlotId)
    | CreateEnsure(key: Key)
    | CreateReset(key: Key, id: SlotId)
    | ShutdownStart
    | ShutdownNotify(todo: set<SlotId>)
    | Finished

  datatype State = State(c: Channel, tasks: map<TaskId, Task>, published: set<(Key, Summary)>)

  predicate Fresh(task: Task) {
    task.SubEnsure? || task.PubEnsure? || task.CreateEnsure? || task.ShutdownStart?
  }

  // ---------------------------------------------------------------------------
  // Steps
  // ---------------------------------------------------------------------------

  function WithSlot(c: Channel, id: SlotId, slot: Slot): Channel {
    c.(heap := c.heap[id := slot])
  }

  function Lock(c: Channel, id: SlotId, t: TaskId): Channel
    requires id in c.heap
  {
    WithSlot(c, id, c.heap[id].(lockedBy := Some(t)))
  }

  function Unregister(c: Channel, id: SlotId, t: TaskId): Channel
    requires id in c.heap
  {
    WithSlot(c, id, c.heap[id].(waiters := c.heap[id].waiters - {t}, lockedBy := None))
  }

  function Goto(s: State, t: TaskId, c: Channel, task: Task): State {
    s.(c := c, tasks := s.tasks[t := task])
  }

  /** The slot a task holds, for the tasks that hold one. */
  predicate Holds(task: Task) {
    match task
    case SubRegister(_, _) | SubLock(_, _) | SubCheck(_, _) | SubWait(_, _, _) | SubRelock(_, _) | SubRead(_, _) => true
    case PubLock(_, _, _) | PubWrite(_, _, _) | PubNotify(_, _) | CreateReset(_, _) => true
    case _ => false
  }

  predicate Registered(task: Task) {
    task.SubLock? || task.SubCheck? || task.SubWait?
  }

  predicate TasksHoldSlots(s: State) {
    forall t | t in s.tasks && Holds(s.tasks[t]) :: s.tasks[t].id in s.c.heap && s.c.heap[s.tasks[t].id].key == s.tasks[t].key
  }

  predicate ShutdownSlots(s: State) {
    forall t | t in s.tasks && s.tasks[t].ShutdownNotify? :: s.tasks[t].todo <= s.c.heap.Keys
  }

  function AfterEnsure(task: Task, id: SlotId): Task
    requires task.SubEnsure? || task.PubEnsure? || task.CreateEnsure?
  {
    match task
    case SubEnsure(key) => SubRegister(key, id)
    case PubEnsure(key, summary) => PubLock(key, id, summary)
    case CreateEnsure(key) => CreateReset(key, id)
  }

  /** After an `ensure_slot`, the task continues with the slot it was given. */
  ghost predicate EnsureStep(s: State, t: TaskId, now: nat, s': State)
    requires Valid(s.c) && t in s.tasks && (s.tasks[t].SubEnsure? || s.tasks[t].PubEnsure? || s.tasks[t].CreateEnsure?)
  {
    exists id :: Ensured(s.c, s.tasks[t].key, now, s'.c, id) && s' == Goto(s, t, s'.c, AfterEnsure(s.tasks[t], id))
  }

  ghost predicate StepTask(s: State, t: TaskId, now: nat, s': State)
    requires Valid(s.c) && TasksHoldSlots(s) && ShutdownSlots(s) && t in s.tasks
  {
    var c := s.c;
    match s.tasks[t]
    case SubEnsure(_) => EnsureStep(s, t, now, s')
    case SubRegister(key, id) =>
      s' == Goto(s, t, WithSlot(c, id, c.heap[id].(waiters := c.heap[id].waiters + {t})), SubLock(key, id))
    case SubLock(key, id) =>
      c.heap[id].lockedBy.None? && s' == Goto(s, t, Lock(c, id, t), SubCheck(key, id))
    case SubCheck(key, id) =>
      if c.heap[id].data.Some? then s' == Goto(s, t, Unregister(c, id, t), SubDone(key, c.heap[id].data))
      else s' == Goto(s, t, WithSlot(c, id, c.heap[id].(lockedBy := None)), SubWait(key, id, Mapped(c, id)))
    case SubWait(key, id, _) =>
      // woken, or timed out: either way the registration is gone
      var c' := WithSlot(c, id, c.heap[id].(waiters := c.heap[id].waiters - {t}));
      (t in c.woken && s' == Goto(s, t, c', SubRelock(key, id))) || s' == Goto(s, t, c', SubDone(key, None))
    case SubRelock(key, id) =>
      c.heap[id].lockedBy.None? && s' == Goto(s, t, Lock(c, id, t), SubRead(key, id))
    case SubRead(key, id) =>
      s' == Goto(s, t, WithSlot(c, id, c.heap[id].(lockedBy := None)), SubDone(key, c.heap[id].data))
    case PubEnsure(_, _) => EnsureStep(s, t, now, s')
    case PubLock(key, id, summary) =>
      c.heap[id].lockedBy.None? && s' == Goto(s, t, Lock(c, id, t), PubWrite(key, id, summary))
    case PubWrite(key, id, summary) =>
      s' == Goto(s, t, WithSlot(c, id, c.heap[id].(data := Some(summary), lockedBy := None)), PubNotify(key, id))
            .(published := s.published + {(key, summary)})
    case PubNotify(key, id) => s' == Goto(s, t, Notify(c, id), Finished)
    case CreateEnsure(_) => EnsureStep(s, t, now, s')
    case CreateReset(key, id) =>
      // try_lock: the reset is skipped while someone holds the data lock
      s' == Goto(s, t, if c.heap[id].lockedBy.None? then WithSlot(c, id, c.heap[id].(data := None)) else c, Finished)
    case ShutdownStart => s' == Goto(s, t, c, ShutdownNotify(c.slots.Values))
    case ShutdownNotify(todo) =>
      || (todo == {} && s' == Goto(s, t, c, Finished))
      || exists id :: id in todo && s' == Goto(s, t, Notify(c, id), ShutdownNotify(todo - {id}))
    case _ => false
  }

  predicate Spawn(s: State, t: TaskId, task: Task, s': State) {
    t !in s.tasks && Fresh(task) && s' == s.(tasks := s.tasks[t := task])
  }

  ghost predicate Next(s: State, s': State) {
    && Valid(s.c) && TasksHoldSlots(s) && ShutdownSlots(s)
    && ((exists t, now | t in s.tasks :: StepTask(s, t, now, s')) || (exists t, task :: Spawn(s, t, task, s')))
  }

  predicate Init(s: State) {
    s == State(Empty(s.c.maxSlots, s.c.ttlSecs), map[], {})
  }

  // ---------------------------------------------------------------------------
  // The invariant
  // ---------------------------------------------------------------------------

  /** A registration stands until it is notified. */
  predicate Registrations(s: State)
    requires TasksHoldSlots(s)
  {
    && (forall t | t in s.tasks && Registered(s.tasks[t]) :: t in s.c.heap[s.tasks[t].id].waiters || t in s.c.woken)
    && (forall id, t | id in s.c.heap && t in s.c.heap[id].waiters :: t in s.tasks && Registered(s.tasks[t]) && s.tasks[t].id == id)
  }

  /** Some publisher has written the slot and not yet notified. */
  ghost predicate NotifyPending(s: State, id: SlotId) {
    exists p :: p in s.tasks && s.tasks[p].PubNotify? && s.tasks[p].id == id
  }

  /** A task waits: it registered, saw no data, and has not been notified. */
  predicate Waiting(s: State, t: TaskId) {
    t in s.tasks && s.tasks[t].SubWait? && s.tasks[t].id in s.c.heap && t in s.c.heap[s.tasks[t].id].waiters
  }

  ghost predicate NoLostWakeUp(s: State) {
    forall t | Waiting(s, t) :: s.c.heap[s.tasks[t].id].data.None? || NotifyPending(s, s.tasks[t].id)
  }

  /** A waiter that was in the table when it looked still is, or is about to be notified; one that was
      not in the table never comes back into it. */
  ghost predicate WaitersReachable(s: State) {
    forall t | Waiting(s, t) ::
      var id := s.tasks[t].id;
      (s.tasks[t].reachable ==> Mapped(s.c, id) || NotifyPending(s, id)) && (!s.tasks[t].reachable ==> !Mapped(s.c, id))
  }

  predicate DataPublished(s: State) {
    && (forall id | id in s.c.heap && s.c.heap[id].data.Some? :: (s.c.heap[id].key, s.c.heap[id].data.value) in s.published)
    && (forall t | t in s.tasks && s.tasks[t].SubDone? && s.tasks[t].result.Some? :: (s.tasks[t].key, s.tasks[t].result.value) in s.published)
  }

  ghost predicate Inv(s: State) {
    && Valid(s.c) && TasksHoldSlots(s) && ShutdownSlots(s)
    && Registrations(s) && NoLostWakeUp(s) && WaitersReachable(s) && DataPublished(s)
  }

  // ---------------------------------------------------------------------------
  // What ensure_slot and notifications do to other tasks
  // ---------------------------------------------------------------------------

  /** The slots keep their contents; registrations are only ever turned into notifications; a slot
      leaves the table only when it holds data or has nobody left registered; none comes back. */
  ghost predicate Evolves(c: Channel, c': Channel) {
    && c.heap.Keys <= c'.heap.Keys && c.woken <= c'.woken
    && (forall id | id in c.heap ::
          && c'.heap[id].(waiters := c.heap[id].waiters) == c.heap[id]
          && c'.heap[id].waiters <= c.heap[id].waiters <= c'.heap[id].waiters + c'.woken)
    && (forall id | id in c'.heap && id !in c.heap :: c'.heap[id].waiters == {} && c'.heap[id].data.None?)
    && (forall id | id in c.heap && Mapped(c', id) :: Mapped(c, id))
    && (forall id | id in c.heap && Mapped(c, id) && !Mapped(c', id) :: c'.heap[id].waiters == {} || c.heap[id].data.Some?)
  }

  lemma NotifyEvolves(c: Channel, id: SlotId)
    requires Valid(c) && id in c.heap
    ensures Valid(Notify(c, id)) && Evolves(c, Notify(c, id))
  {
  }

  lemma RetainEvolves(c: Channel, now: nat)
    requires Valid(c)
    ensures Valid(Retain(c, now)) && Evolves(c, Retain(c, now))
  {
    RetainValid(c, now);
  }

  lemma EvictEvolves(c: Channel, evicted: set<Key>)
    requires Valid(c) && evicted <= c.slots.Keys
    ensures Valid(Evict(c, evicted)) && Evolves(c, Evict(c, evicted))
    ensures |Evict(c, evicted).slots| == |c.slots| - |evicted|
  {
    EvictValid(c, evicted);
    var c' := Evict(c, evicted);
    forall id | id in c.heap
      ensures Mapped(c', id) <==> Mapped(c, id) && !Hit(c, evicted, id)
      ensures c.heap[id].waiters <= c'.heap[id].waiters + c'.woken
    {
    }
  }

  lemma InsertEvolves(c: Channel, key: Key, now: nat)
    requires Valid(c) && key !in c.slots && |c.slots| < Capacity(c)
    ensures Valid(Insert(c, key, now)) && Evolves(c, Insert(c, key, now))
  {
    InsertValid(c, key, now);
    var c' := Insert(c, key, now);
    forall id | id in c.heap ensures Mapped(c', id) <==> Mapped(c, id) {
    }
  }

  lemma EvolvesTrans(a: Channel, b: Channel, c: Channel)
    requires Evolves(a, b) && Evolves(b, c)
    ensures Evolves(a, c)
  {
    forall id | id in a.heap ensures a.heap[id].waiters <= c.heap[id].waiters + c.woken {
      assert b.heap[id].waiters <= c.heap[id].waiters + c.woken;
    }
  }

  lemma MadeEvolves(r: Channel, key: Key, now: nat, evicted: set<Key>, c': Channel, id: SlotId)
    requires Valid(r) && key !in r.slots && evicted <= r.slots.Keys && EnsuredBy(r, key, now, evicted, c', id)
    ensures Valid(c') && Evolves(r, c')
    ensures id in c'.heap && c'.heap[id].key == key && Mapped(c', id)
  {
    EvictEvolves(r, evicted);
    InsertEvolves(Evict(r, evicted), key, now);
    EvolvesTrans(r, Evict(r, evicted), c');
  }

  lemma EnsuredEvolves(c: Channel, key: Key, now: nat, c': Channel, id: SlotId)
    requires Valid(c) && Ensured(c, key, now, c', id)
    ensures Valid(c') && Evolves(c, c')
    ensures id in c'.heap && c'.heap[id].key == key && Mapped(c', id)
  {
    var r := Retain(c, now);
    RetainEvolves(c, now);
    if key !in r.slots {
      var evicted: set<Key> :| evicted <= r.slots.Keys && EnsuredBy(r, key, now, evicted, c', id);
      MadeEvolves(r, key, now, evicted, c', id);
      EvolvesTrans(c, r, c');
    }
  }

  // ---------------------------------------------------------------------------
  // Each step keeps the invariant
  // ---------------------------------------------------------------------------

  /** One waiter's share of the invariant. */
  ghost predicate WaiterOk(s: State, u: TaskId)
    requires Waiting(s, u)
  {
    var id := s.tasks[u].id;
    && (s.c.heap[id].data.None? || NotifyPending(s, id))
    && (s.tasks[u].reachable ==> Mapped(s.c, id) || NotifyPending(s, id))
    && (!s.tasks[u].reachable ==> !Mapped(s.c, id))
  }

  ghost predicate WaitersOk(s: State) {
    forall u | Waiting(s, u) :: WaiterOk(s, u)
  }

  predicate Structure(s: State) {
    Valid(s.c) && TasksHoldSlots(s) && ShutdownSlots(s) && Registrations(s) && DataPublished(s)
  }

  lemma InvParts(s: State)
    ensures Inv(s) <==> Structure(s) && WaitersOk(s)
  {
    if Inv(s) {
      forall u | Waiting(s, u) ensures WaiterOk(s, u) {
      }
    }
    if WaitersOk(s) {
      forall u | Waiting(s, u) ensures WaiterOk(s, u) {
      }
    }
  }

  lemma PendingKept(s: State, s': State, id: SlotId, t: TaskId)
    requires NotifyPending(s, id) && (t in s.tasks ==> !(s.tasks[t].PubNotify? && s.tasks[t].id == id))
    requires s'.tasks.Keys >= s.tasks.Keys && forall u | u in s.tasks && u != t :: s'.tasks[u] == s.tasks[u]
    ensures NotifyPending(s', id)
  {
    var p :| p in s.tasks && s.tasks[p].PubNotify? && s.tasks[p].id == id;
    assert s'.tasks[p] == s.tasks[p];
  }

  /** The channel evolves while a task that is neither registered nor completing moves on. */
  predicate MovesOn(s: State, t: TaskId, c': Channel, task: Task)
    requires TasksHoldSlots(s) && s.c.heap.Keys <= c'.heap.Keys
  {
    && (t in s.tasks ==> !Registered(s.tasks[t]) && (s.tasks[t].PubNotify? ==> c'.heap[s.tasks[t].id].waiters == {}))
    && !Registered(task) && !task.SubDone?
    && (Holds(task) ==> task.id in c'.heap && c'.heap[task.id].key == task.key)
    && (task.ShutdownNotify? ==> task.todo <= c'.heap.Keys)
  }

  lemma EvolvingHolds(s: State, t: TaskId, c': Channel, task: Task)
    requires Structure(s) && Evolves(s.c, c') && MovesOn(s, t, c', task)
    ensures TasksHoldSlots(Goto(s, t, c', task)) && ShutdownSlots(Goto(s, t, c', task))
    ensures DataPublished(Goto(s, t, c', task))
  {
  }

  lemma EvolvingRegistrations(s: State, t: TaskId, c': Channel, task: Task)
    requires Structure(s) && Evolves(s.c, c') && MovesOn(s, t, c', task) && TasksHoldSlots(Goto(s, t, c', task))
    ensures Registrations(Goto(s, t, c', task))
  {
  }

  lemma EvolvingStructure(s: State, t: TaskId, c': Channel, task: Task)
    requires Structure(s) && Valid(c') && Evolves(s.c, c') && MovesOn(s, t, c', task)
    ensures Structure(Goto(s, t, c', task))
  {
    EvolvingHolds(s, t, c', task);
    EvolvingRegistrations(s, t, c', task);
  }

  lemma EvolvingWaiters(s: State, t: TaskId, c': Channel, task: Task)
    requires Structure(s) && WaitersOk(s) && Evolves(s.c, c') && MovesOn(s, t, c', task)
    ensures WaitersOk(Goto(s, t, c', task))
  {
    var s' := Goto(s, t, c', task);
    forall u | Waiting(s', u) ensures WaiterOk(s', u) {
      var id := s.tasks[u].id;
      assert Waiting(s, u) && WaiterOk(s, u);
      if NotifyPending(s, id) {
        PendingKept(s, s', id, t);
      }
    }
  }

  lemma EvolvingStep(s: State, t: TaskId, c': Channel, task: Task)
    requires Inv(s) && Valid(c') && Evolves(s.c, c') && MovesOn(s, t, c', task)
    ensures Inv(Goto(s, t, c', task))
  {
    InvParts(s);
    EvolvingStructure(s, t, c', task);
    EvolvingWaiters(s, t, c', task);
    InvParts(Goto(s, t, c', task));
  }

  lemma EnsureStepKeeps(s: State, t: TaskId, now: nat, s': State)
    requires Inv(s) && t in s.tasks && (s.tasks[t].SubEnsure? || s.tasks[t].PubEnsure? || s.tasks[t].CreateEnsure?)
    requires EnsureStep(s, t, now, s')
    ensures Inv(s')
  {
    var id :| Ensured(s.c, s.tasks[t].key, now, s'.c, id) && s' == Goto(s, t, s'.c, AfterEnsure(s.tasks[t], id));
    EnsuredEvolves(s.c, s.tasks[t].key, now, s'.c, id);
    SlotGivenKeeps(s, t, s'.c, id);
  }

  lemma SlotGivenKeeps(s: State, t: TaskId, c': Channel, id: SlotId)
    requires Inv(s) && t in s.tasks && (s.tasks[t].SubEnsure? || s.tasks[t].PubEnsure? || s.tasks[t].CreateEnsure?)
    requires Valid(c') && Evolves(s.c, c') && id in c'.heap && c'.heap[id].key == s.tasks[t].key
    ensures Inv(Goto(s, t, c', AfterEnsure(s.tasks[t], id)))
  {
    EvolvingStep(s, t, c', AfterEnsure(s.tasks[t], id));
  }

  /** A step on one slot that does not remove it from the table. */
  predicate SameTable(c: Channel, id: SlotId, slot: Slot)
    requires id in c.heap
  {
    slot.key == c.heap[id].key && slot.createdAt == c.heap[id].createdAt
  }

  lemma WithSlotFacts(c: Channel, id: SlotId, slot: Slot)
    requires Valid(c) && id in c.heap && SameTable(c, id, slot)
    ensures var c' := WithSlot(c, id, slot);
            && Valid(c') && c'.heap.Keys == c.heap.Keys && c'.heap[id] == slot && c'.woken == c.woken
            && (forall i | i in c.heap :: i != id ==> c'.heap[i] == c.heap[i])
            && (forall i | i in c.heap :: Mapped(c', i) <==> Mapped(c, i))
  {
  }

  /** A task's step on the slot it holds: it may write the data, join or leave the waiters itself, and
      take or drop the lock. */
  predicate OwnStep(s: State, t: TaskId, slot: Slot, task: Task)
    requires TasksHoldSlots(s)
  {
    && t in s.tasks && Holds(s.tasks[t]) && !s.tasks[t].PubNotify?
    && var id := s.tasks[t].id;
       && SameTable(s.c, id, slot)
       && (forall u | u in slot.waiters - {t} :: u in s.c.heap[id].waiters)
       && (forall u | u in s.c.heap[id].waiters - {t} :: u in slot.waiters)
       && (t in slot.waiters ==> Registered(task))
       && (Registered(task) ==> t in slot.waiters || t in s.c.woken)
       && (Holds(task) ==> task.id == id && task.key == s.tasks[t].key)
       && (task.SubWait? ==> slot.data.None? && task.reachable == Mapped(s.c, id))
       && (task.SubDone? ==> task.key == s.tasks[t].key && (task.result.None? || task.result == slot.data))
       && (slot.data == s.c.heap[id].data || slot.data.None? || task.PubNotify?)
       && !task.ShutdownNotify?
  }

  function OwnResult(s: State, t: TaskId, slot: Slot, task: Task, published: set<(Key, Summary)>): State
    requires TasksHoldSlots(s) && t in s.tasks && Holds(s.tasks[t])
  {
    Goto(s, t, WithSlot(s.c, s.tasks[t].id, slot), task).(published := published)
  }

  lemma OwnStructure(s: State, t: TaskId, slot: Slot, task: Task, published: set<(Key, Summary)>)
    requires Structure(s) && OwnStep(s, t, slot, task) && s.published <= published
    requires slot.data.Some? ==> (slot.key, slot.data.value) in published
    ensures Structure(OwnResult(s, t, slot, task, published))
  {
    var s' := OwnResult(s, t, slot, task, published);
    WithSlotFacts(s.c, s.tasks[t].id, slot);
    assert TasksHoldSlots(s');
    assert ShutdownSlots(s');
    assert Registrations(s') by {
      forall u | u in s'.tasks && Registered(s'.tasks[u])
        ensures u in s'.c.heap[s'.tasks[u].id].waiters || u in s'.c.woken
      {
        if u != t && s.tasks[u].id == s.tasks[t].id && u in s.c.heap[s.tasks[t].id].waiters {
          assert u in s.c.heap[s.tasks[t].id].waiters - {t};
        }
      }
      forall id, u | id in s'.c.heap && u in s'.c.heap[id].waiters
        ensures u in s'.tasks && Registered(s'.tasks[u]) && s'.tasks[u].id == id
      {
        if id == s.tasks[t].id && u != t {
          assert u in slot.waiters - {t};
        }
      }
    }
  }

  lemma OwnWaiters(s: State, t: TaskId, slot: Slot, task: Task, published: set<(Key, Summary)>)
    requires Structure(s) && WaitersOk(s) && OwnStep(s, t, slot, task)
    ensures WaitersOk(OwnResult(s, t, slot, task, published))
  {
    var s' := OwnResult(s, t, slot, task, published);
    WithSlotFacts(s.c, s.tasks[t].id, slot);
    forall u | Waiting(s', u) ensures WaiterOk(s', u) {
      if u != t {
        var id := s.tasks[u].id;
        if id == s.tasks[t].id {
          assert u in slot.waiters - {t};
        }
        assert Waiting(s, u) && WaiterOk(s, u);
        if NotifyPending(s, id) {
          PendingKept(s, s', id, t);
        } else if task.PubNotify? && id == s.tasks[t].id {
          assert s'.tasks[t] == task;
        }
      }
    }
  }

  lemma OwnStepKeeps(s: State, t: TaskId, slot: Slot, task: Task, published: set<(Key, Summary)>)
    requires Inv(s) && OwnStep(s, t, slot, task) && s.published <= published
    requires slot.data.Some? ==> (slot.key, slot.data.value) in published
    ensures Inv(OwnResult(s, t, slot, task, published))
  {
    InvParts(s);
    OwnStructure(s, t, slot, task, published);
    OwnWaiters(s, t, slot, task, published);
    InvParts(OwnResult(s, t, slot, task, published));
  }

  lemma PubWriteKeeps(s: State, t: TaskId, now: nat, s': State)
    requires Inv(s) && t in s.tasks && s.tasks[t].PubWrite? && StepTask(s, t, now, s')
    ensures Inv(s')
  {
    var task := s.tasks[t];
    var slot := s.c.heap[task.id].(data := Some(task.summary), lockedBy := None);
    OwnStepKeeps(s, t, slot, PubNotify(task.key, task.id), s'.published);
  }

  /** The reset of a retried request: the slot's data is cleared, or nothing happens. */
  lemma ResetKeeps(s: State, t: TaskId, now: nat, s': State)
    requires Inv(s) && t in s.tasks && s.tasks[t].CreateReset? && StepTask(s, t, now, s')
    ensures Inv(s')
  {
    var slot := s.c.heap[s.tasks[t].id];
    if slot.lockedBy.None? {
      OwnStepKeeps(s, t, slot.(data := None), Finished, s.published);
    } else {
      EvolvingStep(s, t, s.c, Finished);
    }
  }

  lemma SubscriberStepKeeps(s: State, t: TaskId, now: nat, s': State)
    requires Inv(s) && t in s.tasks && StepTask(s, t, now, s')
    requires s.tasks[t].SubRegister? || Registered(s.tasks[t]) || s.tasks[t].SubRelock? || s.tasks[t].SubRead? || s.tasks[t].PubLock?
    ensures Inv(s')
  {
    OwnStepKeeps(s, t, s'.c.heap[s.tasks[t].id], s'.tasks[t], s.published);
  }

  lemma PubNotifyKeeps(s: State, t: TaskId, now: nat, s': State)
    requires Inv(s) && t in s.tasks && s.tasks[t].PubNotify? && StepTask(s, t, now, s')
    ensures Inv(s')
  {
    NotifyEvolves(s.c, s.tasks[t].id);
    EvolvingStep(s, t, Notify(s.c, s.tasks[t].id), Finished);
  }

  lemma ShutdownStartKeeps(s: State, t: TaskId, now: nat, s': State)
    requires Inv(s) && t in s.tasks && s.tasks[t].ShutdownStart? && StepTask(s, t, now, s')
    ensures Inv(s')
  {
    EvolvingStep(s, t, s.c, ShutdownNotify(s.c.slots.Values));
  }

  lemma ShutdownNotifyKeeps(s: State, t: TaskId, now: nat, s': State)
    requires Inv(s) && t in s.tasks && s.tasks[t].ShutdownNotify? && StepTask(s, t, now, s')
    ensures Inv(s')
  {
    var todo := s.tasks[t].todo;
    if todo == {} {
      EvolvingStep(s, t, s.c, Finished);
    } else {
      var id :| id in todo && s' == Goto(s, t, Notify(s.c, id), ShutdownNotify(todo - {id}));
      ShutdownOneKeeps(s, t, id);
    }
  }

  lemma ShutdownOneKeeps(s: State, t: TaskId, id: SlotId)
    requires Inv(s) && t in s.tasks && s.tasks[t].ShutdownNotify? && id in s.tasks[t].todo
    ensures Inv(Goto(s, t, Notify(s.c, id), ShutdownNotify(s.tasks[t].todo - {id})))
  {
    NotifyEvolves(s.c, id);
    EvolvingStep(s, t, Notify(s.c, id), ShutdownNotify(s.tasks[t].todo - {id}));
  }

  lemma StepKeeps(s: State, t: TaskId, now: nat, s': State)
    requires Inv(s) && t in s.tasks && StepTask(s, t, now, s')
    ensures Inv(s')
  {
    var task := s.tasks[t];
    if task.SubEnsure? || task.PubEnsure? || task.CreateEnsure? {
      EnsureStepKeeps(s, t, now, s');
    } else if task.PubNotify? {
      PubNotifyKeeps(s, t, now, s');
    } else if task.ShutdownStart? {
      ShutdownStartKeeps(s, t, now, s');
    } else if task.ShutdownNotify? {
      ShutdownNotifyKeeps(s, t, now, s');
    } else if task.PubWrite? {
      PubWriteKeeps(s, t, now, s');
    } else if task.CreateReset? {
      ResetKeeps(s, t, now, s');
    } else {
      SubscriberStepKeeps(s, t, now, s');
    }
  }

  lemma SpawnKeeps(s: State, t: TaskId, task: Task, s': State)
    requires Inv(s) && Spawn(s, t, task, s')
    ensures Inv(s')
  {
    EvolvingStep(s, t, s.c, task);
  }

  lemma NextKeeps(s: State, s': State)
    requires Inv(s) && Next(s, s')
    ensures Inv(s')
  {
    if t, now :| t in s.tasks && StepTask(s, t, now, s') {
      StepKeeps(s, t, now, s');
    } else {
      var t, task :| Spawn(s, t, task, s');
      SpawnKeeps(s, t, task, s');
    }
  }

  // ---------------------------------------------------------------------------
  // Runs
  // ---------------------------------------------------------------------------

  ghost predicate IsRun(run: seq<State>) {
    && run != [] && Init(run[0])
    && forall i :: 0 <= i < |run| - 1 ==> Next(run[i], run[i + 1])
  }

  lemma {:induction false} RunKeeps(run: seq<State>, i: nat)
    requires IsRun(run) && i < |run|
    ensures Inv(run[i])
  {
    if i > 0 {
      RunKeeps(run, i - 1);
      NextKeeps(run[i - 1], run[i]);
    }
  }

  /** In every interleaving: a subscriber that registered, saw no data and has not been notified holds
      a slot that is still empty, or one a publisher has written and is about to notify. */
  lemma NoWakeUpIsLost(run: seq<State>, i: nat, t: TaskId)
    requires IsRun(run) && i < |run|
    requires t in run[i].tasks && run[i].tasks[t].SubWait? && t !in run[i].c.woken
    ensures var id := run[i].tasks[t].id;
            id in run[i].c.heap && (run[i].c.heap[id].data.None? || NotifyPending(run[i], id))
  {
    RunKeeps(run, i);
    assert Registered(run[i].tasks[t]);
    assert Waiting(run[i], t);
  }

  /** The table never exceeds its capacity and every slot is accounted for; results handed to a
      subscriber were published under its key. */
  lemma BoundsAndProvenance(run: seq<State>, i: nat)
    requires IsRun(run) && i < |run|
    ensures |run[i].c.slots| <= (if run[i].c.maxSlots == 0 then 1 else run[i].c.maxSlots)
    ensures run[i].c.inserted == |run[i].c.slots| + run[i].c.evictions + run[i].c.expired
    ensures forall t | t in run[i].tasks && run[i].tasks[t].SubDone? && run[i].tasks[t].result.Some? ::
              (run[i].tasks[t].key, run[i].tasks[t].result.value) in run[i].published
  {
    RunKeeps(run, i);
  }

  /** Clean-up takes a slot out of the table exactly if it holds data, is not locked, and as many nanoseconds as its time
      to live has have gone by since it was made. */
  lemma CleanupRemovesCompleted(c: Channel, now: nat, id: SlotId)
    requires Valid(c) && id in c.heap && Mapped(c, id)
    ensures !Mapped(Retain(c, now), id) <==>
              && c.heap[id].data.Some? && c.heap[id].lockedBy.None?
              && (c.ttlSecs == 0 || c.heap[id].createdAt + c.ttlSecs * 1_000_000_000 <= now)
  {
  }

  /** Whatever it holds, a slot that `ensure_slot` takes out of the table otherwise is evicted, and everyone
      registered on it is woken. */
  lemma RemovalWakes(c: Channel, key: Key, now: nat, c': Channel, made: SlotId, id: SlotId)
    requires Valid(c) && Ensured(c, key, now, c', made) && id in c.heap && Mapped(Retain(c, now), id)
    ensures id in c'.heap
    ensures !Mapped(c', id) ==> c.heap[id].waiters <= c'.woken && c'.heap[id].waiters == {}
  {
    RetainValid(c, now);
    var r := Retain(c, now);
    if key !in r.slots {
      var evicted :| evicted <= r.slots.Keys && EnsuredBy(r, key, now, evicted, c', made);
      MadeWakes(r, key, now, evicted, c', made, id);
    }
  }

  lemma MadeWakes(r: Channel, key: Key, now: nat, evicted: set<Key>, c': Channel, made: SlotId, id: SlotId)
    requires Valid(r) && key !in r.slots && evicted <= r.slots.Keys && EnsuredBy(r, key, now, evicted, c', made)
    requires id in r.heap && Mapped(r, id)
    ensures id in c'.heap
    ensures !Mapped(c', id) ==> r.heap[id].waiters <= c'.woken && c'.heap[id].waiters == {}
  {
    EvictValid(r, evicted);
    EvictionWakes(r, evicted, id);
    var e := Evict(r, evicted);
    assert c'.heap[id] == e.heap[id] && c'.woken == e.woken;
    assert Mapped(e, id) ==> Mapped(c', id);
  }

  lemma EvictionWakes(c: Channel, evicted: set<Key>, id: SlotId)
    requires Valid(c) && evicted <= c.slots.Keys && id in c.heap && Mapped(c, id)
    ensures var e := Evict(c, evicted);
            id in e.heap && (Mapped(e, id) || (c.heap[id].waiters <= e.woken && e.heap[id].waiters == {}))
  {
    if Hit(c, evicted, id) {
      forall t | t in c.heap[id].waiters ensures t in Evict(c, evicted).woken {
      }
    }
  }

  predicate NoneComesBack(c: Channel, c': Channel) {
    forall id | id in c.heap && !Mapped(c, id) :: id in c'.heap && !Mapped(c', id)
  }

  lemma StepDetached(s: State, t: TaskId, now: nat, s': State)
    requires Valid(s.c) && TasksHoldSlots(s) && ShutdownSlots(s) && t in s.tasks && StepTask(s, t, now, s')
    ensures NoneComesBack(s.c, s'.c)
  {
    if s.tasks[t].SubEnsure? || s.tasks[t].PubEnsure? || s.tasks[t].CreateEnsure? {
      var id :| Ensured(s.c, s.tasks[t].key, now, s'.c, id);
      EnsuredEvolves(s.c, s.tasks[t].key, now, s'.c, id);
    }
  }

  /** A slot that left the table never comes back. */
  lemma DetachedForever(s: State, s': State)
    requires Next(s, s')
    ensures NoneComesBack(s.c, s'.c)
  {
    if t, now :| t in s.tasks && StepTask(s, t, now, s') {
      StepDetached(s, t, now, s');
    }
  }

  /** Which waiters a new publish reaches: while no notification is pending, any `ensure_slot` on the
      waiter's key yields the waiter's slot exactly if the slot was in the table when the waiter found
      it empty. */
  lemma ReachesExactly(s: State, t: TaskId, now: nat, c': Channel, id: SlotId)
    requires Inv(s) && t in s.tasks && s.tasks[t].SubWait? && t !in s.c.woken
    requires Ensured(s.c, s.tasks[t].key, now, c', id)
    ensures !s.tasks[t].reachable ==> id != s.tasks[t].id
    ensures s.tasks[t].reachable && !NotifyPending(s, s.tasks[t].id) ==> id == s.tasks[t].id
  {
    var task := s.tasks[t];
    assert Registered(task);
    assert Waiting(s, t);
    RetainValid(s.c, now);
    var r := Retain(s.c, now);
    if task.reachable && !NotifyPending(s, task.id) {
      assert !Stale(s.c, task.key, now);
      assert task.key in r.slots;
    } else if !task.reachable {
      assert !Mapped(s.c, task.id) && task.id < s.c.inserted;
    }
  }

  lemma PublishReachesExactly(run: seq<State>, i: nat, t: TaskId, now: nat, c': Channel, id: SlotId)
    requires IsRun(run) && i < |run|
    requires t in run[i].tasks && run[i].tasks[t].SubWait? && t !in run[i].c.woken
    requires !NotifyPending(run[i], run[i].tasks[t].id)
    requires Valid(run[i].c) && Ensured(run[i].c, run[i].tasks[t].key, now, c', id)
    ensures id == run[i].tasks[t].id <==> run[i].tasks[t].reachable
  {
    RunKeeps(run, i);
    ReachesExactly(run[i], t, now, c', id);
  }

  // ---------------------------------------------------------------------------
  // The case the register-before-check order does not cover
  // ---------------------------------------------------------------------------

  // One lemma per step of the run: the step is a step of the protocol, and this is the state it leaves.

  lemma EvictAll(c: Channel)
    requires Valid(c) && forall id | id in c.heap && Mapped(c, id) :: c.heap[id].waiters == {}
    ensures Evict(c, c.slots.Keys) == c.(slots := map[], evictions := c.evictions + |c.slots|)
  {
    var e := Evict(c, c.slots.Keys);
    assert e.slots == map[];
    assert e.heap == c.heap;
    assert e.woken == c.woken;
    assert |c.slots.Keys| == |c.slots|;
  }

  lemma NothingExpires(c: Channel)
    requires Valid(c) && c.ttlSecs > 0
    ensures Retain(c, 0) == c
  {
    assert StaleKeys(c, 0) == {};
    assert c.slots - {} == c.slots;
  }

  function Replaced(c: Channel, key: Key): Channel {
    Insert(c.(slots := map[], evictions := c.evictions + |c.slots|), key, 0)
  }

  /** With room for one slot, `ensure_slot` on a new key at time 0 replaces whatever slot there was. */
  lemma ReplaceSlot(c: Channel, key: Key)
    requires Valid(c) && c.maxSlots == 1 && c.ttlSecs > 0 && key !in c.slots
    requires forall id | id in c.heap && Mapped(c, id) :: c.heap[id].waiters == {}
    ensures Ensured(c, key, 0, Replaced(c, key), c.inserted)
  {
    NothingExpires(c);
    EvictAll(c);
    assert EnsuredBy(c, key, 0, c.slots.Keys, Replaced(c, key), c.inserted);
  }

  /** Some run leads to the state. */
  ghost predicate Reached(s: State) {
    exists run :: RunTo(run, s)
  }

  ghost predicate RunTo(run: seq<State>, s: State) {
    IsRun(run) && run[|run| - 1] == s
  }

  lemma ReachedKeeps(s: State)
    requires Reached(s)
    ensures Inv(s)
  {
    var run :| RunTo(run, s);
    RunKeeps(run, |run| - 1);
  }

  lemma ReachedStart(s: State)
    requires Init(s)
    ensures Reached(s)
  {
    assert RunTo([s], s);
  }

  lemma ReachedNext(s: State, s': State)
    requires Reached(s) && Next(s, s')
    ensures Reached(s')
  {
    var run :| RunTo(run, s);
    var longer := run + [s'];
    forall i | 0 <= i < |longer| - 1 ensures Next(longer[i], longer[i + 1]) {
      if i < |run| - 1 {
        assert longer[i] == run[i] && longer[i + 1] == run[i + 1];
      }
    }
    assert RunTo(longer, s');
  }

  lemma DoSpawn(s: State, t: TaskId, task: Task) returns (s': State)
    requires Reached(s) && t !in s.tasks && Fresh(task)
    ensures Reached(s') && s' == s.(tasks := s.tasks[t := task])
  {
    ReachedKeeps(s);
    s' := s.(tasks := s.tasks[t := task]);
    assert Spawn(s, t, task, s');
    ReachedNext(s, s');
  }

  lemma DoEnsure(s: State, t: TaskId) returns (s': State)
    requires Reached(s) && t in s.tasks && (s.tasks[t].SubEnsure? || s.tasks[t].PubEnsure? || s.tasks[t].CreateEnsure?)
    requires s.tasks[t].key !in s.c.slots
    requires s.c.maxSlots == 1 && s.c.ttlSecs > 0
    requires forall id | id in s.c.heap && Mapped(s.c, id) :: s.c.heap[id].waiters == {}
    ensures Reached(s')
    ensures s' == Goto(s, t, Replaced(s.c, s.tasks[t].key), AfterEnsure(s.tasks[t], s.c.inserted))
  {
    ReachedKeeps(s);
    ReplaceSlot(s.c, s.tasks[t].key);
    s' := Goto(s, t, Replaced(s.c, s.tasks[t].key), AfterEnsure(s.tasks[t], s.c.inserted));
    assert EnsureStep(s, t, 0, s');
    assert StepTask(s, t, 0, s');
    ReachedNext(s, s');
  }

  /** Any other step of a task, at time 0. */
  lemma DoStep(s: State, t: TaskId, s': State)
    requires Reached(s) && t in s.tasks && Valid(s.c) && TasksHoldSlots(s) && ShutdownSlots(s) && StepTask(s, t, 0, s')
    ensures Reached(s')
  {
    ReachedNext(s, s');
  }

  const DONE: Summary := "done"

  /** Room for one slot; a subscriber and a publisher on "a" and a creator on "b" have been spawned. */
  predicate Spawned(s: State) {
    && s.c == Empty(1, 600) && 0 in s.tasks && 1 in s.tasks && 2 in s.tasks
    && s.tasks[0] == SubEnsure("a") && s.tasks[1] == CreateEnsure("b") && s.tasks[2] == PubEnsure("a", DONE)
  }

  lemma SceneSpawned() returns (s: State)
    ensures Reached(s) && Spawned(s)
  {
    s := State(Empty(1, 600), map[], {});
    ReachedStart(s);
    s := DoSpawn(s, 0, SubEnsure("a"));
    s := DoSpawn(s, 1, CreateEnsure("b"));
    s := DoSpawn(s, 2, PubEnsure("a", DONE));
  }

  /** The subscriber has its slot, which is in the table. */
  predicate HoldsSlot(s: State) {
    && 0 in s.tasks && 1 in s.tasks && 2 in s.tasks
    && s.tasks[0] == SubRegister("a", 0) && s.tasks[1] == CreateEnsure("b") && s.tasks[2] == PubEnsure("a", DONE)
    && s.c == Replaced(Empty(1, 600), "a")
  }

  lemma SceneHeld() returns (s: State)
    ensures Reached(s) && HoldsSlot(s)
  {
    s := SceneSpawned();
    s := DoEnsure(s, 0);
  }

  /** The other request's slot is the only one in the table. */
  predicate TheOtherSlot(s: State) {
    && s.c.slots == map["b" := 1] && 1 in s.c.heap && s.c.heap[1].waiters == {} && s.c.inserted == 2
    && s.c.maxSlots == 1 && s.c.ttlSecs == 600 && s.c.woken == {}
  }

  /** The subscriber, at some point, and the publisher, which has not started; and what slot 0 holds. */
  predicate Beside(s: State, task: Task, slot: Slot) {
    && 0 in s.tasks && 2 in s.tasks && s.tasks[0] == task && s.tasks[2] == PubEnsure("a", DONE)
    && 0 in s.c.heap && s.c.heap[0] == slot && TheOtherSlot(s)
  }

  lemma SlotReplaced(c: Channel)
    requires c == Replaced(Empty(1, 600), "a")
    ensures c.slots == map["a" := 0] && c.heap == map[0 := Slot("a", None, {}, 0, None)]
    ensures c.inserted == 1 && c.maxSlots == 1 && c.ttlSecs == 600 && c.woken == {}
  {
  }

  /** The subscriber holds slot 0, which left the table before it registered. */
  lemma SceneEvicted() returns (s: State)
    ensures Reached(s) && Beside(s, SubRegister("a", 0), Slot("a", None, {}, 0, None))
  {
    s := SceneHeld();
    SlotReplaced(s.c);
    s := DoEnsure(s, 1);
  }

  lemma SceneRegistered() returns (s: State)
    ensures Reached(s) && Beside(s, SubLock("a", 0), Slot("a", None, {0}, 0, None))
  {
    var s0 := SceneEvicted();
    ReachedKeeps(s0);
    s := Goto(s0, 0, WithSlot(s0.c, 0, s0.c.heap[0].(waiters := {0})), SubLock("a", 0));
    assert s0.c.heap[0].waiters + {0} == {0};
    DoStep(s0, 0, s);
  }

  lemma SceneChecking() returns (s: State)
    ensures Reached(s) && Beside(s, SubCheck("a", 0), Slot("a", None, {0}, 0, Some(0)))
  {
    var s0 := SceneRegistered();
    ReachedKeeps(s0);
    s := Goto(s0, 0, Lock(s0.c, 0, 0), SubCheck("a", 0));
    DoStep(s0, 0, s);
  }

  lemma SceneWaiting() returns (s: State)
    ensures Reached(s) && Beside(s, SubWait("a", 0, false), Slot("a", None, {0}, 0, None))
  {
    var s0 := SceneChecking();
    ReachedKeeps(s0);
    s := Goto(s0, 0, WithSlot(s0.c, 0, s0.c.heap[0].(lockedBy := None)), SubWait("a", 0, false));
    assert !Mapped(s0.c, 0);
    DoStep(s0, 0, s);
  }

  /** The subscriber still waits, and the publisher has another slot. */
  predicate Apart(s: State, task: Task, slot: Slot) {
    && 0 in s.tasks && 2 in s.tasks && s.tasks[0] == SubWait("a", 0, false) && s.tasks[2] == task
    && 2 in s.c.heap && s.c.heap[2] == slot && s.c.woken == {}
  }

  lemma ScenePublishing() returns (s: State)
    ensures Reached(s) && Apart(s, PubLock("a", 2, DONE), Slot("a", None, {}, 0, None))
  {
    s := SceneWaiting();
    assert "a" !in s.c.slots;
    s := DoEnsure(s, 2);
  }

  lemma SceneLocked() returns (s: State)
    ensures Reached(s) && Apart(s, PubWrite("a", 2, DONE), Slot("a", None, {}, 0, Some(2)))
  {
    var s0 := ScenePublishing();
    ReachedKeeps(s0);
    s := Goto(s0, 2, Lock(s0.c, 2, 2), PubWrite("a", 2, DONE));
    DoStep(s0, 2, s);
  }

  lemma SceneWritten() returns (s: State)
    ensures Reached(s) && Apart(s, PubNotify("a", 2), Slot("a", Some(DONE), {}, 0, None)) && ("a", DONE) in s.published
  {
    var s0 := SceneLocked();
    ReachedKeeps(s0);
    s := Goto(s0, 2, WithSlot(s0.c, 2, s0.c.heap[2].(data := Some(DONE), lockedBy := None)), PubNotify("a", 2))
         .(published := s0.published + {("a", DONE)});
    DoStep(s0, 2, s);
  }

  /** With room for one slot: a subscriber takes its slot, another request evicts it, and only then does
      the subscriber register. It waits on a slot nobody will find, and a later publish on its own key
      finishes without waking it. */
  lemma StrandedSubscriber() returns (run: seq<State>)
    ensures IsRun(run)
    ensures var s := run[|run| - 1];
            && 0 in s.tasks && s.tasks[0] == SubWait("a", 0, false) && 0 !in s.c.woken
            && 2 in s.tasks && s.tasks[2] == Finished && ("a", DONE) in s.published
  {
    var s0 := SceneWritten();
    ReachedKeeps(s0);
    var s := Goto(s0, 2, Notify(s0.c, 2), Finished);
    DoStep(s0, 2, s);
    run :| RunTo(run, s);
  }
}
