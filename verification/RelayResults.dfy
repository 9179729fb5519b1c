/** What a subscriber is given: the data lock, the last write to a slot, and the result of every subscription. */
module RelayResults {
  import opened RelayDelivery
  import opened RelayProtocol
  import opened ResultChannel
  import opened Wrappers

  // ---------------------------------------------------------------------------
  // What a step does to a slot
  // ---------------------------------------------------------------------------

  /** The task is between taking and dropping the data lock of the slot. */
  predicate LocksOn(task: Task, id: SlotId) {
    (task.SubCheck? || task.SubRead? || task.PubWrite?) && task.id == id
  }

  /** In this step `u` writes its result into the slot. */
  predicate Writes(s: State, s': State, u: TaskId, id: SlotId) {
    && u in s.tasks && s.tasks[u].PubWrite? && s.tasks[u].id == id
    && u in s'.tasks && s'.tasks[u].PubNotify?
  }

  /** In this step a retried request clears the slot, nobody holding its lock. */
  predicate Resets(s: State, s': State, u: TaskId, id: SlotId) {
    && u in s.tasks && s.tasks[u].CreateReset? && s.tasks[u].id == id
    && u in s'.tasks && s'.tasks[u].Finished?
    && id in s.c.heap && s.c.heap[id].lockedBy.None?
  }

  function DataAfter(s: State, s': State, u: TaskId, id: SlotId): Option<Summary>
    requires id in s.c.heap
  {
    if Writes(s, s', u, id) then Some(s.tasks[u].summary)
    else if Resets(s, s', u, id) then None
    else s.c.heap[id].data
  }

  predicate Takes(s': State, u: TaskId, id: SlotId) {
    u in s'.tasks && LocksOn(s'.tasks[u], id)
  }

  predicate Drops(s: State, u: TaskId, id: SlotId) {
    u in s.tasks && LocksOn(s.tasks[u], id)
  }

  function LockAfter(s: State, s': State, u: TaskId, id: SlotId): Option<TaskId>
    requires id in s.c.heap
  {
    if Takes(s', u, id) then Some(u) else if Drops(s, u, id) then None else s.c.heap[id].lockedBy
  }

  predicate Affects(s: State, s': State, u: TaskId, id: SlotId)
    requires id in s.c.heap
  {
    && id in s'.c.heap && s'.c.heap[id].key == s.c.heap[id].key
    && s'.c.heap[id].data == DataAfter(s, s', u, id)
    && s'.c.heap[id].lockedBy == LockAfter(s, s', u, id)
    && (Takes(s', u, id) ==> s.c.heap[id].lockedBy.None?)
  }

  predicate Effects(s: State, s': State, u: TaskId) {
    && (forall id | id in s.c.heap :: Affects(s, s', u, id))
    && (forall id | id in s'.c.heap && id !in s.c.heap :: s'.c.heap[id].data.None? && !Takes(s', u, id))
  }

  lemma EvolvesEffects(s: State, s': State, u: TaskId)
    requires Evolves(s.c, s'.c)
    requires u in s.tasks ==> !s.tasks[u].SubCheck? && !s.tasks[u].SubRead? && !s.tasks[u].PubWrite?
    requires u in s'.tasks ==> !s'.tasks[u].SubCheck? && !s'.tasks[u].SubRead? && !s'.tasks[u].PubWrite?
    requires forall id :: !Resets(s, s', u, id)
    ensures Effects(s, s', u)
  {
    forall id | id in s.c.heap ensures Affects(s, s', u, id) {
      assert s'.c.heap[id].(waiters := s.c.heap[id].waiters) == s.c.heap[id];
      assert !Resets(s, s', u, id);
    }
  }

  predicate OnSlot(task: Task) {
    Holds(task) && !task.PubNotify?
  }

  lemma SlotEffects(s: State, u: TaskId, now: nat, s': State)
    requires Valid(s.c) && TasksHoldSlots(s) && ShutdownSlots(s) && u in s.tasks && StepTask(s, u, now, s')
    requires OnSlot(s.tasks[u])
    ensures s'.c.heap.Keys == s.c.heap.Keys
    ensures forall id | id in s.c.heap && id != s.tasks[u].id :: s'.c.heap[id] == s.c.heap[id]
    ensures u in s'.tasks && (Holds(s'.tasks[u]) ==> s'.tasks[u].id == s.tasks[u].id)
    ensures Affects(s, s', u, s.tasks[u].id)
  {
  }

  lemma OnSlotEffects(s: State, u: TaskId, now: nat, s': State)
    requires Valid(s.c) && TasksHoldSlots(s) && ShutdownSlots(s) && u in s.tasks && StepTask(s, u, now, s')
    requires OnSlot(s.tasks[u])
    ensures Effects(s, s', u)
  {
    SlotEffects(s, u, now, s');
    forall id | id in s.c.heap ensures Affects(s, s', u, id) {
      if id != s.tasks[u].id {
        assert s'.c.heap[id] == s.c.heap[id];
      }
    }
  }

  lemma NotifyEffects(s: State, u: TaskId, now: nat, s': State)
    requires Valid(s.c) && TasksHoldSlots(s) && ShutdownSlots(s) && u in s.tasks && StepTask(s, u, now, s')
    requires !Ensures(s.tasks[u]) && !OnSlot(s.tasks[u])
    ensures Effects(s, s', u)
  {
    var task := s.tasks[u];
    if task.PubNotify? {
      NotifyEvolves(s.c, task.id);
    } else if task.ShutdownNotify? && task.todo != {} {
      var id :| id in task.todo && s' == Goto(s, u, Notify(s.c, id), ShutdownNotify(task.todo - {id}));
      NotifyEvolves(s.c, id);
    }
    EvolvesEffects(s, s', u);
  }

  lemma EnsureEffects(s: State, u: TaskId, now: nat, s': State)
    requires Valid(s.c) && u in s.tasks && Ensures(s.tasks[u]) && EnsureStep(s, u, now, s')
    ensures Effects(s, s', u)
  {
    var id := EnsureMoves(s, u, now, s');
    EnsuredEvolves(s.c, s.tasks[u].key, now, s'.c, id);
    EvolvesEffects(s, s', u);
  }

  /** How a subscriber that has registered goes on. */
  predicate Subscribed(s: State, s': State, u: TaskId) {
    u in s.tasks && u in s'.tasks ==>
      match s.tasks[u]
      case SubCheck(key, id) =>
        id in s.c.heap
        && if s.c.heap[id].data.Some? then s'.tasks[u] == SubDone(key, s.c.heap[id].data) else s'.tasks[u].SubWait?
      case SubWait(key, id, _) =>
        (u in s.c.woken && s'.tasks[u] == SubRelock(key, id)) || s'.tasks[u] == SubDone(key, None)
      case SubRelock(key, id) => s'.tasks[u] == SubRead(key, id)
      case SubRead(key, id) => id in s.c.heap && s'.tasks[u] == SubDone(key, s.c.heap[id].data)
      case _ => !s'.tasks[u].SubDone?
  }

  /** Only a publisher that writes goes on to notify. */
  predicate WritesFirst(s: State, s': State, u: TaskId) {
    u in s'.tasks && s'.tasks[u].PubNotify? ==> Writes(s, s', u, s'.tasks[u].id)
  }

  lemma StepSubscribed(s: State, u: TaskId, now: nat, s': State)
    requires Valid(s.c) && TasksHoldSlots(s) && ShutdownSlots(s) && u in s.tasks && StepTask(s, u, now, s')
    requires !Ensures(s.tasks[u])
    ensures Subscribed(s, s', u) && WritesFirst(s, s', u)
  {
  }

  /** The whole effect of a step, the move of `u`. */
  predicate Moves(s: State, s': State, u: TaskId) {
    OnlyMoves(s, s', u) && Effects(s, s', u) && Subscribed(s, s', u) && WritesFirst(s, s', u)
  }

  lemma SpawnEffects(s: State, u: TaskId, task: Task, s': State)
    requires Spawn(s, u, task, s')
    ensures Moves(s, s', u)
  {
    EvolvesEffects(s, s', u);
  }

  lemma StepEffects(s: State, u: TaskId, now: nat, s': State)
    requires Valid(s.c) && TasksHoldSlots(s) && ShutdownSlots(s) && u in s.tasks && StepTask(s, u, now, s')
    ensures Moves(s, s', u)
  {
    if Ensures(s.tasks[u]) {
      var id := EnsureMoves(s, u, now, s');
      EnsureEffects(s, u, now, s');
    } else {
      StepMoves(s, u, now, s');
      StepSubscribed(s, u, now, s');
      if OnSlot(s.tasks[u]) {
        OnSlotEffects(s, u, now, s');
      } else {
        NotifyEffects(s, u, now, s');
      }
    }
  }

  /** Every step moves one task, and does to the slots what that task's move says. */
  lemma NextEffects(s: State, s': State) returns (u: TaskId)
    requires Next(s, s')
    ensures Moves(s, s', u)
  {
    if v, now :| v in s.tasks && StepTask(s, v, now, s') {
      u := v;
      StepEffects(s, v, now, s');
    } else {
      var v, task :| Spawn(s, v, task, s');
      u := v;
      SpawnEffects(s, v, task, s');
    }
  }

  // ---------------------------------------------------------------------------
  // The data lock
  // ---------------------------------------------------------------------------

  /** Whoever is between taking and dropping a slot's lock is the one the lock belongs to. */
  ghost predicate LocksHeld(s: State) {
    forall t, id | t in s.tasks && LocksOn(s.tasks[t], id) :: id in s.c.heap && s.c.heap[id].lockedBy == Some(t)
  }

  lemma LocksKept(s: State, s': State, u: TaskId)
    requires LocksHeld(s) && TasksHoldSlots(s') && Moves(s, s', u)
    ensures LocksHeld(s')
  {
    forall t, id | t in s'.tasks && LocksOn(s'.tasks[t], id) ensures id in s'.c.heap && s'.c.heap[id].lockedBy == Some(t) {
      assert Holds(s'.tasks[t]);
      if t != u {
        assert LocksOn(s.tasks[t], id);
        assert Affects(s, s', u, id);
      } else if id in s.c.heap {
        assert Affects(s, s', u, id);
      }
    }
  }

  lemma Excludes(s: State, t: TaskId, t': TaskId, id: SlotId)
    requires LocksHeld(s) && t in s.tasks && t' in s.tasks && LocksOn(s.tasks[t], id) && LocksOn(s.tasks[t'], id)
    ensures t == t'
  {
    assert s.c.heap[id].lockedBy == Some(t) && s.c.heap[id].lockedBy == Some(t');
  }

  // ---------------------------------------------------------------------------
  // Runs, as the moves of their tasks
  // ---------------------------------------------------------------------------

  ghost predicate Sound(s: State) {
    TasksHoldSlots(s) && LocksHeld(s)
  }

  /** Task `movers[k]` makes step `k`. */
  ghost predicate Trace(run: seq<State>, movers: seq<TaskId>) {
    && |run| == |movers| + 1 && run[0].c.heap == map[]
    && (forall k {:trigger movers[k]} | 0 <= k < |movers| :: Moves(run[k], run[k + 1], movers[k]))
    && (forall k {:trigger Sound(run[k])} | 0 <= k < |run| :: Sound(run[k]))
  }

  lemma SoundStep(s: State, s': State) returns (u: TaskId)
    requires Inv(s) && Next(s, s') && LocksHeld(s)
    ensures Inv(s') && Sound(s') && Moves(s, s', u)
  {
    NextKeeps(s, s');
    u := NextEffects(s, s');
    LocksKept(s, s', u);
  }

  lemma TraceLonger(run: seq<State>, movers: seq<TaskId>, s': State, u: TaskId)
    requires Trace(run, movers) && Moves(run[|run| - 1], s', u) && Sound(s')
    ensures Trace(run + [s'], movers + [u])
  {
    var run', movers' := run + [s'], movers + [u];
    forall k | 0 <= k < |movers'| ensures Moves(run'[k], run'[k + 1], movers'[k]) {
      if k < |movers| {
        assert run'[k] == run[k] && run'[k + 1] == run[k + 1] && movers'[k] == movers[k];
      }
    }
    forall k | 0 <= k < |run'| ensures Sound(run'[k]) {
      if k < |run| {
        assert Sound(run[k]);
      }
    }
  }

  lemma TraceStart(s: State)
    requires Init(s)
    ensures Trace([s], []) && Inv(s)
  {
    assert Sound([s][0]);
  }

  lemma RunFront(run: seq<State>)
    requires IsRun(run) && |run| > 1
    ensures IsRun(run[..|run| - 1]) && Next(run[|run| - 2], run[|run| - 1])
  {
    var front := run[..|run| - 1];
    forall i | 0 <= i < |front| - 1 ensures Next(front[i], front[i + 1]) {
      assert Next(run[i], run[i + 1]);
    }
    assert Next(run[|run| - 2], run[|run| - 2 + 1]);
  }

  lemma TraceNext(front: seq<State>, movers: seq<TaskId>, s': State) returns (movers': seq<TaskId>)
    requires Trace(front, movers) && Inv(front[|front| - 1]) && Next(front[|front| - 1], s')
    ensures Trace(front + [s'], movers') && Inv(s')
  {
    var s := front[|front| - 1];
    assert Sound(s);
    var u := SoundStep(s, s');
    TraceLonger(front, movers, s', u);
    movers' := movers + [u];
  }

  lemma {:induction false} Traced(run: seq<State>) returns (movers: seq<TaskId>)
    requires IsRun(run)
    ensures Trace(run, movers) && Inv(run[|run| - 1])
    decreases |run|
  {
    if |run| == 1 {
      assert run == [run[0]];
      TraceStart(run[0]);
      movers := [];
    } else {
      RunFront(run);
      var front, s' := run[..|run| - 1], run[|run| - 1];
      assert front[|front| - 1] == run[|run| - 2];
      movers := Traced(front);
      movers := TraceNext(front, movers, s');
      assert front + [s'] == run;
    }
  }

  /** In every run: no two tasks are inside the lock of one slot at the same time. */
  lemma LockExcludes(run: seq<State>, i: nat, t: TaskId, t': TaskId, id: SlotId)
    requires IsRun(run) && i < |run| && t in run[i].tasks && t' in run[i].tasks
    requires LocksOn(run[i].tasks[t], id) && LocksOn(run[i].tasks[t'], id)
    ensures t == t'
  {
    var s := run[i];
    var movers := Traced(run);
    assert Sound(run[i]);
    Excludes(s, t, t', id);
  }

  // ---------------------------------------------------------------------------
  // The last write
  // ---------------------------------------------------------------------------

  predicate WritesAt(run: seq<State>, k: nat, u: TaskId, id: SlotId) {
    k + 1 < |run| && Writes(run[k], run[k + 1], u, id)
  }

  predicate ResetsAt(run: seq<State>, k: nat, u: TaskId, id: SlotId) {
    k + 1 < |run| && Resets(run[k], run[k + 1], u, id)
  }

  /** From step `a` up to step `b` nobody writes the slot and nobody clears it. */
  ghost predicate Untouched(run: seq<State>, a: nat, b: nat, id: SlotId) {
    && (forall k, u | a <= k < b :: !WritesAt(run, k, u, id))
    && (forall k, u | a <= k < b :: !ResetsAt(run, k, u, id))
  }

  /** Step `k` of `p` was the last to write the slot before `i`, and nothing cleared it since. */
  ghost predicate LastWrite(run: seq<State>, k: nat, p: TaskId, i: nat, id: SlotId) {
    k < i < |run| && WritesAt(run, k, p, id) && Untouched(run, k + 1, i, id)
  }

  lemma TracedUntouched(run: seq<State>, i: nat, t: TaskId, id: SlotId)
    requires i < |run| && LocksHeld(run[i]) && t in run[i].tasks && LocksOn(run[i].tasks[t], id) && !run[i].tasks[t].PubWrite?
    ensures Untouched(run, i, i + 1, id)
  {
    var s := run[i];
    forall u | u in s.tasks && LocksOn(s.tasks[u], id) ensures u == t {
      Excludes(s, t, u, id);
    }
  }

  /** In every run: while a subscriber is inside the lock, nobody writes the slot and nobody clears it. */
  lemma LockedUntouched(run: seq<State>, i: nat, t: TaskId, id: SlotId)
    requires IsRun(run) && i < |run| && t in run[i].tasks && LocksOn(run[i].tasks[t], id) && !run[i].tasks[t].PubWrite?
    ensures Untouched(run, i, i + 1, id)
  {
    var movers := Traced(run);
    assert Sound(run[i]);
    TracedUntouched(run, i, t, id);
  }

  lemma StepData(s: State, s': State, u: TaskId, id: SlotId)
    requires Moves(s, s', u) && TasksHoldSlots(s) && id in s'.c.heap
    ensures forall v :: Writes(s, s', v, id) ==> id in s.c.heap && s'.c.heap[id].data == Some(s.tasks[v].summary)
    ensures forall v :: Resets(s, s', v, id) ==> s'.c.heap[id].data == None
    ensures id in s.c.heap && !Writes(s, s', u, id) && !Resets(s, s', u, id) ==> s'.c.heap[id].data == s.c.heap[id].data
    ensures id !in s.c.heap ==> s'.c.heap[id].data == None
  {
    if id in s.c.heap {
      assert Affects(s, s', u, id);
    }
    forall v | Writes(s, s', v, id) ensures v == u && id in s.c.heap {
      assert Holds(s.tasks[v]);
    }
  }

  /** What a step leaves in a slot. */
  lemma DataStep(run: seq<State>, movers: seq<TaskId>, k: nat, id: SlotId)
    requires Trace(run, movers) && k < |movers| && id in run[k + 1].c.heap
    ensures forall v :: WritesAt(run, k, v, id) ==> id in run[k].c.heap && run[k + 1].c.heap[id].data == Some(run[k].tasks[v].summary)
    ensures forall v :: ResetsAt(run, k, v, id) ==> run[k + 1].c.heap[id].data == None
    ensures var u := movers[k];
            id in run[k].c.heap && !WritesAt(run, k, u, id) && !ResetsAt(run, k, u, id) ==>
              run[k + 1].c.heap[id].data == run[k].c.heap[id].data
    ensures id !in run[k].c.heap ==> run[k + 1].c.heap[id].data == None
  {
    assert Sound(run[k]);
    StepData(run[k], run[k + 1], movers[k], id);
  }

  lemma {:induction false} SlotStays(run: seq<State>, movers: seq<TaskId>, a: nat, b: nat, id: SlotId)
    requires Trace(run, movers) && a <= b < |run| && id in run[a].c.heap
    ensures id in run[b].c.heap
    decreases b
  {
    if a < b {
      SlotStays(run, movers, a, b - 1, id);
      assert Affects(run[b - 1], run[b], movers[b - 1], id);
    }
  }

  /** Between writes and resets a slot keeps what it holds. */
  lemma {:induction false} DataStays(run: seq<State>, movers: seq<TaskId>, a: nat, b: nat, id: SlotId)
    requires Trace(run, movers) && a <= b < |run| && id in run[a].c.heap && Untouched(run, a, b, id)
    ensures id in run[b].c.heap && run[b].c.heap[id].data == run[a].c.heap[id].data
    decreases b
  {
    if a < b {
      DataStays(run, movers, a, b - 1, id);
      SlotStays(run, movers, a, b, id);
      DataStep(run, movers, b - 1, id);
    }
  }

  lemma WrittenIsHeld(run: seq<State>, movers: seq<TaskId>, k: nat, p: TaskId, i: nat, id: SlotId)
    requires Trace(run, movers) && LastWrite(run, k, p, i, id)
    ensures id in run[i].c.heap && run[i].c.heap[id].data == Some(run[k].tasks[p].summary)
  {
    assert Sound(run[k]) && Holds(run[k].tasks[p]);
    SlotStays(run, movers, k, k + 1, id);
    DataStep(run, movers, k, id);
    DataStays(run, movers, k + 1, i, id);
  }

  lemma {:induction false} HeldWasWritten(run: seq<State>, movers: seq<TaskId>, i: nat, id: SlotId) returns (k: nat, p: TaskId)
    requires Trace(run, movers) && i < |run| && id in run[i].c.heap && run[i].c.heap[id].data.Some?
    ensures LastWrite(run, k, p, i, id) && run[i].c.heap[id].data == Some(run[k].tasks[p].summary)
    decreases i
  {
    var last := i - 1;
    DataStep(run, movers, last, id);
    if v :| WritesAt(run, last, v, id) {
      k, p := last, v;
    } else {
      k, p := HeldWasWritten(run, movers, last, id);
    }
  }

  ghost predicate Written(run: seq<State>, i: nat, id: SlotId, x: Summary) {
    exists k: nat, p: TaskId :: LastWrite(run, k, p, i, id) && run[k].tasks[p].summary == x
  }

  lemma TracedHolds(run: seq<State>, movers: seq<TaskId>, i: nat, id: SlotId, x: Summary)
    requires Trace(run, movers) && i < |run| && id in run[i].c.heap
    ensures run[i].c.heap[id].data == Some(x) <==> Written(run, i, id, x)
  {
    if run[i].c.heap[id].data == Some(x) {
      var k, p := HeldWasWritten(run, movers, i, id);
    }
    if Written(run, i, id, x) {
      var k: nat, p: TaskId :| LastWrite(run, k, p, i, id) && run[k].tasks[p].summary == x;
      WrittenIsHeld(run, movers, k, p, i, id);
    }
  }

  /** In every run: a slot holds a result exactly if some publisher wrote it and since then nobody else wrote and no
      retried request cleared the slot. */
  lemma HoldsExactly(run: seq<State>, i: nat, id: SlotId, x: Summary)
    requires IsRun(run) && i < |run| && id in run[i].c.heap
    ensures run[i].c.heap[id].data == Some(x) <==> Written(run, i, id, x)
  {
    var movers := Traced(run);
    TracedHolds(run, movers, i, id, x);
  }

  // ---------------------------------------------------------------------------
  // The result of a subscription
  // ---------------------------------------------------------------------------

  /** The subscription of `t` ends in step `i`. */
  predicate Ends(run: seq<State>, i: nat, t: TaskId) {
    && i + 1 < |run| && t in run[i].tasks && !run[i].tasks[t].SubDone?
    && t in run[i + 1].tasks && run[i + 1].tasks[t].SubDone?
  }

  predicate TimesOut(run: seq<State>, i: nat, t: TaskId) {
    Ends(run, i, t) && run[i].tasks[t].SubWait?
  }

  /** The task is inside the lock of its slot, and this is what the slot holds. */
  predicate Reading(s: State, t: TaskId, held: Option<Summary>) {
    && t in s.tasks && (s.tasks[t].SubCheck? || s.tasks[t].SubRead?)
    && var id := s.tasks[t].id;
       && id in s.c.heap && s.c.heap[id].lockedBy == Some(t) && s.c.heap[id].key == s.tasks[t].key
       && s.c.heap[id].data == held
  }

  lemma StepReturns(s: State, s': State, t: TaskId, u: TaskId)
    requires Sound(s) && Moves(s, s', u) && t in s.tasks && !s.tasks[t].SubDone? && t in s'.tasks && s'.tasks[t].SubDone?
    ensures s.tasks[t].SubWait? || Reading(s, t, s'.tasks[t].result)
    ensures s.tasks[t].SubWait? ==> s'.tasks[t] == SubDone(s.tasks[t].key, None)
    ensures (s.tasks[t].SubCheck? || s.tasks[t].SubRead?) ==> s'.tasks[t].key == s.tasks[t].key
  {
    assert u == t;
    assert s.tasks[t].SubCheck? || s.tasks[t].SubRead? ==> LocksOn(s.tasks[t], s.tasks[t].id) && Holds(s.tasks[t]);
  }

  /** In every run: a subscription that ends either timed out, with nothing, or its task was inside the lock of its slot
      and returns what the slot held there and then: the last result written there that was not cleared since. */
  lemma Returned(run: seq<State>, i: nat, t: TaskId, x: Summary)
    requires IsRun(run) && Ends(run, i, t)
    ensures TimesOut(run, i, t) ==> run[i + 1].tasks[t] == SubDone(run[i].tasks[t].key, None)
    ensures !TimesOut(run, i, t) ==>
              && Reading(run[i], t, run[i + 1].tasks[t].result) && run[i + 1].tasks[t].key == run[i].tasks[t].key
              && (run[i + 1].tasks[t].result == Some(x) <==> Written(run, i, run[i].tasks[t].id, x))
  {
    var movers := Traced(run);
    TracedReturns(run, movers, i, t, x);
  }

  lemma TracedReturns(run: seq<State>, movers: seq<TaskId>, i: nat, t: TaskId, x: Summary)
    requires Trace(run, movers) && Ends(run, i, t)
    ensures TimesOut(run, i, t) ==> run[i + 1].tasks[t] == SubDone(run[i].tasks[t].key, None)
    ensures !TimesOut(run, i, t) ==>
              && Reading(run[i], t, run[i + 1].tasks[t].result) && run[i + 1].tasks[t].key == run[i].tasks[t].key
              && (run[i + 1].tasks[t].result == Some(x) <==> Written(run, i, run[i].tasks[t].id, x))
  {
    assert Sound(run[i]);
    StepReturns(run[i], run[i + 1], t, movers[i]);
    if !TimesOut(run, i, t) {
      TracedHolds(run, movers, i, run[i].tasks[t].id, x);
    }
  }

  // ---------------------------------------------------------------------------
  // From one publisher to one subscriber
  // ---------------------------------------------------------------------------

  predicate Delivered(s: State, p: TaskId, w: Task, x: Summary)
    requires w.SubWait?
  {
    && (At(s, p, PubNotify(w.key, w.id)) || At(s, p, Finished))
    && w.id in s.c.heap && s.c.heap[w.id].data == Some(x)
  }

  /** The publisher of `x` is on its way to the subscriber's slot, or has written it. */
  predicate OnTrack(s: State, p: TaskId, w: Task, x: Summary)
    requires w.SubWait?
  {
    || At(s, p, PubEnsure(w.key, x)) || At(s, p, PubLock(w.key, w.id, x)) || At(s, p, PubWrite(w.key, w.id, x))
    || Delivered(s, p, w, x)
  }

  predicate OthersQuiet(s: State, p: TaskId, id: SlotId) {
    forall q | q in s.tasks && q != p :: !(s.tasks[q].PubNotify? && s.tasks[q].id == id)
  }

  ghost predicate StepsAlone(s: State, s': State, p: TaskId, id: SlotId) {
    (forall u | u != p :: !Writes(s, s', u, id)) && (forall u | u != p :: !Resets(s, s', u, id))
  }

  /** From step `a` up to step `b` nobody but `p` writes the slot and nobody clears it. */
  ghost predicate OnlyWriter(run: seq<State>, a: nat, b: nat, p: TaskId, id: SlotId) {
    && (forall k, u | a <= k < b && u != p :: !WritesAt(run, k, u, id))
    && (forall k, u | a <= k < b && u != p :: !ResetsAt(run, k, u, id))
  }

  lemma DeliveredStays(s: State, s': State, u: TaskId, p: TaskId, w: Task, x: Summary)
    requires Moves(s, s', u) && TasksHoldSlots(s) && w.SubWait? && Delivered(s, p, w, x) && StepsAlone(s, s', p, w.id)
    ensures Delivered(s', p, w, x)
  {
    assert Affects(s, s', u, w.id);
    StepData(s, s', u, w.id);
  }

  lemma PublisherMoves(s: State, s': State, u: TaskId, p: TaskId, w: Task, x: Summary)
    requires Moves(s, s', u) && TasksHoldSlots(s) && w.SubWait? && OnTrack(s, p, w, x) && StepsAlone(s, s', p, w.id)
    requires At(s, p, PubEnsure(w.key, x)) ==> OnTrack(s', p, w, x)
    ensures OnTrack(s', p, w, x)
  {
    if Delivered(s, p, w, x) {
      DeliveredStays(s, s', u, p, w, x);
    } else if u == p && At(s, p, PubWrite(w.key, w.id, x)) {
      assert Holds(s.tasks[p]);
      assert Affects(s, s', u, w.id) && Writes(s, s', p, w.id);
      StepData(s, s', u, w.id);
    }
  }

  lemma StaysQuiet(s: State, s': State, u: TaskId, p: TaskId, id: SlotId)
    requires Moves(s, s', u) && OthersQuiet(s, p, id) && StepsAlone(s, s', p, id)
    ensures OthersQuiet(s', p, id)
  {
  }

  lemma Started(s: State, s': State, t: TaskId, p: TaskId, w: Task, x: Summary)
    requires Inv(s) && Next(s, s') && w.SubWait? && w.reachable && At(s, t, w) && t !in s.c.woken
    requires At(s, p, PubEnsure(w.key, x)) && !NotifyPending(s, w.id)
    ensures OnTrack(s', p, w, x)
  {
    var u, now, id := NextMoves(s, s');
    StartedBy(s, s', u, now, id, t, p, w, x);
  }

  lemma StartedBy(s: State, s': State, u: TaskId, now: nat, id: SlotId, t: TaskId, p: TaskId, w: Task, x: Summary)
    requires OnlyMoves(s, s', u) && GivenSlot(s, s', u, now, id)
    requires Inv(s) && w.SubWait? && w.reachable && At(s, t, w) && t !in s.c.woken
    requires At(s, p, PubEnsure(w.key, x)) && !NotifyPending(s, w.id)
    ensures At(s', p, PubEnsure(w.key, x)) || At(s', p, PubLock(w.key, w.id, x))
  {
    if u == p {
      ReachesExactly(s, t, now, s'.c, id);
    }
  }

  lemma TrackStep(s: State, s': State, t: TaskId, p: TaskId, w: Task, x: Summary)
    requires Inv(s) && Next(s, s') && w.SubWait? && w.reachable && At(s, t, w) && t !in s.c.woken
    requires OnTrack(s, p, w, x) && OthersQuiet(s, p, w.id) && StepsAlone(s, s', p, w.id)
    ensures OnTrack(s', p, w, x) && OthersQuiet(s', p, w.id)
  {
    var u := NextEffects(s, s');
    StaysQuiet(s, s', u, p, w.id);
    if At(s, p, PubEnsure(w.key, x)) {
      assert !NotifyPending(s, w.id);
      Started(s, s', t, p, w, x);
    }
    PublisherMoves(s, s', u, p, w, x);
  }

  lemma {:induction false} UnwokenBefore(run: seq<State>, movers: seq<TaskId>, i: nat, j: nat, t: TaskId)
    requires Trace(run, movers) && i <= j < |run| && t !in run[j].c.woken
    ensures t !in run[i].c.woken
    decreases j
  {
    if i < j {
      assert OnlyMoves(run[j - 1], run[j], movers[j - 1]);
      UnwokenBefore(run, movers, i, j - 1, t);
    }
  }

  ghost predicate Tracked(s: State, p: TaskId, w: Task, x: Summary)
    requires w.SubWait?
  {
    OnTrack(s, p, w, x) && OthersQuiet(s, p, w.id)
  }

  lemma TrackedAt(run: seq<State>, k: nat, t: TaskId, p: TaskId, w: Task, x: Summary)
    requires IsRun(run) && k + 1 < |run| && w.SubWait? && w.reachable && At(run[k], t, w) && t !in run[k].c.woken
    requires Tracked(run[k], p, w, x) && OnlyWriter(run, k, k + 1, p, w.id)
    ensures Tracked(run[k + 1], p, w, x)
  {
    var s, s' := run[k], run[k + 1];
    assert Next(s, s');
    RunKeeps(run, k);
    assert StepsAlone(s, s', p, w.id) by {
      forall u | u != p ensures !Writes(s, s', u, w.id) && !Resets(s, s', u, w.id) {
        assert !WritesAt(run, k, u, w.id) && !ResetsAt(run, k, u, w.id);
      }
    }
    TrackStep(s, s', t, p, w, x);
  }

  lemma {:induction false} StaysTracked(run: seq<State>, i: nat, j: nat, p: TaskId, w: Task, x: Summary)
    requires i <= j < |run| && w.SubWait? && Tracked(run[i], p, w, x)
    requires forall k | i <= k < j :: Tracked(run[k], p, w, x) ==> Tracked(run[k + 1], p, w, x)
    ensures Tracked(run[j], p, w, x)
    decreases j
  {
    if i < j {
      StaysTracked(run, i, j - 1, p, w, x);
      assert Tracked(run[j - 1], p, w, x) ==> Tracked(run[j - 1 + 1], p, w, x);
    }
  }

  lemma {:induction false} StaysDelivered(run: seq<State>, movers: seq<TaskId>, j: nat, n: nat, p: TaskId, w: Task, x: Summary)
    requires Trace(run, movers) && j <= n < |run| && w.SubWait? && Delivered(run[j], p, w, x) && OnlyWriter(run, j, n, p, w.id)
    ensures Delivered(run[n], p, w, x)
    decreases n
  {
    if j < n {
      StaysDelivered(run, movers, j, n - 1, p, w, x);
      var s, s', k := run[n - 1], run[n], n - 1;
      assert Sound(run[k]);
      assert StepsAlone(s, s', p, w.id) by {
        forall u | u != p ensures !Writes(s, s', u, w.id) && !Resets(s, s', u, w.id) {
          assert !WritesAt(run, k, u, w.id) && !ResetsAt(run, k, u, w.id);
        }
      }
      DeliveredStays(s, s', movers[k], p, w, x);
    }
  }

  /** A subscriber that waited on its slot stays with it until it is done. */
  predicate StaysWith(s: State, t: TaskId, w: Task)
    requires w.SubWait?
  {
    At(s, t, w) || At(s, t, SubRelock(w.key, w.id)) || At(s, t, SubRead(w.key, w.id)) || (t in s.tasks && s.tasks[t].SubDone?)
  }

  lemma StaysWithStep(s: State, s': State, u: TaskId, t: TaskId, w: Task)
    requires Moves(s, s', u) && w.SubWait? && StaysWith(s, t, w)
    ensures StaysWith(s', t, w)
  {
  }

  lemma {:induction false} StaysWithIt(run: seq<State>, movers: seq<TaskId>, j: nat, n: nat, t: TaskId, w: Task)
    requires Trace(run, movers) && j <= n < |run| && w.SubWait? && At(run[j], t, w)
    ensures StaysWith(run[n], t, w)
    decreases n
  {
    if j < n {
      StaysWithIt(run, movers, j, n - 1, t, w);
      StaysWithStep(run[n - 1], run[n], movers[n - 1], t, w);
    }
  }

  lemma DeliveredIsReturned(run: seq<State>, movers: seq<TaskId>, j: nat, n: nat, t: TaskId, p: TaskId, w: Task, x: Summary)
    requires Trace(run, movers) && j <= n && Ends(run, n, t) && w.SubWait? && At(run[j], t, w)
    requires Delivered(run[j], p, w, x) && OnlyWriter(run, j, n, p, w.id)
    ensures TimesOut(run, n, t) || run[n + 1].tasks[t] == SubDone(w.key, Some(x))
  {
    StaysWithIt(run, movers, j, n, t, w);
    StaysDelivered(run, movers, j, n, p, w, x);
    assert Sound(run[n]);
    StepReturns(run[n], run[n + 1], t, movers[n]);
  }

  lemma PublishedIsDelivered(run: seq<State>, i: nat, j: nat, t: TaskId, p: TaskId, w: Task, x: Summary)
    requires IsRun(run) && i <= j < |run| && w.SubWait? && At(run[i], t, w) && At(run[j], t, w) && t !in run[j].c.woken
    requires w.reachable && !NotifyPending(run[i], w.id) && OnlyWriter(run, i, j, p, w.id)
    requires At(run[i], p, PubEnsure(w.key, x)) && p in run[j].tasks && run[j].tasks[p].PubNotify?
    ensures Delivered(run[j], p, w, x)
  {
    var movers := Traced(run);
    assert Tracked(run[i], p, w, x);
    forall k | i <= k < j ensures Tracked(run[k], p, w, x) ==> Tracked(run[k + 1], p, w, x) {
      WaitedOn(run, i, k, j, t, w);
      UnwokenBefore(run, movers, k, j, t);
      if Tracked(run[k], p, w, x) {
        TrackedAt(run, k, t, p, w, x);
      }
    }
    StaysTracked(run, i, j, p, w, x);
  }

  /** In every run: a reachable subscriber waits, nobody is about to notify its slot, and a publish on its key begins. If
      nobody else writes or clears that slot, and the subscriber is still waiting when the publisher has written, then
      its subscription can only time out or return exactly the published result. */
  lemma PublishDelivers(run: seq<State>, i: nat, j: nat, n: nat, t: TaskId, p: TaskId, w: Task, x: Summary)
    requires IsRun(run) && i <= j <= n && Ends(run, n, t)
    requires w.SubWait? && At(run[i], t, w) && At(run[j], t, w) && t !in run[j].c.woken
    requires w.reachable && !NotifyPending(run[i], w.id) && OnlyWriter(run, i, n, p, w.id)
    requires At(run[i], p, PubEnsure(w.key, x)) && p in run[j].tasks && run[j].tasks[p].PubNotify?
    ensures TimesOut(run, n, t) || run[n + 1].tasks[t] == SubDone(w.key, Some(x))
  {
    PublishedIsDelivered(run, i, j, t, p, w, x);
    var movers := Traced(run);
    DeliveredIsReturned(run, movers, j, n, t, p, w, x);
  }
}
