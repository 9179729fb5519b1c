/** What a whole publish does for a subscriber that was already waiting when it began. */
module RelayDelivery {
  import opened RelayProtocol
  import opened ResultChannel

  // ---------------------------------------------------------------------------
  // What a step does to the tasks
  // ---------------------------------------------------------------------------

  predicate At(s: State, t: TaskId, task: Task) {
    t in s.tasks && s.tasks[t] == task
  }

  predicate IsPast(task: Task) {
    task.SubRelock? || task.SubRead? || task.SubDone?
  }

  predicate Past(s: State, t: TaskId) {
    t in s.tasks && IsPast(s.tasks[t])
  }

  predicate Ensures(task: Task) {
    task.SubEnsure? || task.PubEnsure? || task.CreateEnsure?
  }

  /** How waiting subscribers and publishers move on. */
  predicate Moved(task: Task, task': Task) {
    match task
    case SubWait(_, _, _) => IsPast(task')
    case SubRelock(_, _) | SubRead(_, _) => IsPast(task')
    case PubLock(key, id, summary) => task' == PubWrite(key, id, summary)
    case PubWrite(key, id, _) => task' == PubNotify(key, id)
    case PubNotify(_, _) => task' == Finished
    case SubDone(_, _) | Finished => false
    case _ => true
  }

  lemma EnsureMoves(s: State, u: TaskId, now: nat, s': State) returns (id: SlotId)
    requires Valid(s.c) && u in s.tasks && Ensures(s.tasks[u]) && EnsureStep(s, u, now, s')
    ensures Ensured(s.c, s.tasks[u].key, now, s'.c, id) && s' == Goto(s, u, s'.c, AfterEnsure(s.tasks[u], id))
    ensures s.c.woken <= s'.c.woken
  {
    id :| Ensured(s.c, s.tasks[u].key, now, s'.c, id) && s' == Goto(s, u, s'.c, AfterEnsure(s.tasks[u], id));
    EnsuredEvolves(s.c, s.tasks[u].key, now, s'.c, id);
  }

  lemma StepMoves(s: State, u: TaskId, now: nat, s': State)
    requires Valid(s.c) && TasksHoldSlots(s) && ShutdownSlots(s) && u in s.tasks && StepTask(s, u, now, s')
    requires !Ensures(s.tasks[u])
    ensures u in s'.tasks && Moved(s.tasks[u], s'.tasks[u]) && s'.tasks == s.tasks[u := s'.tasks[u]]
    ensures s.c.woken <= s'.c.woken
    ensures s.tasks[u].PubNotify? ==> s.tasks[u].id in s.c.heap && s'.c == Notify(s.c, s.tasks[u].id)
  {
  }

  /** The step as others see it: one task moves, the rest stay where they are. */
  predicate OnlyMoves(s: State, s': State, u: TaskId) {
    && u in s'.tasks && s'.tasks == s.tasks[u := s'.tasks[u]] && s.c.woken <= s'.c.woken
    && (u in s.tasks ==> Moved(s.tasks[u], s'.tasks[u]))
  }

  ghost predicate Notifies(s: State, s': State, u: TaskId) {
    u in s.tasks && s.tasks[u].PubNotify? ==> s.tasks[u].id in s.c.heap && s'.c == Notify(s.c, s.tasks[u].id)
  }

  ghost predicate GivenSlot(s: State, s': State, u: TaskId, now: nat, id: SlotId) {
    u in s.tasks && s.tasks[u].PubEnsure? ==>
      && Valid(s.c) && Ensured(s.c, s.tasks[u].key, now, s'.c, id)
      && At(s', u, PubLock(s.tasks[u].key, id, s.tasks[u].summary))
  }

  lemma NextMoves(s: State, s': State) returns (u: TaskId, now: nat, id: SlotId)
    requires Next(s, s')
    ensures OnlyMoves(s, s', u) && Notifies(s, s', u) && GivenSlot(s, s', u, now, id)
  {
    if v, time :| v in s.tasks && StepTask(s, v, time, s') {
      u, now, id := v, time, 0;
      if Ensures(s.tasks[u]) {
        id := EnsureMoves(s, u, now, s');
      } else {
        StepMoves(s, u, now, s');
      }
    } else {
      var v, task :| Spawn(s, v, task, s');
      u, now, id := v, 0, 0;
    }
  }

  // ---------------------------------------------------------------------------
  // Waiting, and no longer waiting
  // ---------------------------------------------------------------------------

  lemma WaitsOn(s: State, s': State, t: TaskId)
    requires Next(s, s') && t in s.tasks
    ensures s.tasks[t].SubWait? ==> At(s', t, s.tasks[t]) || Past(s', t)
    ensures Past(s, t) ==> Past(s', t)
  {
    var u, now, id := NextMoves(s, s');
  }

  lemma {:induction false} PastForGood(run: seq<State>, i: nat, j: nat, t: TaskId)
    requires IsRun(run) && i <= j < |run| && Past(run[i], t)
    ensures Past(run[j], t)
    decreases j - i
  {
    if i < j {
      WaitsOn(run[i], run[i + 1], t);
      PastForGood(run, i + 1, j, t);
    }
  }

  /** A subscriber that waits at both ends waited all the time. */
  lemma {:induction false} WaitedOn(run: seq<State>, i: nat, k: nat, j: nat, t: TaskId, w: Task)
    requires IsRun(run) && i <= k <= j < |run| && w.SubWait? && At(run[i], t, w) && At(run[j], t, w)
    ensures At(run[k], t, w)
    decreases k - i
  {
    if i < k {
      WaitsOn(run[i], run[i + 1], t);
      if Past(run[i + 1], t) {
        PastForGood(run, i + 1, j, t);
      }
      WaitedOn(run, i + 1, k, j, t, w);
    }
  }

  // ---------------------------------------------------------------------------
  // A reachable subscriber is woken
  // ---------------------------------------------------------------------------

  predicate Publishing(s: State, p: TaskId, id: SlotId) {
    p in s.tasks && (s.tasks[p].PubLock? || s.tasks[p].PubWrite?) && s.tasks[p].id == id
  }

  predicate Starting(s: State, p: TaskId, key: Key) {
    p in s.tasks && s.tasks[p].PubEnsure? && s.tasks[p].key == key
  }

  /** The subscriber has been woken, is about to be, or the publisher is on its way to the slot. */
  ghost predicate OnItsWay(s: State, t: TaskId, p: TaskId, w: Task)
    requires w.SubWait?
  {
    t in s.c.woken || NotifyPending(s, w.id) || Starting(s, p, w.key) || Publishing(s, p, w.id)
  }

  /** A notification on the slot of an unwoken waiter wakes it. */
  lemma NotifiedWakes(s: State, t: TaskId, w: Task)
    requires Inv(s) && w.SubWait? && At(s, t, w)
    ensures w.id in s.c.heap && t in Notify(s.c, w.id).woken
  {
    assert Registered(s.tasks[t]);
  }

  lemma PendingStep(s: State, s': State, u: TaskId, t: TaskId, id: SlotId)
    requires OnlyMoves(s, s', u) && Notifies(s, s', u) && NotifyPending(s, id)
    requires id in s.c.heap && t in Notify(s.c, id).woken
    ensures t in s'.c.woken || NotifyPending(s', id)
  {
    if !(u in s.tasks && s.tasks[u].PubNotify? && s.tasks[u].id == id) {
      var q :| q in s.tasks && s.tasks[q].PubNotify? && s.tasks[q].id == id;
      assert At(s', q, s.tasks[q]);
    }
  }

  lemma StartStep(s: State, s': State, u: TaskId, now: nat, id: SlotId, t: TaskId, p: TaskId, w: Task)
    requires OnlyMoves(s, s', u) && GivenSlot(s, s', u, now, id)
    requires Inv(s) && w.SubWait? && w.reachable && At(s, t, w) && t !in s.c.woken
    requires Starting(s, p, w.key) && !NotifyPending(s, w.id)
    ensures Starting(s', p, w.key) || Publishing(s', p, w.id)
  {
    if u == p {
      ReachesExactly(s, t, now, s'.c, id);
    }
  }

  lemma PublishingStep(s: State, s': State, u: TaskId, p: TaskId, id: SlotId)
    requires OnlyMoves(s, s', u) && Publishing(s, p, id)
    ensures Publishing(s', p, id) || NotifyPending(s', id)
  {
    if u == p && s.tasks[p].PubWrite? {
      assert p in s'.tasks && s'.tasks[p].PubNotify? && s'.tasks[p].id == id;
    }
  }

  lemma OnItsWayStep(s: State, s': State, t: TaskId, p: TaskId, w: Task)
    requires Inv(s) && Next(s, s') && w.SubWait? && w.reachable && At(s, t, w) && OnItsWay(s, t, p, w)
    ensures OnItsWay(s', t, p, w)
  {
    var u, now, id := NextMoves(s, s');
    if t in s.c.woken {
    } else if NotifyPending(s, w.id) {
      NotifiedWakes(s, t, w);
      PendingStep(s, s', u, t, w.id);
    } else if Starting(s, p, w.key) {
      StartStep(s, s', u, now, id, t, p, w);
    } else {
      PublishingStep(s, s', u, p, w.id);
    }
  }

  lemma OnItsWayAt(run: seq<State>, k: nat, t: TaskId, p: TaskId, w: Task)
    requires IsRun(run) && k + 1 < |run| && w.SubWait? && w.reachable && At(run[k], t, w) && OnItsWay(run[k], t, p, w)
    ensures OnItsWay(run[k + 1], t, p, w)
  {
    var s, s' := run[k], run[k + 1];
    assert Next(s, s');
    RunKeeps(run, k);
    OnItsWayStep(s, s', t, p, w);
  }

  lemma {:induction false} StaysOnItsWay(run: seq<State>, i: nat, j: nat, t: TaskId, p: TaskId, w: Task)
    requires i <= j < |run| && w.SubWait? && OnItsWay(run[i], t, p, w)
    requires forall k | i <= k < j :: OnItsWay(run[k], t, p, w) ==> OnItsWay(run[k + 1], t, p, w)
    ensures OnItsWay(run[j], t, p, w)
    decreases j
  {
    if i < j {
      StaysOnItsWay(run, i, j - 1, t, p, w);
      assert OnItsWay(run[j - 1], t, p, w) ==> OnItsWay(run[j - 1 + 1], t, p, w);
    }
  }

  /** In every run: when a publish that began after a reachable subscriber had started to wait is finished, the
      subscriber, if it still waits, has been woken, or another publisher wrote its slot and is about to wake it. */
  lemma PublishWakes(run: seq<State>, i: nat, j: nat, t: TaskId, p: TaskId, w: Task)
    requires IsRun(run) && i <= j < |run| && w.SubWait? && At(run[i], t, w) && At(run[j], t, w)
    requires Starting(run[i], p, w.key) && At(run[j], p, Finished)
    requires w.reachable
    ensures t in run[j].c.woken || NotifyPending(run[j], w.id)
  {
    forall k | i <= k < j ensures OnItsWay(run[k], t, p, w) ==> OnItsWay(run[k + 1], t, p, w) {
      WaitedOn(run, i, k, j, t, w);
      if OnItsWay(run[k], t, p, w) {
        OnItsWayAt(run, k, t, p, w);
      }
    }
    StaysOnItsWay(run, i, j, t, p, w);
  }

  // ---------------------------------------------------------------------------
  // An unreachable one is not
  // ---------------------------------------------------------------------------

  /** The publisher has not started, is finished, or holds another slot. */
  predicate Elsewhere(s: State, t: TaskId, p: TaskId, w: Task)
    requires w.SubWait?
  {
    || t in s.c.woken || Starting(s, p, w.key) || At(s, p, Finished)
    || (p in s.tasks && (s.tasks[p].PubLock? || s.tasks[p].PubWrite? || s.tasks[p].PubNotify?) && s.tasks[p].id != w.id)
  }

  lemma ElsewhereStep(s: State, s': State, t: TaskId, p: TaskId, w: Task)
    requires Inv(s) && Next(s, s') && w.SubWait? && !w.reachable && At(s, t, w) && Elsewhere(s, t, p, w)
    ensures Elsewhere(s', t, p, w)
  {
    var u, now, id := NextMoves(s, s');
    if t !in s.c.woken && u == p && Starting(s, p, w.key) {
      ReachesExactly(s, t, now, s'.c, id);
    } else {
      ElsewhereMove(s, s', u, t, p, w);
    }
  }

  lemma ElsewhereMove(s: State, s': State, u: TaskId, t: TaskId, p: TaskId, w: Task)
    requires OnlyMoves(s, s', u) && w.SubWait? && Elsewhere(s, t, p, w)
    requires t in s.c.woken || u != p || !Starting(s, p, w.key)
    ensures Elsewhere(s', t, p, w)
  {
  }

  lemma ElsewhereAt(run: seq<State>, k: nat, t: TaskId, p: TaskId, w: Task)
    requires IsRun(run) && k + 1 < |run| && w.SubWait? && !w.reachable && At(run[k], t, w) && Elsewhere(run[k], t, p, w)
    ensures Elsewhere(run[k + 1], t, p, w)
  {
    var s, s' := run[k], run[k + 1];
    assert Next(s, s');
    RunKeeps(run, k);
    ElsewhereStep(s, s', t, p, w);
  }

  lemma {:induction false} StaysElsewhere(run: seq<State>, i: nat, j: nat, t: TaskId, p: TaskId, w: Task)
    requires i <= j < |run| && w.SubWait? && Elsewhere(run[i], t, p, w)
    requires forall k | i <= k < j :: Elsewhere(run[k], t, p, w) ==> Elsewhere(run[k + 1], t, p, w)
    ensures Elsewhere(run[j], t, p, w)
    decreases j
  {
    if i < j {
      StaysElsewhere(run, i, j - 1, t, p, w);
      assert Elsewhere(run[j - 1], t, p, w) ==> Elsewhere(run[j - 1 + 1], t, p, w);
    }
  }

  /** In every run: the notification of such a publish wakes a waiting subscriber only if it is reachable. */
  lemma PublishWakesOnlyReachable(run: seq<State>, i: nat, j: nat, t: TaskId, p: TaskId, w: Task)
    requires IsRun(run) && i <= j < |run| - 1 && w.SubWait? && At(run[i], t, w) && At(run[j], t, w)
    requires Starting(run[i], p, w.key)
    requires p in run[j].tasks && run[j].tasks[p].PubNotify? && At(run[j + 1], p, Finished)
    requires t !in run[j].c.woken && t in run[j + 1].c.woken
    ensures w.reachable
  {
    if !w.reachable {
      forall k | i <= k < j ensures Elsewhere(run[k], t, p, w) ==> Elsewhere(run[k + 1], t, p, w) {
        WaitedOn(run, i, k, j, t, w);
        if Elsewhere(run[k], t, p, w) {
          ElsewhereAt(run, k, t, p, w);
        }
      }
      StaysElsewhere(run, i, j, t, p, w);
      RunKeeps(run, j);
      NotifyMissesOthers(run[j], run[j + 1], t, p, w);
    }
  }

  lemma NotifyMissesOthers(s: State, s': State, t: TaskId, p: TaskId, w: Task)
    requires Inv(s) && Next(s, s') && w.SubWait? && At(s, t, w) && t !in s.c.woken
    requires p in s.tasks && s.tasks[p].PubNotify? && s.tasks[p].id != w.id && At(s', p, Finished)
    ensures t !in s'.c.woken
  {
    var u, now, id := NextMoves(s, s');
    assert u == p;
    assert t !in s.c.heap[s.tasks[p].id].waiters;
  }
}
