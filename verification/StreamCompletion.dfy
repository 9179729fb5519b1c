/** What can still be sent once a stream has been completed. */
module StreamCompletion {
  import opened EventStream
  import opened Wrappers

  /** Completion has come to its end. */
  predicate Over(s: Stream) {
    s.completed && !s.primaryOpen && s.subscribers == []
  }

  lemma CompletingEnds(s: Stream)
    ensures Over(MarkCompleted(s)) && MarkCompleted(s).admitted == s.admitted && MarkCompleted(s).emitter == s.emitter
  {
  }

  // ---------------------------------------------------------------------------
  // The primary client
  // ---------------------------------------------------------------------------

  /** The outcome of the first send among the operations. */
  function FirstSend(ops: seq<Op>): Option<bool> {
    if ops == [] then None
    else
      match FirstSend(ops[..|ops| - 1])
      case Some(there) => Some(there)
      case None => if ops[|ops| - 1].SendOp? then Some(ops[|ops| - 1].clientThere) else None
  }

  /** The event of an emit that had taken the sender before completion, if the client is there when it is sent. */
  function LateEvents(s: Stream, ops: seq<Op>): seq<SseEvent> {
    if s.emitter.Sending? && FirstSend(ops) == Some(true) then [s.emitter.event] else []
  }

  /** Once its sender is dropped the primary client gets exactly the event of an emit that had already taken it. */
  lemma {:induction false} PrimaryAfterCompletion(s: Stream, ops: seq<Op>)
    requires !s.primaryOpen
    ensures !ApplyAll(s, ops).primaryOpen
    ensures ApplyAll(s, ops).primarySent == s.primarySent + LateEvents(s, ops)
    ensures ApplyAll(s, ops).emitter.Sending? <==> s.emitter.Sending? && FirstSend(ops).None?
    ensures ApplyAll(s, ops).emitter.Sending? ==> ApplyAll(s, ops).emitter == s.emitter
  {
    if ops != [] {
      PrimaryAfterCompletion(s, ops[..|ops| - 1]);
    }
  }

  // ---------------------------------------------------------------------------
  // Subscribers
  // ---------------------------------------------------------------------------

  /** Everything ever sent to a subscriber. */
  function SentTo(s: Stream, id: SubId): seq<SseEvent> {
    if id in s.mailboxes then s.mailboxes[id].sent else []
  }

  /** Only clients that had looked at the flag before completion can be registered, or be sent anything, from then on;
      and what they are sent was offered after completion. */
  predicate OnlyAdmitted(s: Stream, s': Stream) {
    && s'.completed && !s'.primaryOpen
    && s'.admitted <= s.admitted && (forall id | id in s'.subscribers :: id in s.admitted)
    && s.mailboxes.Keys <= s'.mailboxes.Keys && |Heard(s)| <= |Heard(s')|
    && forall id | id in s'.mailboxes :: StillSent(s, s', id)
  }

  predicate StillSent(s: Stream, s': Stream, id: SubId)
    requires id in s'.mailboxes
  {
    if id in s.admitted then id in s'.admitted || s'.mailboxes[id].joined >= |Heard(s)|
    else s'.mailboxes[id].sent == SentTo(s, id)
  }

  /** What one operation can do to a channel: nothing, let its client receive or leave or register, or deliver. */
  ghost predicate BoxMoves(m: Mailbox, m': Mailbox, heard: nat, registered: bool, waiting: bool) {
    || m' == m
    || (m.queued != [] && m' == m.(queued := m.queued[1..]))
    || m' == m.(open := false)
    || (waiting && m' == m.(joined := heard))
    || (registered && Accepts(m) && exists e :: m' == Deliver(m, e))
  }

  lemma StepMovesBox(s: Stream, op: Op, id: SubId)
    requires id in s.mailboxes
    ensures var t := Apply(s, op);
            && id in t.mailboxes
            && BoxMoves(s.mailboxes[id], t.mailboxes[id], |Heard(s)|, id in s.subscribers, id in s.admitted)
            && (id in s.admitted ==> id in t.admitted || t.mailboxes[id].joined == |Heard(s)|)
  {
    if op.OfferOp? && s.emitter.Pushed? && id in s.subscribers && Accepts(s.mailboxes[id]) {
      assert Apply(s, op).mailboxes[id] == Deliver(s.mailboxes[id], s.emitter.event);
    }
  }

  lemma StepAdmits(s: Stream, op: Op)
    requires s.completed
    ensures var t := Apply(s, op);
            && t.completed && t.admitted <= s.admitted && |Heard(s)| <= |Heard(t)|
            && (forall id | id in t.subscribers :: id in s.subscribers || id in s.admitted)
            && (forall id | id in t.mailboxes && id !in s.mailboxes :: t.mailboxes[id].sent == [])
  {
  }

  lemma OnlyAdmittedStep(s: Stream, s': Stream, op: Op)
    requires Inv(s') && OnlyAdmitted(s, s')
    ensures OnlyAdmitted(s, Apply(s', op))
  {
    var t := Apply(s', op);
    StepAdmits(s', op);
    forall id | id in s'.mailboxes ensures id in t.mailboxes && StillSent(s, t, id) {
      assert StillSent(s, s', id);
      assert BoxOk(s'.mailboxes[id], Heard(s'), id in s'.subscribers, id in s'.admitted);
      StepMovesBox(s', op, id);
    }
  }

  lemma {:induction false} OnlyAdmittedAfter(s: Stream, ops: seq<Op>)
    requires Inv(s) && Over(s)
    ensures OnlyAdmitted(s, ApplyAll(s, ops))
  {
    if ops == [] {
      forall id | id in s.mailboxes ensures StillSent(s, s, id) {
        assert BoxOk(s.mailboxes[id], Heard(s), id in s.subscribers, id in s.admitted);
      }
    } else {
      var before := ops[..|ops| - 1];
      OnlyAdmittedAfter(s, before);
      AllKeep(s, before);
      OnlyAdmittedStep(s, ApplyAll(s, before), ops[|ops| - 1]);
    }
  }

  /** No emit starts. */
  predicate NoPush(ops: seq<Op>) {
    forall i :: 0 <= i < |ops| ==> !ops[i].PushOp?
  }

  lemma {:induction false} NoPushNoEvent(s: Stream, ops: seq<Op>)
    requires NoPush(ops)
    ensures ApplyAll(s, ops).history == s.history
  {
    if ops != [] {
      NoPushNoEvent(s, ops[..|ops| - 1]);
    }
  }

  /** The event of an emit that is in the buffer and has not been offered. */
  function Unheard(s: Stream): seq<SseEvent> {
    if s.emitter.Pushed? then [s.emitter.event] else []
  }

  lemma OnlyLast(history: seq<SseEvent>, heard: seq<SseEvent>, heard': seq<SseEvent>, m: Mailbox)
    requires heard' <= history && |history| <= |heard| + 1 && |heard| <= m.joined <= |heard'|
    requires m.sent != [] && m.sent <= heard'[m.joined..]
    ensures |heard| < |history| && m.sent == [history[|history| - 1]]
  {
  }

  /** After completion, whatever is called: a client that had not looked at the flag before is sent nothing; one that
      had, and registers only now, is sent an unbroken first part of the events offered since it registered. If no
      further emit starts, that is at most the event of an emit that had not been offered. */
  lemma SubscribersAfterCompletion(s: Stream, ops: seq<Op>, id: SubId)
    requires Inv(s) && Over(s) && id in ApplyAll(s, ops).mailboxes
    ensures var m := ApplyAll(s, ops).mailboxes[id];
            var heard := Heard(ApplyAll(s, ops));
            && (id !in s.admitted ==> m.sent == SentTo(s, id))
            && (id in s.admitted && m.sent != [] ==> |Heard(s)| <= m.joined <= |heard| && m.sent <= heard[m.joined..])
            && (id in s.admitted && NoPush(ops) ==> m.sent <= Unheard(s))
  {
    OnlyAdmittedAfter(s, ops);
    AllKeep(s, ops);
    var s' := ApplyAll(s, ops);
    var m := s'.mailboxes[id];
    assert StillSent(s, s', id);
    assert BoxOk(m, Heard(s'), id in s'.subscribers, id in s'.admitted);
    if id in s.admitted && NoPush(ops) && m.sent != [] {
      NoPushNoEvent(s, ops);
      OnlyLast(s.history, Heard(s), Heard(s'), m);
    }
  }

  // ---------------------------------------------------------------------------
  // When nothing is sent any more
  // ---------------------------------------------------------------------------

  /** A channel that takes nothing, now or later. */
  predicate Shut(m: Mailbox) {
    !m.open || m.capacity == 0
  }

  lemma {:induction false} ShutForGood(s: Stream, ops: seq<Op>, id: SubId)
    requires id in s.mailboxes && Shut(s.mailboxes[id])
    ensures var t := ApplyAll(s, ops);
            id in t.mailboxes && Shut(t.mailboxes[id]) && t.mailboxes[id].sent == s.mailboxes[id].sent
  {
    if ops != [] {
      var before := ops[..|ops| - 1];
      ShutForGood(s, before, id);
      StepMovesBox(ApplyAll(s, before), ops[|ops| - 1], id);
    }
  }

  lemma Then(s: Stream, ops: seq<Op>, op: Op)
    ensures ApplyAll(s, ops + [op]) == Apply(ApplyAll(s, ops), op)
  {
    assert (ops + [op])[..|ops|] == ops;
  }

  lemma OneOp(s: Stream, op: Op)
    ensures ApplyAll(s, [op]) == Apply(s, op)
  {
    Then(s, [], op);
    assert [] + [op] == [op];
  }

  lemma TwoOps(s: Stream, op: Op, op': Op)
    ensures ApplyAll(s, [op, op']) == Apply(Apply(s, op), op')
  {
    OneOp(s, op);
    Then(s, [op], op');
    assert [op] + [op'] == [op, op'];
  }

  /** Registering before the offer is all it takes. */
  lemma RegisterThenOffer(s: Stream, id: SubId)
    requires Inv(s) && id in s.admitted && Accepts(s.mailboxes[id]) && s.emitter.Pushed?
    ensures SentTo(ApplyAll(s, [RegisterOp(id), OfferOp]), id) == [s.emitter.event]
  {
    TwoOps(s, RegisterOp(id), OfferOp);
    assert BoxOk(s.mailboxes[id], Heard(s), id in s.subscribers, true);
  }

  /** Some continuation sends the subscriber something; `mayEmit` is whether it may start emits. */
  ghost predicate Reachable(s: Stream, id: SubId, mayEmit: bool) {
    exists ops :: (mayEmit || NoPush(ops)) && SentTo(ApplyAll(s, ops), id) != SentTo(s, id)
  }

  lemma NotReachable(s: Stream, id: SubId, ops: seq<Op>)
    requires Inv(s) && Over(s)
    requires !(id in s.admitted && Accepts(s.mailboxes[id])) || (NoPush(ops) && !s.emitter.Pushed?)
    ensures SentTo(ApplyAll(s, ops), id) == SentTo(s, id)
  {
    if id in ApplyAll(s, ops).mailboxes {
      SubscribersAfterCompletion(s, ops, id);
    } else {
      OnlyAdmittedAfter(s, ops);
    }
    if id in s.admitted {
      assert BoxOk(s.mailboxes[id], Heard(s), id in s.subscribers, true);
      if !Accepts(s.mailboxes[id]) {
        ShutForGood(s, ops, id);
      } else {
        OnlyAdmittedAfter(s, ops);
      }
    }
  }

  /** Once a stream is over, a subscriber can still be sent the event of an emit under way exactly if it had looked at
      the flag before completion, has yet to register, has room, and the event has not been offered. */
  lemma LateDeliveryExactly(s: Stream, id: SubId)
    requires Inv(s) && Over(s)
    ensures Reachable(s, id, false) <==> id in s.admitted && Accepts(s.mailboxes[id]) && s.emitter.Pushed?
  {
    if id in s.admitted && Accepts(s.mailboxes[id]) && s.emitter.Pushed? {
      RegisterThenOffer(s, id);
      assert BoxOk(s.mailboxes[id], Heard(s), id in s.subscribers, true);
      assert NoPush([RegisterOp(id), OfferOp]);
    } else {
      forall ops | NoPush(ops) ensures SentTo(ApplyAll(s, ops), id) == SentTo(s, id) {
        NotReachable(s, id, ops);
      }
    }
  }

  lemma {:induction false} Appended(s: Stream, a: seq<Op>, b: seq<Op>)
    ensures ApplyAll(s, a + b) == ApplyAll(ApplyAll(s, a), b)
  {
    if b == [] {
      assert a + b == a;
    } else {
      var n := |b| - 1;
      Appended(s, a, b[..n]);
      assert a + b == (a + b[..n]) + [b[n]];
      Then(s, a + b[..n], b[n]);
    }
  }

  /** The current emit can be brought to its end, and another started, without touching subscribers. */
  lemma AnotherEmit(s: Stream) returns (ops: seq<Op>)
    requires Inv(s) && !s.primaryOpen && !s.emitter.Pushed?
    ensures var t := ApplyAll(s, ops);
            t.emitter.Pushed? && t.admitted == s.admitted && t.mailboxes == s.mailboxes
  {
    ops := [TakeOp, SendOp(false)] + [PushOp("")];
    TwoOps(s, TakeOp, SendOp(false));
    Then(s, [TakeOp, SendOp(false)], PushOp(""));
  }

  /** If emits may still start, it can be sent something exactly if it had looked before completion, has yet to
      register, and has room. */
  lemma LateSubscriptionExactly(s: Stream, id: SubId)
    requires Inv(s) && Over(s)
    ensures Reachable(s, id, true) <==> id in s.admitted && Accepts(s.mailboxes[id])
  {
    if id in s.admitted && Accepts(s.mailboxes[id]) {
      var ops: seq<Op> := [];
      if !s.emitter.Pushed? {
        ops := AnotherEmit(s);
      }
      AllKeep(s, ops);
      RegisterThenOffer(ApplyAll(s, ops), id);
      Appended(s, ops, [RegisterOp(id), OfferOp]);
      assert BoxOk(s.mailboxes[id], Heard(s), id in s.subscribers, true);
      assert SentTo(ApplyAll(s, ops + [RegisterOp(id), OfferOp]), id) != SentTo(s, id);
    } else {
      forall ops ensures SentTo(ApplyAll(s, ops), id) == SentTo(s, id) {
        NotReachable(s, id, ops);
      }
    }
  }

  predicate NothingSent(s: Stream, s': Stream) {
    && s'.primarySent == s.primarySent
    && forall id | id in s'.mailboxes :: s'.mailboxes[id].sent == SentTo(s, id)
  }

  ghost predicate Silent(s: Stream) {
    forall ops :: NothingSent(s, ApplyAll(s, ops))
  }

  /** Once a stream is over nothing more is sent to anyone, whatever is called, exactly if no emit has the sender in
      its hands and nobody with room is between looking at the flag and registering. */
  lemma SilentExactly(s: Stream)
    requires Inv(s) && Over(s)
    ensures Silent(s) <==> !s.emitter.Sending? && forall id | id in s.admitted :: !Accepts(s.mailboxes[id])
  {
    if s.emitter.Sending? {
      OneOp(s, SendOp(true));
      assert !NothingSent(s, ApplyAll(s, [SendOp(true)]));
    } else if id :| id in s.admitted && Accepts(s.mailboxes[id]) {
      LateSubscriptionExactly(s, id);
      var ops :| SentTo(ApplyAll(s, ops), id) != SentTo(s, id);
      OnlyAdmittedAfter(s, ops);
      assert !NothingSent(s, ApplyAll(s, ops));
    } else {
      forall ops ensures NothingSent(s, ApplyAll(s, ops)) {
        PrimaryAfterCompletion(s, ops);
        forall id | id in ApplyAll(s, ops).mailboxes ensures ApplyAll(s, ops).mailboxes[id].sent == SentTo(s, id) {
          NotReachable(s, id, ops);
        }
      }
    }
  }

  // ---------------------------------------------------------------------------
  // The two ways something is
  // ---------------------------------------------------------------------------

  /** A completion that nothing comes between. */
  function Completed(s: Stream): Stream {
    ApplyAll(s, [FlagOp, DropSenderOp] + [ClearOp])
  }

  lemma CompletedIs(s: Stream)
    ensures Completed(s) == MarkCompleted(s)
  {
    TwoOps(s, FlagOp, DropSenderOp);
    Then(s, [FlagOp, DropSenderOp], ClearOp);
  }

  /** An emit that has taken the sender when the stream completes does deliver. */
  lemma DeliveredAfterCompletion()
    ensures var before := Completed(ApplyAll(New(1), [PushOp("a"), OfferOp] + [TakeOp]));
            && Over(before) && before.primarySent == []
            && Apply(before, SendOp(true)).primarySent == [SseEvent(0, "a")]
  {
    TwoOps(New(1), PushOp("a"), OfferOp);
    Then(New(1), [PushOp("a"), OfferOp], TakeOp);
    CompletedIs(ApplyAll(New(1), [PushOp("a"), OfferOp] + [TakeOp]));
  }

  lemma AdmittedThenOver(s: Stream, id: SubId, capacity: nat)
    requires id !in s.mailboxes && !s.completed
    ensures var t := Completed(Admit(s, id, capacity));
            && Over(t) && t.emitter == s.emitter && id in t.admitted
            && t.mailboxes == s.mailboxes[id := Mailbox(capacity, [], true, [], |Heard(s)|)]
  {
    CompletedIs(Admit(s, id, capacity));
  }

  lemma LateJoinTakes(s: Stream, id: SubId)
    requires Over(s) && id in s.admitted && id in s.mailboxes && Accepts(s.mailboxes[id]) && s.emitter.Pushed?
    ensures ApplyAll(s, [RegisterOp(id), OfferOp]).subscribers == [id]
  {
    TwoOps(s, RegisterOp(id), OfferOp);
    var t := Register(s, id);
    assert t.subscribers == [id] && Accepts(t.mailboxes[id]);
    assert Takers([id], t.mailboxes) == [id] + Takers([], t.mailboxes);
  }

  /** So does one that has only been pushed, to a client that looked at the flag before completion and registers
      after it; and the complete stream then has a subscriber. */
  lemma LateJoinDelivered()
    ensures var before := Completed(Admit(Push(New(1), "a"), 7, 256));
            var after := ApplyAll(before, [RegisterOp(7), OfferOp]);
            && Over(before) && !before.emitter.Sending? && SentTo(before, 7) == []
            && SentTo(after, 7) == [SseEvent(0, "a")] && after.subscribers == [7]
  {
    var pushed := Push(New(1), "a");
    var before := Completed(Admit(pushed, 7, 256));
    AdmittedThenOver(pushed, 7, 256);
    PushKeeps(New(1), "a");
    AdmitKeeps(pushed, 7, 256);
    AllKeep(Admit(pushed, 7, 256), [FlagOp, DropSenderOp] + [ClearOp]);
    LateJoinTakes(before, 7);
    RegisterThenOffer(before, 7);
  }
}
