/** What the primary client of a stream is sent while it is there. */
module StreamPrimary {
  import opened EventStream

  /** Its sender stays and every send finds it there. */
  predicate ClientStays(ops: seq<Op>) {
    forall i | 0 <= i < |ops| :: ops[i] != DropSenderOp && ops[i] != SendOp(false)
  }

  /** The events whose emit has come to its end. */
  function Ended(s: Stream): seq<SseEvent> {
    if s.emitter.Idle? || s.history == [] then s.history else s.history[..|s.history| - 1]
  }

  predicate AllSent(s: Stream) {
    s.primaryOpen && s.primarySent == Ended(s)
  }

  predicate OfEmitter(op: Op) {
    op.PushOp? || op.OfferOp? || op.TakeOp? || op.SendOp?
  }

  lemma OthersLeaveIt(s: Stream, op: Op)
    requires !OfEmitter(op) && op != DropSenderOp
    ensures var s' := Apply(s, op);
            s'.history == s.history && s'.emitter == s.emitter && s'.primarySent == s.primarySent && s'.primaryOpen == s.primaryOpen
  {
  }

  lemma PushSent(s: Stream, data: string)
    requires AllSent(s)
    ensures AllSent(Push(s, data))
  {
    if s.emitter.Idle? {
      assert Ended(Push(s, data)) == s.history;
    }
  }

  lemma SendSent(s: Stream)
    requires StreamOk(s) && AllSent(s)
    ensures AllSent(Offer(s)) && AllSent(TakeSender(s)) && AllSent(Send(s, true))
  {
    if s.emitter.Sending? {
      assert s.history == Ended(s) + [s.emitter.event];
    }
  }

  lemma AllSentStep(s: Stream, op: Op)
    requires Inv(s) && AllSent(s) && op != DropSenderOp && op != SendOp(false)
    ensures AllSent(Apply(s, op))
  {
    if op.PushOp? {
      PushSent(s, op.data);
    } else if OfEmitter(op) {
      SendSent(s);
    } else {
      OthersLeaveIt(s, op);
    }
  }

  /** After any operations, interleaved in any way: a client that stays has been sent every event whose emit is over, in
      order and once. */
  lemma {:induction false} ClientSeesAll(capacity: nat, ops: seq<Op>)
    requires ClientStays(ops)
    ensures AllSent(ApplyAll(New(capacity), ops))
  {
    if ops != [] {
      var n := |ops| - 1;
      assert ClientStays(ops[..n]);
      ClientSeesAll(capacity, ops[..n]);
      AllKeep(New(capacity), ops[..n]);
      AllSentStep(ApplyAll(New(capacity), ops[..n]), ops[n]);
    }
  }

  // ---------------------------------------------------------------------------
  // Emits that nothing comes between
  // ---------------------------------------------------------------------------

  function EmitAll(capacity: nat, data: seq<string>): Stream {
    if data == [] then New(capacity) else Emit(EmitAll(capacity, data[..|data| - 1]), data[|data| - 1], true)
  }

  lemma EmitOne(s: Stream, data: string)
    requires s.emitter.Idle? && s.primaryOpen
    ensures var s', e := Emit(s, data, true), SseEvent(s.nextSeq, data);
            && s'.primarySent == s.primarySent + [e] && s'.replay == Last(s.replay + [e], s.capacity)
            && s'.nextSeq == s.nextSeq + 1 && s'.emitter.Idle? && s'.primaryOpen && s'.capacity == s.capacity
  {
  }

  /** These texts, numbered in order. */
  predicate NumberedTexts(events: seq<SseEvent>, data: seq<string>) {
    |events| == |data| && forall i | 0 <= i < |data| :: events[i] == SseEvent(i, data[i])
  }

  /** Every text that is emitted is an event of its own, numbered in order; the client is sent all of them and the
      buffer keeps the latest. */
  lemma {:induction false} EmitsAreSeen(capacity: nat, data: seq<string>)
    ensures var s := EmitAll(capacity, data);
            && NumberedTexts(s.primarySent, data) && s.replay == Last(s.primarySent, capacity)
            && s.emitter.Idle? && s.primaryOpen && s.nextSeq == |data| && s.capacity == capacity
  {
    if data != [] {
      var n := |data| - 1;
      EmitsAreSeen(capacity, data[..n]);
      var s := EmitAll(capacity, data[..n]);
      EmitOne(s, data[n]);
      LastOfLast(s.primarySent, SseEvent(n, data[n]), capacity);
    }
  }
}
