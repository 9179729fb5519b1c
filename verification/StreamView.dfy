/** The stream as one resuming client sees it: every operation on a stream is a step, or no step, of that client's
    resumption, and the client's own steps change nothing else. */
module StreamView {
  import opened EventStream
  import SR = StreamResume

  function Numbers(events: seq<SseEvent>): (ns: seq<nat>)
    ensures |ns| == |events| && forall i :: 0 <= i < |ns| ==> ns[i] == events[i].sequence
  {
    seq(|events|, i requires 0 <= i < |events| => events[i].sequence)
  }

  predicate Gone(phase: SR.Phase) {
    phase.Refused? || phase.Ended?
  }

  /** The stream's own part of the view. */
  predicate SharedView(s: Stream, v: SR.State) {
    && v.capacity == s.capacity && v.emitted == |s.history| && v.fanOutDue == s.emitter.Pushed?
    && v.completed == s.completed
  }

  /** The client's channel. */
  predicate ChannelView(m: Mailbox, v: SR.State) {
    v.window == m.capacity && v.queue == Numbers(m.queued) && (m.open <==> !Gone(v.phase))
  }

  predicate Views(s: Stream, id: SubId, v: SR.State) {
    && SharedView(s, v)
    && (v.phase.Connecting? <==> id !in s.mailboxes)
    && (v.phase.Admitted? <==> id in s.admitted)
    && (v.registered <==> id in s.subscribers)
    && (id in s.mailboxes ==> ChannelView(s.mailboxes[id], v))
    && (v.phase.Connecting? ==> v.queue == [])
  }

  /** What the view leaves to the client: it receives only when live, its channel closes only when it goes, and
      completion drops subscribers only after it has raised the flag. */
  predicate Permitted(s: Stream, id: SubId, v: SR.State, op: Op) {
    && (op == AdmitOp(id, v.window) || !(op.AdmitOp? && op.id == id))
    && (op == ReceiveOp(id) ==> v.phase.Live?)
    && (op == CloseOp(id) ==> Gone(v.phase))
    && (op.ClearOp? ==> s.completed)
  }

  ghost predicate StepOrNot(v: SR.State, v': SR.State) {
    v' == v || SR.Next(v, v')
  }

  // ---------------------------------------------------------------------------
  // The emitter and completion
  // ---------------------------------------------------------------------------

  lemma PushView(s: Stream, id: SubId, v: SR.State, data: string) returns (v': SR.State)
    requires Views(s, id, v)
    ensures Views(Push(s, data), id, v') && StepOrNot(v, v')
  {
    v' := v;
    if s.emitter.Idle? {
      v' := v.(emitted := v.emitted + 1, fanOutDue := true, cutShort := v.cutShort || v.cleared);
      assert SR.Push(v, v');
    }
  }

  lemma NumbersAppend(events: seq<SseEvent>, e: SseEvent)
    ensures Numbers(events + [e]) == Numbers(events) + [e.sequence]
  {
  }

  /** What a fan-out makes of a view. */
  function Fanned(v: SR.State): SR.State
    requires v.emitted > 0
  {
    var taken := v.registered && !Gone(v.phase) && |v.queue| < v.window;
    v.(fanOutDue := false, registered := taken, dropped := v.dropped || (v.registered && !taken),
       queue := if taken then v.queue + [v.emitted - 1] else v.queue)
  }

  lemma OfferedChannel(m: Mailbox, v: SR.State, e: SseEvent)
    requires ChannelView(m, v) && v.emitted > 0 && e.sequence == v.emitted - 1
    ensures ChannelView(if v.registered && Accepts(m) then Deliver(m, e) else m, Fanned(v))
    ensures Fanned(v).registered <==> v.registered && Accepts(m)
  {
    NumbersAppend(m.queued, e);
  }

  lemma OfferIsFanned(s: Stream, id: SubId, v: SR.State)
    requires Inv(s) && Views(s, id, v) && s.emitter.Pushed?
    ensures v.emitted > 0 && Views(Offer(s), id, Fanned(v))
  {
    if id in s.mailboxes {
      OfferedChannel(s.mailboxes[id], v, s.emitter.event);
    }
  }

  lemma OfferView(s: Stream, id: SubId, v: SR.State) returns (v': SR.State)
    requires Inv(s) && Views(s, id, v)
    ensures Views(Offer(s), id, v') && StepOrNot(v, v')
  {
    v' := v;
    if s.emitter.Pushed? {
      OfferIsFanned(s, id, v);
      v' := Fanned(v);
      assert SR.FanOut(v, v');
    }
  }

  lemma TakeView(s: Stream, id: SubId, v: SR.State, clientThere: bool)
    requires Views(s, id, v)
    ensures Views(TakeSender(s), id, v) && Views(Send(s, clientThere), id, v) && Views(DropSender(s), id, v)
  {
  }

  lemma CompletionView(s: Stream, id: SubId, v: SR.State) returns (flagged: SR.State, cleared: SR.State)
    requires Views(s, id, v)
    ensures Views(SetFlag(s), id, flagged) && SR.Next(v, flagged)
    ensures s.completed ==> Views(ClearSubscribers(s), id, cleared) && SR.Next(v, cleared)
  {
    flagged := v.(completed := true);
    assert SR.Flag(v, flagged);
    cleared := v.(registered := false, cleared := true, cutShort := v.cutShort || v.fanOutDue);
    assert s.completed ==> SR.Clear(v, cleared);
  }

  // ---------------------------------------------------------------------------
  // Clients
  // ---------------------------------------------------------------------------

  lemma AdmitView(s: Stream, id: SubId, v: SR.State, x: SubId, capacity: nat) returns (v': SR.State)
    requires Inv(s) && Views(s, id, v) && (x == id ==> capacity == v.window)
    ensures Views(Admit(s, x, capacity), id, v') && StepOrNot(v, v')
  {
    v' := v;
    if x == id && id !in s.mailboxes {
      v' := v.(phase := if v.completed then SR.Subscribed else SR.Admitted);
      assert SR.Look(v, v');
    }
  }

  lemma OwnRegisterView(s: Stream, id: SubId, v: SR.State, v': SR.State)
    requires Inv(s) && Views(s, id, v) && SR.Register(v, v')
    ensures Views(Register(s, id), id, v')
  {
    assert Register(s, id).subscribers == s.subscribers + [id];
  }

  lemma OtherRegisterView(s: Stream, id: SubId, v: SR.State, x: SubId)
    requires Views(s, id, v) && x != id
    ensures Views(Register(s, x), id, v)
  {
  }

  lemma RegisterView(s: Stream, id: SubId, v: SR.State, x: SubId) returns (v': SR.State)
    requires Inv(s) && Views(s, id, v)
    ensures Views(Register(s, x), id, v') && StepOrNot(v, v')
  {
    v' := v;
    if x != id {
      OtherRegisterView(s, id, v, x);
    } else if id in s.admitted {
      v' := v.(phase := SR.Subscribed, registered := true, taken := SR.FannedOut(v));
      assert SR.Register(v, v');
      OwnRegisterView(s, id, v, v');
    }
  }

  lemma ReceivedChannel(m: Mailbox, v: SR.State, v': SR.State)
    requires ChannelView(m, v) && v.phase.Live? && SR.Forward(v, v')
    ensures m.queued != [] && ChannelView(m.(queued := m.queued[1..]), v')
  {
    assert Numbers(m.queued[1..]) == v.queue[1..];
  }

  /** The view goes with the channel when nothing else of it changes. */
  lemma ChannelChanges(s: Stream, id: SubId, v: SR.State, m: Mailbox, v': SR.State)
    requires Views(s, id, v) && id in s.mailboxes && ChannelView(m, v')
    requires SharedView(s, v') && v'.registered == v.registered
    requires !v'.phase.Connecting? && (v'.phase.Admitted? <==> v.phase.Admitted?)
    ensures Views(s.(mailboxes := s.mailboxes[id := m]), id, v')
  {
  }

  lemma OwnReceiveView(s: Stream, id: SubId, v: SR.State, v': SR.State)
    requires Views(s, id, v) && SR.Forward(v, v')
    ensures Views(Receive(s, id), id, v')
  {
    var m := s.mailboxes[id];
    ReceivedChannel(m, v, v');
    ChannelChanges(s, id, v, m.(queued := m.queued[1..]), v');
  }

  lemma OtherReceiveView(s: Stream, id: SubId, v: SR.State, x: SubId)
    requires Views(s, id, v) && (x != id || id !in s.mailboxes || s.mailboxes[id].queued == [])
    ensures Views(Receive(s, x), id, v)
  {
  }

  lemma ReceiveView(s: Stream, id: SubId, v: SR.State, x: SubId) returns (v': SR.State)
    requires Views(s, id, v) && (x == id ==> v.phase.Live?)
    ensures Views(Receive(s, x), id, v') && StepOrNot(v, v')
  {
    v' := v;
    if x == id && v.queue != [] {
      v' := v.(queue := v.queue[1..], taken := v.taken + 1,
               out := if v.queue[0] > SR.MaxReplayed(v) then v.out + [v.queue[0]] else v.out);
      assert SR.Forward(v, v');
      OwnReceiveView(s, id, v, v');
    } else {
      OtherReceiveView(s, id, v, x);
    }
  }

  /** Every operation on a stream is a step of the resumption of any one client, or leaves it where it is. */
  lemma OperationIsStep(s: Stream, id: SubId, v: SR.State, op: Op) returns (v': SR.State)
    requires Inv(s) && Views(s, id, v) && Permitted(s, id, v, op)
    ensures Views(Apply(s, op), id, v') && StepOrNot(v, v')
  {
    v' := v;
    match op
    case PushOp(data) => v' := PushView(s, id, v, data);
    case OfferOp => v' := OfferView(s, id, v);
    case TakeOp => TakeView(s, id, v, true);
    case SendOp(clientThere) => TakeView(s, id, v, clientThere);
    case AdmitOp(x, capacity) => v' := AdmitView(s, id, v, x, capacity);
    case RegisterOp(x) => v' := RegisterView(s, id, v, x);
    case ReceiveOp(x) => v' := ReceiveView(s, id, v, x);
    case CloseOp(x) =>
    case FlagOp => var flagged, cleared := CompletionView(s, id, v); v' := flagged;
    case DropSenderOp => TakeView(s, id, v, true);
    case ClearOp => var flagged, cleared := CompletionView(s, id, v); v' := cleared;
  }

  /** Steps of the client that leave the stream alone, unless it goes and closes its channel. */
  predicate OwnStep(v: SR.State, v': SR.State) {
    SR.CheckGap(v, v') || SR.Replay(v, v') || SR.GoLive(v, v') || SR.Finish(v, v')
  }

  lemma OwnStepView(s: Stream, id: SubId, v: SR.State, v': SR.State)
    requires Views(s, id, v) && OwnStep(v, v')
    ensures Views(if Gone(v'.phase) then Close(s, id) else s, id, v')
  {
    OwnStepIsFurther(v, v');
    var m := s.mailboxes[id];
    ChannelChanges(s, id, v, if Gone(v'.phase) then m.(open := false) else m, v');
    assert s.mailboxes[id := m] == s.mailboxes;
  }

  /** The same client, further on, with the same channel on the same stream. */
  predicate Further(v: SR.State, v': SR.State) {
    && !v.phase.Connecting? && !v.phase.Admitted? && !Gone(v.phase)
    && !v'.phase.Connecting? && !v'.phase.Admitted?
    && v' == v.(phase := v'.phase, snapshot := v'.snapshot, out := v'.out, wentLive := v'.wentLive)
  }

  lemma GapIsFurther(v: SR.State, v': SR.State)
    requires SR.CheckGap(v, v')
    ensures Further(v, v')
  {
  }

  lemma ReplayIsFurther(v: SR.State, v': SR.State)
    requires SR.Replay(v, v')
    ensures Further(v, v')
  {
  }

  lemma LiveIsFurther(v: SR.State, v': SR.State)
    requires SR.GoLive(v, v') || SR.Finish(v, v')
    ensures Further(v, v')
  {
  }

  lemma OwnStepIsFurther(v: SR.State, v': SR.State)
    requires OwnStep(v, v')
    ensures Further(v, v')
  {
    if SR.CheckGap(v, v') {
      GapIsFurther(v, v');
    } else if SR.Replay(v, v') {
      ReplayIsFurther(v, v');
    } else {
      LiveIsFurther(v, v');
    }
  }

  /** The buffer a client replays from holds the events from the oldest the view knows up to the last. */
  lemma BufferView(s: Stream, v: SR.State)
    requires Inv(s) && SharedView(s, v)
    ensures Numbers(s.replay) == SR.Range(SR.Oldest(v.capacity, v.emitted), v.emitted)
  {
  }

  /** A client that has yet to come sees the stream as a resumption sees it when it begins. */
  lemma BeginningView(s: Stream, id: SubId, v: SR.State)
    requires Inv(s) && id !in s.mailboxes && SharedView(s, v) && SR.Init(v)
    ensures Views(s, id, v)
  {
  }
}
