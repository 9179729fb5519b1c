/** One server-sent event stream: a bounded replay buffer, a primary client and any number of bounded
    subscribers, fed by one emitter at a time. */
module EventStream {
  type SubId = nat

  /** The sequence number is the tail of the event's id. */
  datatype SseEvent = SseEvent(sequence: nat, data: string)

  /** A bounded channel to a subscriber. `sent` is everything ever accepted, `joined` how many events the
      stream had offered when the subscriber registered. */
  datatype Mailbox = Mailbox(capacity: nat, queued: seq<SseEvent>, open: bool, sent: seq<SseEvent>, joined: nat)

  /** How far the current emit has got: its event is in the buffer, has been offered to the subscribers, or is about
      to be sent with a copy of the primary sender. */
  datatype Emitter = Idle | Pushed(event: SseEvent) | Offered(event: SseEvent) | Sending(event: SseEvent)

  /** `history` is every event emitted so far, `admitted` are the resuming clients that found the stream not complete
      and have yet to register. */
  datatype Stream = Stream(
    capacity: nat,
    replay: seq<SseEvent>,
    nextSeq: nat,
    subscribers: seq<SubId>,
    mailboxes: map<SubId, Mailbox>,
    primaryOpen: bool,
    primarySent: seq<SseEvent>,
    completed: bool,
    history: seq<SseEvent>,
    emitter: Emitter,
    admitted: set<SubId>
  )

  function New(capacity: nat): Stream {
    Stream(capacity, [], 0, [], map[], true, [], false, [], Idle, {})
  }

  function Last<T>(s: seq<T>, n: nat): (t: seq<T>)
    ensures |t| == if |s| < n then |s| else n
  {
    if |s| <= n then s else s[|s| - n..]
  }

  predicate Accepts(m: Mailbox) {
    m.open && |m.queued| < m.capacity
  }

  function Deliver(m: Mailbox, e: SseEvent): Mailbox {
    m.(queued := m.queued + [e], sent := m.sent + [e])
  }

  /** The subscribers that take the event, in order. */
  function Takers(subs: seq<SubId>, boxes: map<SubId, Mailbox>): (t: seq<SubId>)
    ensures forall id :: id in t <==> id in subs && id in boxes && Accepts(boxes[id])
  {
    if subs == [] then []
    else if subs[0] in boxes && Accepts(boxes[subs[0]]) then [subs[0]] + Takers(subs[1..], boxes)
    else Takers(subs[1..], boxes)
  }

  function FannedOut(subs: seq<SubId>, boxes: map<SubId, Mailbox>, e: SseEvent): (b: map<SubId, Mailbox>) {
    map id | id in boxes :: if id in subs && Accepts(boxes[id]) then Deliver(boxes[id], e) else boxes[id]
  }

  /** An emit in four steps, between which other operations may come; one emitter at a time. */
  function Push(s: Stream, data: string): Stream {
    if !s.emitter.Idle? then s
    else
      var e := SseEvent(s.nextSeq, data);
      s.(replay := Last(s.replay + [e], s.capacity), nextSeq := s.nextSeq + 1, history := s.history + [e],
         emitter := Pushed(e))
  }

  function Offer(s: Stream): Stream {
    if !s.emitter.Pushed? then s
    else
      s.(subscribers := Takers(s.subscribers, s.mailboxes),
         mailboxes := FannedOut(s.subscribers, s.mailboxes, s.emitter.event),
         emitter := Offered(s.emitter.event))
  }

  function TakeSender(s: Stream): Stream {
    if !s.emitter.Offered? then s
    else s.(emitter := if s.primaryOpen then Sending(s.emitter.event) else Idle)
  }

  /** `clientThere` is whether the primary client still receives. */
  function Send(s: Stream, clientThere: bool): Stream {
    if !s.emitter.Sending? then s
    else s.(primarySent := if clientThere then s.primarySent + [s.emitter.event] else s.primarySent, emitter := Idle)
  }

  /** An emit that nothing comes between. */
  function Emit(s: Stream, data: string, clientThere: bool): Stream {
    Send(TakeSender(Offer(Push(s, data))), clientThere)
  }

  /** Completing in three steps: the flag, the primary sender, the subscribers. */
  function SetFlag(s: Stream): Stream {
    s.(completed := true)
  }

  function DropSender(s: Stream): Stream {
    s.(primaryOpen := false)
  }

  function ClearSubscribers(s: Stream): Stream {
    s.(subscribers := [])
  }

  function MarkCompleted(s: Stream): Stream {
    ClearSubscribers(DropSender(SetFlag(s)))
  }

  /** The events that have been offered to subscribers. */
  function Heard(s: Stream): seq<SseEvent> {
    if s.emitter.Pushed? && s.history != [] then s.history[..|s.history| - 1] else s.history
  }

  /** A resuming client makes its channel and looks at the flag. */
  function Admit(s: Stream, id: SubId, capacity: nat): Stream {
    if id in s.mailboxes then s
    else
      s.(mailboxes := s.mailboxes[id := Mailbox(capacity, [], true, [], |Heard(s)|)],
         admitted := if s.completed then s.admitted else s.admitted + {id})
  }

  /** Later, if the flag was down, it registers. */
  function Register(s: Stream, id: SubId): Stream {
    if id !in s.admitted || id !in s.mailboxes then s
    else
      s.(mailboxes := s.mailboxes[id := s.mailboxes[id].(joined := |Heard(s)|)],
         subscribers := s.subscribers + [id], admitted := s.admitted - {id})
  }

  function Receive(s: Stream, id: SubId): Stream {
    if id in s.mailboxes && s.mailboxes[id].queued != []
    then s.(mailboxes := s.mailboxes[id := s.mailboxes[id].(queued := s.mailboxes[id].queued[1..])])
    else s
  }

  function Close(s: Stream, id: SubId): Stream {
    if id in s.mailboxes then s.(mailboxes := s.mailboxes[id := s.mailboxes[id].(open := false)]) else s
  }

  // ---------------------------------------------------------------------------
  // The stream as an object
  // ---------------------------------------------------------------------------

  class StreamRuntime {
    const capacity: nat
    var replay: seq<SseEvent>
    var nextSeq: nat
    var subscribers: seq<SubId>
    var mailboxes: map<SubId, Mailbox>
    var primaryOpen: bool
    var primarySent: seq<SseEvent>
    var completed: bool
    ghost var history: seq<SseEvent>

    ghost function View(): Stream
      reads this
    {
      Stream(capacity, replay, nextSeq, subscribers, mailboxes, primaryOpen, primarySent, completed, history, Idle, {})
    }

    ghost predicate Distinct()
      reads this
    {
      forall i, j :: 0 <= i < j < |subscribers| ==> subscribers[i] != subscribers[j]
    }

    constructor (capacity: nat)
      ensures View() == New(capacity) && Distinct()
    {
      this.capacity := capacity;
      replay, nextSeq, subscribers, mailboxes := [], 0, [], map[];
      primaryOpen, primarySent, completed, history := true, [], false, [];
    }

    method EmitRaw(data: string, clientThere: bool) returns (ok: bool)
      requires Distinct()
      modifies this
      ensures View() == Emit(old(View()), data, clientThere)
      ensures ok == (primaryOpen && clientThere) && Distinct()
    {
      var e := SseEvent(nextSeq, data);
      nextSeq := nextSeq + 1;
      history := history + [e];

      Persist(e);
      RetainAccepting(e);

      ok := primaryOpen && clientThere;
      if ok {
        primarySent := primarySent + [e];
      }
    }

    method Persist(e: SseEvent)
      modifies this`replay
      ensures replay == Last(old(replay) + [e], capacity)
    {
      replay := replay + [e];
      ghost var pushed := replay;
      while |replay| > capacity
        invariant |replay| <= |pushed| && replay == pushed[|pushed| - |replay|..]
        invariant |replay| < capacity ==> replay == pushed
      {
        replay := replay[1..];
      }
    }

    /** `retain` with `try_send`: a full or closed subscriber is dropped. */
    method RetainAccepting(e: SseEvent)
      requires Distinct()
      modifies this`subscribers, this`mailboxes
      ensures subscribers == Takers(old(subscribers), old(mailboxes))
      ensures mailboxes == FannedOut(old(subscribers), old(mailboxes), e)
      ensures Distinct()
    {
      TakersDistinct(subscribers, mailboxes);
      subscribers, mailboxes := FanOut(subscribers, mailboxes, e);
    }

    method Complete()
      modifies this`completed, this`primaryOpen, this`subscribers
      ensures View() == MarkCompleted(old(View())) && Distinct()
    {
      completed := true;
      primaryOpen := false;
      subscribers := [];
    }
  }

  /** Offers the event to each subscriber in turn and keeps those that took it. */
  method FanOut(subs: seq<SubId>, boxes: map<SubId, Mailbox>, e: SseEvent) returns (kept: seq<SubId>, out: map<SubId, Mailbox>)
    requires forall i, j :: 0 <= i < j < |subs| ==> subs[i] != subs[j]
    ensures kept == Takers(subs, boxes) && out == FannedOut(subs, boxes, e)
  {
    kept, out := [], boxes;
    var i := 0;
    assert FannedOut([], boxes, e) == boxes;
    assert subs[0..] == subs && subs[..0] == [];
    while i < |subs|
      invariant 0 <= i <= |subs|
      invariant kept + Takers(subs[i..], boxes) == Takers(subs, boxes)
      invariant out == FannedOut(subs[..i], boxes, e)
    {
      FannedOutMore(subs, i, boxes, e);
      TakersNext(kept, subs, i, boxes);
      if subs[i] in out && Accepts(out[subs[i]]) {
        out := out[subs[i] := Deliver(out[subs[i]], e)];
        kept := kept + [subs[i]];
      }
      i := i + 1;
    }
    assert subs[..i] == subs;
    assert kept + [] == kept;
  }

  lemma {:induction false} TakersDistinct(subs: seq<SubId>, boxes: map<SubId, Mailbox>)
    requires forall i, j :: 0 <= i < j < |subs| ==> subs[i] != subs[j]
    ensures forall i, j :: 0 <= i < j < |Takers(subs, boxes)| ==> Takers(subs, boxes)[i] != Takers(subs, boxes)[j]
  {
    if subs != [] {
      TakersDistinct(subs[1..], boxes);
      assert subs[0] !in subs[1..];
    }
  }

  lemma TakersNext(kept: seq<SubId>, subs: seq<SubId>, i: nat, boxes: map<SubId, Mailbox>)
    requires i < |subs|
    ensures kept + Takers(subs[i..], boxes)
         == (if subs[i] in boxes && Accepts(boxes[subs[i]]) then kept + [subs[i]] else kept) + Takers(subs[i + 1..], boxes)
  {
    assert subs[i..][1..] == subs[i + 1..];
  }

  lemma FannedOutMore(subs: seq<SubId>, i: nat, boxes: map<SubId, Mailbox>, e: SseEvent)
    requires i < |subs| && forall a, b :: 0 <= a < b < |subs| ==> subs[a] != subs[b]
    ensures var id, before := subs[i], FannedOut(subs[..i], boxes, e);
            && (id in before <==> id in boxes) && (id in boxes ==> before[id] == boxes[id])
            && FannedOut(subs[..i + 1], boxes, e)
               == if id in boxes && Accepts(boxes[id]) then before[id := Deliver(before[id], e)] else before
  {
    assert subs[..i + 1] == subs[..i] + [subs[i]];
    assert subs[i] !in subs[..i];
  }

  // ---------------------------------------------------------------------------
  // Every sequence of operations
  // ---------------------------------------------------------------------------

  datatype Op =
    | PushOp(data: string)
    | OfferOp
    | TakeOp
    | SendOp(clientThere: bool)
    | AdmitOp(id: SubId, capacity: nat)
    | RegisterOp(id: SubId)
    | ReceiveOp(id: SubId)
    | CloseOp(id: SubId)
    | FlagOp
    | DropSenderOp
    | ClearOp

  function Apply(s: Stream, op: Op): Stream {
    match op
    case PushOp(data) => Push(s, data)
    case OfferOp => Offer(s)
    case TakeOp => TakeSender(s)
    case SendOp(clientThere) => Send(s, clientThere)
    case AdmitOp(id, capacity) => Admit(s, id, capacity)
    case RegisterOp(id) => Register(s, id)
    case ReceiveOp(id) => Receive(s, id)
    case CloseOp(id) => Close(s, id)
    case FlagOp => SetFlag(s)
    case DropSenderOp => DropSender(s)
    case ClearOp => ClearSubscribers(s)
  }

  function ApplyAll(s: Stream, ops: seq<Op>): Stream {
    if ops == [] then s else Apply(ApplyAll(s, ops[..|ops| - 1]), ops[|ops| - 1])
  }

  /** What a mailbox was sent starts where its subscriber joined and has no gap; what is still queued is the
      end of it. */
  predicate Gapless(m: Mailbox, history: seq<SseEvent>) {
    && m.joined <= |history| && m.sent <= history[m.joined..]
    && |m.queued| <= |m.sent| && m.queued == Last(m.sent, |m.queued|)
  }

  predicate Numbered(history: seq<SseEvent>) {
    forall i :: 0 <= i < |history| ==> history[i].sequence == i
  }

  predicate StreamOk(s: Stream) {
    && s.nextSeq == |s.history| && Numbered(s.history)
    && s.replay == Last(s.history, s.capacity)
    && (!s.emitter.Idle? ==> s.history != [] && s.emitter.event == s.history[|s.history| - 1])
  }

  /** A registered subscriber was sent everything since it registered, one that has yet to register nothing. */
  predicate BoxOk(m: Mailbox, heard: seq<SseEvent>, registered: bool, waiting: bool) {
    && Gapless(m, heard)
    && (registered ==> !waiting && m.sent == heard[m.joined..])
    && (waiting ==> m.sent == [])
  }

  predicate BoxesOk(s: Stream) {
    forall id | id in s.mailboxes :: BoxOk(s.mailboxes[id], Heard(s), id in s.subscribers, id in s.admitted)
  }

  predicate Known(s: Stream) {
    s.admitted <= s.mailboxes.Keys && forall id | id in s.subscribers :: id in s.mailboxes
  }

  predicate Inv(s: Stream) {
    StreamOk(s) && BoxesOk(s) && Known(s)
  }

  lemma LastOfLast<T>(h: seq<T>, e: T, n: nat)
    ensures Last(Last(h, n) + [e], n) == Last(h + [e], n)
  {
    if |h| > n {
      var l := Last(h, n) + [e];
      assert |l| == n + 1;
      assert Last(l, n) == l[1..];
    }
  }

  lemma GaplessLater(m: Mailbox, history: seq<SseEvent>, e: SseEvent)
    requires Gapless(m, history)
    ensures Gapless(m, history + [e])
  {
    assert (history + [e])[m.joined..] == history[m.joined..] + [e];
  }

  lemma DeliverGapless(m: Mailbox, history: seq<SseEvent>, e: SseEvent)
    requires Gapless(m, history) && m.sent == history[m.joined..]
    ensures Gapless(Deliver(m, e), history + [e]) && Deliver(m, e).sent == (history + [e])[m.joined..]
  {
    assert (history + [e])[m.joined..] == history[m.joined..] + [e];
    var d := Deliver(m, e);
    assert Last(d.sent, |d.queued|) == d.queued;
  }

  lemma PushKeeps(s: Stream, data: string)
    requires Inv(s)
    ensures Inv(Push(s, data))
  {
    if s.emitter.Idle? {
      LastOfLast(s.history, SseEvent(s.nextSeq, data), s.capacity);
      assert Heard(Push(s, data)) == Heard(s);
    }
  }

  lemma OfferedBoxOk(m: Mailbox, heard: seq<SseEvent>, e: SseEvent, registered: bool, waiting: bool)
    requires BoxOk(m, heard, registered, waiting)
    ensures var m' := if registered && Accepts(m) then Deliver(m, e) else m;
            BoxOk(m', heard + [e], registered && Accepts(m), waiting)
  {
    if registered && Accepts(m) {
      DeliverGapless(m, heard, e);
    } else {
      GaplessLater(m, heard, e);
    }
  }

  lemma OfferKeeps(s: Stream)
    requires Inv(s)
    ensures Inv(Offer(s))
  {
    if s.emitter.Pushed? {
      var e, s' := s.emitter.event, Offer(s);
      assert Heard(s') == Heard(s) + [e];
      forall id | id in s'.mailboxes
        ensures BoxOk(s'.mailboxes[id], Heard(s'), id in s'.subscribers, id in s'.admitted)
      {
        OfferedBoxOk(s.mailboxes[id], Heard(s), e, id in s.subscribers, id in s.admitted);
      }
    }
  }

  lemma TakeKeeps(s: Stream, clientThere: bool)
    requires Inv(s)
    ensures Inv(TakeSender(s)) && Inv(Send(s, clientThere))
  {
    assert Heard(TakeSender(s)) == Heard(s) == Heard(Send(s, clientThere));
  }

  lemma AdmitKeeps(s: Stream, id: SubId, capacity: nat)
    requires Inv(s)
    ensures Inv(Admit(s, id, capacity))
  {
    if id !in s.mailboxes {
      var s' := Admit(s, id, capacity);
      assert Heard(s') == Heard(s);
      assert BoxOk(s'.mailboxes[id], Heard(s), false, id in s'.admitted);
    }
  }

  lemma RegisterKeeps(s: Stream, id: SubId)
    requires Inv(s)
    ensures Inv(Register(s, id))
  {
    if id in s.admitted {
      var s' := Register(s, id);
      assert Heard(s') == Heard(s);
      assert BoxOk(s.mailboxes[id], Heard(s), id in s.subscribers, true);
      assert BoxOk(s'.mailboxes[id], Heard(s), true, false);
      assert forall x | x in s'.mailboxes && x != id :: x in s'.subscribers <==> x in s.subscribers;
    }
  }

  /** A step that only changes what is queued, or whether a channel is open. */
  lemma BoxKeeps(s: Stream, id: SubId, m: Mailbox)
    requires Inv(s) && id in s.mailboxes
    requires m.sent == s.mailboxes[id].sent && m.joined == s.mailboxes[id].joined && Gapless(m, Heard(s))
    ensures Inv(s.(mailboxes := s.mailboxes[id := m]))
  {
    var s' := s.(mailboxes := s.mailboxes[id := m]);
    assert Heard(s') == Heard(s);
    assert BoxOk(s.mailboxes[id], Heard(s), id in s.subscribers, id in s.admitted);
    assert BoxOk(m, Heard(s), id in s.subscribers, id in s.admitted);
  }

  lemma ReceiveGapless(m: Mailbox, history: seq<SseEvent>)
    requires Gapless(m, history) && m.queued != []
    ensures Gapless(m.(queued := m.queued[1..]), history)
  {
    assert m.queued[1..] == Last(m.sent, |m.queued| - 1);
  }

  lemma ReceiveKeeps(s: Stream, id: SubId)
    requires Inv(s)
    ensures Inv(Receive(s, id)) && Inv(Close(s, id))
  {
    if id in s.mailboxes {
      var m := s.mailboxes[id];
      assert BoxOk(m, Heard(s), id in s.subscribers, id in s.admitted);
      BoxKeeps(s, id, m.(open := false));
      if m.queued != [] {
        ReceiveGapless(m, Heard(s));
        BoxKeeps(s, id, m.(queued := m.queued[1..]));
      }
    }
  }

  lemma CompletionKeeps(s: Stream)
    requires Inv(s)
    ensures Inv(SetFlag(s)) && Inv(DropSender(s)) && Inv(ClearSubscribers(s))
  {
    assert Heard(SetFlag(s)) == Heard(s) == Heard(DropSender(s));
    assert Heard(ClearSubscribers(s)) == Heard(s);
  }

  lemma ApplyKeeps(s: Stream, op: Op)
    requires Inv(s)
    ensures Inv(Apply(s, op))
  {
    match op
    case PushOp(data) => PushKeeps(s, data);
    case OfferOp => OfferKeeps(s);
    case TakeOp => TakeKeeps(s, true);
    case SendOp(clientThere) => TakeKeeps(s, clientThere);
    case AdmitOp(id, capacity) => AdmitKeeps(s, id, capacity);
    case RegisterOp(id) => RegisterKeeps(s, id);
    case ReceiveOp(id) => ReceiveKeeps(s, id);
    case CloseOp(id) => ReceiveKeeps(s, id);
    case _ => CompletionKeeps(s);
  }

  lemma {:induction false} AllKeep(s: Stream, ops: seq<Op>)
    requires Inv(s)
    ensures Inv(ApplyAll(s, ops))
  {
    if ops != [] {
      AllKeep(s, ops[..|ops| - 1]);
      ApplyKeeps(ApplyAll(s, ops[..|ops| - 1]), ops[|ops| - 1]);
    }
  }

  /** How many emits the operations start: a push while another emit is under way is none. */
  function EmittedBy(capacity: nat, ops: seq<Op>): nat {
    if ops == [] then 0
    else
      var before := ops[..|ops| - 1];
      EmittedBy(capacity, before)
      + if ops[|ops| - 1].PushOp? && ApplyAll(New(capacity), before).emitter.Idle? then 1 else 0
  }

  lemma {:induction false} HistoryLength(capacity: nat, ops: seq<Op>)
    ensures |ApplyAll(New(capacity), ops).history| == EmittedBy(capacity, ops)
    ensures ApplyAll(New(capacity), ops).capacity == capacity
  {
    if ops != [] {
      HistoryLength(capacity, ops[..|ops| - 1]);
    }
  }

  /** After any operations with `n` emits, the replay buffer is the last min(n, capacity) events, numbered
      consecutively up to n - 1. */
  lemma ReplayIsLatest(capacity: nat, ops: seq<Op>)
    ensures var s, n := ApplyAll(New(capacity), ops), EmittedBy(capacity, ops);
            && |s.replay| == (if n < capacity then n else capacity)
            && s.replay == Last(s.history, capacity)
            && forall i :: 0 <= i < |s.replay| ==> s.replay[i].sequence == n - |s.replay| + i
  {
    AllKeep(New(capacity), ops);
    HistoryLength(capacity, ops);
  }

  /** A subscriber still registered was sent every event offered since it registered; one that was dropped was sent
      an unbroken first part of them. */
  lemma SubscribersSeeNoGap(capacity: nat, ops: seq<Op>, id: SubId)
    requires id in ApplyAll(New(capacity), ops).mailboxes
    ensures var s := ApplyAll(New(capacity), ops);
            && s.mailboxes[id].joined <= |Heard(s)|
            && s.mailboxes[id].sent <= Heard(s)[s.mailboxes[id].joined..]
            && (id in s.subscribers ==> s.mailboxes[id].sent == Heard(s)[s.mailboxes[id].joined..])
  {
    AllKeep(New(capacity), ops);
    var s := ApplyAll(New(capacity), ops);
    assert BoxOk(s.mailboxes[id], Heard(s), id in s.subscribers, id in s.admitted);
  }
}
