/** A client resuming a stream while it is still being written: subscribe first, check for a gap, replay
    the buffer, then forward live events that were not replayed. Every interleaving with the emitter. */
module StreamResume {

  datatype Phase = Connecting | Admitted | Subscribed | Checked | Replayed | Live | Refused | Ended

  /** Events are their sequence numbers. `emitted` have been pushed to the buffer, of which the last may still
      have to be fanned out. The resuming client says it has everything up to `after`. */
  datatype State = State(
    capacity: nat,        // of the replay buffer
    window: nat,          // of the subscriber's channel
    emitted: nat,
    fanOutDue: bool,
    completed: bool,      // the flag is up
    cleared: bool,        // the subscribers were dropped at least once
    after: nat,
    phase: Phase,
    registered: bool,
    queue: seq<nat>,
    taken: nat,           // the next event the queue holds or will hold
    snapshot: nat,        // how many events had been emitted when the buffer was replayed
    out: seq<nat>,        // what the client received
    wentLive: bool,       // the stream was not complete when the client finished its replay
    dropped: bool,        // a fan-out found no room for the client, and dropped it
    cutShort: bool        // an event was left to fan out when they were, or was emitted later
  )

  /** The oldest event in the buffer, or the next one if the buffer is empty. */
  function Oldest(capacity: nat, emitted: nat): nat {
    if emitted > capacity then emitted - capacity else 0
  }

  function Range(lo: nat, hi: nat): (r: seq<nat>)
    ensures |r| == (if lo < hi then hi - lo else 0) && forall i :: 0 <= i < |r| ==> r[i] == lo + i
  {
    seq(if lo < hi then hi - lo else 0, i => lo + i)
  }

  function Max(a: nat, b: nat): nat {
    if a < b then b else a
  }

  function FannedOut(s: State): int {
    if s.fanOutDue then s.emitted - 1 else s.emitted
  }

  /** The highest event the client has after the replay; live events up to it are duplicates. */
  function MaxReplayed(s: State): nat {
    if s.snapshot > s.after + 1 then s.snapshot - 1 else s.after
  }

  // ---------------------------------------------------------------------------
  // Steps
  // ---------------------------------------------------------------------------

  predicate Push(s: State, s': State) {
    !s.fanOutDue && s' == s.(emitted := s.emitted + 1, fanOutDue := true, cutShort := s.cutShort || s.cleared)
  }

  predicate FanOut(s: State, s': State) {
    && s.fanOutDue && s.emitted > 0
    && var taken := s.registered && !s.phase.Refused? && !s.phase.Ended? && |s.queue| < s.window;
       s' == s.(fanOutDue := false, registered := taken, dropped := s.dropped || (s.registered && !taken),
                queue := if taken then s.queue + [s.emitted - 1] else s.queue)
  }

  /** Completing raises the flag and later drops the subscribers. */
  predicate Flag(s: State, s': State) {
    s' == s.(completed := true)
  }

  predicate Clear(s: State, s': State) {
    s.completed && s' == s.(registered := false, cleared := true, cutShort := s.cutShort || s.fanOutDue)
  }

  /** Subscribing looks at the flag and, if that is down, later registers. */
  predicate Look(s: State, s': State) {
    s.phase.Connecting? && s' == s.(phase := if s.completed then Subscribed else Admitted)
  }

  predicate Register(s: State, s': State) {
    && s.phase.Admitted? && FannedOut(s) >= 0
    && s' == s.(phase := Subscribed, registered := true, taken := FannedOut(s))
  }

  /** The gap check looks at the front of the buffer, if there is one. */
  predicate CheckGap(s: State, s': State) {
    && s.phase.Subscribed?
    && var oldest := Oldest(s.capacity, s.emitted);
       var behind := oldest < s.emitted && s.after < (if oldest > 0 then oldest - 1 else 0);
       s' == s.(phase := if behind then Refused else Checked)
  }

  predicate Replay(s: State, s': State) {
    && s.phase.Checked?
    && s' == s.(phase := Replayed, snapshot := s.emitted,
                out := Range(Max(s.after + 1, Oldest(s.capacity, s.emitted)), s.emitted))
  }

  predicate GoLive(s: State, s': State) {
    s.phase.Replayed? && s' == s.(phase := if s.completed then Ended else Live, wentLive := !s.completed)
  }

  predicate Forward(s: State, s': State) {
    && s.phase.Live? && s.queue != []
    && s' == s.(queue := s.queue[1..], taken := s.taken + 1,
                out := if s.queue[0] > MaxReplayed(s) then s.out + [s.queue[0]] else s.out)
  }

  predicate Finish(s: State, s': State) {
    s.phase.Live? && s.queue == [] && !s.registered && s' == s.(phase := Ended)
  }

  predicate Next(s: State, s': State) {
    || Push(s, s') || FanOut(s, s') || Flag(s, s') || Clear(s, s') || Look(s, s') || Register(s, s')
    || CheckGap(s, s') || Replay(s, s') || GoLive(s, s') || Forward(s, s') || Finish(s, s')
  }

  predicate Init(s: State) {
    && s.phase.Connecting? && !s.registered && s.queue == [] && s.out == [] && s.snapshot == 0 && s.taken == 0
    && (s.fanOutDue ==> s.emitted > 0) && (s.cleared && s.fanOutDue ==> s.cutShort)
    && (s.cutShort ==> s.cleared) && (s.cleared ==> s.completed) && !s.wentLive && !s.dropped
  }

  // ---------------------------------------------------------------------------
  // The invariant
  // ---------------------------------------------------------------------------

  predicate Delivering(s: State) {
    s.phase.Replayed? || s.phase.Live? || s.phase.Ended?
  }

  /** The first event the client can have received. */
  function First(s: State): nat {
    Max(s.after + 1, Oldest(s.capacity, s.snapshot))
  }

  predicate Inv(s: State) {
    && (s.fanOutDue ==> s.emitted > 0)
    && (s.phase.Connecting? || s.phase.Admitted? ==> s.queue == [] && !s.registered)
    && s.queue == Range(s.taken, s.taken + |s.queue|)
    && (s.registered ==> s.taken + |s.queue| == FannedOut(s))
    && s.taken + |s.queue| <= s.emitted
    && (Delivering(s) ==>
          && s.snapshot <= s.emitted
          && s.out == Range(First(s), Max(MaxReplayed(s) + 1, s.taken)))
    && (s.phase.Replayed? ==> s.taken <= s.snapshot)
    && Endings(s)
  }

  /** How a client can come to get no more events. */
  predicate Endings(s: State) {
    && (s.cleared && s.fanOutDue ==> s.cutShort) && (s.cutShort ==> s.cleared) && (s.cleared ==> s.completed)
    && (s.phase.Connecting? || s.phase.Admitted? ==> !s.dropped && s.taken == 0)
    && (s.registered ==> !s.dropped && !(s.wentLive && s.cleared))
    && (!s.phase.Connecting? && !s.phase.Admitted? && !s.completed ==> s.registered || s.dropped)
    && (s.wentLive && !s.cleared ==> s.registered || s.dropped)
    && (s.wentLive ==> s.phase.Live? || s.phase.Ended?)
    && (s.phase.Live? ==> s.wentLive)
    && (s.wentLive && !s.registered && !s.dropped && !s.cutShort ==> s.taken + |s.queue| == s.emitted)
    && (((s.wentLive && s.cutShort) || s.dropped) && s.emitted > s.snapshot ==> s.taken + |s.queue| < s.emitted)
    && (s.phase.Ended? ==> if s.wentLive then !s.registered && s.queue == [] else s.taken <= s.snapshot)
  }

  lemma RangeExtend(lo: nat, hi: nat)
    requires lo <= hi
    ensures Range(lo, hi) + [hi] == Range(lo, hi + 1)
  {
  }

  lemma RangeTail(lo: nat, hi: nat)
    requires lo < hi
    ensures Range(lo, hi)[1..] == Range(lo + 1, hi)
  {
  }

  lemma FirstBounded(s: State)
    ensures First(s) <= MaxReplayed(s) + 1
  {
  }

  lemma PushKeeps(s: State, s': State)
    requires Inv(s) && Push(s, s')
    ensures Inv(s')
  {
  }

  lemma CompletionKeeps(s: State, s': State)
    requires Inv(s) && (Flag(s, s') || Clear(s, s'))
    ensures Inv(s')
  {
  }

  lemma FanOutKeeps(s: State, s': State)
    requires Inv(s) && FanOut(s, s')
    ensures Inv(s')
  {
    if s'.queue != s.queue {
      RangeExtend(s.taken, s.taken + |s.queue|);
    }
  }

  lemma ClientKeeps(s: State, s': State)
    requires Inv(s)
    requires Look(s, s') || Register(s, s') || CheckGap(s, s') || Replay(s, s') || GoLive(s, s') || Finish(s, s')
    ensures Inv(s')
  {
    if Replay(s, s') {
      assert s'.out == Range(First(s'), Max(MaxReplayed(s') + 1, s'.taken));
    }
  }

  lemma ForwardKeeps(s: State, s': State)
    requires Inv(s) && Forward(s, s')
    ensures Inv(s')
  {
    RangeTail(s.taken, s.taken + |s.queue|);
    FirstBounded(s);
    if s.queue[0] > MaxReplayed(s) {
      RangeExtend(First(s), s.taken);
    }
  }

  lemma NextKeeps(s: State, s': State)
    requires Inv(s) && Next(s, s')
    ensures Inv(s')
  {
    if Forward(s, s') {
      ForwardKeeps(s, s');
    } else if FanOut(s, s') {
      FanOutKeeps(s, s');
    } else if Push(s, s') {
      PushKeeps(s, s');
    } else if Flag(s, s') || Clear(s, s') {
      CompletionKeeps(s, s');
    } else {
      ClientKeeps(s, s');
    }
  }

  // ---------------------------------------------------------------------------
  // Runs
  // ---------------------------------------------------------------------------

  predicate IsRun(run: seq<State>) {
    run != [] && Init(run[0]) && forall i :: 0 <= i < |run| - 1 ==> Next(run[i], run[i + 1])
  }

  lemma {:induction false} RunKeeps(run: seq<State>, i: nat)
    requires IsRun(run) && i < |run|
    ensures Inv(run[i])
  {
    if i > 0 {
      RunKeeps(run, i - 1);
      NextKeeps(run[i - 1], run[i]);
    }
  }

  /** In every interleaving, what a resumed client receives is consecutive and without duplicates; it starts
      right behind what the client has exactly when, at the moment of the replay, the stream was at most one
      bufferful ahead of the client. */
  lemma ResumedWithoutGap(run: seq<State>, i: nat)
    requires IsRun(run) && i < |run| && Delivering(run[i])
    ensures var s := run[i];
            && (forall j :: 0 <= j < |s.out| ==> s.out[j] == First(s) + j)
            && (First(s) == s.after + 1 <==> s.snapshot <= s.after + 1 + s.capacity)
  {
    RunKeeps(run, i);
  }

  /** A client still registered that has drained its queue has everything the emitter has sent out. */
  lemma ResumedCompletely(run: seq<State>, i: nat)
    requires IsRun(run) && i < |run| && run[i].phase.Live? && run[i].registered && run[i].queue == [] && !run[i].fanOutDue
    ensures var s := run[i]; forall e :: First(s) <= e < s.emitted ==> e in s.out
  {
    RunKeeps(run, i);
    var s := run[i];
    forall e | First(s) <= e < s.emitted ensures e in s.out {
      assert s.out[e - First(s)] == e;
    }
  }

  /** A refused client had really lost events: the buffer no longer reached back to the next one it needs. */
  lemma RefusedOnlyBehind(s: State, s': State)
    requires CheckGap(s, s')
    ensures s'.phase.Refused? <==> s.capacity > 0 && s.emitted > s.after + 1 + s.capacity
  {
  }

  /** The check does not bind the replay, a separate reading of the buffer: with room for one event, a client
      that has event 0 passes the check, another event pushes event 1 out, and the client never gets it. */
  lemma GapAfterCheck() returns (run: seq<State>)
    ensures IsRun(run)
    ensures var s := run[|run| - 1]; s.phase.Replayed? && s.after == 0 && s.emitted == 3 && s.out == [2]
  {
    var s0 := State(1, 256, 2, false, false, false, 0, Connecting, false, [], 0, 0, [], false, false, false);
    var s1 := s0.(phase := Admitted);
    var s2 := s1.(phase := Subscribed, registered := true, taken := 2);
    var s3 := s2.(phase := Checked);
    var s4 := s3.(emitted := 3, fanOutDue := true);
    var s5 := s4.(phase := Replayed, snapshot := 3, out := [2]);
    assert Range(2, 3) == [2];
    run := [s0, s1, s2, s3, s4, s5];
  }

  /** Once a client gets no more events, it has every event behind what it had exactly when it had nothing to get,
      or its replay was in time and no event came after the replay, or one did and the client went live, was not
      dropped by a fan-out, and the subscribers were not dropped before an event or its fan-out. */
  lemma EndedCompletely(run: seq<State>, i: nat)
    requires IsRun(run) && i < |run| && run[i].phase.Ended?
    ensures var s := run[i];
            s.out == Range(s.after + 1, s.emitted) <==>
              || s.emitted <= s.after + 1
              || (&& s.snapshot <= s.after + 1 + s.capacity
                  && (s.emitted == s.snapshot || (s.wentLive && !s.dropped && !s.cutShort)))
  {
    RunKeeps(run, i);
    var s := run[i];
    var end := Max(MaxReplayed(s) + 1, s.taken);
    SameRange(First(s), end, s.after + 1, s.emitted);
  }

  lemma SameRange(a: nat, b: nat, c: nat, d: nat)
    ensures Range(a, b) == Range(c, d) <==> (a >= b && c >= d) || (a == c && b == d)
  {
    if a < b {
      assert Range(a, b)[0] == a;
    }
    if c < d {
      assert Range(c, d)[0] == c;
    }
  }

  /** The end of a stream can be lost although the replay was in time: event 2 comes after the replay and waits in
      the queue, the stream completes, and the client, which finds it complete, reads no further. */
  lemma EndLost() returns (run: seq<State>)
    ensures IsRun(run)
    ensures var s := run[|run| - 1];
            && s.phase.Ended? && s.completed && s.snapshot <= s.after + 1 + s.capacity
            && s.emitted == 3 && s.queue == [2] && s.out == [1]
  {
    var s0 := State(100, 256, 2, false, false, false, 0, Connecting, false, [], 0, 0, [], false, false, false);
    var s1 := s0.(phase := Admitted);
    var s2 := s1.(phase := Subscribed, registered := true, taken := 2);
    var s3 := s2.(phase := Checked);
    var s4 := s3.(phase := Replayed, snapshot := 2, out := [1]);
    var s5 := s4.(emitted := 3, fanOutDue := true);
    var s6 := s5.(fanOutDue := false, queue := [2]);
    var s7 := s6.(completed := true);
    var s8 := s7.(registered := false, cleared := true);
    var s9 := s8.(phase := Ended);
    assert Range(1, 2) == [1];
    run := [s0, s1, s2, s3, s4, s5, s6, s7, s8, s9];
  }
}
