/** The clean-up of idle sessions beside the clients that use them: it reads the clock, looks at the sessions one by one,
    and removes those it found idle one by one. */
module SessionCleanup {
  import opened Wrappers

  type SessionId = nat

  /** A sweep judges by the time at which it began; `found` are the sessions it has found idle and not removed. */
  datatype Sweep = Resting | Looking(began: nat, found: set<SessionId>) | Removing(found: set<SessionId>)

  /** `sessions` holds each session's last activity, `used` every id there ever was. */
  datatype State = State(ttl: nat, clock: nat, sessions: map<SessionId, nat>, used: set<SessionId>, sweep: Sweep)

  predicate Finds(s: State, id: SessionId) {
    !s.sweep.Resting? && id in s.sweep.found
  }

  // ---------------------------------------------------------------------------
  // Steps
  // ---------------------------------------------------------------------------

  predicate Pass(s: State, s': State) {
    s.clock < s'.clock && s' == s.(clock := s'.clock)
  }

  predicate Create(s: State, id: SessionId, s': State) {
    id !in s.used && s' == s.(sessions := s.sessions[id := s.clock], used := s.used + {id})
  }

  predicate Touch(s: State, id: SessionId, s': State) {
    id in s.sessions && s' == s.(sessions := s.sessions[id := s.clock])
  }

  /** A client ends its session. */
  predicate Delete(s: State, id: SessionId, s': State) {
    s' == s.(sessions := s.sessions - {id})
  }

  predicate Begin(s: State, s': State) {
    s.sweep.Resting? && s' == s.(sweep := Looking(s.clock, {}))
  }

  predicate Look(s: State, id: SessionId, s': State) {
    && s.sweep.Looking? && id in s.sessions
    && s' == if s.sweep.began > s.sessions[id] + s.ttl then s.(sweep := Looking(s.sweep.began, s.sweep.found + {id})) else s
  }

  predicate Turn(s: State, s': State) {
    s.sweep.Looking? && s' == s.(sweep := Removing(s.sweep.found))
  }

  /** Removing does not look again. */
  predicate Remove(s: State, id: SessionId, s': State) {
    && s.sweep.Removing? && id in s.sweep.found
    && s' == s.(sessions := s.sessions - {id}, sweep := Removing(s.sweep.found - {id}))
  }

  predicate Rest(s: State, s': State) {
    s.sweep.Removing? && s.sweep.found == {} && s' == s.(sweep := Resting)
  }

  ghost predicate Next(s: State, s': State) {
    || Pass(s, s') || Begin(s, s') || Turn(s, s') || Rest(s, s')
    || exists id :: Create(s, id, s') || Touch(s, id, s') || Delete(s, id, s') || Look(s, id, s') || Remove(s, id, s')
  }

  predicate Init(s: State) {
    s == State(s.ttl, s.clock, map[], {}, Resting)
  }

  ghost predicate IsRun(run: seq<State>) {
    run != [] && Init(run[0]) && forall i :: 0 <= i < |run| - 1 ==> Next(run[i], run[i + 1])
  }

  predicate Inv(s: State) {
    s.sessions.Keys <= s.used && (s.sweep.Looking? ==> s.sweep.began <= s.clock)
  }

  lemma {:induction false} RunKeeps(run: seq<State>, i: nat)
    requires IsRun(run) && i < |run|
    ensures Inv(run[i])
  {
    if i > 0 {
      RunKeeps(run, i - 1);
      assert Next(run[i - 1], run[i]);
    }
  }

  // ---------------------------------------------------------------------------
  // Idle, and removed
  // ---------------------------------------------------------------------------

  predicate Idle(s: State, id: SessionId)
    requires id in s.sessions
  {
    s.clock > s.sessions[id] + s.ttl
  }

  /** One step as one session sees it. */
  lemma StepOfSession(s: State, s': State, id: SessionId)
    requires Inv(s) && Next(s, s') && id in s'.sessions && id in s.used
    ensures id in s.sessions && s'.ttl == s.ttl && s'.clock >= s.clock && id in s'.used
    ensures s'.sessions[id] == s.sessions[id] || (Touch(s, id, s') && s'.sessions[id] == s.clock)
    ensures Touch(s, id, s') ==> s'.sessions[id] == s.clock
  {
  }

  /** When the session was last touched in the steps from `k` to `i`. */
  function LastTouch(run: seq<State>, k: nat, i: nat, id: SessionId): Option<nat>
    requires i < |run|
  {
    if i <= k then None
    else if Touch(run[i - 1], id, run[i]) then Some(run[i - 1].clock)
    else LastTouch(run, k, i - 1, id)
  }

  /** Between two moments of a run a session was last active as at the first, or at its last touch since. */
  lemma {:induction false} ActivityFollows(run: seq<State>, k: nat, i: nat, id: SessionId)
    requires IsRun(run) && k <= i < |run| && id in run[k].used && id in run[i].sessions
    ensures id in run[k].sessions && run[i].ttl == run[k].ttl && run[k].clock <= run[i].clock
    ensures run[i].sessions[id]
         == match LastTouch(run, k, i, id) case Some(time) => time case None => run[k].sessions[id]
    decreases i
  {
    if k < i {
      var s, s' := run[i - 1], run[i];
      assert Next(s, s');
      RunKeeps(run, i - 1);
      UsedStays(run, k, i - 1, id);
      StepOfSession(s, s', id);
      ActivityFollows(run, k, i - 1, id);
    }
  }

  lemma {:induction false} UsedStays(run: seq<State>, k: nat, i: nat, id: SessionId)
    requires IsRun(run) && k <= i < |run| && id in run[k].used
    ensures id in run[i].used
    decreases i
  {
    if k < i {
      UsedStays(run, k, i - 1, id);
      assert Next(run[i - 1], run[i]);
    }
  }

  /** In every run: a session that the sweep found idle at `k` and removes at `i` is idle then exactly if nobody has
      touched it since it was looked at, or the last touch is longer ago than its time to live. */
  lemma RemovedIdleExactly(run: seq<State>, k: nat, i: nat, id: SessionId)
    requires IsRun(run) && k < i < |run| - 1
    requires Look(run[k], id, run[k + 1]) && Finds(run[k + 1], id) && !Finds(run[k], id)
    requires Remove(run[i], id, run[i + 1]) && id in run[i].sessions
    ensures Idle(run[i], id) <==>
              match LastTouch(run, k + 1, i, id) case None => true case Some(time) => run[i].clock > time + run[i].ttl
  {
    RunKeeps(run, k);
    FoundWasIdle(run[k], id, run[k + 1]);
    ActivityFollows(run, k + 1, i, id);
  }

  lemma FoundWasIdle(s: State, id: SessionId, s': State)
    requires Inv(s) && Look(s, id, s') && Finds(s', id) && !Finds(s, id)
    ensures id in s'.used && id in s'.sessions && Idle(s', id)
  {
  }

  /** So a session can be removed while it is in use. */
  lemma ActiveSessionRemoved() returns (run: seq<State>)
    ensures IsRun(run) && |run| == 8
    ensures Remove(run[6], 1, run[7]) && 1 in run[6].sessions && !Idle(run[6], 1)
  {
    var s0 := State(10, 0, map[], {}, Resting);
    var s1 := s0.(sessions := map[1 := 0], used := {1});
    var s2 := s1.(clock := 11);
    var s3 := s2.(sweep := Looking(11, {}));
    var s4 := s2.(sweep := Looking(11, {1}));
    var s5 := s2.(sweep := Removing({1}));
    var s6 := s5.(sessions := map[1 := 11]);
    var s7 := s6.(sessions := map[], sweep := Removing({}));
    assert s0.sessions[1 := 0] == s1.sessions && s5.sessions[1 := 11] == s6.sessions && s6.sessions - {1} == map[];
    assert Create(s0, 1, s1) && Look(s3, 1, s4) && Touch(s5, 1, s6) && Remove(s6, 1, s7);
    run := [s0, s1, s2, s3, s4, s5, s6, s7];
  }
}
