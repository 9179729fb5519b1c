/** The session table with its cap: a creator inserts first, looks at the size, and takes its entry back
    out when the table is over the cap. */
module SessionStore {
  import opened Wrappers

  type SessionId = nat

  // ---------------------------------------------------------------------------
  // One caller at a time
  // ---------------------------------------------------------------------------

  class Store {
    const ttl: nat
    const maxSessions: nat
    /** Each session's last activity. */
    var sessions: map<SessionId, nat>

    constructor (ttl: nat, maxSessions: nat)
      ensures this.ttl == ttl && this.maxSessions == maxSessions && sessions == map[]
    {
      this.ttl, this.maxSessions := ttl, maxSessions;
      sessions := map[];
    }

    /** `id` is the fresh UUID. Undoing the insert leaves the table as it was. */
    method Create(id: SessionId, now: nat) returns (r: Option<SessionId>)
      requires id !in sessions
      modifies this`sessions
      ensures r == if |old(sessions)| < maxSessions then Some(id) else None
      ensures sessions == if r.Some? then old(sessions)[id := now] else old(sessions)
    {
      sessions := sessions[id := now];
      assert |sessions| == |old(sessions)| + 1;
      if |sessions| > maxSessions {
        sessions := sessions - {id};
        return None;
      }
      r := Some(id);
    }

    method Remove(id: SessionId) returns (found: bool)
      modifies this`sessions
      ensures found == (id in old(sessions)) && sessions == old(sessions) - {id}
    {
      found := id in sessions;
      sessions := sessions - {id};
    }

    /** Collects the expired ids, then removes them one by one. */
    method CleanupExpired(now: nat)
      modifies this`sessions
      ensures sessions == map id | id in old(sessions) && !(now > old(sessions)[id] + ttl) :: old(sessions)[id]
    {
      var expired := set id | id in sessions && now > sessions[id] + ttl;
      var todo := expired;
      while todo != {}
        invariant todo <= expired && sessions == old(sessions) - (expired - todo)
        decreases todo
      {
        var id :| id in todo;
        sessions := sessions - {id};
        todo := todo - {id};
      }
    }
  }

  // ---------------------------------------------------------------------------
  // Any number of creators, removers and cleaners
  // ---------------------------------------------------------------------------

  datatype Creator = Inserting | Counting | Undoing | Granted | Rejected

  /** A creator is known by the fresh id it generated. `removed` are the ids taken out by `remove` or the
      cleanup. */
  datatype State = State(maxSessions: nat, sessions: set<SessionId>, creators: map<SessionId, Creator>, removed: set<SessionId>)

  predicate CreatorStep(s: State, id: SessionId, s': State) {
    id in s.creators &&
    match s.creators[id]
    case Inserting => s' == s.(sessions := s.sessions + {id}, creators := s.creators[id := Counting])
    case Counting => s' == s.(creators := s.creators[id := if |s.sessions| > s.maxSessions then Undoing else Granted])
    case Undoing => s' == s.(sessions := s.sessions - {id}, creators := s.creators[id := Rejected])
    case _ => false
  }

  predicate Spawn(s: State, id: SessionId, s': State) {
    id !in s.creators && s' == s.(creators := s.creators[id := Inserting])
  }

  /** `remove` by a client or the cleanup takes out whatever is there. */
  predicate RemoveStep(s: State, id: SessionId, s': State) {
    id in s.sessions && s' == s.(sessions := s.sessions - {id}, removed := s.removed + {id})
  }

  ghost predicate Next(s: State, s': State) {
    exists id :: CreatorStep(s, id, s') || Spawn(s, id, s') || RemoveStep(s, id, s')
  }

  predicate Init(s: State) {
    s == State(s.maxSessions, {}, map[], {})
  }

  /** The sessions handed to a client and not removed since. */
  function HandedOut(s: State): set<SessionId> {
    set id | id in s.creators && s.creators[id].Granted? && id !in s.removed
  }

  /** Inserted, not yet decided or not yet undone, and not removed by anyone else. */
  function InFlight(s: State): set<SessionId> {
    set id | id in s.creators && (s.creators[id].Counting? || s.creators[id].Undoing?) && id !in s.removed
  }

  predicate Inv(s: State) {
    && s.sessions == HandedOut(s) + InFlight(s)
    && |HandedOut(s)| <= s.maxSessions
    && s.removed <= s.creators.Keys
    && forall id | id in s.removed :: !s.creators[id].Inserting?
  }

  lemma Subset<T>(a: set<T>, b: set<T>)
    requires a <= b
    ensures |a| <= |b|
  {
    assert b == a + (b - a);
  }

  lemma InsertKeeps(s: State, id: SessionId, s': State)
    requires Inv(s) && id in s.creators && s.creators[id].Inserting? && CreatorStep(s, id, s')
    ensures Inv(s')
  {
    assert HandedOut(s') == HandedOut(s);
    assert InFlight(s') == InFlight(s) + {id};
  }

  lemma RejectKeeps(s: State, id: SessionId, s': State)
    requires Inv(s) && id in s.creators && s.creators[id].Counting? && s' == s.(creators := s.creators[id := Undoing])
    ensures Inv(s')
  {
    assert HandedOut(s') == HandedOut(s);
    assert InFlight(s') == InFlight(s);
  }

  lemma GrantKeeps(s: State, id: SessionId, s': State)
    requires Inv(s) && id in s.creators && s.creators[id].Counting? && |s.sessions| <= s.maxSessions
    requires s' == s.(creators := s.creators[id := Granted])
    ensures Inv(s')
  {
    GrantMoves(s, id, s');
    Subset(HandedOut(s'), s'.sessions);
  }

  lemma GrantMoves(s: State, id: SessionId, s': State)
    requires id in s.creators && s.creators[id].Counting? && s' == s.(creators := s.creators[id := Granted])
    ensures HandedOut(s') + InFlight(s') == HandedOut(s) + InFlight(s)
  {
    var own := if id in s.removed then {} else {id};
    assert HandedOut(s') == HandedOut(s) + own;
    assert InFlight(s') == InFlight(s) - own;
    assert own <= InFlight(s);
  }

  lemma UndoKeeps(s: State, id: SessionId, s': State)
    requires Inv(s) && id in s.creators && s.creators[id].Undoing? && CreatorStep(s, id, s')
    ensures Inv(s')
  {
    assert HandedOut(s') == HandedOut(s);
    assert InFlight(s') == InFlight(s) - {id};
  }

  lemma SpawnKeeps(s: State, id: SessionId, s': State)
    requires Inv(s) && Spawn(s, id, s')
    ensures Inv(s')
  {
    assert HandedOut(s') == HandedOut(s);
    assert InFlight(s') == InFlight(s);
  }

  lemma RemoveKeeps(s: State, id: SessionId, s': State)
    requires Inv(s) && RemoveStep(s, id, s')
    ensures Inv(s')
  {
    assert HandedOut(s') == HandedOut(s) - {id};
    assert InFlight(s') == InFlight(s) - {id};
    Subset(HandedOut(s'), HandedOut(s));
  }

  lemma CreatorKeeps(s: State, id: SessionId, s': State)
    requires Inv(s) && CreatorStep(s, id, s')
    ensures Inv(s')
  {
    match s.creators[id]
    case Inserting => InsertKeeps(s, id, s');
    case Counting =>
      if |s.sessions| > s.maxSessions {
        RejectKeeps(s, id, s');
      } else {
        GrantKeeps(s, id, s');
      }
    case Undoing => UndoKeeps(s, id, s');
  }

  lemma NextKeeps(s: State, s': State)
    requires Inv(s) && Next(s, s')
    ensures Inv(s')
  {
    var id :| CreatorStep(s, id, s') || Spawn(s, id, s') || RemoveStep(s, id, s');
    if CreatorStep(s, id, s') {
      CreatorKeeps(s, id, s');
    } else if Spawn(s, id, s') {
      SpawnKeeps(s, id, s');
    } else {
      RemoveKeeps(s, id, s');
    }
  }

  ghost predicate IsRun(run: seq<State>) {
    run != [] && Init(run[0]) && forall i :: 0 <= i < |run| - 1 ==> Next(run[i], run[i + 1])
  }

  lemma {:induction false} RunKeeps(run: seq<State>, i: nat)
    requires IsRun(run) && i < |run|
    ensures Inv(run[i])
  {
    if i > 0 {
      RunKeeps(run, i - 1);
      NextKeeps(run[i - 1], run[i]);
    }
  }

  /** In every interleaving the sessions handed out never exceed the cap, and the table is exactly those plus
      the creations in flight. */
  lemma CapHolds(run: seq<State>, i: nat)
    requires IsRun(run) && i < |run|
    ensures |HandedOut(run[i])| <= run[i].maxSessions
    ensures run[i].sessions == HandedOut(run[i]) + InFlight(run[i])
  {
    RunKeeps(run, i);
  }

  /** A creator is turned away exactly when the sessions handed out and in flight exceed the cap. */
  lemma RejectedExactly(run: seq<State>, i: nat, id: SessionId, s': State)
    requires IsRun(run) && i < |run| && id in run[i].creators && run[i].creators[id].Counting? && CreatorStep(run[i], id, s')
    ensures s'.creators[id].Undoing? <==> |HandedOut(run[i]) + InFlight(run[i])| > run[i].maxSessions
  {
    RunKeeps(run, i);
  }

  /** So two creators can turn each other away while a place is free. */
  lemma BothRejected() returns (run: seq<State>)
    ensures IsRun(run)
    ensures run[|run| - 1] == State(1, {}, map[10 := Rejected, 11 := Rejected], {})
  {
    var s0 := State(1, {}, map[], {});
    var s1 := s0.(creators := map[10 := Inserting]);
    var s2 := s0.(creators := map[10 := Inserting, 11 := Inserting]);
    var s3 := s0.(sessions := {10}, creators := map[10 := Counting, 11 := Inserting]);
    var s4 := s0.(sessions := {10, 11}, creators := map[10 := Counting, 11 := Counting]);
    var s5 := s4.(creators := map[10 := Undoing, 11 := Counting]);
    var s6 := s4.(creators := map[10 := Undoing, 11 := Undoing]);
    var s7 := s0.(sessions := {11}, creators := map[10 := Rejected, 11 := Undoing]);
    var s8 := s0.(creators := map[10 := Rejected, 11 := Rejected]);
    assert Spawn(s0, 10, s1);
    assert Spawn(s1, 11, s2);
    assert CreatorStep(s2, 10, s3);
    assert CreatorStep(s3, 11, s4);
    assert CreatorStep(s4, 10, s5);
    assert CreatorStep(s5, 11, s6);
    assert CreatorStep(s6, 10, s7);
    assert CreatorStep(s7, 11, s8);
    run := [s0, s1, s2, s3, s4, s5, s6, s7, s8];
  }
}
