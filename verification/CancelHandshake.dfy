/** Cancelling a running query: the canceller raises a flag and then looks for a connection to kill, the
    driver publishes its connection and then looks at the flag. */
module CancelHandshake {
  import opened Wrappers

  type ConnId = nat

  // ---------------------------------------------------------------------------
  // The shared state
  // ---------------------------------------------------------------------------

  class CancelState {
    var cancelled: bool
    var connectionId: Option<ConnId>

    constructor ()
      ensures !cancelled && connectionId == None
    {
      cancelled, connectionId := false, None;
    }

    method MarkCancelled()
      modifies this`cancelled
      ensures cancelled
    {
      cancelled := true;
    }

    method SetConnectionId(id: ConnId)
      modifies this`connectionId
      ensures connectionId == Some(id)
    {
      connectionId := Some(id);
    }
  }

  /** What a finished `trigger_cancel` has done. */
  datatype Verdict =
    | SkippedMigration        // never kill during a migration
    | NoConnection            // nothing published yet
    | NoDriver
    | Killed(id: ConnId, delivered: bool)

  class CancelToken {
    const state: CancelState
    const hasDriver: bool
    const isMigration: bool
    var cancelled: bool

    constructor (state: CancelState, hasDriver: bool, isMigration: bool)
      ensures this.state == state && this.hasDriver == hasDriver && this.isMigration == isMigration && !cancelled
    {
      this.state, this.hasDriver, this.isMigration := state, hasDriver, isMigration;
      cancelled := false;
    }

    /** Undisturbed by the driver. `delivers` is whether the cancel request reaches the database; `notified`
        whether the waiting executor is told. */
    method TriggerCancel(delivers: bool) returns (v: Verdict, notified: bool)
      modifies this`cancelled, state`cancelled
      ensures cancelled && state.cancelled
      ensures v == Decide(isMigration, hasDriver, state.connectionId, delivers)
      ensures notified <==> v.Killed? && v.delivered
    {
      cancelled := true;
      state.MarkCancelled();
      notified := false;
      if isMigration {
        return SkippedMigration, false;
      }
      v := KillQuery(delivers);
      if v.Killed? && v.delivered {
        notified := true;
      }
    }

    method KillQuery(delivers: bool) returns (v: Verdict)
      ensures v == Decide(false, hasDriver, state.connectionId, delivers)
    {
      if state.connectionId.None? {
        return NoConnection;
      }
      if !hasDriver {
        return NoDriver;
      }
      v := Killed(state.connectionId.value, delivers);
    }
  }

  function Decide(isMigration: bool, hasDriver: bool, connection: Option<ConnId>, delivers: bool): Verdict {
    if isMigration then SkippedMigration
    else if connection.None? then NoConnection
    else if !hasDriver then NoDriver
    else Killed(connection.value, delivers)
  }

  // ---------------------------------------------------------------------------
  // Every interleaving of one execution with any number of cancellers
  // ---------------------------------------------------------------------------

  /** The driver: acquiring its connection, having published it, having seen the flag down, finished. A
      migration neither publishes nor checks. */
  datatype DriverPc = Acquiring | Published | Running | CancelledEarly | Finished(ranSql: bool)

  /** A canceller: before the flag, having raised it, waiting out its grace, done. */
  datatype CancellerPc = Idle | Raised | Done(verdict: Verdict)

  datatype State = State(
    isMigration: bool,
    hasDriver: bool,
    cancelled: bool,
    connection: Option<ConnId>,
    connId: ConnId,
    driver: DriverPc,
    cancellers: map<nat, CancellerPc>
  )

  predicate DriverStep(s: State, s': State) {
    match s.driver
    case Acquiring =>
      || (!s.isMigration && s' == s.(connection := Some(s.connId), driver := Published))
      || (s.isMigration && s' == s.(driver := Running))
    case Published => s' == s.(driver := if s.cancelled then CancelledEarly else Running)
    case Running => s' == s.(driver := Finished(true))
    case CancelledEarly => s' == s.(driver := Finished(false))
    case Finished(_) => false
  }

  predicate CancellerStep(s: State, c: nat, delivers: bool, s': State) {
    c in s.cancellers &&
    match s.cancellers[c]
    case Idle => s' == s.(cancelled := true, cancellers := s.cancellers[c := Raised])
    case Raised => s' == s.(cancellers := s.cancellers[c := Done(Decide(s.isMigration, s.hasDriver, s.connection, delivers))])
    case Done(_) => false
  }

  ghost predicate Next(s: State, s': State) {
    DriverStep(s, s') || exists c, delivers :: CancellerStep(s, c, delivers, s')
  }

  predicate Init(s: State) {
    && !s.cancelled && s.connection == None && s.driver.Acquiring?
    && forall c | c in s.cancellers :: s.cancellers[c].Idle?
  }

  /** The driver has gone past the flag check with the flag down. */
  predicate RanSql(s: State) {
    s.driver.Running? || s.driver == Finished(true)
  }

  predicate Raising(pc: CancellerPc) {
    !pc.Idle?
  }

  predicate Inv(s: State) {
    && (s.connection == if s.isMigration || s.driver.Acquiring? then None else Some(s.connId))
    && (forall c | c in s.cancellers && Raising(s.cancellers[c]) :: s.cancelled)
    && (s.isMigration ==> !s.driver.Published? && !s.driver.CancelledEarly? && s.driver != Finished(false))
    && (forall c | c in s.cancellers && s.cancellers[c].Done? :: VerdictSound(s, s.cancellers[c].verdict))
  }

  /** A canceller that found no connection looked before the driver published one, so the driver will see, or
      has seen, the flag. */
  predicate VerdictSound(s: State, v: Verdict) {
    match v
    case SkippedMigration => s.isMigration
    case NoConnection => !s.isMigration && !RanSql(s)
    case NoDriver => !s.isMigration && !s.hasDriver
    case Killed(id, _) => !s.isMigration && s.hasDriver && id == s.connId
  }

  lemma NextKeeps(s: State, s': State)
    requires Inv(s) && Next(s, s')
    ensures Inv(s')
  {
    if DriverStep(s, s') {
      assert s.driver.Published? && RanSql(s') ==> forall c | c in s.cancellers :: !s.cancellers[c].Done?;
    }
  }

  ghost predicate IsRun(run: seq<State>) {
    run != [] && Init(run[0]) && forall i :: 0 <= i < |run| - 1 ==> Next(run[i], run[i + 1])
  }

  lemma {:induction false} RunKeeps(run: seq<State>, i: nat)
    requires IsRun(run) && i < |run|
    ensures Inv(run[i])
  {
    if i > 0 {
      RunKeeps(run, i - 1);
      NextKeeps(run[i - 1], run[i]);
    }
  }

  lemma {:induction false} VerdictStays(run: seq<State>, i: nat, j: nat, c: nat)
    requires IsRun(run) && i <= j < |run| && c in run[i].cancellers && run[i].cancellers[c].Done?
    ensures c in run[j].cancellers && run[j].cancellers[c] == run[i].cancellers[c]
    ensures run[j].isMigration == run[i].isMigration && run[j].hasDriver == run[i].hasDriver && run[j].connId == run[i].connId
  {
    if i < j {
      VerdictStays(run, i, j - 1, c);
      assert Next(run[j - 1], run[j]);
    }
  }

  /** In every interleaving, once a cancellation of a query with a driver attached is over at `i`: either that
      canceller issued a kill for the query's own connection, or the query's SQL does not run, then or later. */
  lemma CancelOrKill(run: seq<State>, i: nat, j: nat, c: nat)
    requires IsRun(run) && i <= j < |run| && !run[i].isMigration && run[i].hasDriver
    requires c in run[i].cancellers && run[i].cancellers[c].Done?
    ensures || (run[i].cancellers[c].verdict.Killed? && run[i].cancellers[c].verdict.id == run[i].connId)
            || (run[i].cancellers[c].verdict.NoConnection? && !RanSql(run[j]))
  {
    RunKeeps(run, i);
    RunKeeps(run, j);
    VerdictStays(run, i, j, c);
  }

  /** The flag is up exactly if some canceller has begun. */
  lemma {:induction false} FlagIsRaised(run: seq<State>, i: nat)
    requires IsRun(run) && i < |run|
    ensures run[i].cancelled <==> exists c | c in run[i].cancellers :: Raising(run[i].cancellers[c])
  {
    if i > 0 {
      FlagIsRaised(run, i - 1);
      FlagStep(run[i - 1], run[i]);
    }
  }

  lemma FlagStep(s: State, s': State)
    requires Next(s, s') && (s.cancelled <==> exists c | c in s.cancellers :: Raising(s.cancellers[c]))
    ensures s'.cancelled <==> exists c | c in s'.cancellers :: Raising(s'.cancellers[c])
  {
    if c, delivers :| CancellerStep(s, c, delivers, s') {
      assert Raising(s'.cancellers[c]);
      assert s.cancellers[c].Raised? ==> Raising(s.cancellers[c]);
    }
  }

  /** In every run: a query that has published its connection goes on to its SQL exactly if no canceller has begun. */
  lemma StoppedExactly(run: seq<State>, i: nat)
    requires IsRun(run) && i + 1 < |run| && run[i].driver.Published? && !run[i + 1].driver.Published?
    ensures run[i + 1].driver.Running? <==> forall c | c in run[i].cancellers :: run[i].cancellers[c].Idle?
    ensures run[i + 1].driver.CancelledEarly? <==> exists c | c in run[i].cancellers :: !run[i].cancellers[c].Idle?
  {
    FlagIsRaised(run, i);
    assert Next(run[i], run[i + 1]);
  }

  /** No interleaving kills a migration. */
  lemma MigrationNeverKilled(run: seq<State>, i: nat, c: nat)
    requires IsRun(run) && i < |run| && run[i].isMigration
    requires c in run[i].cancellers && run[i].cancellers[c].Done?
    ensures run[i].cancellers[c].verdict == SkippedMigration
  {
    RunKeeps(run, i);
  }

  // ---------------------------------------------------------------------------
  // What a kill meets
  // ---------------------------------------------------------------------------

  /** Canceller `c` issues its kill in the step from `s` to `s'`. */
  predicate Kills(s: State, s': State, c: nat) {
    && c in s.cancellers && s.cancellers[c].Raised?
    && c in s'.cancellers && s'.cancellers[c].Done? && s'.cancellers[c].verdict.Killed?
  }

  /** The flag goes up for the first time in the step from `s` to `s'`. */
  predicate FirstRaise(s: State, s': State) {
    !s.cancelled && s'.cancelled
  }

  /** From then on the driver ends as it must from where it was: what ran runs to its end, and nothing starts. */
  predicate Settled(s: State, s': State) {
    match s.driver
    case Running => s'.driver.Running? || s'.driver == Finished(true)
    case Finished(_) => s'.driver == s.driver
    case _ => !s'.driver.Running? && s'.driver != Finished(true)
  }

  lemma {:induction false} SettledStays(run: seq<State>, r: nat, i: nat)
    requires IsRun(run) && r < i < |run| && FirstRaise(run[r], run[r + 1]) && !run[r].isMigration
    ensures run[i].cancelled && !run[i].isMigration && Settled(run[r], run[i])
  {
    if i == r + 1 {
      assert Next(run[r], run[r + 1]);
    } else {
      SettledStays(run, r, i - 1);
      assert Next(run[i - 1], run[i]);
    }
  }

  /** Every kill has a first raise before it. */
  lemma {:induction false} RaisedBefore(run: seq<State>, i: nat) returns (r: nat)
    requires IsRun(run) && i < |run| && run[i].cancelled
    ensures r < i && FirstRaise(run[r], run[r + 1])
  {
    assert i > 0;
    if run[i - 1].cancelled {
      r := RaisedBefore(run, i - 1);
    } else {
      r := i - 1;
    }
  }

  /** In every run: a kill meets the SQL of its own query while that runs exactly when the SQL was running as the flag
      first went up, which is when the driver had passed its check, and has not come to its end. */
  lemma KillMeetsQueryExactly(run: seq<State>, r: nat, i: nat, c: nat)
    requires IsRun(run) && r < i < |run| - 1 && FirstRaise(run[r], run[r + 1]) && Kills(run[i], run[i + 1], c)
    ensures run[i].driver.Running? <==> run[r].driver.Running? && !run[i].driver.Finished?
  {
    RunKeeps(run, i + 1);
    assert !run[i + 1].isMigration;
    SameKind(run, r, i + 1);
    SettledStays(run, r, i);
  }

  lemma {:induction false} SameKind(run: seq<State>, i: nat, j: nat)
    requires IsRun(run) && i <= j < |run|
    ensures run[j].isMigration == run[i].isMigration
  {
    if i < j {
      SameKind(run, i, j - 1);
      assert Next(run[j - 1], run[j]);
    }
  }

  /** The connection stays published: a kill can be issued for it after its query is over. */
  lemma LateKill() returns (run: seq<State>)
    ensures IsRun(run) && |run| == 6
    ensures run[4].driver == Finished(true) && Kills(run[4], run[5], 0)
  {
    var s0 := State(false, true, false, None, 7, Acquiring, map[0 := Idle]);
    var s1 := s0.(connection := Some(7), driver := Published);
    var s2 := s1.(driver := Running);
    var s3 := s2.(cancelled := true, cancellers := map[0 := Raised]);
    var s4 := s3.(driver := Finished(true));
    var s5 := s4.(cancellers := map[0 := Done(Killed(7, true))]);
    assert s2.cancellers[0 := Raised] == s3.cancellers && s4.cancellers[0 := Done(Killed(7, true))] == s5.cancellers;
    assert CancellerStep(s2, 0, true, s3) && CancellerStep(s4, 0, true, s5);
    run := [s0, s1, s2, s3, s4, s5];
  }
}
