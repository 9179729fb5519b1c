/** What holds of every run of the license loop. */
module LicenseLaws {
  import opened Wrappers
  import opened License

  // ---------------------------------------------------------------------------
  // One decision
  // ---------------------------------------------------------------------------

  /** Constructing a checker and running the startup checks, with the clock read once for each, decides
      as a local tick would; only the license's own end is judged at the earlier reading. */
  lemma StartupDecides(s: Setup, now1: Instant, now2: Instant, validated: Option<Instant>, grace: Option<nat>)
    requires now1 <= now2
    ensures var c := Constructed(s, now1, validated, grace);
            AfterStartup(s, c, now2).expired <==>
              if c.validatedUntil != 0 then Timestamp(now2) > Deadline(c)
              else ExpiredAt(s.license, now1) || FirstValidationMissed(s, c, now2)
    ensures now1 == now2 ==>
              var c := Constructed(s, now1, validated, grace);
              AfterStartup(s, c, now2).expired <==> Lapsed(s, c, now2)
  {
    TimestampMonotone(now1, now2);
  }

  lemma TimestampMonotone(a: Instant, b: Instant)
    requires a <= b
    ensures Timestamp(a) <= Timestamp(b)
  {
  }

  /** What a local tick does, in the numbers it works on: a lapse is the grace deadline in whole seconds for a license
      once validated, and otherwise the license's own end or the first-validation deadline. */
  lemma LocalTickExactly(s: Setup, c: Core, now: Instant)
    ensures var lapsed := if c.validatedUntil != 0
                          then now >= (c.validatedUntil + c.graceDays * 86400 + 1) * 1_000_000_000
                          else
                            || (s.license.expiresAt.Some? && now > s.license.expiresAt.value)
                            || (!s.offline && s.license.issuedAt.Some?
                                && now > s.license.issuedAt.value + c.graceDays * 86400 * 1_000_000_000);
            var remaining := c.validatedUntil + c.graceDays * 86400 - now / 1_000_000_000;
            var due := c.validatedUntil != 0 && !c.graceWarned && 0 < remaining <= 259200;
            var reason := if s.license.expiresAt.Some? && now > s.license.expiresAt.value then "local_expires_at"
                          else if c.validatedUntil != 0 then "grace_expired" else "must_validate_expired";
            var (c', events) := AfterLocalTick(s, c, now);
            && c' == Core(c.expired || lapsed, c.validatedUntil, c.graceDays, c.graceWarned || due)
            && events == (if lapsed && !c.expired then [Downgraded(reason)]
                          else if due then
                            [GraceWarning(if remaining < 172800 then 1 else if remaining < 259200 then 2 else 3,
                                          c.validatedUntil * 1_000_000_000)]
                          else [])
  {
    WholeSeconds(now, c.validatedUntil + c.graceDays * 86400);
  }

  lemma WholeSeconds(now: Instant, deadline: int)
    ensures now / 1_000_000_000 > deadline <==> now >= (deadline + 1) * 1_000_000_000
  {
  }

  // ---------------------------------------------------------------------------
  // The answers of the license server
  // ---------------------------------------------------------------------------

  /** The server can be asked: online, over a usable address, with a key. */
  predicate CanAsk(s: Setup) {
    !s.offline && s.reachable && s.license.keyId.Some?
  }

  predicate SaysGood(r: Response) {
    r.Success? && r.status == "active" && r.validatedUntil.Some?
  }

  /** A readable success that does not say active, a 403 that does not say suspended, or a 404. */
  predicate SaysEnded(r: Response) {
    (r.Success? && r.status != "active") || (r.Forbidden? && r.readableStatus != Some("suspended")) || r.NotFound?
  }

  function EndReason(r: Response): string {
    match r
    case Success(status, _, _) => if status == "expired" then "expired_online" else status
    case Forbidden(_) => "revoked"
    case _ => "unknown_key"
  }

  /** An online tick restores the license exactly on an active answer with a time, ends it exactly on an answer that
      says so, and otherwise (no connection, a server error, a body that cannot be read, active without a time,
      suspended, offline) leaves everything as it was and reports nothing. */
  lemma OnlineTickExactly(s: Setup, c: Core, r: Response)
    ensures var (c', log) := AfterTick(s, c, Online(r));
            if CanAsk(s) && SaysGood(r) then
              var until := r.validatedUntil.value;
              && !c'.expired && !c'.graceWarned
              && c'.validatedUntil == (if until / 1_000_000_000 > c.validatedUntil then until / 1_000_000_000
                                       else c.validatedUntil)
              && c'.graceDays == (if r.graceDays.Some? then r.graceDays.value else c.graceDays)
              && log == [Restored(c.expired, until, c'.graceDays)]
            else if CanAsk(s) && SaysEnded(r) then
              && c' == Core(true, c.validatedUntil, c.graceDays, c.graceWarned)
              && log == (if c.expired then [] else [Emitted(Downgraded(EndReason(r)))])
            else c' == c && log == []
  {
    var o := AfterValidation(s, c, r).1;
    assert Logged(OnlineEvents(c.expired, o)) + [] == Logged(OnlineEvents(c.expired, o));
  }

  /** So it turns a good license expired exactly on such an answer. */
  lemma EndsExactly(s: Setup, c: Core, r: Response)
    requires !c.expired
    ensures AfterTick(s, c, Online(r)).0.expired <==> CanAsk(s) && SaysEnded(r)
  {
    OnlineTickExactly(s, c, r);
  }

  // ---------------------------------------------------------------------------
  // Every downgrade is reported once
  // ---------------------------------------------------------------------------

  function AsCount(b: bool): int {
    if b then 1 else 0
  }

  /** Downgrades in the log, less the restorations of an expired license. */
  function Balance(log: seq<LogEntry>): int {
    if log == [] then 0
    else Balance(log[..|log| - 1]) + Weight(log[|log| - 1])
  }

  function Weight(e: LogEntry): int {
    match e
    case Emitted(Downgraded(_)) => 1
    case Restored(wasExpired, _, _) => -AsCount(wasExpired)
    case _ => 0
  }

  lemma {:induction false} BalanceConcat(a: seq<LogEntry>, b: seq<LogEntry>)
    ensures Balance(a + b) == Balance(a) + Balance(b)
  {
    if b == [] {
      assert a + b == a;
    } else {
      var n := |b| - 1;
      assert (a + b)[..|a| + n] == a + b[..n];
      BalanceConcat(a, b[..n]);
    }
  }

  lemma BalanceOne(e: LogEntry)
    ensures Balance([e]) == Weight(e)
  {
    assert [e][..0] == [];
  }

  lemma LocalBalance(s: Setup, c: Core, now: Instant)
    ensures AsCount(c.expired) + Balance(AfterTick(s, c, Local(now)).1) == AsCount(AfterTick(s, c, Local(now)).0.expired)
  {
    var down: seq<LogEntry> := if Lapsed(s, c, now) && !c.expired then [Emitted(Downgraded(Reason(s, c, now)))] else [];
    var warn: seq<LogEntry> := if WarningDue(c, now) then [Emitted(Warning(c, now))] else [];
    assert AfterTick(s, c, Local(now)).1 == down + warn;
    BalanceConcat(down, warn);
    BalanceOne(Emitted(Downgraded(Reason(s, c, now))));
    BalanceOne(Emitted(Warning(c, now)));
  }

  lemma OnlineBalance(s: Setup, c: Core, r: Response)
    ensures AsCount(c.expired) + Balance(AfterTick(s, c, Online(r)).1) == AsCount(AfterTick(s, c, Online(r)).0.expired)
  {
    var (c', o) := AfterValidation(s, c, r);
    var log := AfterTick(s, c, Online(r)).1;
    OnlineLog(s, c, r);
    if log != [] {
      assert log == [log[0]];
      BalanceOne(log[0]);
    }
  }

  /** An answer leaves one entry at most: a restoration, or a downgrade that ends a license still good. */
  lemma OnlineLog(s: Setup, c: Core, r: Response)
    ensures var (c', o) := AfterValidation(s, c, r);
            var log := AfterTick(s, c, Online(r)).1;
            if o.Active? then log == [Restored(c.expired, o.validatedUntil, c'.graceDays)] && !c'.expired
            else if (o.Revoked? || o.Expired?) && !c.expired then
              |log| == 1 && log[0].Emitted? && log[0].event.Downgraded? && c'.expired
            else log == [] && c'.expired == c.expired
  {
  }

  lemma TickBalance(s: Setup, c: Core, t: Tick)
    ensures AsCount(c.expired) + Balance(AfterTick(s, c, t).1) == AsCount(AfterTick(s, c, t).0.expired)
  {
    match t
    case Local(now) => LocalBalance(s, c, now);
    case Online(r) => OnlineBalance(s, c, r);
  }

  /** Conservation: the expired flag, as 0 or 1, is what it was plus the downgrades reported less the
      restorations of an expired license, after every run of the loop. */
  lemma {:induction false} EventsBalance(s: Setup, c: Core, ticks: seq<Tick>)
    ensures AsCount(c.expired) + Balance(Loop(s, c, ticks).1) == AsCount(Loop(s, c, ticks).0.expired)
  {
    if ticks != [] {
      var n := |ticks| - 1;
      var (mid, log) := Loop(s, c, ticks[..n]);
      EventsBalance(s, c, ticks[..n]);
      TickBalance(s, mid, ticks[n]);
      BalanceConcat(log, AfterTick(s, mid, ticks[n]).1);
    }
  }

  /** The validated-until time never decreases while the loop runs. */
  lemma {:induction false} ValidatedUntilMonotone(s: Setup, c: Core, ticks: seq<Tick>, i: nat)
    requires i <= |ticks|
    ensures Loop(s, c, ticks[..i]).0.validatedUntil <= Loop(s, c, ticks).0.validatedUntil
    decreases |ticks|
  {
    if i == |ticks| {
      assert ticks[..i] == ticks;
    } else {
      var n := |ticks| - 1;
      assert ticks[..n][..i] == ticks[..i];
      ValidatedUntilMonotone(s, c, ticks[..n], i);
    }
  }

  // ---------------------------------------------------------------------------
  // Grace warnings
  // ---------------------------------------------------------------------------

  predicate IsWarning(e: LogEntry) {
    e.Emitted? && e.event.GraceWarning?
  }

  ghost predicate RestoredBetween(log: seq<LogEntry>, i: int, j: int)
    requires 0 <= i <= j <= |log|
  {
    exists k :: i < k < j && log[k].Restored?
  }

  /** Between any two warnings the license was restored; every warning gives one to three days. */
  ghost predicate WarnedOnce(log: seq<LogEntry>) {
    && (forall i, j :: 0 <= i < j < |log| && IsWarning(log[i]) && IsWarning(log[j]) ==> RestoredBetween(log, i, j))
    && (forall i :: 0 <= i < |log| && IsWarning(log[i]) ==> 1 <= log[i].event.remainingDays <= 3)
  }

  /** While the flag is down, every warning so far has been followed by a restoration. */
  ghost predicate FlagTracks(warned: bool, log: seq<LogEntry>) {
    !warned ==> forall i :: 0 <= i < |log| && IsWarning(log[i]) ==> RestoredBetween(log, i, |log|)
  }

  /** What one tick adds, with the flag before and after it: a warning comes last and raises the flag, and only a
      restoration, coming last, lowers it. */
  predicate WarnShape(warned: bool, more: seq<LogEntry>, warned': bool) {
    && (forall i :: 0 <= i < |more| && IsWarning(more[i]) ==>
          i == |more| - 1 && !warned && warned' && 1 <= more[i].event.remainingDays <= 3)
    && (warned && !warned' ==> more != [] && more[|more| - 1].Restored?)
  }

  lemma TickShape(s: Setup, c: Core, t: Tick)
    ensures var (c', more) := AfterTick(s, c, t); WarnShape(c.graceWarned, more, c'.graceWarned)
  {
  }

  lemma AppendKeepsBetween(log: seq<LogEntry>, more: seq<LogEntry>, i: int, j: int)
    requires 0 <= i <= j <= |log| && RestoredBetween(log, i, j)
    ensures forall j' :: j <= j' <= |log + more| ==> RestoredBetween(log + more, i, j')
  {
    var k :| i < k < j && log[k].Restored?;
    forall j' | j <= j' <= |log + more| ensures RestoredBetween(log + more, i, j') {
      assert (log + more)[k].Restored?;
    }
  }

  lemma WarnAppend(warned: bool, log: seq<LogEntry>, more: seq<LogEntry>, warned': bool)
    requires WarnedOnce(log) && FlagTracks(warned, log) && WarnShape(warned, more, warned')
    ensures WarnedOnce(log + more) && FlagTracks(warned', log + more)
  {
    var all := log + more;
    assert forall j :: |log| <= j < |all| ==> all[j] == more[j - |log|];
    forall i, j | 0 <= i < j < |all| && IsWarning(all[i]) && IsWarning(all[j]) ensures RestoredBetween(all, i, j) {
      if j < |log| {
        AppendKeepsBetween(log, more, i, j);
      } else {
        assert i < |log|;
        AppendKeepsBetween(log, more, i, |log|);
      }
    }
    if !warned' {
      forall i | 0 <= i < |all| && IsWarning(all[i]) ensures RestoredBetween(all, i, |all|) {
        assert i < |log|;
        if warned {
          assert all[|all| - 1] == more[|more| - 1];
        } else {
          AppendKeepsBetween(log, more, i, |log|);
        }
      }
    }
  }

  lemma WarnStep(s: Setup, c: Core, t: Tick, log: seq<LogEntry>)
    requires WarnedOnce(log) && FlagTracks(c.graceWarned, log)
    ensures var (c', more) := AfterTick(s, c, t); WarnedOnce(log + more) && FlagTracks(c'.graceWarned, log + more)
  {
    TickShape(s, c, t);
    var (c', more) := AfterTick(s, c, t);
    WarnAppend(c.graceWarned, log, more, c'.graceWarned);
  }

  /** In every run at most one grace warning is emitted between restorations. */
  lemma {:induction false} GraceWarnedOnce(s: Setup, c: Core, ticks: seq<Tick>)
    ensures WarnedOnce(Loop(s, c, ticks).1) && FlagTracks(Loop(s, c, ticks).0.graceWarned, Loop(s, c, ticks).1)
  {
    if ticks != [] {
      var n := |ticks| - 1;
      GraceWarnedOnce(s, c, ticks[..n]);
      var (mid, log) := Loop(s, c, ticks[..n]);
      WarnStep(s, mid, ticks[n], log);
    }
  }

  // ---------------------------------------------------------------------------
  // Restarting from what was persisted
  // ---------------------------------------------------------------------------

  /** A restart at `now` from persisted values. */
  function Restarted(s: Setup, validated: Option<Instant>, grace: Option<nat>, now: Instant): Core {
    AfterStartup(s, Constructed(s, now, validated, grace), now)
  }

  /** What is persisted after a run: the values of its last restoration, or those it started from. */
  function Persisted(validated: Option<Instant>, grace: Option<nat>, log: seq<LogEntry>): (Option<Instant>, Option<nat>) {
    if log == [] then (validated, grace)
    else
      var e := log[|log| - 1];
      if e.Restored? then (Some(e.persistedUntil), Some(e.persistedGrace))
      else Persisted(validated, grace, log[..|log| - 1])
  }

  function Seconds(validated: Option<Instant>): int {
    if validated.Some? then Timestamp(validated.value) else 0
  }

  /** The latest time of all restorations and of what the run started from. */
  function Latest(validated: Option<Instant>, log: seq<LogEntry>): int {
    if log == [] then Seconds(validated)
    else
      var e, before := log[|log| - 1], Latest(validated, log[..|log| - 1]);
      if e.Restored? && Timestamp(e.persistedUntil) > before then Timestamp(e.persistedUntil) else before
  }

  /** What is persisted is also the latest. */
  predicate LastIsLatest(validated: Option<Instant>, grace: Option<nat>, log: seq<LogEntry>) {
    Seconds(Persisted(validated, grace, log).0) == Latest(validated, log)
  }

  predicate Restores(s: Setup, t: Tick) {
    t.Online? && CanAsk(s) && SaysGood(t.response)
  }

  predicate Revokes(s: Setup, t: Tick) {
    t.Online? && CanAsk(s) && SaysEnded(t.response)
  }

  /** The server's last word on the license was that it is no longer good. */
  predicate RevokedLast(s: Setup, ticks: seq<Tick>) {
    if ticks == [] then false
    else
      var t := ticks[|ticks| - 1];
      !Restores(s, t) && (Revokes(s, t) || RevokedLast(s, ticks[..|ticks| - 1]))
  }

  predicate UpTo(ticks: seq<Tick>, time: Instant) {
    forall i :: 0 <= i < |ticks| && ticks[i].Local? ==> ticks[i].now <= time
  }

  /** The server names times after the epoch, which is the value for never validated. */
  predicate AfterEpoch(validated: Option<Instant>, ticks: seq<Tick>) {
    && (validated.Some? ==> Timestamp(validated.value) > 0)
    && forall i :: 0 <= i < |ticks| && ticks[i].Online? && ticks[i].response.Success?
                   && ticks[i].response.validatedUntil.Some? ==>
                     Timestamp(ticks[i].response.validatedUntil.value) > 0
  }

  lemma LapsedStays(s: Setup, c: Core, now: Instant, later: Instant)
    requires Lapsed(s, c, now) && now <= later
    ensures Lapsed(s, c, later)
  {
    TimestampMonotone(now, later);
  }

  /** The running checker against the log: it has the latest time ever recorded, and the persisted grace. */
  predicate Records(c: Core, validated: Option<Instant>, grace: Option<nat>, log: seq<LogEntry>) {
    var (v, g) := Persisted(validated, grace, log);
    && 0 <= Seconds(v) <= c.validatedUntil == Latest(validated, log)
    && (Seconds(v) > 0 || c.validatedUntil == 0)
    && c.graceDays == if g.Some? then g.value else DEFAULT_GRACE_DAYS
  }

  /** It is expired if the server said so last, and otherwise only if it has lapsed. */
  predicate ExpiresAlong(s: Setup, c: Core, ticks: seq<Tick>, time: Instant) {
    && (c.expired ==> RevokedLast(s, ticks) || Lapsed(s, c, time))
    && (RevokedLast(s, ticks) ==> c.expired)
  }

  lemma {:induction false} EventsRecordNothing(validated: Option<Instant>, grace: Option<nat>, log: seq<LogEntry>,
                                               events: seq<Event>)
    ensures Persisted(validated, grace, log + Logged(events)) == Persisted(validated, grace, log)
    ensures Latest(validated, log + Logged(events)) == Latest(validated, log)
    decreases |events|
  {
    var more := Logged(events);
    if events == [] {
      assert log + more == log;
    } else {
      var n := |events| - 1;
      assert (log + more)[..|log| + n] == log + Logged(events[..n]);
      EventsRecordNothing(validated, grace, log, events[..n]);
    }
  }

  /** A tick that restores takes over the answer's time if it is later, and its grace if it names one. */
  lemma RestoringTick(s: Setup, c: Core, t: Tick)
    requires Restores(s, t)
    ensures t.response.Success? && t.response.validatedUntil.Some?
    ensures var (c', more) := AfterTick(s, c, t);
            var until := t.response.validatedUntil.value;
            && c'.validatedUntil == (if Timestamp(until) > c.validatedUntil then Timestamp(until) else c.validatedUntil)
            && more == [Restored(c.expired, until, c'.graceDays)]
  {
  }

  /** Any other tick leaves both alone. */
  lemma PlainTick(s: Setup, c: Core, t: Tick) returns (events: seq<Event>)
    requires !Restores(s, t)
    ensures var (c', more) := AfterTick(s, c, t);
            c'.validatedUntil == c.validatedUntil && c'.graceDays == c.graceDays && more == Logged(events)
  {
    events := if t.Local? then AfterLocalTick(s, c, t.now).1
              else OnlineEvents(c.expired, AfterValidation(s, c, t.response).1);
    if t.Online? {
      assert Logged(events) + [] == Logged(events);
    }
  }

  lemma TickRecords(s: Setup, c: Core, validated: Option<Instant>, grace: Option<nat>, log: seq<LogEntry>, t: Tick)
    requires Records(c, validated, grace, log)
    requires Restores(s, t) ==> t.response.Success? && t.response.validatedUntil.Some?
                                && Timestamp(t.response.validatedUntil.value) > 0
    ensures Records(AfterTick(s, c, t).0, validated, grace, log + AfterTick(s, c, t).1)
  {
    if Restores(s, t) {
      RestoringTick(s, c, t);
      var e := AfterTick(s, c, t).1[0];
      assert (log + [e])[..|log|] == log;
    } else {
      var events := PlainTick(s, c, t);
      EventsRecordNothing(validated, grace, log, events);
    }
  }

  lemma TickExpiresAlong(s: Setup, c: Core, ticks: seq<Tick>, t: Tick, time: Instant)
    requires ExpiresAlong(s, c, ticks, time) && (t.Local? ==> t.now <= time)
    ensures ExpiresAlong(s, AfterTick(s, c, t).0, ticks + [t], time)
  {
    assert (ticks + [t])[..|ticks|] == ticks;
    if t.Local? && Lapsed(s, c, t.now) {
      LapsedStays(s, c, t.now, time);
    }
  }

  lemma {:induction false} LoopRecords(s: Setup, c: Core, validated: Option<Instant>, grace: Option<nat>,
                                       ticks: seq<Tick>, time: Instant)
    requires Records(c, validated, grace, []) && ExpiresAlong(s, c, [], time)
    requires UpTo(ticks, time) && AfterEpoch(validated, ticks)
    ensures Records(Loop(s, c, ticks).0, validated, grace, Loop(s, c, ticks).1)
    ensures ExpiresAlong(s, Loop(s, c, ticks).0, ticks, time)
  {
    if ticks != [] {
      var n := |ticks| - 1;
      LoopRecords(s, c, validated, grace, ticks[..n], time);
      var (mid, log) := Loop(s, c, ticks[..n]);
      assert ticks == ticks[..n] + [ticks[n]];
      if Restores(s, ticks[n]) {
        RestoringTick(s, mid, ticks[n]);
      }
      TickRecords(s, mid, validated, grace, log, ticks[n]);
      TickExpiresAlong(s, mid, ticks[..n], ticks[n], time);
    }
  }

  /** From `time` on, a checker restarted from what was persisted decides as the running one would. */
  ghost predicate RestartsAlike(s: Setup, c: Core, v: Option<Instant>, g: Option<nat>, time: Instant) {
    forall now :: now >= time ==> (Restarted(s, v, g, now).expired <==> AfterLocalTick(s, c, now).0.expired)
  }

  /** Two deadlines that differ are told apart in between. */
  lemma EarlierDeadlineShows(s: Setup, c: Core, r: Core, time: Instant) returns (now: Instant)
    requires 0 < r.validatedUntil < c.validatedUntil && r.graceDays == c.graceDays && !Lapsed(s, r, time)
    ensures now >= time && Lapsed(s, r, now) && !Lapsed(s, c, now)
  {
    now := (Deadline(r) + 1) * NANOS;
    assert Timestamp(now) == Deadline(r) + 1;
  }

  /** The running checker keeps the latest time any answer named, while the last one is persisted; and nothing is
      persisted when the server ends the license. So after any run a restart decides every later moment as the
      running checker would exactly when both have expired already, or the server's last word was not an end and
      its last time was also its latest. */
  lemma RestartDecidesAlike(s: Setup, start: Instant, validated: Option<Instant>, grace: Option<nat>,
                            ticks: seq<Tick>, time: Instant)
    requires start <= time && UpTo(ticks, time) && AfterEpoch(validated, ticks)
    ensures var (c, log) := Loop(s, Restarted(s, validated, grace, start), ticks);
            var (v, g) := Persisted(validated, grace, log);
            RestartsAlike(s, c, v, g, time) <==>
              || (Restarted(s, v, g, time).expired && AfterLocalTick(s, c, time).0.expired)
              || (!RevokedLast(s, ticks) && LastIsLatest(validated, grace, log))
  {
    var c0 := Restarted(s, validated, grace, start);
    var (c, log) := Loop(s, c0, ticks);
    var (v, g) := Persisted(validated, grace, log);
    StartupDecides(s, start, start, validated, grace);
    if c0.expired {
      LapsedStays(s, c0, start, time);
    }
    LoopRecords(s, c0, validated, grace, ticks, time);
    AlikeExactly(s, c, v, g, ticks, time);
  }

  lemma AlikeExactly(s: Setup, c: Core, v: Option<Instant>, g: Option<nat>, ticks: seq<Tick>, time: Instant)
    requires ExpiresAlong(s, c, ticks, time)
    requires 0 <= Seconds(v) <= c.validatedUntil && (Seconds(v) > 0 || c.validatedUntil == 0)
    requires c.graceDays == if g.Some? then g.value else DEFAULT_GRACE_DAYS
    ensures RestartsAlike(s, c, v, g, time) <==>
              || (Restarted(s, v, g, time).expired && AfterLocalTick(s, c, time).0.expired)
              || (!RevokedLast(s, ticks) && Seconds(v) == c.validatedUntil)
  {
    var r := Core(false, Seconds(v), c.graceDays, false);
    forall now ensures Restarted(s, v, g, now).expired <==> Lapsed(s, r, now) {
      StartupDecides(s, now, now, v, g);
    }
    forall now | now >= time
      ensures Lapsed(s, r, time) ==> Lapsed(s, r, now)
      ensures Lapsed(s, c, time) ==> Lapsed(s, c, now)
    {
      if Lapsed(s, r, time) {
        LapsedStays(s, r, time, now);
      }
      if Lapsed(s, c, time) {
        LapsedStays(s, c, time, now);
      }
    }
    if Seconds(v) == c.validatedUntil {
      assert forall now :: Lapsed(s, r, now) <==> Lapsed(s, c, now);
    } else if !Lapsed(s, r, time) {
      var now := EarlierDeadlineShows(s, c, r, time);
      assert c.expired ==> AfterLocalTick(s, c, time).0.expired;
    }
  }

  // The witnesses: an online license without an end of its own.
  function SampleSetup(): Setup {
    Setup(LicenseFile(None, None, Some("key")), false, true)
  }

  function Answer(seconds: nat): Tick {
    Online(Success("active", Some(seconds * NANOS), None))
  }

  /** Revoked after a validation, the running checker has expired, and a restart brings the license back. */
  lemma RestartForgetsRevocation()
    ensures var (c, log) := Loop(SampleSetup(), Restarted(SampleSetup(), None, None, 0), [Answer(1000), Online(NotFound)]);
            var (v, g) := Persisted(None, None, log);
            c.expired && !Restarted(SampleSetup(), v, g, 0).expired
  {
    var s := SampleSetup();
    var c0 := Restarted(s, None, None, 0);
    var ticks := [Answer(1000), Online(NotFound)];
    assert ticks[..1] == [Answer(1000)];
    assert ticks[..1][..0] == [];
    var (c1, l1) := AfterTick(s, c0, Answer(1000));
    assert Loop(s, c0, ticks[..1]) == (c1, [] + l1);
    assert l1 == [Restored(false, 1000 * NANOS, DEFAULT_GRACE_DAYS)];
    var (c2, l2) := AfterTick(s, c1, Online(NotFound));
    assert l2 == [Emitted(Downgraded("unknown_key"))];
    var log := [] + l1 + l2;
    assert Loop(s, c0, ticks) == (c2, log);
    assert log == [l1[0], l2[0]] && log[..1] == [l1[0]];
  }

  /** Two answers of which the second names an earlier time: once that one's grace is over the restarted checker has
      expired, and the running one has not. */
  lemma RestartUsesEarlierTime()
    ensures var (c, log) := Loop(SampleSetup(), Restarted(SampleSetup(), None, None, 0), [Answer(2000), Answer(1000)]);
            var (v, g) := Persisted(None, None, log);
            var now := (1001 + 7 * DAY) * NANOS;
            Restarted(SampleSetup(), v, g, now).expired && !AfterLocalTick(SampleSetup(), c, now).0.expired
  {
    var s := SampleSetup();
    var c0 := Restarted(s, None, None, 0);
    var ticks := [Answer(2000), Answer(1000)];
    assert ticks[..1] == [Answer(2000)];
    assert ticks[..1][..0] == [];
    var (c1, l1) := AfterTick(s, c0, Answer(2000));
    assert Loop(s, c0, ticks[..1]) == (c1, [] + l1);
    assert l1 == [Restored(false, 2000 * NANOS, DEFAULT_GRACE_DAYS)];
    var (c2, l2) := AfterTick(s, c1, Answer(1000));
    assert l2 == [Restored(false, 1000 * NANOS, DEFAULT_GRACE_DAYS)];
    var log := [] + l1 + l2;
    assert Loop(s, c0, ticks) == (c2, log);
    assert log[|log| - 1] == l2[0];
  }

  // ---------------------------------------------------------------------------
  // The compare-and-swap loop with concurrent writers
  // ---------------------------------------------------------------------------

  /** A writer about to load, one that has loaded, one that is done. */
  datatype Writer = Loading(value: int) | Swapping(value: int, seen: int) | Done(value: int)

  datatype Cell = Cell(value: int, writers: map<nat, Writer>)

  /** One load or one weak exchange, which may fail even when nothing changed. */
  predicate CellStep(c: Cell, w: nat, c': Cell) {
    w in c.writers &&
    match c.writers[w]
    case Loading(v) =>
      c' == c.(writers := c.writers[w := if v <= c.value then Done(v) else Swapping(v, c.value)])
    case Swapping(v, seen) =>
      || (c.value == seen && c' == Cell(v, c.writers[w := Done(v)]))
      || c' == c.(writers := c.writers[w := Loading(v)])
    case Done(_) => false
  }

  ghost predicate CellNext(c: Cell, c': Cell) {
    exists w :: CellStep(c, w, c')
  }

  ghost predicate CellRun(run: seq<Cell>) {
    && run != [] && (forall w | w in run[0].writers :: run[0].writers[w].Loading?)
    && forall i :: 0 <= i < |run| - 1 ==> CellNext(run[i], run[i + 1])
  }

  predicate CellInv(initial: Cell, c: Cell) {
    && c.value >= initial.value && c.writers.Keys == initial.writers.Keys
    && (forall w | w in c.writers :: c.writers[w].value == initial.writers[w].value)
    && (forall w | w in c.writers && c.writers[w].Done? :: c.writers[w].value <= c.value)
    && (forall w | w in c.writers && c.writers[w].Swapping? :: c.writers[w].seen < c.writers[w].value)
    && (c.value == initial.value || exists w :: w in c.writers && c.writers[w].value == c.value)
  }

  lemma CellStepKeeps(initial: Cell, c: Cell, w: nat, c': Cell)
    requires CellInv(initial, c) && CellStep(c, w, c')
    ensures CellInv(initial, c') && c.value <= c'.value
  {
    if c'.value != c.value {
      assert w in c'.writers && c'.writers[w].value == c'.value;
    } else if c.value != initial.value {
      var x :| x in c.writers && c.writers[x].value == c.value;
      assert x in c'.writers && c'.writers[x].value == c'.value;
    }
  }

  lemma {:induction false} CellRunKeeps(run: seq<Cell>, i: nat)
    requires CellRun(run) && i < |run|
    ensures CellInv(run[0], run[i])
    ensures i > 0 ==> run[i - 1].value <= run[i].value
  {
    if i > 0 {
      CellRunKeeps(run, i - 1);
      var w :| CellStep(run[i - 1], w, run[i]);
      CellStepKeeps(run[0], run[i - 1], w, run[i]);
    }
  }

  /** However the writers interleave: when all are done, the cell holds the maximum of its first value and
      everything written, and it never went down on the way. */
  lemma CasLoopTakesMaximum(run: seq<Cell>)
    requires CellRun(run)
    requires var last := run[|run| - 1]; forall w | w in last.writers :: last.writers[w].Done?
    ensures var last := run[|run| - 1];
            && last.value >= run[0].value
            && (forall w | w in run[0].writers :: last.value >= run[0].writers[w].value)
            && (last.value == run[0].value || exists w :: w in run[0].writers && run[0].writers[w].value == last.value)
    ensures forall i :: 0 < i < |run| ==> run[i - 1].value <= run[i].value
  {
    CellRunKeeps(run, |run| - 1);
    var last := run[|run| - 1];
    forall w | w in run[0].writers ensures last.value >= run[0].writers[w].value {
      assert w in last.writers && last.writers[w].Done?;
    }
    if last.value != run[0].value {
      var w :| w in last.writers && last.writers[w].value == last.value;
      assert w in run[0].writers && run[0].writers[w].value == last.value;
    }
    forall i | 0 < i < |run| ensures run[i - 1].value <= run[i].value {
      CellRunKeeps(run, i);
    }
  }
}
