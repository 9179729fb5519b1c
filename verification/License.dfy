/** The license checker: time-driven expiry, grace and first-validation deadlines, and the loop that
    drives them and reports every change once. */
module License {
  import opened Wrappers

  /** Nanoseconds since the epoch. */
  type Instant = int

  const NANOS: int := 1_000_000_000
  const DAY: int := 86400
  const DEFAULT_GRACE_DAYS: nat := 7

  /** The whole seconds of an instant, rounded down. */
  function Timestamp(t: Instant): int {
    t / NANOS
  }

  datatype LicenseFile = LicenseFile(issuedAt: Option<Instant>, expiresAt: Option<Instant>, keyId: Option<string>)

  predicate ExpiredAt(l: LicenseFile, now: Instant) {
    l.expiresAt.Some? && now > l.expiresAt.value
  }

  /** What never changes while the server runs: the license, the offline switch, and whether the
      validation URL and HTTP client can be used at all. */
  datatype Setup = Setup(license: LicenseFile, offline: bool, reachable: bool)

  /** The atomics of the checker. A `validatedUntil` of 0 means never validated. */
  datatype Core = Core(expired: bool, validatedUntil: int, graceDays: nat, graceWarned: bool)

  function Deadline(c: Core): int {
    c.validatedUntil + c.graceDays * DAY
  }

  predicate FirstValidationMissed(s: Setup, c: Core, now: Instant) {
    !s.offline && c.validatedUntil == 0 && s.license.issuedAt.Some?
    && now > s.license.issuedAt.value + c.graceDays * DAY * NANOS
  }

  /** The one question the checks answer: is the license no longer good at `now`? Once validated online,
      only the grace deadline counts; before that, the license's own end and the first-validation deadline. */
  predicate Lapsed(s: Setup, c: Core, now: Instant) {
    if c.validatedUntil != 0 then Timestamp(now) > Deadline(c)
    else ExpiredAt(s.license, now) || FirstValidationMissed(s, c, now)
  }

  datatype Event =
    | GraceWarning(remainingDays: int, validatedUntil: Instant)
    | Downgraded(reason: string)

  /** The answers of the license server. */
  datatype Response =
    | Success(status: string, validatedUntil: Option<Instant>, graceDays: Option<nat>)
    | SuccessUnreadable
    | Forbidden(readableStatus: Option<string>)
    | NotFound
    | Failed

  datatype Outcome = Active(validatedUntil: Instant) | Expired | Revoked(reason: string) | Suspended | NetworkError | Offline

  // ---------------------------------------------------------------------------
  // The checker
  // ---------------------------------------------------------------------------

  class LicenseChecker {
    const setup: Setup
    var expired: bool
    var validatedUntil: int
    var graceDays: nat
    var graceWarned: bool

    function View(): Core
      reads this
    {
      Core(expired, validatedUntil, graceDays, graceWarned)
    }

    constructor (setup: Setup, now: Instant, validated: Option<Instant>, grace: Option<nat>)
      ensures this.setup == setup
      ensures View() == Constructed(setup, now, validated, grace)
    {
      var vt := if validated.Some? then Timestamp(validated.value) else 0;
      var gd := if grace.Some? then grace.value else DEFAULT_GRACE_DAYS;
      var onlineValid := vt != 0 && Timestamp(now) <= vt + gd * DAY;
      this.setup := setup;
      expired := if onlineValid then false else ExpiredAt(setup.license, now);
      validatedUntil := vt;
      graceDays := gd;
      graceWarned := false;
    }

    method ForceExpire() returns (first: bool)
      modifies this`expired
      ensures expired && first == !old(expired)
    {
      first := !expired;
      expired := true;
    }

    method RestoreActive()
      modifies this`expired, this`graceWarned
      ensures !expired && !graceWarned
    {
      expired := false;
      graceWarned := false;
    }

    /** The compare-and-swap loop with nobody else writing; `spurious` is how often the weak exchange fails
        for no reason. `CasLoop` below covers concurrent writers. */
    method RecordValidatedUntil(serverTime: Instant, spurious: nat)
      modifies this`validatedUntil
      ensures validatedUntil == if Timestamp(serverTime) > old(validatedUntil) then Timestamp(serverTime) else old(validatedUntil)
    {
      var value := Timestamp(serverTime);
      var failures := spurious;
      while true
        invariant validatedUntil == old(validatedUntil)
        decreases failures
      {
        var current := validatedUntil;
        if value <= current {
          break;
        }
        if failures == 0 {
          validatedUntil := value;
          break;
        }
        failures := failures - 1;
      }
    }

    predicate IsGraceExpired(now: Instant)
      reads this
    {
      validatedUntil != 0 && Timestamp(now) > validatedUntil + graceDays * DAY
    }

    predicate IsMustValidateExpired(now: Instant)
      reads this
    {
      if setup.offline || validatedUntil != 0 then false
      else setup.license.issuedAt.Some? && now > setup.license.issuedAt.value + graceDays * DAY * NANOS
    }

    predicate IsLocalExpiryEffective(now: Instant)
      reads this
    {
      if validatedUntil != 0 && Timestamp(now) <= validatedUntil + graceDays * DAY then false
      else ExpiredAt(setup.license, now)
    }

    function GraceRemainingSecs(now: Instant): Option<int>
      reads this
    {
      if validatedUntil == 0 then None
      else
        var remaining := validatedUntil + graceDays * DAY - Timestamp(now);
        if remaining > 0 then Some(remaining) else None
    }

    method TryMarkGraceWarned() returns (first: bool)
      modifies this`graceWarned
      ensures graceWarned && first == !old(graceWarned)
    {
      first := !graceWarned;
      graceWarned := true;
    }

    /** The startup checks of the server, on a checker just constructed. */
    method StartupChecks(now: Instant)
      modifies this`expired
      ensures View() == AfterStartup(setup, old(View()), now)
    {
      if IsMustValidateExpired(now) {
        var _ := ForceExpire();
      }
      if IsGraceExpired(now) {
        var _ := ForceExpire();
      }
    }

    /** One turn of the hourly branch of the loop. */
    method LocalTick(now: Instant) returns (events: seq<Event>)
      modifies this`expired, this`graceWarned
      ensures View() == AfterLocalTick(setup, old(View()), now).0
      ensures events == AfterLocalTick(setup, old(View()), now).1
    {
      events := [];
      if IsLocalExpiryEffective(now) {
        var first := ForceExpire();
        if first {
          events := events + [Downgraded("local_expires_at")];
        }
      }
      if IsGraceExpired(now) {
        var first := ForceExpire();
        if first {
          events := events + [Downgraded("grace_expired")];
        }
      }
      if IsMustValidateExpired(now) {
        var first := ForceExpire();
        if first {
          events := events + [Downgraded("must_validate_expired")];
        }
      }
      var remaining := GraceRemainingSecs(now);
      if remaining.Some? && remaining.value <= 3 * DAY {
        var first := TryMarkGraceWarned();
        if first {
          var days := remaining.value / DAY;
          events := events + [GraceWarning(if days > 1 then days else 1, validatedUntil * NANOS)];
        }
      }
    }

    method ValidateOnline(response: Response) returns (outcome: Outcome)
      modifies this
      ensures (View(), outcome) == AfterValidation(setup, old(View()), response)
    {
      if setup.offline || !setup.reachable || setup.license.keyId.None? {
        return Offline;
      }
      match response {
        case Success(status, until, grace) =>
          if status == "active" {
            if until.None? {
              return NetworkError;
            }
            RecordValidatedUntil(until.value, 0);
            if grace.Some? {
              graceDays := grace.value;
            }
            RestoreActive();
            outcome := Active(until.value);
          } else if status == "expired" {
            var _ := ForceExpire();
            outcome := Expired;
          } else {
            var _ := ForceExpire();
            outcome := Revoked(status);
          }
        case SuccessUnreadable => outcome := NetworkError;
        case Forbidden(status) =>
          if status == Some("suspended") {
            outcome := Suspended;
          } else {
            var _ := ForceExpire();
            outcome := Revoked("revoked");
          }
        case NotFound =>
          var _ := ForceExpire();
          outcome := Revoked("unknown_key");
        case Failed => outcome := NetworkError;
      }
    }

    /** One turn of the daily branch of the loop; an Active outcome is also what gets persisted. */
    method OnlineTick(response: Response) returns (events: seq<Event>, outcome: Outcome)
      modifies this
      ensures var (core, out) := AfterValidation(setup, old(View()), response);
              View() == core && outcome == out
      ensures events == OnlineEvents(old(expired), outcome)
    {
      var wasExpired := expired;
      outcome := ValidateOnline(response);
      events := [];
      match outcome {
        case Revoked(reason) =>
          if !wasExpired {
            events := [Downgraded(reason)];
          }
        case Expired =>
          if !wasExpired {
            events := [Downgraded("expired_online")];
          }
        case _ =>
      }
    }

    /** The loop: ticks in the order they fire, until shutdown. */
    method Run(ticks: seq<Tick>) returns (log: seq<LogEntry>)
      modifies this
      ensures (View(), log) == Loop(setup, old(View()), ticks)
    {
      log := [];
      var i := 0;
      while i < |ticks|
        invariant 0 <= i <= |ticks|
        invariant (View(), log) == Loop(setup, old(View()), ticks[..i])
      {
        assert ticks[..i + 1][..i] == ticks[..i];
        ghost var before := View();
        match ticks[i] {
          case Local(now) =>
            var events := LocalTick(now);
            log := log + Logged(events);
          case Online(response) =>
            var wasExpired := expired;
            var events, outcome := OnlineTick(response);
            var more := Logged(events);
            if outcome.Active? {
              more := more + [Restored(wasExpired, outcome.validatedUntil, graceDays)];
            }
            assert more == AfterTick(setup, before, ticks[i]).1;
            log := log + more;
        }
        i := i + 1;
      }
      assert ticks[..i] == ticks;
    }
  }

  // ---------------------------------------------------------------------------
  // What the checks amount to
  // ---------------------------------------------------------------------------

  function Constructed(s: Setup, now: Instant, validated: Option<Instant>, grace: Option<nat>): Core {
    var c := Core(false, if validated.Some? then Timestamp(validated.value) else 0,
                  if grace.Some? then grace.value else DEFAULT_GRACE_DAYS, false);
    c.(expired := (c.validatedUntil == 0 || Timestamp(now) > Deadline(c)) && ExpiredAt(s.license, now))
  }

  function AfterStartup(s: Setup, c: Core, now: Instant): Core {
    c.(expired := c.expired || FirstValidationMissed(s, c, now) || (c.validatedUntil != 0 && Timestamp(now) > Deadline(c)))
  }

  function Reason(s: Setup, c: Core, now: Instant): string {
    if ExpiredAt(s.license, now) then "local_expires_at"
    else if c.validatedUntil != 0 then "grace_expired"
    else "must_validate_expired"
  }

  predicate WarningDue(c: Core, now: Instant) {
    c.validatedUntil != 0 && !c.graceWarned && 0 < Deadline(c) - Timestamp(now) <= 3 * DAY
  }

  function Warning(c: Core, now: Instant): Event {
    var days := (Deadline(c) - Timestamp(now)) / DAY;
    GraceWarning(if days > 1 then days else 1, c.validatedUntil * NANOS)
  }

  /** A local tick expires the license exactly when it has lapsed, reports that once, and warns once in the
      last three days of grace. */
  function AfterLocalTick(s: Setup, c: Core, now: Instant): (Core, seq<Event>) {
    var lapsed := Lapsed(s, c, now);
    (c.(expired := c.expired || lapsed, graceWarned := c.graceWarned || WarningDue(c, now)),
     (if lapsed && !c.expired then [Downgraded(Reason(s, c, now))] else [])
     + (if WarningDue(c, now) then [Warning(c, now)] else []))
  }

  function AfterValidation(s: Setup, c: Core, r: Response): (Core, Outcome) {
    if s.offline || !s.reachable || s.license.keyId.None? then (c, Offline)
    else
      match r
      case Success("active", Some(until), grace) =>
        (Core(false, if Timestamp(until) > c.validatedUntil then Timestamp(until) else c.validatedUntil,
              if grace.Some? then grace.value else c.graceDays, false), Active(until))
      case Success("active", None, _) => (c, NetworkError)
      case Success(status, _, _) => (c.(expired := true), if status == "expired" then Expired else Revoked(status))
      case SuccessUnreadable => (c, NetworkError)
      case Forbidden(status) => if status == Some("suspended") then (c, Suspended) else (c.(expired := true), Revoked("revoked"))
      case NotFound => (c.(expired := true), Revoked("unknown_key"))
      case Failed => (c, NetworkError)
  }

  function OnlineEvents(wasExpired: bool, o: Outcome): seq<Event> {
    match o
    case Revoked(reason) => if wasExpired then [] else [Downgraded(reason)]
    case Expired => if wasExpired then [] else [Downgraded("expired_online")]
    case _ => []
  }

  datatype Tick = Local(now: Instant) | Online(response: Response)

  /** What an observer of the loop sees, in order: events, and validations that restored the license. */
  datatype LogEntry =
    | Emitted(event: Event)
    | Restored(wasExpired: bool, persistedUntil: Instant, persistedGrace: nat)

  function Logged(events: seq<Event>): (log: seq<LogEntry>)
    ensures |log| == |events| && forall i :: 0 <= i < |log| ==> log[i] == Emitted(events[i])
  {
    seq(|events|, i requires 0 <= i < |events| => Emitted(events[i]))
  }

  function AfterTick(s: Setup, c: Core, t: Tick): (Core, seq<LogEntry>) {
    match t
    case Local(now) => var (c', events) := AfterLocalTick(s, c, now); (c', Logged(events))
    case Online(r) =>
      var (c', o) := AfterValidation(s, c, r);
      (c', Logged(OnlineEvents(c.expired, o)) + if o.Active? then [Restored(c.expired, o.validatedUntil, c'.graceDays)] else [])
  }

  function Loop(s: Setup, c: Core, ticks: seq<Tick>): (Core, seq<LogEntry>) {
    if ticks == [] then (c, [])
    else
      var n := |ticks| - 1;
      var (mid, log) := Loop(s, c, ticks[..n]);
      var (c', more) := AfterTick(s, mid, ticks[n]);
      (c', log + more)
  }
}
