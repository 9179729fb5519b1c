/** The migration runner: pending entries applied in order, applied entries reverted last first, over
    a driver that can fail at any call and a cancel flag polled between entries. */
module MigrationRunner {
  import opened MigrationSelection
  import opened Wrappers

  datatype RunResult = RunResult(applied: seq<string>, reverted: seq<string>)

  datatype MigrateError =
    | Config
    | Cancelled
    | DriverFailed
    | PartialApplied(completed: seq<string>, source: MigrateError)

  /** The database a driver is connected to: its contents and its table of applied versions. */
  datatype World<D> = World(db: D, versions: set<string>)

  /** What a SQL text does to the contents. */
  type Exec<!D> = (string, D) -> D

  // ---------------------------------------------------------------------------
  // What running entries does
  // ---------------------------------------------------------------------------

  function Versions(es: seq<Entry>): (vs: seq<string>)
    ensures |vs| == |es| && forall i :: 0 <= i < |es| ==> vs[i] == es[i].version
  {
    seq(|es|, i requires 0 <= i < |es| => es[i].version)
  }

  function VersionSet(es: seq<Entry>): set<string> {
    set e | e in es :: e.version
  }

  function ExecAll<D>(exec: Exec<D>, es: seq<Entry>, db: D): D {
    if es == [] then db else exec(es[|es| - 1].sql, ExecAll(exec, es[..|es| - 1], db))
  }

  /** Each version in turn is neither recorded already nor an earlier one of the list. */
  predicate EachNew(es: seq<Entry>, already: set<string>) {
    es == [] || (var n := |es| - 1; EachNew(es[..n], already) && es[n].version !in already + VersionSet(es[..n]))
  }

  // ---------------------------------------------------------------------------
  // The driver and the cancel flag
  // ---------------------------------------------------------------------------

  /** A driver call either does its work or fails. A failed call leaves the version table alone; a failed
      transactional call leaves the contents alone too. */
  class Driver<D(0)> {
    const exec: Exec<D>
    var db: D
    var versions: set<string>
    /** How many calls have failed so far. */
    ghost var failures: nat

    constructor (exec: Exec<D>, db: D, versions: set<string>)
      ensures this.exec == exec && this.db == db && this.versions == versions && failures == 0
    {
      this.exec, this.db, this.versions, this.failures := exec, db, versions, 0;
    }

    function View(): World<D>
      reads this
    {
      World(db, versions)
    }

    method EnsureMigrationsTable() returns (ok: bool)
      modifies this`failures
      ensures failures == old(failures) + if ok then 0 else 1
    {
      ok := *;
      if !ok {
        failures := failures + 1;
      }
    }

    method AppliedVersions() returns (r: Option<set<string>>)
      modifies this`failures
      ensures r.Some? ==> r.value == versions
      ensures failures == old(failures) + if r.Some? then 0 else 1
    {
      var ok: bool := *;
      if ok {
        return Some(versions);
      }
      failures := failures + 1;
      r := None;
    }

    /** The version column is a primary key: recording a version twice fails. */
    method Apply(e: Entry) returns (ok: bool)
      modifies this
      ensures ok ==> e.version !in old(versions)
                     && versions == old(versions) + {e.version} && db == exec(e.sql, old(db))
      ensures !ok ==> versions == old(versions) && (e.transactional ==> db == old(db))
      ensures failures == old(failures) + if ok then 0 else 1
    {
      ok := *;
      if e.version in versions {
        ok := false;
      }
      if ok {
        db := exec(e.sql, db);
        versions := versions + {e.version};
      } else {
        failures := failures + 1;
        if !e.transactional {
          db := *;
        }
      }
    }

    method Revert(e: Entry) returns (ok: bool)
      modifies this
      ensures ok ==> versions == old(versions) - {e.version} && db == exec(e.sql, old(db))
      ensures !ok ==> versions == old(versions) && (e.transactional ==> db == old(db))
      ensures failures == old(failures) + if ok then 0 else 1
    {
      ok := *;
      if ok {
        db := exec(e.sql, db);
        versions := versions - {e.version};
      } else {
        failures := failures + 1;
        if !e.transactional {
          db := *;
        }
      }
    }
  }

  /** Set by another task at any time, never cleared. */
  class CancelFlag {
    var cancelled: bool

    constructor ()
      ensures !cancelled
    {
      cancelled := false;
    }

    method IsCancelled() returns (b: bool)
      modifies this
      ensures b == cancelled && (old(cancelled) ==> cancelled)
    {
      var setMeanwhile: bool := *;
      cancelled := cancelled || setMeanwhile;
      b := cancelled;
    }
  }

  // ---------------------------------------------------------------------------
  // The outcomes of a run
  // ---------------------------------------------------------------------------

  /** What a run reports when it stopped after the first `k` of the entries `todo`. */
  predicate Reports(r: Result<RunResult, MigrateError>, todo: seq<Entry>, k: nat, up: bool)
    requires k <= |todo|
  {
    var done := Versions(todo[..k]);
    match r
    case Ok(res) => k == |todo| && res == if up then RunResult(done, []) else RunResult([], done)
    case Err(PartialApplied(completed, source)) =>
      0 < k < |todo| && completed == done && (source.Cancelled? || source.DriverFailed?)
    case Err(_) => k == 0
  }

  /** What a run that did not end well puts it down to, behind what it completed. */
  function Cause(r: Result<RunResult, MigrateError>): Option<MigrateError> {
    match r
    case Ok(_) => None
    case Err(PartialApplied(_, source)) => Some(source)
    case Err(e) => Some(e)
  }

  /** The cause is a driver call that failed, and then exactly one has, or the flag, and then it is up. */
  predicate TrueCause(r: Result<RunResult, MigrateError>, failed: int, cancelled: bool) {
    match Cause(r)
    case Some(DriverFailed) => failed == 1
    case Some(Cancelled) => failed == 0 && cancelled
    case Some(PartialApplied(_, _)) => false
    case _ => failed == 0
  }

  /** No call failed half way: the run ended well, was cancelled, or failed in a transaction. */
  predicate Clean(r: Result<RunResult, MigrateError>, todo: seq<Entry>, k: nat)
    requires k <= |todo|
  {
    match r
    case Ok(_) => true
    case Err(PartialApplied(_, source)) => source.Cancelled? || (k < |todo| && todo[k].transactional)
    case Err(e) => !e.DriverFailed? || k == |todo| || todo[k].transactional
  }

  /** `run_up` stopped after `k` entries: the version table gained exactly those, each new. */
  ghost predicate UpStopped<D>(exec: Exec<D>, todo: seq<Entry>, k: nat, w: World<D>, r: Result<RunResult, MigrateError>, w': World<D>)
    requires k <= |todo|
  {
    && Reports(r, todo, k, true)
    && w'.versions == w.versions + VersionSet(todo[..k])
    && EachNew(todo[..k], w.versions)
    && (Clean(r, todo, k) ==> w'.db == ExecAll(exec, todo[..k], w.db))
  }

  ghost predicate DownStopped<D>(exec: Exec<D>, todo: seq<Entry>, k: nat, w: World<D>, r: Result<RunResult, MigrateError>, w': World<D>)
    requires k <= |todo|
  {
    && Reports(r, todo, k, false)
    && w'.versions == w.versions - VersionSet(todo[..k])
    && (Clean(r, todo, k) ==> w'.db == ExecAll(exec, todo[..k], w.db))
  }

  lemma StepMore<D>(exec: Exec<D>, todo: seq<Entry>, k: nat, db: D)
    requires k < |todo|
    ensures Versions(todo[..k + 1]) == Versions(todo[..k]) + [todo[k].version]
    ensures forall already :: EachNew(todo[..k + 1], already)
                         <==> EachNew(todo[..k], already) && todo[k].version !in already + VersionSet(todo[..k])
    ensures ExecAll(exec, todo[..k + 1], db) == exec(todo[k].sql, ExecAll(exec, todo[..k], db))
    ensures VersionSet(todo[..k + 1]) == VersionSet(todo[..k]) + {todo[k].version}
  {
    var longer := todo[..k + 1];
    assert longer[..k] == todo[..k];
    assert longer == todo[..k] + [todo[k]];
  }

  function Stop(completed: seq<string>, source: MigrateError): (e: MigrateError) {
    if completed == [] then source else PartialApplied(completed, source)
  }

  /** Applies the pending entries in order. `stopped` is how many were applied. */
  method RunUp<D(0)>(driver: Driver<D>, detail: Option<Detail>, cancel: CancelFlag)
    returns (r: Result<RunResult, MigrateError>, ghost stopped: nat)
    modifies driver, cancel
    ensures r == Err(Config) <==> detail.None? || detail.value.direction != "up"
    ensures r == Err(Config) ==> driver.View() == old(driver.View())
    ensures detail.Some? ==>
              var todo := ToApply(detail.value, old(driver.versions));
              && AppliesFirst(detail.value, old(driver.versions), todo)
              && stopped <= |todo| && UpStopped(driver.exec, todo, stopped, old(driver.View()), r, driver.View())
    ensures TrueCause(r, driver.failures - old(driver.failures), cancel.cancelled)
  {
    stopped := 0;
    if detail.Some? {
      ToApplyIsFirst(detail.value, driver.versions);
    }
    if detail.None? || detail.value.direction != "up" {
      return Err(Config), 0;
    }
    var ok := driver.EnsureMigrationsTable();
    if !ok {
      return Err(DriverFailed), 0;
    }
    var already := driver.AppliedVersions();
    if already.None? {
      return Err(DriverFailed), 0;
    }
    r, stopped := ApplyEach(driver, ToApply(detail.value, already.value), cancel);
  }

  method ApplyEach<D(0)>(driver: Driver<D>, todo: seq<Entry>, cancel: CancelFlag)
    returns (r: Result<RunResult, MigrateError>, ghost stopped: nat)
    modifies driver, cancel
    ensures stopped <= |todo| && UpStopped(driver.exec, todo, stopped, old(driver.View()), r, driver.View())
    ensures r != Err(Config) && TrueCause(r, driver.failures - old(driver.failures), cancel.cancelled)
  {
    var applied: seq<string> := [];
    var i := 0;
    while i < |todo|
      invariant 0 <= i <= |todo| && applied == Versions(todo[..i])
      invariant driver.versions == old(driver.versions) + VersionSet(todo[..i])
      invariant driver.db == ExecAll(driver.exec, todo[..i], old(driver.db))
      invariant EachNew(todo[..i], old(driver.versions))
      invariant driver.failures == old(driver.failures)
    {
      var cancelled := cancel.IsCancelled();
      if cancelled {
        return Err(Stop(applied, Cancelled)), i;
      }
      StepMore(driver.exec, todo, i, old(driver.db));
      var ok := driver.Apply(todo[i]);
      if !ok {
        return Err(Stop(applied, DriverFailed)), i;
      }
      applied := applied + [todo[i].version];
      i := i + 1;
    }
    assert todo[..i] == todo;
    r, stopped := Ok(RunResult(applied, [])), i;
  }

  /** Reverts the recorded entries, last first. */
  method RunDown<D(0)>(driver: Driver<D>, detail: Option<Detail>, cancel: CancelFlag)
    returns (r: Result<RunResult, MigrateError>, ghost stopped: nat)
    modifies driver, cancel
    ensures r == Err(Config) <==> detail.None? || detail.value.direction != "down"
    ensures r == Err(Config) ==> driver.View() == old(driver.View())
    ensures detail.Some? ==>
              var todo := ToRevert(detail.value, old(driver.versions));
              && RevertsLast(detail.value, old(driver.versions), todo)
              && stopped <= |todo| && DownStopped(driver.exec, todo, stopped, old(driver.View()), r, driver.View())
    ensures TrueCause(r, driver.failures - old(driver.failures), cancel.cancelled)
  {
    stopped := 0;
    if detail.Some? {
      ToRevertIsLast(detail.value, driver.versions);
    }
    if detail.None? || detail.value.direction != "down" {
      return Err(Config), 0;
    }
    var ok := driver.EnsureMigrationsTable();
    if !ok {
      return Err(DriverFailed), 0;
    }
    var already := driver.AppliedVersions();
    if already.None? {
      return Err(DriverFailed), 0;
    }
    r, stopped := RevertEach(driver, ToRevert(detail.value, already.value), cancel);
  }

  method RevertEach<D(0)>(driver: Driver<D>, todo: seq<Entry>, cancel: CancelFlag)
    returns (r: Result<RunResult, MigrateError>, ghost stopped: nat)
    modifies driver, cancel
    ensures stopped <= |todo| && DownStopped(driver.exec, todo, stopped, old(driver.View()), r, driver.View())
    ensures r != Err(Config) && TrueCause(r, driver.failures - old(driver.failures), cancel.cancelled)
  {
    var reverted: seq<string> := [];
    var i := 0;
    while i < |todo|
      invariant 0 <= i <= |todo| && reverted == Versions(todo[..i])
      invariant driver.versions == old(driver.versions) - VersionSet(todo[..i])
      invariant driver.db == ExecAll(driver.exec, todo[..i], old(driver.db))
      invariant driver.failures == old(driver.failures)
    {
      var cancelled := cancel.IsCancelled();
      if cancelled {
        return Err(Stop(reverted, Cancelled)), i;
      }
      StepMore(driver.exec, todo, i, old(driver.db));
      var ok := driver.Revert(todo[i]);
      if !ok {
        return Err(Stop(reverted, DriverFailed)), i;
      }
      reverted := reverted + [todo[i].version];
      i := i + 1;
    }
    assert todo[..i] == todo;
    r, stopped := Ok(RunResult([], reverted)), i;
  }
}
