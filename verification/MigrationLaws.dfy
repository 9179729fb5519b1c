/** What whole histories of migration runs guarantee. */
module MigrationLaws {
  import opened Wrappers
  import opened MigrationRunner
  import opened MigrationSelection

  // ---------------------------------------------------------------------------
  // Interrupted runs resume where they stopped
  // ---------------------------------------------------------------------------

  /** The entries still to be applied, each version once, in the order of the detail. */
  function Missing(es: seq<Entry>, already: set<string>): (m: seq<Entry>) {
    if es == [] then []
    else if es[0].version in already then Missing(es[1..], already)
    else [es[0]] + Missing(es[1..], already + {es[0].version})
  }

  lemma {:induction false} MissingOnce(es: seq<Entry>, already: set<string>)
    ensures forall i :: 0 <= i < |Missing(es, already)| ==> Missing(es, already)[i].version !in already
    ensures forall i, j :: 0 <= i < j < |Missing(es, already)| ==> Missing(es, already)[i].version != Missing(es, already)[j].version
  {
    if es != [] {
      if es[0].version in already {
        MissingOnce(es[1..], already);
      } else {
        MissingOnce(es[1..], already + {es[0].version});
      }
    }
  }

  predicate DistinctVersions(es: seq<Entry>) {
    forall i, j :: 0 <= i < j < |es| ==> es[i].version != es[j].version
  }

  /** For a detail without repeated versions, what is missing is what is pending. */
  lemma {:induction false} MissingIsPending(es: seq<Entry>, already: set<string>)
    requires DistinctVersions(es)
    ensures Missing(es, already) == Pending(es, already)
  {
    if es != [] {
      var e, rest := es[0], es[1..];
      MissingIsPending(rest, already);
      if e.version !in already {
        assert forall x | x in rest :: x.version != e.version;
        MissingIrrelevant(rest, already, e.version);
      }
    }
  }

  lemma {:induction false} MissingIrrelevant(es: seq<Entry>, already: set<string>, v: string)
    requires forall x | x in es :: x.version != v
    ensures Missing(es, already + {v}) == Missing(es, already)
  {
    if es != [] {
      assert es[0] in es;
      MissingIrrelevant(es[1..], already, v);
      MissingIrrelevant(es[1..], already + {es[0].version}, v);
      assert already + {es[0].version} + {v} == already + {v} + {es[0].version};
    }
  }

  /** Recording a version that is not among the next `m` pending ones leaves those as they are. */
  lemma {:induction false} PendingStable(es: seq<Entry>, already: set<string>, v: string, m: nat)
    requires m <= |Pending(es, already)| && v !in VersionSet(Pending(es, already)[..m])
    ensures m <= |Pending(es, already + {v})| && Pending(es, already + {v})[..m] == Pending(es, already)[..m]
  {
    if es != [] && m > 0 {
      if es[0].version in already {
        PendingStable(es[1..], already, v, m);
      } else {
        var p, q := Pending(es, already), Pending(es[1..], already);
        assert p[..m] == [es[0]] + q[..m - 1];
        assert p[..m][0] == es[0];
        assert forall e | e in q[..m - 1] :: e in p[..m];
        PendingStable(es[1..], already, v, m - 1);
        assert Pending(es, already + {v})[..m] == [es[0]] + Pending(es[1..], already + {v})[..m - 1];
      }
    }
  }

  lemma {:induction false} EachNewTail(es: seq<Entry>, already: set<string>)
    requires es != [] && EachNew(es, already)
    ensures es[0].version !in already && es[0].version !in VersionSet(es[1..])
    ensures EachNew(es[1..], already + {es[0].version})
  {
    var n := |es| - 1;
    if n == 0 {
      assert es[1..] == [];
    } else {
      EachNewTail(es[..n], already);
      assert es[1..][..n - 1] == es[..n][1..];
      assert es[1..] == es[..n][1..] + [es[n]];
      assert es[..n][0] == es[0];
      assert already + {es[0].version} + VersionSet(es[..n][1..]) == already + VersionSet(es[..n]) by {
        assert es[..n] == [es[0]] + es[..n][1..];
      }
    }
  }

  /** Applying the first `k` pending entries, each new, takes exactly them off what is missing. */
  lemma {:induction false} Progress(es: seq<Entry>, already: set<string>, k: nat)
    requires k <= |Pending(es, already)| && EachNew(Pending(es, already)[..k], already)
    ensures var done := Pending(es, already)[..k];
            Missing(es, already) == done + Missing(es, already + VersionSet(done))
  {
    var done := Pending(es, already)[..k];
    if k == 0 {
      assert already + VersionSet(done) == already;
    } else if es[0].version in already {
      Progress(es[1..], already, k);
    } else {
      SplitFirst(es, already, k);
      PendingStable(es[1..], already, es[0].version, k - 1);
      Progress(es[1..], already + {es[0].version}, k - 1);
      ProgressNew(es, already, Pending(es[1..], already)[..k - 1]);
    }
  }

  lemma ProgressNew(es: seq<Entry>, already: set<string>, rest: seq<Entry>)
    requires es != [] && es[0].version !in already
    requires Missing(es[1..], already + {es[0].version}) == rest + Missing(es[1..], already + {es[0].version} + VersionSet(rest))
    ensures Missing(es, already) == ([es[0]] + rest) + Missing(es, already + ({es[0].version} + VersionSet(rest)))
  {
    var v, tail := es[0].version, es[1..];
    var after := already + ({v} + VersionSet(rest));
    assert already + {v} + VersionSet(rest) == after;
    assert Missing(es, after) == Missing(tail, after);
    assert [es[0]] + (rest + Missing(tail, after)) == ([es[0]] + rest) + Missing(tail, after);
  }

  lemma SplitFirst(es: seq<Entry>, already: set<string>, k: nat)
    requires es != [] && es[0].version !in already && 0 < k <= |Pending(es, already)|
    requires EachNew(Pending(es, already)[..k], already)
    ensures var done, rest := Pending(es, already)[..k], Pending(es[1..], already)[..k - 1];
            && done == [es[0]] + rest && VersionSet(done) == {es[0].version} + VersionSet(rest)
            && es[0].version !in VersionSet(rest) && EachNew(rest, already + {es[0].version})
  {
    var done, rest := Pending(es, already)[..k], Pending(es[1..], already)[..k - 1];
    assert done == [es[0]] + rest && done[1..] == rest;
    EachNewTail(done, already);
  }

  lemma {:induction false} NothingMissing(es: seq<Entry>, already: set<string>)
    requires forall e | e in es :: e.version in already
    ensures Missing(es, already) == []
  {
    if es != [] {
      assert es[0] in es;
      NothingMissing(es[1..], already);
    }
  }

  lemma {:induction false} PendingCovers(es: seq<Entry>, already: set<string>, e: Entry)
    requires e in es
    ensures e.version in already || e in Pending(es, already)
  {
    if e != es[0] {
      assert e in es[1..];
      PendingCovers(es[1..], already, e);
    }
  }

  /** One `run_up`: what it reported, how many entries it applied, and the database afterwards. */
  datatype Attempt<D> = Attempt(result: Result<RunResult, MigrateError>, stopped: nat, after: World<D>)

  /** A series of runs of one detail, each from where the previous one left the database. */
  ghost predicate Series<D>(exec: Exec<D>, d: Detail, w: World<D>, runs: seq<Attempt<D>>)
    decreases |runs|
  {
    runs != [] ==>
      var todo := ToApply(d, w.versions);
      && runs[0].stopped <= |todo| && UpStopped(exec, todo, runs[0].stopped, w, runs[0].result, runs[0].after)
      && Series(exec, d, runs[0].after, runs[1..])
  }

  ghost function AppliedBy<D>(exec: Exec<D>, d: Detail, w: World<D>, runs: seq<Attempt<D>>): seq<Entry>
    requires Series(exec, d, w, runs)
    decreases |runs|
  {
    if runs == [] then [] else ToApply(d, w.versions)[..runs[0].stopped] + AppliedBy(exec, d, runs[0].after, runs[1..])
  }

  lemma {:induction false} ExecConcat<D>(exec: Exec<D>, a: seq<Entry>, b: seq<Entry>, db: D)
    ensures ExecAll(exec, a + b, db) == ExecAll(exec, b, ExecAll(exec, a, db))
  {
    if b == [] {
      assert a + b == a;
    } else {
      var n := |b| - 1;
      assert (a + b)[..|a| + n] == a + b[..n];
      ExecConcat(exec, a, b[..n], db);
    }
  }

  lemma {:induction false} AppliesMissing<D>(exec: Exec<D>, d: Detail, w: World<D>, runs: seq<Attempt<D>>)
    requires d.maxCount.None? && runs != [] && runs[|runs| - 1].result.Ok? && Series(exec, d, w, runs)
    ensures AppliedBy(exec, d, w, runs) == Missing(d.migrations, w.versions)
    decreases |runs|
  {
    var first := runs[0];
    if |runs| == 1 {
      assert runs == [first];
      LastRunCompletes(exec, d, w, first);
    } else {
      Progress(d.migrations, w.versions, first.stopped);
      AppliesMissing(exec, d, first.after, runs[1..]);
    }
  }

  lemma {:induction false} LeavesTheSame<D>(exec: Exec<D>, d: Detail, w: World<D>, runs: seq<Attempt<D>>)
    requires d.maxCount.None? && runs != [] && runs[|runs| - 1].result.Ok? && Series(exec, d, w, runs)
    requires forall e | e in d.migrations :: e.transactional
    ensures runs[|runs| - 1].after.db == ExecAll(exec, Missing(d.migrations, w.versions), w.db)
    decreases |runs|
  {
    var first := runs[0];
    if |runs| == 1 {
      assert runs == [first];
      LastRunCompletes(exec, d, w, first);
    } else {
      var done := ToApply(d, w.versions)[..first.stopped];
      Progress(d.migrations, w.versions, first.stopped);
      LeavesTheSame(exec, d, first.after, runs[1..]);
      TransactionalIsClean(exec, d, w, first);
      ExecConcat(exec, done, Missing(d.migrations, first.after.versions), w.db);
    }
  }

  /** Any series of interrupted runs that ends with a clean one applies every missing entry exactly once,
      in order; over transactional entries the contents are as if it had never been interrupted. */
  lemma Resumable<D>(exec: Exec<D>, d: Detail, w: World<D>, runs: seq<Attempt<D>>)
    requires d.maxCount.None? && runs != [] && runs[|runs| - 1].result.Ok? && Series(exec, d, w, runs)
    ensures AppliedBy(exec, d, w, runs) == Missing(d.migrations, w.versions)
    ensures (forall e | e in d.migrations :: e.transactional) ==>
              runs[|runs| - 1].after.db == ExecAll(exec, Missing(d.migrations, w.versions), w.db)
  {
    AppliesMissing(exec, d, w, runs);
    if forall e | e in d.migrations :: e.transactional {
      LeavesTheSame(exec, d, w, runs);
    }
  }

  /** A run of transactional entries, wherever it stopped, leaves the contents of those it applied. */
  lemma TransactionalIsClean<D>(exec: Exec<D>, d: Detail, w: World<D>, a: Attempt<D>)
    requires forall e | e in d.migrations :: e.transactional
    requires var todo := ToApply(d, w.versions);
             a.stopped <= |todo| && UpStopped(exec, todo, a.stopped, w, a.result, a.after)
    ensures a.after.db == ExecAll(exec, ToApply(d, w.versions)[..a.stopped], w.db)
  {
    var todo := ToApply(d, w.versions);
    assert a.stopped < |todo| ==> todo[a.stopped] in todo;
    assert Clean(a.result, todo, a.stopped);
  }

  lemma LastRunCompletes<D>(exec: Exec<D>, d: Detail, w: World<D>, last: Attempt<D>)
    requires d.maxCount.None? && last.result.Ok? && Series(exec, d, w, [last])
    ensures AppliedBy(exec, d, w, [last]) == Missing(d.migrations, w.versions)
    ensures last.after.db == ExecAll(exec, Missing(d.migrations, w.versions), w.db)
  {
    var todo := ToApply(d, w.versions);
    assert todo[..|todo|] == todo;
    assert AppliedBy(exec, d, last.after, [last][1..]) == [];
    Progress(d.migrations, w.versions, |todo|);
    forall e | e in d.migrations ensures e.version in w.versions + VersionSet(todo) {
      PendingCovers(d.migrations, w.versions, e);
    }
    NothingMissing(d.migrations, w.versions + VersionSet(todo));
    assert AppliedBy(exec, d, w, [last]) == todo;
  }

  // ---------------------------------------------------------------------------
  // Down undoes up
  // ---------------------------------------------------------------------------

  ghost predicate Undoes<D(!new)>(exec: Exec<D>, down: string, up: string) {
    forall db :: exec(down, exec(up, db)) == db
  }

  /** `downs` lists the same versions as `ups`, in the same order, and each undoes its counterpart. */
  ghost predicate UndoList<D(!new)>(exec: Exec<D>, ups: seq<Entry>, downs: seq<Entry>) {
    && |downs| == |ups|
    && forall i :: 0 <= i < |ups| ==> downs[i].version == ups[i].version && Undoes(exec, downs[i].sql, ups[i].sql)
  }

  lemma {:induction false} UndoneInReverse<D(!new)>(exec: Exec<D>, ups: seq<Entry>, downs: seq<Entry>, db: D)
    requires UndoList(exec, ups, downs)
    ensures ExecAll(exec, Reverse(downs), ExecAll(exec, ups, db)) == db
  {
    if ups != [] {
      var n := |ups| - 1;
      var last, others := downs[n], downs[..n];
      var mid := ExecAll(exec, ups[..n], db);
      assert Reverse(downs) == [last] + Reverse(others);
      ExecConcat(exec, [last], Reverse(others), exec(ups[n].sql, mid));
      assert ExecAll(exec, [last], exec(ups[n].sql, mid)) == mid by {
        assert [last][..0] == [];
        assert Undoes(exec, last.sql, ups[n].sql);
      }
      UndoneInReverse(exec, ups[..n], others, db);
    }
  }

  lemma {:induction false} AllRecorded(es: seq<Entry>, already: set<string>)
    requires forall e | e in es :: e.version in already
    ensures Recorded(es, already) == es
  {
    if es != [] {
      assert es[0] in es;
      AllRecorded(es[1..], already);
    }
  }

  lemma ReverseMembers(es: seq<Entry>)
    ensures forall e :: e in Reverse(es) <==> e in es
    ensures VersionSet(Reverse(es)) == VersionSet(es)
  {
    forall e | e in es ensures e in Reverse(es) {
      var i :| 0 <= i < |es| && es[i] == e;
      assert Reverse(es)[|es| - 1 - i] == e;
    }
  }

  lemma {:induction false} EachNewDisjoint(es: seq<Entry>, already: set<string>)
    requires EachNew(es, already)
    ensures VersionSet(es) !! already
  {
    if es != [] {
      var n := |es| - 1;
      EachNewDisjoint(es[..n], already);
      assert es == es[..n] + [es[n]];
    }
  }

  /** A successful `run_up` followed by a successful `run_down` over the versions it applied, in the same
      entry order, restores contents and version table, and reverts in reverse order of application. */
  lemma DownUndoesUp<D(!new)>(exec: Exec<D>, up: Detail, down: Detail, w0: World<D>, k: nat, w1: World<D>, j: nat, w2: World<D>,
                              upResult: Result<RunResult, MigrateError>, downResult: Result<RunResult, MigrateError>)
    requires var ups := ToApply(up, w0.versions);
             && k <= |ups| && UpStopped(exec, ups, k, w0, upResult, w1) && upResult.Ok?
             && UndoList(exec, ups, down.migrations) && down.maxCount.None?
    requires var downs := ToRevert(down, w1.versions);
             j <= |downs| && DownStopped(exec, downs, j, w1, downResult, w2) && downResult.Ok?
    ensures w2 == w0
    ensures downResult.value.reverted == Reverse(upResult.value.applied)
  {
    var ups := ToApply(up, w0.versions);
    var downs := down.migrations;
    assert ups[..k] == ups;
    SameVersionSet(ups, downs);
    RevertsAll(down, w1.versions);
    assert Reverse(downs)[..j] == Reverse(downs);
    UndoneInReverse(exec, ups, downs, w0.db);
    EachNewDisjoint(ups, w0.versions);
    ReverseMembers(downs);
    assert Versions(downs) == Versions(ups);
    ReverseVersions(downs);
  }

  /** If every entry is recorded, all are reverted, the last first. */
  lemma RevertsAll(down: Detail, versions: set<string>)
    requires down.maxCount.None? && forall e | e in down.migrations :: e.version in versions
    ensures ToRevert(down, versions) == Reverse(down.migrations)
  {
    ReverseMembers(down.migrations);
    AllRecorded(Reverse(down.migrations), versions);
  }

  lemma VersionsAppend(es: seq<Entry>, e: Entry)
    ensures Versions(es + [e]) == Versions(es) + [e.version]
  {
  }

  lemma {:induction false} ReverseVersions(es: seq<Entry>)
    ensures Versions(Reverse(es)) == Reverse(Versions(es))
  {
    if es != [] {
      ReverseVersions(es[1..]);
      VersionsAppend(Reverse(es[1..]), es[0]);
      assert Versions(es)[1..] == Versions(es[1..]);
    }
  }

  lemma SameVersionSet(ups: seq<Entry>, downs: seq<Entry>)
    requires |ups| == |downs| && forall i :: 0 <= i < |ups| ==> downs[i].version == ups[i].version
    ensures VersionSet(downs) == VersionSet(ups)
    ensures forall e | e in downs :: e.version in VersionSet(ups)
  {
    forall v | v in VersionSet(ups) ensures v in VersionSet(downs) {
      var e :| e in ups && e.version == v;
      var i :| 0 <= i < |ups| && ups[i] == e;
      assert downs[i] in downs;
    }
    forall e | e in downs ensures e.version in VersionSet(ups) {
      var i :| 0 <= i < |downs| && downs[i] == e;
      assert ups[i] in ups;
    }
  }
}
