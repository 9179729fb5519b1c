/** Which registered (database, environment) pairs the workflows cover, and which workflows cover none. */
module WorkflowScopes {
  import opened Wrappers
  import opened ConfigModel

  predicate Covers(w: Workflow, db: string, env: string) {
    (w.database == ANY || w.database == db) && (w.environment == ANY || w.environment == env)
  }

  /** A pattern that names the value outright. */
  predicate Names(pattern: string, value: string) {
    pattern != ANY && pattern == value
  }

  function Score(w: Workflow, db: string, env: string): nat {
    (if Names(w.environment, env) then 4 else 0) + (if Names(w.database, db) then 2 else 0)
  }

  /** `v` is the more specific choice: the environment decides, and the database where that is a draw. */
  predicate MoreSpecific(v: Workflow, w: Workflow, db: string, env: string) {
    || (Names(v.environment, env) && !Names(w.environment, env))
    || (Names(v.environment, env) == Names(w.environment, env) && Names(v.database, db) && !Names(w.database, db))
  }

  lemma ScoreRanks(v: Workflow, w: Workflow, db: string, env: string)
    ensures Score(v, db, env) > Score(w, db, env) <==> MoreSpecific(v, w, db, env)
  {
  }

  predicate Covered(ws: seq<Workflow>, db: string, env: string) {
    exists k :: 0 <= k < |ws| && Covers(ws[k], db, env)
  }

  /** The chosen workflow covers the pair, none that covers it is more specific, and of equally specific ones it
      is the last. */
  predicate IsBest(ws: seq<Workflow>, db: string, env: string, r: Option<nat>) {
    match r
    case None => !Covered(ws, db, env)
    case Some(k) =>
      && k < |ws| && Covers(ws[k], db, env)
      && (forall j :: 0 <= j < |ws| && Covers(ws[j], db, env) ==> !MoreSpecific(ws[j], ws[k], db, env))
      && (forall j :: k < j < |ws| && Covers(ws[j], db, env) ==> MoreSpecific(ws[k], ws[j], db, env))
  }

  method BestMatch(ws: seq<Workflow>, db: string, env: string) returns (r: Option<nat>)
    ensures IsBest(ws, db, env, r)
  {
    r := None;
    var i := 0;
    while i < |ws|
      invariant 0 <= i <= |ws|
      invariant r.None? ==> forall j :: 0 <= j < i ==> !Covers(ws[j], db, env)
      invariant r.Some? ==> r.value < i && Covers(ws[r.value], db, env)
      invariant r.Some? ==> forall j :: 0 <= j < i && Covers(ws[j], db, env) ==>
                                          Score(ws[j], db, env) <= Score(ws[r.value], db, env)
      invariant r.Some? ==> forall j :: r.value < j < i && Covers(ws[j], db, env) ==>
                                          Score(ws[j], db, env) < Score(ws[r.value], db, env)
    {
      if Covers(ws[i], db, env) && (r.None? || Score(ws[r.value], db, env) <= Score(ws[i], db, env)) {
        r := Some(i);
      }
      i := i + 1;
    }
    if r.Some? {
      forall j | 0 <= j < |ws|
        ensures Score(ws[j], db, env) > Score(ws[r.value], db, env) <==> MoreSpecific(ws[j], ws[r.value], db, env)
        ensures Score(ws[r.value], db, env) > Score(ws[j], db, env) <==> MoreSpecific(ws[r.value], ws[j], db, env)
      {
        ScoreRanks(ws[j], ws[r.value], db, env);
        ScoreRanks(ws[r.value], ws[j], db, env);
      }
    }
  }

  // ---------------------------------------------------------------------------
  // Coverage
  // ---------------------------------------------------------------------------

  type Pair = (string, string)

  datatype CoverageEntry = CoverageEntry(pair: Pair, workflow: Option<nat>)

  function EnvPairs(name: string, envs: seq<string>): seq<Pair> {
    if envs == [] then []
    else
      var n := |envs| - 1;
      EnvPairs(name, envs[..n]) + (if name == ANY || envs[n] == ANY then [] else [(name, envs[n])])
  }

  /** The registered pairs with neither name a wildcard, in configuration order. */
  function ConcretePairs(dbs: seq<Database>): seq<Pair> {
    if dbs == [] then []
    else
      var n := |dbs| - 1;
      ConcretePairs(dbs[..n]) + EnvPairs(dbs[n].name, dbs[n].environments)
  }

  lemma {:induction false} EnvPairsAre(name: string, envs: seq<string>, p: Pair)
    ensures p in EnvPairs(name, envs) <==> p.0 == name && p.1 in envs && name != ANY && p.1 != ANY
  {
    if envs != [] {
      var n := |envs| - 1;
      EnvPairsAre(name, envs[..n], p);
      assert envs == envs[..n] + [envs[n]];
    }
  }

  predicate Registered(dbs: seq<Database>, db: string, env: string) {
    exists k :: 0 <= k < |dbs| && dbs[k].name == db && env in dbs[k].environments
  }

  lemma {:induction false} ConcretePairsAre(dbs: seq<Database>, p: Pair)
    ensures p in ConcretePairs(dbs) <==> Registered(dbs, p.0, p.1) && p.0 != ANY && p.1 != ANY
  {
    if dbs != [] {
      var n := |dbs| - 1;
      ConcretePairsAre(dbs[..n], p);
      EnvPairsAre(dbs[n].name, dbs[n].environments, p);
    }
  }

  /** One entry for each pair, with the best workflow for it. */
  predicate Matched(ws: seq<Workflow>, pairs: seq<Pair>, entries: seq<CoverageEntry>) {
    && |entries| == |pairs|
    && forall k :: 0 <= k < |pairs| ==>
                     entries[k].pair == pairs[k] && IsBest(ws, pairs[k].0, pairs[k].1, entries[k].workflow)
  }

  predicate AllGaps(entries: seq<CoverageEntry>) {
    forall k :: 0 <= k < |entries| ==> entries[k].workflow.None?
  }

  predicate NoGap(entries: seq<CoverageEntry>) {
    forall k :: 0 <= k < |entries| ==> entries[k].workflow.Some?
  }

  predicate Counted(entries: seq<CoverageEntry>, gaps: nat) {
    gaps <= |entries| && (gaps == 0 <==> NoGap(entries)) && (gaps == |entries| <==> AllGaps(entries))
  }

  method CoverEnvironments(ws: seq<Workflow>, db: Database, entries: seq<CoverageEntry>, gaps: nat,
                           ghost pairs: seq<Pair>)
    returns (out: seq<CoverageEntry>, outGaps: nat)
    requires Matched(ws, pairs, entries) && Counted(entries, gaps)
    ensures Matched(ws, pairs + EnvPairs(db.name, db.environments), out) && Counted(out, outGaps)
  {
    out, outGaps := entries, gaps;
    var envs := db.environments;
    var i := 0;
    while i < |envs|
      invariant 0 <= i <= |envs|
      invariant Matched(ws, pairs + EnvPairs(db.name, envs[..i]), out) && Counted(out, outGaps)
    {
      assert envs[..i + 1][..i] == envs[..i];
      if db.name != ANY && envs[i] != ANY {
        assert EnvPairs(db.name, envs[..i + 1]) == EnvPairs(db.name, envs[..i]) + [(db.name, envs[i])];
        var r := BestMatch(ws, db.name, envs[i]);
        CountNext(out, outGaps, CoverageEntry((db.name, envs[i]), r));
        if r.None? {
          outGaps := outGaps + 1;
        }
        out := out + [CoverageEntry((db.name, envs[i]), r)];
      }
      i := i + 1;
    }
    assert envs[..i] == envs;
  }

  lemma CountNext(entries: seq<CoverageEntry>, gaps: nat, entry: CoverageEntry)
    requires Counted(entries, gaps)
    ensures Counted(entries + [entry], gaps + if entry.workflow.None? then 1 else 0)
  {
    var next := entries + [entry];
    assert next[|entries|] == entry;
    assert forall k :: 0 <= k < |entries| ==> next[k] == entries[k];
    assert NoGap(next) <==> NoGap(entries) && entry.workflow.Some?;
    assert AllGaps(next) <==> AllGaps(entries) && entry.workflow.None?;
  }

  predicate AllUncovered(ws: seq<Workflow>, pairs: seq<Pair>) {
    forall k :: 0 <= k < |pairs| ==> !Covered(ws, pairs[k].0, pairs[k].1)
  }

  predicate AllCovered(ws: seq<Workflow>, pairs: seq<Pair>) {
    forall k :: 0 <= k < |pairs| ==> Covered(ws, pairs[k].0, pairs[k].1)
  }

  /** The coverage issue: an error when workflows exist but cover no concrete pair, a warning when they cover some
      and not others. */
  predicate CoverageIssue(dbs: seq<Database>, ws: seq<Workflow>, x: Issue) {
    var pairs := ConcretePairs(dbs);
    && x.id == WorkflowCoverage && ws != []
    && match x.severity
       case Error => pairs != [] && AllUncovered(ws, pairs)
       case Warning => !AllUncovered(ws, pairs) && !AllCovered(ws, pairs)
  }

  /** Also returns the table that goes with the issue. */
  method ValidateCoverage(dbs: seq<Database>, ws: seq<Workflow>, issues: seq<Issue>)
    returns (out: seq<Issue>, entries: seq<CoverageEntry>)
    ensures forall x :: x in out <==> x in issues || CoverageIssue(dbs, ws, x)
    ensures ws != [] ==> Matched(ws, ConcretePairs(dbs), entries)
  {
    out, entries := issues, [];
    if dbs == [] || ws == [] {
      return;
    }
    var gaps: nat := 0;
    var i := 0;
    while i < |dbs|
      invariant 0 <= i <= |dbs|
      invariant Matched(ws, ConcretePairs(dbs[..i]), entries) && Counted(entries, gaps)
    {
      assert dbs[..i + 1][..i] == dbs[..i];
      entries, gaps := CoverEnvironments(ws, dbs[i], entries, gaps, ConcretePairs(dbs[..i]));
      i := i + 1;
    }
    assert dbs[..i] == dbs;
    MatchedShowsGaps(ws, ConcretePairs(dbs), entries);
    var total := |entries|;
    if gaps > 0 && gaps < total {
      out := out + [Issue(Warning, WorkflowCoverage)];
    } else if gaps == total && total > 0 {
      out := out + [Issue(Error, WorkflowCoverage)];
    }
  }

  lemma MatchedShowsGaps(ws: seq<Workflow>, pairs: seq<Pair>, entries: seq<CoverageEntry>)
    requires Matched(ws, pairs, entries)
    ensures NoGap(entries) <==> AllCovered(ws, pairs)
    ensures AllGaps(entries) <==> AllUncovered(ws, pairs)
  {
    forall k | 0 <= k < |pairs| ensures entries[k].workflow.Some? <==> Covered(ws, pairs[k].0, pairs[k].1) {
      assert IsBest(ws, pairs[k].0, pairs[k].1, entries[k].workflow);
    }
  }

  // ---------------------------------------------------------------------------
  // Dead workflows
  // ---------------------------------------------------------------------------

  predicate RegisteredDatabase(dbs: seq<Database>, db: string) {
    exists k :: 0 <= k < |dbs| && dbs[k].name == db
  }

  predicate RegisteredEnvironment(dbs: seq<Database>, env: string) {
    exists k :: 0 <= k < |dbs| && env in dbs[k].environments
  }

  /** The workflow covers no registered pair. */
  predicate Useless(w: Workflow, dbs: seq<Database>) {
    forall k, e :: 0 <= k < |dbs| && e in dbs[k].environments ==> !Covers(w, dbs[k].name, e)
  }

  /** Reported as dead. */
  predicate Dead(w: Workflow, dbs: seq<Database>) {
    if w.database == ANY && w.environment == ANY then false
    else if w.database != ANY && !RegisteredDatabase(dbs, w.database) then true
    else if w.database != ANY && w.environment != ANY && !Registered(dbs, w.database, w.environment) then true
    else w.database == ANY && w.environment != ANY && !RegisteredEnvironment(dbs, w.environment)
  }

  /** A dead workflow is useless. The converse fails exactly for a workflow of every environment whose database
      pattern is known but has no environment registered. */
  lemma DeadExactly(w: Workflow, dbs: seq<Database>)
    ensures Dead(w, dbs) ==> Useless(w, dbs)
    ensures Useless(w, dbs) && !Dead(w, dbs) <==>
              && w.environment == ANY
              && (w.database == ANY || RegisteredDatabase(dbs, w.database))
              && forall k :: 0 <= k < |dbs| && (w.database == ANY || dbs[k].name == w.database) ==>
                               dbs[k].environments == []
  {
    if w.environment == ANY {
      forall k | 0 <= k < |dbs| && (w.database == ANY || dbs[k].name == w.database) && dbs[k].environments != []
        ensures !Useless(w, dbs)
      {
        assert dbs[k].environments[0] in dbs[k].environments && Covers(w, dbs[k].name, dbs[k].environments[0]);
      }
    } else if !Dead(w, dbs) {
      var k :| 0 <= k < |dbs| && (w.database == ANY || dbs[k].name == w.database)
               && w.environment in dbs[k].environments;
      assert Covers(w, dbs[k].name, w.environment);
    }
  }

  /** With some database, and an environment in each, dead is useless. */
  lemma DeadIffUseless(w: Workflow, dbs: seq<Database>)
    requires dbs != [] && forall k :: 0 <= k < |dbs| ==> dbs[k].environments != []
    ensures Dead(w, dbs) <==> Useless(w, dbs)
  {
    DeadExactly(w, dbs);
    assert dbs[0].environments != [];
    if RegisteredDatabase(dbs, w.database) {
      var k :| 0 <= k < |dbs| && dbs[k].name == w.database;
      assert dbs[k].environments != [];
    }
  }

  /** The witnesses that the condition is needed: nothing registered, and a database without environments. */
  lemma UselessNotDead()
    ensures var w := Workflow(ANY, ANY, [], None, []); Useless(w, []) && !Dead(w, [])
    ensures var w := Workflow("d", ANY, [], None, []); Useless(w, [Database("d", [])]) && !Dead(w, [Database("d", [])])
  {
    DeadExactly(Workflow(ANY, ANY, [], None, []), []);
    var dbs := [Database("d", [])];
    assert dbs[0].name == "d";
    DeadExactly(Workflow("d", ANY, [], None, []), dbs);
  }

  method RegisteredPairs(dbs: seq<Database>) returns (pairs: set<Pair>, names: set<string>)
    ensures forall p: Pair :: p in pairs <==> Registered(dbs, p.0, p.1)
    ensures forall d :: d in names <==> RegisteredDatabase(dbs, d)
  {
    pairs, names := {}, {};
    var i := 0;
    while i < |dbs|
      invariant 0 <= i <= |dbs|
      invariant forall p: Pair :: p in pairs <==> Registered(dbs[..i], p.0, p.1)
      invariant forall d :: d in names <==> RegisteredDatabase(dbs[..i], d)
    {
      var here := EnvironmentPairs(dbs[i]);
      forall p: Pair
        ensures Registered(dbs[..i + 1], p.0, p.1) <==> Registered(dbs[..i], p.0, p.1) || p in here
      {
        RegisteredNext(dbs, i, p.0, p.1);
      }
      forall d ensures RegisteredDatabase(dbs[..i + 1], d) <==> RegisteredDatabase(dbs[..i], d) || d == dbs[i].name {
        if d == dbs[i].name {
          assert dbs[..i + 1][i].name == d;
        }
        assert forall k :: 0 <= k < i ==> dbs[..i][k] == dbs[..i + 1][k];
      }
      pairs := pairs + here;
      names := names + {dbs[i].name};
      i := i + 1;
    }
    assert dbs[..i] == dbs;
  }

  lemma RegisteredNext(dbs: seq<Database>, i: nat, db: string, env: string)
    requires i < |dbs|
    ensures Registered(dbs[..i + 1], db, env) <==>
              Registered(dbs[..i], db, env) || (dbs[i].name == db && env in dbs[i].environments)
  {
    assert forall k :: 0 <= k < i ==> dbs[..i][k] == dbs[..i + 1][k];
    assert dbs[..i + 1][i] == dbs[i];
  }

  method EnvironmentPairs(db: Database) returns (pairs: set<Pair>)
    ensures forall p: Pair :: p in pairs <==> p.0 == db.name && p.1 in db.environments
  {
    pairs := {};
    var i := 0;
    while i < |db.environments|
      invariant 0 <= i <= |db.environments|
      invariant forall p: Pair :: p in pairs <==> p.0 == db.name && p.1 in db.environments[..i]
    {
      assert db.environments[..i + 1] == db.environments[..i] + [db.environments[i]];
      pairs := pairs + {(db.name, db.environments[i])};
      i := i + 1;
    }
    assert db.environments[..i] == db.environments;
  }

  method EnvironmentExists(dbs: seq<Database>, env: string) returns (found: bool)
    ensures found <==> RegisteredEnvironment(dbs, env)
  {
    var i := 0;
    while i < |dbs|
      invariant 0 <= i <= |dbs|
      invariant forall k :: 0 <= k < i ==> env !in dbs[k].environments
    {
      if env in dbs[i].environments {
        return true;
      }
      i := i + 1;
    }
    return false;
  }

  method IsDead(w: Workflow, dbs: seq<Database>, pairs: set<Pair>, names: set<string>) returns (dead: bool)
    requires forall p: Pair :: p in pairs <==> Registered(dbs, p.0, p.1)
    requires forall d :: d in names <==> RegisteredDatabase(dbs, d)
    ensures dead <==> Dead(w, dbs)
  {
    if w.database == ANY && w.environment == ANY {
      return false;
    }
    if w.database != ANY && w.database !in names {
      return true;
    }
    if w.database != ANY && w.environment != ANY && (w.database, w.environment) !in pairs {
      assert !Registered(dbs, w.database, w.environment);
      return true;
    }
    if w.database == ANY && w.environment != ANY {
      var known := EnvironmentExists(dbs, w.environment);
      return !known;
    }
    return false;
  }

  predicate AllDead(ws: seq<Workflow>, dbs: seq<Database>) {
    forall i :: 0 <= i < |ws| ==> Dead(ws[i], dbs)
  }

  /** The reference issue: an error when no workflow is alive, a warning when some are dead. */
  predicate RefsIssue(dbs: seq<Database>, ws: seq<Workflow>, x: Issue) {
    && x.id == WorkflowRefs
    && match x.severity
       case Error => AllDead(ws, dbs)
       case Warning => !AllDead(ws, dbs) && exists i :: 0 <= i < |ws| && Dead(ws[i], dbs)
  }

  /** Also returns the places of the dead workflows, in order. */
  method ValidateRefs(dbs: seq<Database>, ws: seq<Workflow>, issues: seq<Issue>)
    returns (out: seq<Issue>, dead: seq<nat>)
    ensures forall x :: x in out <==> x in issues || RefsIssue(dbs, ws, x)
    ensures forall i: nat :: i in dead <==> i < |ws| && Dead(ws[i], dbs)
    ensures forall k, l :: 0 <= k < l < |dead| ==> dead[k] < dead[l]
  {
    out, dead := issues, [];
    if ws == [] {
      out := out + [Issue(Error, WorkflowRefs)];
      return;
    }
    var pairs, names := RegisteredPairs(dbs);
    var i := 0;
    while i < |ws|
      invariant 0 <= i <= |ws|
      invariant forall j: nat :: j in dead <==> j < i && Dead(ws[j], dbs)
      invariant forall k, l :: 0 <= k < l < |dead| ==> dead[k] < dead[l]
      invariant |dead| <= i && (|dead| == i <==> forall j :: 0 <= j < i ==> Dead(ws[j], dbs))
    {
      var d := IsDead(ws[i], dbs, pairs, names);
      if d {
        assert forall k :: 0 <= k < |dead| ==> dead[k] in dead && dead[k] < i;
        dead := dead + [i];
      }
      i := i + 1;
    }
    if dead != [] {
      assert dead[0] in dead;
      if |dead| == |ws| {
        out := out + [Issue(Error, WorkflowRefs)];
      } else {
        out := out + [Issue(Warning, WorkflowRefs)];
      }
    }
  }
}
