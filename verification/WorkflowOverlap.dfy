/** Whether workflows of one (database, environment) scope compete for an operation. */
module WorkflowOverlap {
  import opened ConfigModel

  type Scope = (string, string)

  /** A workflow's place in the configuration, and its operations. */
  type Entry = (nat, seq<string>)

  function ScopeOf(w: Workflow): Scope {
    (w.database, w.environment)
  }

  predicate Distinct(s: seq<string>) {
    forall i, j :: 0 <= i < j < |s| ==> s[i] != s[j]
  }

  predicate Disjoint(s: seq<string>, t: seq<string>) {
    forall x :: x in s ==> x !in t
  }

  /** What the check is for: two workflows of one scope have operations, and share none. */
  predicate Compatible(v: Workflow, w: Workflow) {
    ScopeOf(v) == ScopeOf(w) ==> v.operations != [] && w.operations != [] && Disjoint(v.operations, w.operations)
  }

  predicate NoOverlap(ws: seq<Workflow>) {
    && (forall i :: 0 <= i < |ws| ==> Distinct(ws[i].operations))
    && (forall i, j :: 0 <= i < j < |ws| ==> Compatible(ws[i], ws[j]))
  }

  /** A workflow without operations takes every operation of its scope. */
  predicate Takes(w: Workflow, op: string) {
    w.operations == [] || op in w.operations
  }

  /** Two workflows are compatible exactly when no operation of a shared scope is taken by both. */
  lemma CompatibleMeansOneTaker(v: Workflow, w: Workflow)
    ensures Compatible(v, w) <==> (ScopeOf(v) == ScopeOf(w) ==> forall op :: !(Takes(v, op) && Takes(w, op)))
  {
    if ScopeOf(v) == ScopeOf(w) && !Compatible(v, w) {
      var op := if v.operations != [] then v.operations[0] else if w.operations != [] then w.operations[0] else "";
      if v.operations == [] || w.operations == [] {
        assert Takes(v, op) && Takes(w, op);
      } else {
        var x :| x in v.operations && x in w.operations;
        assert Takes(v, x) && Takes(w, x);
      }
    }
  }

  // ---------------------------------------------------------------------------
  // The groups
  // ---------------------------------------------------------------------------

  /** The entries of one scope, in configuration order. */
  function Entries(ws: seq<Workflow>, scope: Scope): seq<Entry> {
    if ws == [] then []
    else
      var n := |ws| - 1;
      Entries(ws[..n], scope) + (if ScopeOf(ws[n]) == scope then [(n, ws[n].operations)] else [])
  }

  function Flatten(entries: seq<Entry>): seq<string> {
    if entries == [] then [] else Flatten(entries[..|entries| - 1]) + entries[|entries| - 1].1
  }

  predicate HasCatchall(entries: seq<Entry>) {
    exists k :: 0 <= k < |entries| && entries[k].1 == []
  }

  predicate GroupOk(entries: seq<Entry>) {
    !(HasCatchall(entries) && |entries| > 1) && Distinct(Flatten(entries))
  }

  predicate ScopeOk(ws: seq<Workflow>, scope: Scope) {
    GroupOk(Entries(ws, scope))
  }

  method GroupByScope(ws: seq<Workflow>) returns (groups: map<Scope, seq<Entry>>)
    ensures forall s :: Entries(ws, s) == if s in groups then groups[s] else []
  {
    groups := map[];
    var i := 0;
    while i < |ws|
      invariant 0 <= i <= |ws|
      invariant forall s :: Entries(ws[..i], s) == if s in groups then groups[s] else []
    {
      var s := ScopeOf(ws[i]);
      assert ws[..i + 1][..i] == ws[..i];
      var entry: Entry := (i, ws[i].operations);
      groups := groups[s := (if s in groups then groups[s] else []) + [entry]];
      i := i + 1;
    }
    assert ws[..i] == ws;
  }

  method AnyCatchall(entries: seq<Entry>) returns (found: bool)
    ensures found <==> HasCatchall(entries)
  {
    found := false;
    var k := 0;
    while k < |entries|
      invariant 0 <= k <= |entries|
      invariant found <==> exists j :: 0 <= j < k && entries[j].1 == []
    {
      if entries[k].1 == [] {
        found := true;
      }
      k := k + 1;
    }
  }

  /** The fail-fast loop over one group: stops at the first operation seen before. */
  method CheckGroup(entries: seq<Entry>) returns (ok: bool)
    ensures ok <==> GroupOk(entries)
  {
    var catchall := AnyCatchall(entries);
    if catchall && |entries| > 1 {
      return false;
    }
    var seen: set<string> := {};
    var k := 0;
    while k < |entries|
      invariant 0 <= k <= |entries|
      invariant Distinct(Flatten(entries[..k]))
      invariant forall x :: x in seen <==> x in Flatten(entries[..k])
    {
      var ops := entries[k].1;
      ghost var before := Flatten(entries[..k]);
      FlattenNext(entries, k);
      assert before + ops[..0] == before;
      var m := 0;
      while m < |ops|
        invariant 0 <= m <= |ops|
        invariant Distinct(before + ops[..m])
        invariant forall x :: x in seen <==> x in before + ops[..m]
      {
        assert before + ops[..m + 1] == (before + ops[..m]) + [ops[m]];
        DistinctNext(before + ops[..m], ops[m]);
        if ops[m] in seen {
          assert before + ops == (before + ops[..m + 1]) + ops[m + 1..];
          DuplicateInPrefix(before + ops[..m + 1], ops[m + 1..]);
          DuplicateStays(entries, k + 1);
          return false;
        }
        seen := seen + {ops[m]};
        m := m + 1;
      }
      assert ops[..m] == ops;
      k := k + 1;
    }
    assert entries[..k] == entries;
    return true;
  }

  /** The collecting loop over one group records an issue for the catch-all and for every repetition. */
  method CollectGroup(entries: seq<Entry>, issues: seq<Issue>) returns (out: seq<Issue>)
    ensures forall x :: x in out <==>
                          x in issues || (x == Issue(Error, WorkflowOperationsOverlap) && !GroupOk(entries))
  {
    var issue := Issue(Error, WorkflowOperationsOverlap);
    out := issues;
    var catchall := AnyCatchall(entries);
    ghost var clash := catchall && |entries| > 1;
    if catchall && |entries| > 1 {
      out := out + [issue];
    }
    var seen: set<string> := {};
    var k := 0;
    while k < |entries|
      invariant 0 <= k <= |entries|
      invariant forall x :: x in out <==> x in issues || (x == issue && (clash || !Distinct(Flatten(entries[..k]))))
      invariant forall x :: x in seen <==> x in Flatten(entries[..k])
    {
      var ops := entries[k].1;
      ghost var before := Flatten(entries[..k]);
      FlattenNext(entries, k);
      assert before + ops[..0] == before;
      var m := 0;
      while m < |ops|
        invariant 0 <= m <= |ops|
        invariant forall x :: x in out <==> x in issues || (x == issue && (clash || !Distinct(before + ops[..m])))
        invariant forall x :: x in seen <==> x in before + ops[..m]
      {
        assert before + ops[..m + 1] == (before + ops[..m]) + [ops[m]];
        DistinctNext(before + ops[..m], ops[m]);
        if ops[m] in seen {
          out := out + [issue];
        }
        seen := seen + {ops[m]};
        m := m + 1;
      }
      assert ops[..m] == ops;
      k := k + 1;
    }
    assert entries[..k] == entries;
  }

  /** The groups are visited in no particular order. */
  method CheckOverlap(ws: seq<Workflow>) returns (ok: bool)
    ensures ok <==> NoOverlap(ws)
  {
    var groups := GroupByScope(ws);
    GroupsDecide(ws);
    var left := groups.Keys;
    while left != {}
      invariant left <= groups.Keys
      invariant forall s :: s in groups && s !in left ==> GroupOk(groups[s])
      decreases left
    {
      var s :| s in left;
      var good := CheckGroup(groups[s]);
      if !good {
        assert !ScopeOk(ws, s);
        return false;
      }
      left := left - {s};
    }
    OnlyGroupsMatter(ws, groups);
    return true;
  }

  method CollectOverlap(ws: seq<Workflow>, issues: seq<Issue>) returns (out: seq<Issue>)
    ensures forall x :: x in out <==> x in issues || (x == Issue(Error, WorkflowOperationsOverlap) && !NoOverlap(ws))
  {
    var groups := GroupByScope(ws);
    GroupsDecide(ws);
    out := issues;
    var left := groups.Keys;
    while left != {}
      invariant left <= groups.Keys
      invariant forall x :: x in out <==>
                              x in issues || (x == Issue(Error, WorkflowOperationsOverlap)
                                              && exists s :: s in groups && s !in left && !GroupOk(groups[s]))
      decreases left
    {
      var s :| s in left;
      out := CollectGroup(groups[s], out);
      left := left - {s};
    }
    OnlyGroupsMatter(ws, groups);
  }

  // ---------------------------------------------------------------------------
  // Why grouping decides it
  // ---------------------------------------------------------------------------

  lemma OnlyGroupsMatter(ws: seq<Workflow>, groups: map<Scope, seq<Entry>>)
    requires forall s :: Entries(ws, s) == if s in groups then groups[s] else []
    ensures (forall s :: s in groups ==> GroupOk(groups[s])) <==> forall s :: ScopeOk(ws, s)
  {
    assert GroupOk([]);
    if forall s :: s in groups ==> GroupOk(groups[s]) {
      forall s ensures ScopeOk(ws, s) {
        assert s in groups ==> GroupOk(groups[s]);
      }
    }
    if forall s :: ScopeOk(ws, s) {
      forall s | s in groups ensures GroupOk(groups[s]) {
        assert ScopeOk(ws, s);
      }
    }
  }

  lemma FlattenNext(entries: seq<Entry>, k: nat)
    requires k < |entries|
    ensures Flatten(entries[..k + 1]) == Flatten(entries[..k]) + entries[k].1
  {
    assert entries[..k + 1][..k] == entries[..k];
  }

  lemma DistinctNext(s: seq<string>, x: string)
    ensures Distinct(s + [x]) <==> Distinct(s) && x !in s
  {
    var t := s + [x];
    if Distinct(t) {
      forall i, j | 0 <= i < j < |s| ensures s[i] != s[j] {
        assert t[i] == s[i] && t[j] == s[j];
      }
      forall i | 0 <= i < |s| ensures s[i] != x {
        assert t[i] == s[i] && t[|s|] == x;
      }
    }
  }

  lemma DuplicateInPrefix(s: seq<string>, t: seq<string>)
    requires !Distinct(s)
    ensures !Distinct(s + t)
  {
    var i, j :| 0 <= i < j < |s| && s[i] == s[j];
    assert (s + t)[i] == s[i] && (s + t)[j] == s[j];
  }

  lemma {:induction false} DuplicateStays(entries: seq<Entry>, k: nat)
    requires k <= |entries| && !Distinct(Flatten(entries[..k]))
    ensures !Distinct(Flatten(entries))
    decreases |entries| - k
  {
    if k == |entries| {
      assert entries[..k] == entries;
    } else {
      FlattenNext(entries, k);
      DuplicateInPrefix(Flatten(entries[..k]), entries[k].1);
      DuplicateStays(entries, k + 1);
    }
  }

  lemma DistinctConcat(s: seq<string>, t: seq<string>)
    ensures Distinct(s + t) <==> Distinct(s) && Distinct(t) && Disjoint(s, t)
  {
    var u := s + t;
    if Distinct(u) {
      forall i, j | 0 <= i < j < |s| ensures s[i] != s[j] {
        assert u[i] == s[i] && u[j] == s[j];
      }
      forall i, j | 0 <= i < j < |t| ensures t[i] != t[j] {
        assert u[|s| + i] == t[i] && u[|s| + j] == t[j];
      }
      forall x | x in s ensures x !in t {
        var i :| 0 <= i < |s| && s[i] == x;
        assert u[i] == x;
        assert forall j :: 0 <= j < |t| ==> u[|s| + j] == t[j];
      }
    }
    if Distinct(s) && Distinct(t) && Disjoint(s, t) {
      forall i, j | 0 <= i < j < |u| ensures u[i] != u[j] {
        assert i < |s| ==> u[i] in s;
        assert j >= |s| ==> u[j] in t;
      }
    }
  }

  lemma {:induction false} FlattenContains(entries: seq<Entry>, x: string)
    ensures x in Flatten(entries) <==> exists k :: 0 <= k < |entries| && x in entries[k].1
  {
    if entries != [] {
      FlattenContains(entries[..|entries| - 1], x);
    }
  }

  predicate EachDistinct(entries: seq<Entry>) {
    forall k :: 0 <= k < |entries| ==> Distinct(entries[k].1)
  }

  predicate PairsDisjoint(entries: seq<Entry>) {
    forall k, l :: 0 <= k < l < |entries| ==> Disjoint(entries[k].1, entries[l].1)
  }

  lemma DisjointFromAll(entries: seq<Entry>, t: seq<string>)
    ensures Disjoint(Flatten(entries), t) <==> forall k :: 0 <= k < |entries| ==> Disjoint(entries[k].1, t)
  {
    forall x ensures x in Flatten(entries) <==> exists k :: 0 <= k < |entries| && x in entries[k].1 {
      FlattenContains(entries, x);
    }
  }

  lemma {:induction false} FlattenDistinct(entries: seq<Entry>)
    ensures Distinct(Flatten(entries)) <==> EachDistinct(entries) && PairsDisjoint(entries)
  {
    if entries != [] {
      var n := |entries| - 1;
      FlattenDistinct(entries[..n]);
      DistinctConcat(Flatten(entries[..n]), entries[n].1);
      DisjointFromAll(entries[..n], entries[n].1);
    }
  }

  /** A scope's entries are the workflows of that scope, in order. */
  lemma {:induction false} EntriesSound(ws: seq<Workflow>, s: Scope)
    ensures forall k :: 0 <= k < |Entries(ws, s)| ==>
                          && Entries(ws, s)[k].0 < |ws|
                          && ScopeOf(ws[Entries(ws, s)[k].0]) == s
                          && Entries(ws, s)[k].1 == ws[Entries(ws, s)[k].0].operations
    ensures forall k, l :: 0 <= k < l < |Entries(ws, s)| ==> Entries(ws, s)[k].0 < Entries(ws, s)[l].0
  {
    if ws != [] {
      EntriesSound(ws[..|ws| - 1], s);
    }
  }

  lemma {:induction false} EntriesComplete(ws: seq<Workflow>, i: nat) returns (k: nat)
    requires i < |ws|
    ensures k < |Entries(ws, ScopeOf(ws[i]))| && Entries(ws, ScopeOf(ws[i]))[k] == (i, ws[i].operations)
  {
    var n := |ws| - 1;
    if i == n {
      k := |Entries(ws[..n], ScopeOf(ws[i]))|;
    } else {
      k := EntriesComplete(ws[..n], i);
    }
  }

  /** If the workflows do not overlap then every group passes. */
  lemma GroupsPass(ws: seq<Workflow>, s: Scope)
    requires NoOverlap(ws)
    ensures ScopeOk(ws, s)
  {
    var e := Entries(ws, s);
    EntriesSound(ws, s);
    assert EachDistinct(e);
    forall k, l | 0 <= k < l < |e|
      ensures Disjoint(e[k].1, e[l].1) && e[k].1 != [] && e[l].1 != []
    {
      assert Compatible(ws[e[k].0], ws[e[l].0]);
    }
    FlattenDistinct(e);
    forall k | 0 <= k < |e| && |e| > 1 ensures e[k].1 != [] {
      assert if k == 0 then e[0].1 != [] && e[1].1 != [] else e[0].1 != [] && e[k].1 != [];
    }
  }

  /** If every group passes then two workflows are compatible. */
  lemma PassedGroupsCompatible(ws: seq<Workflow>, i: nat, j: nat)
    requires i < j < |ws| && ScopeOf(ws[i]) == ScopeOf(ws[j])
    requires ScopeOk(ws, ScopeOf(ws[i]))
    ensures Compatible(ws[i], ws[j])
  {
    var e := Entries(ws, ScopeOf(ws[i]));
    var k := EntriesComplete(ws, i);
    var l := EntriesComplete(ws, j);
    EntriesSound(ws, ScopeOf(ws[i]));
    assert e[k].0 == i && e[l].0 == j;
    assert k < l;
    FlattenDistinct(e);
    assert Disjoint(e[k].1, e[l].1);
  }

  lemma PassedGroupDistinct(ws: seq<Workflow>, i: nat)
    requires i < |ws| && ScopeOk(ws, ScopeOf(ws[i]))
    ensures Distinct(ws[i].operations)
  {
    var k := EntriesComplete(ws, i);
    FlattenDistinct(Entries(ws, ScopeOf(ws[i])));
  }

  lemma PassedGroupsDoNotOverlap(ws: seq<Workflow>)
    requires forall s :: ScopeOk(ws, s)
    ensures NoOverlap(ws)
  {
    forall i | 0 <= i < |ws| ensures Distinct(ws[i].operations) {
      PassedGroupDistinct(ws, i);
    }
    forall i, j | 0 <= i < j < |ws| ensures Compatible(ws[i], ws[j]) {
      if ScopeOf(ws[i]) == ScopeOf(ws[j]) {
        PassedGroupsCompatible(ws, i, j);
      }
    }
  }

  /** Checking group by group is checking every pair. */
  lemma GroupsDecide(ws: seq<Workflow>)
    ensures NoOverlap(ws) <==> forall s :: ScopeOk(ws, s)
  {
    if NoOverlap(ws) {
      forall s ensures ScopeOk(ws, s) {
        GroupsPass(ws, s);
      }
    } else if forall s :: ScopeOk(ws, s) {
      PassedGroupsDoNotOverlap(ws);
    }
  }
}
