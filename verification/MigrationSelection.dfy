/** Which entries of a migration detail a run is for: the unrecorded ones in order going up, the recorded ones last first
    going down, and no more than the limit. */
module MigrationSelection {
  import opened Wrappers

  datatype Entry = Entry(version: string, sql: string, transactional: bool)

  datatype Detail = Detail(direction: string, migrations: seq<Entry>, maxCount: Option<nat>)

  function Pending(es: seq<Entry>, already: set<string>): (p: seq<Entry>)
    ensures forall e | e in p :: e in es && e.version !in already
  {
    if es == [] then []
    else if es[0].version in already then Pending(es[1..], already)
    else [es[0]] + Pending(es[1..], already)
  }

  function Recorded(es: seq<Entry>, already: set<string>): (p: seq<Entry>)
    ensures forall e | e in p :: e in es && e.version in already
  {
    if es == [] then []
    else if es[0].version in already then [es[0]] + Recorded(es[1..], already)
    else Recorded(es[1..], already)
  }

  function Reverse<T>(s: seq<T>): (r: seq<T>)
    ensures |r| == |s| && forall i :: 0 <= i < |s| ==> r[i] == s[|s| - 1 - i]
  {
    if s == [] then [] else Reverse(s[1..]) + [s[0]]
  }

  function Take<T>(s: seq<T>, max: Option<nat>): (t: seq<T>) {
    if max.Some? && max.value < |s| then s[..max.value] else s
  }

  function ToApply(d: Detail, already: set<string>): seq<Entry> {
    Take(Pending(d.migrations, already), d.maxCount)
  }

  function ToRevert(d: Detail, already: set<string>): seq<Entry> {
    Take(Recorded(Reverse(d.migrations), already), d.maxCount)
  }

  // ---------------------------------------------------------------------------
  // What is selected, said by places in the detail
  // ---------------------------------------------------------------------------

  function Places(es: seq<Entry>, already: set<string>, recorded: bool): set<nat> {
    set p: nat | p < |es| && (es[p].version in already) == recorded
  }

  function AtPlaces(es: seq<Entry>, at: seq<nat>): (r: seq<Entry>)
    requires forall i :: 0 <= i < |at| ==> at[i] < |es|
    ensures |r| == |at| && forall i :: 0 <= i < |at| ==> r[i] == es[at[i]]
  {
    seq(|at|, i requires 0 <= i < |at| => es[at[i]])
  }

  /** As many of the places as there are, and no more than the limit. */
  predicate Enough(at: seq<nat>, places: set<nat>, max: Option<nat>) {
    && (forall i :: 0 <= i < |at| ==> at[i] in places)
    && |at| == if max.Some? && max.value < |places| then max.value else |places|
  }

  /** `at` are the first places with an unrecorded version, in order. */
  predicate FirstUnrecorded(d: Detail, already: set<string>, at: seq<nat>) {
    var places := Places(d.migrations, already, false);
    && Enough(at, places, d.maxCount)
    && (forall i, j :: 0 <= i < j < |at| ==> at[i] < at[j])
    && (forall p, i | p in places && p !in at && 0 <= i < |at| :: at[i] < p)
  }

  /** `at` are the last places with a recorded version, the last first. */
  predicate LastRecorded(d: Detail, already: set<string>, at: seq<nat>) {
    var places := Places(d.migrations, already, true);
    && Enough(at, places, d.maxCount)
    && (forall i, j :: 0 <= i < j < |at| ==> at[i] > at[j])
    && (forall p, i | p in places && p !in at && 0 <= i < |at| :: at[i] > p)
  }

  ghost predicate AppliesFirst(d: Detail, already: set<string>, todo: seq<Entry>) {
    exists at :: FirstUnrecorded(d, already, at) && todo == AtPlaces(d.migrations, at)
  }

  ghost predicate RevertsLast(d: Detail, already: set<string>, todo: seq<Entry>) {
    exists at :: LastRecorded(d, already, at) && todo == AtPlaces(d.migrations, at)
  }

  // ---------------------------------------------------------------------------
  // The filters, reversed and cut off, are that selection
  // ---------------------------------------------------------------------------

  function Listed(es: seq<Entry>, already: set<string>, recorded: bool): seq<nat> {
    if es == [] then []
    else
      var n := |es| - 1;
      Listed(es[..n], already, recorded) + if (es[n].version in already) == recorded then [n] else []
  }

  predicate Increasing(at: seq<nat>) {
    forall i, j :: 0 <= i < j < |at| ==> at[i] < at[j]
  }

  predicate Enumerates(at: seq<nat>, places: set<nat>) {
    (forall p :: p in places ==> p in at) && (forall i :: 0 <= i < |at| ==> at[i] in places) && |at| == |places|
  }

  lemma EnumeratesMore(at: seq<nat>, places: set<nat>, n: nat)
    requires Enumerates(at, places) && Increasing(at) && forall p | p in places :: p < n
    ensures Enumerates(at + [n], places + {n}) && Increasing(at + [n])
  {
    var more := at + [n];
    assert forall i :: 0 <= i < |at| ==> more[i] == at[i] && at[i] in places;
    assert more[|at|] == n;
    assert n !in places;
    forall p | p in places + {n} ensures p in more {
      if p == n {
        assert more[|at|] == p;
      } else {
        var i :| 0 <= i < |at| && at[i] == p;
        assert more[i] == p;
      }
    }
  }

  lemma PlacesMore(es: seq<Entry>, already: set<string>, recorded: bool, n: nat)
    requires |es| == n + 1
    ensures forall p | p in Places(es[..n], already, recorded) :: p < n
    ensures Places(es, already, recorded)
         == Places(es[..n], already, recorded) + if (es[n].version in already) == recorded then {n} else {}
  {
  }

  lemma {:induction false} ListedAre(es: seq<Entry>, already: set<string>, recorded: bool)
    ensures Enumerates(Listed(es, already, recorded), Places(es, already, recorded))
    ensures Increasing(Listed(es, already, recorded))
  {
    if es != [] {
      var n := |es| - 1;
      ListedAre(es[..n], already, recorded);
      PlacesMore(es, already, recorded, n);
      var at, fewer := Listed(es[..n], already, recorded), Places(es[..n], already, recorded);
      if (es[n].version in already) == recorded {
        EnumeratesMore(at, fewer, n);
      } else {
        assert at + [] == at && fewer + {} == fewer;
      }
    }
  }

  lemma {:induction false} PendingAppend(es: seq<Entry>, e: Entry, already: set<string>)
    ensures Pending(es + [e], already) == Pending(es, already) + if e.version in already then [] else [e]
  {
    if es != [] {
      assert (es + [e])[1..] == es[1..] + [e];
      PendingAppend(es[1..], e, already);
    }
  }

  lemma {:induction false} RecordedAppend(es: seq<Entry>, e: Entry, already: set<string>)
    ensures Recorded(es + [e], already) == Recorded(es, already) + if e.version in already then [e] else []
  {
    if es != [] {
      assert (es + [e])[1..] == es[1..] + [e];
      RecordedAppend(es[1..], e, already);
    }
  }

  lemma AtPlacesMore(es: seq<Entry>, n: nat, at: seq<nat>)
    requires |es| == n + 1 && forall i :: 0 <= i < |at| ==> at[i] < n
    ensures AtPlaces(es, at) == AtPlaces(es[..n], at) && AtPlaces(es, at + [n]) == AtPlaces(es[..n], at) + [es[n]]
  {
  }

  function Filtered(es: seq<Entry>, already: set<string>, recorded: bool): seq<Entry> {
    if recorded then Recorded(es, already) else Pending(es, already)
  }

  lemma FilteredMore(es: seq<Entry>, already: set<string>, recorded: bool, n: nat)
    requires |es| == n + 1
    ensures Filtered(es, already, recorded)
         == Filtered(es[..n], already, recorded) + if (es[n].version in already) == recorded then [es[n]] else []
  {
    assert es == es[..n] + [es[n]];
    PendingAppend(es[..n], es[n], already);
    RecordedAppend(es[..n], es[n], already);
  }

  lemma {:induction false} FilterIsListed(es: seq<Entry>, already: set<string>, recorded: bool)
    ensures var at := Listed(es, already, recorded);
            (forall i :: 0 <= i < |at| ==> at[i] < |es|) && AtPlaces(es, at) == Filtered(es, already, recorded)
  {
    if es != [] {
      var n := |es| - 1;
      FilterIsListed(es[..n], already, recorded);
      FilteredMore(es, already, recorded, n);
      var at := Listed(es[..n], already, recorded);
      AtPlacesMore(es, n, at);
      assert at + [] == at && Filtered(es[..n], already, recorded) + [] == Filtered(es[..n], already, recorded);
    }
  }

  lemma {:induction false} RecordedReversed(es: seq<Entry>, already: set<string>)
    ensures Recorded(Reverse(es), already) == Reverse(Recorded(es, already))
  {
    if es != [] {
      RecordedReversed(es[1..], already);
      RecordedAppend(Reverse(es[1..]), es[0], already);
      if es[0].version in already {
        var tail := Recorded(es[1..], already);
        assert ([es[0]] + tail)[1..] == tail;
      }
    }
  }

  /** The front of an enumeration in order: what it leaves out stands behind it. */
  lemma FrontIsFirst(all: seq<nat>, places: set<nat>, n: nat)
    requires Enumerates(all, places) && Increasing(all) && n <= |all|
    ensures var at := all[..n];
            && Increasing(at) && (forall i :: 0 <= i < n ==> at[i] in places)
            && (forall p, i | p in places && p !in at && 0 <= i < n :: at[i] < p)
  {
    var at := all[..n];
    assert forall j :: 0 <= j < n ==> all[j] == at[j] && at[j] in at;
    forall p, i | p in places && p !in at && 0 <= i < n ensures at[i] < p {
      var j :| 0 <= j < |all| && all[j] == p;
    }
  }

  /** The front of the reversed enumeration: what it leaves out stands before it. */
  lemma FrontIsLast(all: seq<nat>, back: seq<nat>, places: set<nat>, n: nat)
    requires Enumerates(all, places) && Increasing(all) && n <= |all|
    requires |back| == |all| && forall i :: 0 <= i < |all| ==> back[i] == all[|all| - 1 - i]
    ensures var at := back[..n];
            && (forall i, j :: 0 <= i < j < n ==> at[i] > at[j]) && (forall i :: 0 <= i < n ==> at[i] in places)
            && (forall p, i | p in places && p !in at && 0 <= i < n :: at[i] > p)
  {
    var at := back[..n];
    forall p, i | p in places && p !in at && 0 <= i < n ensures at[i] > p {
      var j :| 0 <= j < |all| && all[j] == p;
      NotInFront(all, back, n, j);
    }
  }

  lemma NotInFront(all: seq<nat>, back: seq<nat>, n: nat, j: nat)
    requires |back| == |all| && n <= |all| && j < |all| && all[j] !in back[..n]
    requires forall i :: 0 <= i < |all| ==> back[i] == all[|all| - 1 - i]
    ensures j < |all| - n
  {
    assert forall i :: 0 <= i < n ==> back[..n][i] == back[i] && back[i] in back[..n];
    assert back[|all| - 1 - j] == all[j];
  }

  lemma TakeIs<T>(s: seq<T>, max: Option<nat>)
    ensures Take(s, max) == s[..if max.Some? && max.value < |s| then max.value else |s|]
  {
  }

  /** The up run's list is the first unrecorded entries, in order, as many as the limit lets through. */
  lemma ToApplyIsFirst(d: Detail, already: set<string>)
    ensures AppliesFirst(d, already, ToApply(d, already))
  {
    var all, places := Listed(d.migrations, already, false), Places(d.migrations, already, false);
    ListedAre(d.migrations, already, false);
    FilterIsListed(d.migrations, already, false);
    TakeIs(Pending(d.migrations, already), d.maxCount);
    var n := |ToApply(d, already)|;
    FrontIsFirst(all, places, n);
    assert FirstUnrecorded(d, already, all[..n]);
    assert ToApply(d, already) == AtPlaces(d.migrations, all[..n]);
  }

  lemma BackIsLast(d: Detail, already: set<string>, all: seq<nat>, n: nat)
    requires Enumerates(all, Places(d.migrations, already, true)) && Increasing(all)
    requires n == if d.maxCount.Some? && d.maxCount.value < |all| then d.maxCount.value else |all|
    ensures LastRecorded(d, already, Reverse(all)[..n])
  {
    FrontIsLast(all, Reverse(all), Places(d.migrations, already, true), n);
  }

  lemma BackIsTaken(d: Detail, already: set<string>, all: seq<nat>, n: nat)
    requires forall i :: 0 <= i < |all| ==> all[i] < |d.migrations|
    requires AtPlaces(d.migrations, all) == Recorded(d.migrations, already)
    requires n == if d.maxCount.Some? && d.maxCount.value < |all| then d.maxCount.value else |all|
    ensures (forall i :: 0 <= i < n ==> Reverse(all)[..n][i] < |d.migrations|)
            && ToRevert(d, already) == AtPlaces(d.migrations, Reverse(all)[..n])
  {
    RecordedReversed(d.migrations, already);
    TakeIs(Reverse(Recorded(d.migrations, already)), d.maxCount);
    AtReversed(d.migrations, all, Reverse(all), n);
  }

  /** The down run's list is the last recorded entries, the last first, as many as the limit lets through. */
  lemma ToRevertIsLast(d: Detail, already: set<string>)
    ensures RevertsLast(d, already, ToRevert(d, already))
  {
    var all := Listed(d.migrations, already, true);
    ListedAre(d.migrations, already, true);
    FilterIsListed(d.migrations, already, true);
    var n := if d.maxCount.Some? && d.maxCount.value < |all| then d.maxCount.value else |all|;
    BackIsLast(d, already, all, n);
    BackIsTaken(d, already, all, n);
  }

  lemma AtReversed(es: seq<Entry>, all: seq<nat>, back: seq<nat>, n: nat)
    requires n <= |all| == |back| && (forall i :: 0 <= i < |all| ==> all[i] < |es|)
    requires forall i :: 0 <= i < |all| ==> back[i] == all[|all| - 1 - i]
    ensures Reverse(AtPlaces(es, all))[..n] == AtPlaces(es, back[..n])
  {
  }

  // ---------------------------------------------------------------------------
  // There is one such selection
  // ---------------------------------------------------------------------------

  /** Equal up to `i`, what one list has there the other one lacks if it has it no earlier and goes on past it. */
  lemma Lacks(at: seq<nat>, bt: seq<nat>, i: nat, up: bool)
    requires i < |at| == |bt| && forall k :: 0 <= k < i ==> at[k] == bt[k]
    requires forall k, l :: 0 <= k < l < |at| ==> if up then at[k] < at[l] && bt[k] < bt[l] else at[k] > at[l] && bt[k] > bt[l]
    requires if up then at[i] < bt[i] else at[i] > bt[i]
    ensures at[i] !in bt
  {
    assert forall k :: i < k < |bt| ==> if up then bt[i] < bt[k] else bt[i] > bt[k];
  }

  lemma {:induction false} FirstAgree(d: Detail, already: set<string>, at: seq<nat>, bt: seq<nat>, n: nat)
    requires FirstUnrecorded(d, already, at) && FirstUnrecorded(d, already, bt) && n <= |at|
    ensures |at| == |bt| && forall k :: 0 <= k < n ==> at[k] == bt[k]
  {
    if n > 0 {
      var i := n - 1;
      FirstAgree(d, already, at, bt, i);
      if at[i] < bt[i] {
        Lacks(at, bt, i, true);
      } else if bt[i] < at[i] {
        Lacks(bt, at, i, true);
      }
    }
  }

  lemma {:induction false} LastAgree(d: Detail, already: set<string>, at: seq<nat>, bt: seq<nat>, n: nat)
    requires LastRecorded(d, already, at) && LastRecorded(d, already, bt) && n <= |at|
    ensures |at| == |bt| && forall k :: 0 <= k < n ==> at[k] == bt[k]
  {
    if n > 0 {
      var i := n - 1;
      LastAgree(d, already, at, bt, i);
      if at[i] > bt[i] {
        Lacks(at, bt, i, false);
      } else if bt[i] > at[i] {
        Lacks(bt, at, i, false);
      }
    }
  }

  /** No other list is the selection of the up run, or of the down run. */
  lemma SelectionUnique(d: Detail, already: set<string>, todo: seq<Entry>)
    ensures AppliesFirst(d, already, todo) <==> todo == ToApply(d, already)
    ensures RevertsLast(d, already, todo) <==> todo == ToRevert(d, already)
  {
    ToApplyIsFirst(d, already);
    ToRevertIsLast(d, already);
    if AppliesFirst(d, already, todo) {
      var at :| FirstUnrecorded(d, already, at) && todo == AtPlaces(d.migrations, at);
      var bt :| FirstUnrecorded(d, already, bt) && ToApply(d, already) == AtPlaces(d.migrations, bt);
      FirstAgree(d, already, at, bt, |at|);
    }
    if RevertsLast(d, already, todo) {
      var at :| LastRecorded(d, already, at) && todo == AtPlaces(d.migrations, at);
      var bt :| LastRecorded(d, already, bt) && ToRevert(d, already) == AtPlaces(d.migrations, bt);
      LastAgree(d, already, at, bt, |at|);
    }
  }
}
