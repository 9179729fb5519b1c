/** The canonical form both sides hash: object members sorted by key at every depth. */
module CanonicalJson {
  datatype Json =
    | Null
    | Bool(b: bool)
    | Number(n: string)
    | Str(s: string)
    | Array(items: seq<Json>)
    | Object(members: seq<Member>)

  /** Objects keep their members in insertion order. */
  datatype Member = Member(key: string, value: Json)

  predicate DistinctKeys(ms: seq<Member>) {
    forall i, j :: 0 <= i < j < |ms| ==> ms[i].key != ms[j].key
  }

  /** No object, at any depth, holds a key twice: what a map type guarantees. */
  predicate WellFormed(j: Json) {
    match j
    case Array(xs) => forall x | x in xs :: WellFormed(x)
    case Object(ms) => DistinctKeys(ms) && forall m | m in ms :: WellFormed(m.value)
    case _ => true
  }

  // ---------------------------------------------------------------------------
  // The order on keys
  // ---------------------------------------------------------------------------

  predicate KeyLess(a: string, b: string) {
    if b == "" then false
    else if a == "" then true
    else a[0] < b[0] || (a[0] == b[0] && KeyLess(a[1..], b[1..]))
  }

  lemma {:induction false} KeyTrichotomy(a: string, b: string)
    ensures KeyLess(a, b) || a == b || KeyLess(b, a)
    ensures !(KeyLess(a, b) && KeyLess(b, a)) && !KeyLess(a, a)
  {
    if a != "" && b != "" {
      KeyTrichotomy(a[1..], b[1..]);
      assert a == [a[0]] + a[1..] && b == [b[0]] + b[1..];
    }
    if a != "" {
      KeyTrichotomy(a[1..], a[1..]);
    }
  }

  lemma {:induction false} KeyTransitive(a: string, b: string, c: string)
    requires KeyLess(a, b) && KeyLess(b, c)
    ensures KeyLess(a, c)
  {
    if a != "" && a[0] == b[0] == c[0] {
      KeyTransitive(a[1..], b[1..], c[1..]);
    }
  }

  // ---------------------------------------------------------------------------
  // Sorting
  // ---------------------------------------------------------------------------

  predicate Sorted(ms: seq<Member>) {
    forall i, j :: 0 <= i < j < |ms| ==> !KeyLess(ms[j].key, ms[i].key)
  }

  function Insert(m: Member, ms: seq<Member>): (r: seq<Member>)
    ensures multiset(r) == multiset{m} + multiset(ms)
  {
    if ms == [] then [m]
    else if KeyLess(ms[0].key, m.key) then
      assert ms == [ms[0]] + ms[1..];
      [ms[0]] + Insert(m, ms[1..])
    else [m] + ms
  }

  /** A stable sort by key. */
  function SortMembers(ms: seq<Member>): (r: seq<Member>)
    ensures multiset(r) == multiset(ms)
    ensures |r| == |ms| && forall m :: m in r <==> m in ms
  {
    if ms == [] then []
    else
      assert ms == [ms[0]] + ms[1..];
      var r := Insert(ms[0], SortMembers(ms[1..]));
      SameMembers(r, ms);
      r
  }

  lemma SameMembers(r: seq<Member>, ms: seq<Member>)
    requires multiset(r) == multiset(ms)
    ensures |r| == |ms| && forall m :: m in r <==> m in ms
  {
    assert |multiset(r)| == |multiset(ms)|;
    forall m ensures m in r <==> m in ms {
      assert m in r <==> m in multiset(r);
      assert m in ms <==> m in multiset(ms);
    }
  }

  lemma {:induction false} InsertSorted(m: Member, ms: seq<Member>)
    requires Sorted(ms)
    ensures Sorted(Insert(m, ms))
  {
    if ms != [] {
      var r := Insert(m, ms);
      if KeyLess(ms[0].key, m.key) {
        InsertSorted(m, ms[1..]);
        SameMembers(Insert(m, ms[1..]), [m] + ms[1..]);
        forall x | x in r[1..] ensures !KeyLess(x.key, r[0].key) {
          assert x == m || x in ms[1..];
          KeyTrichotomy(ms[0].key, m.key);
        }
        assert forall j :: 0 < j < |r| ==> r[j] in r[1..];
        assert forall i, j :: 0 < i < j < |r| ==> r[i] == r[1..][i - 1] && r[j] == r[1..][j - 1];
      } else {
        forall j | 0 < j < |r| ensures !KeyLess(r[j].key, m.key) {
          var x := ms[j - 1];
          if KeyLess(x.key, m.key) {
            KeyTrichotomy(x.key, ms[0].key);
            KeyTrichotomy(ms[0].key, m.key);
            if j > 1 {
              assert !KeyLess(x.key, ms[0].key);
              if KeyLess(ms[0].key, x.key) {
                KeyTransitive(ms[0].key, x.key, m.key);
              }
            }
          }
        }
      }
    }
  }

  lemma {:induction false} SortMembersSorted(ms: seq<Member>)
    ensures Sorted(SortMembers(ms))
  {
    if ms != [] {
      SortMembersSorted(ms[1..]);
      InsertSorted(ms[0], SortMembers(ms[1..]));
    }
  }

  /** Recursive key sorting; arrays keep their order, scalars are untouched. */
  function SortValue(j: Json): (r: Json) {
    match j
    case Object(ms) =>
      var sorted := SortMembers(ms);
      Object(seq(|sorted|, i requires 0 <= i < |sorted| => (assert sorted[i] in ms; Member(sorted[i].key, SortValue(sorted[i].value)))))
    case Array(xs) => Array(seq(|xs|, i requires 0 <= i < |xs| => SortValue(xs[i])))
    case _ => j
  }

  // ---------------------------------------------------------------------------
  // Equality up to reordering of members
  // ---------------------------------------------------------------------------

  predicate HasKey(ms: seq<Member>, k: string) {
    exists i :: 0 <= i < |ms| && ms[i].key == k
  }

  /** The same JSON value: object members may be listed in any order, at any depth. */
  ghost predicate Equivalent(a: Json, b: Json) {
    match (a, b)
    case (Array(xs), Array(ys)) =>
      |xs| == |ys| && forall i :: 0 <= i < |xs| ==> Equivalent(xs[i], ys[i])
    case (Object(ms), Object(ns)) =>
      && (forall m | m in ms :: exists n | n in ns :: m.key == n.key && Equivalent(m.value, n.value))
      && (forall n | n in ns :: HasKey(ms, n.key))
    case _ => a == b
  }

  function Keys(ms: seq<Member>): (ks: seq<string>)
    ensures |ks| == |ms| && forall i :: 0 <= i < |ms| ==> ks[i] == ms[i].key
  {
    seq(|ms|, i requires 0 <= i < |ms| => ms[i].key)
  }

  predicate StrictlySorted(ks: seq<string>) {
    forall i, j :: 0 <= i < j < |ks| ==> KeyLess(ks[i], ks[j])
  }

  lemma {:induction false} InsertDistinct(m: Member, ms: seq<Member>)
    requires DistinctKeys(ms) && !HasKey(ms, m.key)
    ensures DistinctKeys(Insert(m, ms))
  {
    if ms != [] && KeyLess(ms[0].key, m.key) {
      var rest := Insert(m, ms[1..]);
      assert !HasKey(ms[1..], m.key) by {
        assert forall i :: 0 <= i < |ms[1..]| ==> ms[1..][i] == ms[i + 1];
      }
      InsertDistinct(m, ms[1..]);
      SameMembers(rest, [m] + ms[1..]);
      forall j | 0 <= j < |rest| ensures rest[j].key != ms[0].key {
        assert rest[j] in rest;
        assert ms[0].key != m.key;
        if rest[j] != m {
          assert rest[j] in ms[1..];
        }
      }
    }
  }

  lemma {:induction false} SortMembersDistinct(ms: seq<Member>)
    requires DistinctKeys(ms)
    ensures DistinctKeys(SortMembers(ms))
  {
    if ms != [] {
      SortMembersDistinct(ms[1..]);
      var rest := SortMembers(ms[1..]);
      forall i | 0 <= i < |rest| ensures rest[i].key != ms[0].key {
        assert rest[i] in ms[1..];
      }
      InsertDistinct(ms[0], rest);
    }
  }

  lemma SortedKeysStrict(ms: seq<Member>)
    requires DistinctKeys(ms)
    ensures StrictlySorted(Keys(SortMembers(ms)))
  {
    SortMembersSorted(ms);
    SortMembersDistinct(ms);
    var r := SortMembers(ms);
    forall i, j | 0 <= i < j < |r| ensures KeyLess(r[i].key, r[j].key) {
      KeyTrichotomy(r[i].key, r[j].key);
    }
  }

  lemma SmallestFirst(a: seq<string>, b: seq<string>)
    requires StrictlySorted(a) && StrictlySorted(b)
    requires a != [] && b != [] && a[0] in b && b[0] in a
    ensures a[0] == b[0]
  {
    var i :| 0 <= i < |a| && a[i] == b[0];
    var j :| 0 <= j < |b| && b[j] == a[0];
    KeyTrichotomy(a[0], b[0]);
  }

  /** A set of keys has one strictly increasing listing. */
  lemma {:induction false} StrictlySortedUnique(a: seq<string>, b: seq<string>)
    requires StrictlySorted(a) && StrictlySorted(b)
    requires forall k :: k in a <==> k in b
    ensures a == b
  {
    assert b != [] ==> b[0] in b;
    if a == [] {
      assert forall k :: k !in a;
    } else {
      assert a[0] in a && a[0] in b;
      assert b[0] in b && b[0] in a;
      SmallestFirst(a, b);
      forall k ensures k in a[1..] <==> k in b[1..] {
        RestWithoutFirst(a, k);
        RestWithoutFirst(b, k);
      }
      StrictlySortedUnique(a[1..], b[1..]);
      assert a == [a[0]] + a[1..] && b == [b[0]] + b[1..];
    }
  }

  lemma RestWithoutFirst(a: seq<string>, k: string)
    requires a != [] && StrictlySorted(a)
    ensures k in a[1..] <==> k in a && k != a[0]
  {
    KeyTrichotomy(k, k);
    assert a == [a[0]] + a[1..];
    if k in a[1..] {
      var i :| 0 <= i < |a| - 1 && a[1..][i] == k;
      assert KeyLess(a[0], a[i + 1]);
    }
  }

  lemma SameSortedKeys(ms: seq<Member>, ns: seq<Member>)
    requires DistinctKeys(ms) && DistinctKeys(ns)
    requires forall m | m in ms :: HasKey(ns, m.key)
    requires forall n | n in ns :: HasKey(ms, n.key)
    ensures Keys(SortMembers(ms)) == Keys(SortMembers(ns))
  {
    SortedKeysStrict(ms);
    SortedKeysStrict(ns);
    forall k ensures k in Keys(SortMembers(ms)) <==> HasKey(ms, k) {
      SortedKeysSame(ms, k);
    }
    forall k ensures k in Keys(SortMembers(ns)) <==> HasKey(ns, k) {
      SortedKeysSame(ns, k);
    }
    forall k ensures HasKey(ms, k) <==> HasKey(ns, k) {
      if HasKey(ms, k) {
        var i :| 0 <= i < |ms| && ms[i].key == k;
        assert ms[i] in ms;
      }
      if HasKey(ns, k) {
        var i :| 0 <= i < |ns| && ns[i].key == k;
        assert ns[i] in ns;
      }
    }
    StrictlySortedUnique(Keys(SortMembers(ms)), Keys(SortMembers(ns)));
  }

  lemma SortedKeysSame(ms: seq<Member>, k: string)
    ensures k in Keys(SortMembers(ms)) <==> HasKey(ms, k)
  {
    var r := SortMembers(ms);
    if k in Keys(r) {
      var i :| 0 <= i < |r| && Keys(r)[i] == k;
      assert r[i] in ms;
    }
    if HasKey(ms, k) {
      var i :| 0 <= i < |ms| && ms[i].key == k;
      assert ms[i] in r;
      var p :| 0 <= p < |r| && r[p] == ms[i];
      assert Keys(r)[p] == k;
    }
  }

  // ---------------------------------------------------------------------------
  // Canonical form: equal results exactly for equivalent values
  // ---------------------------------------------------------------------------

  lemma {:induction false} EquivalentSortsEqual(a: Json, b: Json)
    requires WellFormed(a) && WellFormed(b) && Equivalent(a, b)
    ensures SortValue(a) == SortValue(b)
    decreases a, 1
  {
    match (a, b)
    case (Array(xs), Array(ys)) =>
      forall i | 0 <= i < |xs| ensures SortValue(xs[i]) == SortValue(ys[i]) {
        assert xs[i] in xs && ys[i] in ys;
        EquivalentSortsEqual(xs[i], ys[i]);
      }
    case (Object(ms), Object(ns)) =>
      ObjectsSortEqual(ms, ns);
    case _ =>
  }

  lemma {:induction false} ObjectsSortEqual(ms: seq<Member>, ns: seq<Member>)
    requires WellFormed(Object(ms)) && WellFormed(Object(ns)) && Equivalent(Object(ms), Object(ns))
    ensures SortValue(Object(ms)) == SortValue(Object(ns))
    decreases Object(ms), 0
  {
    var r, t := SortMembers(ms), SortMembers(ns);
    EquivalentKeys(ms, ns);
    SameSortedKeys(ms, ns);
    assert |r| == |Keys(r)| == |Keys(t)| == |t|;
    forall i | 0 <= i < |r| ensures r[i].key == t[i].key && SortValue(r[i].value) == SortValue(t[i].value) {
      assert r[i].key == Keys(r)[i] == Keys(t)[i] == t[i].key;
      MatchingMember(ms, ns, r[i], t[i]);
      EquivalentSortsEqual(r[i].value, t[i].value);
    }
    SameMembersSortEqual(ms, ns);
  }

  lemma SortedMembers(ms: seq<Member>)
    ensures var sorted := SortMembers(ms);
            && SortValue(Object(ms)).Object? && |SortValue(Object(ms)).members| == |sorted|
            && forall i :: 0 <= i < |sorted| ==>
                             SortValue(Object(ms)).members[i] == Member(sorted[i].key, SortValue(sorted[i].value))
  {
  }

  lemma SameMembersSortEqual(ms: seq<Member>, ns: seq<Member>)
    requires var r, t := SortMembers(ms), SortMembers(ns);
             |r| == |t| && forall i :: 0 <= i < |r| ==>
                                         r[i].key == t[i].key && SortValue(r[i].value) == SortValue(t[i].value)
    ensures SortValue(Object(ms)) == SortValue(Object(ns))
  {
    SortedMembers(ms);
    SortedMembers(ns);
    assert SortValue(Object(ms)).members == SortValue(Object(ns)).members;
  }

  lemma MatchingMember(ms: seq<Member>, ns: seq<Member>, m: Member, n: Member)
    requires DistinctKeys(ns) && Equivalent(Object(ms), Object(ns))
    requires m in SortMembers(ms) && n in SortMembers(ns) && m.key == n.key
    ensures m in ms && n in ns && Equivalent(m.value, n.value)
  {
    var x :| x in ns && m.key == x.key && Equivalent(m.value, x.value);
    OneMemberPerKey(ns, x, n);
  }

  lemma EquivalentKeys(ms: seq<Member>, ns: seq<Member>)
    requires Equivalent(Object(ms), Object(ns))
    ensures forall m | m in ms :: HasKey(ns, m.key)
  {
    forall m | m in ms ensures HasKey(ns, m.key) {
      var n :| n in ns && m.key == n.key && Equivalent(m.value, n.value);
      var j :| 0 <= j < |ns| && ns[j] == n;
    }
  }

  lemma OneMemberPerKey(ms: seq<Member>, x: Member, y: Member)
    requires DistinctKeys(ms) && x in ms && y in ms && x.key == y.key
    ensures x == y
  {
    var i :| 0 <= i < |ms| && ms[i] == x;
    var j :| 0 <= j < |ms| && ms[j] == y;
  }

  lemma {:induction false} SortsEqualEquivalent(a: Json, b: Json)
    requires SortValue(a) == SortValue(b)
    ensures Equivalent(a, b)
    decreases a
  {
    match (a, b)
    case (Array(xs), Array(ys)) =>
      var sx, sy := SortValue(a).items, SortValue(b).items;
      assert |xs| == |sx| == |sy| == |ys|;
      forall i | 0 <= i < |xs| ensures Equivalent(xs[i], ys[i]) {
        assert sx[i] == SortValue(xs[i]) && sy[i] == SortValue(ys[i]);
        SortsEqualEquivalent(xs[i], ys[i]);
      }
    case (Object(ms), Object(ns)) =>
      forall m | m in ms ensures exists n | n in ns :: m.key == n.key && Equivalent(m.value, n.value) {
        var n := Counterpart(ms, ns, m);
        SortsEqualEquivalent(m.value, n.value);
      }
      forall n | n in ns ensures HasKey(ms, n.key) {
        var m := Counterpart(ns, ms, n);
        var i :| 0 <= i < |ms| && ms[i] == m;
      }
    case _ =>
  }

  /** The member of the other object that stands at the same place after sorting. */
  lemma Counterpart(ms: seq<Member>, ns: seq<Member>, m: Member) returns (n: Member)
    requires SortValue(Object(ms)) == SortValue(Object(ns)) && m in ms
    ensures n in ns && m.key == n.key && SortValue(m.value) == SortValue(n.value)
  {
    var r, t := SortMembers(ms), SortMembers(ns);
    var sr, st := SortValue(Object(ms)).members, SortValue(Object(ns)).members;
    assert |r| == |sr| == |st| == |t|;
    assert m in r;
    var p :| 0 <= p < |r| && r[p] == m;
    n := t[p];
    assert sr[p] == Member(m.key, SortValue(m.value)) && st[p] == Member(n.key, SortValue(n.value));
    assert n in t;
  }

  /** Two values have the same canonical form exactly when they differ only in member order. */
  lemma CanonicalExactly(a: Json, b: Json)
    requires WellFormed(a) && WellFormed(b)
    ensures SortValue(a) == SortValue(b) <==> Equivalent(a, b)
  {
    if SortValue(a) == SortValue(b) {
      SortsEqualEquivalent(a, b);
    }
    if Equivalent(a, b) {
      EquivalentSortsEqual(a, b);
    }
  }

  lemma {:induction false} SortValueWellFormed(j: Json)
    requires WellFormed(j)
    ensures WellFormed(SortValue(j))
  {
    match j
    case Array(xs) =>
      forall y | y in SortValue(j).items ensures WellFormed(y) {
        var i :| 0 <= i < |xs| && y == SortValue(xs[i]);
        assert xs[i] in xs;
        SortValueWellFormed(xs[i]);
      }
    case Object(ms) =>
      var r := SortMembers(ms);
      SortMembersDistinct(ms);
      forall y | y in SortValue(j).members ensures WellFormed(y.value) {
        var i :| 0 <= i < |r| && y == Member(r[i].key, SortValue(r[i].value));
        assert r[i] in ms;
        SortValueWellFormed(r[i].value);
      }
    case _ =>
  }

  lemma {:induction false} EquivalentToCanonical(j: Json)
    requires WellFormed(j)
    ensures Equivalent(j, SortValue(j))
  {
    match j
    case Array(xs) =>
      forall i | 0 <= i < |xs| ensures Equivalent(xs[i], SortValue(xs[i])) {
        assert xs[i] in xs;
        EquivalentToCanonical(xs[i]);
      }
    case Object(ms) =>
      var r, st := SortMembers(ms), SortValue(j).members;
      forall m | m in ms ensures exists n | n in st :: m.key == n.key && Equivalent(m.value, n.value) {
        assert m in r;
        var p :| 0 <= p < |r| && r[p] == m;
        assert st[p] == Member(m.key, SortValue(m.value)) && st[p] in st;
        EquivalentToCanonical(m.value);
      }
      forall n | n in st ensures HasKey(ms, n.key) {
        var p :| 0 <= p < |st| && st[p] == n;
        assert r[p] in ms;
        var i :| 0 <= i < |ms| && ms[i] == r[p];
      }
    case _ =>
  }

  /** Canonicalizing keeps the value and a second pass changes nothing. */
  lemma CanonicalIdempotent(j: Json)
    requires WellFormed(j)
    ensures Equivalent(j, SortValue(j)) && WellFormed(SortValue(j))
    ensures SortValue(SortValue(j)) == SortValue(j)
  {
    EquivalentToCanonical(j);
    SortValueWellFormed(j);
    EquivalentSortsEqual(j, SortValue(j));
  }
}
