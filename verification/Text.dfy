/** Searching and trimming of text, as the standard string methods do it. */
module Text {
  import opened Wrappers

  predicate OccursAt(s: string, sub: string, i: nat) {
    i + |sub| <= |s| && s[i..i + |sub|] == sub
  }

  function Find(s: string, sub: string): (r: Option<nat>)
    ensures r.Some? ==> r.value + |sub| <= |s|
  {
    if |s| < |sub| then None
    else if s[..|sub|] == sub then Some(0)
    else
      var r := Find(s[1..], sub);
      if r.Some? then Some(r.value + 1) else None
  }

  /** The first place, if there is one. */
  ghost predicate First(s: string, sub: string, r: Option<nat>) {
    match r
    case Some(i) => OccursAt(s, sub, i) && forall j :: 0 <= j < i ==> !OccursAt(s, sub, j)
    case None => forall j: nat :: !OccursAt(s, sub, j)
  }

  lemma OccursLater(s: string, sub: string, j: nat)
    requires s != ""
    ensures OccursAt(s, sub, j + 1) <==> OccursAt(s[1..], sub, j)
  {
    if j + 1 + |sub| <= |s| {
      assert s[j + 1..j + 1 + |sub|] == s[1..][j..j + |sub|];
    }
  }

  lemma {:induction false} FindsFirst(s: string, sub: string)
    ensures First(s, sub, Find(s, sub))
  {
    if |s| >= |sub| && s[..|sub|] != sub {
      FindsFirst(s[1..], sub);
      assert !OccursAt(s, sub, 0);
      forall j: nat | j > 0 ensures OccursAt(s, sub, j) <==> OccursAt(s[1..], sub, j - 1) {
        OccursLater(s, sub, j - 1);
      }
    }
  }

  predicate Contains(s: string, sub: string) {
    Find(s, sub).Some?
  }

  lemma FindFirst(s: string, sub: string, i: nat)
    requires OccursAt(s, sub, i) && forall j :: 0 <= j < i ==> !OccursAt(s, sub, j)
    ensures Find(s, sub) == Some(i)
  {
    FindsFirst(s, sub);
  }

  /** The characters with the Unicode White_Space property. */
  predicate IsWhite(c: char) {
    || '\U{9}' <= c <= '\U{D}' || c == ' ' || c == '\U{85}' || c == '\U{A0}' || c == '\U{1680}'
    || '\U{2000}' <= c <= '\U{200A}' || c == '\U{2028}' || c == '\U{2029}' || c == '\U{202F}' || c == '\U{205F}' || c == '\U{3000}'
  }

  function TrimStart(s: string): string {
    if s != "" && IsWhite(s[0]) then TrimStart(s[1..]) else s
  }

  function TrimEnd(s: string): string {
    if s != "" && IsWhite(s[|s| - 1]) then TrimEnd(s[..|s| - 1]) else s
  }

  function Trim(s: string): string {
    TrimEnd(TrimStart(s))
  }

  predicate Trimmed(s: string) {
    s == "" || (!IsWhite(s[0]) && !IsWhite(s[|s| - 1]))
  }

  predicate AllWhite(s: string) {
    forall i :: 0 <= i < |s| ==> IsWhite(s[i])
  }

  lemma {:induction false} TrimEndPadded(s: string, w: string)
    requires Trimmed(s) && AllWhite(w)
    ensures TrimEnd(s + w) == s
  {
    if w == "" {
      assert s + w == s;
    } else {
      assert (s + w)[..|s| + |w| - 1] == s + w[..|w| - 1];
      TrimEndPadded(s, w[..|w| - 1]);
    }
  }

  lemma {:induction false} TrimStartWhite(w: string)
    requires AllWhite(w)
    ensures TrimStart(w) == ""
  {
    if w != "" {
      TrimStartWhite(w[1..]);
    }
  }

  lemma TrimPadded(s: string, w: string)
    requires Trimmed(s) && AllWhite(w)
    ensures Trim(s + w) == s
  {
    if s == "" {
      assert s + w == w;
      TrimStartWhite(w);
    } else {
      assert (s + w)[0] == s[0];
      TrimEndPadded(s, w);
    }
  }

  lemma {:induction false} TrimStartPart(s: string) returns (k: nat)
    ensures k <= |s| && TrimStart(s) == s[k..] && (TrimStart(s) != "" ==> !IsWhite(TrimStart(s)[0])) && AllWhite(s[..k])
  {
    if s != "" && IsWhite(s[0]) {
      k := TrimStartPart(s[1..]);
      assert s[..k + 1] == [s[0]] + s[1..][..k];
      k := k + 1;
    } else {
      k := 0;
    }
  }

  lemma {:induction false} TrimEndPart(s: string) returns (k: nat)
    ensures k <= |s| && TrimEnd(s) == s[..k] && (TrimEnd(s) != "" ==> !IsWhite(TrimEnd(s)[|TrimEnd(s)| - 1]))
    ensures AllWhite(s[k..])
  {
    if s != "" && IsWhite(s[|s| - 1]) {
      k := TrimEndPart(s[..|s| - 1]);
      assert s[k..] == s[..|s| - 1][k..] + [s[|s| - 1]];
    } else {
      k := |s|;
    }
  }

  /** Trimming takes a middle part, and one without white space at its ends. */
  lemma TrimPart(s: string) returns (i: nat, j: nat)
    ensures i <= j <= |s| && Trim(s) == s[i..j] && Trimmed(Trim(s)) && AllWhite(s[..i]) && AllWhite(s[j..])
  {
    i := TrimStartPart(s);
    var k := TrimEndPart(s[i..]);
    j := i + k;
    assert s[i..][..k] == s[i..j] && s[i..][k..] == s[j..];
  }

  /** `s[i..j]` is `s` without the white space at its ends. */
  predicate TrimsAt(s: string, i: nat, j: nat) {
    i <= j <= |s| && AllWhite(s[..i]) && AllWhite(s[j..]) && Trimmed(s[i..j])
  }

  ghost predicate TrimsTo(s: string, t: string) {
    exists i: nat, j: nat :: TrimsAt(s, i, j) && t == s[i..j]
  }

  lemma {:induction false} TrimStartPadded(w: string, s: string)
    requires AllWhite(w)
    ensures TrimStart(w + s) == TrimStart(s)
  {
    if w == "" {
      assert w + s == s;
    } else {
      assert (w + s)[1..] == w[1..] + s;
      TrimStartPadded(w[1..], s);
    }
  }

  lemma TrimAt(s: string, i: nat, j: nat)
    requires TrimsAt(s, i, j)
    ensures Trim(s) == s[i..j]
  {
    var t, after := s[i..j], s[j..];
    assert s == s[..i] + (t + after);
    TrimStartPadded(s[..i], t + after);
    TrimPadded(t, after);
  }

  lemma TrimExactly(s: string, t: string)
    ensures TrimsTo(s, t) <==> t == Trim(s)
  {
    if TrimsTo(s, t) {
      var i: nat, j: nat :| TrimsAt(s, i, j) && t == s[i..j];
      TrimAt(s, i, j);
    } else {
      var i, j := TrimPart(s);
      assert TrimsAt(s, i, j);
    }
  }
}
