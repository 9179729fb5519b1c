/** What array text may have around it: the white space that is cut off, and the explicit bounds that are refused. */
module PgArrayEdges {
  import opened PgArray
  import opened Wrappers

  function Join(cs: seq<seq<Byte>>): seq<Byte> {
    if cs == [] then [] else cs[0] + Join(cs[1..])
  }

  predicate AllSpaces(cs: seq<seq<Byte>>) {
    forall i | 0 <= i < |cs| :: IsSpace(cs[i])
  }

  /** A string of white-space characters. */
  ghost predicate Spaces(s: seq<Byte>) {
    exists cs :: AllSpaces(cs) && Join(cs) == s
  }

  /** No white-space character at either end. */
  predicate Bounded(t: seq<Byte>) {
    forall n | 0 <= n <= |t| :: !IsSpace(t[..n]) && !IsSpace(t[n..])
  }

  /** `t` is what is left of `s` without the white-space characters at its ends. */
  ghost predicate TrimsTo(s: seq<Byte>, t: seq<Byte>) {
    Bounded(t) && exists a, b :: Spaces(a) && Spaces(b) && Around(s, a, t, b)
  }

  predicate Around(s: seq<Byte>, a: seq<Byte>, t: seq<Byte>, b: seq<Byte>) {
    s == a + (t + b)
  }

  lemma {:induction false} JoinLast(cs: seq<seq<Byte>>, c: seq<Byte>)
    ensures Join(cs + [c]) == Join(cs) + c
  {
    if cs == [] {
      assert cs + [c] == [c] && [c][1..] == [];
    } else {
      JoinLast(cs[1..], c);
      assert (cs + [c])[1..] == cs[1..] + [c];
    }
  }

  // ---------------------------------------------------------------------------
  // One character
  // ---------------------------------------------------------------------------

  lemma SpaceFront(s: seq<Byte>, n: nat)
    requires n <= |s| && IsSpace(s[..n])
    ensures LeadingSpace(s) == n
  {
  }

  lemma OneByteBehind(s: seq<Byte>, a: Byte)
    requires IsSpace([a])
    ensures TrailingSpace(s + [a]) == 1
  {
    assert (s + [a])[|s|..] == [a];
  }

  lemma TwoBytesBehind(s: seq<Byte>, a: Byte, b: Byte)
    requires IsSpace([a, b]) && !IsSpace([b])
    ensures TrailingSpace(s + [a, b]) == 2
  {
    assert (s + [a, b])[|s| + 1..] == [b];
    assert (s + [a, b])[|s|..] == [a, b];
  }

  lemma ThreeBytesBehind(s: seq<Byte>, a: Byte, b: Byte, c: Byte)
    requires IsSpace([a, b, c]) && !IsSpace([b, c]) && !IsSpace([c])
    ensures TrailingSpace(s + [a, b, c]) == 3
  {
    assert (s + [a, b, c])[|s| + 2..] == [c];
    assert (s + [a, b, c])[|s| + 1..] == [b, c];
    assert (s + [a, b, c])[|s|..] == [a, b, c];
  }

  /** A shorter end of a white-space character is not one. */
  lemma NotAlone(c: seq<Byte>)
    requires IsSpace(c)
    ensures |c| >= 2 ==> !IsSpace([c[|c| - 1]])
    ensures |c| == 3 ==> !IsSpace([c[1], c[2]])
  {
  }

  lemma SpaceBack(s: seq<Byte>, c: seq<Byte>)
    requires IsSpace(c)
    ensures TrailingSpace(s + c) == |c|
  {
    NotAlone(c);
    if |c| == 1 {
      assert c == [c[0]];
      OneByteBehind(s, c[0]);
    } else if |c| == 2 {
      assert c == [c[0], c[1]];
      TwoBytesBehind(s, c[0], c[1]);
    } else {
      assert c == [c[0], c[1], c[2]];
      ThreeBytesBehind(s, c[0], c[1], c[2]);
    }
  }

  lemma LeadingExactly(s: seq<Byte>)
    ensures LeadingSpace(s) > 0 ==> IsSpace(s[..LeadingSpace(s)])
    ensures LeadingSpace(s) == 0 <==> forall n | 0 <= n <= |s| :: !IsSpace(s[..n])
  {
    if LeadingSpace(s) == 0 {
      forall n | 0 <= n <= |s| ensures !IsSpace(s[..n]) {
        assert 1 <= n <= 3 ==> !IsSpace(s[..n]);
      }
    }
  }

  lemma TrailingExactly(s: seq<Byte>)
    ensures TrailingSpace(s) > 0 ==> IsSpace(s[|s| - TrailingSpace(s)..])
    ensures TrailingSpace(s) == 0 <==> forall n | 0 <= n <= |s| :: !IsSpace(s[n..])
  {
    if TrailingSpace(s) == 0 {
      forall n | 0 <= n <= |s| ensures !IsSpace(s[n..]) {
        assert n == |s| - 1 || n == |s| - 2 || n == |s| - 3 ==> !IsSpace(s[n..]);
      }
    }
  }

  lemma CutFront(c: seq<Byte>, s: seq<Byte>)
    requires IsSpace(c)
    ensures TrimStart(c + s) == TrimStart(s)
  {
    assert (c + s)[..|c|] == c && (c + s)[|c|..] == s;
    SpaceFront(c + s, |c|);
  }

  lemma CutBack(s: seq<Byte>, c: seq<Byte>)
    requires IsSpace(c)
    ensures TrimEnd(s + c) == TrimEnd(s)
  {
    assert (s + c)[|s|..] == c && (s + c)[..|s|] == s;
    SpaceBack(s, c);
  }

  /** A white-space character does not start with a continuation byte, and goes on with nothing else. */
  lemma Continues(c: seq<Byte>, k: nat)
    requires IsSpace(c) && k < |c|
    ensures k > 0 <==> 0x80 <= c[k] < 0xC0
    ensures c[k] != BRACKET
  {
  }

  // ---------------------------------------------------------------------------
  // Trimming, from both sides
  // ---------------------------------------------------------------------------

  lemma {:induction false} StartPadded(cs: seq<seq<Byte>>, s: seq<Byte>)
    requires AllSpaces(cs)
    ensures TrimStart(Join(cs) + s) == TrimStart(s)
  {
    if cs == [] {
      assert Join(cs) + s == s;
    } else {
      assert Join(cs) + s == cs[0] + (Join(cs[1..]) + s);
      CutFront(cs[0], Join(cs[1..]) + s);
      StartPadded(cs[1..], s);
    }
  }

  lemma {:induction false} EndPadded(t: seq<Byte>, cs: seq<seq<Byte>>)
    requires AllSpaces(cs)
    ensures TrimEnd(t + Join(cs)) == TrimEnd(t)
  {
    if cs == [] {
      assert t + Join(cs) == t;
    } else {
      var front, c := cs[..|cs| - 1], cs[|cs| - 1];
      assert cs == front + [c];
      JoinLast(front, c);
      assert t + Join(cs) == (t + Join(front)) + c;
      CutBack(t + Join(front), c);
      EndPadded(t, front);
    }
  }

  lemma {:induction false} StartDone(s: seq<Byte>)
    ensures LeadingSpace(TrimStart(s)) == 0
    decreases |s|
  {
    if LeadingSpace(s) > 0 {
      StartDone(s[LeadingSpace(s)..]);
    }
  }

  lemma {:induction false} EndDone(s: seq<Byte>)
    ensures TrailingSpace(TrimEnd(s)) == 0
    decreases |s|
  {
    if TrailingSpace(s) > 0 {
      EndDone(s[..|s| - TrailingSpace(s)]);
    }
  }

  lemma OneInFront(c: seq<Byte>, cs: seq<seq<Byte>>, t: seq<Byte>)
    requires IsSpace(c) && AllSpaces(cs)
    ensures AllSpaces([c] + cs) && Join([c] + cs) + t == c + (Join(cs) + t)
  {
    assert ([c] + cs)[1..] == cs;
  }

  lemma OneBehind(t: seq<Byte>, cs: seq<seq<Byte>>, c: seq<Byte>)
    requires IsSpace(c) && AllSpaces(cs)
    ensures AllSpaces(cs + [c]) && t + Join(cs + [c]) == (t + Join(cs)) + c
  {
    JoinLast(cs, c);
  }

  lemma {:induction false} StartCuts(s: seq<Byte>) returns (cs: seq<seq<Byte>>)
    ensures AllSpaces(cs) && s == Join(cs) + TrimStart(s)
    decreases |s|
  {
    var n := LeadingSpace(s);
    if n == 0 {
      cs := [];
    } else {
      LeadingExactly(s);
      var c, rest := s[..n], s[n..];
      assert s == c + rest;
      CutFront(c, rest);
      cs := StartCuts(rest);
      OneInFront(c, cs, TrimStart(rest));
      cs := [c] + cs;
    }
  }

  lemma {:induction false} EndCuts(s: seq<Byte>) returns (cs: seq<seq<Byte>>)
    ensures AllSpaces(cs) && s == TrimEnd(s) + Join(cs)
    decreases |s|
  {
    var n := |s| - TrailingSpace(s);
    if n == |s| {
      cs := [];
    } else {
      TrailingExactly(s);
      var rest, c := s[..n], s[n..];
      assert s == rest + c;
      CutBack(rest, c);
      cs := EndCuts(rest);
      OneBehind(TrimEnd(rest), cs, c);
      cs := cs + [c];
    }
  }

  /** White space behind a text does not complete a white-space character at its front. */
  lemma NoneAcross(t: seq<Byte>, cs: seq<seq<Byte>>)
    requires t != [] && AllSpaces(cs) && LeadingSpace(t) == 0
    ensures LeadingSpace(t + Join(cs)) == 0
  {
    var s := t + Join(cs);
    LeadingExactly(t);
    LeadingExactly(s);
    forall n | 0 <= n <= |s| ensures !IsSpace(s[..n]) {
      if n <= |t| {
        assert s[..n] == t[..n];
      } else {
        JoinStarts(cs);
        assert s[..n][|t|] == Join(cs)[0];
        if IsSpace(s[..n]) {
          Continues(s[..n], |t|);
        }
      }
    }
  }

  lemma JoinStarts(cs: seq<seq<Byte>>)
    requires AllSpaces(cs) && Join(cs) != []
    ensures !(0x80 <= Join(cs)[0] < 0xC0) && Join(cs)[0] != BRACKET
  {
    Continues(cs[0], 0);
  }

  lemma TrimIsTrimmed(s: seq<Byte>)
    ensures TrimsTo(s, Trim(s))
  {
    var a := StartCuts(s);
    var b := EndCuts(TrimStart(s));
    var t := Trim(s);
    assert Spaces(Join(a)) && Spaces(Join(b)) && Around(s, Join(a), t, Join(b));
    StartDone(s);
    EndDone(TrimStart(s));
    EdgesStay(TrimStart(s), t);
  }

  lemma EdgesStay(s: seq<Byte>, t: seq<Byte>)
    requires t <= s && LeadingSpace(s) == 0 && TrailingSpace(t) == 0
    ensures Bounded(t)
  {
    LeadingExactly(s);
    TrailingExactly(t);
    forall n | 0 <= n <= |t| ensures !IsSpace(t[..n]) {
      assert t[..n] == s[..n];
    }
  }

  lemma TrimmedIsTrim(a: seq<seq<Byte>>, t: seq<Byte>, b: seq<seq<Byte>>)
    requires AllSpaces(a) && AllSpaces(b) && Bounded(t)
    ensures Trim(Join(a) + (t + Join(b))) == t
  {
    StartPadded(a, t + Join(b));
    LeadingExactly(t);
    TrailingExactly(t);
    if t == [] {
      assert t + Join(b) == Join(b) + [];
      StartPadded(b, []);
    } else {
      NoneAcross(t, b);
      EndPadded(t, b);
    }
  }

  /** What is left is the text without the white-space characters at its two ends, and that text is unique. */
  lemma TrimExactly(s: seq<Byte>, t: seq<Byte>)
    ensures TrimsTo(s, t) <==> t == Trim(s)
  {
    TrimIsTrimmed(s);
    if TrimsTo(s, t) {
      var a, b :| Spaces(a) && Spaces(b) && Around(s, a, t, b);
      var front :| AllSpaces(front) && Join(front) == a;
      var back :| AllSpaces(back) && Join(back) == b;
      TrimmedIsTrim(front, t, back);
    }
  }

  /** The parser accepts exactly the texts that, white space at the ends aside, denote an array of depth at most six. */
  lemma AcceptsText(input: seq<Byte>, v: Value, utf8: Utf8)
    ensures Parse(input, utf8) == Ok(v) <==>
              v.Array? && Depth(v) <= 6 && exists t :: TrimsTo(input, t) && Denotes(v, t, utf8)
  {
    AcceptsExactly(input, v, utf8);
    TrimIsTrimmed(input);
    forall t | TrimsTo(input, t) ensures t == Trim(input) {
      TrimExactly(input, t);
    }
  }

  // ---------------------------------------------------------------------------
  // Explicit bounds
  // ---------------------------------------------------------------------------

  lemma {:induction false} ArrayErrors(s: seq<Byte>, depth: nat, limit: nat, utf8: Utf8)
    ensures ParseArray(s, depth, limit, utf8) != Err(UnsupportedBounds)
    decreases |s|, 0
  {
    if s != [] {
      ElementsErrors(s[1..], depth, limit, utf8);
    }
  }

  lemma {:induction false} ElementsErrors(s: seq<Byte>, depth: nat, limit: nat, utf8: Utf8)
    ensures ParseElements(s, depth, limit, utf8) != Err(UnsupportedBounds)
    decreases |s|, 2
  {
    ItemErrors(s, depth, limit, utf8);
    match ParseItem(s, depth, limit, utf8)
    case Err(_) =>
    case Ok(Parsed(_, rest)) =>
      if rest != [] {
        ElementsErrors(rest[1..], depth, limit, utf8);
      }
  }

  lemma {:induction false} ItemErrors(s: seq<Byte>, depth: nat, limit: nat, utf8: Utf8)
    ensures ParseItem(s, depth, limit, utf8) != Err(UnsupportedBounds)
    decreases |s|, 1
  {
    if s != [] && s[0] == OPEN {
      ArrayErrors(s, depth + 1, limit, utf8);
    } else if s != [] {
      QuotedErrors(s[1..]);
    }
  }

  lemma {:induction false} QuotedErrors(s: seq<Byte>)
    ensures QuotedBody(s) != Err(UnsupportedBounds)
    decreases |s|
  {
    if |s| > 1 {
      QuotedErrors(s[2..]);
    }
    if |s| > 0 {
      QuotedErrors(s[1..]);
    }
  }

  /** Behind `a` comes an opening bracket. */
  predicate Opens(input: seq<Byte>, a: seq<Byte>) {
    |a| < |input| && input[..|a|] == a && input[|a|] == BRACKET
  }

  lemma BracketFirst(input: seq<Byte>)
    requires Trim(input) != [] && Trim(input)[0] == BRACKET
    ensures exists a :: Spaces(a) && Opens(input, a)
  {
    var a := StartCuts(input);
    var rest := TrimStart(input);
    var b := EndCuts(rest);
    assert rest[0] == BRACKET;
    assert Spaces(Join(a)) && Opens(input, Join(a));
  }

  lemma EndKeepsBracket(s: seq<Byte>)
    requires s != [] && s[0] == BRACKET
    ensures TrimEnd(s) != [] && TrimEnd(s)[0] == BRACKET
  {
    var b := EndCuts(s);
    if TrimEnd(s) == [] {
      JoinStarts(b);
    }
  }

  lemma BracketStays(a: seq<seq<Byte>>, rest: seq<Byte>)
    requires AllSpaces(a) && rest != [] && rest[0] == BRACKET
    ensures Trim(Join(a) + rest) != [] && Trim(Join(a) + rest)[0] == BRACKET
  {
    StartPadded(a, rest);
    LeadingExactly(rest);
    var n := LeadingSpace(rest);
    if n > 0 {
      Continues(rest[..n], 0);
    }
    EndKeepsBracket(rest);
  }

  lemma BracketAfter(input: seq<Byte>, a: seq<Byte>)
    requires Spaces(a) && Opens(input, a)
    ensures Trim(input) != [] && Trim(input)[0] == BRACKET
  {
    var cs :| AllSpaces(cs) && Join(cs) == a;
    assert input == a + input[|a|..];
    BracketStays(cs, input[|a|..]);
  }

  lemma RefusedAtBracket(input: seq<Byte>, utf8: Utf8)
    ensures Parse(input, utf8) == Err(UnsupportedBounds) <==> Trim(input) != [] && Trim(input)[0] == BRACKET
  {
    ArrayErrors(Trim(input), 0, MAX_ARRAY_DEPTH, utf8);
  }

  /** Explicit bounds are refused as such exactly if an opening bracket follows the leading white space, and nothing
      else is refused for that reason. */
  lemma BoundsRefusedExactly(input: seq<Byte>, utf8: Utf8)
    ensures Parse(input, utf8) == Err(UnsupportedBounds) <==> exists a :: Spaces(a) && Opens(input, a)
  {
    RefusedAtBracket(input, utf8);
    if a :| Spaces(a) && Opens(input, a) {
      BracketAfter(input, a);
    } else if Trim(input) != [] && Trim(input)[0] == BRACKET {
      BracketFirst(input);
    }
  }
}
