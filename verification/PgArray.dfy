/** The parser of PostgreSQL array text (section 8.15.6 of the PostgreSQL manual): a recursive
    descent over bytes with an advancing position, against a grammar and a printer. */
module PgArray {
  import opened Wrappers

  newtype Byte = x: int | 0 <= x < 256

  const OPEN: Byte := 0x7B       // {
  const CLOSE: Byte := 0x7D      // }
  const COMMA: Byte := 0x2C
  const QUOTE: Byte := 0x22
  const BACKSLASH: Byte := 0x5C
  const BRACKET: Byte := 0x5B    // [
  const NULL_TEXT: seq<Byte> := [0x4E, 0x55, 0x4C, 0x4C]

  const MAX_ARRAY_DEPTH: nat := 6

  datatype Value = Null | Text(text: seq<Byte>) | Array(elements: seq<Value>)

  datatype Error = UnsupportedBounds | MalformedInput | TooDeep

  /** A parsed value and what is left of the input. */
  datatype Parsed<+T> = Parsed(value: T, rest: seq<Byte>)

  /** Whether a byte string is valid UTF-8; the parser only asks. */
  type Utf8 = seq<Byte> -> bool

  // ---------------------------------------------------------------------------
  // Trimming: the UTF-8 encodings of the Unicode White_Space characters
  // ---------------------------------------------------------------------------

  predicate IsSpace(c: seq<Byte>) {
    match |c|
    case 1 => 0x09 <= c[0] <= 0x0D || c[0] == 0x20
    case 2 => c[0] == 0xC2 && (c[1] == 0x85 || c[1] == 0xA0)
    case 3 =>
      || (c[0] == 0xE1 && c[1] == 0x9A && c[2] == 0x80)
      || (c[0] == 0xE2 && c[1] == 0x80 && (0x80 <= c[2] <= 0x8A || c[2] == 0xA8 || c[2] == 0xA9 || c[2] == 0xAF))
      || (c[0] == 0xE2 && c[1] == 0x81 && c[2] == 0x9F)
      || (c[0] == 0xE3 && c[1] == 0x80 && c[2] == 0x80)
    case _ => false
  }

  /** The length of the white-space character `s` starts with, or 0. */
  function LeadingSpace(s: seq<Byte>): (n: nat)
    ensures n <= |s|
  {
    if |s| >= 1 && IsSpace(s[..1]) then 1
    else if |s| >= 2 && IsSpace(s[..2]) then 2
    else if |s| >= 3 && IsSpace(s[..3]) then 3
    else 0
  }

  function TrailingSpace(s: seq<Byte>): (n: nat)
    ensures n <= |s|
  {
    if |s| >= 1 && IsSpace(s[|s| - 1..]) then 1
    else if |s| >= 2 && IsSpace(s[|s| - 2..]) then 2
    else if |s| >= 3 && IsSpace(s[|s| - 3..]) then 3
    else 0
  }

  function TrimStart(s: seq<Byte>): (t: seq<Byte>)
    decreases |s|
  {
    if LeadingSpace(s) == 0 then s else TrimStart(s[LeadingSpace(s)..])
  }

  function TrimEnd(s: seq<Byte>): (t: seq<Byte>)
    decreases |s|
  {
    if TrailingSpace(s) == 0 then s else TrimEnd(s[..|s| - TrailingSpace(s)])
  }

  function Trim(s: seq<Byte>): (t: seq<Byte>) {
    TrimEnd(TrimStart(s))
  }

  // ---------------------------------------------------------------------------
  // The parser as functions on the remaining input
  // ---------------------------------------------------------------------------

  /** The body of a quoted element, after the opening quote. */
  function QuotedBody(s: seq<Byte>): (r: Result<Parsed<seq<Byte>>, Error>)
    ensures r.Ok? ==> |r.value.rest| < |s|
  {
    if s == [] then Err(MalformedInput)
    else if s[0] == BACKSLASH then
      if |s| == 1 then Err(MalformedInput) else Prefixed(s[1], QuotedBody(s[2..]))
    else if s[0] == QUOTE then Ok(Parsed([], s[1..]))
    else Prefixed(s[0], QuotedBody(s[1..]))
  }

  function Prefixed(b: Byte, r: Result<Parsed<seq<Byte>>, Error>): (r': Result<Parsed<seq<Byte>>, Error>) {
    match r
    case Ok(Parsed(body, rest)) => Ok(Parsed([b] + body, rest))
    case Err(e) => Err(e)
  }

  /** How many bytes precede the first delimiter. */
  function UnquotedLength(s: seq<Byte>): (n: nat)
    ensures n <= |s|
    ensures forall i :: 0 <= i < n ==> s[i] != COMMA && s[i] != CLOSE
    ensures n < |s| ==> s[n] == COMMA || s[n] == CLOSE
  {
    if s == [] || s[0] == COMMA || s[0] == CLOSE then 0 else 1 + UnquotedLength(s[1..])
  }

  function ParseElement(s: seq<Byte>, utf8: Utf8): (r: Result<Parsed<Value>, Error>)
    ensures r.Ok? ==> |r.value.rest| < |s|
  {
    if s != [] && s[0] == QUOTE then
      match QuotedBody(s[1..])
      case Err(e) => Err(e)
      case Ok(Parsed(body, rest)) => if utf8(body) then Ok(Parsed(Text(body), rest)) else Err(MalformedInput)
    else
      var n := UnquotedLength(s);
      if n == 0 || !utf8(s[..n]) then Err(MalformedInput)
      else Ok(Parsed(if s[..n] == NULL_TEXT then Null else Text(s[..n]), s[n..]))
  }

  function ParseArray(s: seq<Byte>, depth: nat, limit: nat, utf8: Utf8): (r: Result<Parsed<Value>, Error>)
    ensures r.Ok? ==> |r.value.rest| < |s| && r.value.value.Array?
    decreases |s|, 0
  {
    if depth >= limit then Err(TooDeep)
    else if s == [] || s[0] != OPEN then Err(MalformedInput)
    else if |s| > 1 && s[1] == CLOSE then Ok(Parsed(Array([]), s[2..]))
    else
      match ParseElements(s[1..], depth, limit, utf8)
      case Err(e) => Err(e)
      case Ok(Parsed(elements, rest)) => Ok(Parsed(Array(elements), rest))
  }

  /** One or more elements separated by commas, and the closing brace. */
  function ParseElements(s: seq<Byte>, depth: nat, limit: nat, utf8: Utf8): (r: Result<Parsed<seq<Value>>, Error>)
    ensures r.Ok? ==> |r.value.rest| < |s| && r.value.value != []
    decreases |s|, 2
  {
    match ParseItem(s, depth, limit, utf8)
    case Err(e) => Err(e)
    case Ok(Parsed(item, rest)) =>
      if rest == [] then Err(MalformedInput)
      else if rest[0] == COMMA then
        match ParseElements(rest[1..], depth, limit, utf8)
        case Err(e) => Err(e)
        case Ok(Parsed(items, rest')) => Ok(Parsed([item] + items, rest'))
      else if rest[0] == CLOSE then Ok(Parsed([item], rest[1..]))
      else Err(MalformedInput)
  }

  function ParseItem(s: seq<Byte>, depth: nat, limit: nat, utf8: Utf8): (r: Result<Parsed<Value>, Error>)
    ensures r.Ok? ==> |r.value.rest| < |s|
    decreases |s|, 1
  {
    if s != [] && s[0] == OPEN then ParseArray(s, depth + 1, limit, utf8) else ParseElement(s, utf8)
  }

  /** The entry point: trim, refuse explicit bounds, parse, demand that nothing is left. */
  function Parse(input: seq<Byte>, utf8: Utf8): (r: Result<Value, Error>) {
    var s := Trim(input);
    if s != [] && s[0] == BRACKET then Err(UnsupportedBounds)
    else
      match ParseArray(s, 0, MAX_ARRAY_DEPTH, utf8)
      case Err(e) => Err(e)
      case Ok(Parsed(v, rest)) => if rest == [] then Ok(v) else Err(MalformedInput)
  }

  // ---------------------------------------------------------------------------
  // The parser as the source writes it: a position advanced in place
  // ---------------------------------------------------------------------------

  /** The outcome of a parse at `pos` is that of the function on the remaining input, and the
      new position is where the function's rest begins. */
  ghost predicate Agrees<T>(r: Result<T, Error>, pos: nat, bytes: seq<Byte>, spec: Result<Parsed<T>, Error>) {
    match spec
    case Ok(p) => r == Ok(p.value) && pos <= |bytes| && bytes[pos..] == p.rest
    case Err(e) => r == Err(e)
  }

  method ParseQuotedElement(bytes: seq<Byte>, start: nat, utf8: Utf8) returns (r: Result<Value, Error>, pos: nat)
    requires start < |bytes| && bytes[start] == QUOTE
    ensures Agrees(r, pos, bytes, ParseElement(bytes[start..], utf8))
  {
    assert bytes[start..][1..] == bytes[start + 1..];
    var body;
    body, pos := ReadQuoted(bytes, start + 1);
    if body.Err? {
      return Err(body.error), pos;
    }
    r := if utf8(body.value) then Ok(Text(body.value)) else Err(MalformedInput);
  }

  /** The loop that fills the buffer, up to and over the closing quote. */
  method ReadQuoted(bytes: seq<Byte>, start: nat) returns (r: Result<seq<Byte>, Error>, pos: nat)
    requires start <= |bytes|
    ensures Agrees(r, pos, bytes, QuotedBody(bytes[start..]))
  {
    pos := start;
    var buf: seq<Byte> := [];
    ghost var whole := QuotedBody(bytes[start..]);
    assert whole.Ok? ==> buf + whole.value.value == whole.value.value;
    while true
      invariant start <= pos <= |bytes|
      invariant whole == Prepended(buf, QuotedBody(bytes[pos..]))
      decreases |bytes| - pos
    {
      ghost var s := bytes[pos..];
      if pos == |bytes| {
        return Err(MalformedInput), pos;
      } else if bytes[pos] == BACKSLASH {
        pos := pos + 1;
        if pos == |bytes| {
          return Err(MalformedInput), pos;
        }
        assert s[2..] == bytes[pos + 1..];
        QuotedMore(buf, s);
        buf := buf + [bytes[pos]];
        pos := pos + 1;
      } else if bytes[pos] == QUOTE {
        pos := pos + 1;
        assert s[1..] == bytes[pos..];
        assert buf + [] == buf;
        return Ok(buf), pos;
      } else {
        assert s[1..] == bytes[pos + 1..];
        QuotedMore(buf, s);
        buf := buf + [bytes[pos]];
        pos := pos + 1;
      }
    }
  }

  ghost function Prepended(buf: seq<Byte>, r: Result<Parsed<seq<Byte>>, Error>): Result<Parsed<seq<Byte>>, Error> {
    match r
    case Ok(Parsed(body, rest)) => Ok(Parsed(buf + body, rest))
    case Err(e) => Err(e)
  }

  lemma PrependedStep(buf: seq<Byte>, b: Byte, r: Result<Parsed<seq<Byte>>, Error>)
    ensures Prepended(buf, Prefixed(b, r)) == Prepended(buf + [b], r)
  {
    if r.Ok? {
      assert buf + ([b] + r.value.value) == buf + [b] + r.value.value;
    }
  }

  /** One more character of a quoted element, escaped or not. */
  lemma QuotedMore(buf: seq<Byte>, s: seq<Byte>)
    requires s != [] && s[0] != QUOTE
    ensures s[0] == BACKSLASH && |s| > 1 ==>
              Prepended(buf, QuotedBody(s)) == Prepended(buf + [s[1]], QuotedBody(s[2..]))
    ensures s[0] != BACKSLASH ==> Prepended(buf, QuotedBody(s)) == Prepended(buf + [s[0]], QuotedBody(s[1..]))
  {
    if s[0] != BACKSLASH {
      PrependedStep(buf, s[0], QuotedBody(s[1..]));
    } else if |s| > 1 {
      PrependedStep(buf, s[1], QuotedBody(s[2..]));
    }
  }

  method ParseUnquotedElement(bytes: seq<Byte>, start: nat, utf8: Utf8) returns (r: Result<Value, Error>, pos: nat)
    requires start <= |bytes| && !(start < |bytes| && bytes[start] == QUOTE)
    ensures Agrees(r, pos, bytes, ParseElement(bytes[start..], utf8))
  {
    pos := start;
    ghost var s := bytes[start..];
    while pos < |bytes|
      invariant start <= pos <= |bytes|
      invariant UnquotedLength(s) == pos - start + UnquotedLength(bytes[pos..])
    {
      ghost var here := bytes[pos..];
      if bytes[pos] == COMMA || bytes[pos] == CLOSE {
        break;
      }
      assert here[1..] == bytes[pos + 1..];
      pos := pos + 1;
    }
    assert UnquotedLength(s) == pos - start;
    if pos == start {
      return Err(MalformedInput), pos;
    }
    var text := bytes[start..pos];
    assert s[..pos - start] == text && s[pos - start..] == bytes[pos..];
    if !utf8(text) {
      r := Err(MalformedInput);
    } else if text == NULL_TEXT {
      r := Ok(Null);
    } else {
      r := Ok(Text(text));
    }
  }

  method ParseArrayAt(bytes: seq<Byte>, start: nat, depth: nat, utf8: Utf8) returns (r: Result<Value, Error>, pos: nat)
    requires start <= |bytes|
    ensures Agrees(r, pos, bytes, ParseArray(bytes[start..], depth, MAX_ARRAY_DEPTH, utf8))
    decreases |bytes| - start, 0
  {
    pos := start;
    ghost var s := bytes[start..];
    if depth >= MAX_ARRAY_DEPTH {
      return Err(TooDeep), pos;
    }
    if !(pos < |bytes| && bytes[pos] == OPEN) {
      return Err(MalformedInput), pos;
    }
    pos := pos + 1;
    assert s[1..] == bytes[pos..];
    if pos < |bytes| && bytes[pos] == CLOSE {
      pos := pos + 1;
      assert s[2..] == bytes[pos..];
      return Ok(Array([])), pos;
    }
    var elements;
    elements, pos := ReadElements(bytes, pos, depth, utf8);
    if elements.Err? {
      return Err(elements.error), pos;
    }
    return Ok(Array(elements.value)), pos;
  }

  /** The loop over the items of an array, up to and over its closing brace. */
  method ReadElements(bytes: seq<Byte>, start: nat, depth: nat, utf8: Utf8)
    returns (r: Result<seq<Value>, Error>, pos: nat)
    requires start <= |bytes|
    ensures Agrees(r, pos, bytes, ParseElements(bytes[start..], depth, MAX_ARRAY_DEPTH, utf8))
    decreases |bytes| - start, 2
  {
    pos := start;
    var elements: seq<Value> := [];
    ghost var whole := ParseElements(bytes[start..], depth, MAX_ARRAY_DEPTH, utf8);
    FollowingNone(whole);
    while true
      invariant start <= pos <= |bytes|
      invariant whole == Following(elements, ParseElements(bytes[pos..], depth, MAX_ARRAY_DEPTH, utf8))
      decreases |bytes| - pos
    {
      ghost var before := pos;
      var elem;
      elem, pos := ParseItemAt(bytes, pos, depth, utf8);
      ElementsStep(bytes, before, pos, depth, elements, elem, whole, utf8);
      if elem.Err? {
        return Err(elem.error), pos;
      }
      if pos < |bytes| && bytes[pos] == COMMA {
        elements := elements + [elem.value];
        pos := pos + 1;
      } else if pos < |bytes| && bytes[pos] == CLOSE {
        return Ok(elements + [elem.value]), pos + 1;
      } else {
        return Err(MalformedInput), pos;
      }
    }
  }

  method ParseItemAt(bytes: seq<Byte>, start: nat, depth: nat, utf8: Utf8) returns (r: Result<Value, Error>, pos: nat)
    requires start <= |bytes|
    ensures Agrees(r, pos, bytes, ParseItem(bytes[start..], depth, MAX_ARRAY_DEPTH, utf8))
    decreases |bytes| - start, 1
  {
    if start < |bytes| && bytes[start] == OPEN {
      r, pos := ParseArrayAt(bytes, start, depth + 1, utf8);
    } else if start < |bytes| && bytes[start] == QUOTE {
      r, pos := ParseQuotedElement(bytes, start, utf8);
    } else {
      r, pos := ParseUnquotedElement(bytes, start, utf8);
    }
  }

  ghost function Following(es: seq<Value>, r: Result<Parsed<seq<Value>>, Error>): Result<Parsed<seq<Value>>, Error> {
    match r
    case Ok(Parsed(more, rest)) => Ok(Parsed(es + more, rest))
    case Err(e) => Err(e)
  }

  /** What one item read from `before` to `pos` means for the elements read so far. */
  lemma ElementsStep(bytes: seq<Byte>, before: nat, pos: nat, depth: nat, es: seq<Value>, elem: Result<Value, Error>,
                     whole: Result<Parsed<seq<Value>>, Error>, utf8: Utf8)
    requires before <= |bytes| && Agrees(elem, pos, bytes, ParseItem(bytes[before..], depth, MAX_ARRAY_DEPTH, utf8))
    requires whole == Following(es, ParseElements(bytes[before..], depth, MAX_ARRAY_DEPTH, utf8))
    ensures elem.Err? ==> whole == Err(elem.error)
    ensures elem.Ok? ==> before < pos <= |bytes|
    ensures elem.Ok? && pos < |bytes| && bytes[pos] == COMMA ==>
              whole == Following(es + [elem.value], ParseElements(bytes[pos + 1..], depth, MAX_ARRAY_DEPTH, utf8))
    ensures elem.Ok? && pos < |bytes| && bytes[pos] == CLOSE ==> whole == Ok(Parsed(es + [elem.value], bytes[pos + 1..]))
    ensures elem.Ok? && !(pos < |bytes| && (bytes[pos] == COMMA || bytes[pos] == CLOSE)) ==> whole == Err(MalformedInput)
  {
    if elem.Ok? {
      var rest := bytes[pos..];
      assert |rest| < |bytes[before..]|;
      if pos < |bytes| {
        assert rest[0] == bytes[pos] && rest[1..] == bytes[pos + 1..];
        FollowingMore(es, elem.value, ParseElements(bytes[pos + 1..], depth, MAX_ARRAY_DEPTH, utf8));
      }
    }
  }

  lemma FollowingNone(r: Result<Parsed<seq<Value>>, Error>)
    ensures Following([], r) == r
  {
    if r.Ok? {
      assert [] + r.value.value == r.value.value;
    }
  }

  lemma FollowingMore(es: seq<Value>, e: Value, r: Result<Parsed<seq<Value>>, Error>)
    ensures r.Ok? ==> Following(es, Ok(Parsed([e] + r.value.value, r.value.rest))) == Following(es + [e], r)
  {
    if r.Ok? {
      assert es + ([e] + r.value.value) == es + [e] + r.value.value;
    }
  }

  method ParsePgArray(input: seq<Byte>, utf8: Utf8) returns (r: Result<Value, Error>)
    ensures r == Parse(input, utf8)
  {
    var bytes := Trim(input);
    if bytes != [] && bytes[0] == BRACKET {
      return Err(UnsupportedBounds);
    }
    assert bytes[0..] == bytes;
    var v, pos := ParseArrayAt(bytes, 0, 0, utf8);
    if v.Ok? && pos != |bytes| {
      return Err(MalformedInput);
    }
    r := v;
  }

  // ---------------------------------------------------------------------------
  // The grammar: which byte strings denote which values
  // ---------------------------------------------------------------------------

  function Depth(v: Value): (d: nat) {
    match v
    case Array(es) => 1 + DepthAll(es)
    case _ => 0
  }

  function DepthAll(es: seq<Value>): (d: nat) {
    if es == [] then 0
    else
      var first, others := Depth(es[0]), DepthAll(es[1..]);
      if first < others then others else first
  }

  /** `q` spells `t` between quotes: a backslash protects any byte, and must protect a quote or a backslash. */
  predicate Spells(q: seq<Byte>, t: seq<Byte>)
    decreases |q|
  {
    if q == [] then t == []
    else if q[0] == BACKSLASH then |q| > 1 && t != [] && t[0] == q[1] && Spells(q[2..], t[1..])
    else q[0] != QUOTE && t != [] && t[0] == q[0] && Spells(q[1..], t[1..])
  }

  predicate Bare(t: seq<Byte>) {
    && t != []
    && t[0] != QUOTE && t[0] != OPEN
    && forall i :: 0 <= i < |t| ==> t[i] != COMMA && t[i] != CLOSE
  }

  predicate Quoted(s: seq<Byte>, t: seq<Byte>) {
    |s| >= 2 && s[0] == QUOTE && s[|s| - 1] == QUOTE && Spells(s[1..|s| - 1], t)
  }

  ghost predicate Denotes(v: Value, s: seq<Byte>, utf8: Utf8)
    decreases v, 1
  {
    match v
    case Null => s == NULL_TEXT && utf8(s)
    case Text(t) => utf8(t) && (Quoted(s, t) || (s == t && Bare(t) && t != NULL_TEXT))
    case Array(es) =>
      |s| >= 2 && s[0] == OPEN && if es == [] then s == [OPEN, CLOSE] else DenotesAll(es, s[1..], utf8)
  }

  /** `s` is the elements separated by commas and then the closing brace. */
  ghost predicate DenotesAll(es: seq<Value>, s: seq<Byte>, utf8: Utf8)
    requires es != []
    decreases es, 0
  {
    if |es| == 1 then s != [] && s[|s| - 1] == CLOSE && Denotes(es[0], s[..|s| - 1], utf8)
    else exists k :: 0 <= k < |s| && SplitsAt(es, s, k, utf8)
  }

  ghost predicate SplitsAt(es: seq<Value>, s: seq<Byte>, k: int, utf8: Utf8)
    requires |es| > 1 && 0 <= k < |s|
    decreases es, 0, 0
  {
    s[k] == COMMA && Denotes(es[0], s[..k], utf8) && DenotesAll(es[1..], s[k + 1..], utf8)
  }

  // ---------------------------------------------------------------------------
  // Soundness: what is accepted was in the grammar
  // ---------------------------------------------------------------------------

  function Taken(s: seq<Byte>, rest: seq<Byte>): seq<Byte>
    requires |rest| <= |s|
  {
    s[..|s| - |rest|]
  }

  predicate Leaves(s: seq<Byte>, rest: seq<Byte>) {
    |rest| <= |s| && rest == s[|s| - |rest|..]
  }

  lemma {:induction false} QuotedBodySound(s: seq<Byte>)
    requires QuotedBody(s).Ok?
    ensures var p := QuotedBody(s).value;
            && Leaves(s, p.rest)
            && |p.rest| < |s| && s[|s| - |p.rest| - 1] == QUOTE
            && Spells(s[..|s| - |p.rest| - 1], p.value)
    decreases |s|
  {
    var p := QuotedBody(s).value;
    var q := s[..|s| - |p.rest| - 1];
    if s[0] == BACKSLASH {
      QuotedBodySound(s[2..]);
      assert q[2..] == s[2..][..|s[2..]| - |p.rest| - 1];
      assert p.value[1..] == QuotedBody(s[2..]).value.value;
    } else if s[0] != QUOTE {
      QuotedBodySound(s[1..]);
      assert q[1..] == s[1..][..|s[1..]| - |p.rest| - 1];
      assert p.value[1..] == QuotedBody(s[1..]).value.value;
    }
  }

  lemma ElementSound(s: seq<Byte>, utf8: Utf8)
    requires ParseElement(s, utf8).Ok? && !(s != [] && s[0] == OPEN)
    ensures var p := ParseElement(s, utf8).value;
            Leaves(s, p.rest) && Denotes(p.value, Taken(s, p.rest), utf8) && Depth(p.value) == 0
  {
    var p := ParseElement(s, utf8).value;
    if s[0] == QUOTE {
      QuotedBodySound(s[1..]);
      var taken := Taken(s, p.rest);
      assert taken[1..|taken| - 1] == s[1..][..|s[1..]| - |p.rest| - 1];
    }
  }

  lemma {:induction false} ArraySound(s: seq<Byte>, depth: nat, limit: nat, utf8: Utf8)
    requires ParseArray(s, depth, limit, utf8).Ok?
    ensures var p := ParseArray(s, depth, limit, utf8).value;
            && Leaves(s, p.rest) && Denotes(p.value, Taken(s, p.rest), utf8)
            && depth + Depth(p.value) <= limit
    decreases |s|, 0
  {
    var p := ParseArray(s, depth, limit, utf8).value;
    if !(|s| > 1 && s[1] == CLOSE) {
      ElementsSound(s[1..], depth, limit, utf8);
      assert Taken(s, p.rest)[1..] == Taken(s[1..], p.rest);
    }
  }

  /** What is taken up to `rest` is what is taken up to `middle`, the byte there, and what is taken behind it. */
  lemma TakenSplits(s: seq<Byte>, middle: seq<Byte>, rest: seq<Byte>)
    requires Leaves(s, middle) && middle != [] && Leaves(middle[1..], rest)
    ensures Leaves(s, rest)
    ensures var taken, k := Taken(s, rest), |s| - |middle|;
            && k < |taken| && taken[..k] == Taken(s, middle) && taken[k] == middle[0]
            && taken[k + 1..] == Taken(middle[1..], rest)
  {
    assert middle[1..] == s[|s| - |middle| + 1..];
  }

  lemma {:induction false} ElementsSound(s: seq<Byte>, depth: nat, limit: nat, utf8: Utf8)
    requires depth < limit && ParseElements(s, depth, limit, utf8).Ok?
    ensures var p := ParseElements(s, depth, limit, utf8).value;
            && Leaves(s, p.rest) && DenotesAll(p.value, Taken(s, p.rest), utf8)
            && depth + 1 + DepthAll(p.value) <= limit
    decreases |s|, 2
  {
    var p := ParseElements(s, depth, limit, utf8).value;
    var item := ParseItem(s, depth, limit, utf8).value;
    ItemSound(s, depth, limit, utf8);
    var taken := Taken(s, p.rest);
    var k := |s| - |item.rest|;
    if item.rest[0] == COMMA {
      ElementsSound(item.rest[1..], depth, limit, utf8);
      assert p.value[1..] == ParseElements(item.rest[1..], depth, limit, utf8).value.value;
      TakenSplits(s, item.rest, p.rest);
      assert SplitsAt(p.value, taken, k, utf8);
    } else {
      assert taken[..|taken| - 1] == Taken(s, item.rest);
    }
  }

  lemma {:induction false} ItemSound(s: seq<Byte>, depth: nat, limit: nat, utf8: Utf8)
    requires depth < limit && ParseItem(s, depth, limit, utf8).Ok?
    ensures var p := ParseItem(s, depth, limit, utf8).value;
            && Leaves(s, p.rest) && Denotes(p.value, Taken(s, p.rest), utf8)
            && depth + 1 + Depth(p.value) <= limit
    decreases |s|, 1
  {
    if s != [] && s[0] == OPEN {
      ArraySound(s, depth + 1, limit, utf8);
    } else {
      ElementSound(s, utf8);
    }
  }

  // ---------------------------------------------------------------------------
  // Completeness: what is in the grammar is accepted, or refused only for its depth
  // ---------------------------------------------------------------------------

  predicate AtDelimiter(rest: seq<Byte>) {
    rest != [] && (rest[0] == COMMA || rest[0] == CLOSE)
  }

  lemma {:induction false} QuotedBodyComplete(q: seq<Byte>, t: seq<Byte>, rest: seq<Byte>)
    requires Spells(q, t)
    ensures QuotedBody(q + [QUOTE] + rest) == Ok(Parsed(t, rest))
    decreases |q|
  {
    var s := q + [QUOTE] + rest;
    if q == [] {
      assert s[1..] == rest;
    } else if q[0] == BACKSLASH {
      QuotedBodyComplete(q[2..], t[1..], rest);
      assert s[2..] == q[2..] + [QUOTE] + rest;
      assert t == [t[0]] + t[1..];
    } else {
      QuotedBodyComplete(q[1..], t[1..], rest);
      assert s[1..] == q[1..] + [QUOTE] + rest;
      assert t == [t[0]] + t[1..];
    }
  }

  lemma {:induction false} UnquotedLengthExact(t: seq<Byte>, rest: seq<Byte>)
    requires forall i :: 0 <= i < |t| ==> t[i] != COMMA && t[i] != CLOSE
    requires AtDelimiter(rest)
    ensures UnquotedLength(t + rest) == |t|
  {
    if t == [] {
      assert t + rest == rest;
    } else {
      assert (t + rest)[1..] == t[1..] + rest;
      UnquotedLengthExact(t[1..], rest);
    }
  }

  lemma ElementComplete(v: Value, g: seq<Byte>, rest: seq<Byte>, utf8: Utf8)
    requires !v.Array? && Denotes(v, g, utf8) && AtDelimiter(rest)
    ensures g != [] && g[0] != OPEN
    ensures ParseElement(g + rest, utf8) == Ok(Parsed(v, rest))
  {
    var s := g + rest;
    if v.Text? && Quoted(g, v.text) {
      var q := g[1..|g| - 1];
      QuotedBodyComplete(q, v.text, rest);
      assert s[1..] == q + [QUOTE] + rest;
    } else {
      UnquotedLengthExact(g, rest);
      assert s[..|g|] == g && s[|g|..] == rest;
    }
  }

  /** Where the parser stands after a well-formed item: done, or past the permitted depth. */
  function Verdict<T>(deep: bool, value: T, rest: seq<Byte>): Result<Parsed<T>, Error> {
    if deep then Err(TooDeep) else Ok(Parsed(value, rest))
  }

  lemma {:induction false} ArrayComplete(v: Value, g: seq<Byte>, depth: nat, limit: nat, rest: seq<Byte>, utf8: Utf8)
    requires v.Array? && Denotes(v, g, utf8)
    ensures ParseArray(g + rest, depth, limit, utf8) == Verdict(depth + Depth(v) > limit, v, rest)
    decreases v, 1
  {
    var s := g + rest;
    if depth < limit {
      if v.elements == [] {
        assert s[2..] == rest;
      } else {
        ElementsComplete(v.elements, g[1..], depth, limit, rest, utf8);
        assert s[1..] == g[1..] + rest;
      }
    }
  }

  lemma {:induction false} ElementsComplete(es: seq<Value>, g: seq<Byte>, depth: nat, limit: nat, rest: seq<Byte>, utf8: Utf8)
    requires es != [] && DenotesAll(es, g, utf8) && depth < limit
    ensures g[0] != CLOSE
    ensures ParseElements(g + rest, depth, limit, utf8) == Verdict(depth + 1 + DepthAll(es) > limit, es, rest)
    decreases es, 0
  {
    var s := g + rest;
    if |es| == 1 {
      var last := |g| - 1;
      assert s == g[..last] + ([CLOSE] + rest);
      ItemComplete(es[0], g[..last], depth, limit, [CLOSE] + rest, utf8);
      assert ([CLOSE] + rest)[1..] == rest;
      assert es == [es[0]];
    } else {
      var k :| 0 <= k < |g| && SplitsAt(es, g, k, utf8);
      var after := [COMMA] + (g[k + 1..] + rest);
      assert s == g[..k] + after;
      ItemComplete(es[0], g[..k], depth, limit, after, utf8);
      ElementsComplete(es[1..], g[k + 1..], depth, limit, rest, utf8);
      assert after[1..] == g[k + 1..] + rest;
      assert es == [es[0]] + es[1..];
    }
  }

  lemma {:induction false} ItemComplete(v: Value, g: seq<Byte>, depth: nat, limit: nat, rest: seq<Byte>, utf8: Utf8)
    requires Denotes(v, g, utf8) && AtDelimiter(rest) && depth < limit
    ensures g != [] && g[0] != CLOSE
    ensures ParseItem(g + rest, depth, limit, utf8) == Verdict(depth + 1 + Depth(v) > limit, v, rest)
    decreases v, 2
  {
    if v.Array? {
      ArrayComplete(v, g, depth + 1, limit, rest, utf8);
    } else {
      ElementComplete(v, g, rest, utf8);
    }
  }

  // ---------------------------------------------------------------------------
  // The exact acceptance theorem
  // ---------------------------------------------------------------------------

  /** The parser accepts exactly the texts of the grammar of depth at most six, with the value they denote. */
  lemma AcceptsExactly(input: seq<Byte>, v: Value, utf8: Utf8)
    ensures Parse(input, utf8) == Ok(v)
       <==> v.Array? && Depth(v) <= MAX_ARRAY_DEPTH && Denotes(v, Trim(input), utf8)
  {
    var s := Trim(input);
    if Parse(input, utf8) == Ok(v) {
      ArraySound(s, 0, MAX_ARRAY_DEPTH, utf8);
      assert Taken(s, []) == s;
    }
    if v.Array? && Denotes(v, s, utf8) {
      ArrayComplete(v, s, 0, MAX_ARRAY_DEPTH, [], utf8);
      assert s + [] == s;
    }
  }

  /** A well-formed text that nests too deeply is refused for that reason and no other. */
  lemma TooDeepExactly(input: seq<Byte>, v: Value, utf8: Utf8)
    requires v.Array? && Denotes(v, Trim(input), utf8)
    ensures Parse(input, utf8) == if Depth(v) <= MAX_ARRAY_DEPTH then Ok(v) else Err(TooDeep)
  {
    ArrayComplete(v, Trim(input), 0, MAX_ARRAY_DEPTH, [], utf8);
    assert Trim(input) + [] == Trim(input);
  }

  /** No text denotes two arrays, however deep. */
  lemma Unambiguous(v: Value, w: Value, s: seq<Byte>, utf8: Utf8)
    requires v.Array? && w.Array? && Denotes(v, s, utf8) && Denotes(w, s, utf8)
    ensures v == w
  {
    var limit := if Depth(v) < Depth(w) then Depth(w) else Depth(v);
    assert s + [] == s;
    ArrayComplete(v, s, 0, limit, [], utf8);
    ArrayComplete(w, s, 0, limit, [], utf8);
  }

  // ---------------------------------------------------------------------------
  // The printer, and the round trips
  // ---------------------------------------------------------------------------

  function UpperCase(b: Byte): Byte {
    if 0x61 <= b <= 0x7A then b - 0x20 else b
  }

  /** The characters that make the output routine quote an element. */
  predicate Special(b: Byte) {
    b == OPEN || b == CLOSE || b == COMMA || b == QUOTE || b == BACKSLASH || 0x09 <= b <= 0x0D || b == 0x20
  }

  predicate NeedsQuotes(t: seq<Byte>) {
    || t == []
    || (|t| == 4 && forall i :: 0 <= i < 4 ==> UpperCase(t[i]) == NULL_TEXT[i])
    || exists i :: 0 <= i < |t| && Special(t[i])
  }

  function Escape(t: seq<Byte>): (q: seq<Byte>) {
    if t == [] then []
    else (if t[0] == QUOTE || t[0] == BACKSLASH then [BACKSLASH, t[0]] else [t[0]]) + Escape(t[1..])
  }

  function Print(v: Value): (s: seq<Byte>)
    decreases v, 1
  {
    match v
    case Null => NULL_TEXT
    case Text(t) => if NeedsQuotes(t) then [QUOTE] + Escape(t) + [QUOTE] else t
    case Array(es) => if es == [] then [OPEN, CLOSE] else [OPEN] + PrintAll(es)
  }

  function PrintAll(es: seq<Value>): (s: seq<Byte>)
    requires es != []
    decreases es, 0
  {
    if |es| == 1 then Print(es[0]) + [CLOSE] else Print(es[0]) + [COMMA] + PrintAll(es[1..])
  }

  /** Every text in the value is valid UTF-8, as the texts a database holds are. */
  predicate AllUtf8(v: Value, utf8: Utf8) {
    match v
    case Null => utf8(NULL_TEXT)
    case Text(t) => utf8(t)
    case Array(es) => forall e | e in es :: AllUtf8(e, utf8)
  }

  lemma {:induction false} EscapeSpells(t: seq<Byte>)
    ensures Spells(Escape(t), t)
  {
    if t != [] {
      EscapeSpells(t[1..]);
      var q := Escape(t);
      if t[0] == QUOTE || t[0] == BACKSLASH {
        assert q[2..] == Escape(t[1..]);
      } else {
        assert q[1..] == Escape(t[1..]);
      }
    }
  }

  lemma {:induction false} PrintDenotes(v: Value, utf8: Utf8)
    requires AllUtf8(v, utf8)
    ensures Denotes(v, Print(v), utf8)
    decreases v, 1
  {
    match v
    case Null =>
    case Text(t) => TextDenotes(t, utf8);
    case Array(es) =>
      if es != [] {
        PrintAllDenotes(es, utf8);
        assert Print(v)[1..] == PrintAll(es);
      }
  }

  lemma TextDenotes(t: seq<Byte>, utf8: Utf8)
    requires utf8(t)
    ensures Denotes(Text(t), Print(Text(t)), utf8)
  {
    if NeedsQuotes(t) {
      EscapeSpells(t);
      QuotedSpells(Escape(t), t);
    } else {
      assert forall i :: 0 <= i < |t| ==> !Special(t[i]);
      assert t != NULL_TEXT;
    }
  }

  lemma QuotedSpells(q: seq<Byte>, t: seq<Byte>)
    requires Spells(q, t)
    ensures Quoted([QUOTE] + q + [QUOTE], t)
  {
    var s := [QUOTE] + q + [QUOTE];
    assert s[1..|s| - 1] == q;
  }

  lemma {:induction false} PrintAllDenotes(es: seq<Value>, utf8: Utf8)
    requires es != [] && forall e | e in es :: AllUtf8(e, utf8)
    ensures PrintAll(es) != [] && DenotesAll(es, PrintAll(es), utf8)
    decreases es, 0
  {
    var s := PrintAll(es);
    var k := |Print(es[0])|;
    PrintDenotes(es[0], utf8);
    assert s[..k] == Print(es[0]);
    if |es| > 1 {
      PrintAllDenotes(es[1..], utf8);
      assert s[k + 1..] == PrintAll(es[1..]);
      assert SplitsAt(es, s, k, utf8);
    }
  }

  lemma PrintIsTrimmed(v: Value)
    requires v.Array?
    ensures Trim(Print(v)) == Print(v)
  {
    var s := Print(v);
    PrintEndsInBrace(v.elements);
    assert s[0] == OPEN && s[|s| - 1] == CLOSE;
    BracesAreNoSpace(s);
  }

  lemma BracesAreNoSpace(s: seq<Byte>)
    requires s != [] && s[0] == OPEN && s[|s| - 1] == CLOSE
    ensures LeadingSpace(s) == 0 && TrailingSpace(s) == 0
  {
    assert s[..1][0] == OPEN;
    assert s[|s| - 1..][0] == CLOSE;
    if |s| >= 2 {
      assert s[..2][0] == OPEN;
      assert s[|s| - 2..][1] == CLOSE;
    }
    if |s| >= 3 {
      assert s[..3][0] == OPEN;
      assert s[|s| - 3..][2] == CLOSE;
    }
  }

  lemma {:induction false} PrintEndsInBrace(es: seq<Value>)
    ensures es != [] ==> PrintAll(es) != [] && PrintAll(es)[|PrintAll(es)| - 1] == CLOSE
  {
    if |es| > 1 {
      PrintEndsInBrace(es[1..]);
    }
  }

  /** Printing and parsing again gives back every array of depth at most six. */
  lemma RoundTrip(v: Value, utf8: Utf8)
    requires v.Array? && AllUtf8(v, utf8)
    ensures Parse(Print(v), utf8) == if Depth(v) <= MAX_ARRAY_DEPTH then Ok(v) else Err(TooDeep)
  {
    PrintDenotes(v, utf8);
    PrintIsTrimmed(v);
    TooDeepExactly(Print(v), v, utf8);
  }

  lemma {:induction false} DenotedUtf8(v: Value, s: seq<Byte>, utf8: Utf8)
    requires Denotes(v, s, utf8)
    ensures AllUtf8(v, utf8)
    decreases v, 1
  {
    if v.Array? && v.elements != [] {
      DenotedAllUtf8(v.elements, s[1..], utf8);
    }
  }

  lemma {:induction false} DenotedAllUtf8(es: seq<Value>, s: seq<Byte>, utf8: Utf8)
    requires es != [] && DenotesAll(es, s, utf8)
    ensures forall e | e in es :: AllUtf8(e, utf8)
    decreases es, 0
  {
    if |es| == 1 {
      DenotedUtf8(es[0], s[..|s| - 1], utf8);
    } else {
      var k :| 0 <= k < |s| && SplitsAt(es, s, k, utf8);
      DenotedUtf8(es[0], s[..k], utf8);
      DenotedAllUtf8(es[1..], s[k + 1..], utf8);
      assert forall e | e in es :: e == es[0] || e in es[1..];
    }
  }

  /** Whatever spelling was accepted, reprinting it in the standard spelling keeps the value. */
  lemma ReprintStable(input: seq<Byte>, utf8: Utf8)
    requires Parse(input, utf8).Ok?
    ensures var v := Parse(input, utf8).value; Depth(v) <= MAX_ARRAY_DEPTH && Parse(Print(v), utf8) == Ok(v)
  {
    var v := Parse(input, utf8).value;
    AcceptsExactly(input, v, utf8);
    DenotedUtf8(v, Trim(input), utf8);
    RoundTrip(v, utf8);
  }
}
