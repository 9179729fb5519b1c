/** The hand-written base64 encoder of the server's utility module, against the
    decoder of section 4 of RFC 4648. */
module Base64 {
  import opened ByteBits
  import opened Wrappers

  type Byte = x: int | 0 <= x < 256
  type Sextet = x: int | 0 <= x < 64

  const PAD: char := '='

  // ---------------------------------------------------------------------------
  // The alphabet and its inverse
  // ---------------------------------------------------------------------------

  predicate InAlphabet(c: char) {
    'A' <= c <= 'Z' || 'a' <= c <= 'z' || '0' <= c <= '9' || c == '+' || c == '/'
  }

  /** The value of an alphabet character, by the ranges of table 1 of RFC 4648. */
  function SymbolValue(c: char): (v: Sextet)
    requires InAlphabet(c)
  {
    if 'A' <= c <= 'Z' then c as int - 'A' as int
    else if 'a' <= c <= 'z' then c as int - 'a' as int + 26
    else if '0' <= c <= '9' then c as int - '0' as int + 52
    else if c == '+' then 62
    else 63
  }

  /** The entry of the encoder's table, written by ranges; `SymbolIsTableEntry` ties it to the table. */
  function Symbol(x: Sextet): (c: char)
    ensures InAlphabet(c) && c != PAD && SymbolValue(c) == x
  {
    if x < 26 then 'A' + x as char
    else if x < 52 then 'a' + (x - 26) as char
    else if x < 62 then '0' + (x - 52) as char
    else if x == 62 then '+'
    else '/'
  }

  function Upper(): string { "ABCDEFGHIJKLMNOPQRSTUVWXYZ" }
  function Lower(): string { "abcdefghijklmnopqrstuvwxyz" }
  function Digits(): string { "0123456789+/" }

  /** The encoder's table. */
  function Table(): string { Upper() + Lower() + Digits() }

  lemma PartEntries(x: Sextet)
    ensures |Upper()| == 26 && (x < 26 ==> Symbol(x) == Upper()[x])
    ensures |Lower()| == 26 && (26 <= x < 52 ==> Symbol(x) == Lower()[x - 26])
    ensures |Digits()| == 12 && (x >= 52 ==> Symbol(x) == Digits()[x - 52])
  {
  }

  lemma EntryOf(x: nat, a: string, b: string, c: string)
    requires |a| == 26 && |b| == 26 && |c| == 12 && x < 64
    ensures |a + b + c| == 64
    ensures (a + b + c)[x] == if x < 26 then a[x] else if x < 52 then b[x - 26] else c[x - 52]
  {
  }

  lemma SymbolIsTableEntry(x: Sextet)
    ensures |Table()| == 64 && Symbol(x) == Table()[x]
  {
    PartEntries(x);
    EntryOf(x, Upper(), Lower(), Digits());
  }

  // ---------------------------------------------------------------------------
  // Encoding, one group of at most three bytes at a time
  // ---------------------------------------------------------------------------

  // The four indices into the table, as arithmetic on byte values; the methods `Index1` to `Index4` tie them to the
  // encoder's shifts and masks.
  function First(x: Byte): Sextet { x / 4 }
  function Second(x: Byte, y: Byte): Sextet { (x % 4) * 16 + y / 16 }
  function Third(y: Byte, z: Byte): Sextet { (y % 16) * 4 + z / 64 }
  function Fourth(z: Byte): Sextet { z % 64 }

  function Value(x: bv8): Byte {
    x as int
  }

  function Values(bytes: seq<bv8>): (v: seq<Byte>)
    ensures |v| == |bytes| && forall i :: 0 <= i < |bytes| ==> v[i] == Value(bytes[i])
  {
    seq(|bytes|, i requires 0 <= i < |bytes| => Value(bytes[i]))
  }

  method Index1(x: bv8) returns (i: Sextet)
    ensures i == First(Value(x))
  {
    High(x);
    i := (x >> 2) as int;
  }

  method Index2(x: bv8, y: bv8) returns (i: Sextet)
    ensures i == Second(Value(x), Value(y))
  {
    JoinLow2High4(x, y);
    i := (((x & 0x03) << 4) | (y >> 4)) as int;
  }

  /** Of one byte alone, before two padding characters. */
  method Index2Last(x: bv8) returns (i: Sextet)
    ensures i == Second(Value(x), 0)
  {
    Low2Up(x);
    i := ((x & 0x03) << 4) as int;
  }

  method Index3(y: bv8, z: bv8) returns (i: Sextet)
    ensures i == Third(Value(y), Value(z))
  {
    JoinLow4High2(y, z);
    i := (((y & 0x0f) << 2) | (z >> 6)) as int;
  }

  /** Of the second of two bytes, before one padding character. */
  method Index3Last(y: bv8) returns (i: Sextet)
    ensures i == Third(Value(y), 0)
  {
    Low4Up(y);
    i := ((y & 0x0f) << 2) as int;
  }

  method Index4(z: bv8) returns (i: Sextet)
    ensures i == Fourth(Value(z))
  {
    Low6(z);
    i := (z & 0x3f) as int;
  }

  /** The four characters the encoder emits for one chunk. */
  function EncodeGroup(chunk: seq<Byte>): (g: string)
    requires 1 <= |chunk| <= 3
    ensures |g| == 4
  {
    if |chunk| == 3 then
      [Symbol(First(chunk[0])), Symbol(Second(chunk[0], chunk[1])),
       Symbol(Third(chunk[1], chunk[2])), Symbol(Fourth(chunk[2]))]
    else if |chunk| == 2 then
      [Symbol(First(chunk[0])), Symbol(Second(chunk[0], chunk[1])), Symbol(Third(chunk[1], 0)), PAD]
    else
      [Symbol(First(chunk[0])), Symbol(Second(chunk[0], 0)), PAD, PAD]
  }

  /** The length of the next chunk of at most three bytes. */
  function Chunk(data: seq<Byte>): (n: nat)
    ensures n <= |data| && (data != [] ==> n > 0)
  {
    if |data| < 3 then |data| else 3
  }

  /** What one `write` call appends: the encoding of each chunk in order. */
  function Encode(data: seq<Byte>): (out: string) {
    if data == [] then "" else EncodeGroup(data[..Chunk(data)]) + Encode(data[Chunk(data)..])
  }

  lemma EncodeNext(out: string, rest: seq<Byte>)
    requires rest != []
    ensures (out + EncodeGroup(rest[..Chunk(rest)])) + Encode(rest[Chunk(rest)..]) == out + Encode(rest)
  {
    var g, tail := EncodeGroup(rest[..Chunk(rest)]), Encode(rest[Chunk(rest)..]);
    assert (out + g) + tail == out + (g + tail);
  }

  /** The encoder's table lookup. */
  method LookUp(index: Sextet) returns (c: char)
    ensures c == Symbol(index)
  {
    SymbolIsTableEntry(index);
    c := Table()[index];
  }

  /** The arms of the encoder's match. */
  method EncodeChunk(chunk: seq<bv8>) returns (g: string)
    requires 1 <= |chunk| <= 3
    ensures g == EncodeGroup(Values(chunk))
  {
    var i := Index1(chunk[0]);
    var a := LookUp(i);
    if |chunk| == 3 {
      i := Index2(chunk[0], chunk[1]);
      var b := LookUp(i);
      i := Index3(chunk[1], chunk[2]);
      var c := LookUp(i);
      i := Index4(chunk[2]);
      var d := LookUp(i);
      g := [a, b, c, d];
    } else if |chunk| == 2 {
      i := Index2(chunk[0], chunk[1]);
      var b := LookUp(i);
      i := Index3Last(chunk[1]);
      var c := LookUp(i);
      g := [a, b, c, PAD];
    } else {
      i := Index2Last(chunk[0]);
      var b := LookUp(i);
      g := [a, b, PAD, PAD];
    }
  }

  lemma ChunkAt(buf: seq<Byte>, i: nat)
    requires i < |buf|
    ensures var rest := buf[i..];
            var end := i + Chunk(rest);
            buf[i..end] == rest[..Chunk(rest)] && buf[end..] == rest[Chunk(rest)..]
  {
  }

  /** Appending the group of the bytes from `i` to `end` leaves the rest to be appended. */
  lemma WriteStep(out: string, group: string, buf: seq<bv8>, i: nat, end: nat)
    requires i < |buf| && end == (if i + 3 <= |buf| then i + 3 else |buf|)
    requires group == EncodeGroup(Values(buf[i..end]))
    ensures (out + group) + Encode(Values(buf)[end..]) == out + Encode(Values(buf)[i..])
  {
    ChunkAt(Values(buf), i);
    assert Values(buf[i..end]) == Values(buf)[i..end];
    EncodeNext(out, Values(buf)[i..]);
  }

  /** The encoder: an output buffer that every write extends. */
  class Base64Encoder {
    var out: string

    constructor ()
      ensures out == ""
    {
      out := "";
    }

    method Write(buf: seq<bv8>) returns (n: nat)
      modifies this
      ensures out == old(out) + Encode(Values(buf))
      ensures n == |buf|
    {
      ghost var data := Values(buf);
      var i := 0;
      while i < |buf|
        invariant 0 <= i <= |buf|
        invariant out + Encode(data[i..]) == old(out) + Encode(data)
      {
        var end := if i + 3 <= |buf| then i + 3 else |buf|;
        var group := EncodeChunk(buf[i..end]);
        WriteStep(out, group, buf, i, end);
        out := out + group;
        i := end;
      }
      n := |buf|;
    }
  }

  method Base64Encode(data: seq<bv8>) returns (s: string)
    ensures Decode(s) == Some(Values(data))
    ensures |s| == 4 * ((|data| + 2) / 3)
    ensures forall i :: 0 <= i < |s| ==> InAlphabet(s[i]) || s[i] == PAD
  {
    var encoder := new Base64Encoder();
    var n := encoder.Write(data);
    s := encoder.out;
    assert s == Encode(Values(data));
    DecodeEncode(Values(data));
    EncodeLength(Values(data));
    EncodeAlphabet(Values(data));
  }

  // ---------------------------------------------------------------------------
  // The decoder of RFC 4648: pad bits must be zero, padding only at the end
  // ---------------------------------------------------------------------------

  function DecodeGroup(g: string): (r: Option<seq<Byte>>)
    requires |g| == 4
  {
    if !InAlphabet(g[0]) || !InAlphabet(g[1]) then None
    else
      var a, b := SymbolValue(g[0]), SymbolValue(g[1]);
      if g[2] == PAD && g[3] == PAD then
        if b % 16 != 0 then None else Some([a * 4 + b / 16])
      else if !InAlphabet(g[2]) then None
      else
        var c := SymbolValue(g[2]);
        if g[3] == PAD then
          if c % 4 != 0 then None else Some([a * 4 + b / 16, b % 16 * 16 + c / 4])
        else if !InAlphabet(g[3]) then None
        else
          Some([a * 4 + b / 16, b % 16 * 16 + c / 4, c % 4 * 64 + SymbolValue(g[3])])
  }

  function Decode(s: string): (r: Option<seq<Byte>>) {
    if s == "" then Some([])
    else if |s| < 4 then None
    else
      var head := DecodeGroup(s[..4]);
      if head.None? then None
      else if |s| == 4 then head
      else if |head.value| != 3 then None
      else
        var tail := Decode(s[4..]);
        if tail.None? then None else Some(head.value + tail.value)
  }

  lemma DecodeEncodeGroup(chunk: seq<Byte>)
    requires 1 <= |chunk| <= 3
    ensures DecodeGroup(EncodeGroup(chunk)) == Some(chunk)
    ensures forall i :: 0 <= i < 4 ==> InAlphabet(EncodeGroup(chunk)[i]) || EncodeGroup(chunk)[i] == PAD
  {
    var r := DecodeGroup(EncodeGroup(chunk));
    assert r.Some? && |r.value| == |chunk|;
    assert r.value[0] == chunk[0];
    assert |chunk| > 1 ==> r.value[1] == chunk[1];
    assert |chunk| > 2 ==> r.value[2] == chunk[2];
    assert r.value == chunk;
  }

  lemma ThreeLess(n: nat)
    requires n >= 3
    ensures (n - 3) % 3 == n % 3
    ensures (n - 3 + 2) / 3 + 1 == (n + 2) / 3
  {
  }

  lemma {:induction false} EncodeLength(data: seq<Byte>)
    ensures |Encode(data)| == 4 * ((|data| + 2) / 3)
  {
    if |data| >= 3 {
      EncodeLength(data[3..]);
      ThreeLess(|data|);
    } else if data != [] {
      EncodeLength(data[|data|..]);
    }
  }

  lemma {:induction false} EncodeAlphabet(data: seq<Byte>)
    ensures forall i :: 0 <= i < |Encode(data)| ==> InAlphabet(Encode(data)[i]) || Encode(data)[i] == PAD
  {
    if data != [] {
      DecodeEncodeGroup(data[..Chunk(data)]);
      EncodeAlphabet(data[Chunk(data)..]);
    }
  }

  /** The RFC decoder inverts the encoder on every byte string. */
  lemma {:induction false} DecodeEncode(data: seq<Byte>)
    ensures Decode(Encode(data)) == Some(data)
  {
    if data != [] {
      var n := Chunk(data);
      var head, tail := EncodeGroup(data[..n]), Encode(data[n..]);
      DecodeEncodeGroup(data[..n]);
      DecodeEncode(data[n..]);
      EncodeLength(data[n..]);
      assert Encode(data)[..4] == head && Encode(data)[4..] == tail;
      assert data == data[..n] + data[n..];
      if tail == "" {
        assert data[n..] == [];
        assert data == data[..n];
      }
    }
  }

  // ---------------------------------------------------------------------------
  // Splitting one write into two
  // ---------------------------------------------------------------------------

  lemma {:induction false} EncodeConcat(a: seq<Byte>, b: seq<Byte>)
    requires |a| % 3 == 0
    ensures Encode(a + b) == Encode(a) + Encode(b)
  {
    if a == [] {
      assert a + b == b;
    } else {
      var g := EncodeGroup(a[..3]);
      assert (a + b)[..3] == a[..3] && (a + b)[3..] == a[3..] + b;
      EncodeConcat(a[3..], b);
      calc {
        Encode(a + b);
        g + Encode(a[3..] + b);
        g + (Encode(a[3..]) + Encode(b));
        (g + Encode(a[3..])) + Encode(b);
        Encode(a) + Encode(b);
      }
    }
  }

  lemma GroupPad(chunk: seq<Byte>)
    requires 1 <= |chunk| <= 3
    ensures EncodeGroup(chunk)[3] == PAD <==> |chunk| < 3
  {
  }

  lemma EncodeAt(data: seq<Byte>, i: nat)
    requires i < |Encode(data)|
    ensures data != []
    ensures var n := Chunk(data);
            Encode(data)[i] == if i < 4 then EncodeGroup(data[..n])[i] else Encode(data[n..])[i - 4]
  {
  }

  lemma PadFirst(data: seq<Byte>)
    requires data != []
    ensures |Encode(data)| >= 4
    ensures Encode(data)[3] == PAD <==> |data| < 3
    ensures |Encode(data)| == 4 <==> |data| <= 3
  {
    EncodeAt(data, 3);
    GroupPad(data[..Chunk(data)]);
  }

  lemma PadLater(data: seq<Byte>, g: nat)
    requires g > 0 && 4 * g + 3 < |Encode(data)|
    ensures |data| > 3
    ensures |Encode(data)| == 4 + |Encode(data[3..])|
    ensures Encode(data)[4 * g + 3] == Encode(data[3..])[4 * (g - 1) + 3]
  {
    EncodeAt(data, 4 * g + 3);
  }

  /** The last character of a group of four is padding only where the data ends. */
  lemma {:induction false} PadOnlyAtEnd(data: seq<Byte>, g: nat)
    requires 4 * g + 3 < |Encode(data)|
    ensures Encode(data)[4 * g + 3] == PAD <==> |data| % 3 != 0 && 4 * g + 4 == |Encode(data)|
    decreases g
  {
    if g == 0 {
      PadFirst(data);
    } else {
      PadLater(data, g);
      PadOnlyAtEnd(data[3..], g - 1);
      assert |data[3..]| == |data| - 3;
      ThreeLess(|data|);
    }
  }

  /** Two writes amount to one write of the concatenation exactly when the first ends on a
      three-byte boundary or the second is empty: `write` keeps no partial group between calls. */
  lemma SplitWriteExact(a: seq<Byte>, b: seq<Byte>)
    ensures Encode(a) + Encode(b) == Encode(a + b) <==> |a| % 3 == 0 || b == []
  {
    if |a| % 3 == 0 {
      EncodeConcat(a, b);
    } else if b == [] {
      assert a + b == a;
    } else {
      UnalignedDiffers(a, b);
    }
  }

  lemma UnalignedDiffers(a: seq<Byte>, b: seq<Byte>)
    requires |a| % 3 != 0 && b != []
    ensures Encode(a) + Encode(b) != Encode(a + b)
  {
    EncodeLength(a);
    PadFirst(b);
    var g := (|a| + 2) / 3 - 1;
    PadOnlyAtEnd(a, g);
    if Encode(a) + Encode(b) == Encode(a + b) {
      PadOnlyAtEnd(a + b, g);
    }
  }
}
