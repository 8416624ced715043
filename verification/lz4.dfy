/**
 * The LZ4 block decoder: what it accepts, what it returns, and that it stays
 * inside both buffers.
 */
module Lz4 {
  import opened Rows

  newtype Byte = x: int | 0 <= x < 256

  type Bytes = seq<Byte>

  const MIN_MATCH := 4

  const UINT32 := 0x1_0000_0000

  // Blocks, as section "Compressed block format" of the LZ4 Block Format Description has them.

  /** Literals, then `length` bytes copied from `offset` back. */
  datatype Sequence = Sequence(literals: Bytes, offset: int, length: int) {
    predicate Valid() { 1 <= offset < 0x1_0000 && length >= MIN_MATCH }
  }

  /** The last literals, with no match; `low` is the nibble no match uses. */
  datatype Tail = Tail(literals: Bytes, low: int) {
    predicate Valid() { 0 <= low < 16 }
  }

  datatype Block = Block(sequences: seq<Sequence>, tail: Option<Tail>) {
    predicate Valid() {
      && (forall i :: 0 <= i < |sequences| ==> sequences[i].Valid())
      && (tail.Some? ==> tail.value.Valid())
    }

    function Rest(): Block
      requires |sequences| > 0
    {
      Block(sequences[1..], tail)
    }
  }

  /** The bytes past a nibble of 15: runs of 255, then what is left. */
  function Extension(n: nat): (e: Bytes)
    ensures |e| >= 1
  {
    if n < 255 then [n as Byte] else [255] + Extension(n - 255)
  }

  function Nibble(n: nat): int { if n < 15 then n else 15 }

  function LengthBytes(n: nat): Bytes { if n < 15 then [] else Extension(n - 15) }

  function Token(literals: nat, low: int): Byte
    requires 0 <= low < 16
  {
    (Nibble(literals) * 16 + low) as Byte
  }

  function LiteralPart(literals: Bytes, low: int): Bytes
    requires 0 <= low < 16
  {
    [Token(|literals|, low)] + LengthBytes(|literals|) + literals
  }

  function MatchPart(offset: int, length: int): Bytes
    requires 0 <= offset < 0x1_0000 && length >= MIN_MATCH
  {
    [(offset % 256) as Byte, (offset / 256) as Byte] + LengthBytes(length - MIN_MATCH)
  }

  function EncodeSequence(q: Sequence): Bytes
    requires q.Valid()
  {
    LiteralPart(q.literals, Nibble(q.length - MIN_MATCH)) + MatchPart(q.offset, q.length)
  }

  function Encode(b: Block): Bytes
    requires b.Valid()
    decreases |b.sequences|
  {
    if |b.sequences| > 0 then EncodeSequence(b.sequences[0]) + Encode(b.Rest())
    else if b.tail.Some? then LiteralPart(b.tail.value.literals, b.tail.value.low)
    else []
  }

  /** `length` bytes from `offset` back, one at a time: a match may overlap what it writes. */
  function CopyMatch(out: Bytes, offset: int, length: nat): (r: Bytes)
    requires 1 <= offset <= |out|
    ensures |r| == |out| + length && r[..|out|] == out
  {
    if length == 0 then out
    else
      var o := CopyMatch(out, offset, length - 1);
      assert (o + [o[|o| - offset]])[..|out|] == o[..|out|];
      o + [o[|o| - offset]]
  }

  datatype Result = Ok(bytes: Bytes) | Corrupt | Full

  /** What a block stands for after `out`, unless a match starts before the output or it outgrows `cap`. */
  function Expand(b: Block, out: Bytes, cap: nat): Result
    requires b.Valid()
    decreases |b.sequences|
  {
    if |b.sequences| > 0 then
      var q := b.sequences[0];
      var o := out + q.literals;
      if |q.literals| > 0 && |o| > cap then Full
      else if |o| + q.length > cap then Full
      else if q.offset > |o| then Corrupt
      else Expand(b.Rest(), CopyMatch(o, q.offset, q.length), cap)
    else if b.tail.Some? then
      if |b.tail.value.literals| > 0 && |out| + |b.tail.value.literals| > cap then Full
      else Ok(out + b.tail.value.literals)
    else Ok(out)
  }

  // The decoder.

  datatype Length = Length(n: nat, next: nat)

  /** Adds extension bytes from ip on to n; None past the end of the input. */
  function ReadLength(src: Bytes, ip: nat, n: nat): (r: Option<Length>)
    ensures r.Some? ==> ip < r.value.next <= |src| && n <= r.value.n <= n + 255 * (r.value.next - ip)
    decreases |src| - ip
  {
    if ip >= |src| then None
    else if src[ip] == 255 then ReadLength(src, ip + 1, n + 255)
    else Some(Length(n + src[ip] as int, ip + 1))
  }

  /** A length whose nibble is `nibble`, counted from `least`. */
  function ReadNibble(src: Bytes, ip: nat, nibble: nat, least: nat): (r: Option<Length>)
    ensures r.Some? ==> ip <= r.value.next && (ip <= |src| ==> r.value.next <= |src|)
  {
    if nibble == 15 then ReadLength(src, ip, nibble + least) else Some(Length(nibble + least, ip))
  }

  /** Decodes src from ip on, after the output so far. */
  function Decode(src: Bytes, ip: nat, out: Bytes, cap: nat): Result
    requires |out| <= cap
    decreases |src| - ip
  {
    if ip >= |src| then Ok(out)
    else
      var token := src[ip] as int;
      match ReadNibble(src, ip + 1, token / 16, 0)
      case None => Corrupt
      case Some(Length(l, p)) =>
        if l > 0 && p + l > |src| then Corrupt
        else if l > 0 && |out| + l > cap then Full
        else if p + l >= |src| then Ok(out + src[p..p + l])
        else DecodeMatch(src, ip, p + l, out + src[p..p + l], token % 16, cap)
  }

  /** The match of a sequence that starts at ip, from p on. */
  function DecodeMatch(src: Bytes, ip: nat, p: nat, out: Bytes, low: nat, cap: nat): Result
    requires ip < p < |src| && |out| <= cap
    decreases |src| - ip, 0
  {
    if p + 2 > |src| then Corrupt
    else
      var offset := src[p] as int + 256 * (src[p + 1] as int);
      if offset == 0 then Corrupt
      else
        match ReadNibble(src, p + 2, low, MIN_MATCH)
        case None => Corrupt
        case Some(Length(m, next)) =>
          if |out| + m > cap then Full
          else if offset > |out| then Corrupt
          else Decode(src, next, CopyMatch(out, offset, m), cap)
  }

  /**
   * The decoder as it runs: two cursors over two buffers, lengths in 32 bits.
   * Under the bound on the source no length wraps, and every read and write is
   * inside its buffer. Bytes of dst past the result may have been written.
   */
  method Decompress(src: array<Byte>, dst: array<Byte>) returns (r: Result)
    requires src != dst && 255 * src.Length + 19 < UINT32
    modifies dst
    ensures src[..] == old(src[..])
    ensures r == Decode(src[..], 0, [], dst.Length)
    ensures r.Ok? ==> |r.bytes| <= dst.Length && dst[..|r.bytes|] == r.bytes
  {
    hide DecodeMatch, ReadNibble;
    ghost var s := src[..];
    var ip, op := 0, 0;
    while ip < src.Length
      invariant 0 <= ip <= src.Length && 0 <= op <= dst.Length && src[..] == s
      invariant Decode(s, 0, [], dst.Length) == Decode(s, ip, dst[..op], dst.Length)
      decreases src.Length - ip
    {
      ghost var start := ip;
      var token := src[ip] as int;
      var end: Option<Result>;
      end, ip, op := Literals(src, dst, ip, op);
      if end.Some? { return end.value; }
      end, ip, op := Match(src, dst, start, ip, op, token % 16);
      if end.Some? { return end.value; }
    }
    return Ok(dst[..op]);
  }

  /** The token and literals of the sequence at ip; ends the block at a fault or after the last literals. */
  method Literals(src: array<Byte>, dst: array<Byte>, start: nat, op0: nat) returns (end: Option<Result>, ip: nat, op: nat)
    requires src != dst && 255 * src.Length + 19 < UINT32 && start < src.Length && op0 <= dst.Length
    modifies dst
    ensures src[..] == old(src[..])
    ensures end.Some? ==> Decode(src[..], start, old(dst[..op0]), dst.Length) == end.value
    ensures end.Some? && end.value.Ok? ==> |end.value.bytes| <= dst.Length && dst[..|end.value.bytes|] == end.value.bytes
    ensures end.None? ==> start < ip < src.Length && op <= dst.Length
    ensures end.None? ==>
      Decode(src[..], start, old(dst[..op0]), dst.Length) == DecodeMatch(src[..], start, ip, dst[..op], src[start] as int % 16, dst.Length)
  {
    hide DecodeMatch, ReadNibble;
    var token := src[start] as int;
    var ok, litLen;
    op := op0;
    ok, litLen, ip := ReadExtended(src, start + 1, token / 16, 0);
    if !ok { return Some(Corrupt), ip, op; }
    if litLen > 0 {
      if ip + litLen > src.Length { return Some(Corrupt), ip, op; }
      if op + litLen > dst.Length { return Some(Full), ip, op; }
      CopyLiterals(src, dst, ip, op, litLen);
    }
    assert dst[..op + litLen] == old(dst[..op0]) + src[..][ip..ip + litLen];
    ip := ip + litLen;
    op := op + litLen;
    if ip >= src.Length { return Some(Ok(dst[..op])), ip, op; }
    return None, ip, op;
  }

  /** The offset and match from ip on of the sequence that starts at `start`. */
  method Match(src: array<Byte>, dst: array<Byte>, ghost start: nat, ip0: nat, op0: nat, low: nat)
    returns (end: Option<Result>, ip: nat, op: nat)
    requires src != dst && 255 * src.Length + 19 < UINT32 && start < ip0 < src.Length && op0 <= dst.Length && low < 16
    modifies dst
    ensures src[..] == old(src[..])
    ensures end.Some? ==> !end.value.Ok? && DecodeMatch(src[..], start, ip0, old(dst[..op0]), low, dst.Length) == end.value
    ensures end.None? ==> start < ip <= src.Length && op <= dst.Length
    ensures end.None? ==> DecodeMatch(src[..], start, ip0, old(dst[..op0]), low, dst.Length) == Decode(src[..], ip, dst[..op], dst.Length)
  {
    hide Decode, ReadNibble;
    ip, op := ip0, op0;
    if ip + 2 > src.Length { return Some(Corrupt), ip, op; }
    var offset := src[ip] as int + 256 * (src[ip + 1] as int);
    ip := ip + 2;
    if offset == 0 { return Some(Corrupt), ip, op; }
    var ok, matchLen;
    ok, matchLen, ip := ReadExtended(src, ip, low, MIN_MATCH);
    if !ok { return Some(Corrupt), ip, op; }
    if op + matchLen > dst.Length { return Some(Full), ip, op; }
    if offset > op { return Some(Corrupt), ip, op; }
    CopyBack(dst, op, offset, matchLen);
    op := op + matchLen;
    return None, ip, op;
  }

  /** A length's extension bytes, added up in 32 bits. */
  method ReadExtended(src: array<Byte>, ip: nat, nibble: nat, least: nat) returns (ok: bool, n: nat, next: nat)
    requires ip <= src.Length && nibble <= 15 && least <= MIN_MATCH && 255 * src.Length + 19 < UINT32
    ensures ok <==> ReadNibble(src[..], ip, nibble, least).Some?
    ensures ok ==> ReadNibble(src[..], ip, nibble, least) == Some(Length(n, next)) && ip <= next <= src.Length
  {
    n, next, ok := nibble + least, ip, true;
    if nibble == 15 {
      var more := true;
      while more
        invariant ip <= next <= src.Length && n <= 19 + 255 * (next - ip)
        invariant more ==> ReadLength(src[..], ip, nibble + least) == ReadLength(src[..], next, n)
        invariant !more ==> ReadLength(src[..], ip, nibble + least) == Some(Length(n, next))
        decreases src.Length - next, more
      {
        if next >= src.Length { return false, n, next; }
        var extra := src[next] as int;
        next := next + 1;
        n := (n + extra) % UINT32;
        more := extra == 255;
      }
    }
  }

  method CopyLiterals(src: array<Byte>, dst: array<Byte>, ip: nat, op: nat, n: nat)
    requires src != dst && ip + n <= src.Length && op + n <= dst.Length
    modifies dst
    ensures dst[..op + n] == old(dst[..op]) + src[ip..ip + n]
  {
    for i := 0 to n
      invariant dst[..op + i] == old(dst[..op]) + src[ip..ip + i]
    {
      dst[op + i] := src[ip + i];
    }
  }

  /** Byte by byte, so an overlapping match repeats what it wrote. */
  method CopyBack(dst: array<Byte>, op: nat, offset: nat, n: nat)
    requires 1 <= offset <= op && op + n <= dst.Length
    modifies dst
    ensures dst[..op + n] == CopyMatch(old(dst[..op]), offset, n)
  {
    for i := 0 to n
      invariant dst[..op + i] == CopyMatch(old(dst[..op]), offset, i)
    {
      ghost var so := dst[..op + i];
      dst[op + i] := dst[op - offset + i];
      assert dst[..op + i + 1] == so + [so[|so| - offset]];
    }
  }

  // The format, byte by byte.

  /** A sequence of fewer than 15 literals and a short match: one token, the literals, and the offset low byte first. */
  lemma ShortSequence(src: Bytes, ip: nat, literals: Bytes, low: nat, lo: Byte, hi: Byte, out: Bytes, cap: nat)
    requires |literals| < 15 && low < 15 && At(src, ip, [(|literals| * 16 + low) as Byte] + literals + [lo, hi])
    requires |out| <= cap
    ensures Decode(src, ip, out, cap) ==
      var offset, o := lo as int + 256 * (hi as int), out + literals;
      if |literals| > 0 && |o| > cap then Full
      else if |o| > cap - low - 4 && offset != 0 then Full
      else if offset == 0 || offset > |o| then Corrupt
      else Decode(src, ip + 3 + |literals|, CopyMatch(o, offset, low + 4), cap)
  {
    hide At, CopyMatch, ReadLength;
    var p := ip + 1 + |literals|;
    AtSplit(src, ip, [(|literals| * 16 + low) as Byte] + literals, [lo, hi]);
    AtSplit(src, ip, [(|literals| * 16 + low) as Byte], literals);
    AtIs(src, ip, [(|literals| * 16 + low) as Byte]);
    AtIs(src, ip + 1, literals);
    AtIs(src, p, [lo, hi]);
    assert src[ip..ip + 1][0] == src[ip] && src[p..p + 2][0] == src[p] && src[p..p + 2][1] == src[p + 1];
    DivUnique(|literals| * 16 + low, |literals|, low, 16);
  }

  /** A nibble of 15 is carried on by bytes of 255 and one that is less. */
  lemma {:induction false} LongLength(src: Bytes, ip: nat, k: nat, least: nat)
    requires ip + k < |src| && (forall i :: ip <= i < ip + k ==> src[i] == 255) && src[ip + k] != 255
    ensures ReadNibble(src, ip, 15, least) == Some(Length(least + 15 + 255 * k + src[ip + k] as int, ip + k + 1))
  {
    RunLength(src, ip, k, 15 + least);
  }

  lemma {:induction false} RunLength(src: Bytes, ip: nat, k: nat, n: nat)
    requires ip + k < |src| && (forall i :: ip <= i < ip + k ==> src[i] == 255) && src[ip + k] != 255
    ensures ReadLength(src, ip, n) == Some(Length(n + 255 * k + src[ip + k] as int, ip + k + 1))
    decreases k
  {
    if k > 0 { RunLength(src, ip + 1, k - 1, n + 255); }
  }

  // Round trips.

  /** src has `bytes` at ip. */
  predicate At(src: Bytes, ip: nat, bytes: Bytes) {
    ip + |bytes| <= |src| && src[ip..ip + |bytes|] == bytes
  }

  lemma AtSplit(src: Bytes, ip: nat, a: Bytes, b: Bytes)
    ensures At(src, ip, a + b) <==> At(src, ip, a) && At(src, ip + |a|, b)
  {
    if At(src, ip, a) && At(src, ip + |a|, b) {
      assert src[ip..ip + |a + b|] == src[ip..ip + |a|] + src[ip + |a|..ip + |a| + |b|];
    }
    if At(src, ip, a + b) {
      assert src[ip..ip + |a|] == src[ip..ip + |a + b|][..|a|];
      assert src[ip + |a|..ip + |a| + |b|] == src[ip..ip + |a + b|][|a|..];
    }
  }

  lemma {:induction false} ReadExtension(src: Bytes, ip: nat, n: nat, m: nat)
    requires At(src, ip, Extension(n))
    ensures ReadLength(src, ip, m) == Some(Length(m + n, ip + |Extension(n)|))
    decreases n
  {
    assert src[ip] == Extension(n)[0];
    if n >= 255 {
      AtSplit(src, ip, [255], Extension(n - 255));
      ReadExtension(src, ip + 1, n - 255, m + 255);
    }
  }

  lemma ReadLengthBytes(src: Bytes, ip: nat, n: nat, least: nat)
    requires At(src, ip, LengthBytes(n))
    ensures ReadNibble(src, ip, Nibble(n), least) == Some(Length(n + least, ip + |LengthBytes(n)|))
  {
    if n >= 15 { ReadExtension(src, ip, n - 15, 15 + least); }
  }

  /** The token, length and literals at ip are read back. */
  lemma ReadLiteralPart(src: Bytes, ip: nat, literals: Bytes, low: int)
    requires 0 <= low < 16 && At(src, ip, LiteralPart(literals, low))
    ensures ip < |src| && src[ip] as int / 16 == Nibble(|literals|) && src[ip] as int % 16 == low
    ensures var p := ip + 1 + |LengthBytes(|literals|)|;
      && ReadNibble(src, ip + 1, Nibble(|literals|), 0) == Some(Length(|literals|, p))
      && At(src, p, literals) && p + |literals| == ip + |LiteralPart(literals, low)|
  {
    hide At, LengthBytes, ReadNibble;
    var token, more := [Token(|literals|, low)], LengthBytes(|literals|);
    AtSplit(src, ip, token + more, literals);
    AtSplit(src, ip, token, more);
    AtIs(src, ip, token);
    AtIs(src, ip + 1, more);
    assert src[ip..ip + 1][0] == src[ip];
    ReadLengthBytes(src, ip + 1, |literals|, 0);
  }

  lemma ReadMatchPart(src: Bytes, p: nat, offset: int, length: int)
    requires 0 <= offset < 0x1_0000 && length >= MIN_MATCH && At(src, p, MatchPart(offset, length))
    ensures p + 2 <= |src| && src[p] as int + 256 * (src[p + 1] as int) == offset
    ensures ReadNibble(src, p + 2, Nibble(length - MIN_MATCH), MIN_MATCH) == Some(Length(length, p + |MatchPart(offset, length)|))
  {
    var two := [(offset % 256) as Byte, (offset / 256) as Byte];
    AtSplit(src, p, two, LengthBytes(length - MIN_MATCH));
    assert src[p..p + 2][0] == src[p] && src[p..p + 2][1] == src[p + 1];
    ReadLengthBytes(src, p + 2, length - MIN_MATCH, MIN_MATCH);
  }

  lemma AtIs(src: Bytes, p: nat, bytes: Bytes)
    requires At(src, p, bytes)
    ensures p + |bytes| <= |src| && src[p..p + |bytes|] == bytes
  {}

  /** The decoder on literals that a match follows, or that end the block. */
  lemma DecodeLiterals(src: Bytes, ip: nat, literals: Bytes, low: int, out: Bytes, cap: nat)
    requires 0 <= low < 16 && |out| <= cap && At(src, ip, LiteralPart(literals, low))
    ensures var p := ip + |LiteralPart(literals, low)|;
      && ip < p <= |src|
      && Decode(src, ip, out, cap) ==
         if |literals| > 0 && |out| + |literals| > cap then Full
         else if p == |src| then Ok(out + literals)
         else DecodeMatch(src, ip, p, out + literals, low, cap)
  {
    hide ReadNibble, LiteralPart, LengthBytes, At, DecodeMatch;
    ReadLiteralPart(src, ip, literals, low);
    AtIs(src, ip + 1 + |LengthBytes(|literals|)|, literals);
  }

  /** The decoder on a match. */
  lemma DecodeMatchBytes(src: Bytes, ip: nat, p: nat, offset: int, length: int, out: Bytes, low: nat, cap: nat)
    requires 1 <= offset < 0x1_0000 && length >= MIN_MATCH && low == Nibble(length - MIN_MATCH)
    requires ip < p < |src| && |out| <= cap && At(src, p, MatchPart(offset, length))
    ensures DecodeMatch(src, ip, p, out, low, cap) ==
      if |out| + length > cap then Full
      else if offset > |out| then Corrupt
      else Decode(src, p + |MatchPart(offset, length)|, CopyMatch(out, offset, length), cap)
  {
    hide ReadNibble, MatchPart, At, Decode, CopyMatch;
    ReadMatchPart(src, p, offset, length);
  }

  /** Decoding an encoded block expands it. */
  lemma {:induction false} DecodeEncoded(src: Bytes, ip: nat, b: Block, out: Bytes, cap: nat)
    requires b.Valid() && |out| <= cap && At(src, ip, Encode(b)) && ip + |Encode(b)| == |src|
    ensures Decode(src, ip, out, cap) == Expand(b, out, cap)
    decreases |b.sequences|
  {
    hide LiteralPart, MatchPart, At, DecodeMatch, CopyMatch;
    if |b.sequences| > 0 {
      var q := b.sequences[0];
      var low := Nibble(q.length - MIN_MATCH);
      assert Encode(b) == LiteralPart(q.literals, low) + (MatchPart(q.offset, q.length) + Encode(b.Rest()));
      AtSplit(src, ip, LiteralPart(q.literals, low), MatchPart(q.offset, q.length) + Encode(b.Rest()));
      DecodeLiterals(src, ip, q.literals, low, out, cap);
      var p := ip + |LiteralPart(q.literals, low)|;
      AtSplit(src, p, MatchPart(q.offset, q.length), Encode(b.Rest()));
      MatchPartSize(q.offset, q.length);
      var o := out + q.literals;
      if |o| <= cap {
        DecodeMatchBytes(src, ip, p, q.offset, q.length, o, low, cap);
        if |o| + q.length <= cap && q.offset <= |o| {
          DecodeEncoded(src, p + |MatchPart(q.offset, q.length)|, b.Rest(), CopyMatch(o, q.offset, q.length), cap);
        }
      }
    } else if b.tail.Some? {
      DecodeLiterals(src, ip, b.tail.value.literals, b.tail.value.low, out, cap);
    }
  }

  lemma MatchPartSize(offset: int, length: int)
    requires 0 <= offset < 0x1_0000 && length >= MIN_MATCH
    ensures |MatchPart(offset, length)| >= 2
  {}

  /** Whole round trip: the decoder returns a block's expansion when it fits, and refuses exactly what cannot be expanded. */
  lemma RoundTrip(b: Block, cap: nat)
    requires b.Valid()
    ensures Decode(Encode(b), 0, [], cap) == Expand(b, [], cap)
  {
    assert Encode(b)[0..|Encode(b)|] == Encode(b);
    DecodeEncoded(Encode(b), 0, b, [], cap);
  }

  lemma {:induction false} LengthRead(src: Bytes, ip: nat, n: nat)
    requires ReadLength(src, ip, n).Some?
    ensures var r := ReadLength(src, ip, n).value;
      At(src, ip, Extension(r.n - n)) && r.next == ip + |Extension(r.n - n)|
    decreases |src| - ip
  {
    var r := ReadLength(src, ip, n).value;
    if src[ip] == 255 {
      LengthRead(src, ip + 1, n + 255);
      assert Extension(r.n - n) == [255] + Extension(r.n - n - 255);
      assert src[ip..ip + 1] == [255];
      AtSplit(src, ip, [255], Extension(r.n - n - 255));
    }
  }

  lemma NibbleRead(src: Bytes, ip: nat, nibble: nat, least: nat)
    requires nibble < 16 && ip <= |src| && ReadNibble(src, ip, nibble, least).Some?
    ensures var r := ReadNibble(src, ip, nibble, least).value;
      && r.n >= least && Nibble(r.n - least) == nibble
      && At(src, ip, LengthBytes(r.n - least)) && r.next == ip + |LengthBytes(r.n - least)|
  {
    if nibble == 15 { LengthRead(src, ip, nibble + least); }
  }

  /** Everything the decoder accepts is the encoding of a block. */
  lemma {:induction false} AcceptedIsEncoding(src: Bytes, ip: nat, out: Bytes, cap: nat) returns (b: Block)
    requires |out| <= cap && ip <= |src| && Decode(src, ip, out, cap).Ok?
    ensures b.Valid() && At(src, ip, Encode(b)) && ip + |Encode(b)| == |src|
    decreases |src| - ip
  {
    hide ReadNibble, LengthBytes;
    if ip == |src| { return Block([], None); }
    var token := src[ip] as int;
    var r := ReadNibble(src, ip + 1, token / 16, 0).value;
    NibbleRead(src, ip + 1, token / 16, 0);
    var p := r.next + r.n;
    var literals := src[r.next..p];
    var low := token % 16;
    assert src[ip..ip + 1] == [Token(|literals|, low)];
    AtSplit(src, ip, [Token(|literals|, low)], LengthBytes(|literals|));
    AtSplit(src, ip, [Token(|literals|, low)] + LengthBytes(|literals|), literals);
    if p >= |src| {
      b := Block([], Some(Tail(literals, low)));
      return;
    }
    b := AcceptedMatch(src, ip, p, literals, out + literals, low, cap);
  }

  lemma AcceptedMatch(src: Bytes, ip: nat, p: nat, literals: Bytes, out: Bytes, low: nat, cap: nat) returns (b: Block)
    requires ip < p < |src| && |out| <= cap && low < 16 && DecodeMatch(src, ip, p, out, low, cap).Ok?
    requires At(src, ip, LiteralPart(literals, low)) && p == ip + |LiteralPart(literals, low)|
    ensures b.Valid() && At(src, ip, Encode(b)) && ip + |Encode(b)| == |src|
    decreases |src| - ip, 0
  {
    hide ReadNibble, LengthBytes, LiteralPart, At, CopyMatch;
    var offset := src[p] as int + 256 * (src[p + 1] as int);
    var m := ReadNibble(src, p + 2, low, MIN_MATCH).value;
    NibbleRead(src, p + 2, low, MIN_MATCH);
    var rest := AcceptedIsEncoding(src, m.next, CopyMatch(out, offset, m.n), cap);
    var q := Sequence(literals, offset, m.n);
    b := Block([q] + rest.sequences, rest.tail);
    assert b.Rest() == rest;
    TwoBytes(src, p, offset);
    AtSplit(src, p, [(offset % 256) as Byte, (offset / 256) as Byte], LengthBytes(m.n - MIN_MATCH));
    AtSplit(src, ip, LiteralPart(literals, low), MatchPart(offset, m.n));
    AtSplit(src, ip, EncodeSequence(q), Encode(rest));
  }

  lemma TwoBytes(src: Bytes, p: nat, offset: int)
    requires p + 2 <= |src| && offset == src[p] as int + 256 * (src[p + 1] as int)
    ensures 0 <= offset < 0x1_0000 && At(src, p, [(offset % 256) as Byte, (offset / 256) as Byte])
  {
    assert src[p..p + 2] == [src[p], src[p + 1]];
  }

  /** Bytes a block stands for. */
  function Size(b: Block): nat
    requires b.Valid()
    decreases |b.sequences|
  {
    if |b.sequences| > 0 then |b.sequences[0].literals| + b.sequences[0].length + Size(b.Rest())
    else if b.tail.Some? then |b.tail.value.literals| else 0
  }

  /** No match starts before the output, `n` bytes of which are there already. */
  predicate OffsetsReach(b: Block, n: nat)
    requires b.Valid()
    decreases |b.sequences|
  {
    |b.sequences| > 0 ==>
      var q := b.sequences[0];
      q.offset <= n + |q.literals| && OffsetsReach(b.Rest(), n + |q.literals| + q.length)
  }

  /** A block expands exactly when it fits and no match starts before the output, to as many bytes as it stands for. */
  lemma {:induction false} ExpandsWhenFits(b: Block, out: Bytes, cap: nat)
    requires b.Valid() && |out| <= cap
    ensures Expand(b, out, cap).Ok? <==> OffsetsReach(b, |out|) && |out| + Size(b) <= cap
    ensures Expand(b, out, cap).Ok? ==> |Expand(b, out, cap).bytes| == |out| + Size(b)
    decreases |b.sequences|
  {
    if |b.sequences| > 0 {
      var q := b.sequences[0];
      var o := out + q.literals;
      if |o| + q.length <= cap && q.offset <= |o| { ExpandsWhenFits(b.Rest(), CopyMatch(o, q.offset, q.length), cap); }
    }
  }

  /** Every byte of a match is the byte `offset` before it, also where the match overlaps itself. */
  lemma {:induction false} MatchRepeats(out: Bytes, offset: int, length: nat, i: nat)
    requires 1 <= offset <= |out| && i < length
    ensures CopyMatch(out, offset, length)[|out| + i] == CopyMatch(out, offset, length)[|out| + i - offset]
  {
    if i < length - 1 { MatchRepeats(out, offset, length - 1, i); }
  }

  /** The decoder accepts exactly the encodings of blocks that expand within `cap`, and returns the expansion. */
  lemma DecodesExactly(src: Bytes, out: Bytes, cap: nat)
    ensures Decode(src, 0, [], cap) == Ok(out) <==> exists b: Block :: b.Valid() && Encode(b) == src && Expand(b, [], cap) == Ok(out)
  {
    if Decode(src, 0, [], cap) == Ok(out) {
      var b := AcceptedIsEncoding(src, 0, [], cap);
      assert src[0..|src|] == src;
      RoundTrip(b, cap);
    }
    forall b: Block | b.Valid() && Encode(b) == src ensures Decode(src, 0, [], cap) == Expand(b, [], cap) { RoundTrip(b, cap); }
  }
}
