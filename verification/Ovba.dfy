/** The decompressor for stored VBA source (file_scan.py, section 2.4.1 of [MS-OVBA]).

    `Decode` says for every input what comes out; the nested loops are proved
    to compute it. What makes it the right answer is proved beside it: it
    undoes the encoding of every container of raw and compressed chunks, and
    no input makes a chunk grow to 2^15 bytes. */
module Ovba {

  type Byte = b: int | 0 <= b < 256

  datatype Failure = NotCompressed | BeforeChunk | NegativeShift | TooLong

  datatype Outcome<T> = Done(value: T) | Failed(why: Failure)

  // ---------------------------------------------------------------- integers

  function Pow2(n: nat): (p: nat)
    ensures p > 0
  {
    if n == 0 then 1 else 2 * Pow2(n - 1)
  }

  function Abs(n: int): nat {
    if n < 0 then -n else n
  }

  /** The number of binary digits of n, its sign aside. */
  function BitLength(n: int): nat
    decreases Abs(n)
  {
    if n == 0 then 0 else 1 + BitLength(Abs(n) / 2)
  }

  /** Whether the binary digit of f worth 2^bit is set. */
  predicate BitSet(f: nat, bit: nat) {
    if bit == 0 then f % 2 == 1 else BitSet(f / 2, bit - 1)
  }

  function Word(low: Byte, high: Byte): nat {
    low + 256 * high
  }

  /** How many bits of a copy token hold its offset, once the chunk holds
      `produced` bytes. */
  function OffsetBits(produced: nat): (bits: nat)
    ensures bits >= 4
  {
    if BitLength(produced - 1) < 4 then 4 else BitLength(produced - 1)
  }

  lemma {:induction false} Pow2Mono(m: nat, n: nat)
    requires m <= n
    ensures Pow2(m) <= Pow2(n)
    decreases n
  {
    if m < n { Pow2Mono(m, n - 1); }
  }

  lemma {:induction false} Pow2Add(m: nat, n: nat)
    ensures Pow2(m) * Pow2(n) == Pow2(m + n)
  {
    if m > 0 {
      Pow2Add(m - 1, n);
      DoubleOf(Pow2(m - 1), Pow2(n));
    }
  }

  lemma DoubleOf(x: nat, y: nat)
    ensures (2 * x) * y == 2 * (x * y)
  {
  }

  lemma {:induction false} BitLengthRange(n: nat)
    ensures n < Pow2(BitLength(n))
    ensures n > 0 ==> BitLength(n) > 0 && Pow2(BitLength(n) - 1) <= n
  {
    if n > 0 { BitLengthRange(n / 2); }
  }

  lemma BitLengthAtMost(n: nat, k: nat)
    requires n < Pow2(k)
    ensures BitLength(n) <= k
  {
    BitLengthRange(n);
    var bits := BitLength(n);
    if 0 < bits && k <= bits - 1 { Pow2Mono(k, bits - 1); }
  }

  lemma BitLengthAtLeast(n: nat, k: nat)
    requires Pow2(k) <= n
    ensures BitLength(n) > k
  {
    BitLengthRange(n);
    if BitLength(n) <= k { Pow2Mono(BitLength(n), k); }
  }

  lemma {:induction false} MulGap(p: nat, x: nat, y: nat)
    ensures x > y ==> p * x >= p * y + p
    decreases x
  {
    if x > y {
      MulGap(p, x - 1, y);
      assert p * x == p * (x - 1) + p;
    }
  }

  lemma DivModOf(q: nat, r: nat, p: nat)
    requires r < p
    ensures (q * p + r) / p == q && (q * p + r) % p == r
  {
    var n := q * p + r;
    var d := n / p;
    assert n == p * d + n % p;
    MulGap(p, d, q);
    MulGap(p, q, d);
  }

  // -------------------------------------------------- what a copy token copies

  /** `length` bytes, one after the other, each from `offset` back: a copy
      longer than its offset repeats what it has just written. */
  function CopyBack(out: seq<Byte>, offset: nat, length: nat): seq<Byte>
    requires 1 <= offset <= |out|
    decreases length
  {
    if length == 0 then out else CopyBack(out + [out[|out| - offset]], offset, length - 1)
  }

  ghost predicate IsCopy(out: seq<Byte>, offset: nat, length: nat, r: seq<Byte>) {
    && |r| == |out| + length && r[..|out|] == out
    && forall j | |out| <= j < |r| && offset <= j :: r[j] == r[j - offset]
  }

  lemma {:induction false} CopyBackMeaning(out: seq<Byte>, offset: nat, length: nat)
    requires 1 <= offset <= |out|
    ensures IsCopy(out, offset, length, CopyBack(out, offset, length))
    decreases length
  {
    if length > 0 {
      var next := out + [out[|out| - offset]];
      CopyBackMeaning(next, offset, length - 1);
      var r := CopyBack(out, offset, length);
      assert r[..|out|] == r[..|next|][..|out|];
      assert r[|out|] == r[..|next|][|out|] && r[|out| - offset] == r[..|next|][|out| - offset];
    }
  }

  /** The result of a copy is determined by out[j] = out[j - offset]. */
  lemma {:induction false} CopyIsUnique(out: seq<Byte>, offset: nat, length: nat, r: seq<Byte>)
    requires 1 <= offset <= |out| && IsCopy(out, offset, length, r)
    ensures r == CopyBack(out, offset, length)
    decreases length
  {
    if length == 0 {
    } else {
      var next := out + [out[|out| - offset]];
      assert r[|out| - offset] == r[..|out|][|out| - offset];
      assert r[..|next|] == next;
      CopyIsUnique(next, offset, length - 1, r);
    }
  }

  // ------------------------------------------------------------- the decoding

  /** The low bits of a copy token, past the offset: the length, from 3 up. */
  function CopyLength(word: nat, bits: nat): (length: nat)
    requires bits <= 16
    ensures length >= 3
  {
    word % Pow2(16 - bits) + 3
  }

  lemma DivNotNegative(n: nat, unit: nat)
    requires unit > 0
    ensures n / unit >= 0
  {
  }

  /** The high bits of a copy token: how far back, from 1 up. */
  function CopyOffset(word: nat, bits: nat): (offset: nat)
    requires bits <= 16
    ensures offset >= 1
  {
    var unit := Pow2(16 - bits);
    DivNotNegative(word, unit);
    word / unit + 1
  }

  /** One token: where the next starts, and what the chunk holds then. */
  function Token(data: seq<Byte>, pos: nat, end: nat, copy: bool, out: seq<Byte>)
    : (r: Outcome<(nat, seq<Byte>)>)
    requires pos < end <= |data|
    ensures r.Done? ==> pos < r.value.0 <= end
    ensures r.Failed? ==> r.why == BeforeChunk || r.why == NegativeShift
  {
    if !copy then Done((pos + 1, out + [data[pos]]))
    else if pos + 2 > end then Done((end, out))
    else if OffsetBits(|out|) > 16 then Failed(NegativeShift)
    else
      var (word, bits) := (Word(data[pos], data[pos + 1]), OffsetBits(|out|));
      if CopyOffset(word, bits) > |out| then Failed(BeforeChunk)
      else Done((pos + 2, CopyBack(out, CopyOffset(word, bits), CopyLength(word, bits))))
  }

  /** The tokens of one flag byte, from its bit `bit` on. */
  function Group(data: seq<Byte>, pos: nat, end: nat, flags: nat, bit: nat, out: seq<Byte>)
    : (r: Outcome<(nat, seq<Byte>)>)
    requires pos <= end <= |data| && bit <= 8
    ensures r.Done? ==> pos <= r.value.0 <= end
    ensures r.Failed? ==> r.why == BeforeChunk || r.why == NegativeShift
    decreases 8 - bit
  {
    if bit == 8 || pos == end then Done((pos, out))
    else
      match Token(data, pos, end, BitSet(flags, bit), out)
      case Failed(why) => Failed(why)
      case Done((next, grown)) => Group(data, next, end, flags, bit + 1, grown)
  }

  /** The body of a compressed chunk, `out` being what it gave so far. */
  function Body(data: seq<Byte>, pos: nat, end: nat, out: seq<Byte>): (r: Outcome<seq<Byte>>)
    requires pos <= end <= |data|
    ensures r.Failed? ==> r.why == BeforeChunk || r.why == NegativeShift
    decreases end - pos
  {
    if pos == end then Done(out)
    else
      match Group(data, pos + 1, end, data[pos], 0, out)
      case Failed(why) => Failed(why)
      case Done((next, grown)) => Body(data, next, end, grown)
  }

  function ChunkEnd(data: seq<Byte>, pos: nat): (end: nat)
    requires pos + 2 <= |data|
    ensures pos + 2 <= end <= |data| && end - pos <= 4098
  {
    var end := pos + Word(data[pos], data[pos + 1]) % 0x1000 + 3;
    if end <= |data| then end else |data|
  }

  predicate IsCompressedAt(data: seq<Byte>, pos: nat)
    requires pos + 2 <= |data|
  {
    BitSet(Word(data[pos], data[pos + 1]), 15)
  }

  function RawEnd(data: seq<Byte>, pos: nat): nat {
    if pos + 2 + 4096 <= |data| then pos + 2 + 4096 else |data|
  }

  /** The chunks from `pos` on. */
  function Chunks(data: seq<Byte>, pos: nat, limit: int, out: seq<Byte>): (r: Outcome<seq<Byte>>)
    ensures r != Failed(NotCompressed)
    decreases |data| - pos
  {
    if pos + 2 > |data| then Done(out)
    else if !IsCompressedAt(data, pos) then
      Chunks(data, pos + 2 + 4096, limit, out + data[pos + 2..RawEnd(data, pos)])
    else
      match Body(data, pos + 2, ChunkEnd(data, pos), [])
      case Failed(why) => Failed(why)
      case Done(chunk) =>
        if |out + chunk| > limit then Failed(TooLong)
        else Chunks(data, ChunkEnd(data, pos), limit, out + chunk)
  }

  function Decode(data: seq<Byte>, limit: int): Outcome<seq<Byte>> {
    if data == [] || data[0] != 1 then Failed(NotCompressed) else Chunks(data, 1, limit, [])
  }

  /** One raw or compressed chunk, and what is left. */
  lemma RawStep(data: seq<Byte>, pos: nat, limit: int, out: seq<Byte>)
    requires pos + 2 <= |data| && !IsCompressedAt(data, pos)
    ensures Chunks(data, pos, limit, out) == Chunks(data, pos + 2 + 4096, limit, out + data[pos + 2..RawEnd(data, pos)])
  {
    hide Body, BitSet, ChunkEnd;
  }

  lemma CompressedStep(data: seq<Byte>, pos: nat, limit: int, out: seq<Byte>)
    requires pos + 2 <= |data| && IsCompressedAt(data, pos)
    ensures var body := Body(data, pos + 2, ChunkEnd(data, pos), []);
      Chunks(data, pos, limit, out)
      == if body.Failed? then Failed(body.why)
         else if |out + body.value| > limit then Failed(TooLong)
         else Chunks(data, ChunkEnd(data, pos), limit, out + body.value)
  {
    hide Body, BitSet, ChunkEnd;
  }

  lemma ChunksPastEnd(data: seq<Byte>, pos: nat, beyond: nat, limit: int, out: seq<Byte>)
    requires |data| < pos + 2 && pos <= beyond
    ensures Chunks(data, pos, limit, out) == Chunks(data, beyond, limit, out) == Done(out)
  {
  }

  // The loops of the decompressor, innermost first. Each grows `out`, of which
  // the bytes from `start` on belong to the chunk being read.

  /** Append `length` bytes, each read `offset` back from the end as it grows. */
  method CopyLoop(before: seq<Byte>, start: nat, offset: nat, length: nat) returns (out: seq<Byte>)
    requires 1 <= offset <= |before| - start
    ensures |out| >= |before| && out[..start] == before[..start]
    ensures out[start..] == CopyBack(before[start..], offset, length)
  {
    out := before;
    var src := |out| - offset;
    var i := 0;
    while i < length
      invariant 0 <= i <= length && |out| == src + offset + i && out[..start] == before[..start]
      invariant CopyBack(out[start..], offset, length - i) == CopyBack(before[start..], offset, length)
    {
      ghost var chunk := out[start..];
      assert chunk[|chunk| - offset] == out[src + i];
      out := out + [out[src + i]];
      assert out[start..] == chunk + [chunk[|chunk| - offset]];
      i := i + 1;
    }
  }

  /** One literal or copy token at `pos`. */
  method ReadToken(data: seq<Byte>, pos: nat, chunkEnd: nat, copy: bool, before: seq<Byte>, start: nat)
    returns (r: Outcome<(nat, seq<Byte>)>)
    requires pos < chunkEnd <= |data| && start <= |before|
    ensures match Token(data, pos, chunkEnd, copy, before[start..])
            case Failed(why) => r == Failed(why)
            case Done((next, chunk)) => r == Done((next, before[..start] + chunk))
  {
    assert before == before[..start] + before[start..];
    if !copy {
      assert before + [data[pos]] == before[..start] + (before[start..] + [data[pos]]);
      return Done((pos + 1, before + [data[pos]]));
    }
    if pos + 2 > chunkEnd { return Done((chunkEnd, before)); }
    var word := Word(data[pos], data[pos + 1]);
    var bits := OffsetBits(|before| - start);
    if bits > 16 { return Failed(NegativeShift); }
    var length := CopyLength(word, bits);
    var offset := CopyOffset(word, bits);
    var src := |before| - offset;
    if src < start { return Failed(BeforeChunk); }
    var out := CopyLoop(before, start, offset, length);
    assert out == before[..start] + out[start..];
    return Done((pos + 2, out));
  }

  /** The up to eight tokens of one flag byte. */
  method GroupLoop(data: seq<Byte>, from: nat, chunkEnd: nat, flags: nat, before: seq<Byte>, start: nat)
    returns (r: Outcome<(nat, seq<Byte>)>)
    requires from <= chunkEnd <= |data| && start <= |before|
    ensures match Group(data, from, chunkEnd, flags, 0, before[start..])
            case Failed(why) => r == Failed(why)
            case Done((next, chunk)) => r == Done((next, before[..start] + chunk))
  {
    var out, pos, bit := before, from, 0;
    ghost var chunk := before[start..];
    assert before == before[..start] + chunk;
    while bit < 8
      invariant 0 <= bit <= 8 && 0 <= pos <= chunkEnd && out == before[..start] + chunk
      invariant Group(data, pos, chunkEnd, flags, bit, chunk) == Group(data, from, chunkEnd, flags, 0, before[start..])
    {
      if pos >= chunkEnd { break; }
      assert out[start..] == chunk && out[..start] == before[..start];
      var token := ReadToken(data, pos, chunkEnd, BitSet(flags, bit), out, start);
      if token.Failed? { return token; }
      chunk := Token(data, pos, chunkEnd, BitSet(flags, bit), chunk).value.1;
      pos, out := token.value.0, token.value.1;
      bit := bit + 1;
    }
    return Done((pos, out));
  }

  /** The flag bytes of one compressed chunk, each with its tokens. */
  method BodyLoop(data: seq<Byte>, from: nat, chunkEnd: nat, before: seq<Byte>) returns (r: Outcome<seq<Byte>>)
    requires from <= chunkEnd <= |data|
    ensures match Body(data, from, chunkEnd, [])
            case Failed(why) => r == Failed(why)
            case Done(chunk) => r == Done(before + chunk)
  {
    hide Group;
    var out, pos, start := before, from, |before|;
    ghost var chunk: seq<Byte> := [];
    while pos < chunkEnd
      invariant pos <= chunkEnd && out == before + chunk
      invariant Body(data, pos, chunkEnd, chunk) == Body(data, from, chunkEnd, [])
    {
      assert out[start..] == chunk && out[..start] == before;
      var group := GroupLoop(data, pos + 1, chunkEnd, data[pos], out, start);
      if group.Failed? { return Failed(group.why); }
      chunk := Group(data, pos + 1, chunkEnd, data[pos], 0, chunk).value.1;
      pos, out := group.value.0, group.value.1;
    }
    return Done(out);
  }

  lemma NotCompressedIff(data: seq<Byte>, limit: int)
    ensures Decode(data, limit) == Failed(NotCompressed) <==> data == [] || data[0] != 1
    ensures data != [] && data[0] == 1 ==> Decode(data, limit) == Chunks(data, 1, limit, [])
  {
  }

  /** The decompressor itself. That it verifies means every read lies inside
      `data` or inside what the chunk has produced, and that it ends. */
  method OvbaDecompress(data: seq<Byte>, limit: int) returns (r: Outcome<seq<Byte>>)
    ensures r == Decode(data, limit)
    ensures r == Failed(NotCompressed) <==> data == [] || data[0] != 1
  {
    NotCompressedIff(data, limit);
    if data == [] || data[0] != 1 { return Failed(NotCompressed); }
    hide BitSet, Body, ChunkEnd, Chunks, Decode;
    var out: seq<Byte> := [];
    var pos := 1;
    while pos + 2 <= |data|
      invariant pos >= 1 && Chunks(data, pos, limit, out) == Decode(data, limit)
      decreases |data| - pos
    {
      var chunkEnd := ChunkEnd(data, pos);
      if !IsCompressedAt(data, pos) {
        RawStep(data, pos, limit, out);
        out := out + data[pos + 2..RawEnd(data, pos)];
        pos := pos + 2 + 4096;
        continue;
      }
      CompressedStep(data, pos, limit, out);
      var grown := BodyLoop(data, pos + 2, chunkEnd, out);
      if grown.Failed? { return grown; }
      out, pos := grown.value, chunkEnd;
      if |out| > limit { return Failed(TooLong); }
    }
    ChunksPastEnd(data, pos, pos, limit, out);
    return Done(out);
  }
}
