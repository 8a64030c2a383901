/** The compressed container format (section 2.4.1 of [MS-OVBA]) from the
    writing side, and what the decoder owes it. */
module OvbaFormat {
  import opened Ovba

  // ------------------------------------------------- bounds, for every input

  /** What a chunk can hold after `consumed` bytes of its body. */
  function Ceiling(consumed: nat): nat {
    8194 + 5 * consumed
  }

  lemma Pow2Values()
    ensures Pow2(3) == 8 && Pow2(12) == 0x1000 && Pow2(15) == 0x8000 && Pow2(16) == 0x10000
  {
    assert Pow2(8) == 0x100;
    assert Pow2(12) == 16 * Pow2(8);
    assert Pow2(15) == 8 * Pow2(12);
  }

  lemma {:induction false} CopyBackLength(out: seq<Byte>, offset: nat, length: nat)
    requires 1 <= offset <= |out|
    ensures |CopyBack(out, offset, length)| == |out| + length
  {
    CopyBackMeaning(out, offset, length);
  }

  /** Once a chunk holds more than 4096 bytes a copy is at most 10 long. */
  lemma CopyLengthBound(word: nat, produced: nat)
    requires OffsetBits(produced) <= 16
    ensures CopyLength(word, OffsetBits(produced)) <= if produced <= 4096 then 4098 else 10
  {
    var bits := OffsetBits(produced);
    Pow2Mono(16 - bits, 12);
    Pow2Values();
    if produced > 4096 {
      BitLengthAtLeast(produced - 1, 12);
      Pow2Mono(16 - bits, 3);
    }
  }

  lemma OffsetBitsBound(produced: nat)
    requires produced <= 0x8000
    ensures OffsetBits(produced) <= 15
  {
    Pow2Values();
    if produced > 0 { BitLengthAtMost(produced - 1, 15); }
  }

  lemma TokenBound(data: seq<Byte>, from: nat, pos: nat, end: nat, copy: bool, out: seq<Byte>)
    requires from <= pos < end <= |data| && end - from <= 4096
    requires |out| <= Ceiling(pos - from)
    ensures OffsetBits(|out|) <= 15
    ensures var r := Token(data, pos, end, copy, out);
      r != Failed(NegativeShift) && (r.Done? ==> |r.value.1| <= Ceiling(r.value.0 - from))
  {
    OffsetBitsBound(|out|);
    if copy && pos + 2 <= end {
      var word := Word(data[pos], data[pos + 1]);
      CopyLengthBound(word, |out|);
      if CopyOffset(word, OffsetBits(|out|)) <= |out| {
        CopyBackLength(out, CopyOffset(word, OffsetBits(|out|)), CopyLength(word, OffsetBits(|out|)));
      }
    }
  }

  lemma {:induction false} GroupBound(data: seq<Byte>, from: nat, pos: nat, end: nat, flags: nat, bit: nat,
                                      out: seq<Byte>)
    requires from <= pos <= end <= |data| && end - from <= 4096 && bit <= 8
    requires |out| <= Ceiling(pos - from)
    ensures var r := Group(data, pos, end, flags, bit, out);
      r != Failed(NegativeShift) && (r.Done? ==> |r.value.1| <= Ceiling(r.value.0 - from))
    decreases 8 - bit
  {
    hide Token, BitSet;
    if bit < 8 && pos < end {
      TokenBound(data, from, pos, end, BitSet(flags, bit), out);
      var r := Token(data, pos, end, BitSet(flags, bit), out);
      if r.Done? { GroupBound(data, from, r.value.0, end, flags, bit + 1, r.value.1); }
    }
  }

  /** No chunk reaches 2^15 bytes, so no copy token is ever read with a
      negative shift. */
  lemma {:induction false} BodyBound(data: seq<Byte>, from: nat, pos: nat, end: nat, out: seq<Byte>)
    requires from <= pos <= end <= |data| && end - from <= 4096
    requires |out| <= Ceiling(pos - from)
    ensures var r := Body(data, pos, end, out);
      r != Failed(NegativeShift) && (r.Done? ==> |r.value| < 0x8000)
    decreases end - pos
  {
    hide Group, Token;
    if pos < end {
      GroupBound(data, from, pos + 1, end, data[pos], 0, out);
      var r := Group(data, pos + 1, end, data[pos], 0, out);
      if r.Done? { BodyBound(data, from, r.value.0, end, r.value.1); }
    }
  }

  lemma {:induction false} ChunksBound(data: seq<Byte>, pos: nat, limit: int, most: nat, out: seq<Byte>)
    requires limit <= most && |out| <= most + (if pos <= |data| then pos else |data|)
    ensures var r := Chunks(data, pos, limit, out);
      r != Failed(NegativeShift) && (r.Done? ==> |r.value| <= most + |data|)
    decreases |data| - pos
  {
    hide Chunks, Body, BitSet, ChunkEnd, IsCompressedAt;
    if pos + 2 > |data| {
      ChunksPastEnd(data, pos, pos, limit, out);
    } else if !IsCompressedAt(data, pos) {
      RawStep(data, pos, limit, out);
      ChunksBound(data, pos + 2 + 4096, limit, most, out + data[pos + 2..RawEnd(data, pos)]);
    } else {
      CompressedStep(data, pos, limit, out);
      BodyBound(data, pos + 2, pos + 2, ChunkEnd(data, pos), []);
      var r := Body(data, pos + 2, ChunkEnd(data, pos), []);
      if r.Done? && |out + r.value| <= limit {
        ChunksBound(data, ChunkEnd(data, pos), limit, most, out + r.value);
      }
    }
  }

  /** For every input: no shift is negative, and what is returned is at most
      the limit plus the input itself (raw chunks are not held to the limit). */
  lemma DecodeBound(data: seq<Byte>, limit: int)
    ensures Decode(data, limit) != Failed(NegativeShift)
    ensures Decode(data, limit).Done? ==> |Decode(data, limit).value| <= (if limit < 0 then 0 else limit) + |data|
  {
    if data != [] && data[0] == 1 { ChunksBound(data, 1, limit, if limit < 0 then 0 else limit, []); }
  }

  // --------------------------------------------------------- writing a chunk

  datatype Piece = Literal(b: Byte) | Copy(offset: nat, length: nat)

  datatype Chunk = Raw(bytes: seq<Byte>) | Compressed(pieces: seq<Piece>)

  /** A copy the format can write when the chunk holds `produced` bytes. */
  predicate Writable(p: Piece, produced: nat) {
    p.Copy? ==>
      && 1 <= p.offset <= produced && OffsetBits(produced) <= 16
      && 3 <= p.length <= Pow2(16 - OffsetBits(produced)) + 2
  }

  function PieceSize(p: Piece): nat {
    if p.Literal? then 1 else p.length
  }

  predicate AllWritable(ps: seq<Piece>, produced: nat) {
    ps == [] || (Writable(ps[0], produced) && AllWritable(ps[1..], produced + PieceSize(ps[0])))
  }

  /** What the pieces stand for, after `out`. */
  function Expand(ps: seq<Piece>, out: seq<Byte>): seq<Byte>
    requires AllWritable(ps, |out|)
  {
    if ps == [] then out
    else
      match ps[0]
      case Literal(b) => Expand(ps[1..], out + [b])
      case Copy(offset, length) =>
        CopyBackLength(out, offset, length);
        Expand(ps[1..], CopyBack(out, offset, length))
  }

  lemma OffsetFits(offset: nat, produced: nat)
    requires 1 <= offset <= produced
    ensures offset - 1 < Pow2(OffsetBits(produced))
  {
    BitLengthRange(produced - 1);
    Pow2Mono(BitLength(produced - 1), OffsetBits(produced));
  }

  lemma WordFits(high: nat, low: nat, count: nat, unit: nat)
    requires high < count && low < unit && count * unit == 0x10000
    ensures high * unit + low < 0x10000
  {
    MulGap(unit, count, high);
  }

  lemma JoinParts(offset: nat, length: nat, bits: nat)
    requires bits <= 16 && 1 <= offset <= Pow2(bits) && 3 <= length <= Pow2(16 - bits) + 2
    ensures var word := (offset - 1) * Pow2(16 - bits) + (length - 3);
      0 <= word < 0x10000 && CopyLength(word, bits) == length && CopyOffset(word, bits) == offset
  {
    hide Pow2;
    Pow2Values();
    Pow2Add(bits, 16 - bits);
    WordFits(offset - 1, length - 3, Pow2(bits), Pow2(16 - bits));
    DivModOf(offset - 1, length - 3, Pow2(16 - bits));
  }

  /** A copy token: the offset in the high bits, the length below it. */
  function JoinWord(offset: nat, length: nat, bits: nat): (word: nat)
    requires bits <= 16 && 1 <= offset <= Pow2(bits) && 3 <= length <= Pow2(16 - bits) + 2
    ensures word < 0x10000 && CopyLength(word, bits) == length && CopyOffset(word, bits) == offset
  {
    JoinParts(offset, length, bits);
    (offset - 1) * Pow2(16 - bits) + (length - 3)
  }

  function CopyWord(p: Piece, produced: nat): (word: nat)
    requires p.Copy? && Writable(p, produced)
    ensures word < 0x10000
    ensures CopyLength(word, OffsetBits(produced)) == p.length
    ensures CopyOffset(word, OffsetBits(produced)) == p.offset
  {
    OffsetFits(p.offset, produced);
    JoinWord(p.offset, p.length, OffsetBits(produced))
  }

  function EncodePiece(p: Piece, produced: nat): (bytes: seq<Byte>)
    requires Writable(p, produced)
    ensures 1 <= |bytes| <= 2
  {
    match p
    case Literal(b) => [b]
    case Copy(_, _) =>
      var word := CopyWord(p, produced);
      [word % 256, word / 256]
  }

  function EncodePieces(ps: seq<Piece>, produced: nat): seq<Byte>
    requires AllWritable(ps, produced)
  {
    if ps == [] then [] else EncodePiece(ps[0], produced) + EncodePieces(ps[1..], produced + PieceSize(ps[0]))
  }

  function FlagByte(ps: seq<Piece>): nat {
    if ps == [] then 0 else (if ps[0].Copy? then 1 else 0) + 2 * FlagByte(ps[1..])
  }

  /** The flag byte as it is written. */
  function Flags(ps: seq<Piece>): seq<Byte>
    requires |ps| <= 8
  {
    FlagByteBound(ps);
    Pow2Mono(|ps|, 8);
    assert Pow2(8) == 256;
    [FlagByte(ps)]
  }

  lemma {:induction false} FlagByteBits(ps: seq<Piece>, i: nat)
    requires i < |ps|
    ensures BitSet(FlagByte(ps), i) <==> ps[i].Copy?
  {
    if i > 0 {
      assert FlagByte(ps) / 2 == FlagByte(ps[1..]);
      FlagByteBits(ps[1..], i - 1);
    }
  }

  lemma {:induction false} FlagByteBound(ps: seq<Piece>)
    ensures FlagByte(ps) < Pow2(|ps|)
  {
    if ps != [] { FlagByteBound(ps[1..]); }
  }

  function Total(ps: seq<Piece>): nat {
    if ps == [] then 0 else PieceSize(ps[0]) + Total(ps[1..])
  }

  lemma {:induction false} ExpandLength(ps: seq<Piece>, out: seq<Byte>)
    requires AllWritable(ps, |out|)
    ensures |Expand(ps, out)| == |out| + Total(ps)
    decreases |ps|
  {
    if ps != [] {
      match ps[0]
      case Literal(b) => ExpandLength(ps[1..], out + [b]);
      case Copy(offset, length) =>
        CopyBackLength(out, offset, length);
        ExpandLength(ps[1..], CopyBack(out, offset, length));
    }
  }

  lemma {:induction false} SplitPieces(ps: seq<Piece>, n: nat, out: seq<Byte>)
    requires n <= |ps| && AllWritable(ps, |out|)
    ensures AllWritable(ps[..n], |out|) && AllWritable(ps[n..], |out| + Total(ps[..n]))
    ensures |Expand(ps[..n], out)| == |out| + Total(ps[..n])
    ensures Expand(ps, out) == Expand(ps[n..], Expand(ps[..n], out))
    decreases n
  {
    hide CopyBack, BitLength, Pow2, OffsetBits;
    if n > 0 {
      assert ps[..n][1..] == ps[1..][..n - 1] && ps[n..] == ps[1..][n - 1..];
      match ps[0]
      case Literal(b) => SplitPieces(ps[1..], n - 1, out + [b]);
      case Copy(offset, length) =>
        CopyBackLength(out, offset, length);
        SplitPieces(ps[1..], n - 1, CopyBack(out, offset, length));
    }
  }

  lemma {:induction false} SplitWritable(ps: seq<Piece>, n: nat, produced: nat)
    requires n <= |ps| && AllWritable(ps, produced)
    ensures AllWritable(ps[..n], produced) && AllWritable(ps[n..], produced + Total(ps[..n]))
    decreases n
  {
    hide Writable, BitLength, Pow2, OffsetBits;
    if n > 0 {
      assert ps[..n][1..] == ps[1..][..n - 1] && ps[n..] == ps[1..][n - 1..];
      SplitWritable(ps[1..], n - 1, produced + PieceSize(ps[0]));
    }
  }

  function GroupSize(ps: seq<Piece>): (n: nat)
    ensures n <= |ps| && n <= 8 && (ps != [] ==> n > 0) && (n < 8 ==> n == |ps|)
  {
    if |ps| < 8 then |ps| else 8
  }

  /** The body of a compressed chunk: a flag byte before every eight pieces. */
  function EncodeBody(ps: seq<Piece>, produced: nat): seq<Byte>
    requires AllWritable(ps, produced)
    decreases |ps|
  {
    if ps == [] then []
    else
      var n := GroupSize(ps);
      SplitWritable(ps, n, produced);
      Flags(ps[..n]) + EncodePieces(ps[..n], produced) + EncodeBody(ps[n..], produced + Total(ps[..n]))
  }

  /** The bytes stand in the data at a position. */
  predicate At(data: seq<Byte>, pos: nat, bytes: seq<Byte>) {
    pos + |bytes| <= |data| && data[pos..pos + |bytes|] == bytes
  }

  lemma AtSplit(data: seq<Byte>, pos: nat, x: seq<Byte>, y: seq<Byte>)
    requires At(data, pos, x + y)
    ensures At(data, pos, x) && At(data, pos + |x|, y)
  {
    var here := data[pos..pos + |x + y|];
    assert data[pos..pos + |x|] == here[..|x|] == x;
    assert data[pos + |x|..pos + |x| + |y|] == here[|x|..] == y;
  }

  lemma AtByte(data: seq<Byte>, pos: nat, bytes: seq<Byte>, i: nat)
    requires At(data, pos, bytes) && i < |bytes|
    ensures data[pos + i] == bytes[i]
  {
    assert data[pos..pos + |bytes|][i] == data[pos + i];
  }

  lemma TokenUndoesPiece(data: seq<Byte>, pos: nat, end: nat, p: Piece, out: seq<Byte>)
    requires Writable(p, |out|) && At(data, pos, EncodePiece(p, |out|))
    requires pos + |EncodePiece(p, |out|)| <= end <= |data|
    ensures AllWritable([p], |out|)
    ensures Token(data, pos, end, p.Copy?, out) == Done((pos + |EncodePiece(p, |out|)|, Expand([p], out)))
  {
    hide Pow2, BitLength, OffsetBits;
    var bytes := EncodePiece(p, |out|);
    AtByte(data, pos, bytes, 0);
    if p.Copy? {
      AtByte(data, pos, bytes, 1);
      assert Word(bytes[0], bytes[1]) == CopyWord(p, |out|);
    }
  }

  /** The flag bits from `bit` on tell which of the pieces are copies. */
  predicate FlagsTell(flags: nat, bit: nat, ps: seq<Piece>)
    decreases |ps|
  {
    ps == [] || ((BitSet(flags, bit) <==> ps[0].Copy?) && FlagsTell(flags, bit + 1, ps[1..]))
  }

  lemma {:induction false} FlagByteTells(all: seq<Piece>, bit: nat)
    requires bit <= |all|
    ensures FlagsTell(FlagByte(all), bit, all[bit..])
    decreases |all| - bit
  {
    if bit < |all| {
      FlagByteBits(all, bit);
      assert all[bit..][1..] == all[bit + 1..];
      FlagByteTells(all, bit + 1);
    }
  }

  lemma ExpandNothing(out: seq<Byte>)
    ensures Expand([], out) == out
  {
  }

  lemma ExpandFirst(ps: seq<Piece>, out: seq<Byte>)
    requires ps != [] && AllWritable(ps, |out|)
    ensures AllWritable([ps[0]], |out|) && |Expand([ps[0]], out)| == |out| + PieceSize(ps[0])
    ensures Expand(ps, out) == Expand(ps[1..], Expand([ps[0]], out))
  {
    SplitPieces(ps, 1, out);
    assert ps[..1] == [ps[0]];
    assert Total([ps[0]]) == PieceSize(ps[0]);
  }

  lemma GroupStep(data: seq<Byte>, pos: nat, end: nat, flags: nat, bit: nat, out: seq<Byte>)
    requires pos < end <= |data| && bit < 8 && Token(data, pos, end, BitSet(flags, bit), out).Done?
    ensures var (next, grown) := Token(data, pos, end, BitSet(flags, bit), out).value;
      Group(data, pos, end, flags, bit, out) == Group(data, next, end, flags, bit + 1, grown)
  {
    hide Token, BitSet;
  }

  lemma GroupEnds(data: seq<Byte>, pos: nat, end: nat, flags: nat, bit: nat, out: seq<Byte>)
    requires pos <= end <= |data| && bit <= 8 && (bit == 8 || pos == end)
    ensures Group(data, pos, end, flags, bit, out) == Done((pos, out))
  {
  }

  lemma {:induction false} GroupUndoesPieces(data: seq<Byte>, pos: nat, end: nat, flags: nat, bit: nat,
                                             ps: seq<Piece>, out: seq<Byte>)
    requires bit + |ps| <= 8 && AllWritable(ps, |out|)
    requires At(data, pos, EncodePieces(ps, |out|)) && pos + |EncodePieces(ps, |out|)| <= end <= |data|
    requires FlagsTell(flags, bit, ps)
    requires bit + |ps| == 8 || pos + |EncodePieces(ps, |out|)| == end
    ensures Group(data, pos, end, flags, bit, out) == Done((pos + |EncodePieces(ps, |out|)|, Expand(ps, out)))
    decreases |ps|
  {
    hide Group, Token, BitSet, EncodePiece, Pow2, BitLength, CopyBack, OffsetBits, Writable, Expand;
    if ps == [] {
      GroupEnds(data, pos, end, flags, bit, out);
      ExpandNothing(out);
    } else {
      var bytes := EncodePiece(ps[0], |out|);
      AtSplit(data, pos, bytes, EncodePieces(ps[1..], |out| + PieceSize(ps[0])));
      TokenUndoesPiece(data, pos, end, ps[0], out);
      ExpandFirst(ps, out);
      GroupStep(data, pos, end, flags, bit, out);
      GroupUndoesPieces(data, pos + |bytes|, end, flags, bit + 1, ps[1..], Expand([ps[0]], out));
    }
  }

  lemma BodyStep(data: seq<Byte>, pos: nat, end: nat, out: seq<Byte>)
    requires pos < end <= |data| && Group(data, pos + 1, end, data[pos], 0, out).Done?
    ensures var (next, grown) := Group(data, pos + 1, end, data[pos], 0, out).value;
      Body(data, pos, end, out) == Body(data, next, end, grown)
  {
    hide Group;
  }

  lemma BodyEnds(data: seq<Byte>, end: nat, out: seq<Byte>)
    requires end <= |data|
    ensures Body(data, end, end, out) == Done(out)
  {
  }

  lemma {:induction false} BodyUndoesEncode(data: seq<Byte>, pos: nat, end: nat, ps: seq<Piece>, out: seq<Byte>)
    requires AllWritable(ps, |out|)
    requires At(data, pos, EncodeBody(ps, |out|)) && end == pos + |EncodeBody(ps, |out|)|
    ensures Body(data, pos, end, out) == Done(Expand(ps, out))
    decreases |ps|
  {
    hide Body, Group, Token, BitSet, EncodePieces, FlagByte, Pow2, BitLength, OffsetBits, CopyBack, Writable, Expand;
    if ps == [] {
      BodyEnds(data, pos, out);
      ExpandNothing(out);
    } else {
      var n := GroupSize(ps);
      SplitPieces(ps, n, out);
      var (these, rest) := (ps[..n], ps[n..]);
      var bytes := EncodePieces(these, |out|);
      var after := EncodeBody(rest, |out| + Total(these));
      AtSplit(data, pos, Flags(these) + bytes, after);
      AtSplit(data, pos, Flags(these), bytes);
      AtByte(data, pos, Flags(these), 0);
      FlagByteTells(these, 0);
      assert these[0..] == these;
      GroupUndoesPieces(data, pos + 1, end, data[pos], 0, these, out);
      BodyStep(data, pos, end, out);
      BodyUndoesEncode(data, pos + 1 + |bytes|, end, rest, Expand(these, out));
    }
  }

  // ----------------------------------------------------- writing a container

  ghost predicate ValidChunk(c: Chunk) {
    match c
    case Raw(bytes) => |bytes| <= 4096
    case Compressed(pieces) => AllWritable(pieces, 0) && 1 <= |EncodeBody(pieces, 0)| <= 4096
  }

  /** Every raw chunk is full, the last one excepted. */
  ghost predicate ValidContainer(cs: seq<Chunk>) {
    && (forall i | 0 <= i < |cs| :: ValidChunk(cs[i]))
    && (forall i | 0 <= i < |cs| - 1 :: cs[i].Raw? ==> |cs[i].bytes| == 4096)
  }

  /** The header of a compressed chunk with a body of n bytes: the signature, the
      bit for compression, and the size. */
  function HeaderOf(n: nat): (bytes: seq<Byte>)
    requires 1 <= n <= 4096
    ensures |bytes| == 2
  {
    [(0xB000 + n - 1) % 256, (0xB000 + n - 1) / 256]
  }

  lemma HeaderRead(n: nat)
    requires 1 <= n <= 4096
    ensures var word := Word(HeaderOf(n)[0], HeaderOf(n)[1]); BitSet(word, 15) && word % 0x1000 + 3 == n + 2
  {
    Pow2Values();
    TopBit(0xB000 + n - 1, 15);
    assert Word(HeaderOf(n)[0], HeaderOf(n)[1]) == 0xB000 + n - 1;
    hide BitSet, Pow2;
  }

  ghost function EncodeChunk(c: Chunk): seq<Byte>
    requires ValidChunk(c)
  {
    match c
    case Raw(bytes) => [0xFF, 0x3F] + bytes
    case Compressed(pieces) =>
      HeaderOf(|EncodeBody(pieces, 0)|) + EncodeBody(pieces, 0)
  }

  ghost function ExpandChunk(c: Chunk): seq<Byte>
    requires ValidChunk(c)
  {
    match c
    case Raw(bytes) => bytes
    case Compressed(pieces) => Expand(pieces, [])
  }

  ghost function EncodeChunks(cs: seq<Chunk>): seq<Byte>
    requires ValidContainer(cs)
  {
    if cs == [] then [] else EncodeChunk(cs[0]) + EncodeChunks(cs[1..])
  }

  ghost function ExpandChunks(cs: seq<Chunk>): seq<Byte>
    requires ValidContainer(cs)
  {
    if cs == [] then [] else ExpandChunk(cs[0]) + ExpandChunks(cs[1..])
  }

  lemma {:induction false} TopBit(f: nat, k: nat)
    requires f < 2 * Pow2(k)
    ensures BitSet(f, k) <==> f >= Pow2(k)
  {
    if k > 0 { TopBit(f / 2, k - 1); }
  }

  lemma RawChunkUndone(data: seq<Byte>, pos: nat, limit: int, bytes: seq<Byte>, out: seq<Byte>)
    requires At(data, pos, [0xFF, 0x3F] + bytes)
    requires |bytes| == 4096 || (|bytes| <= 4096 && pos + 2 + |bytes| == |data|)
    ensures Chunks(data, pos, limit, out) == Chunks(data, pos + 2 + |bytes|, limit, out + bytes)
  {
    hide Chunks;
    var all: seq<Byte> := [0xFF, 0x3F] + bytes;
    AtByte(data, pos, all, 0);
    AtByte(data, pos, all, 1);
    AtSplit(data, pos, [0xFF, 0x3F], bytes);
    Pow2Values();
    TopBit(0x3FFF, 15);
    assert RawEnd(data, pos) == pos + 2 + |bytes|;
    RawStep(data, pos, limit, out);
    if pos + 2 + |bytes| == |data| { ChunksPastEnd(data, pos + 2 + |bytes|, pos + 2 + 4096, limit, out + bytes); }
  }

  lemma CompressedChunkUndone(data: seq<Byte>, pos: nat, limit: int, pieces: seq<Piece>, out: seq<Byte>)
    requires ValidChunk(Compressed(pieces)) && At(data, pos, EncodeChunk(Compressed(pieces)))
    ensures var next := pos + |EncodeChunk(Compressed(pieces))|;
      Chunks(data, pos, limit, out)
      == if |out + Expand(pieces, [])| > limit then Failed(TooLong)
         else Chunks(data, next, limit, out + Expand(pieces, []))
  {
    hide Chunks, Body, Expand, EncodeBody, OffsetBits, AllWritable, HeaderOf, Word, BitSet;
    var body := EncodeBody(pieces, 0);
    var head := HeaderOf(|body|);
    AtByte(data, pos, head + body, 0);
    AtByte(data, pos, head + body, 1);
    AtSplit(data, pos, head, body);
    HeaderRead(|body|);
    assert ChunkEnd(data, pos) == pos + 2 + |body|;
    CompressedStep(data, pos, limit, out);
    BodyUndoesEncode(data, pos + 2, pos + 2 + |body|, pieces, []);
  }

  /** One chunk read back, wherever it stands. */
  lemma ChunkUndone(data: seq<Byte>, pos: nat, limit: int, c: Chunk, out: seq<Byte>)
    requires ValidChunk(c) && At(data, pos, EncodeChunk(c))
    requires c.Raw? ==> |c.bytes| == 4096 || pos + |EncodeChunk(c)| == |data|
    ensures Chunks(data, pos, limit, out)
         == if c.Compressed? && |out + ExpandChunk(c)| > limit then Failed(TooLong)
            else Chunks(data, pos + |EncodeChunk(c)|, limit, out + ExpandChunk(c))
  {
    hide Chunks, Expand, EncodeBody;
    match c
    case Raw(raw) => RawChunkUndone(data, pos, limit, raw, out);
    case Compressed(pieces) => CompressedChunkUndone(data, pos, limit, pieces, out);
  }

  /** Every compressed chunk ends within the limit. */
  ghost predicate WithinLimit(cs: seq<Chunk>, limit: int, before: nat)
    requires ValidContainer(cs)
  {
    cs == [] || ((cs[0].Compressed? ==> before + |ExpandChunk(cs[0])| <= limit)
                 && WithinLimit(cs[1..], limit, before + |ExpandChunk(cs[0])|))
  }

  lemma ChunksAtEnd(data: seq<Byte>, limit: int, out: seq<Byte>)
    ensures Chunks(data, |data|, limit, out) == Done(out)
  {
  }

  lemma {:induction false} ChunksUndoEncode(data: seq<Byte>, pos: nat, limit: int, cs: seq<Chunk>, out: seq<Byte>)
    requires ValidContainer(cs) && At(data, pos, EncodeChunks(cs)) && pos + |EncodeChunks(cs)| == |data|
    ensures Chunks(data, pos, limit, out)
         == if WithinLimit(cs, limit, |out|) then Done(out + ExpandChunks(cs)) else Failed(TooLong)
    decreases |cs|
  {
    hide Chunks, ValidChunk, EncodeChunk, ExpandChunk;
    if cs == [] {
      ChunksAtEnd(data, limit, out);
      assert out + ExpandChunks(cs) == out;
    } else {
      var bytes := EncodeChunk(cs[0]);
      AtSplit(data, pos, bytes, EncodeChunks(cs[1..]));
      if |cs| == 1 { assert EncodeChunks(cs[1..]) == []; }
      ChunkUndone(data, pos, limit, cs[0], out);
      var grown := out + ExpandChunk(cs[0]);
      ChunksUndoEncode(data, pos + |bytes|, limit, cs[1..], grown);
      assert grown + ExpandChunks(cs[1..]) == out + ExpandChunks(cs);
    }
  }

  /** Decoding undoes encoding, for every container; and it refuses exactly
      the containers of which some compressed chunk ends past the limit. */
  lemma DecodeUndoesEncode(cs: seq<Chunk>, limit: int)
    requires ValidContainer(cs)
    ensures Decode([1] + EncodeChunks(cs), limit)
         == if WithinLimit(cs, limit, 0) then Done(ExpandChunks(cs)) else Failed(TooLong)
  {
    var data := [1] + EncodeChunks(cs);
    AtSplit(data, 0, [1], EncodeChunks(cs));
    ChunksUndoEncode(data, 1, limit, cs, []);
    assert [] + ExpandChunks(cs) == ExpandChunks(cs);
  }
}
