/** What the bytes of a container say (section 2.4.1 of [MS-OVBA]), for every
    input, truncated and malformed ones included: where its chunks lie, which
    tokens a chunk holds, and what text these spell. The decoder owes exactly
    this answer. */
module OvbaLayout {
  import opened Ovba
  import opened OvbaFormat

  // ------------------------------------------------------- the tokens of a chunk

  /** A byte, a copy token, or the first half of one that is cut off. */
  datatype Mark = Plain(byte: Byte) | Refers(word: nat) | Cut

  /** Two bytes, the low one first. */
  function Number(low: nat, high: nat): nat {
    low + 256 * high
  }

  function MarkAt(data: seq<Byte>, pos: nat, end: nat, copy: bool): Mark
    requires pos < end <= |data|
  {
    if !copy then Plain(data[pos]) else if end == pos + 1 then Cut else Refers(Number(data[pos], data[pos + 1]))
  }

  /** The marks under one flag byte, and where the next one stands: that takes
      no decoding. */
  function GroupMarks(data: seq<Byte>, pos: nat, end: nat, flags: nat, bit: nat): (r: (seq<Mark>, nat))
    requires pos <= end <= |data| && bit <= 8
    ensures pos <= r.1 <= end
    decreases 8 - bit
  {
    if bit == 8 || pos == end then ([], pos)
    else
      var mark := MarkAt(data, pos, end, BitSet(flags, bit));
      var (rest, next) := GroupMarks(data, pos + if mark.Refers? then 2 else 1, end, flags, bit + 1);
      ([mark] + rest, next)
  }

  function Marks(data: seq<Byte>, pos: nat, end: nat): seq<Mark>
    requires pos <= end <= |data|
    decreases end - pos
  {
    if pos == end then []
    else
      var (group, next) := GroupMarks(data, pos + 1, end, data[pos], 0);
      group + Marks(data, next, end)
  }

  // ---------------------------------------------------------- what tokens spell

  /** The offset has as many bits as it takes to count what the chunk holds,
      at least four. */
  predicate IsWidth(bits: nat, produced: nat) {
    bits >= 4 && produced <= Pow2(bits) && (bits > 4 ==> Pow2(bits - 1) < produced)
  }

  /** A token's high bits are its offset less one, the others its length less
      three. */
  predicate IsCopyToken(word: nat, bits: nat, offset: nat, length: nat) {
    && bits <= 16 && offset >= 1 && length >= 3 && length - 3 < Pow2(16 - bits)
    && word == (offset - 1) * Pow2(16 - bits) + (length - 3)
  }

  /** Where a copy token points, the chunk holding so many bytes. */
  ghost predicate Points(word: nat, produced: nat, offset: nat, length: nat) {
    exists bits :: IsWidth(bits, produced) && IsCopyToken(word, bits, offset, length)
  }

  ghost predicate Adds(mark: Mark, before: seq<Byte>, after: seq<Byte>) {
    match mark
    case Plain(byte) => after == before + [byte]
    case Cut => after == before
    case Refers(word) =>
      exists offset: nat, length: nat :: Points(word, |before|, offset, length) && offset <= |before|
                            && IsCopy(before, offset, length, after)
  }

  ghost predicate Spells(marks: seq<Mark>, text: seq<Byte>)
    decreases |marks|, 0
  {
    if marks == [] then text == [] else SpellsWith(marks[..|marks| - 1], marks[|marks| - 1], text)
  }

  ghost predicate SpellsWith(init: seq<Mark>, last: Mark, text: seq<Byte>)
    decreases |init|, 1
  {
    exists before :: Spells(init, before) && Adds(last, before, text)
  }

  /** A copy token points before the chunk. */
  ghost predicate Astray(marks: seq<Mark>) {
    exists k :: 0 <= k < |marks| && AstrayAt(marks, k)
  }

  ghost predicate AstrayAt(marks: seq<Mark>, k: nat)
    requires k < |marks|
  {
    marks[k].Refers? && exists text, offset: nat, length: nat ::
      Spells(marks[..k], text) && Points(marks[k].word, |text|, offset, length) && offset > |text|
  }

  // ------------------------------------------------------ one reading at most

  lemma WidthIs(produced: nat)
    ensures IsWidth(OffsetBits(produced), produced)
  {
    if produced > 0 {
      BitLengthRange(produced - 1);
      Pow2Mono(BitLength(produced - 1), OffsetBits(produced));
    }
  }

  lemma OneWidth(a: nat, b: nat, produced: nat)
    requires IsWidth(a, produced) && IsWidth(b, produced)
    ensures a == b
  {
    if a < b { Pow2Mono(a, b - 1); }
    if b < a { Pow2Mono(b, a - 1); }
  }

  lemma OneSplit(word: nat, bits: nat, offset: nat, length: nat)
    requires IsCopyToken(word, bits, offset, length)
    ensures offset == CopyOffset(word, bits) && length == CopyLength(word, bits)
  {
    DivModOf(offset - 1, length - 3, Pow2(16 - bits));
  }

  lemma Splits(word: nat, bits: nat)
    requires bits <= 16
    ensures IsCopyToken(word, bits, CopyOffset(word, bits), CopyLength(word, bits))
  {
    var unit := Pow2(16 - bits);
    assert word == (word / unit) * unit + word % unit;
  }

  lemma PointsAre(word: nat, produced: nat, offset: nat, length: nat)
    ensures Points(word, produced, offset, length) <==>
      OffsetBits(produced) <= 16
      && offset == CopyOffset(word, OffsetBits(produced)) && length == CopyLength(word, OffsetBits(produced))
  {
    var bits := OffsetBits(produced);
    WidthIs(produced);
    if Points(word, produced, offset, length) {
      var b :| IsWidth(b, produced) && IsCopyToken(word, b, offset, length);
      OneWidth(b, bits, produced);
      OneSplit(word, bits, offset, length);
    }
    if bits <= 16 { Splits(word, bits); }
  }

  lemma OneAddition(mark: Mark, before: seq<Byte>, a: seq<Byte>, b: seq<Byte>)
    requires Adds(mark, before, a) && Adds(mark, before, b)
    ensures a == b
  {
    hide Points, IsCopy;
    if mark.Refers? {
      var o: nat, l: nat :| Points(mark.word, |before|, o, l) && o <= |before| && IsCopy(before, o, l, a);
      var p: nat, m: nat :| Points(mark.word, |before|, p, m) && p <= |before| && IsCopy(before, p, m, b);
      PointsAre(mark.word, |before|, o, l);
      PointsAre(mark.word, |before|, p, m);
      CopyIsUnique(before, o, l, a);
      CopyIsUnique(before, p, m, b);
    }
  }

  lemma {:induction false} OneText(marks: seq<Mark>, a: seq<Byte>, b: seq<Byte>)
    requires Spells(marks, a) && Spells(marks, b)
    ensures a == b
    decreases |marks|
  {
    hide Adds;
    if marks != [] {
      var (init, last) := (marks[..|marks| - 1], marks[|marks| - 1]);
      var x :| Spells(init, x) && Adds(last, x, a);
      var y :| Spells(init, y) && Adds(last, y, b);
      OneText(init, x, y);
      OneAddition(last, x, a, b);
    }
  }

  /** What spells a text spells one at every token. */
  lemma {:induction false} SpellsPrefix(marks: seq<Mark>, text: seq<Byte>, k: nat)
    returns (before: seq<Byte>, after: seq<Byte>)
    requires Spells(marks, text) && k < |marks|
    ensures Spells(marks[..k], before) && Adds(marks[k], before, after)
    decreases |marks|
  {
    hide Adds;
    var (init, last) := (marks[..|marks| - 1], marks[|marks| - 1]);
    var x :| Spells(init, x) && Adds(last, x, text);
    if k == |marks| - 1 {
      before, after := x, text;
    } else {
      before, after := SpellsPrefix(init, x, k);
      assert init[..k] == marks[..k];
    }
  }

  lemma NotBoth(marks: seq<Mark>, text: seq<Byte>)
    requires Spells(marks, text)
    ensures !Astray(marks)
  {
    hide Spells, Points, IsCopy;
    if Astray(marks) {
      var k :| 0 <= k < |marks| && AstrayAt(marks, k);
      var before, after := SpellsPrefix(marks, text, k);
      var t, offset: nat, length: nat :|
        Spells(marks[..k], t) && Points(marks[k].word, |t|, offset, length) && offset > |t|;
      OneText(marks[..k], before, t);
      var o: nat, l: nat :| Points(marks[k].word, |before|, o, l) && o <= |before| && IsCopy(before, o, l, after);
      PointsAre(marks[k].word, |before|, o, l);
      PointsAre(marks[k].word, |before|, offset, length);
    }
  }

  lemma AstrayOn(marks: seq<Mark>, more: seq<Mark>)
    requires Astray(marks)
    ensures Astray(marks + more)
  {
    hide Spells, Points;
    var k :| 0 <= k < |marks| && AstrayAt(marks, k);
    assert (marks + more)[..k] == marks[..k] && (marks + more)[k] == marks[k];
    assert AstrayAt(marks + more, k);
  }

  // ------------------------------------------------------- what the decoder reads

  /** One token. */
  lemma TokenReads(data: seq<Byte>, pos: nat, end: nat, copy: bool, out: seq<Byte>, read: seq<Mark>)
    requires pos < end <= |data| && Spells(read, out)
    ensures var r := Token(data, pos, end, copy, out);
      var mark := MarkAt(data, pos, end, copy);
      && (r.Done? ==> Spells(read + [mark], r.value.1)
                      && r.value.0 == if copy && end > pos + 1 then pos + 2 else pos + 1)
      && (r == Failed(BeforeChunk) ==> Astray(read + [mark]))
  {
    var r := Token(data, pos, end, copy, out);
    var mark := MarkAt(data, pos, end, copy);
    var marks := read + [mark];
    assert marks[..|marks| - 1] == read && marks[|marks| - 1] == mark && marks[..|read|] == read;
    hide Spells;
    if mark.Refers? && OffsetBits(|out|) <= 16 {
      var (offset, length) := (CopyOffset(mark.word, OffsetBits(|out|)), CopyLength(mark.word, OffsetBits(|out|)));
      PointsAre(mark.word, |out|, offset, length);
      if offset <= |out| { CopyBackMeaning(out, offset, length); } else { assert AstrayAt(marks, |read|); }
    }
    if r.Done? { SpellsOn(read, out, mark, r.value.1); }
  }

  lemma SpellsOn(read: seq<Mark>, before: seq<Byte>, mark: Mark, after: seq<Byte>)
    requires Spells(read, before) && Adds(mark, before, after)
    ensures Spells(read + [mark], after)
  {
    hide Adds;
    var marks := read + [mark];
    assert marks[..|marks| - 1] == read;
    assert SpellsWith(read, mark, after);
  }

  lemma GroupIs(data: seq<Byte>, pos: nat, end: nat, flags: nat, bit: nat, out: seq<Byte>)
    requires pos < end <= |data| && bit < 8
    ensures var r := Token(data, pos, end, BitSet(flags, bit), out);
      Group(data, pos, end, flags, bit, out)
      == if r.Failed? then Failed(r.why) else Group(data, r.value.0, end, flags, bit + 1, r.value.1)
  {
    hide Token, BitSet;
  }

  lemma GroupMarksStep(data: seq<Byte>, pos: nat, end: nat, flags: nat, bit: nat)
    requires pos <= end <= |data| && bit <= 8
    ensures bit == 8 || pos == end ==> GroupMarks(data, pos, end, flags, bit) == ([], pos)
    ensures bit < 8 && pos < end ==>
      var mark := MarkAt(data, pos, end, BitSet(flags, bit));
      var rest := GroupMarks(data, pos + if mark.Refers? then 2 else 1, end, flags, bit + 1);
      GroupMarks(data, pos, end, flags, bit) == ([mark] + rest.0, rest.1)
  {
    hide BitSet;
  }

  lemma {:induction false} GroupReads(data: seq<Byte>, pos: nat, end: nat, flags: nat, bit: nat, out: seq<Byte>,
                                      read: seq<Mark>)
    requires pos <= end <= |data| && bit <= 8 && Spells(read, out)
    ensures var (r, (marks, next)) := (Group(data, pos, end, flags, bit, out), GroupMarks(data, pos, end, flags, bit));
      && (r.Done? ==> r.value.0 == next && Spells(read + marks, r.value.1))
      && (r == Failed(BeforeChunk) ==> Astray(read + marks))
    decreases 8 - bit
  {
    hide Token, BitSet, Spells, Astray, Group, GroupMarks;
    GroupMarksStep(data, pos, end, flags, bit);
    if bit == 8 || pos == end {
      GroupEnds(data, pos, end, flags, bit, out);
      assert read + [] == read;
    } else {
      var copy := BitSet(flags, bit);
      var mark := MarkAt(data, pos, end, copy);
      GroupIs(data, pos, end, flags, bit, out);
      TokenReads(data, pos, end, copy, out, read);
      var r := Token(data, pos, end, copy, out);
      var rest := GroupMarks(data, pos + if mark.Refers? then 2 else 1, end, flags, bit + 1).0;
      assert read + ([mark] + rest) == read + [mark] + rest;
      if r.Done? {
        GroupReads(data, r.value.0, end, flags, bit + 1, r.value.1, read + [mark]);
      } else if r == Failed(BeforeChunk) {
        AstrayOn(read + [mark], rest);
      }
    }
  }

  /** A chunk's body spells what the decoder makes of it, or goes astray. */
  lemma {:induction false} BodyReads(data: seq<Byte>, pos: nat, end: nat, out: seq<Byte>, read: seq<Mark>)
    requires pos <= end <= |data| && Spells(read, out)
    ensures var r := Body(data, pos, end, out);
      && (r.Done? ==> Spells(read + Marks(data, pos, end), r.value))
      && (r == Failed(BeforeChunk) ==> Astray(read + Marks(data, pos, end)))
    decreases end - pos
  {
    hide Group, GroupMarks, Spells, Astray;
    if pos == end {
      assert read + [] == read;
    } else {
      var (marks, next) := GroupMarks(data, pos + 1, end, data[pos], 0);
      GroupReads(data, pos + 1, end, data[pos], 0, out, read);
      var r := Group(data, pos + 1, end, data[pos], 0, out);
      assert read + Marks(data, pos, end) == read + marks + Marks(data, next, end);
      if r.Done? {
        BodyReads(data, next, end, r.value.1, read + marks);
      } else if r == Failed(BeforeChunk) {
        AstrayOn(read + marks, Marks(data, next, end));
      }
    }
  }

  // --------------------------------------------------- the chunks of a container

  /** Where a chunk's content lies: as it is, or compressed. */
  datatype Extent = Stored(from: nat, to: nat) | Packed(from: nat, to: nat)

  function Shorter(a: nat, b: nat): nat {
    if a <= b then a else b
  }

  /** The chunks from `pos` on, by their headers alone: the top bit says
      compressed, the low twelve how long. A raw chunk is 4096 bytes whatever
      its header says; the last may be cut short by the end of the data, where
      a single byte is no header. */
  function Layout(data: seq<Byte>, pos: nat): (extents: seq<Extent>)
    ensures forall e | e in extents :: e.from <= e.to <= |data|
    decreases |data| - pos
  {
    if pos + 2 > |data| then []
    else
      var header := Number(data[pos], data[pos + 1]);
      if header < 0x8000 then [Stored(pos + 2, Shorter(pos + 4098, |data|))] + Layout(data, pos + 4098)
      else
        var end := Shorter(pos + header % 4096 + 3, |data|);
        [Packed(pos + 2, end)] + Layout(data, end)
  }

  /** What a container comes to, chunk by chunk, `out` being what the chunks so
      far have given. Only after a compressed chunk is the limit looked at. */
  ghost predicate Yields(data: seq<Byte>, extents: seq<Extent>, limit: int, out: seq<Byte>, r: Outcome<seq<Byte>>)
    requires forall e | e in extents :: e.from <= e.to <= |data|
    decreases |extents|
  {
    if extents == [] then r == Done(out)
    else
      match extents[0]
      case Stored(from, to) => Yields(data, extents[1..], limit, out + data[from..to], r)
      case Packed(from, to) =>
        || (Astray(Marks(data, from, to)) && r == Failed(BeforeChunk))
        || (exists text :: Spells(Marks(data, from, to), text) && YieldsAfter(data, extents, limit, out + text, r))
  }

  ghost predicate YieldsAfter(data: seq<Byte>, extents: seq<Extent>, limit: int, out: seq<Byte>, r: Outcome<seq<Byte>>)
    requires extents != [] && forall e | e in extents :: e.from <= e.to <= |data|
    decreases |extents|, 0
  {
    if |out| > limit then r == Failed(TooLong) else Yields(data, extents[1..], limit, out, r)
  }

  lemma HeaderSays(data: seq<Byte>, pos: nat)
    requires pos + 2 <= |data|
    ensures var header := Number(data[pos], data[pos + 1]);
      && (IsCompressedAt(data, pos) <==> header >= 0x8000)
      && ChunkEnd(data, pos) == Shorter(pos + header % 4096 + 3, |data|)
      && RawEnd(data, pos) == Shorter(pos + 4098, |data|)
  {
    var header := Number(data[pos], data[pos + 1]);
    TopBit(header, 15);
    Pow2Values();
  }

  /** A chunk's body comes to one of the two, and to one text at most. */
  lemma BodyIs(data: seq<Byte>, from: nat, to: nat)
    requires from <= to <= |data| && to - from <= 4096
    ensures var r := Body(data, from, to, []);
      && (Astray(Marks(data, from, to)) <==> r.Failed?)
      && (r.Failed? ==> r == Failed(BeforeChunk))
      && forall text :: Spells(Marks(data, from, to), text) <==> r == Done(text)
  {
    BodyReads(data, from, to, [], []);
    BodyBound(data, from, from, to, []);
    hide Body, Astray, Marks;
    var (r, marks) := (Body(data, from, to, []), Marks(data, from, to));
    assert [] + marks == marks;
    if r.Done? { NotBoth(marks, r.value); }
    forall text | Spells(marks, text) ensures r == Done(text) {
      NotBoth(marks, text);
      OneText(marks, text, r.value);
    }
  }

  lemma {:induction false} ChunksYield(data: seq<Byte>, pos: nat, limit: int, out: seq<Byte>, r: Outcome<seq<Byte>>)
    ensures Yields(data, Layout(data, pos), limit, out, r) <==> r == Chunks(data, pos, limit, out)
    decreases |data| - pos
  {
    hide Chunks, Body, Marks, Spells, Astray, IsCompressedAt, ChunkEnd, BitSet;
    if pos + 2 > |data| {
      ChunksPastEnd(data, pos, pos, limit, out);
    } else {
      HeaderSays(data, pos);
      var extents := Layout(data, pos);
      if !IsCompressedAt(data, pos) {
        RawStep(data, pos, limit, out);
        assert extents[1..] == Layout(data, pos + 4098);
        ChunksYield(data, pos + 4098, limit, out + data[pos + 2..RawEnd(data, pos)], r);
      } else {
        CompressedStep(data, pos, limit, out);
        var end := ChunkEnd(data, pos);
        assert extents[1..] == Layout(data, end) && extents[0] == Packed(pos + 2, end);
        BodyIs(data, pos + 2, end);
        var body := Body(data, pos + 2, end, []);
        if body.Done? && |out + body.value| <= limit { ChunksYield(data, end, limit, out + body.value, r); }
      }
    }
  }

  /** For every input and limit: it is no container exactly when it does not
      begin with 1; otherwise the decoder gives exactly what its chunks come to. */
  lemma DecodeYields(data: seq<Byte>, limit: int, r: Outcome<seq<Byte>>)
    ensures r == Decode(data, limit) <==>
      if data == [] || data[0] != 1 then r == Failed(NotCompressed)
      else Yields(data, Layout(data, 1), limit, [], r)
  {
    if data != [] && data[0] == 1 { ChunksYield(data, 1, limit, [], r); }
  }

  // ------------------------------------------------------------ data cut short

  lemma TokenGrows(data: seq<Byte>, pos: nat, end: nat, copy: bool, out: seq<Byte>)
    requires pos < end <= |data|
    ensures var r := Token(data, pos, end, copy, out); r.Done? ==> out <= r.value.1
  {
    if copy && pos + 2 <= end && OffsetBits(|out|) <= 16 {
      var (word, bits) := (Word(data[pos], data[pos + 1]), OffsetBits(|out|));
      if CopyOffset(word, bits) <= |out| { CopyBackMeaning(out, CopyOffset(word, bits), CopyLength(word, bits)); }
    }
  }

  /** The same token, unless its second byte is cut off: then nothing. */
  lemma TokenCut(data: seq<Byte>, k: nat, pos: nat, end: nat, copy: bool, out: seq<Byte>)
    requires k <= |data| && pos < Shorter(end, k) && end <= |data| && Token(data, pos, end, copy, out).Done?
    ensures var (next, grown) := Token(data, pos, end, copy, out).value;
      Token(data[..k], pos, Shorter(end, k), copy, out)
      == if next <= k then Done((next, grown)) else Done((Shorter(end, k), out))
  {
  }

  lemma {:induction false} GroupCut(data: seq<Byte>, k: nat, pos: nat, end: nat, flags: nat, bit: nat, out: seq<Byte>)
    requires k <= |data| && pos <= Shorter(end, k) && end <= |data| && bit <= 8
    requires Group(data, pos, end, flags, bit, out).Done?
    ensures var (next, grown) := Group(data, pos, end, flags, bit, out).value;
      var r := Group(data[..k], pos, Shorter(end, k), flags, bit, out);
      && out <= grown && r.Done? && out <= r.value.1 <= grown
      && if next <= k then r == Done((next, grown)) else r.value.0 == Shorter(end, k)
    decreases 8 - bit
  {
    hide Token, BitSet, Group;
    assert data[..|data|] == data;
    if bit == 8 || pos == end {
      GroupEnds(data, pos, end, flags, bit, out);
      GroupEnds(data[..k], pos, Shorter(end, k), flags, bit, out);
    } else {
      GroupIs(data, pos, end, flags, bit, out);
      TokenGrows(data, pos, end, BitSet(flags, bit), out);
      var (next, grown) := Token(data, pos, end, BitSet(flags, bit), out).value;
      if pos == k {
        GroupEnds(data[..k], pos, k, flags, bit, out);
        GroupCut(data, |data|, next, end, flags, bit + 1, grown);
      } else {
        TokenCut(data, k, pos, end, BitSet(flags, bit), out);
        GroupIs(data[..k], pos, Shorter(end, k), flags, bit, out);
        if next <= k {
          GroupCut(data, k, next, end, flags, bit + 1, grown);
        } else {
          GroupEnds(data[..k], Shorter(end, k), Shorter(end, k), flags, bit + 1, out);
          GroupCut(data, |data|, next, end, flags, bit + 1, grown);
        }
      }
    }
  }

  lemma {:induction false} BodyCut(data: seq<Byte>, k: nat, pos: nat, end: nat, out: seq<Byte>)
    requires k <= |data| && pos <= Shorter(end, k) && end <= |data| && Body(data, pos, end, out).Done?
    ensures var r := Body(data[..k], pos, Shorter(end, k), out);
      && r.Done? && out <= r.value <= Body(data, pos, end, out).value
      && (end <= k ==> r == Body(data, pos, end, out))
    decreases end - pos
  {
    hide Group;
    assert data[..|data|] == data;
    if pos < end {
      var (next, grown) := Group(data, pos + 1, end, data[pos], 0, out).value;
      if pos < k {
        GroupCut(data, k, pos + 1, end, data[pos], 0, out);
        if next <= k { BodyCut(data, k, next, end, grown); } else { BodyCut(data, |data|, next, end, grown); }
      } else {
        GroupCut(data, |data|, pos + 1, end, data[pos], 0, out);
        BodyCut(data, |data|, next, end, grown);
      }
    }
  }

  lemma {:induction false} ChunksGrow(data: seq<Byte>, pos: nat, limit: int, out: seq<Byte>)
    requires Chunks(data, pos, limit, out).Done?
    ensures out <= Chunks(data, pos, limit, out).value
    decreases |data| - pos
  {
    hide Chunks, Body, IsCompressedAt, ChunkEnd, RawEnd;
    if pos + 2 > |data| {
      ChunksPastEnd(data, pos, pos, limit, out);
    } else {
      HeaderSays(data, pos);
      if !IsCompressedAt(data, pos) {
        RawStep(data, pos, limit, out);
        ChunksGrow(data, pos + 2 + 4096, limit, out + data[pos + 2..RawEnd(data, pos)]);
      } else {
        CompressedStep(data, pos, limit, out);
        ChunksGrow(data, ChunkEnd(data, pos), limit, out + Body(data, pos + 2, ChunkEnd(data, pos), []).value);
      }
    }
  }

  lemma {:induction false} ChunksCut(data: seq<Byte>, k: nat, pos: nat, limit: int, out: seq<Byte>)
    requires k <= |data| && Chunks(data, pos, limit, out).Done?
    ensures var r := Chunks(data[..k], pos, limit, out); r.Done? && r.value <= Chunks(data, pos, limit, out).value
    decreases |data| - pos
  {
    hide Chunks, Body, IsCompressedAt, ChunkEnd, RawEnd;
    var cut := data[..k];
    if pos + 2 > k {
      ChunksPastEnd(cut, pos, pos, limit, out);
      ChunksGrow(data, pos, limit, out);
    } else {
      HeaderSays(data, pos);
      HeaderSays(cut, pos);
      if !IsCompressedAt(data, pos) { RawCut(data, k, pos, limit, out); } else { PackedCut(data, k, pos, limit, out); }
      if pos + 4098 <= k && !IsCompressedAt(data, pos) {
        ChunksCut(data, k, pos + 4098, limit, out + data[pos + 2..pos + 4098]);
      } else if IsCompressedAt(data, pos) && ChunkEnd(data, pos) <= k {
        var end := ChunkEnd(data, pos);
        ChunksCut(data, k, end, limit, out + Body(data, pos + 2, end, []).value);
      }
    }
  }

  /** A raw chunk that is whole stands as it was; else what there is of it is
      the end. */
  lemma RawCut(data: seq<Byte>, k: nat, pos: nat, limit: int, out: seq<Byte>)
    requires k <= |data| && pos + 2 <= k && !IsCompressedAt(data, pos) && Chunks(data, pos, limit, out).Done?
    ensures pos + 4098 <= k ==>
      var next := out + data[pos + 2..pos + 4098];
      && Chunks(data, pos, limit, out) == Chunks(data, pos + 4098, limit, next)
      && Chunks(data[..k], pos, limit, out) == Chunks(data[..k], pos + 4098, limit, next)
    ensures pos + 4098 > k ==>
      var r := Chunks(data[..k], pos, limit, out); r.Done? && r.value <= Chunks(data, pos, limit, out).value
  {
    hide Chunks, Body, IsCompressedAt, ChunkEnd, RawEnd;
    var cut := data[..k];
    HeaderSays(data, pos);
    HeaderSays(cut, pos);
    RawStep(data, pos, limit, out);
    RawStep(cut, pos, limit, out);
    if pos + 4098 > k {
      ChunksPastEnd(cut, pos + 4098, pos + 4098, limit, out + cut[pos + 2..k]);
      ChunksGrow(data, pos + 4098, limit, out + data[pos + 2..RawEnd(data, pos)]);
      assert out + cut[pos + 2..k] <= out + data[pos + 2..RawEnd(data, pos)];
    } else {
      assert cut[pos + 2..pos + 4098] == data[pos + 2..pos + 4098];
    }
  }

  lemma PackedCut(data: seq<Byte>, k: nat, pos: nat, limit: int, out: seq<Byte>)
    requires k <= |data| && pos + 2 <= k && IsCompressedAt(data, pos) && Chunks(data, pos, limit, out).Done?
    ensures var end := ChunkEnd(data, pos);
      Body(data, pos + 2, end, []).Done? &&
      var next := out + Body(data, pos + 2, end, []).value;
      && Chunks(data, pos, limit, out) == Chunks(data, end, limit, next)
      && (end <= k ==> Chunks(data[..k], pos, limit, out) == Chunks(data[..k], end, limit, next))
    ensures ChunkEnd(data, pos) > k ==>
      var r := Chunks(data[..k], pos, limit, out); r.Done? && r.value <= Chunks(data, pos, limit, out).value
  {
    hide Chunks, Body, IsCompressedAt, ChunkEnd, RawEnd;
    var (cut, end) := (data[..k], ChunkEnd(data, pos));
    HeaderSays(data, pos);
    HeaderSays(cut, pos);
    CompressedStep(data, pos, limit, out);
    CompressedStep(cut, pos, limit, out);
    BodyCut(data, k, pos + 2, end, []);
    if end > k {
      var text := Body(cut, pos + 2, k, []).value;
      ChunksPastEnd(cut, k, k, limit, out + text);
      ChunksGrow(data, end, limit, out + Body(data, pos + 2, end, []).value);
      assert out + text <= out + Body(data, pos + 2, end, []).value;
    }
  }

  /** What is cut off at the end of a container takes only the end of its text:
      the rest is read as before, whether a chunk, a header or a token is cut. */
  lemma CutShort(data: seq<Byte>, limit: int, k: nat)
    requires 1 <= k <= |data| && Decode(data, limit).Done?
    ensures Decode(data[..k], limit).Done? && Decode(data[..k], limit).value <= Decode(data, limit).value
  {
    ChunksCut(data, k, 1, limit, []);
  }
}
