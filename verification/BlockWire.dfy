/** The legacy block request on the wire: three start offsets, then three end offsets, and what the uploader makes of them. */
module BlockWire {
  import opened Bytes

  const STANDARD_BLOCKS_REQUEST: nat := 3
  const MAX32: nat := 0xFFFF_FFFF

  /** Bytes start..end of a file, both included. */
  datatype Block = Block(start: nat, end: nat)
  {
    predicate Valid() { start <= end < 0xFFFF_FFFF_FFFF_FFFF }
    predicate Long() { start > MAX32 || end > MAX32 }
  }

  function AnyLong(blocks: seq<Block>): bool { exists b :: b in blocks && b.Long() }

  /** The offsets as the sender lays them out: absent blocks are zero pairs, and ends are one past the last byte. */
  function Offsets(blocks: seq<Block>): (r: seq<nat>)
    requires |blocks| <= STANDARD_BLOCKS_REQUEST
    ensures |r| == 6
  {
    seq(6, i requires 0 <= i < 6 =>
      if i < 3 then (if i < |blocks| then blocks[i].start else 0)
      else (if i - 3 < |blocks| then blocks[i - 3].end + 1 else 0))
  }

  function Words(ns: seq<nat>, width: nat): (bs: seq<byte>)
    ensures |bs| == |ns| * width
  {
    if ns == [] then [] else
      assert (|ns| - 1) * width + width == |ns| * width;
      Encode(ns[0], width) + Words(ns[1..], width)
  }

  /** The packet after the file hash: 8-byte offsets if any block needs them, 4-byte ones if not. */
  function Packet(blocks: seq<Block>): seq<byte>
    requires |blocks| <= STANDARD_BLOCKS_REQUEST
  {
    Words(Offsets(blocks), if AnyLong(blocks) then 8 else 4)
  }

  /** Sequential reads of `n` integers. */
  function ReadWords(bs: seq<byte>, width: nat, n: nat): (ns: seq<nat>)
    requires |bs| == n * width
    ensures |ns| == n
  {
    if n == 0 then [] else
      assert n * width == (n - 1) * width + width;
      [Decode(bs[..width])] + ReadWords(bs[width..], width, n - 1)
  }

  /** ProcessRequestPartsPacket: pairs whose end is not after their start are skipped. The result holds start and last byte. */
  function Received(bs: seq<byte>, large: bool): seq<Block>
    requires |bs| == 6 * (if large then 8 else 4)
  {
    var ns := ReadWords(bs, if large then 8 else 4, 6);
    Pair(ns[0], ns[3]) + Pair(ns[1], ns[4]) + Pair(ns[2], ns[5])
  }

  function Pair(start: nat, end: nat): seq<Block> {
    if end > start then [Block(start, end - 1)] else []
  }

  lemma {:induction false} ReadBack(ns: seq<nat>, width: nat)
    ensures |Words(ns, width)| == |ns| * width && |ReadWords(Words(ns, width), width, |ns|)| == |ns|
    ensures forall i :: 0 <= i < |ns| ==> ReadWords(Words(ns, width), width, |ns|)[i] == ns[i] % Span(width)
  {
    if ns != [] {
      var bs := Words(ns, width);
      assert (|ns| - 1) * width + width == |ns| * width;
      assert bs[..width] == Encode(ns[0], width) && bs[width..] == Words(ns[1..], width);
      DecodeEncode(ns[0], width);
      ReadBack(ns[1..], width);
      assert ReadWords(bs, width, |ns|) == [Decode(bs[..width])] + ReadWords(bs[width..], width, |ns| - 1);
    }
  }

  /** A block that a packet with offsets of `width` bytes does not lose. */
  predicate Survives(b: Block, width: nat) { width == 8 || b.end != MAX32 }

  /** Each slot of the packet comes out as its block, or as nothing if it is padding or its end wrapped to 0. */
  lemma SlotExact(blocks: seq<Block>, i: nat)
    requires |blocks| <= STANDARD_BLOCKS_REQUEST && i < 3 && forall b :: b in blocks ==> b.Valid()
    ensures var width := if AnyLong(blocks) then 8 else 4;
            var ns := ReadWords(Packet(blocks), width, 6);
            Pair(ns[i], ns[i + 3]) == if i < |blocks| && Survives(blocks[i], width) then [blocks[i]] else []
  {
    var width := if AnyLong(blocks) then 8 else 4;
    ReadBack(Offsets(blocks), width);
    hide Words, ReadWords, Span;
    if i < |blocks| {
      assert blocks[i] in blocks && blocks[i].Valid() && (blocks[i].Long() ==> width == 8);
      WrappedPair(blocks[i], width);
    } else {
      assert 0 % Span(width) == 0;
    }
  }

  lemma WrappedPair(b: Block, width: nat)
    requires b.Valid() && (width == 8 || (width == 4 && !b.Long()))
    ensures Pair(b.start % Span(width), (b.end + 1) % Span(width)) == if Survives(b, width) then [b] else []
  {
    SpanValues();
    hide Span;
  }

  /**
   * What the uploader reads is what was asked for, in order, exactly when no 4-byte packet asks for a
   * block ending at 0xFFFFFFFF: that end, plus one, is written as 0 and the block is skipped.
   */
  lemma WireExact(blocks: seq<Block>)
    requires |blocks| <= STANDARD_BLOCKS_REQUEST && forall b :: b in blocks ==> b.Valid()
    ensures Received(Packet(blocks), AnyLong(blocks)) == blocks
            <==> AnyLong(blocks) || forall b :: b in blocks ==> b.end != MAX32
  {
    hide AnyLong, Packet, ReadWords, Pair;
    SlotExact(blocks, 0);
    SlotExact(blocks, 1);
    SlotExact(blocks, 2);
    var width := if AnyLong(blocks) then 8 else 4;
    assert forall k :: 0 <= k < |blocks| ==> blocks[k] in blocks;
    assert (forall b :: b in blocks ==> Survives(b, width)) <==> forall k :: 0 <= k < |blocks| ==> Survives(blocks[k], width);
  }
}
