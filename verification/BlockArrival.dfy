/** A block that arrives piece by piece: when it is complete, told from the pieces. */
module BlockArrival {
  import opened Options
  import opened BlockWire
  import opened BlockPipeline
  import opened BlockSwarm

  /** The client is downloading, and the block at place `i` is the first around each of its bytes. */
  ghost predicate Expecting(d: Downloader, i: nat)
    reads d, d.file
  {
    && d.Valid() && d.state in {Downloading, NoNeededParts} && i < |d.pending| && !d.pending[i].broken
    && d.pending[i].block.start <= d.pending[i].block.end
    && forall k :: 0 <= k < i ==> Apart(d.pending[k].block, d.pending[i].block)
  }

  /** While all its blocks are on the file's list, a client can expect any of them. */
  lemma OwnExpected(d: Downloader, i: nat)
    requires d.Valid() && d.Owns() && d.state in {Downloading, NoNeededParts} && i < |d.pending| && !d.pending[i].broken
    ensures Expecting(d, i)
  {
    RegisteredAt(d.pending, d.file.requested, i);
    forall k | 0 <= k < i
      ensures Apart(d.pending[k].block, d.pending[i].block)
    {
      RegisteredAt(d.pending, d.file.requested, k);
      Distinct(d.pending, k, i, d.asked, 0, d.file.nextId);
    }
  }

  lemma FirstAround(ps: seq<Pending>, i: nat, start: nat)
    requires i < |ps| && Spans(ps[i], start) && forall k :: 0 <= k < i ==> Apart(ps[k].block, ps[i].block)
    ensures Around(ps, start) == i
  {
    var j := Around(ps, start);
    assert forall k :: 0 <= k < i ==> !Spans(ps[k], start);
    NoneBefore(ps, i, start);
  }

  lemma {:induction false} NoneBefore(ps: seq<Pending>, i: nat, start: nat)
    requires i < |ps| && Spans(ps[i], start) && forall k :: 0 <= k < i ==> !Spans(ps[k], start)
    ensures Around(ps, start) == i
  {
    if i > 0 {
      assert !Spans(ps[0], start);
      NoneBefore(ps[1..], i - 1, start);
    }
  }

  /**
   * Plain bytes. A block is finished by the piece that brings its last byte, if any of it is new, and by no other: one
   * that ends earlier, or brings nothing new, leaves it pending; one that goes past its end gives it back.
   */
  method PlainPiece(d: Downloader, i: nat, start: nat, end: nat, written: nat, now: nat, chosen: seq<Block>, again: seq<Block>)
    returns (outcome: Outcome)
    requires Expecting(d, i) && d.pending[i].block.start <= start <= d.pending[i].block.end
    modifies d, d.file
    ensures d.Valid() && old(d.pending)[i].id !in old(d.file.done)
    ensures outcome.Finished? <==> end == old(d.pending)[i].block.end && written > 0
    ensures outcome == GivenUp <==> end > old(d.pending)[i].block.end
    ensures outcome == Partial <==> end < old(d.pending)[i].block.end || (end == old(d.pending)[i].block.end && written == 0)
    ensures outcome == Partial ==> Expecting(d, i) && d.pending == old(d.pending) && d.file.done == old(d.file.done)
    ensures outcome.Finished? ==> old(d.pending)[i].id in d.file.done && old(d.pending)[i].id !in d.Held()
  {
    FirstAround(d.pending, i, start);
    Erased(d.pending, i, d.asked, 0, d.file.nextId);
    hide Tracked, AllApart, Ids, Covering, Around;
    outcome := d.ProcessBlockPacket(start, Plain(end, written), now, null, chosen, again);
    assert d.file.Valid();
  }

  /** Consecutive pieces of new bytes from the start of the block, each ending where `ends` says. */
  method PlainPieces(d: Downloader, i: nat, ends: seq<nat>, now: nat, chosen: seq<Block>, again: seq<Block>)
    returns (outcomes: seq<Outcome>)
    requires Expecting(d, i) && ends != []
    requires forall k :: 0 <= k < |ends| ==> d.pending[i].block.start <= ends[k] <= d.pending[i].block.end
    requires forall j, k :: 0 <= j < k < |ends| ==> ends[j] < ends[k]
    modifies d, d.file
    ensures old(d.pending)[i].id !in old(d.file.done)
    ensures |outcomes| == |ends| && forall k :: 0 <= k < |ends| - 1 ==> outcomes[k] == Partial
    ensures if ends[|ends| - 1] < old(d.pending)[i].block.end then
              outcomes[|ends| - 1] == Partial && d.pending == old(d.pending) && d.file.done == old(d.file.done)
            else
              outcomes[|ends| - 1].Finished? && old(d.pending)[i].id in d.file.done && old(d.pending)[i].id !in d.Held()
  {
    hide Ids;
    outcomes := [];
    ghost var p := d.pending[i];
    var start := d.pending[i].block.start;
    var k := 0;
    while k < |ends|
      invariant k == |outcomes| <= |ends| && (k > 0 ==> p.id !in old(d.file.done))
      invariant forall j :: 0 <= j < k && ends[j] < p.block.end ==> outcomes[j] == Partial
      invariant k == 0 || ends[k - 1] < p.block.end ==>
        && Expecting(d, i) && d.pending == old(d.pending) && d.file.done == old(d.file.done)
        && start == if k == 0 then p.block.start else ends[k - 1] + 1
      invariant k > 0 && ends[k - 1] == p.block.end ==> k == |ends| && outcomes[k - 1].Finished? && p.id in d.file.done && p.id !in d.Held()
    {
      assert k > 0 ==> ends[k - 1] < ends[k];
      var outcome := PlainPiece(d, i, start, ends[k], ends[k] - start + 1, now, chosen, again);
      assert k < |ends| - 1 ==> ends[k] < ends[k + 1];
      outcomes, start, k := outcomes + [outcome], ends[k] + 1, k + 1;
    }
  }

  function Sum(lengths: seq<nat>): nat { if lengths == [] then 0 else Sum(lengths[..|lengths| - 1]) + lengths[|lengths| - 1] }

  lemma {:induction false} SumGrows(lengths: seq<nat>, k: nat)
    requires k <= |lengths|
    ensures Sum(lengths[..k]) <= Sum(lengths)
    decreases |lengths|
  {
    if k == |lengths| {
      assert lengths[..k] == lengths;
    } else {
      var most := lengths[..|lengths| - 1];
      SumGrows(most, k);
      assert most[..k] == lengths[..k];
    }
  }

  lemma SumNext(lengths: seq<nat>, k: nat)
    requires k < |lengths|
    ensures Sum(lengths[..k + 1]) == Sum(lengths[..k]) + lengths[k] <= Sum(lengths)
  {
    assert lengths[..k + 1][..k] == lengths[..k];
    SumGrows(lengths, k + 1);
  }

  /**
   * Compressed bytes, of which the unzipper makes `n` more. The block is finished once it has made as many as the
   * block has, if the last of them are new, and by no other piece; one that makes more gives it back.
   */
  method PackedPiece(d: Downloader, i: nat, start: nat, n: nat, written: nat, now: nat, chosen: seq<Block>, again: seq<Block>)
    returns (outcome: Outcome)
    requires Expecting(d, i) && d.pending[i].block.start <= start <= d.pending[i].block.end
    requires n < 0x8000_0000 && d.pending[i].total + n < 0x1_0000_0000 && d.pending[i].block.start + d.pending[i].total + n < 0x1_0000_0000_0000_0000
    modifies d, d.file
    ensures d.Valid() && old(d.pending)[i].id !in old(d.file.done)
    ensures var p := old(d.pending)[i];
            var made, all := p.total + n, p.block.end - p.block.start + 1;
            && (outcome.Finished? <==> n > 0 && written > 0 && made == all)
            && (outcome == GivenUp <==> n > 0 && made > all)
            && (outcome == Partial <==> n == 0 || made < all || (made == all && written == 0))
            && (outcome == Partial ==> Expecting(d, i) && d.pending == old(d.pending)[i := p.(total := made)] && d.file.done == old(d.file.done))
            && (outcome.Finished? ==> p.id in d.file.done && p.id !in d.Held())
  {
    FirstAround(d.pending, i, start);
    Erased(d.pending, i, d.asked, 0, d.file.nextId);
    PackedFate(d.pending[i], n, written);
    hide Tracked, AllApart, Ids, Covering, Around, FateOf, After;
    outcome := d.ProcessBlockPacket(start, Packed(Some(n), written), now, null, chosen, again);
  }

  lemma PackedFate(p: Pending, n: nat, written: nat)
    requires !p.broken && p.block.start <= p.block.end
    requires n < 0x8000_0000 && p.total + n < 0x1_0000_0000 && p.block.start + p.total + n < 0x1_0000_0000_0000_0000
    ensures var made, all, fate := p.total + n, p.block.end - p.block.start + 1, FateOf(p, Packed(Some(n), written));
            && (fate == Whole <==> n > 0 && written > 0 && made == all)
            && (fate == GivenBack <==> n > 0 && made > all)
            && After(p, Packed(Some(n), written)) == p.(total := made)
  {
    assert (p.total + n) % 0x1_0000_0000 == p.total + n;
    if n > 0 {
      assert Wide(p.block.start + p.total + n - 1) == p.block.start + p.total + n - 1 && Wide(p.block.start + p.total) == p.block.start + p.total;
    }
  }

  /** Pieces that unzip to so many new bytes each, all together no more than the block has. */
  method PackedPieces(d: Downloader, i: nat, lengths: seq<nat>, now: nat, chosen: seq<Block>, again: seq<Block>)
    returns (outcomes: seq<Outcome>)
    requires Expecting(d, i) && d.pending[i].total == 0 && lengths != [] && lengths[|lengths| - 1] > 0
    requires forall k :: 0 <= k < |lengths| ==> lengths[k] < 0x8000_0000
    requires Sum(lengths) <= d.pending[i].block.end - d.pending[i].block.start + 1 < 0x1_0000_0000
    requires d.pending[i].block.end < 0xFFFF_FFFF_FFFF_FFFF
    modifies d, d.file
    ensures old(d.pending)[i].id !in old(d.file.done)
    ensures |outcomes| == |lengths| && forall k :: 0 <= k < |lengths| - 1 ==> outcomes[k] == Partial
    ensures var p := old(d.pending)[i];
            if Sum(lengths) < p.block.end - p.block.start + 1 then
              outcomes[|lengths| - 1] == Partial && p.id in d.Held() && d.file.done == old(d.file.done)
            else
              outcomes[|lengths| - 1].Finished? && p.id in d.file.done && p.id !in d.Held()
  {
    hide Ids, Sum;
    outcomes := [];
    ghost var p, all := d.pending[i], d.pending[i].block.end - d.pending[i].block.start + 1;
    assert Sum([]) == 0 by { NothingYet(); }
    var k := 0;
    while k < |lengths|
      invariant k == |outcomes| <= |lengths| && Sum(lengths[..k]) <= all && (k > 0 ==> p.id !in old(d.file.done))
      invariant k < |lengths| ==> Sum(lengths[..k]) < all
      invariant forall j :: 0 <= j < k && j < |lengths| - 1 ==> outcomes[j] == Partial
      invariant Sum(lengths[..k]) < all ==>
        && Expecting(d, i) && d.pending[i] == p.(total := Sum(lengths[..k])) && d.file.done == old(d.file.done)
        && (k > 0 ==> outcomes[k - 1] == Partial)
      invariant Sum(lengths[..k]) == all ==> outcomes[k - 1].Finished? && p.id in d.file.done && p.id !in d.Held()
    {
      SumNext(lengths, k);
      Unfinished(lengths, k + 1);
      var outcome := PackedPiece(d, i, d.pending[i].block.start, lengths[k], lengths[k], now, chosen, again);
      outcomes, k := outcomes + [outcome], k + 1;
    }
    assert lengths[..k] == lengths;
    if Sum(lengths) < all {
      AtPlace(d.pending, i);
    }
  }

  lemma NothingYet()
    ensures Sum([]) == 0
  {
  }

  /** A stream in error stays so: the block is given back by that piece and by every later one that starts in it. */
  method BrokenStream(d: Downloader, i: nat, start: nat, piece: Piece, later: Piece, now: nat) returns (first: Outcome, second: Outcome)
    requires Expecting(d, i) && d.pending[i].block.start <= start <= d.pending[i].block.end
    requires piece.Packed? && (piece.unzipped == None || piece.unzipped.value >= 0x8000_0000)
    modifies d, d.file
    ensures first == second == GivenUp && d.Valid() && |d.pending| == |old(d.pending)| && d.file.done == old(d.file.done)
    ensures d.pending[i] == old(d.pending)[i].(total := 0, broken := true)
  {
    FirstAround(d.pending, i, start);
    Erased(d.pending, i, d.asked, 0, d.file.nextId);
    hide Tracked, AllApart, Ids, Covering, Around;
    first := d.ProcessBlockPacket(start, piece, now, null, [], []);
    FirstAround(d.pending, i, start);
    second := d.ProcessBlockPacket(start, later, now, null, [], []);
  }

  /** Before the last piece, which brings something, not all has come. */
  lemma Unfinished(lengths: seq<nat>, k: nat)
    requires k <= |lengths| && lengths != [] && lengths[|lengths| - 1] > 0
    ensures k < |lengths| ==> Sum(lengths[..k]) < Sum(lengths)
  {
    if k < |lengths| {
      var most := lengths[..|lengths| - 1];
      SumGrows(most, k);
      assert most[..k] == lengths[..k];
    }
  }
}
