/** The corruption black box: what it records of a download, over any run of transfers and verifications, and whom it bans. */
module CorruptionBlackBox {
  import opened CorruptionRecords

  type Records = map<nat, seq<Record>>
  type Totals = map<nat, nat>

  /** Record lists by part, and the verified and the corrupt bytes by address. */
  datatype Box = Box(records: Records, good: Totals, bad: Totals)
  {
    ghost predicate Valid() {
      forall p :: p in records ==> p < PART_LIMIT && records[p] != [] && AllValid(records[p])
    }
  }

  const EMPTY: Box := Box(map[], map[], map[])

  function ListOf(records: Records, part: nat): seq<Record> { if part in records then records[part] else [] }

  function Total(totals: Totals, addr: nat): nat { if addr in totals then totals[addr] else 0 }

  /** What 16-bit part numbers and 32-bit relative offsets hold: every range inside a file of at most 256 GB, received in one packet. */
  predicate Fits(startPos: nat, endPos: nat) {
    endPos < PART_LIMIT * PARTSIZE && endPos - startPos / PARTSIZE * PARTSIZE < 0x1_0000_0000
  }

  function Transfer(records: Records, startPos: nat, endPos: nat, addr: nat): Records
    requires startPos <= endPos
    decreases endPos - startPos
  {
    var part := startPos / PARTSIZE;
    var border := (part + 1) * PARTSIZE;
    if endPos < border then
      records[part := Added(ListOf(records, part), startPos % PARTSIZE, endPos - part * PARTSIZE, addr)]
    else
      var rest := Transfer(records, border, endPos, addr);
      rest[part := Added(ListOf(rest, part), startPos % PARTSIZE, PARTSIZE - 1, addr)]
  }

  function Verify(box: Box, ok: bool, part: nat, lo: nat, hi: nat): Box {
    var list := ListOf(box.records, part);
    var left := Remaining(list, lo, hi);
    var records := if left == [] then box.records - {part} else box.records[part := left];
    Settled(box, ok, Pieces(list, lo, hi)).(records := records)
  }

  /** One piece counted for its sender: its bytes as good, or at least a block as bad. */
  function Counted(box: Box, ok: bool, addr: nat, n: nat): Box {
    if ok then box.(good := box.good[addr := Total(box.good, addr) + n])
    else box.(bad := box.bad[addr := Total(box.bad, addr) + AtLeast(n, EMBLOCKSIZE)])
  }

  function Settled(box: Box, ok: bool, pieces: seq<(nat, nat)>): Box
    decreases |pieces|
  {
    if pieces == [] then box else Settled(Counted(box, ok, pieces[0].0, pieces[0].1), ok, pieces[1..])
  }

  /** Inside the widths that Fits names, the truncated arithmetic of TransferredData is exact, and the recursive call stays inside. */
  lemma RelativePositions(startPos: nat, endPos: nat)
    requires startPos <= endPos && Fits(startPos, endPos)
    ensures var part := startPos / PARTSIZE;
            && part % PART_LIMIT == part
            && (startPos - part * PARTSIZE) % 0x1_0000_0000 == startPos % PARTSIZE
            && (endPos - part * PARTSIZE) % 0x1_0000_0000 == endPos - part * PARTSIZE
            && startPos < (part + 1) * PARTSIZE
            && (part + 1) * PARTSIZE / PARTSIZE == part + 1
            && ((part + 1) * PARTSIZE <= endPos ==> Fits((part + 1) * PARTSIZE, endPos))
  {
  }

  lemma AddedStep(all: seq<Record>, i: nat, s: nat, e: nat, addr: nat)
    requires i < |all|
    ensures var (joined, record) := all[i].Merge(s, e, addr);
            all[..i] + Added(all[i..], s, e, addr) == if joined then all[i := record] else all[..i + 1] + Added(all[i + 1..], s, e, addr)
  {
    assert all[i..][1..] == all[i + 1..] && all[..i + 1] == all[..i] + [all[i]];
  }

  lemma Assoc(a: seq<Record>, b: seq<Record>, c: seq<Record>)
    ensures a + (b + c) == (a + b) + c
  {
  }

  lemma SettledStep(box: Box, ok: bool, list: seq<Record>, lo: nat, hi: nat)
    requires list != []
    ensures var n := Piece(list[0], lo, hi);
            Settled(box, ok, Pieces(list, lo, hi))
            == Settled(if n == 0 then box else Counted(box, ok, list[0].ip, n), ok, Pieces(list[1..], lo, hi))
  {
    if Piece(list[0], lo, hi) > 0 {
      assert Pieces(list, lo, hi)[1..] == Pieces(list[1..], lo, hi);
    } else {
      assert Pieces(list, lo, hi) == Pieces(list[1..], lo, hi);
    }
  }

  /** The class: each method makes the step that its specification function describes. */
  class BlackBox {
    var records: Records
    var good: Totals
    var bad: Totals

    constructor ()
      ensures State() == EMPTY
    {
      records, good, bad := map[], map[], map[];
    }

    ghost function State(): Box
      reads this
    {
      Box(records, good, bad)
    }

    method TransferredData(startPos: nat, endPos: nat, senderIP: nat)
      requires startPos <= endPos ==> Fits(startPos, endPos)
      modifies this`records
      ensures records == if startPos <= endPos then Transfer(old(records), startPos, endPos, senderIP) else old(records)
      decreases if startPos <= endPos then endPos - startPos else 0
    {
      if startPos > endPos {
        return;
      }
      var part := startPos / PARTSIZE % PART_LIMIT;
      RelativePositions(startPos, endPos);
      var relStart := (startPos - part * PARTSIZE) % 0x1_0000_0000;
      var relEnd := (endPos - part * PARTSIZE) % 0x1_0000_0000;
      if relEnd >= PARTSIZE {
        relEnd := PARTSIZE - 1;
        TransferredData((part + 1) * PARTSIZE, endPos, senderIP);
      }
      var list := AddRange(ListOf(records, part), relStart, relEnd, senderIP);
      records := records[part := list];
    }

    /** The loop of TransferredData: join the first record that fits, or append. */
    static method AddRange(all: seq<Record>, relStart: nat, relEnd: nat, senderIP: nat) returns (list: seq<Record>)
      ensures list == Added(all, relStart, relEnd, senderIP)
    {
      list := all;
      var merged := false;
      var i := 0;
      while i < |list| && !merged
        invariant i <= |list|
        invariant !merged ==> list == all && Added(all, relStart, relEnd, senderIP) == all[..i] + Added(all[i..], relStart, relEnd, senderIP)
        invariant merged ==> list == Added(all, relStart, relEnd, senderIP)
      {
        var (joined, record) := list[i].Merge(relStart, relEnd, senderIP);
        AddedStep(all, i, relStart, relEnd, senderIP);
        if joined {
          list := list[i := record];
          merged := true;
        }
        i := i + 1;
      }
      assert !merged ==> all[..i] == all && all[i..] == [];
      if !merged {
        list := list + [Record(relStart, relEnd, senderIP)];
      }
    }

    /** The branches of VerifiedData: cut one record of the list in place, and step past what is left of it. */
    static method CutRecord(list: seq<Record>, i: nat, relStart: nat, relEnd: nat) returns (edited: seq<Record>, next: nat, data: nat)
      requires i < |list| && list[i].Valid() && relStart <= relEnd
      ensures next <= |edited| && edited[..next] == list[..i] + Cut(list[i], relStart, relEnd) && edited[next..] == list[i + 1..]
      ensures data == Piece(list[i], relStart, relEnd)
    {
      var cur := list[i];
      edited, next, data := list, i, 0;
      if relStart <= cur.start <= relEnd {
        if cur.end > relEnd {
          data := relEnd - cur.start + 1;
          edited := list[i := Record(relEnd + 1, cur.end, cur.ip)];
          next := i + 1;
        } else {
          data := cur.end - cur.start + 1;
          edited := list[..i] + list[i + 1..];
        }
      } else if cur.start < relStart && cur.end >= relStart {
        if cur.end > relEnd {
          data := relEnd - relStart + 1;
          edited := list[..i] + [Record(cur.start, relStart - 1, cur.ip), Record(relEnd + 1, cur.end, cur.ip)] + list[i + 1..];
          next := i + 2;
        } else {
          data := cur.end - relStart + 1;
          edited := list[i := Record(cur.start, relStart - 1, cur.ip)];
          next := i + 1;
        }
      } else {
        next := i + 1;
      }
    }

    method CountData(ok: bool, ip: nat, data: nat)
      modifies this`good, this`bad
      ensures State() == Counted(old(State()), ok, ip, data)
    {
      if ok {
        good := good[ip := Total(good, ip) + data];
      } else {
        bad := bad[ip := Total(bad, ip) + (if data > EMBLOCKSIZE then data else EMBLOCKSIZE)];
      }
    }

    method VerifiedData(ok: bool, part: nat, relStart: nat, relEnd: nat)
      requires part < PART_LIMIT
      requires State().Valid()
      modifies this
      ensures State() == if relStart <= relEnd then Verify(old(State()), ok, part, relStart, relEnd) else old(State())
    {
      if relStart > relEnd {
        return;
      }
      var list := ListOf(records, part);
      ghost var end := Settled(State(), ok, Pieces(list, relStart, relEnd));
      ghost var left, rest := Remaining(list, relStart, relEnd), list;
      var i := 0;
      while i < |list|
        invariant 0 <= i <= |list| && list[i..] == rest && AllValid(rest)
        invariant left == list[..i] + Remaining(rest, relStart, relEnd)
        invariant records == old(records)
        invariant Settled(State(), ok, Pieces(rest, relStart, relEnd)) == end
        decreases |rest|
      {
        var cur := list[i];
        assert cur == rest[0] && cur.Valid();
        SettledStep(State(), ok, rest, relStart, relEnd);
        ghost var done := list[..i];
        var data;
        list, i, data := CutRecord(list, i, relStart, relEnd);
        rest := rest[1..];
        Assoc(done, Cut(cur, relStart, relEnd), Remaining(rest, relStart, relEnd));
        assert left == list[..i] + Remaining(rest, relStart, relEnd);
        if data > 0 {
          CountData(ok, cur.ip, data);
        }
      }
      assert left == list[..i] + [] == list;
      records := if |list| == 0 then records - {part} else records[part := list];
    }

    /** The addresses that EvaluateData bans. */
    method EvaluateData() returns (banned: set<nat>)
      ensures forall addr :: addr in banned <==> addr in bad && ShouldBan(bad[addr], Total(good, addr))
    {
      banned := {};
      var todo := bad.Keys;
      while todo != {}
        invariant todo <= bad.Keys
        invariant forall addr :: addr in banned <==> addr in bad && addr !in todo && ShouldBan(bad[addr], Total(good, addr))
        decreases todo
      {
        var addr :| addr in todo;
        todo := todo - {addr};
        if bad[addr] != 0 {
          var percentage := bad[addr] * 100 / (bad[addr] + Total(good, addr));
          if percentage > CBB_BANTHRESHOLD {
            banned := banned + {addr};
          }
        }
      }
    }
  }

  predicate ShouldBan(bad: nat, good: nat) {
    bad != 0 && bad * 100 / (bad + good) > CBB_BANTHRESHOLD
  }

  /** The truncated percentage draws the line at 33: a third, less a little. */
  lemma BanLine(bad: nat, good: nat)
    ensures ShouldBan(bad, good) <==> bad != 0 && 67 * bad >= 33 * good
  {
    if bad != 0 {
      QuotientAtLeast(bad * 100, bad + good, 33);
    }
  }

  lemma QuotientAtLeast(n: nat, d: nat, k: nat)
    requires d > 0
    ensures n / d >= k <==> n >= d * k
  {
    var q := n / d;
    assert n == d * q + n % d;
    if q >= k {
      MulMonotone(d, k, q);
    } else {
      MulMonotone(d, q + 1, k);
      assert d * (q + 1) == d * q + d;
    }
  }

  lemma MulMonotone(d: nat, a: int, b: int)
    requires a <= b
    ensures d * a <= d * b
  {
    assert d * b - d * a == d * (b - a);
  }

  datatype Event = Transferred(startPos: nat, endPos: nat, ip: nat) | Verified(ok: bool, part: nat, lo: nat, hi: nat)
  {
    /** What the callers keep to: ranges inside the file, and part numbers of 16 bits. */
    ghost predicate Proper() {
      match this
      case Transferred(s, e, _) => s <= e ==> Fits(s, e)
      case Verified(_, part, _, _) => part < PART_LIMIT
    }
  }

  function Step(box: Box, ev: Event): Box {
    match ev
    case Transferred(s, e, ip) => if s <= e then box.(records := Transfer(box.records, s, e, ip)) else box
    case Verified(ok, part, lo, hi) => if lo <= hi then Verify(box, ok, part, lo, hi) else box
  }

  function Run(box: Box, evs: seq<Event>): Box {
    if evs == [] then box else Step(Run(box, evs[..|evs| - 1]), evs[|evs| - 1])
  }

  /** All bytes on record for `addr`, over parts below `n`. */
  function RecordedBelow(records: Records, addr: nat, n: nat): nat {
    if n == 0 then 0 else RecordedBelow(records, addr, n - 1) + Bytes(ListOf(records, n - 1), addr)
  }

  function Recorded(records: Records, addr: nat): nat { RecordedBelow(records, addr, PART_LIMIT) }

  /** The bytes that events report for `addr`. */
  function Reported(evs: seq<Event>, addr: nat): nat {
    if evs == [] then 0
    else
      var ev := evs[|evs| - 1];
      Reported(evs[..|evs| - 1], addr) +
      if ev.Transferred? && ev.startPos <= ev.endPos && ev.ip == addr then ev.endPos - ev.startPos + 1 else 0
  }

  /** The pieces that one event takes out of the records as corrupt. */
  function CorruptPieces(box: Box, ev: Event): seq<(nat, nat)> {
    if ev.Verified? && !ev.ok && ev.lo <= ev.hi then Pieces(ListOf(box.records, ev.part), ev.lo, ev.hi) else []
  }

  /** What a run removes of `addr` as corrupt, each piece counted as at least `floor`. */
  function Removed(box: Box, evs: seq<Event>, addr: nat, floor: nat): nat {
    if evs == [] then 0
    else
      var before := evs[..|evs| - 1];
      Removed(box, before, addr, floor) + PieceSum(CorruptPieces(Run(box, before), evs[|evs| - 1]), addr, floor)
  }

  lemma {:induction false} PartChange(a: Records, b: Records, part: nat, addr: nat, n: nat)
    requires forall p :: p != part ==> ListOf(a, p) == ListOf(b, p)
    ensures RecordedBelow(b, addr, n) + (if part < n then Bytes(ListOf(a, part), addr) else 0)
         == RecordedBelow(a, addr, n) + (if part < n then Bytes(ListOf(b, part), addr) else 0)
  {
    if n > 0 {
      PartChange(a, b, part, addr, n - 1);
    }
  }

  lemma {:induction false} SettledAdds(box: Box, ok: bool, pieces: seq<(nat, nat)>, addr: nat)
    ensures var after := Settled(box, ok, pieces);
            && after.records == box.records
            && Total(after.good, addr) == Total(box.good, addr) + (if ok then PieceSum(pieces, addr, 0) else 0)
            && Total(after.bad, addr) == Total(box.bad, addr) + (if ok then 0 else PieceSum(pieces, addr, EMBLOCKSIZE))
    decreases |pieces|
  {
    if pieces != [] {
      SettledAdds(Counted(box, ok, pieces[0].0, pieces[0].1), ok, pieces[1..], addr);
    }
  }

  /** One transfer adds its length to its sender's recorded bytes, and one record's worth of coverage to exactly its range, across part borders too. */
  lemma {:induction false} TransferExactly(box: Box, startPos: nat, endPos: nat, ip: nat, addr: nat, part: nat, rel: nat)
    requires box.Valid() && startPos <= endPos && endPos < PART_LIMIT * PARTSIZE && rel < PARTSIZE
    ensures var records := Transfer(box.records, startPos, endPos, ip);
            && box.(records := records).Valid()
            && Recorded(records, addr) == Recorded(box.records, addr) + (if ip == addr then endPos - startPos + 1 else 0)
            && Coverage(ListOf(records, part), addr, rel) == Coverage(ListOf(box.records, part), addr, rel)
               + (if ip == addr && startPos <= part * PARTSIZE + rel <= endPos then 1 else 0)
    decreases endPos - startPos
  {
    var first := startPos / PARTSIZE;
    var border := (first + 1) * PARTSIZE;
    if endPos < border {
      AddedToPart(box, first, startPos % PARTSIZE, endPos - first * PARTSIZE, ip, addr, part, rel);
    } else {
      TransferExactly(box, border, endPos, ip, addr, part, rel);
      var rest := Transfer(box.records, border, endPos, ip);
      AddedToPart(box.(records := rest), first, startPos % PARTSIZE, PARTSIZE - 1, ip, addr, part, rel);
    }
  }

  lemma AddedToPart(box: Box, first: nat, relStart: nat, relEnd: nat, ip: nat, addr: nat, part: nat, rel: nat)
    requires box.Valid() && first < PART_LIMIT && relStart <= relEnd < PARTSIZE && rel < PARTSIZE
    ensures var records := box.records[first := Added(ListOf(box.records, first), relStart, relEnd, ip)];
            && box.(records := records).Valid()
            && Recorded(records, addr) == Recorded(box.records, addr) + (if ip == addr then relEnd - relStart + 1 else 0)
            && Coverage(ListOf(records, part), addr, rel) == Coverage(ListOf(box.records, part), addr, rel)
               + (if ip == addr && first * PARTSIZE + relStart <= part * PARTSIZE + rel <= first * PARTSIZE + relEnd then 1 else 0)
  {
    var records := box.records[first := Added(ListOf(box.records, first), relStart, relEnd, ip)];
    assert AllValid(ListOf(box.records, first));
    AddedAddsExactly(ListOf(box.records, first), relStart, relEnd, ip, addr, rel);
    PartChange(box.records, records, first, addr, PART_LIMIT);
    SamePart(part, rel, first, relStart, relEnd);
  }

  /** Absolute and relative positions name the same bytes. */
  lemma SamePart(part: nat, rel: nat, first: nat, relStart: nat, relEnd: nat)
    requires rel < PARTSIZE && relStart <= relEnd < PARTSIZE
    ensures first * PARTSIZE + relStart <= part * PARTSIZE + rel <= first * PARTSIZE + relEnd
            <==> part == first && relStart <= rel <= relEnd
  {
  }

  /** A verification moves bytes from the records to the good or the removed ones, and touches no coverage outside its range. */
  lemma VerifyExactly(box: Box, ok: bool, part: nat, lo: nat, hi: nat, addr: nat, other: nat, rel: nat)
    requires box.Valid() && lo <= hi && part < PART_LIMIT
    ensures var after := Verify(box, ok, part, lo, hi);
            var pieces := Pieces(ListOf(box.records, part), lo, hi);
            && after.Valid()
            && Recorded(after.records, addr) + PieceSum(pieces, addr, 0) == Recorded(box.records, addr)
            && Total(after.good, addr) == Total(box.good, addr) + (if ok then PieceSum(pieces, addr, 0) else 0)
            && Total(after.bad, addr) == Total(box.bad, addr) + (if ok then 0 else PieceSum(pieces, addr, EMBLOCKSIZE))
            && Coverage(ListOf(after.records, other), addr, rel)
               == if other == part && lo <= rel <= hi then 0 else Coverage(ListOf(box.records, other), addr, rel)
  {
    var list := ListOf(box.records, part);
    var after := Verify(box, ok, part, lo, hi);
    assert AllValid(list);
    RemainingExactly(list, lo, hi, addr, rel);
    assert ListOf(after.records, part) == Remaining(list, lo, hi);
    PartChange(box.records, after.records, part, addr, PART_LIMIT);
    SettledAdds(box, ok, Pieces(list, lo, hi), addr);
  }

  /**
   * Conservation over any run: for every address, the bytes reported are those still on record, those
   * credited as good and those removed as corrupt. The bad counter is not the removed bytes: it counts
   * every removed piece as at least one block.
   */
  lemma {:induction false} Conservation(box: Box, evs: seq<Event>, addr: nat)
    requires box.Valid() && forall ev :: ev in evs ==> ev.Proper()
    ensures var end := Run(box, evs);
            && end.Valid()
            && Recorded(end.records, addr) + Total(end.good, addr) + Removed(box, evs, addr, 0)
               == Recorded(box.records, addr) + Total(box.good, addr) + Reported(evs, addr)
            && Total(end.bad, addr) == Total(box.bad, addr) + Removed(box, evs, addr, EMBLOCKSIZE)
  {
    if evs != [] {
      var before, ev := evs[..|evs| - 1], evs[|evs| - 1];
      Conservation(box, before, addr);
      var mid := Run(box, before);
      assert ev in evs && ev.Proper();
      match ev {
        case Transferred(s, e, ip) =>
          if s <= e {
            TransferExactly(mid, s, e, ip, addr, 0, 0);
          }
        case Verified(ok, part, lo, hi) =>
          if lo <= hi {
            VerifyExactly(mid, ok, part, lo, hi, addr, 0, 0);
          }
      }
    }
  }

  /**
   * Who is banned, in terms of the run alone: from an empty box, an address is banned exactly when
   * something of it was removed as corrupt and its charge reaches 33/67 of what it sent that is
   * neither on record any more nor removed.
   */
  lemma BannedExactly(evs: seq<Event>, addr: nat)
    requires forall ev :: ev in evs ==> ev.Proper()
    ensures var end := Run(EMPTY, evs);
            && Recorded(end.records, addr) + Removed(EMPTY, evs, addr, 0) <= Reported(evs, addr)
            && (ShouldBan(Total(end.bad, addr), Total(end.good, addr)) <==>
                && Removed(EMPTY, evs, addr, 0) > 0
                && 67 * Removed(EMPTY, evs, addr, EMBLOCKSIZE)
                   >= 33 * (Reported(evs, addr) - Recorded(end.records, addr) - Removed(EMPTY, evs, addr, 0)))
  {
    var end := Run(EMPTY, evs);
    Conservation(EMPTY, evs, addr);
    NothingRecorded(addr, PART_LIMIT);
    BanLine(Total(end.bad, addr), Total(end.good, addr));
    ChargedIffRemoved(EMPTY, evs, addr);
  }

  lemma {:induction false} NothingRecorded(addr: nat, n: nat)
    ensures RecordedBelow(map[], addr, n) == 0
  {
    if n > 0 {
      NothingRecorded(addr, n - 1);
    }
  }

  lemma {:induction false} ChargedIffRemoved(box: Box, evs: seq<Event>, addr: nat)
    ensures Removed(box, evs, addr, EMBLOCKSIZE) >= Removed(box, evs, addr, 0)
    ensures Removed(box, evs, addr, EMBLOCKSIZE) > 0 <==> Removed(box, evs, addr, 0) > 0
  {
    if evs != [] {
      var before := evs[..|evs| - 1];
      ChargedIffRemoved(box, before, addr);
      var ev, mid := evs[|evs| - 1], Run(box, before);
      if CorruptPieces(mid, ev) != [] {
        ChargeAtLeast(ListOf(mid.records, ev.part), ev.lo, ev.hi, addr);
      }
    }
  }
}
