/** What a corrupt range costs its sender, told from the packets that brought it. */
module CorruptionCharge {
  import opened CorruptionRecords
  import opened CorruptionBlackBox

  /** Some byte of the transfer is from this address and in this part. */
  predicate Touches(ev: Event, part: nat, addr: nat) {
    ev.Transferred? && ev.ip == addr && ev.startPos <= ev.endPos && ev.startPos / PARTSIZE <= part <= ev.endPos / PARTSIZE
  }

  predicate Untouched(evs: seq<Event>, part: nat, addr: nat) { forall ev :: ev in evs ==> !Touches(ev, part, addr) }

  /**
   * Of all these transfers, those of `addr` into the part bring lo..hi: a first range, and then each one that goes
   * on where the ones before end or ends where they begin. What others send, and what it sends elsewhere, comes between.
   */
  ghost predicate Grown(evs: seq<Event>, part: nat, addr: nat, lo: nat, hi: nat) {
    && evs != []
    && var before, ev := evs[..|evs| - 1], evs[|evs| - 1];
       && ev.Transferred? && ev.Proper()
       && if !Touches(ev, part, addr) then Grown(before, part, addr, lo, hi)
          else
            && ev.startPos / PARTSIZE == part == ev.endPos / PARTSIZE
            && ((ev.startPos == lo && ev.endPos == hi && AllTransfers(before) && Untouched(before, part, addr))
                || (ev.endPos == hi && lo < ev.startPos && Grown(before, part, addr, lo, ev.startPos - 1))
                || (ev.startPos == lo && ev.endPos < hi && Grown(before, part, addr, ev.endPos + 1, hi)))
  }

  ghost predicate AllTransfers(evs: seq<Event>) { forall ev :: ev in evs ==> ev.Transferred? && ev.Proper() }

  /** How many bytes two ranges share. */
  function Shared(a: nat, b: nat, c: nat, d: nat): nat {
    var from, to := if a < c then c else a, if b < d then b else d;
    if from <= to then to - from + 1 else 0
  }

  // ---- The records of one address ----

  function Of(list: seq<Record>, addr: nat): seq<Record> {
    if list == [] then [] else (if list[0].ip == addr then [list[0]] else []) + Of(list[1..], addr)
  }

  lemma {:induction false} AddedOther(list: seq<Record>, s: nat, e: nat, ip: nat, addr: nat)
    requires ip != addr
    ensures Of(Added(list, s, e, ip), addr) == Of(list, addr)
  {
    if list == [] {
      assert [Record(s, e, ip)][1..] == [];
    } else {
      var (joined, r) := list[0].Merge(s, e, ip);
      if joined {
        assert ([r] + list[1..])[1..] == list[1..];
      } else {
        AddedOther(list[1..], s, e, ip, addr);
        assert ([list[0]] + Added(list[1..], s, e, ip))[1..] == Added(list[1..], s, e, ip);
      }
    }
  }

  /** A first record, or one joined to the only one there is. */
  lemma {:induction false} AddedOwn(list: seq<Record>, s: nat, e: nat, addr: nat)
    ensures Of(list, addr) == [] ==> Of(Added(list, s, e, addr), addr) == [Record(s, e, addr)]
    ensures |Of(list, addr)| == 1 ==>
      var r := Of(list, addr)[0];
      && (s == r.end + 1 ==> Of(Added(list, s, e, addr), addr) == [Record(r.start, e, addr)])
      && (e + 1 == r.start && s != r.end + 1 ==> Of(Added(list, s, e, addr), addr) == [Record(s, r.end, addr)])
  {
    if list == [] {
      assert [Record(s, e, addr)][1..] == [];
    } else {
      var (joined, r) := list[0].Merge(s, e, addr);
      if joined {
        assert ([r] + list[1..])[1..] == list[1..];
        assert Of(list, addr) == [list[0]] + Of(list[1..], addr);
      } else {
        AddedOwn(list[1..], s, e, addr);
        assert ([list[0]] + Added(list[1..], s, e, addr))[1..] == Added(list[1..], s, e, addr);
      }
    }
  }

  lemma {:induction false} NoneOf(list: seq<Record>, addr: nat)
    requires AllValid(list) && Bytes(list, addr) == 0
    ensures Of(list, addr) == []
  {
    if list != [] {
      assert list[0].Valid() && AllValid(list[1..]);
      NoneOf(list[1..], addr);
    }
  }

  /** A transfer adds its bytes of each part that it meets to the records of that part, and leaves the others. */
  lemma {:induction false} TransferredTo(records: Records, s: nat, e: nat, ip: nat, part: nat)
    requires s <= e
    ensures ListOf(Transfer(records, s, e, ip), part) ==
      if s / PARTSIZE <= part <= e / PARTSIZE then
        Added(ListOf(records, part), if part == s / PARTSIZE then s % PARTSIZE else 0, if part == e / PARTSIZE then e % PARTSIZE else PARTSIZE - 1, ip)
      else ListOf(records, part)
    decreases e - s
  {
    var first := s / PARTSIZE;
    if e >= (first + 1) * PARTSIZE {
      TransferredTo(records, (first + 1) * PARTSIZE, e, ip, part);
    }
  }

  /** The part has no record of the address yet, or one, for all that it has sent. */
  lemma {:induction false} StillUntouched(box: Box, evs: seq<Event>, part: nat, addr: nat)
    requires box.Valid() && AllTransfers(evs) && Untouched(evs, part, addr)
    ensures Of(ListOf(Run(box, evs).records, part), addr) == Of(ListOf(box.records, part), addr)
    ensures Run(box, evs).bad == box.bad && Run(box, evs).good == box.good
  {
    if evs != [] {
      var before, ev := evs[..|evs| - 1], evs[|evs| - 1];
      assert ev in evs && forall x :: x in before ==> x in evs;
      StillUntouched(box, before, part, addr);
      if ev.startPos <= ev.endPos {
        OtherTransfer(Run(box, before), ev, part, addr);
      }
    }
  }

  lemma OtherTransfer(box: Box, ev: Event, part: nat, addr: nat)
    requires ev.Transferred? && !Touches(ev, part, addr)
    ensures Of(ListOf(Step(box, ev).records, part), addr) == Of(ListOf(box.records, part), addr)
    ensures Step(box, ev).bad == box.bad && Step(box, ev).good == box.good
  {
    if ev.startPos <= ev.endPos {
      TransferredTo(box.records, ev.startPos, ev.endPos, ev.ip, part);
      if ev.startPos / PARTSIZE <= part <= ev.endPos / PARTSIZE {
        var list := ListOf(box.records, part);
        AddedOther(list, if part == ev.startPos / PARTSIZE then ev.startPos % PARTSIZE else 0,
                   if part == ev.endPos / PARTSIZE then ev.endPos % PARTSIZE else PARTSIZE - 1, ev.ip, addr);
      }
    }
  }

  /** A transfer that goes on where its sender's one record ends or begins makes that longer; a first one becomes its record. */
  lemma OwnTransfer(box: Box, ev: Event, part: nat, addr: nat, was: seq<Record>)
    requires Touches(ev, part, addr) && ev.startPos / PARTSIZE == part == ev.endPos / PARTSIZE
    requires Of(ListOf(box.records, part), addr) == was && (|was| == 1 ==> was[0].start <= was[0].end)
    ensures part * PARTSIZE <= ev.startPos <= ev.endPos < (part + 1) * PARTSIZE
    ensures var now := Of(ListOf(Step(box, ev).records, part), addr);
            var s, e := ev.startPos - part * PARTSIZE, ev.endPos - part * PARTSIZE;
            && (was == [] ==> now == [Record(s, e, addr)])
            && (|was| == 1 && s == was[0].end + 1 ==> now == [Record(was[0].start, e, addr)])
            && (|was| == 1 && e + 1 == was[0].start ==> now == [Record(s, was[0].end, addr)])
    ensures Step(box, ev).bad == box.bad && Step(box, ev).good == box.good
  {
    TransferredTo(box.records, ev.startPos, ev.endPos, addr, part);
    var s, e := ev.startPos - part * PARTSIZE, ev.endPos - part * PARTSIZE;
    assert ev.startPos % PARTSIZE == s && ev.endPos % PARTSIZE == e;
    AddedOwn(ListOf(box.records, part), s, e, addr);
  }

  lemma {:induction false} OneRecordGrows(box: Box, evs: seq<Event>, part: nat, addr: nat, lo: nat, hi: nat)
    requires box.Valid() && Bytes(ListOf(box.records, part), addr) == 0 && Grown(evs, part, addr, lo, hi)
    ensures part * PARTSIZE <= lo <= hi < (part + 1) * PARTSIZE
    ensures Of(ListOf(Run(box, evs).records, part), addr) == [Record(lo - part * PARTSIZE, hi - part * PARTSIZE, addr)]
    ensures Run(box, evs).bad == box.bad && Run(box, evs).good == box.good && AllTransfers(evs)
    decreases |evs|
  {
    var before, ev := evs[..|evs| - 1], evs[|evs| - 1];
    assert forall x :: x in evs <==> x in before || x == ev;
    var mid := Run(box, before);
    assert Run(box, evs) == Step(mid, ev);
    assert ListOf(box.records, part) != [] ==> AllValid(ListOf(box.records, part));
    hide Step, Of, ListOf, Bytes, Run;
    if !Touches(ev, part, addr) {
      OneRecordGrows(box, before, part, addr, lo, hi);
      OtherTransfer(mid, ev, part, addr);
    } else if ev.startPos == lo && ev.endPos == hi && AllTransfers(before) && Untouched(before, part, addr) {
      StillUntouched(box, before, part, addr);
      NoneOf(ListOf(box.records, part), addr);
      OwnTransfer(mid, ev, part, addr, []);
    } else if ev.endPos == hi && lo < ev.startPos && Grown(before, part, addr, lo, ev.startPos - 1) {
      OneRecordGrows(box, before, part, addr, lo, ev.startPos - 1);
      OwnTransfer(mid, ev, part, addr, [Record(lo - part * PARTSIZE, ev.startPos - 1 - part * PARTSIZE, addr)]);
    } else {
      OneRecordGrows(box, before, part, addr, ev.endPos + 1, hi);
      OwnTransfer(mid, ev, part, addr, [Record(ev.endPos + 1 - part * PARTSIZE, hi - part * PARTSIZE, addr)]);
    }
  }

  // ---- The charge ----

  lemma {:induction false} PiecesOf(list: seq<Record>, lo: nat, hi: nat, addr: nat, floor: nat)
    ensures PieceSum(Pieces(list, lo, hi), addr, floor) == PieceSum(Pieces(Of(list, addr), lo, hi), addr, floor)
  {
    if list != [] {
      PiecesOf(list[1..], lo, hi, addr, floor);
      var n, rest := Piece(list[0], lo, hi), Pieces(list[1..], lo, hi);
      assert n > 0 ==> Pieces(list, lo, hi)[1..] == rest;
      assert n == 0 ==> Pieces(list, lo, hi) == rest;
      if list[0].ip == addr {
        var own := [list[0]] + Of(list[1..], addr);
        assert own[1..] == Of(list[1..], addr);
        assert n > 0 ==> Pieces(own, lo, hi)[1..] == Pieces(Of(list[1..], addr), lo, hi);
        assert n == 0 ==> Pieces(own, lo, hi) == Pieces(Of(list[1..], addr), lo, hi);
      } else {
        assert Of(list, addr) == Of(list[1..], addr);
      }
    }
  }

  lemma OnePiece(r: Record, lo: nat, hi: nat, floor: nat)
    requires r.Valid() && lo <= hi
    ensures PieceSum(Pieces([r], lo, hi), r.ip, floor) ==
      var n := Shared(r.start, r.end, lo, hi); if n == 0 then 0 else if n > floor then n else floor
  {
    assert [r][1..] == [];
    assert Piece(r, lo, hi) == Shared(r.start, r.end, lo, hi);
    assert Pieces([r], lo, hi) == if Piece(r, lo, hi) > 0 then [(r.ip, Piece(r, lo, hi))] else [];
    assert [(r.ip, Piece(r, lo, hi))][1..] == [];
  }

  /**
   * However the packets cut it up, and whatever else arrives between them: a range that an address sent in consecutive
   * pieces is charged once when it is found corrupt, its bytes or one block if they are fewer; of a verification
   * that covers it in part, the bytes it covers are. If it is found good, its bytes are credited.
   */
  lemma ChargedOnce(box: Box, evs: seq<Event>, part: nat, addr: nat, lo: nat, hi: nat, from: nat, to: nat, ok: bool)
    requires box.Valid() && part < PART_LIMIT && Bytes(ListOf(box.records, part), addr) == 0
    requires Grown(evs, part, addr, lo, hi) && from <= to
    ensures part * PARTSIZE <= lo <= hi < (part + 1) * PARTSIZE
    ensures var end, n := Run(box, evs + [Verified(ok, part, from, to)]), Shared(lo - part * PARTSIZE, hi - part * PARTSIZE, from, to);
            && Total(end.bad, addr) == Total(box.bad, addr) + (if ok || n == 0 then 0 else if n > 184320 then n else 184320)
            && Total(end.good, addr) == Total(box.good, addr) + (if ok then n else 0)
  {
    OneRecordGrows(box, evs, part, addr, lo, hi);
    var all := evs + [Verified(ok, part, from, to)];
    assert all[..|all| - 1] == evs;
    var mid := Run(box, evs);
    var list, r := ListOf(mid.records, part), Record(lo - part * PARTSIZE, hi - part * PARTSIZE, addr);
    SettledAdds(mid, ok, Pieces(list, from, to), addr);
    PiecesOf(list, from, to, addr, EMBLOCKSIZE);
    PiecesOf(list, from, to, addr, 0);
    OnePiece(r, from, to, EMBLOCKSIZE);
    OnePiece(r, from, to, 0);
  }

  /** So that an address that has not been charged before is banned for it exactly if the charge is a third, less a little, of all that counts. */
  lemma BannedForRange(box: Box, evs: seq<Event>, part: nat, addr: nat, lo: nat, hi: nat, from: nat, to: nat)
    requires box.Valid() && part < PART_LIMIT && Bytes(ListOf(box.records, part), addr) == 0 && Total(box.bad, addr) == 0
    requires Grown(evs, part, addr, lo, hi) && from <= lo - part * PARTSIZE && hi - part * PARTSIZE <= to
    ensures var end, n := Run(box, evs + [Verified(false, part, from, to)]), hi - lo + 1;
            ShouldBan(Total(end.bad, addr), Total(end.good, addr)) <==>
              67 * (if n > 184320 then n else 184320) >= 33 * Total(box.good, addr)
  {
    var end := Run(box, evs + [Verified(false, part, from, to)]);
    OneRecordGrows(box, evs, part, addr, lo, hi);
    ChargedOnce(box, evs, part, addr, lo, hi, from, to, false);
    BanLine(Total(end.bad, addr), Total(end.good, addr));
  }
}
