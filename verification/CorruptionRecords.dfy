/**
 * The interval records of the corruption black box, as values: who sent which bytes of which part.
 *
 * A list may hold overlapping records. What a list says is its coverage, the number of records of an
 * address that contain a position; `Bytes` is the coverage summed.
 */
module CorruptionRecords {

  const PARTSIZE: nat := 9728000
  const EMBLOCKSIZE: nat := 184320
  const CBB_BANTHRESHOLD: nat := 32
  const PART_LIMIT: nat := 0x1_0000

  /** Bytes start..end of a part, both included, sent by `ip`. */
  datatype Record = Record(start: nat, end: nat, ip: nat)
  {
    predicate Valid() { start <= end < PARTSIZE }

    function Bytes(addr: nat): nat { if ip == addr && start <= end then end - start + 1 else 0 }

    function Cover(addr: nat, pos: nat): nat { if ip == addr && start <= pos <= end then 1 else 0 }

    /** Joins the range to this record if it starts or ends right beside it. */
    function Merge(s: nat, e: nat, addr: nat): (bool, Record) {
      if ip == addr && s == end + 1 then (true, Record(start, e, ip))
      else if ip == addr && e + 1 == start then (true, Record(s, end, ip))
      else (false, this)
    }
  }

  ghost predicate AllValid(list: seq<Record>) {
    forall r :: r in list ==> r.Valid()
  }

  function Bytes(list: seq<Record>, addr: nat): nat {
    if list == [] then 0 else list[0].Bytes(addr) + Bytes(list[1..], addr)
  }

  function Coverage(list: seq<Record>, addr: nat, pos: nat): nat {
    if list == [] then 0 else list[0].Cover(addr, pos) + Coverage(list[1..], addr, pos)
  }

  /** The first record that can take the range takes it; otherwise it becomes a record of its own, at the end. */
  function Added(list: seq<Record>, s: nat, e: nat, addr: nat): seq<Record> {
    if list == [] then [Record(s, e, addr)]
    else if list[0].Merge(s, e, addr).0 then [list[0].Merge(s, e, addr).1] + list[1..]
    else [list[0]] + Added(list[1..], s, e, addr)
  }

  lemma {:induction false} AddedAddsExactly(list: seq<Record>, s: nat, e: nat, addr: nat, other: nat, pos: nat)
    requires AllValid(list) && s <= e < PARTSIZE
    ensures AllValid(Added(list, s, e, addr)) && Added(list, s, e, addr) != []
    ensures Bytes(Added(list, s, e, addr), other) == Bytes(list, other) + Record(s, e, addr).Bytes(other)
    ensures Coverage(Added(list, s, e, addr), other, pos) == Coverage(list, other, pos) + Record(s, e, addr).Cover(other, pos)
  {
    if list != [] {
      var added := Added(list, s, e, addr);
      assert list[0].Valid() && AllValid(list[1..]);
      if list[0].Merge(s, e, addr).0 {
        assert added[1..] == list[1..];
      } else {
        AddedAddsExactly(list[1..], s, e, addr, other, pos);
        assert added[1..] == Added(list[1..], s, e, addr);
      }
    }
  }

  /** What remains of one record once lo..hi is taken out of it. */
  function Cut(r: Record, lo: nat, hi: nat): seq<Record> {
    if lo <= r.start <= hi then
      if r.end > hi then [Record(hi + 1, r.end, r.ip)] else []
    else if r.start < lo && r.end >= lo then
      if r.end > hi then [Record(r.start, lo - 1, r.ip), Record(hi + 1, r.end, r.ip)]
      else [Record(r.start, lo - 1, r.ip)]
    else [r]
  }

  /** How many bytes of `r` lie in lo..hi. */
  function Piece(r: Record, lo: nat, hi: nat): nat {
    if lo <= r.start <= hi then
      if r.end > hi then hi - r.start + 1 else if r.start <= r.end then r.end - r.start + 1 else 0
    else if r.start < lo && r.end >= lo then
      if r.end > hi && lo <= hi then hi - lo + 1 else r.end - lo + 1
    else 0
  }

  function Remaining(list: seq<Record>, lo: nat, hi: nat): seq<Record> {
    if list == [] then [] else Cut(list[0], lo, hi) + Remaining(list[1..], lo, hi)
  }

  /** The nonempty pieces taken out, in list order, each with its sender. */
  function Pieces(list: seq<Record>, lo: nat, hi: nat): seq<(nat, nat)> {
    if list == [] then []
    else
      var n := Piece(list[0], lo, hi);
      (if n > 0 then [(list[0].ip, n)] else []) + Pieces(list[1..], lo, hi)
  }

  function AtLeast(n: nat, floor: nat): nat { if n > floor then n else floor }

  /** The pieces of `addr` summed, each counted as at least `floor`: with floor 0, their bytes. */
  function PieceSum(pieces: seq<(nat, nat)>, addr: nat, floor: nat): nat {
    if pieces == [] then 0
    else (if pieces[0].0 == addr then AtLeast(pieces[0].1, floor) else 0) + PieceSum(pieces[1..], addr, floor)
  }

  lemma {:induction false} BytesConcat(a: seq<Record>, b: seq<Record>, addr: nat, pos: nat)
    ensures Bytes(a + b, addr) == Bytes(a, addr) + Bytes(b, addr)
    ensures Coverage(a + b, addr, pos) == Coverage(a, addr, pos) + Coverage(b, addr, pos)
  {
    if a == [] {
      assert a + b == b;
    } else {
      BytesConcat(a[1..], b, addr, pos);
      assert (a + b)[1..] == a[1..] + b;
    }
  }

  lemma CutExactly(r: Record, lo: nat, hi: nat, addr: nat, pos: nat)
    requires r.Valid() && lo <= hi
    ensures AllValid(Cut(r, lo, hi))
    ensures Bytes(Cut(r, lo, hi), addr) + (if r.ip == addr then Piece(r, lo, hi) else 0) == r.Bytes(addr)
    ensures Coverage(Cut(r, lo, hi), addr, pos) == if lo <= pos <= hi then 0 else r.Cover(addr, pos)
  {
    var c := Cut(r, lo, hi);
    if |c| == 2 {
      OneRecord(c[0], addr, pos);
      OneRecord(c[1], addr, pos);
      BytesConcat([c[0]], [c[1]], addr, pos);
      assert c == [c[0]] + [c[1]];
    } else if |c| == 1 {
      OneRecord(c[0], addr, pos);
      assert c == [c[0]];
    }
  }

  lemma OneRecord(r: Record, addr: nat, pos: nat)
    ensures Bytes([r], addr) == r.Bytes(addr) && Coverage([r], addr, pos) == r.Cover(addr, pos)
  {
    assert [r][1..] == [];
  }

  /**
   * A verification takes out of every record exactly what lies in lo..hi: no coverage is left there,
   * coverage elsewhere is untouched for every address, and the bytes gone are the pieces.
   */
  lemma {:induction false} RemainingExactly(list: seq<Record>, lo: nat, hi: nat, addr: nat, pos: nat)
    requires AllValid(list) && lo <= hi
    ensures AllValid(Remaining(list, lo, hi))
    ensures Bytes(Remaining(list, lo, hi), addr) + PieceSum(Pieces(list, lo, hi), addr, 0) == Bytes(list, addr)
    ensures Coverage(Remaining(list, lo, hi), addr, pos) == if lo <= pos <= hi then 0 else Coverage(list, addr, pos)
  {
    if list != [] {
      var n := Piece(list[0], lo, hi);
      assert list[0].Valid() && AllValid(list[1..]);
      CutExactly(list[0], lo, hi, addr, pos);
      RemainingExactly(list[1..], lo, hi, addr, pos);
      BytesConcat(Cut(list[0], lo, hi), Remaining(list[1..], lo, hi), addr, pos);
      if n > 0 {
        assert Pieces(list, lo, hi)[1..] == Pieces(list[1..], lo, hi);
      } else {
        assert Pieces(list, lo, hi) == Pieces(list[1..], lo, hi);
      }
    }
  }

  lemma {:induction false} NoneMeet(list: seq<Record>, lo: nat, hi: nat, r: Record)
    requires AllValid(list) && lo <= hi && r in Remaining(list, lo, hi)
    ensures r.end < lo || hi < r.start
  {
    if list != [] {
      assert list[0].Valid() && AllValid(list[1..]);
      if r !in Cut(list[0], lo, hi) {
        NoneMeet(list[1..], lo, hi, r);
      }
    }
  }

  /** Charging by the block never counts less than the bytes, and counts something exactly when there are bytes. */
  lemma {:induction false} ChargeAtLeast(list: seq<Record>, lo: nat, hi: nat, addr: nat)
    ensures var pieces := Pieces(list, lo, hi);
            && PieceSum(pieces, addr, EMBLOCKSIZE) >= PieceSum(pieces, addr, 0)
            && (PieceSum(pieces, addr, EMBLOCKSIZE) > 0 <==> PieceSum(pieces, addr, 0) > 0)
  {
    if list != [] {
      ChargeAtLeast(list[1..], lo, hi, addr);
      if Piece(list[0], lo, hi) > 0 {
        assert Pieces(list, lo, hi)[1..] == Pieces(list[1..], lo, hi);
      } else {
        assert Pieces(list, lo, hi) == Pieces(list[1..], lo, hi);
      }
    }
  }
}
