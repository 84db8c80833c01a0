/** The blocks a client has been asked for, and those it is about to be: SendBlockRequests and what it calls. */
module BlockPipeline {
  import opened BlockWire
  import opened Options

  const MAX_DEPTH: nat := 0x20

  /**
   * A block that a file has set aside for a client. `id` tells apart two requests for the same bytes;
   * `queued` says that it has been asked for over the wire. Of a compressed block, `total` bytes have been
   * unzipped so far, and `broken` says that its stream is in error.
   */
  datatype Pending = Pending(id: nat, block: Block, queued: bool, total: nat, broken: bool)

  function NewPending(id: nat, block: Block): Pending { Pending(id, block, false, 0, false) }

  function Ids(ps: seq<Pending>): set<nat> { if ps == [] then {} else {ps[0].id} + Ids(ps[1..]) }

  /** The first `limit` blocks of the list not asked for yet, in order. */
  function Unqueued(ps: seq<Pending>, limit: nat): (r: seq<Pending>)
    ensures |r| <= limit
  {
    if ps == [] || limit == 0 then []
    else if ps[0].queued then Unqueued(ps[1..], limit)
    else [ps[0]] + Unqueued(ps[1..], limit - 1)
  }

  /** The list once they are asked for. */
  function Marked(ps: seq<Pending>, limit: nat): (r: seq<Pending>)
    ensures |r| == |ps|
  {
    if ps == [] || limit == 0 then ps
    else if ps[0].queued then [ps[0]] + Marked(ps[1..], limit)
    else [ps[0].(queued := true, broken := false)] + Marked(ps[1..], limit - 1)
  }

  predicate AllQueued(ps: seq<Pending>) { ps == [] || (ps[0].queued && AllQueued(ps[1..])) }

  predicate HasLong(ps: seq<Pending>) { ps != [] && (ps[0].block.Long() || HasLong(ps[1..])) }

  lemma {:induction false} UnqueuedAre(ps: seq<Pending>, limit: nat)
    ensures forall p :: p in Unqueued(ps, limit) ==> p in ps && !p.queued
  {
    if ps != [] && limit > 0 {
      UnqueuedAre(ps[1..], if ps[0].queued then limit else limit - 1);
    }
  }

  /** Blocks are asked for in the order in which they were set aside: none waits for a later one. */
  lemma {:induction false} EarliestFirst(ps: seq<Pending>, limit: nat, asked: set<nat>, lo: nat, hi: nat)
    requires Tracked(ps, asked, lo, hi)
    ensures forall p, q :: p in Unqueued(ps, limit) && q in ps && !q.queued && q !in Unqueued(ps, limit) ==> p.id < q.id
    decreases ps
  {
    if ps != [] && limit > 0 {
      var rest := if ps[0].queued then limit else limit - 1;
      EarliestFirst(ps[1..], rest, asked, ps[0].id + 1, hi);
      LaterIds(ps[1..], asked, ps[0].id + 1, hi);
      assert forall p :: p in ps <==> p == ps[0] || p in ps[1..];
      assert forall p :: p in Unqueued(ps, limit) <==> (p == ps[0] && !ps[0].queued) || p in Unqueued(ps[1..], rest);
    }
  }

  lemma {:induction false} LaterIds(ps: seq<Pending>, asked: set<nat>, lo: nat, hi: nat)
    requires Tracked(ps, asked, lo, hi)
    ensures forall p :: p in ps ==> p.id >= lo
    decreases ps
  {
    if ps != [] {
      LaterIds(ps[1..], asked, ps[0].id + 1, hi);
    }
  }

  lemma {:induction false} NoneLong(ps: seq<Pending>)
    ensures !HasLong(ps) <==> forall p :: p in ps ==> p.block.start <= 0xFFFF_FFFF && p.block.end <= 0xFFFF_FFFF
  {
    if ps != [] {
      NoneLong(ps[1..]);
      assert forall p :: p in ps <==> p == ps[0] || p in ps[1..];
    }
  }

  /** Pending blocks have growing identities from lo to below hi, and are flagged exactly when they have been asked for. */
  ghost predicate Tracked(ps: seq<Pending>, asked: set<nat>, lo: nat, hi: nat) {
    if ps == [] then lo <= hi
    else lo <= ps[0].id && (ps[0].queued <==> ps[0].id in asked) && Tracked(ps[1..], asked, ps[0].id + 1, hi)
  }

  lemma {:induction false} Bounds(ps: seq<Pending>, asked: set<nat>, lo: nat, hi: nat)
    requires Tracked(ps, asked, lo, hi)
    ensures lo <= hi && forall id :: id in Ids(ps) ==> lo <= id < hi
    decreases ps
  {
    if ps != [] {
      Bounds(ps[1..], asked, ps[0].id + 1, hi);
    }
  }

  lemma {:induction false} Unaffected(ps: seq<Pending>, asked: set<nat>, id: nat, lo: nat, hi: nat)
    requires Tracked(ps, asked, lo, hi) && id < lo
    ensures Tracked(ps, asked + {id}, lo, hi)
    decreases ps
  {
    if ps != [] {
      Unaffected(ps[1..], asked, id, ps[0].id + 1, hi);
    }
  }

  lemma {:induction false} Widened(ps: seq<Pending>, asked: set<nat>, lo: nat, hi: nat, less: nat, more: nat)
    requires Tracked(ps, asked, lo, hi) && less <= lo && hi <= more
    ensures Tracked(ps, asked, less, more)
    decreases ps
  {
    if ps != [] {
      Widened(ps[1..], asked, ps[0].id + 1, hi, ps[0].id + 1, more);
    }
  }

  /** Asking for the next blocks: each is new to the wire, and nothing else about the list changes. */
  lemma {:induction false} AskedOnce(ps: seq<Pending>, limit: nat, asked: set<nat>, lo: nat, hi: nat)
    requires Tracked(ps, asked, lo, hi)
    ensures Tracked(Marked(ps, limit), asked + Ids(Unqueued(ps, limit)), lo, hi)
    ensures Ids(Unqueued(ps, limit)) !! asked && |Ids(Unqueued(ps, limit))| == |Unqueued(ps, limit)|
    ensures Ids(Unqueued(ps, limit)) <= Ids(ps)
    decreases ps
  {
    if ps == [] || limit == 0 {
      assert asked + Ids([]) == asked;
    } else {
      var rest := if ps[0].queued then limit else limit - 1;
      AskedOnce(ps[1..], rest, asked, ps[0].id + 1, hi);
      var more, marked := Unqueued(ps[1..], rest), Marked(ps[1..], rest);
      Bounds(ps[1..], asked, ps[0].id + 1, hi);
      if !ps[0].queued {
        assert Unqueued(ps, limit)[1..] == more;
        Unaffected(marked, asked + Ids(more), ps[0].id, ps[0].id + 1, hi);
        assert asked + Ids(Unqueued(ps, limit)) == asked + Ids(more) + {ps[0].id};
        InFront(ps[0].(queued := true, broken := false), marked, asked + Ids(more) + {ps[0].id}, lo, hi);
      } else {
        InFront(ps[0], marked, asked + Ids(more), lo, hi);
      }
    }
  }

  lemma InFront(p: Pending, ps: seq<Pending>, asked: set<nat>, lo: nat, hi: nat)
    requires lo <= p.id && (p.queued <==> p.id in asked) && Tracked(ps, asked, p.id + 1, hi)
    ensures Tracked([p] + ps, asked, lo, hi)
  {
    assert ([p] + ps)[1..] == ps;
  }

  /** The flagged list is the same blocks; if fewer were taken than a packet holds, all of them are asked for. */
  lemma {:induction false} MarkedSame(ps: seq<Pending>, limit: nat)
    ensures Ids(Marked(ps, limit)) == Ids(ps)
    ensures |Unqueued(ps, limit)| < limit ==> AllQueued(Marked(ps, limit))
  {
    if ps != [] && limit > 0 {
      MarkedSame(ps[1..], if ps[0].queued then limit else limit - 1);
      assert Marked(ps, limit)[1..] == Marked(ps[1..], if ps[0].queued then limit else limit - 1);
    }
  }

  /** Blocks fresh from the file: consecutive identities, none asked for. */
  ghost predicate NewRun(ps: seq<Pending>, from: nat) {
    ps == [] || (ps[0].id == from && !ps[0].queued && NewRun(ps[1..], from + 1))
  }

  lemma {:induction false} NewTracked(ps: seq<Pending>, asked: set<nat>, from: nat)
    requires NewRun(ps, from) && forall id :: id in asked ==> id < from
    ensures Tracked(ps, asked, from, from + |ps|)
  {
    if ps != [] {
      NewTracked(ps[1..], asked, from + 1);
    }
  }

  /** New blocks behind the old ones. */
  lemma {:induction false} Joined(ps: seq<Pending>, more: seq<Pending>, asked: set<nat>, lo: nat, from: nat)
    requires Tracked(ps, asked, lo, from) && NewRun(more, from) && forall id :: id in asked ==> id < from
    ensures Tracked(ps + more, asked, lo, from + |more|)
    decreases ps
  {
    if ps == [] {
      assert ps + more == more;
      NewTracked(more, asked, from);
      Widened(more, asked, from, from + |more|, lo, from + |more|);
    } else {
      Joined(ps[1..], more, asked, ps[0].id + 1, from);
      assert (ps + more)[1..] == ps[1..] + more;
    }
  }

  lemma {:induction false} IdsJoined(ps: seq<Pending>, more: seq<Pending>)
    ensures Ids(ps + more) == Ids(ps) + Ids(more)
  {
    if ps == [] {
      assert ps + more == more;
    } else {
      IdsJoined(ps[1..], more);
      assert (ps + more)[1..] == ps[1..] + more;
    }
  }

  lemma {:induction false} ErasedTracked(ps: seq<Pending>, i: nat, asked: set<nat>, lo: nat, hi: nat)
    requires i < |ps| && Tracked(ps, asked, lo, hi)
    ensures Tracked(ps[..i] + ps[i + 1..], asked, lo, hi)
    decreases ps
  {
    if i == 0 {
      assert ps[..0] + ps[1..] == ps[1..];
      Widened(ps[1..], asked, ps[0].id + 1, hi, lo, hi);
    } else {
      ErasedTracked(ps[1..], i - 1, asked, ps[0].id + 1, hi);
      assert (ps[..i] + ps[i + 1..])[1..] == ps[1..][..i - 1] + ps[1..][i..];
    }
  }

  /** A block that leaves the list leaves it once and for all. */
  lemma {:induction false} Erased(ps: seq<Pending>, i: nat, asked: set<nat>, lo: nat, hi: nat)
    requires i < |ps| && Tracked(ps, asked, lo, hi)
    ensures ps[i].id in Ids(ps) && Ids(ps[..i] + ps[i + 1..]) == Ids(ps) - {ps[i].id}
    decreases ps
  {
    Bounds(ps[1..], asked, ps[0].id + 1, hi);
    if i == 0 {
      assert ps[..0] + ps[1..] == ps[1..];
    } else {
      Erased(ps[1..], i - 1, asked, ps[0].id + 1, hi);
      assert (ps[..i] + ps[i + 1..])[1..] == ps[1..][..i - 1] + ps[1..][i..];
    }
  }

  lemma {:induction false} NewIds(ps: seq<Pending>, from: nat)
    requires NewRun(ps, from)
    ensures forall id :: id in Ids(ps) <==> from <= id < from + |ps|
  {
    if ps != [] {
      NewIds(ps[1..], from + 1);
    }
  }

  lemma {:induction false} NewAppended(ps: seq<Pending>, p: Pending, from: nat)
    requires NewRun(ps, from) && p.id == from + |ps| && !p.queued
    ensures NewRun(ps + [p], from)
  {
    if ps == [] {
      assert (ps + [p])[1..] == [];
    } else {
      NewAppended(ps[1..], p, from + 1);
      assert (ps + [p])[1..] == ps[1..] + [p];
    }
  }

  // ---- The ranges that a file has asked for ----

  predicate Apart(a: Block, b: Block) { a.end < b.start || b.end < a.start }

  predicate Covers(a: Block, b: Block) { a.start <= b.start && b.end <= a.end }

  /** Outstanding requests are nonempty ranges that do not overlap. */
  ghost predicate AllApart(m: map<nat, Block>) {
    && (forall i :: i in m ==> m[i].start <= m[i].end)
    && (forall i, j :: i in m && j in m && i != j ==> Apart(m[i], m[j]))
  }

  /** A block that may be handed out. */
  predicate Usable(m: map<nat, Block>, b: Block) { b.start <= b.end && forall i :: i in m ==> Apart(m[i], b) }

  /** What is handed out of the blocks chosen: those that may be, each under a new identity, up to `count` of them. */
  function Taken(m: map<nat, Block>, chosen: seq<Block>, count: nat, from: nat): seq<Pending>
    decreases |chosen|
  {
    if chosen == [] || count == 0 then []
    else if Usable(m, chosen[0]) then [NewPending(from, chosen[0])] + Taken(m[from := chosen[0]], chosen[1..], count - 1, from + 1)
    else Taken(m, chosen[1..], count, from)
  }

  /** The requests that giving back the range of `b` takes off the list. */
  function Covering(m: map<nat, Block>, b: Block): set<nat> { set i | i in m && Covers(m[i], b) }

  function AllCovering(m: map<nat, Block>, ps: seq<Pending>): set<nat> {
    if ps == [] then {} else Covering(m, ps[0].block) + AllCovering(m, ps[1..])
  }

  /** Each of these blocks is on the file's list under its own identity. */
  ghost predicate Registered(ps: seq<Pending>, m: map<nat, Block>) {
    ps == [] || (ps[0].id in m && m[ps[0].id] == ps[0].block && Registered(ps[1..], m))
  }

  lemma NoneRegistered(m: map<nat, Block>)
    ensures Registered([], m) && Ids([]) == {}
  {
  }

  lemma {:induction false} RegisteredAt(ps: seq<Pending>, m: map<nat, Block>, i: nat)
    requires Registered(ps, m) && i < |ps|
    ensures ps[i].id in m && m[ps[i].id] == ps[i].block
  {
    if i > 0 {
      RegisteredAt(ps[1..], m, i - 1);
    }
  }

  lemma {:induction false} RegisteredIds(ps: seq<Pending>, m: map<nat, Block>)
    requires Registered(ps, m)
    ensures Ids(ps) <= m.Keys
  {
    if ps != [] {
      RegisteredIds(ps[1..], m);
    }
  }

  /** A registered block covers no other: its range gives back that block alone. */
  lemma CoversItself(m: map<nat, Block>, id: nat)
    requires AllApart(m) && id in m
    ensures Covering(m, m[id]) == {id}
  {
  }

  /** A client whose blocks are all registered gives back those and nothing else. */
  lemma {:induction false} GivesBackItsOwn(ps: seq<Pending>, m: map<nat, Block>)
    requires AllApart(m) && Registered(ps, m)
    ensures AllCovering(m, ps) == Ids(ps)
  {
    if ps != [] {
      CoversItself(m, ps[0].id);
      GivesBackItsOwn(ps[1..], m);
    }
  }

  /** The range of `b` covers that of some of the blocks. */
  ghost predicate CoversSome(b: Block, ps: seq<Pending>) { exists i :: 0 <= i < |ps| && Covers(b, ps[i].block) }

  /** What giving back these blocks takes off the list: every request that covers one of their ranges. */
  lemma {:induction false} AllCoveringExactly(m: map<nat, Block>, ps: seq<Pending>)
    ensures forall id :: id in AllCovering(m, ps) <==> id in m && CoversSome(m[id], ps)
  {
    if ps != [] {
      AllCoveringExactly(m, ps[1..]);
      forall id
        ensures id in AllCovering(m, ps) <==> id in m && CoversSome(m[id], ps)
      {
        if id in m {
          assert forall i :: 0 < i < |ps| ==> ps[i] == ps[1..][i - 1];
          assert forall i :: 0 <= i < |ps| - 1 ==> ps[1..][i] == ps[i + 1];
        }
      }
    }
  }

  /** A client's blocks `qs` are all on the list after another has given back `ps`, if and only if none covers any of those. */
  lemma {:induction false} SparesOthers(m: map<nat, Block>, ps: seq<Pending>, qs: seq<Pending>)
    requires Registered(qs, m)
    ensures Registered(qs, m - AllCovering(m, ps)) <==> forall j :: 0 <= j < |qs| ==> !CoversSome(qs[j].block, ps)
  {
    if qs != [] {
      AllCoveringExactly(m, ps);
      SparesOthers(m, ps, qs[1..]);
      assert forall j :: 0 < j < |qs| ==> qs[j] == qs[1..][j - 1];
      assert forall j :: 0 <= j < |qs| - 1 ==> qs[1..][j] == qs[j + 1];
    }
  }

  lemma {:induction false} StillRegistered(ps: seq<Pending>, m: map<nat, Block>, n: map<nat, Block>)
    requires Registered(ps, m)
    requires forall id :: id in Ids(ps) && id in m ==> id in n && n[id] == m[id]
    ensures Registered(ps, n)
  {
    if ps != [] {
      StillRegistered(ps[1..], m, n);
    }
  }

  lemma {:induction false} RegisteredJoined(ps: seq<Pending>, more: seq<Pending>, m: map<nat, Block>)
    requires Registered(ps, m) && Registered(more, m)
    ensures Registered(ps + more, m)
  {
    if ps == [] {
      assert ps + more == more;
    } else {
      RegisteredJoined(ps[1..], more, m);
      assert (ps + more)[1..] == ps[1..] + more;
    }
  }

  /** Losing the block at place i leaves the others registered. */
  lemma {:induction false} RegisteredErased(ps: seq<Pending>, i: nat, m: map<nat, Block>)
    requires Registered(ps, m) && i < |ps|
    ensures Registered(ps[..i] + ps[i + 1..], m)
  {
    if i == 0 {
      assert ps[..0] + ps[1..] == ps[1..];
    } else {
      RegisteredErased(ps[1..], i - 1, m);
      assert (ps[..i] + ps[i + 1..])[1..] == ps[1..][..i - 1] + ps[1..][i..];
    }
  }

  lemma {:induction false} MarkedRegistered(ps: seq<Pending>, limit: nat, m: map<nat, Block>)
    requires Registered(ps, m)
    ensures Registered(Marked(ps, limit), m)
  {
    if ps != [] && limit > 0 {
      var rest := if ps[0].queued then limit else limit - 1;
      MarkedRegistered(ps[1..], rest, m);
      assert Marked(ps, limit)[1..] == Marked(ps[1..], rest);
    }
  }

  /** The depth doubles if the last block came less than 5 seconds ago and halves if not, between 3 and 32. */
  function NextDepth(max: nat, last: nat, now: nat): nat {
    if last + 5000 > now then (if max > 16 then MAX_DEPTH else 2 * max)
    else if max < 6 then STANDARD_BLOCKS_REQUEST else max / 2
  }

  /** Blocks less than 5 seconds apart never lower the depth, and four of them raise it to 32; slower ones never raise it, and bring it down to 3. */
  lemma DepthFollowsSpeed(max: nat, last: nat, now: nat)
    requires 3 <= max <= 32
    ensures last + 5000 > now ==> NextDepth(max, last, now) >= max
    ensures last + 5000 <= now ==> NextDepth(max, last, now) <= max
    ensures NextDepth(NextDepth(NextDepth(NextDepth(max, last, now), last, now), last, now), last, now) == if last + 5000 > now then 32 else 3
  {
  }

  /** The piece starting here falls into the block. */
  predicate Spans(p: Pending, start: nat) { p.block.start <= start <= p.block.end }

  /** The first block that the piece falls into; the length of the list if there is none. */
  function Around(ps: seq<Pending>, start: nat): (i: nat)
    ensures i <= |ps| && (i < |ps| ==> Spans(ps[i], start)) && forall k :: 0 <= k < i ==> !Spans(ps[k], start)
  {
    if ps == [] || Spans(ps[0], start) then 0 else 1 + Around(ps[1..], start)
  }

  /**
   * What a packet brings. Plain bytes run from its start to `end`. Of compressed ones the unzipper makes so many
   * bytes, or reports an error. `written` of them were new to the file.
   */
  datatype Piece = Plain(end: nat, written: nat) | Packed(unzipped: Option<nat>, written: nat)
  {
    /** An unzipper that fails, or claims 2 GB and more. */
    predicate Garbled() { Packed? && (unzipped.None? || unzipped.value >= 0x8000_0000) }
  }

  datatype Fate = GivenBack | Kept | Whole

  function Wide(n: int): nat { n % 0x1_0000_0000_0000_0000 }

  /** The pending block afterwards. The bytes unzipped are counted in 32 bits, and not at all once the stream is broken. */
  function After(p: Pending, piece: Piece): (q: Pending)
    ensures q.id == p.id && q.block == p.block && q.queued == p.queued
  {
    if p.broken || piece.Plain? then p
    else if piece.Garbled() then p.(total := 0, broken := true)
    else p.(total := (p.total + piece.unzipped.value) % 0x1_0000_0000)
  }

  /**
   * Whether the block is given back to the file, kept or complete: given back if its stream is broken or the piece
   * goes past its end, complete if something new was written and the piece ends with the block.
   */
  function FateOf(p: Pending, piece: Piece): Fate {
    if p.broken || piece.Garbled() then GivenBack
    else
      var n := if piece.Packed? then piece.unzipped.value else 0;
      var last := if piece.Packed? then Wide(p.block.start + After(p, piece).total - 1) else piece.end;
      if piece.Packed? && n == 0 then Kept
      else if last > p.block.end || (piece.Packed? && Wide(p.block.start + After(p, piece).total - n) > p.block.end) then GivenBack
      else if piece.written > 0 && last == p.block.end then Whole
      else Kept
  }

  /** A change to what has been unzipped of one block changes no identity, flag or range. */
  lemma {:induction false} Replaced(ps: seq<Pending>, i: nat, q: Pending, asked: set<nat>, lo: nat, hi: nat, m: map<nat, Block>)
    requires i < |ps| && q.id == ps[i].id && q.block == ps[i].block && q.queued == ps[i].queued
    ensures Ids(ps[i := q]) == Ids(ps)
    ensures Tracked(ps[i := q], asked, lo, hi) == Tracked(ps, asked, lo, hi)
    ensures Registered(ps[i := q], m) == Registered(ps, m)
    decreases ps
  {
    if i == 0 {
      assert ps[0 := q][1..] == ps[1..];
    } else {
      Replaced(ps[1..], i - 1, q, asked, ps[0].id + 1, hi, m);
      assert ps[i := q][1..] == ps[1..][i - 1 := q];
    }
  }

  function PerPacket(vbt: bool, max: nat): nat { if vbt then max else STANDARD_BLOCKS_REQUEST }

  /** Distinct blocks that were never asked for, as many as one packet may hold. */
  ghost predicate Fresh(blocks: seq<Pending>, asked: set<nat>, vbt: bool, max: nat) {
    0 < |blocks| <= PerPacket(vbt, max) && |Ids(blocks)| == |blocks| && Ids(blocks) !! asked
  }

  /** `sent` is the front of what was not asked for of `before`, in its order, and `after` is `before` with those flagged. */
  ghost predicate AskedFrom(before: seq<Pending>, sent: seq<Pending>, after: seq<Pending>, limit: nat) {
    sent == Unqueued(before, limit) && after == Marked(before, limit)
  }

  /** The part file's side: every request it ever made is outstanding, with its range, or given back, or fulfilled. */
  class BlockPool {
    var nextId: nat
    var requested: map<nat, Block>
    ghost var released: set<nat>
    ghost var done: set<nat>

    constructor ()
      ensures Valid() && nextId == 0 && requested == map[] && released == {} && done == {}
    {
      nextId, requested, released, done := 0, map[], {}, {};
    }

    ghost predicate Valid()
      reads this
    {
      && requested.Keys !! released && requested.Keys !! done && released !! done
      && (forall id: nat :: id in requested || id in released || id in done <==> id < nextId)
      && AllApart(requested)
    }

    /** Every request that is not fulfilled. */
    ghost function Open(): set<nat>
      reads this
    {
      requested.Keys + released
    }

    /**
     * GetNextRequestedBlock: at most `count` blocks. `chosen` are those that the selection of chunks comes to, one
     * after the other; none that overlaps what is outstanding is handed out.
     */
    method GetNextRequestedBlock(count: nat, chosen: seq<Block>) returns (toadd: seq<Pending>)
      requires Valid()
      modifies this
      ensures toadd == Taken(old(requested), chosen, count, old(nextId))
      ensures Valid() && |toadd| <= count && nextId == old(nextId) + |toadd| && NewRun(toadd, old(nextId))
      ensures Registered(toadd, requested) && requested - Ids(toadd) == old(requested)
      ensures released == old(released) && done == old(done)
    {
      hide AllApart, NewRun, Registered, Ids;
      toadd := [];
      NoneNew(requested, nextId);
      var k := 0;
      assert chosen[0..] == chosen;
      while |toadd| < count && k < |chosen|
        invariant k <= |chosen|
        invariant Valid() && |toadd| <= count && nextId == old(nextId) + |toadd| && NewRun(toadd, old(nextId))
        invariant Registered(toadd, requested) && requested - Ids(toadd) == old(requested)
        invariant toadd + Taken(requested, chosen[k..], count - |toadd|, nextId) == Taken(old(requested), chosen, count, old(nextId))
        invariant released == old(released) && done == old(done)
      {
        var block := chosen[k];
        k := k + 1;
        if Usable(requested, block) {
          var p := NewPending(nextId, block);
          Registering(toadd, p, old(nextId), requested);
          NewApart(requested, p);
          toadd, requested, nextId := toadd + [p], requested[nextId := block], nextId + 1;
        }
      }
    }

    /** RemoveBlockFromList: whatever covers the range is taken off the list and may be requested again. */
    method RemoveBlockFromList(b: Block)
      requires Valid()
      modifies this`requested, this`released
      ensures Valid() && requested == old(requested) - Covering(old(requested), b) && Open() == old(Open())
      ensures forall id :: id in requested <==> id in old(requested) && !(old(requested)[id].start <= b.start && b.end <= old(requested)[id].end)
    {
      var gone := Covering(requested, b);
      requested, released := requested - gone, released + gone;
    }

    /** All the bytes of the block have arrived. Its range is taken off the list, and its request is fulfilled. */
    method Complete(p: Pending)
      requires Valid() && p.id in Open()
      modifies this`requested, this`released, this`done
      ensures Valid() && requested == old(requested) - Covering(old(requested), p.block) - {p.id}
      ensures Open() == old(Open()) - {p.id} && done == old(done) + {p.id}
    {
      RemoveBlockFromList(p.block);
      requested, released, done := requested - {p.id}, released - {p.id}, done + {p.id};
    }
  }

  /** New blocks moved behind those a client has, when its file's list grew from `m` to `n` by them. */
  lemma MovedIn(was: seq<Pending>, got: seq<Pending>, asked: set<nat>, from: nat, m: map<nat, Block>, n: map<nat, Block>)
    requires Tracked(was, asked, 0, from) && (forall id :: id in asked ==> id < from)
    requires NewRun(got, from) && Registered(got, n) && n - Ids(got) == m
    ensures Tracked(was + got, asked, 0, from + |got|) && Ids(was + got) == Ids(was) + Ids(got) && Ids(got) !! Ids(was)
    ensures Ids(got) <= n.Keys && (forall id :: id in Ids(got) ==> id >= from)
    ensures Registered(was, m) ==> Registered(was + got, n)
    ensures n - Ids(was + got) == m - Ids(was)
  {
    Joined(was, got, asked, 0, from);
    IdsJoined(was, got);
    Bounds(was, asked, 0, from);
    NewIds(got, from);
    RegisteredIds(got, n);
    if Registered(was, m) {
      StillRegistered(was, m, n);
      RegisteredJoined(was, got, n);
    }
  }

  /** Giving back one range after another, each from what the earlier ones left of `m`. */
  lemma CoveringNext(m: map<nat, Block>, before: map<nat, Block>, ps: seq<Pending>, i: nat)
    requires i < |ps| && before.Keys <= m.Keys && forall id :: id in before ==> before[id] == m[id]
    ensures var after := before - Covering(before, ps[i].block);
            after - AllCovering(m, ps[i + 1..]) == before - AllCovering(m, ps[i..])
  {
    assert ps[i..][1..] == ps[i + 1..];
  }

  lemma NoneNew(m: map<nat, Block>, from: nat)
    ensures Registered([], m) && NewRun([], from) && Ids([]) == {} && m - {} == m
  {
  }

  lemma NewApart(m: map<nat, Block>, p: Pending)
    requires AllApart(m) && p.id !in m && p.block.start <= p.block.end && forall i :: i in m ==> Apart(m[i], p.block)
    ensures AllApart(m[p.id := p.block])
  {
  }

  lemma WithoutHeld(m: map<nat, Block>, held: set<nat>, id: nat)
    requires id in held
    ensures m - {id} - held == m - held
  {
  }

  lemma WithoutOne(m: map<nat, Block>, held: set<nat>, id: nat)
    requires id in held
    ensures m - {id} - (held - {id}) == m - held
  {
  }

  /** One more block from the file. */
  lemma Registering(ps: seq<Pending>, p: Pending, from: nat, m: map<nat, Block>)
    requires NewRun(ps, from) && p.id == from + |ps| && !p.queued && Registered(ps, m) && p.id !in m
    ensures NewRun(ps + [p], from) && Registered(ps + [p], m[p.id := p.block])
    ensures Ids(ps + [p]) == Ids(ps) + {p.id} && m[p.id := p.block] - (Ids(ps) + {p.id}) == m - Ids(ps)
  {
    NewAppended(ps, p, from);
    StillRegistered(ps, m, m[p.id := p.block]);
    assert [p][1..] == [];
    RegisteredJoined(ps, [p], m[p.id := p.block]);
    IdsJoined(ps, [p]);
    assert Ids([p]) == {p.id};
  }

  datatype DownState = Downloading | OnQueue | NoNeededParts | Error

  /** What a call put on the wire to this client. */
  datatype Sent = Nothing | Cancel | Request(blocks: seq<Pending>)

  /** What became of a piece of data: nothing in the wrong state, or if no pending block has room for it; else as its block fares. */
  datatype Outcome = Ignored | Unasked | GivenUp | Partial | Finished(sent: Sent)

  class Downloader {
    const file: BlockPool
    const vbtTags: bool
    const largeFiles: bool
    var pending: seq<Pending>
    var download: seq<Pending>
    var maxRequests: nat
    var lastBlockReceived: nat
    var sentCancel: bool
    var state: DownState
    ghost var asked: set<nat>

    constructor (file: BlockPool, vbtTags: bool, largeFiles: bool)
      requires file.Valid()
      ensures Valid() && pending == [] && this.file == file && this.vbtTags == vbtTags && this.largeFiles == largeFiles
      ensures maxRequests == STANDARD_BLOCKS_REQUEST && lastBlockReceived == 0 && !sentCancel && state == Downloading && asked == {}
    {
      this.file, this.vbtTags, this.largeFiles := file, vbtTags, largeFiles;
      pending, download, maxRequests, lastBlockReceived := [], [], STANDARD_BLOCKS_REQUEST, 0;
      sentCancel, state, asked := false, Downloading, {};
    }

    /** Never fewer than 3 or more than 32 requests, never more pending than that, and every pending block flagged exactly if asked for. */
    ghost predicate Bounded(hi: nat)
      reads this
    {
      && STANDARD_BLOCKS_REQUEST <= maxRequests <= MAX_DEPTH
      && |pending| <= maxRequests && download == []
      && Tracked(pending, asked, 0, hi) && (forall id :: id in asked ==> id < hi)
    }

    ghost predicate Valid()
      reads this, file
    {
      file.Valid() && Bounded(file.nextId) && Held() <= file.Open()
    }

    ghost function Held(): set<nat>
      reads this
    {
      Ids(pending)
    }

    /**
     * Every block pending here is on the file's list. That stays so until one of them is given back while it stays
     * pending here, or another client that has lost one gives back a range of this client's with its own.
     */
    ghost predicate Owns()
      reads this, file
    {
      Registered(pending, file.requested)
    }

    /** What this client has in hand, or has ever asked for. */
    ghost function Seen(): set<nat>
      reads this
    {
      Held() + asked
    }

    /** What the file has asked for from clients other than this one. */
    ghost function Elsewhere(): map<nat, Block>
      reads this, file
    {
      file.requested - Held()
    }

    /** The depth of the queue doubles while blocks arrive quickly and halves when they do not. */
    method AdjustDepth(now: nat)
      requires Valid() && pending == []
      modifies this`maxRequests
      ensures Valid()
      ensures maxRequests == NextDepth(old(maxRequests), lastBlockReceived, now)
    {
      if lastBlockReceived + 5000 > now {
        maxRequests := maxRequests * 2;
        if maxRequests > MAX_DEPTH {
          maxRequests := MAX_DEPTH;
        }
      } else {
        maxRequests := maxRequests / 2;
        if maxRequests < STANDARD_BLOCKS_REQUEST {
          maxRequests := STANDARD_BLOCKS_REQUEST;
        }
      }
    }

    /** Blocks taken from the file and moved to the pending list, as many as there is room for. The subtraction cannot wrap. */
    method Refill(chosen: seq<Block>)
      requires Valid()
      modifies this`pending, this`download, file
      ensures pending == old(pending) + Taken(old(file.requested), chosen, maxRequests - |old(pending)|, old(file.nextId))
      ensures Valid() && old(pending) <= pending && old(file.nextId) <= file.nextId
      ensures file.requested - (Held() - old(Held())) == old(file.requested)
      ensures (forall id :: id in Held() && id !in old(Held()) ==> id >= old(file.nextId)) && file.done == old(file.done)
      ensures old(Owns()) ==> Owns() && Elsewhere() == old(Elsewhere())
      ensures old(file.Open()) <= file.Open()
    {
      hide AllApart, Tracked, NewRun, Registered, Ids, Taken;
      var count: nat := maxRequests - |pending|;
      download := file.GetNextRequestedBlock(count, chosen);
      ghost var was, got := pending, download;
      MovedIn(was, got, asked, old(file.nextId), old(file.requested), file.requested);
      while |pending| < maxRequests && download != []
        invariant pending + download == was + got && was <= pending
        modifies this`pending, this`download
        decreases |download|
      {
        pending, download := pending + [download[0]], download[1..];
      }
      assert download == [] && pending == was + got;
    }

    /** Every block held goes back to the file: exactly those if all are on its list, and whatever covers their ranges if not. */
    method ClearDownloadBlockRequests()
      requires Valid()
      modifies this`pending, file`requested, file`released
      ensures Valid() && pending == [] && Owns() && file.Open() == old(file.Open())
      ensures file.requested == old(file.requested) - AllCovering(old(file.requested), old(pending))
      ensures old(Owns()) ==> Elsewhere() == old(Elsewhere())
    {
      hide AllApart, Covers;
      ghost var m := file.requested;
      var i := 0;
      assert pending[0..] == pending;
      while i < |pending|
        invariant i <= |pending| && file.Valid() && file.Open() == old(file.Open())
        invariant file.requested - AllCovering(m, pending[i..]) == m - AllCovering(m, pending)
        invariant file.requested.Keys <= m.Keys && forall id :: id in file.requested ==> file.requested[id] == m[id]
        modifies file`requested, file`released
      {
        ghost var before := file.requested;
        file.RemoveBlockFromList(pending[i].block);
        CoveringNext(m, before, pending, i);
        i := i + 1;
      }
      assert pending[i..] == [];
      if old(Owns()) {
        GivesBackItsOwn(pending, m);
      }
      pending := [];
      assert Held() == {};
    }

    /** Leaving the downloading state gives up the blocks. */
    method SetDownloadState(s: DownState)
      requires Valid()
      modifies this`pending, this`state, file`requested, file`released
      ensures Valid() && state == s && file.Open() == old(file.Open())
      ensures pending == if old(state) == Downloading && s != Downloading then [] else old(pending)
      ensures file.requested == old(file.requested)
        - if old(state) == Downloading && s != Downloading then AllCovering(old(file.requested), old(pending)) else {}
      ensures old(Owns()) ==> Owns() && Elsewhere() == old(Elsewhere())
    {
      hide AllCovering;
      if state != s {
        if state == Downloading {
          ClearDownloadBlockRequests();
        }
        state := s;
      }
    }

    /** A client that is to stop sending: told so once, and its blocks given up. */
    method Drop() returns (told: bool)
      requires Valid()
      modifies this`pending, this`state, this`sentCancel, file`requested, file`released
      ensures Valid() && state == NoNeededParts && sentCancel && told == !old(sentCancel) && file.Open() == old(file.Open())
      ensures pending == if told || old(state) == Downloading then [] else old(pending)
      ensures old(Owns()) ==> Owns() && Elsewhere() == old(Elsewhere())
      ensures file.requested.Keys <= old(file.requested).Keys
    {
      hide AllCovering;
      told := !sentCancel;
      if told {
        ClearDownloadBlockRequests();
        sentCancel := true;
      }
      SetDownloadState(NoNeededParts);
    }

    /** The blocks of the packet are flagged as asked for. */
    method FlagQueued(toRequest: seq<Pending>)
      requires Valid() && toRequest != [] && toRequest == Unqueued(pending, PerPacket(vbtTags, maxRequests))
      modifies this`pending, this`asked
      ensures Valid() && Held() == old(Held()) && Ids(toRequest) <= Held() && (old(Owns()) ==> Owns())
      ensures Fresh(toRequest, old(asked), vbtTags, maxRequests) && asked == old(asked) + Ids(toRequest)
      ensures AskedFrom(old(pending), toRequest, pending, PerPacket(vbtTags, maxRequests))
      ensures PerPacket(vbtTags, maxRequests) == |toRequest| || AllQueued(pending)
    {
      hide Tracked, Unqueued, Marked, AllQueued, AllApart, Registered;
      var limit := PerPacket(vbtTags, maxRequests);
      AskedOnce(pending, limit, asked, 0, file.nextId);
      MarkedSame(pending, limit);
      Bounds(pending, asked, 0, file.nextId);
      if Owns() {
        MarkedRegistered(pending, limit, file.requested);
      }
      asked := asked + Ids(toRequest);
      pending := Marked(pending, limit);
    }

    /** Some block of the list is not asked for yet, and no block of the next packet is too long for this client. */
    predicate Sendable(ps: seq<Pending>)
      reads this
    {
      var next := Unqueued(ps, PerPacket(vbtTags, maxRequests));
      next != [] && (largeFiles || !HasLong(next))
    }

    /** The packet: the next blocks not asked for, each flagged; or a cancel, if one is too long for this client. */
    method RequestPending() returns (sent: Sent)
      requires Valid()
      modifies this`pending, this`state, this`sentCancel, this`asked, file`requested, file`released
      ensures Valid() && Held() <= old(Held()) && file.Open() == old(file.Open())
      ensures old(Owns()) ==> Owns() && Elsewhere() == old(Elsewhere())
      ensures sent.Request? <==> Sendable(old(pending))
      ensures sent.Request? ==> state == old(state)
      ensures sent.Request? ==> Fresh(sent.blocks, old(asked), vbtTags, maxRequests) && Ids(sent.blocks) <= Held() == old(Held())
      ensures sent.Request? ==> AskedFrom(old(pending), sent.blocks, pending, PerPacket(vbtTags, maxRequests))
      ensures sent.Request? ==> PerPacket(vbtTags, maxRequests) == |sent.blocks| || AllQueued(pending)
      ensures sent.Request? ==> |sent.blocks| <= if vbtTags then maxRequests else 3
      ensures sent.Request? && !largeFiles ==> forall b :: b in sent.blocks ==> b.block.start <= 0xFFFF_FFFF && b.block.end <= 0xFFFF_FFFF
      ensures asked == old(asked) + if sent.Request? then Ids(sent.blocks) else {}
      ensures sent == Cancel ==> state == Error && !old(sentCancel) && sentCancel
    {
      hide Tracked, Unqueued, AllQueued, HasLong, Fresh, AskedFrom, AllApart, Registered, AllCovering;
      var toRequest := Unqueued(pending, PerPacket(vbtTags, maxRequests));
      if !largeFiles && HasLong(toRequest) {
        sent := if sentCancel then Nothing else Cancel;
        sentCancel := true;
        SetDownloadState(Error);
      } else if toRequest == [] {
        sent := Nothing;
      } else {
        FlagQueued(toRequest);
        NoneLong(toRequest);
        sent := Request(toRequest);
      }
    }

    /** A slower source of the same file, which this one may displace. */
    ghost predicate MayDisplace(slower: Downloader?)
      reads this, file, slower, if slower == null then {} else {slower.file}
    {
      slower != null ==> slower != this && slower.file == file && slower.Valid() && Held() !! slower.Held()
    }

    /** Both clients' blocks are all on the file's list. */
    ghost predicate BothOwn(slower: Downloader?)
      reads this, file, slower, if slower == null then {} else {slower.file}
    {
      Owns() && (slower != null ==> slower.Owns())
    }

    /** What the file has asked for from clients other than these two. */
    ghost function Rest(slower: Downloader?): map<nat, Block>
      reads this, file, slower
    {
      if slower == null then Elsewhere() else Elsewhere() - slower.Held()
    }

    /** A refill here leaves the other client's list as it was. */
    lemma StillApart(slower: Downloader?, before: nat, m: map<nat, Block>, open: set<nat>, held: set<nat>)
      requires Valid() && before <= file.nextId && open <= file.Open()
      requires file.requested - (Held() - held) == m && forall id :: id in Held() - held ==> id >= before
      requires slower != null ==>
        slower != this && slower.file == file && slower.Bounded(before) && slower.Held() <= open && held !! slower.Held()
      ensures MayDisplace(slower)
      ensures slower != null && Registered(slower.pending, m) ==> slower.Owns()
    {
      hide AllApart;
      if slower != null {
        Bounds(slower.pending, slower.asked, 0, before);
        Widened(slower.pending, slower.asked, 0, before, 0, file.nextId);
        assert Held() <= held + (Held() - held);
        assert slower.Valid();
        assert Held() !! slower.Held();
        if Registered(slower.pending, m) {
          StillRegistered(slower.pending, m, file.requested);
        }
      }
    }

    /** What this client gives back of its own is nothing of the other's. */
    lemma StillOwned(slower: Downloader?, m: map<nat, Block>, held: set<nat>)
      requires slower != null ==> Registered(slower.pending, m) && slower.file == file && held !! slower.Held()
      requires Elsewhere() == m - held && Held() <= held
      ensures slower != null ==> slower.Owns()
    {
      if slower != null {
        forall id | id in Ids(slower.pending) && id in m
          ensures id in file.requested && file.requested[id] == m[id]
        {
          assert id in m - held;
          assert id in Elsewhere() && Elsewhere()[id] == m[id];
        }
        StillRegistered(slower.pending, m, file.requested);
      }
    }

    /**
     * One round of requests, in whatever state packets have left this client. What goes on the wire was
     * never asked for before; and as long as both clients' blocks are on the file's list, blocks only move
     * between that list and theirs. `slower` is the source that a faster one may displace, and `chosen` and
     * `again` are the blocks that the file's selection comes to. `filled` is the list that the packet is made from.
     */
    method SendBlockRequests(now: nat, slower: Downloader?, chosen: seq<Block>, again: seq<Block>)
      returns (sent: Sent, dropped: bool, ghost filled: seq<Pending>)
      requires Valid() && MayDisplace(slower) && (slower != null ==> slower.state == Downloading)
      modifies this, file, slower
      ensures Valid() && MayDisplace(slower) && file.done == old(file.done)
      ensures old(file.nextId) <= file.nextId && old(file.Open()) <= file.Open()
      ensures forall id :: id in Held() && id !in old(Held()) ==> id >= old(file.nextId)
      ensures old(Owns()) ==> Owns()
      ensures old(BothOwn(slower)) ==> BothOwn(slower) && Rest(slower) == old(Rest(slower))
      ensures slower != null ==> slower.asked == old(slower.asked) && (slower.pending == [] || slower.pending == old(slower.pending))
      ensures vbtTags && old(pending) != [] ==> sent == Nothing && pending == old(pending)
      ensures maxRequests == if vbtTags && old(pending) == [] then NextDepth(old(maxRequests), old(lastBlockReceived), now) else old(maxRequests)
      ensures lastBlockReceived == if vbtTags && old(pending) != [] then old(lastBlockReceived) else now
      ensures !(vbtTags && old(pending) != []) ==> old(pending) <= filled && (sent.Request? <==> Sendable(filled))
      ensures !(vbtTags && old(pending) != []) && !dropped ==>
        filled == old(pending) + Taken(old(file.requested), chosen, maxRequests - |old(pending)|, old(file.nextId))
      ensures sent == Cancel ==> !old(sentCancel) && sentCancel && state in {Error, NoNeededParts}
      ensures sent.Request? ==> Fresh(sent.blocks, old(asked), vbtTags, maxRequests) && Ids(sent.blocks) <= Held()
      ensures sent.Request? ==> |sent.blocks| <= if vbtTags then maxRequests else 3
      ensures sent.Request? && !largeFiles ==> forall b :: b in sent.blocks ==> b.block.start <= 0xFFFF_FFFF && b.block.end <= 0xFFFF_FFFF
      ensures sent.Request? ==> AskedFrom(filled, sent.blocks, pending, PerPacket(vbtTags, maxRequests)) && state == old(state)
      ensures sent.Request? ==> PerPacket(vbtTags, maxRequests) == |sent.blocks| || AllQueued(pending)
      ensures asked == old(asked) + if sent.Request? then Ids(sent.blocks) else {}
      ensures dropped ==> slower != null && slower.pending == [] && slower.state == NoNeededParts
    {
      hide Tracked, AllQueued, Fresh, PerPacket, AskedFrom, AllApart, Registered, AllCovering, Taken, HasLong;
      sent, dropped, filled := Nothing, false, pending;
      if vbtTags {
        if pending != [] {
          return;
        }
        AdjustDepth(now);
      }
      lastBlockReceived := now;
      dropped := Prepare(slower, chosen, again);
      filled := pending;
      if pending == [] {
        if slower == null {
          var told := Drop();
          sent := if told then Cancel else Nothing;
        }
        return;
      }
      ghost var m, held := file.requested, Held();
      sent := RequestPending();
      if old(BothOwn(slower)) {
        StillOwned(slower, m, held);
      }
    }

    /** The pending list is filled up; if there is nothing for it, a slower source is made to give up its blocks. */
    method Prepare(slower: Downloader?, chosen: seq<Block>, again: seq<Block>) returns (dropped: bool)
      requires Valid() && MayDisplace(slower) && (slower != null ==> slower.state == Downloading)
      modifies this`pending, this`download, file, slower
      ensures Valid() && MayDisplace(slower) && file.done == old(file.done) && old(pending) <= pending
      ensures old(file.nextId) <= file.nextId && old(file.Open()) <= file.Open()
      ensures forall id :: id in Held() && id !in old(Held()) ==> id >= old(file.nextId)
      ensures old(Owns()) ==> Owns()
      ensures old(BothOwn(slower)) ==> BothOwn(slower) && Rest(slower) == old(Rest(slower))
      ensures slower != null ==> slower.asked == old(slower.asked) && (slower.pending == [] || slower.pending == old(slower.pending))
      ensures dropped ==> slower != null && slower.pending == [] && slower.state == NoNeededParts
      ensures !dropped ==>
        pending == old(pending) + Taken(old(file.requested), chosen, maxRequests - |old(pending)|, old(file.nextId))
    {
      hide Tracked, AllApart, Registered, AllCovering, Taken, Ids;
      dropped := false;
      Refill(chosen);
      StillApart(slower, old(file.nextId), old(file.requested), old(file.Open()), old(Held()));
      if pending == [] && slower != null {
        var told := slower.Drop();
        dropped := true;
        ghost var before, m, open := file.nextId, file.requested, file.Open();
        NoneRegistered(m);
        Refill(again);
        StillApart(slower, before, m, open, {});
      }
    }

    /** All of a block has arrived: it leaves the list, and more may be asked for. */
    method FinishBlock(i: nat, now: nat, slower: Downloader?, chosen: seq<Block>, again: seq<Block>) returns (sent: Sent)
      requires Valid() && MayDisplace(slower) && (slower != null ==> slower.state == Downloading) && i < |pending|
      modifies this, file, slower
      ensures Valid() && MayDisplace(slower) && file.done == old(file.done) + {old(pending)[i].id}
      ensures old(file.nextId) <= file.nextId && old(file.Open()) - {old(pending)[i].id} <= file.Open()
      ensures forall id :: id in Held() && id !in old(Held()) ==> id >= old(file.nextId)
      ensures asked == old(asked) + if sent.Request? then Ids(sent.blocks) else {}
      ensures sent.Request? ==> |Ids(sent.blocks)| == |sent.blocks| && Ids(sent.blocks) !! old(asked) && Ids(sent.blocks) <= Held()
      ensures slower != null ==> slower.asked == old(slower.asked) && (slower.pending == [] || slower.pending == old(slower.pending))
      ensures old(Owns()) ==> Owns()
      ensures old(BothOwn(slower)) ==> BothOwn(slower) && Rest(slower) == old(Rest(slower))
    {
      hide Tracked, AllQueued, PerPacket, AskedFrom, NextDepth, AllApart, Registered, Taken, HasLong, Unqueued;
      Erase(i, slower);
      var dropped;
      ghost var filled;
      sent, dropped, filled := SendBlockRequests(now, slower, chosen, again);
    }

    /** The block leaves this list and the file's. */
    method Erase(i: nat, ghost slower: Downloader?)
      requires Valid() && MayDisplace(slower) && i < |pending|
      modifies this`pending, file
      ensures Valid() && MayDisplace(slower) && file.done == old(file.done) + {old(pending)[i].id}
      ensures file.nextId == old(file.nextId) && file.Open() == old(file.Open()) - {old(pending)[i].id} && Held() <= old(Held())
      ensures pending == old(pending[..i] + pending[i + 1..])
      ensures old(Owns()) ==> Owns()
      ensures old(BothOwn(slower)) ==> BothOwn(slower) && Rest(slower) == old(Rest(slower))
    {
      hide Tracked, AllApart, Registered, Covering, Ids;
      ghost var m := file.requested;
      ErasedTracked(pending, i, asked, 0, file.nextId);
      Erased(pending, i, asked, 0, file.nextId);
      if Owns() {
        RegisteredAt(pending, m, i);
        CoversItself(m, pending[i].id);
        RegisteredErased(pending, i, m);
        WithoutOne(m, Held(), pending[i].id);
      }
      file.Complete(pending[i]);
      pending := pending[..i] + pending[i + 1..];
      if old(Owns()) {
        StillRegistered(pending, m, file.requested);
        if old(BothOwn(slower)) {
          StillOwned(slower, m, old(Held()));
        }
      }
    }

    /** A piece reaches its block: what it brings is counted, and the block given back if the piece shows it to be in error. */
    method Arrived(i: nat, piece: Piece) returns (fate: Fate)
      requires Valid() && i < |pending|
      modifies this`pending, file`requested, file`released
      ensures Valid() && pending == old(pending)[i := After(old(pending)[i], piece)] && fate == FateOf(old(pending)[i], piece)
      ensures Held() == old(Held()) && file.Open() == old(file.Open()) && pending[i].id == old(pending)[i].id
      ensures file.requested == old(file.requested) - if fate == GivenBack then Covering(old(file.requested), old(pending)[i].block) else {}
      ensures old(Owns()) ==> (Owns() <==> fate != GivenBack) && Elsewhere() == old(Elsewhere())
    {
      hide Tracked, Registered, AllApart, Covering, Ids;
      ghost var m := file.requested;
      var p := pending[i];
      var q := p;
      Erased(pending, i, asked, 0, file.nextId);
      fate := Kept;
      if p.broken {
        fate := GivenBack;
      } else {
        match piece {
          case Plain(end, written) =>
            if end > p.block.end {
              fate := GivenBack;
            } else if written > 0 && end == p.block.end {
              fate := Whole;
            }
          case Packed(unzipped, written) =>
            if piece.Garbled() {
              fate, q := GivenBack, p.(total := 0, broken := true);
            } else {
              var n := unzipped.value;
              q := p.(total := (p.total + n) % 0x1_0000_0000);
              if n > 0 {
                var first, last := Wide(p.block.start + q.total - n), Wide(p.block.start + q.total - 1);
                if first > p.block.end || last > p.block.end {
                  fate := GivenBack;
                } else if written > 0 && last == p.block.end {
                  fate := Whole;
                }
              }
            }
        }
      }
      Replaced(pending, i, q, asked, 0, file.nextId, m);
      pending := pending[i := q];
      if fate == GivenBack {
        file.RemoveBlockFromList(p.block);
        if old(Owns()) {
          RegisteredAt(pending, m, i);
          CoversItself(m, p.id);
          WithoutHeld(m, Held(), p.id);
          if Owns() {
            RegisteredIds(pending, file.requested);
          }
        }
      }
    }

    /**
     * The first pending block around the start of the piece takes it; the last piece finishes the block. A piece
     * that shows its block to be in error gives the block back, which is nevertheless still pending.
     */
    method ProcessBlockPacket(start: nat, piece: Piece, now: nat, slower: Downloader?, chosen: seq<Block>, again: seq<Block>)
      returns (outcome: Outcome)
      requires Valid() && MayDisplace(slower) && (slower != null ==> slower.state == Downloading)
      modifies this, file, slower
      ensures Valid() && MayDisplace(slower)
      ensures var i := Around(old(pending), start);
              if old(state) != Downloading && old(state) != NoNeededParts then outcome == Ignored
              else if i == |old(pending)| then outcome == Unasked
              else match FateOf(old(pending)[i], piece)
                case GivenBack => outcome == GivenUp
                case Kept => outcome == Partial
                case Whole => outcome.Finished?
      ensures var i := Around(old(pending), start);
              if outcome.Finished? then
                file.done == old(file.done) + {old(pending)[i].id} && old(file.Open()) - {old(pending)[i].id} <= file.Open()
              else
                && pending == (if outcome in {GivenUp, Partial} then old(pending)[i := After(old(pending)[i], piece)] else old(pending))
                && file.requested == old(file.requested)
                   - (if outcome == GivenUp then Covering(old(file.requested), old(pending)[i].block) else {})
                && file.done == old(file.done) && file.Open() == old(file.Open()) && file.nextId == old(file.nextId)
                && state == old(state) && maxRequests == old(maxRequests) && sentCancel == old(sentCancel)
      ensures old(file.nextId) <= file.nextId && forall id :: id in Held() && id !in old(Held()) ==> id >= old(file.nextId)
      ensures asked == old(asked) + if outcome.Finished? && outcome.sent.Request? then Ids(outcome.sent.blocks) else {}
      ensures outcome.Finished? && outcome.sent.Request? ==>
        |Ids(outcome.sent.blocks)| == |outcome.sent.blocks| && Ids(outcome.sent.blocks) !! old(asked) && Ids(outcome.sent.blocks) <= Held()
      ensures slower != null ==> slower.asked == old(slower.asked) && (slower.pending == [] || slower.pending == old(slower.pending))
      ensures old(Owns()) ==> (Owns() <==> outcome != GivenUp)
      ensures old(BothOwn(slower)) ==> (slower != null ==> slower.Owns()) && Rest(slower) == old(Rest(slower))
    {
      hide Tracked, AllQueued, Fresh, PerPacket, AskedFrom, NextDepth, AllApart, Registered, After, FateOf, Covering;
      if state != Downloading && state != NoNeededParts {
        return Ignored;
      }
      lastBlockReceived := now;
      var i := 0;
      while i < |pending|
        invariant i <= |pending| && forall k :: 0 <= k < i ==> !Spans(pending[k], start)
      {
        if Spans(pending[i], start) {
          assert Around(pending, start) == i;
          ghost var m := file.requested;
          var fate := Arrived(i, piece);
          if old(BothOwn(slower)) {
            StillOwned(slower, m, Held());
          }
          match fate {
            case GivenBack => return GivenUp;
            case Kept => return Partial;
            case Whole =>
              var sent := FinishBlock(i, now, slower, chosen, again);
              return Finished(sent);
          }
        }
        i := i + 1;
      }
      outcome := Unasked;
    }
  }
}
