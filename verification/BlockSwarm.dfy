/** Any number of clients that download one file: who is asked for what, over whole runs. */
module BlockSwarm {
  import opened Options
  import opened BlockWire
  import opened BlockPipeline

  /** One call on one client. `slower` is the source that it may displace, if that is downloading. */
  datatype Call =
    | Ask(now: nat, chosen: seq<Block>, again: seq<Block>)
    | Receive(start: nat, piece: Piece, now: nat, chosen: seq<Block>, again: seq<Block>)
    | GiveUp
    | Enter(state: DownState)

  datatype Turn = Turn(client: Downloader, slower: Downloader?, call: Call)

  /** Every client is in order, and no two have ever had the same block. */
  ghost predicate Swarm(file: BlockPool, cs: set<Downloader>)
    reads file, cs
  {
    && file.Valid()
    && (forall c :: c in cs ==> c.file == file && c.Valid())
    && (forall c, d :: c in cs && d in cs && c != d ==> c.Seen() !! d.Seen())
  }

  /** Everyone's pending blocks are on the file's list. */
  ghost predicate AllOwn(file: BlockPool, cs: set<Downloader>)
    reads file, cs
  {
    forall c :: c in cs ==> c.file == file && c.Owns()
  }

  /** What has ever been asked for, of anyone. */
  ghost function Asked(cs: set<Downloader>): set<nat>
    reads cs
  {
    All(AskedBy(cs))
  }

  /** As long as everyone's blocks are on the file's list, no two pending blocks overlap, within a client or between two. */
  lemma NothingTwice(file: BlockPool, cs: set<Downloader>, c: Downloader, i: nat, d: Downloader, j: nat)
    requires Swarm(file, cs) && AllOwn(file, cs) && c in cs && d in cs && i < |c.pending| && j < |d.pending| && (c != d || i != j)
    ensures c.pending[i].block.end < d.pending[j].block.start || d.pending[j].block.end < c.pending[i].block.start
  {
    RegisteredAt(c.pending, file.requested, i);
    RegisteredAt(d.pending, file.requested, j);
    AtPlace(c.pending, i);
    AtPlace(d.pending, j);
    if c == d {
      Distinct(c.pending, i, j, c.asked, 0, file.nextId);
    }
  }

  lemma {:induction false} AtPlace(ps: seq<Pending>, i: nat)
    requires i < |ps|
    ensures ps[i].id in Ids(ps)
  {
    if i > 0 {
      AtPlace(ps[1..], i - 1);
    }
  }

  lemma AllPlaces(ps: seq<Pending>)
    ensures forall i :: 0 <= i < |ps| ==> ps[i].id in Ids(ps)
  {
    forall i | 0 <= i < |ps|
      ensures ps[i].id in Ids(ps)
    {
      AtPlace(ps, i);
    }
  }

  lemma {:induction false} Distinct(ps: seq<Pending>, i: nat, j: nat, asked: set<nat>, lo: nat, hi: nat)
    requires Tracked(ps, asked, lo, hi) && i < |ps| && j < |ps| && i != j
    ensures ps[i].id != ps[j].id
    decreases ps
  {
    Bounds(ps[1..], asked, ps[0].id + 1, hi);
    if i == 0 {
      AtPlace(ps[1..], j - 1);
    } else if j == 0 {
      AtPlace(ps[1..], i - 1);
    } else {
      Distinct(ps[1..], i - 1, j - 1, asked, ps[0].id + 1, hi);
    }
  }

  /** A client that had no part in a call is as it was, though the file has gone on. */
  lemma Undisturbed(c: Downloader, before: nat, open: set<nat>, gone: set<nat>)
    requires c.file.Valid() && c.Bounded(before) && before <= c.file.nextId
    requires c.Held() <= open && open - gone <= c.file.Open() && c.Held() !! gone
    ensures c.Valid() && forall id :: id in c.Seen() ==> id < before
  {
    hide AllApart;
    Bounds(c.pending, c.asked, 0, before);
    Widened(c.pending, c.asked, 0, before, 0, c.file.nextId);
  }

  /** Its blocks are still on the list if only the parties' own have left that. */
  lemma StillOnList(c: Downloader, m: map<nat, Block>, rest: map<nat, Block>, parties: set<nat>)
    requires Registered(c.pending, m) && rest == m - parties && c.Held() !! parties
    requires forall id :: id in rest ==> id in c.file.requested && c.file.requested[id] == rest[id]
    ensures c.Owns()
  {
    forall id | id in Ids(c.pending) && id in m
      ensures id in c.file.requested && c.file.requested[id] == m[id]
    {
      assert id in rest;
    }
    StillRegistered(c.pending, m, c.file.requested);
  }

  /** One call, and what the client, the source it may displace and the file are afterwards. */
  method Act(a: Downloader, slower: Downloader?, call: Call) returns (packet: seq<Pending>, lost: bool, ghost gone: set<nat>)
    requires a.Valid() && a.MayDisplace(slower) && (slower != null ==> slower.state == Downloading)
    requires slower != null ==> call.Ask? || call.Receive?
    modifies a, a.file, slower
    ensures a.Valid() && a.MayDisplace(slower) && gone <= old(a.Held())
    ensures old(a.file.nextId) <= a.file.nextId && old(a.file.Open()) - gone <= a.file.Open()
    ensures forall id :: id in a.Held() && id !in old(a.Held()) ==> id >= old(a.file.nextId)
    ensures |Ids(packet)| == |packet| && Ids(packet) !! old(a.asked) && Ids(packet) <= a.Held() && a.asked == old(a.asked) + Ids(packet)
    ensures slower != null ==> slower.asked == old(slower.asked) && slower.Held() <= old(slower.Held())
    ensures old(a.Owns()) ==> (a.Owns() <==> !lost)
    ensures old(a.BothOwn(slower)) ==> (slower != null ==> slower.Owns()) && a.Rest(slower) == old(a.Rest(slower))
    ensures lost ==> call.Receive?
  {
    hide Tracked, Registered, AllApart, Unqueued, Taken, Covering, AllCovering, FateOf, After, AllQueued, HasLong, AskedFrom, PerPacket, NextDepth, Marked;
    packet, lost, gone := [], false, {};
    NoneRegistered(a.file.requested);
    match call {
      case Ask(now, chosen, again) =>
        var sent, dropped;
        ghost var filled;
        sent, dropped, filled := a.SendBlockRequests(now, slower, chosen, again);
        packet := if sent.Request? then sent.blocks else [];
      case Receive(start, piece, now, chosen, again) =>
        gone := a.Held();
        ghost var ps := a.pending;
        AllPlaces(ps);
        var outcome := a.ProcessBlockPacket(start, piece, now, slower, chosen, again);
        packet := if outcome.Finished? && outcome.sent.Request? then outcome.sent.blocks else [];
        lost := outcome == GivenUp;
      case GiveUp =>
        a.ClearDownloadBlockRequests();
      case Enter(state) =>
        a.SetDownloadState(state);
    }
  }

  /**
   * One call, on any client. `packet` is what goes out to it, all of it new to the wire; `lost` says that a block
   * was given back and is still pending.
   */
  method Make(file: BlockPool, ghost cs: set<Downloader>, turn: Turn) returns (packet: seq<Pending>, lost: bool)
    requires Swarm(file, cs) && turn.client in cs && (turn.slower != null ==> turn.slower in cs && turn.slower != turn.client)
    modifies file, cs
    ensures Swarm(file, cs)
    ensures |Ids(packet)| == |packet| && Ids(packet) !! old(Asked(cs)) && Asked(cs) == old(Asked(cs)) + Ids(packet)
    ensures old(AllOwn(file, cs)) ==> (AllOwn(file, cs) <==> !lost)
    ensures lost ==> turn.call.Receive?
  {
    hide *;
    var a := turn.client;
    var slower := if turn.slower != null && turn.slower.state == Downloading && (turn.call.Ask? || turn.call.Receive?) then turn.slower else null;
    ghost var before, open, m := file.nextId, file.Open(), file.requested;
    ghost var seen, asked, parties, rest := SeenBy(cs), AskedBy(cs), Parties(a, slower), a.Rest(slower);
    ghost var own := AllOwn(file, cs);
    MayAct(file, cs, a, slower);
    AskedIs(cs);
    Maps(cs, seen, asked);
    ghost var gone;
    packet, lost, gone := Act(a, slower, turn.call);
    Afterwards(file, cs, a, slower, before, open, gone, seen, asked, Ids(packet));
    if own {
      OthersOwn(file, cs, a, slower, m, rest, parties);
    }
  }

  /** What Act leaves, put together. */
  lemma Afterwards(file: BlockPool, cs: set<Downloader>, a: Downloader, slower: Downloader?, before: nat, open: set<nat>, gone: set<nat>,
                   seen: map<Downloader, set<nat>>, asked: map<Downloader, set<nat>>, packet: set<nat>)
    requires a in cs && a.file == file && a.Valid() && a.MayDisplace(slower) && before <= file.nextId && open - gone <= file.Open()
    requires forall c :: c in cs && c != a && c != slower ==> c.file == file && c.Bounded(before) && c.Held() <= open && c.Held() !! gone
    requires seen.Keys == cs && asked.Keys == cs && Strangers(cs, seen) && forall c, id :: c in cs && id in seen[c] ==> id < before
    requires forall c :: c in cs && c != a ==> c.Held() + c.asked <= seen[c] && c.asked == asked[c]
    requires a.asked == asked[a] + packet && packet <= a.Held() && forall id :: id in a.Held() ==> id in seen[a] || id >= before
    requires asked[a] <= seen[a] && packet !! asked[a]
    ensures Swarm(file, cs) && packet !! All(asked) && Asked(cs) == All(asked) + packet
  {
    hide Strangers, Asked, All, SeenBy, AskedBy, Swarm, Ids;
    InOrder(a, slower);
    OthersGoOn(file, cs - {a} - {slower}, before, open, gone);
    Only(cs, seen, asked, a, slower, before, packet);
    StillStrangers(cs, seen, SeenBy(cs), a, before);
    Together(file, cs, a, slower, cs - {a} - {slower});
    PacketIsNew(cs, SeenBy(cs), asked, AskedBy(cs), a, packet);
    AskedIs(cs);
  }

  lemma InOrder(a: Downloader, slower: Downloader?)
    requires a.Valid() && a.MayDisplace(slower)
    ensures a.file.Valid() && (slower != null ==> slower.file == a.file && slower.Valid())
  {
  }

  lemma AskedIs(cs: set<Downloader>)
    ensures Asked(cs) == All(AskedBy(cs))
  {
  }

  lemma Maps(cs: set<Downloader>, seen: map<Downloader, set<nat>>, asked: map<Downloader, set<nat>>)
    requires seen == SeenBy(cs) && asked == AskedBy(cs)
    ensures seen.Keys == cs && asked.Keys == cs
    ensures forall c :: c in cs ==> seen[c] == c.Held() + c.asked && asked[c] == c.asked
  {
  }

  /** From before a call to after it. */
  lemma Only(cs: set<Downloader>, seen: map<Downloader, set<nat>>, asked: map<Downloader, set<nat>>,
             a: Downloader, slower: Downloader?, before: nat, packet: set<nat>)
    requires a in cs && seen.Keys == cs && asked.Keys == cs
    requires forall c :: c in cs && c != a ==> c.Held() + c.asked <= seen[c] && c.asked == asked[c]
    requires a.asked == asked[a] + packet && packet <= a.Held() && forall id :: id in a.Held() ==> id in seen[a] || id >= before
    requires asked[a] <= seen[a]
    ensures SeenBy(cs).Keys == cs && AskedBy(cs).Keys == cs
    ensures forall c :: c in cs && c != a ==> SeenBy(cs)[c] <= seen[c]
    ensures forall id :: id in SeenBy(cs)[a] ==> id in seen[a] || id >= before
    ensures forall c :: c in cs ==> AskedBy(cs)[c] <= SeenBy(cs)[c] && AskedBy(cs)[c] == asked[c] + if c == a then packet else {}
    ensures packet <= SeenBy(cs)[a]
  {
  }

  ghost function SeenBy(cs: set<Downloader>): map<Downloader, set<nat>>
    reads cs
  {
    map c | c in cs :: c.Seen()
  }

  ghost function AskedBy(cs: set<Downloader>): map<Downloader, set<nat>>
    reads cs
  {
    map c | c in cs :: c.asked
  }

  ghost function Parties(a: Downloader, slower: Downloader?): set<nat>
    reads a, slower
  {
    a.Held() + if slower == null then {} else slower.Held()
  }

  /** What a call finds. */
  lemma MayAct(file: BlockPool, cs: set<Downloader>, a: Downloader, slower: Downloader?)
    requires Swarm(file, cs) && a in cs && (slower != null ==> slower in cs && slower != a)
    ensures a.file == file && a.Valid() && a.MayDisplace(slower) && a.Held() <= Parties(a, slower) && (slower != null ==> slower.file == file)
    ensures a.Rest(slower) == file.requested - Parties(a, slower)
    ensures Strangers(cs, SeenBy(cs)) && forall c, id :: c in cs && id in SeenBy(cs)[c] ==> id < file.nextId
    ensures forall c :: c in cs && c != a && c != slower ==>
      c.file == file && c.Bounded(file.nextId) && c.Held() <= file.Open() && c.Held() !! Parties(a, slower)
    ensures AllOwn(file, cs) ==> a.Owns() && a.BothOwn(slower) && forall c :: c in cs && c != a && c != slower ==> Registered(c.pending, file.requested)
  {
    hide Tracked, Registered, AllApart;
    assert a.Seen() !! (if slower == null then {} else slower.Seen());
    forall c | c in cs
      ensures forall id :: id in c.Seen() ==> id < file.nextId
    {
      Bounds(c.pending, c.asked, 0, file.nextId);
    }
    forall c | c in cs && c != a && c != slower
      ensures c.Held() !! Parties(a, slower)
    {
      assert c.Seen() !! a.Seen() && (slower != null ==> c.Seen() !! slower.Seen());
    }
  }

  lemma OthersGoOn(file: BlockPool, others: set<Downloader>, before: nat, open: set<nat>, gone: set<nat>)
    requires file.Valid() && before <= file.nextId && open - gone <= file.Open()
    requires forall c :: c in others ==> c.file == file && c.Bounded(before) && c.Held() <= open && c.Held() !! gone
    ensures forall c :: c in others ==> c.file == file && c.Valid()
  {
    forall c | c in others
      ensures c.Valid()
    {
      Undisturbed(c, before, open, gone);
    }
  }

  lemma OthersOwn(file: BlockPool, cs: set<Downloader>, a: Downloader, slower: Downloader?, m: map<nat, Block>, rest: map<nat, Block>, parties: set<nat>)
    requires a in cs && a.file == file && rest == m - parties && rest == a.Rest(slower)
    requires slower != null ==> slower.file == file && slower.Owns()
    requires forall c :: c in cs && c != a && c != slower ==> c.file == file && Registered(c.pending, m) && c.Held() !! parties
    ensures AllOwn(file, cs) <==> a.Owns()
  {
    hide Registered, Ids;
    assert forall id :: id in rest ==> id in file.requested && file.requested[id] == rest[id];
    forall c | c in cs && c != a && c != slower
      ensures c.Owns()
    {
      StillOnList(c, m, rest, parties);
    }
  }

  lemma Together(file: BlockPool, cs: set<Downloader>, a: Downloader, slower: Downloader?, others: set<Downloader>)
    requires a in cs && others == cs - {a} - {slower} && a.file == file && a.Valid() && a.MayDisplace(slower)
    requires (forall c :: c in others ==> c.file == file && c.Valid()) && Strangers(cs, SeenBy(cs))
    ensures Swarm(file, cs)
  {
    hide Tracked, AllApart;
    forall c, d | c in cs && d in cs && c != d
      ensures c.Seen() !! d.Seen()
    {
      assert SeenBy(cs)[c] !! SeenBy(cs)[d];
    }
  }

  /**
   * Any calls on any clients, one after the other. Nothing is asked for twice: not in one packet, not in two, not of
   * two clients. As long as no block is given back while it is pending, everyone's blocks stay on the file's list.
   */
  method Run(file: BlockPool, ghost cs: set<Downloader>, turns: seq<Turn>) returns (packets: seq<seq<Pending>>, lost: bool)
    requires Swarm(file, cs)
    requires forall t :: t in turns ==> t.client in cs && (t.slower != null ==> t.slower in cs && t.slower != t.client)
    modifies file, cs
    ensures Swarm(file, cs)
    ensures forall i :: 0 <= i < |packets| ==> |Ids(packets[i])| == |packets[i]| && Ids(packets[i]) !! old(Asked(cs))
    ensures forall i, j :: 0 <= i < j < |packets| ==> Ids(packets[i]) !! Ids(packets[j])
    ensures old(AllOwn(file, cs)) && !lost ==> AllOwn(file, cs)
  {
    hide Swarm, AllOwn, Asked, Ids;
    packets, lost := [], false;
    var k := 0;
    while k < |turns|
      invariant k <= |turns| && Swarm(file, cs) && old(Asked(cs)) <= Asked(cs)
      invariant forall i :: 0 <= i < |packets| ==>
        |Ids(packets[i])| == |packets[i]| && Ids(packets[i]) !! old(Asked(cs)) && Ids(packets[i]) <= Asked(cs)
      invariant forall i, j :: 0 <= i < j < |packets| ==> Ids(packets[i]) !! Ids(packets[j])
      invariant old(AllOwn(file, cs)) && !lost ==> AllOwn(file, cs)
    {
      var packet, gone := Make(file, cs, turns[k]);
      packets, lost, k := packets + [packet], lost || gone, k + 1;
    }
  }

  ghost function All(m: map<Downloader, set<nat>>): set<nat> { set c, id | c in m && id in m[c] :: id }

  ghost predicate Strangers(cs: set<Downloader>, m: map<Downloader, set<nat>>)
    requires m.Keys == cs
  {
    forall c, d :: c in cs && d in cs && c != d ==> m[c] !! m[d]
  }

  /** Only one client sees anything it has not seen before, and that is new to all. */
  lemma StillStrangers(cs: set<Downloader>, was: map<Downloader, set<nat>>, now: map<Downloader, set<nat>>, a: Downloader, before: nat)
    requires was.Keys == now.Keys == cs && a in cs && Strangers(cs, was)
    requires forall c :: c in cs && c != a ==> now[c] <= was[c]
    requires forall c, id :: c in cs && id in was[c] ==> id < before
    requires forall id :: id in now[a] ==> id in was[a] || id >= before
    ensures Strangers(cs, now)
  {
  }

  lemma PacketIsNew(cs: set<Downloader>, seen: map<Downloader, set<nat>>, was: map<Downloader, set<nat>>, now: map<Downloader, set<nat>>,
                    a: Downloader, packet: set<nat>)
    requires seen.Keys == was.Keys == now.Keys == cs && a in cs && Strangers(cs, seen)
    requires forall c :: c in cs ==> now[c] <= seen[c] && now[c] == was[c] + if c == a then packet else {}
    requires packet <= seen[a] && packet !! was[a]
    ensures packet !! All(was) && All(now) == All(was) + packet
  {
    forall id | id in All(was)
      ensures id !in packet
    {
      var c :| c in cs && id in was[c];
      assert id in now[c];
      assert c != a ==> seen[c] !! seen[a];
    }
  }

  // ---- A block given back while it is pending ----

  lemma Pair(file: BlockPool, a: Downloader, b: Downloader)
    requires a != b && a.file == b.file == file && a.Valid() && b.Valid() && a.Seen() !! b.Seen()
    ensures Swarm(file, {a, b})
  {
    hide Tracked, AllApart;
  }

  lemma OneTaken(block: Block, id: nat)
    requires block.start <= block.end
    ensures Taken(map[], [block], STANDARD_BLOCKS_REQUEST, id) == [NewPending(id, block)]
    ensures Unqueued([NewPending(id, block)], STANDARD_BLOCKS_REQUEST) == [NewPending(id, block)]
    ensures Marked([NewPending(id, block)], STANDARD_BLOCKS_REQUEST) == [NewPending(id, block).(queued := true)]
  {
    assert [block][1..] == [] && [NewPending(id, block)][1..] == [];
  }

  /** The client has been asked for one block, under this identity. */
  ghost predicate AskedForOne(a: Downloader, id: nat, block: Block)
    reads a
  {
    a.pending == [NewPending(id, block).(queued := true)] && a.asked == {id} && a.state == Downloading
  }

  lemma OneHeld(a: Downloader, id: nat, block: Block)
    requires AskedForOne(a, id, block)
    ensures a.Held() == {id} && a.Seen() == {id} && (a.Owns() <==> id in a.file.requested && a.file.requested[id] == block)
    ensures AllCovering(a.file.requested, a.pending) == Covering(a.file.requested, block)
  {
    var p := NewPending(id, block).(queued := true);
    assert a.pending == [p] && [p][1..] == [] && Ids([p]) == {id} + Ids([]);
    assert Registered([p], a.file.requested) <==> id in a.file.requested && a.file.requested[id] == block && Registered([], a.file.requested);
  }

  /** A new client is asked for the one block that its file has for it. */
  method AskForOne(a: Downloader, block: Block, now: nat) returns (ghost id: nat)
    requires a.Valid() && a.pending == [] && a.asked == {} && a.file.requested == map[] && block.start <= block.end
    requires !a.vbtTags && a.largeFiles && a.maxRequests == STANDARD_BLOCKS_REQUEST && a.state == Downloading
    modifies a, a.file
    ensures a.Valid() && AskedForOne(a, id, block) && id == old(a.file.nextId) < a.file.nextId
    ensures a.file.requested == map[id := block] && old(a.file.Open()) <= a.file.Open()
  {
    id := a.file.nextId;
    OneTaken(block, id);
    NoneRegistered(a.file.requested);
    var sent, dropped;
    ghost var filled;
    sent, dropped, filled := a.SendBlockRequests(now, null, [block], []);
    assert filled == [NewPending(id, block)];
    assert a.Sendable(filled);
    assert Ids(sent.blocks) == {id} by { assert sent.blocks[1..] == []; }
    OneHeld(a, id, block);
    assert a.file.requested - {id} == map[];
  }

  /** It sends too much. The block goes back to the file and stays pending. */
  method SendTooMuch(a: Downloader, block: Block, now: nat, ghost id: nat)
    requires a.Valid() && AskedForOne(a, id, block) && a.file.requested == map[id := block] && block.start <= block.end
    modifies a, a.file
    ensures a.Valid() && AskedForOne(a, id, block) && a.file.requested == map[] && a.file.nextId == old(a.file.nextId)
    ensures !a.Owns()
  {
    OneHeld(a, id, block);
    assert Around(a.pending, block.start) == 0;
    var outcome := a.ProcessBlockPacket(block.start, Plain(block.end + 1, 1), now, null, [], []);
    assert Covering(map[id := block], block) == {id};
    OneHeld(a, id, block);
  }

  /**
   * Two clients, one block. `a` is asked for it and sends too much, so that it is given back; `b` is asked for it;
   * `a` stops. Giving back its own, `a` takes the request to `b` off the file's list, from where a third may be
   * asked for the same bytes, though nothing that `b` was sent was in error.
   */
  method AnothersRequestLost(block: Block, now: nat) returns (file: BlockPool, a: Downloader, b: Downloader)
    requires block.start <= block.end
    ensures fresh(file) && fresh(a) && fresh(b) && a != b && Swarm(file, {a, b}) && a.Owns() && !b.Owns()
    ensures |b.pending| == 1 && b.pending[0].block == block && b.pending[0].queued && Usable(file.requested, block)
  {
    hide Tracked, AllApart, Swarm;
    file := new BlockPool();
    a := new Downloader(file, false, true);
    b := new Downloader(file, false, true);
    NoneRegistered(file.requested);
    ghost var id := AskForOne(a, block, now);
    SendTooMuch(a, block, now, id);
    OneHeld(a, id, block);
    ghost var before, open := file.nextId, file.Open();
    Undisturbed(b, 0, {}, {});
    ghost var later := AskForOne(b, block, now);
    Undisturbed(a, before, open, {});
    OneHeld(a, id, block);
    OneHeld(b, later, block);
    a.ClearDownloadBlockRequests();
    assert Ids([]) == {};
    assert Covering(map[later := block], block) == {later};
    Undisturbed(b, file.nextId, file.Open(), {});
    OneHeld(b, later, block);
    Pair(file, a, b);
  }
}
