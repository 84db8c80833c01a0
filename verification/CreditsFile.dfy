/** clients.met: the credit records as they are saved and loaded. */
module CreditsFile {
  import opened Bytes
  import opened Options
  import opened FileModel
  import opened BufferedFile
  import opened IdentModel

  const CREDITFILE_VERSION: byte := 0x12
  const RECORD_SIZE: nat := 119
  /** 150 days, in seconds. */
  const LIFETIME: nat := 12960000

  /** CreditStruct: the totals are 64 bits wide, and only the first `keySize` bytes of `ident` are a key. */
  datatype Credit = Credit(
    key: seq<byte>, uploaded: nat, downloaded: nat, lastSeen: uint32, reserved: nat, keySize: byte, ident: seq<byte>)
  {
    ghost predicate Valid() {
      && |key| == 16 && uploaded < Span(8) && downloaded < Span(8) && reserved < Span(2) && |ident| == MAXPUBKEYSIZE
    }
  }

  // ---- Saving ----

  predicate Saved(c: Credit) { c.uploaded != 0 || c.downloaded != 0 }

  /** Each total is split: its low half before the time last seen, its high half after. */
  function Record(c: Credit): seq<byte> {
    c.key + Encode(c.uploaded, 4) + Encode(c.downloaded, 4) + Encode(c.lastSeen, 4)
    + Encode(c.uploaded / 0x1_0000_0000, 4) + Encode(c.downloaded / 0x1_0000_0000, 4)
    + Encode(c.reserved, 2) + [c.keySize] + c.ident
  }

  /** The 119 bytes of a record: what is where. */
  lemma RecordLayout(c: Credit)
    requires c.Valid()
    ensures var r := Record(c);
            && |r| == 119 && r[..16] == c.key
            && Decode(r[16..20]) == c.uploaded % 0x1_0000_0000 && Decode(r[20..24]) == c.downloaded % 0x1_0000_0000
            && Decode(r[24..28]) == c.lastSeen
            && Decode(r[28..32]) == c.uploaded / 0x1_0000_0000 && Decode(r[32..36]) == c.downloaded / 0x1_0000_0000
            && Decode(r[36..38]) == c.reserved && r[38] == c.keySize && r[39..] == c.ident
  {
    var r := Record(c);
    assert r[16..20] == Encode(c.uploaded, 4) && r[20..24] == Encode(c.downloaded, 4) && r[24..28] == Encode(c.lastSeen, 4);
    assert r[28..32] == Encode(c.uploaded / 0x1_0000_0000, 4) && r[32..36] == Encode(c.downloaded / 0x1_0000_0000, 4);
    assert r[36..38] == Encode(c.reserved, 2) && r[39..] == c.ident;
    SpanValues();
    DecodeEncode(c.uploaded, 4);
    DecodeEncode(c.downloaded, 4);
    DecodeEncode(c.lastSeen, 4);
    DecodeEncode(c.uploaded / 0x1_0000_0000, 4);
    DecodeEncode(c.downloaded / 0x1_0000_0000, 4);
    DecodeEncode(c.reserved, 2);
  }

  function SavedOf(list: seq<Credit>): seq<Credit> {
    if list == [] then [] else (if Saved(list[0]) then [list[0]] else []) + SavedOf(list[1..])
  }

  function Records(list: seq<Credit>): seq<byte> {
    if list == [] then [] else Record(list[0]) + Records(list[1..])
  }

  /** The whole file: version, count, records. */
  function Image(list: seq<Credit>): seq<byte> {
    [CREDITFILE_VERSION] + Encode(|SavedOf(list)|, 4) + Records(SavedOf(list))
  }

  // ---- Loading ----

  function Parse(bs: seq<byte>): Credit
    requires |bs| >= RECORD_SIZE
  {
    Credit(bs[..16],
      Decode(bs[16..20]) + Decode(bs[28..32]) * 0x1_0000_0000,
      Decode(bs[20..24]) + Decode(bs[32..36]) * 0x1_0000_0000,
      Low(bs[24..28]), Decode(bs[36..38]), bs[38], bs[39..RECORD_SIZE])
  }

  function Low(bs: seq<byte>): uint32
    requires |bs| == 4
  {
    SpanValues();
    Decode(bs)
  }

  /** The time before which a record has expired, in unsigned 32-bit arithmetic. */
  function Expiry(now: uint32): uint32 { (now - LIFETIME) % 0x1_0000_0000 }

  predicate Alive(c: Credit, now: uint32) { c.lastSeen >= Expiry(now) }

  /** The next `n` records, added to those already known: an oversized key discards everything, the end of the file keeps what there is. */
  function LoadRecords(bs: seq<byte>, n: nat, now: uint32, known: map<seq<byte>, Credit>): map<seq<byte>, Credit>
    decreases n
  {
    if n == 0 || |bs| < RECORD_SIZE then known
    else
      var c := Parse(bs);
      if c.keySize > MAXPUBKEYSIZE then map[]
      else LoadRecords(bs[RECORD_SIZE..], n - 1, now, if Alive(c, now) then known[c.key := c] else known)
  }

  function Loaded(bs: seq<byte>, now: uint32): map<seq<byte>, Credit> {
    if |bs| < 5 || bs[0] != CREDITFILE_VERSION then map[] else LoadRecords(bs[5..], Decode(bs[1..5]), now, map[])
  }

  /** The map of the records that are alive, the last one of a key winning. */
  function Index(list: seq<Credit>, now: uint32, known: map<seq<byte>, Credit>): map<seq<byte>, Credit> {
    if list == [] then known
    else Index(list[1..], now, if Alive(list[0], now) then known[list[0].key := list[0]] else known)
  }

  // ---- The round trip ----

  lemma SplitHalves(n: nat)
    requires n < Span(8)
    ensures Decode(Encode(n, 4)) + Decode(Encode(n / 0x1_0000_0000, 4)) * 0x1_0000_0000 == n
  {
    SpanValues();
    DecodeEncode(n, 4);
    DecodeEncode(n / 0x1_0000_0000, 4);
  }

  lemma ParseRecord(c: Credit, rest: seq<byte>)
    requires c.Valid()
    ensures |Record(c)| == RECORD_SIZE && Parse(Record(c) + rest) == c
    ensures (Record(c) + rest)[RECORD_SIZE..] == rest
  {
    var bs := Record(c) + rest;
    assert bs[..16] == c.key;
    assert bs[16..20] == Encode(c.uploaded, 4) && bs[28..32] == Encode(c.uploaded / 0x1_0000_0000, 4);
    assert bs[20..24] == Encode(c.downloaded, 4) && bs[32..36] == Encode(c.downloaded / 0x1_0000_0000, 4);
    assert bs[24..28] == Encode(c.lastSeen, 4) && bs[36..38] == Encode(c.reserved, 2);
    assert bs[39..RECORD_SIZE] == c.ident;
    SplitHalves(c.uploaded);
    SplitHalves(c.downloaded);
    SpanValues();
    DecodeEncode(c.lastSeen, 4);
    DecodeEncode(c.reserved, 2);
  }

  ghost predicate AllValid(list: seq<Credit>) { forall c :: c in list ==> c.Valid() }

  predicate KeysFit(list: seq<Credit>) { forall c :: c in list ==> c.keySize <= MAXPUBKEYSIZE }

  lemma {:induction false} LoadsRecords(list: seq<Credit>, now: uint32, known: map<seq<byte>, Credit>)
    requires AllValid(list)
    ensures LoadRecords(Records(list), |list|, now, known) == if KeysFit(list) then Index(list, now, known) else map[]
    decreases |list|
  {
    if list != [] {
      var c := list[0];
      assert c in list && forall d :: d in list <==> d == c || d in list[1..];
      ParseRecord(c, Records(list[1..]));
      LoadsRecords(list[1..], now, if Alive(c, now) then known[c.key := c] else known);
    }
  }

  lemma {:induction false} SavedOfExactly(list: seq<Credit>)
    ensures |SavedOf(list)| <= |list| && forall c :: c in SavedOf(list) <==> c in list && Saved(c)
  {
    if list != [] {
      SavedOfExactly(list[1..]);
      assert forall c :: c in list <==> c == list[0] || c in list[1..];
    }
  }

  function Lookup(m: map<seq<byte>, Credit>, k: seq<byte>): Option<Credit> { if k in m then Some(m[k]) else None }

  /** The last record of this key that is alive. */
  function Latest(list: seq<Credit>, now: uint32, k: seq<byte>): Option<Credit> {
    if list == [] then None
    else
      var later := Latest(list[1..], now, k);
      if later.None? && list[0].key == k && Alive(list[0], now) then Some(list[0]) else later
  }

  lemma {:induction false} IndexAt(list: seq<Credit>, now: uint32, known: map<seq<byte>, Credit>, k: seq<byte>)
    ensures Lookup(Index(list, now, known), k) == if Latest(list, now, k).Some? then Latest(list, now, k) else Lookup(known, k)
    decreases |list|
  {
    if list != [] {
      IndexAt(list[1..], now, if Alive(list[0], now) then known[list[0].key := list[0]] else known, k);
    }
  }

  /** The records of a map: one for each key. */
  predicate DistinctKeys(list: seq<Credit>) {
    list == [] || ((forall d :: d in list[1..] ==> d.key != list[0].key) && DistinctKeys(list[1..]))
  }

  lemma {:induction false} LatestOnly(list: seq<Credit>, now: uint32, k: seq<byte>)
    requires DistinctKeys(list)
    ensures Latest(SavedOf(list), now, k).Some? <==> exists c :: c in list && c.key == k && Saved(c) && Alive(c, now)
    ensures forall c :: c in list && c.key == k && Saved(c) && Alive(c, now) ==> Latest(SavedOf(list), now, k) == Some(c)
  {
    if list != [] {
      LatestOnly(list[1..], now, k);
      assert forall c :: c in list <==> c == list[0] || c in list[1..];
      if Saved(list[0]) {
        assert SavedOf(list)[1..] == SavedOf(list[1..]);
      } else {
        assert SavedOf(list) == SavedOf(list[1..]);
      }
      assert list[0] in list;
    }
  }

  /** Loading what was saved: the records that are written and alive, or nothing if one written has an oversized key. */
  lemma LoadsImage(list: seq<Credit>, now: uint32, k: seq<byte>)
    requires AllValid(list) && |list| < 0x1_0000_0000
    ensures Lookup(Loaded(Image(list), now), k) == if KeysFit(SavedOf(list)) then Latest(SavedOf(list), now, k) else None
  {
    var saved, bs := SavedOf(list), Image(list);
    SavedOfExactly(list);
    SpanValues();
    DecodeEncode(|saved|, 4);
    assert bs[1..5] == Encode(|saved|, 4) && bs[5..] == Records(saved);
    LoadsRecords(saved, now, map[]);
    IndexAt(saved, now, map[], k);
  }

  /** A record survives 150 days from when it was last seen; if the clock shows less than that, the subtraction wraps. */
  lemma AliveInTime(c: Credit, now: uint32)
    ensures Alive(c, now) <==> if now >= 12960000 then now <= c.lastSeen + 12960000 else now + 0x1_0000_0000 <= c.lastSeen + 12960000
  {
    if now < 12960000 {
      assert Expiry(now) == now - 12960000 + 0x1_0000_0000;
    }
  }

  /**
   * Loading what was saved from a map gives back exactly the records with a nonzero total that were seen in the
   * last 150 days, each with its 64-bit totals, if and only if no record written has an oversized key or none would
   * be left. With a clock below 150 days the wrapped time of expiry is near the end of the 32 bits.
   */
  lemma RoundTrip(list: seq<Credit>, now: uint32)
    requires AllValid(list) && DistinctKeys(list) && |list| < 0x1_0000_0000
    ensures (forall k, c :: Lookup(Loaded(Image(list), now), k) == Some(c) <==>
              && c in list && c.key == k && (c.uploaded > 0 || c.downloaded > 0)
              && if now >= 12960000 then now <= c.lastSeen + 12960000 else now + 0x1_0000_0000 <= c.lastSeen + 12960000)
            <==>
            || (forall c :: c in list && (c.uploaded > 0 || c.downloaded > 0) ==> c.keySize <= MAXPUBKEYSIZE)
            || (forall c :: c in list && (c.uploaded > 0 || c.downloaded > 0) ==>
                 !if now >= 12960000 then now <= c.lastSeen + 12960000 else now + 0x1_0000_0000 <= c.lastSeen + 12960000)
  {
    forall c: Credit
      ensures Alive(c, now) <==> if now >= 12960000 then now <= c.lastSeen + 12960000 else now + 0x1_0000_0000 <= c.lastSeen + 12960000
    {
      AliveInTime(c, now);
    }
    SavedOfExactly(list);
    assert KeysFit(SavedOf(list)) <==> forall c :: c in list && Saved(c) ==> c.keySize <= MAXPUBKEYSIZE;
    assert forall c: Credit :: Saved(c) <==> c.uploaded > 0 || c.downloaded > 0;
    RoundTripAlive(list, now);
  }

  lemma RoundTripAlive(list: seq<Credit>, now: uint32)
    requires AllValid(list) && DistinctKeys(list) && |list| < 0x1_0000_0000
    ensures (forall k, c :: Lookup(Loaded(Image(list), now), k) == Some(c) <==> c in list && c.key == k && Saved(c) && Alive(c, now))
            <==> KeysFit(SavedOf(list)) || forall c :: c in list ==> !(Saved(c) && Alive(c, now))
  {
    hide Loaded, Image, AllValid, DistinctKeys, KeysFit, Saved, Alive, SavedOf, Latest;
    forall k
      ensures Lookup(Loaded(Image(list), now), k) == if KeysFit(SavedOf(list)) then Latest(SavedOf(list), now, k) else None
      ensures Latest(SavedOf(list), now, k).Some? <==> exists c :: c in list && c.key == k && Saved(c) && Alive(c, now)
      ensures forall c :: c in list && c.key == k && Saved(c) && Alive(c, now) ==> Latest(SavedOf(list), now, k) == Some(c)
    {
      LoadsImage(list, now, k);
      LatestOnly(list, now, k);
    }
    if !KeysFit(SavedOf(list)) && exists c :: c in list && Saved(c) && Alive(c, now) {
      var c :| c in list && Saved(c) && Alive(c, now);
      assert Lookup(Loaded(Image(list), now), c.key) == None;
    }
  }

  // ---- SaveList and LoadList ----

  /** A file being written at its end. */
  ghost predicate AtEnd(f: Fd) { f.pos == |f.disk| && f.writable && !f.append }

  lemma WroteAtEnd(f: Fd, data: seq<byte>)
    requires AtEnd(f)
    ensures AtEnd(Wrote(f, data)) && Wrote(f, data).disk == f.disk + data
  {
  }

  /** CFileDataIO::Write: everything is taken, or an exception is thrown. */
  method Put(file: CFile, data: seq<byte>) returns (ok: bool)
    requires file.Valid() && file.fd != null && AtEnd(file.View())
    modifies file, file.fd, file.writeBuffer
    ensures file.Valid() && file.fd == old(file.fd) && (file.writeBuffer != old(file.writeBuffer) ==> fresh(file.writeBuffer))
    ensures ok ==> AtEnd(file.View()) && file.View().disk == old(file.View().disk) + data
  {
    ghost var was := file.State();
    var r := file.DoWrite(data);
    if r.Done? {
      WritesAgree(was, data);
      WroteAtEnd(was.View(), data);
    }
    ok := r.Done?;
  }

  function Joined(parts: seq<seq<byte>>): seq<byte> {
    if parts == [] then [] else parts[0] + Joined(parts[1..])
  }

  lemma JoinedThree(a: seq<byte>, b: seq<byte>, c: seq<byte>)
    ensures Joined([a, b, c]) == a + b + c
  {
    assert [a, b, c][1..] == [b, c] && [b, c][1..] == [c] && [c][1..] == [];
    assert Joined([c]) == c;
    assert Joined([b, c]) == b + c;
    assert a + (b + c) == a + b + c;
  }

  lemma JoinedNext(disk: seq<byte>, parts: seq<seq<byte>>, i: nat)
    requires i < |parts|
    ensures disk + Joined(parts[i..]) == disk + parts[i] + Joined(parts[i + 1..])
  {
    assert parts[i..][1..] == parts[i + 1..];
  }

  lemma JoinedNone(parts: seq<seq<byte>>)
    ensures parts == [] ==> Joined(parts) == []
  {
  }

  /** Several fields in a row. */
  method PutAll(file: CFile, parts: seq<seq<byte>>) returns (ok: bool)
    requires file.Valid() && file.fd != null && AtEnd(file.View())
    modifies file, file.fd, file.writeBuffer
    ensures file.Valid() && file.fd == old(file.fd) && (file.writeBuffer != old(file.writeBuffer) ==> fresh(file.writeBuffer))
    ensures ok ==> AtEnd(file.View()) && file.View().disk == old(file.View().disk) + Joined(parts)
  {
    hide AtEnd, Wrote, Joined;
    ok := true;
    var i := 0;
    assert parts[0..] == parts;
    while i < |parts| && ok
      invariant i <= |parts|
      invariant file.Valid() && file.fd == old(file.fd) && (file.writeBuffer != old(file.writeBuffer) ==> fresh(file.writeBuffer))
      invariant ok ==> AtEnd(file.View()) && file.View().disk + Joined(parts[i..]) == old(file.View().disk) + Joined(parts)
    {
      JoinedNext(file.View().disk, parts, i);
      ok := Put(file, parts[i]);
      i := i + 1;
    }
    JoinedNone(parts[i..]);
  }

  method PutRecord(file: CFile, c: Credit) returns (ok: bool)
    requires c.Valid() && file.Valid() && file.fd != null && AtEnd(file.View())
    modifies file, file.fd, file.writeBuffer
    ensures file.Valid() && file.fd == old(file.fd) && (file.writeBuffer != old(file.writeBuffer) ==> fresh(file.writeBuffer))
    ensures ok ==> AtEnd(file.View()) && file.View().disk == old(file.View().disk) + Record(c)
  {
    hide AtEnd, Wrote, Joined, Encode, Record;
    var first := [c.key, Encode(c.uploaded, 4), Encode(c.downloaded, 4)];
    var second := [Encode(c.lastSeen, 4), Encode(c.uploaded / 0x1_0000_0000, 4), Encode(c.downloaded / 0x1_0000_0000, 4)];
    var third := [Encode(c.reserved, 2), [c.keySize], c.ident];
    ok := PutAll(file, first);
    if ok {
      ok := PutAll(file, second);
      if ok {
        ok := PutAll(file, third);
        InThirds(old(file.View().disk), c);
      }
    }
  }

  lemma InThirds(disk: seq<byte>, c: Credit)
    ensures disk + Joined([c.key, Encode(c.uploaded, 4), Encode(c.downloaded, 4)])
            + Joined([Encode(c.lastSeen, 4), Encode(c.uploaded / 0x1_0000_0000, 4), Encode(c.downloaded / 0x1_0000_0000, 4)])
            + Joined([Encode(c.reserved, 2), [c.keySize], c.ident]) == disk + Record(c)
  {
    var a, b := Encode(c.uploaded / 0x1_0000_0000, 4), Encode(c.downloaded / 0x1_0000_0000, 4);
    hide Joined, Encode;
    JoinedThree(c.key, Encode(c.uploaded, 4), Encode(c.downloaded, 4));
    JoinedThree(Encode(c.lastSeen, 4), a, b);
    JoinedThree(Encode(c.reserved, 2), [c.keySize], c.ident);
  }

  lemma NextSaved(disk: seq<byte>, list: seq<Credit>, i: nat)
    requires i < |list|
    ensures disk + Records(SavedOf(list[i..])) == (if Saved(list[i]) then disk + Record(list[i]) else disk) + Records(SavedOf(list[i + 1..]))
    ensures |SavedOf(list[i..])| == (if Saved(list[i]) then 1 else 0) + |SavedOf(list[i + 1..])|
  {
    assert list[i..][1..] == list[i + 1..];
    if Saved(list[i]) {
      assert SavedOf(list[i..])[1..] == SavedOf(list[i + 1..]);
    } else {
      assert SavedOf(list[i..]) == SavedOf(list[i + 1..]);
    }
  }

  method PutRecords(file: CFile, list: seq<Credit>) returns (ok: bool, count: nat)
    requires AllValid(list) && file.Valid() && file.fd != null && AtEnd(file.View())
    modifies file, file.fd, file.writeBuffer
    ensures file.Valid() && file.fd == old(file.fd) && (file.writeBuffer != old(file.writeBuffer) ==> fresh(file.writeBuffer))
    ensures ok ==> AtEnd(file.View()) && file.View().disk == old(file.View().disk) + Records(SavedOf(list)) && count == |SavedOf(list)|
  {
    hide AtEnd, Wrote, Record, Records, SavedOf, Saved;
    ok, count := true, 0;
    var i := 0;
    assert list[0..] == list;
    while i < |list| && ok
      invariant i <= |list|
      invariant file.Valid() && file.fd == old(file.fd) && (file.writeBuffer != old(file.writeBuffer) ==> fresh(file.writeBuffer))
      invariant ok ==> AtEnd(file.View()) && count + |SavedOf(list[i..])| == |SavedOf(list)|
      invariant ok ==> file.View().disk + Records(SavedOf(list[i..])) == old(file.View().disk) + Records(SavedOf(list))
    {
      NextSaved(file.View().disk, list, i);
      if Saved(list[i]) {
        ok := PutRecord(file, list[i]);
        count := count + 1;
      }
      i := i + 1;
    }
    NoneSaved(list[i..]);
  }

  lemma NoneSaved(list: seq<Credit>)
    ensures list == [] ==> SavedOf(list) == [] && Records(SavedOf(list)) == []
  {
  }

  /**
   * SaveList: a placeholder for the count first, which is overwritten once the records are out; the file is
   * closed as it goes out of scope. If nothing throws, what is on disk is the image of the list.
   */
  method SaveList(file: CFile, existing: Option<seq<byte>>, list: seq<Credit>) returns (ok: bool, fd: Descriptor?)
    requires AllValid(list) && file.Valid() && file.fd == null
    modifies file, file.writeBuffer
    ensures file.Valid()
    ensures ok ==> file.fd == null && fd != null && fresh(fd) && fd.disk == Image(list)
  {
    var created := file.Open(existing, WriteNew);
    fd := file.fd;
    ok := PutAll(file, [[CREDITFILE_VERSION], Encode(0, 4), []]);
    if ok {
      JoinedThree([CREDITFILE_VERSION], Encode(0, 4), []);
      ok := WriteBody(file, list);
      if ok {
        var closed := file.Close();
        ok := closed.Done?;
      }
    }
  }

  method WriteBody(file: CFile, list: seq<Credit>) returns (ok: bool)
    requires AllValid(list) && file.Valid() && file.fd != null && AtEnd(file.View())
    requires file.View().disk == [CREDITFILE_VERSION] + Encode(0, 4)
    modifies file, file.fd, file.writeBuffer
    ensures file.Valid() && file.fd == old(file.fd)
    ensures ok ==> file.View().disk == Image(list)
  {
    var written, count := PutRecords(file, list);
    if !written {
      return false;
    }
    ghost var f := file.View();
    ghost var was := file.State();
    var sought := file.DoSeek(1);
    if sought.Thrown? {
      return false;
    }
    StepsAgree(was, Op.Seek(1));
    ghost var mid := file.State();
    var r := file.DoWrite(Encode(count, 4));
    if r.Done? {
      WritesAgree(mid, Encode(count, 4));
      BackPatched(f.disk, Encode(0, 4), Encode(count, 4), Records(SavedOf(list)));
    }
    ok := r.Done?;
  }

  /** Overwriting the placeholder changes nothing else. */
  lemma BackPatched(disk: seq<byte>, before: seq<byte>, after: seq<byte>, rest: seq<byte>)
    requires |before| == |after| == 4 && disk == [CREDITFILE_VERSION] + before + rest
    ensures Patch(disk, 1, after) == [CREDITFILE_VERSION] + after + rest
  {
  }

  /** LoadList's loop over the open file, whose bytes are `bs`. */
  method LoadList(bs: seq<byte>, now: uint32) returns (clients: map<seq<byte>, Credit>)
    ensures clients == Loaded(bs, now)
  {
    clients := map[];
    if |bs| < 5 || bs[0] != CREDITFILE_VERSION {
      return;
    }
    var count := Decode(bs[1..5]);
    var expired := Expiry(now);
    var at, i := 5, 0;
    while i < count
      invariant 5 <= at <= |bs| && i <= count
      invariant LoadRecords(bs[at..], count - i, now, clients) == Loaded(bs, now)
    {
      if |bs| - at < RECORD_SIZE {
        return;
      }
      var c := Parse(bs[at..]);
      assert bs[at..][RECORD_SIZE..] == bs[at + RECORD_SIZE..];
      if c.keySize > MAXPUBKEYSIZE {
        return map[];
      }
      if c.lastSeen >= expired {
        clients := clients[c.key := c];
      }
      at, i := at + RECORD_SIZE, i + 1;
    }
  }

  /** Saving a map and loading it `now`: with keys that fit, a record is there exactly if it has a total and is not 150 days old. */
  method SaveAndLoad(file: CFile, existing: Option<seq<byte>>, list: seq<Credit>, now: uint32) returns (ok: bool, clients: map<seq<byte>, Credit>)
    requires AllValid(list) && DistinctKeys(list) && |list| < 0x1_0000_0000 && KeysFit(list)
    requires file.Valid() && file.fd == null
    modifies file, file.writeBuffer
    ensures ok ==> forall k, c :: Lookup(clients, k) == Some(c) <==>
      && c in list && c.key == k && (c.uploaded > 0 || c.downloaded > 0)
      && if now >= 12960000 then now <= c.lastSeen + 12960000 else now + 0x1_0000_0000 <= c.lastSeen + 12960000
  {
    hide Loaded, Image, DistinctKeys;
    var fd;
    clients := map[];
    ok, fd := SaveList(file, existing, list);
    if ok {
      clients := LoadList(fd.disk, now);
      RoundTrip(list, now);
    }
  }
}
