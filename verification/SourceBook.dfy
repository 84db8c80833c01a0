/** The operations that move sources between files, as methods on the tables of clients and files. */
module SourceBook {
  import opened Options
  import opened SourceModel

  const PURGESOURCESWAPSTOP: nat := 15 * 60 * 1000
  const PR_HIGH: int := 2

  /** The status that a packet's bytes spell, least significant bit first; parts that the packet does not reach are missing. */
  function StatusBits(data: seq<nat>, parts: nat): (r: seq<bool>)
    ensures |r| == parts
  {
    seq(parts, i requires 0 <= i < parts => i / 8 < |data| && Bit(data[i / 8], i % 8))
  }

  function Bit(x: nat, i: nat): bool {
    if i == 0 then x % 2 == 1 else Bit(x / 2, i - 1)
  }

  // ---- The sender's side ----

  function Worth(have: seq<bool>, p: nat, weight: nat): nat { if p < |have| && have[p] then weight else 0 }

  /** A byte of the status that a client sends of the parts it has: of each eight parts the first is worth 1. */
  function StatusByte(have: seq<bool>, p: nat): nat {
    Worth(have, p, 1) + Worth(have, p + 1, 2) + Worth(have, p + 2, 4) + Worth(have, p + 3, 8)
    + Worth(have, p + 4, 16) + Worth(have, p + 5, 32) + Worth(have, p + 6, 64) + Worth(have, p + 7, 128)
  }

  /** WritePartStatus, less the part count in front. */
  method WritePartStatus(have: seq<bool>) returns (data: seq<nat>)
    ensures |data| == (|have| + 7) / 8 && forall k :: 0 <= k < |data| ==> data[k] == StatusByte(have, 8 * k) < 256
  {
    data := [];
    var done := 0;
    while done != |have|
      invariant done <= |have| && done == if 8 * |data| <= |have| then 8 * |data| else |have|
      invariant |data| <= (|have| + 7) / 8
      invariant forall k :: 0 <= k < |data| ==> data[k] == StatusByte(have, 8 * k) < 256
      decreases |have| - done
    {
      var towrite, i, bit := 0, 0, 1;
      ghost var from := done;
      while i != 8 && done != |have|
        invariant i <= 8 && done == from + i <= |have|
        invariant bit == Power(i) && towrite == Below(have, from, i)
      {
        if have[done] {
          towrite := towrite + bit;
        }
        done, i, bit := done + 1, i + 1, 2 * bit;
      }
      AllBelow(have, from, i);
      data := data + [towrite];
    }
  }

  function Power(i: nat): nat { if i == 0 then 1 else 2 * Power(i - 1) }

  function Below(have: seq<bool>, p: nat, i: nat): nat {
    if i == 0 then 0 else Below(have, p, i - 1) + Worth(have, p + i - 1, Power(i - 1))
  }

  lemma AllBelow(have: seq<bool>, p: nat, i: nat)
    requires i <= 8 && (i == 8 || p + i >= |have|)
    ensures Below(have, p, i) == StatusByte(have, p) < 256
  {
    assert Power(1) == 2 && Power(2) == 4 && Power(3) == 8 && Power(4) == 16 && Power(5) == 32 && Power(6) == 64 && Power(7) == 128;
    NoneBelow(have, p, i);
    assert Below(have, p, 2) == Below(have, p, 1) + Worth(have, p + 1, 2);
    assert Below(have, p, 4) == Below(have, p, 3) + Worth(have, p + 3, 8) == Below(have, p, 2) + Worth(have, p + 2, 4) + Worth(have, p + 3, 8);
    assert Below(have, p, 6) == Below(have, p, 5) + Worth(have, p + 5, 32) == Below(have, p, 4) + Worth(have, p + 4, 16) + Worth(have, p + 5, 32);
    assert Below(have, p, 8) == Below(have, p, 7) + Worth(have, p + 7, 128) == Below(have, p, 6) + Worth(have, p + 6, 64) + Worth(have, p + 7, 128);
  }

  lemma {:induction false} NoneBelow(have: seq<bool>, p: nat, i: nat)
    requires i <= 8 && (i == 8 || p + i >= |have|)
    ensures Below(have, p, i) == Below(have, p, 8)
    decreases 8 - i
  {
    if i < 8 {
      NoneBelow(have, p, i + 1);
    }
  }

  /** The same byte, halved step by step. */
  function From(have: seq<bool>, p: nat, n: nat): nat
    decreases n
  {
    if n == 0 then 0 else Worth(have, p, 1) + 2 * From(have, p + 1, n - 1)
  }

  lemma {:induction false} FromBits(have: seq<bool>, p: nat, n: nat, i: nat)
    requires i < n
    ensures Bit(From(have, p, n), i) == (p + i < |have| && have[p + i])
    decreases n
  {
    BitOf(Worth(have, p, 1), From(have, p + 1, n - 1), i);
    if i > 0 {
      FromBits(have, p + 1, n - 1, i - 1);
    }
  }

  lemma ByteBits(have: seq<bool>, p: nat, i: nat)
    requires i < 8
    ensures Bit(StatusByte(have, p), i) == (p + i < |have| && have[p + i])
  {
    Halved(have, p);
    FromBits(have, p, 8, i);
  }

  lemma Halved(have: seq<bool>, p: nat)
    ensures StatusByte(have, p) == From(have, p, 8)
  {
    var x7, x6, x5, x4 := From(have, p + 7, 1), From(have, p + 6, 2), From(have, p + 5, 3), From(have, p + 4, 4);
    var x3, x2, x1, x0 := From(have, p + 3, 5), From(have, p + 2, 6), From(have, p + 1, 7), From(have, p, 8);
    var a, b, c, d := Worth(have, p, 1), Worth(have, p + 1, 1), Worth(have, p + 2, 1), Worth(have, p + 3, 1);
    var e, f, g, h := Worth(have, p + 4, 1), Worth(have, p + 5, 1), Worth(have, p + 6, 1), Worth(have, p + 7, 1);
    assert x0 == a + 2 * x1 && x1 == b + 2 * x2 && x2 == c + 2 * x3 && x3 == d + 2 * x4;
    assert x4 == e + 2 * x5 && x5 == f + 2 * x6 && x6 == g + 2 * x7 && x7 == h;
    assert Worth(have, p + 1, 2) == 2 * b && Worth(have, p + 2, 4) == 4 * c && Worth(have, p + 3, 8) == 8 * d && Worth(have, p + 4, 16) == 16 * e;
    assert Worth(have, p + 5, 32) == 32 * f && Worth(have, p + 6, 64) == 64 * g && Worth(have, p + 7, 128) == 128 * h;
    assert StatusByte(have, p) == a + 2 * b + 4 * c + 8 * d + 16 * e + 32 * f + 64 * g + 128 * h;
  }

  lemma BitOf(low: nat, rest: nat, i: int)
    requires low <= 1
    ensures i == 0 ==> Bit(low + 2 * rest, i) == (low == 1)
    ensures i > 0 ==> Bit(low + 2 * rest, i) == Bit(rest, i - 1)
  {
    assert (low + 2 * rest) / 2 == rest && (low + 2 * rest) % 2 == low;
  }

  /** What a client writes of the parts it has is read as those parts, by a reader who looks at all of them or fewer. */
  method StatusRoundTrip(have: seq<bool>, parts: nat, complete: set<nat>) returns (bits: seq<bool>, needed: bool)
    requires parts <= |have|
    ensures bits == have[..parts] && (needed <==> exists p :: 0 <= p < parts && have[p] && p !in complete)
  {
    var truncated;
    var data := WritePartStatus(have);
    bits, needed, truncated := SourceQueue.ReadStatus(data, parts, complete);
    forall p | 0 <= p < parts
      ensures bits[p] == have[p]
    {
      ByteBits(have, 8 * (p / 8), p % 8);
    }
  }

  // ---- Moving clients ----

  function Requested(b: Book, c: nat, f: Option<nat>): Book
    requires c in b.clients && (b.Req(c).Some? ==> b.Req(c).value in b.files) && (f.Some? ==> f.value in b.files)
  {
    if b.Req(c) == f then b else Moved(WithBits(b, c, []), c, f)
  }

  function StateSet(b: Book, c: nat, st: DownState): Book
    requires c in b.clients && (b.Req(c).Some? ==> b.Req(c).value in b.files)
  {
    if b.clients[c].state == st then b
    else if b.clients[c].state.Downloading? && st.NoState? then WithBits(InStateNow(b, c, st), c, [])
    else InStateNow(b, c, st)
  }

  predicate Suspended(stamp: Stamp, now: nat) { now - stamp.timestamp < PURGESOURCESWAPSTOP }

  /** What makes a file a target to swap to. */
  predicate Target(b: Book, c: nat, f: nat, ignoreNoNeeded: bool, ignoreSuspended: bool, now: nat): (yes: bool)
    requires c in b.clients
    ensures yes ==> f in b.clients[c].a4af && f in b.files
  {
    && f in b.clients[c].a4af && f in b.files
    && (ignoreSuspended || !Suspended(b.clients[c].a4af[f], now))
    && (ignoreNoNeeded || b.clients[c].a4af[f].neededParts)
    && Some(f) != b.Req(c) && b.files[f].swappable
  }

  function Rating(b: Book, c: nat, f: nat): int
    requires c in b.clients && f in b.files && f in b.clients[c].a4af
  {
    b.files[f].priority + if b.clients[c].a4af[f].neededParts then 10 else 0
  }

  class SourceQueue {
    var files: map<nat, PartFile>
    var clients: map<nat, Source>

    constructor (files: map<nat, PartFile>)
      requires forall f :: f in files ==> Untouched(files[f])
      ensures Valid() && this.files == files && clients == map[]
    {
      this.files, this.clients := files, map[];
      new;
      forall f | f in files
        ensures FreqOk(State(), f) && CountersOk(State(), f)
      {
        assert InState(State(), f, true) == {} && InState(State(), f, false) == {};
        assert forall p :: Holders(State(), f, p) == {};
      }
    }

    static predicate Untouched(file: PartFile) {
      file.partCount > 0 && file.sources == {} && file.a4afSources == {} && file.freq == [] && file.valid == 0 && file.notCurrent == 0
    }

    function State(): Book
      reads this
    {
      Book(files, clients)
    }

    ghost predicate Valid()
      reads this
    {
      Linked(State()) && Numbered()
    }

    ghost predicate Numbered()
      reads this
    {
      && Counted(State())
      && (forall f :: f in files ==> files[f].partCount > 0)
      && (forall c :: c in clients && clients[c].req.Some? ==> clients[c].req.value in files)
    }

    // ---- the parts ----

    method UpdatePartsFrequency(f: nat, c: nat, increment: bool)
      requires f in files && c in clients
      modifies this`files
      ensures files == old(files)[f := Adjusted(old(files)[f], clients[c].bits, increment)]
    {
      var file, bits := files[f], clients[c].bits;
      if |file.freq| != file.partCount {
        file := file.(freq := Zeros(file.partCount));
        files := files[f := file];
        if !increment {
          return;
        }
      }
      if |bits| != |file.freq| {
        return;
      }
      var freq := file.freq;
      for i := 0 to |bits|
        invariant |freq| == |file.freq|
        invariant forall p :: 0 <= p < |freq| ==>
          freq[p] == file.freq[p] + if p < i && bits[p] then (if increment then 1 else -1) else 0
      {
        if bits[i] {
          freq := freq[i := if increment then freq[i] + 1 else freq[i] - 1];
        }
      }
      files := files[f := file.(freq := freq)];
      assert freq == Adjusted(old(files)[f], bits, increment).freq;
    }

    /** Decrement, change, increment: what ProcessFileInfo, ProcessFileStatus and ResetFileStatusInfo do to a status. */
    method ReplaceStatus(c: nat, bits: seq<bool>)
      requires Numbered() && c in clients
      modifies this
      ensures Numbered() && State() == WithBits(old(State()), c, bits)
      ensures clients.Keys == old(clients).Keys && files.Keys == old(files).Keys
      ensures OnlyNumbers(old(State()), State(), c) && clients[c] == old(clients)[c].(bits := bits)
    {
      hide Counted, Adjusted;
      WithBitsKeeps(State(), c, bits);
      WithBitsOnly(State(), c, bits);
      var s := clients[c];
      if s.req.Some? {
        UpdatePartsFrequency(s.req.value, c, false);
      }
      clients := clients[c := s.(bits := bits)];
      if s.req.Some? {
        UpdatePartsFrequency(s.req.value, c, true);
        assert files == old(files)[s.req.value := files[s.req.value]];
      }
    }

    method SetRequestFile(c: nat, f: Option<nat>)
      requires Numbered() && c in clients && (f.Some? ==> f.value in files)
      modifies this
      ensures Numbered() && State() == Requested(old(State()), c, f)
      ensures clients.Keys == old(clients).Keys && files.Keys == old(files).Keys
      ensures OnlyNumbers(old(State()), State(), c)
      ensures clients[c] == if old(clients)[c].req == f then old(clients)[c] else old(clients)[c].(req := f, bits := [])
    {
      hide Counted, Moved, WithBits, OnlyNumbers;
      if clients[c].req == f {
        OnlyNumbersSelf(State(), c);
        return;
      }
      ghost var was := State();
      ReplaceStatus(c, []);
      ghost var mid := State();
      MoveRequest(c, f);
      OnlyNumbersTwice(was, mid, State(), c);
    }

    /** The counts by state taken from the old request file to the new one. */
    method MoveRequest(c: nat, f: Option<nat>)
      requires Numbered() && c in clients && (f.Some? ==> f.value in files) && clients[c].bits == []
      modifies this
      ensures Numbered() && State() == Moved(old(State()), c, f)
      ensures clients.Keys == old(clients).Keys && files.Keys == old(files).Keys
      ensures OnlyNumbers(old(State()), State(), c) && clients[c] == old(clients)[c].(req := f)
    {
      hide Counted, StateChanged, OnlyNumbers;
      MovedOnly(State(), c, f);
      MovedKeeps(State(), c, f);
      var s := clients[c];
      if s.req.Some? {
        files := files[s.req.value := StateChanged(files[s.req.value], Some(s.state), None)];
      }
      clients := clients[c := s.(req := f)];
      if f.Some? {
        files := files[f.value := StateChanged(files[f.value], None, Some(s.state))];
      }
    }

    method SetDownloadState(c: nat, st: DownState)
      requires Numbered() && c in clients
      modifies this
      ensures Numbered() && State() == StateSet(old(State()), c, st)
      ensures clients.Keys == old(clients).Keys && files.Keys == old(files).Keys
      ensures OnlyNumbers(old(State()), State(), c) && clients[c].state == st && clients[c].req == old(clients)[c].req
    {
      hide Counted, InStateNow, WithBits, OnlyNumbers;
      if clients[c].state == st {
        OnlyNumbersSelf(State(), c);
        return;
      }
      ghost var was := State();
      var before := clients[c].state;
      MoveState(c, st);
      ghost var mid := State();
      if before.Downloading? && st.NoState? {
        ReplaceStatus(c, []);
        OnlyNumbersTwice(was, mid, State(), c);
      }
    }

    /** The state, and with it the counts by state. */
    method MoveState(c: nat, st: DownState)
      requires Numbered() && c in clients
      modifies this
      ensures Numbered() && State() == InStateNow(old(State()), c, st)
      ensures clients.Keys == old(clients).Keys && files.Keys == old(files).Keys
      ensures OnlyNumbers(old(State()), State(), c) && clients[c] == old(clients)[c].(state := st)
    {
      hide Counted, StateChanged, OnlyNumbers;
      InStateNowKeeps(State(), c, st);
      InStateOnly(State(), c, st);
      var s := clients[c];
      if s.req.Some? {
        files := files[s.req.value := StateChanged(files[s.req.value], Some(s.state), Some(st))];
      }
      clients := clients[c := s.(state := st)];
    }

    /** A file-status packet. Thrown are a wrong part count and a packet that ends too soon; either way the frequencies are right again. */
    method ProcessFileStatus(c: nat, file: nat, ed2kPartCount: nat, data: seq<nat>) returns (thrown: bool, partsNeeded: bool)
      requires Valid() && c in clients && file in files
      modifies this
      ensures Valid()
      ensures old(clients)[c].req != Some(file) ==> thrown && State() == old(State())
      ensures old(clients)[c].req == Some(file) ==>
        var parts := old(files)[file].partCount;
        && (thrown <==> ed2kPartCount != 0 && (ed2kPartCount != old(files)[file].ed2kPartCount || |data| * 8 < parts))
        && State() == WithBits(old(State()), c,
             if ed2kPartCount == 0 then seq(parts, _ => true)
             else if ed2kPartCount != old(files)[file].ed2kPartCount then []
             else StatusBits(data, parts))
        && (!thrown ==> (partsNeeded <==>
             ed2kPartCount == 0 || exists p :: 0 <= p < parts && clients[c].bits[p] && p !in old(files)[file].complete))
    {
      hide Linked, Counted, WithBits, Moved, Requested, InStateNow, StateSet;
      thrown, partsNeeded := true, false;
      if clients[c].req != Some(file) {
        return;
      }
      var parts, complete := files[file].partCount, files[file].complete;
      var bits: seq<bool> := [];
      if ed2kPartCount == 0 {
        bits := seq(parts, _ => true);
        thrown, partsNeeded := false, true;
      } else if ed2kPartCount == files[file].ed2kPartCount {
        bits, partsNeeded, thrown := ReadStatus(data, parts, complete);
      }
      ghost var was := State();
      ReplaceStatus(c, bits);
      OnlyNumbersLinked(was, State(), c);
    }

    /** The packet's bytes, read until the parts are covered or the packet ends. */
    static method ReadStatus(data: seq<nat>, parts: nat, complete: set<nat>) returns (bits: seq<bool>, needed: bool, truncated: bool)
      ensures bits == StatusBits(data, parts)
      ensures truncated <==> |data| * 8 < parts
      ensures !truncated ==> (needed <==> exists p :: 0 <= p < parts && bits[p] && p !in complete)
    {
      bits, needed, truncated := seq(parts, _ => false), false, false;
      var done, next := 0, 0;
      while done != parts
        invariant 0 <= done <= parts == |bits| && next <= |data|
        invariant done == if next * 8 <= parts then next * 8 else parts
        invariant forall p :: 0 <= p < parts ==> bits[p] == (p < done && StatusBits(data, parts)[p])
        invariant needed <==> exists p :: 0 <= p < done && bits[p] && p !in complete
        decreases parts - done
      {
        if next == |data| {
          truncated := true;
          return;
        }
        var toread := data[next];
        var i := 0;
        while i < 8 && done != parts
          invariant 0 <= i <= 8 && done == next * 8 + i <= parts == |bits|
          invariant forall p :: 0 <= p < parts ==> bits[p] == (p < done && StatusBits(data, parts)[p])
          invariant needed <==> exists p :: 0 <= p < done && bits[p] && p !in complete
        {
          var status := Bit(toread, i);
          assert done / 8 == next && done % 8 == i;
          ghost var was := bits;
          bits := bits[done := status];
          if status && done !in complete {
            needed := true;
            assert bits[done];
          }
          assert forall p :: 0 <= p < done ==> bits[p] == was[p];
          i := i + 1;
          done := done + 1;
        }
        next := next + 1;
      }
    }

    /** The answer that says a one-part file is shared. */
    method ProcessFileInfo(c: nat, file: nat) returns (thrown: bool)
      requires Valid() && c in clients && file in files
      modifies this
      ensures Valid()
      ensures thrown <==> old(clients)[c].req != Some(file)
      ensures State() == if !thrown && old(files)[file].partCount == 1 then WithBits(old(State()), c, [true]) else old(State())
    {
      hide Linked, Counted, WithBits, Moved, Requested, InStateNow, StateSet;
      if clients[c].req != Some(file) {
        return true;
      }
      if files[file].partCount == 1 {
        ghost var was := State();
        ReplaceStatus(c, [true]);
        OnlyNumbersLinked(was, State(), c);
      }
      return false;
    }

    // ---- the links ----

    /** CPartFile::AddSource, DelSource, AddA4AFSource and RemoveA4AFSource. */
    method SetMembership(f: nat, sources: set<nat>, a4afSources: set<nat>)
      requires Numbered() && f in files
      modifies this`files
      ensures Numbered() && files == old(files)[f := old(files)[f].(sources := sources, a4afSources := a4afSources)]
    {
      ghost var was := State();
      files := files[f := files[f].(sources := sources, a4afSources := a4afSources)];
      SameNumbersKeep(was, State());
    }

    method SetOthers(c: nat, a4af: map<nat, Stamp>)
      requires Numbered() && c in clients
      modifies this`clients
      ensures Numbered() && clients == old(clients)[c := old(clients)[c].(a4af := a4af)]
    {
      ghost var was := State();
      clients := clients[c := clients[c].(a4af := a4af)];
      SameNumbersKeep(was, State());
    }

    /** The callers see to it that the file is not the request file of the client. */
    method AddRequestForAnotherFile(c: nat, f: nat) returns (added: bool)
      requires Valid() && c in clients && f in files
      requires clients[c].listed && clients[c].req.Some? && clients[c].req != Some(f)
      modifies this
      ensures Valid() && added == (f !in old(clients)[c].a4af) && files.Keys == old(files).Keys
      ensures clients == if added then old(clients)[c := old(clients)[c].(a4af := old(clients)[c].a4af[f := Stamp(true, 0)])] else old(clients)
    {
      hide Linked, Counted;
      added := f !in clients[c].a4af;
      if added {
        ghost var was := State();
        SetOthers(c, clients[c].a4af[f := Stamp(true, 0)]);
        SetMembership(f, files[f].sources, files[f].a4afSources + {c});
        AddedLinked(was, State(), c, f, Stamp(true, 0));
      }
    }

    /** Nothing is asked of the client any more and no file knows it. */
    method RemoveSource(c: nat) returns (removed: bool)
      requires Valid() && c in clients
      modifies this
      ensures Valid() && clients.Keys == old(clients).Keys && files.Keys == old(files).Keys
      ensures clients[c] == Source(old(clients)[c].listed, None, map[], [], NoState)
      ensures forall d :: d in clients && d != c ==> clients[d] == old(clients)[d]
      ensures forall f :: f in files ==>
        files[f].sources == old(files)[f].sources - {c} && files[f].a4afSources == old(files)[f].a4afSources - {c}
      ensures removed <==> old(clients)[c].listed && old(clients)[c].req.Some?
    {
      hide Linked, Counted, WithBits, Requested, StateSet, OnlyNumbers, Forgotten;
      ghost var was := State();
      AmongSources(was, c);
      SetOthers(c, map[]);
      removed := ForgetEverywhere(c);
      ghost var mid := State();
      ClearRequest(c);
      RemovedSteps(was, mid, State(), c);
    }

    /** RemoveSource's last three calls: no request file, no state, no status. */
    method ClearRequest(c: nat)
      requires Numbered() && c in clients
      modifies this
      ensures Numbered() && OnlyNumbers(old(State()), State(), c)
      ensures clients.Keys == old(clients).Keys && files.Keys == old(files).Keys
      ensures clients[c] == Source(old(clients)[c].listed, None, old(clients)[c].a4af, [], NoState)
    {
      hide Counted, WithBits, Requested, StateSet, OnlyNumbers;
      ghost var s0 := State();
      SetRequestFile(c, None);
      ghost var s1 := State();
      SetDownloadState(c, NoState);
      ghost var s2 := State();
      OnlyNumbersTwice(s0, s1, s2, c);
      ReplaceStatus(c, []);
      OnlyNumbersTwice(s0, s2, State(), c);
    }

    static function Forgotten(file: PartFile, c: nat): PartFile {
      file.(sources := file.sources - {c}, a4afSources := file.a4afSources - {c})
    }

    /** RemoveSource's loop over the files. */
    method ForgetEverywhere(c: nat) returns (removed: bool)
      requires Numbered()
      modifies this`files
      ensures Numbered() && files.Keys == old(files).Keys
      ensures forall f :: f in files ==> files[f] == Forgotten(old(files)[f], c)
      ensures removed <==> exists f :: f in files && c in old(files)[f].sources
    {
      hide Counted;
      removed := false;
      var todo := files.Keys;
      while todo != {}
        invariant Numbered() && todo <= files.Keys == old(files).Keys
        invariant forall f :: f in files ==> files[f] == if f in todo then old(files)[f] else Forgotten(old(files)[f], c)
        invariant removed <==> exists f :: f in files && f !in todo && c in old(files)[f].sources
        decreases todo
      {
        var f :| f in todo;
        if c in files[f].sources {
          removed := true;
        }
        SetMembership(f, files[f].sources - {c}, files[f].a4afSources - {c});
        todo := todo - {f};
      }
    }

    /** Safe_Delete: the source is removed and then the client is gone. */
    method SafeDelete(c: nat)
      requires Valid() && c in clients
      modifies this
      ensures Valid() && clients.Keys == old(clients).Keys - {c} && files.Keys == old(files).Keys
      ensures forall d :: d in clients ==> clients[d] == old(clients)[d]
      ensures forall f :: f in files ==>
        files[f].sources == old(files)[f].sources - {c} && files[f].a4afSources == old(files)[f].a4afSources - {c}
    {
      hide Linked, Counted, WithBits, Moved, Requested, InStateNow, StateSet;
      var removed := RemoveSource(c);
      ghost var was := State();
      clients := clients - {c};
      UnaskedIsUncounted(was, State(), c);
      DroppedLinked(was, State(), c);
    }

    /** A client that is not queued for any file becomes a source of `sender`. */
    method BecomeSource(c: nat, sender: nat)
      requires Valid() && c in clients && sender in files && clients[c].a4af == map[]
      requires clients[c].req.None? || !clients[c].listed
      modifies this
      ensures Valid() && clients.Keys == old(clients).Keys && files.Keys == old(files).Keys
      ensures clients[c].listed && clients[c].req == Some(sender)
      ensures forall d :: d in clients && d != c ==> clients[d] == old(clients)[d]
    {
      hide Linked, Counted, Requested;
      ghost var was := State();
      SetRequestFile(c, Some(sender));
      assert forall g :: g in files ==> files[g].sources == was.files[g].sources && files[g].a4afSources == was.files[g].a4afSources;
      hide OnlyNumbers;
      SetListed(c);
      SetMembership(sender, files[sender].sources + {c}, files[sender].a4afSources);
      JoinedLinked(was, State(), c, sender);
    }

    method SetListed(c: nat)
      requires Numbered() && c in clients
      modifies this`clients
      ensures Numbered() && clients == old(clients)[c := old(clients)[c].(listed := true)]
    {
      ghost var was := State();
      clients := clients[c := clients[c].(listed := true)];
      SameNumbersKeep(was, State());
    }

    /** May this source be swapped to `f`? A suspension that has run out is forgotten on the way. */
    method IsValidSwapTarget(c: nat, f: nat, ignoreNoNeeded: bool, ignoreSuspended: bool, now: nat) returns (valid: bool)
      requires Numbered() && c in clients && f in clients[c].a4af && f in files
      modifies this`clients
      ensures Numbered() && valid == Target(old(State()), c, f, ignoreNoNeeded, ignoreSuspended, now)
      ensures OnlyStamps(old(clients), clients, c)
      ensures clients[c].a4af == old(clients)[c].a4af[f := clients[c].a4af[f]]
    {
      hide Counted;
      var stamp := clients[c].a4af[f];
      if !ignoreSuspended {
        if now - stamp.timestamp >= PURGESOURCESWAPSTOP {
          stamp := stamp.(timestamp := 0);
          SetOthers(c, clients[c].a4af[f := stamp]);
        } else {
          return false;
        }
      }
      if !ignoreNoNeeded && !stamp.neededParts {
        return false;
      }
      return Some(f) != clients[c].req && files[f].swappable;
    }

    /** The file to swap to: the one wanted, or else the one rated highest, the search ending early at a high-priority file with needed parts. */
    method ChooseTarget(c: nat, ignoreNoNeeded: bool, ignoreSuspended: bool, toFile: Option<nat>, now: nat) returns (target: Option<nat>)
      requires Numbered() && c in clients && clients[c].a4af.Keys <= files.Keys
      modifies this`clients
      ensures Numbered() && OnlyStamps(old(clients), clients, c)
      ensures toFile.Some? ==> target == if Target(old(State()), c, toFile.value, ignoreNoNeeded, true, now) then toFile else None
      ensures toFile.None? && target.Some? ==>
        Target(old(State()), c, target.value, ignoreNoNeeded, ignoreSuspended, now) && Best(old(State()), c, target.value, ignoreNoNeeded, ignoreSuspended, now)
      ensures toFile.None? && target.None? ==> forall f :: !Target(old(State()), c, f, ignoreNoNeeded, ignoreSuspended, now)
    {
      hide Counted;
      target := None;
      if toFile.Some? {
        if toFile.value in clients[c].a4af {
          var valid := IsValidSwapTarget(c, toFile.value, ignoreNoNeeded, true, now);
          if valid {
            target := toFile;
          }
        }
      } else {
        target := ChooseBest(c, ignoreNoNeeded, ignoreSuspended, now);
      }
    }

    method ChooseBest(c: nat, ignoreNoNeeded: bool, ignoreSuspended: bool, now: nat) returns (target: Option<nat>)
      requires Numbered() && c in clients && clients[c].a4af.Keys <= files.Keys
      modifies this`clients
      ensures Numbered() && OnlyStamps(old(clients), clients, c)
      ensures target.Some? ==>
        Target(old(State()), c, target.value, ignoreNoNeeded, ignoreSuspended, now) && Best(old(State()), c, target.value, ignoreNoNeeded, ignoreSuspended, now)
      ensures target.None? ==> forall f :: !Target(old(State()), c, f, ignoreNoNeeded, ignoreSuspended, now)
    {
      hide Counted, Target;
      target := None;
      ghost var was := State();
      var priority := -1;
      var todo := clients[c].a4af.Keys;
      while todo != {}
        invariant Numbered() && todo <= was.clients[c].a4af.Keys && files == was.files
        invariant OnlyStamps(was.clients, clients, c)
        invariant forall f :: f in todo ==> clients[c].a4af[f] == was.clients[c].a4af[f]
        invariant target.None? ==> priority == -1
        invariant target.Some? ==> Target(was, c, target.value, ignoreNoNeeded, ignoreSuspended, now) && priority == Rating(was, c, target.value)
        invariant forall f :: f in was.clients[c].a4af && f !in todo && Target(was, c, f, ignoreNoNeeded, ignoreSuspended, now) ==> Rating(was, c, f) <= priority
        decreases todo
      {
        var f :| f in todo;
        todo := todo - {f};
        ghost var mid := State();
        StillTarget(was, mid, c, f, ignoreNoNeeded, ignoreSuspended, now);
        var valid := IsValidSwapTarget(c, f, ignoreNoNeeded, ignoreSuspended, now);
        OnlyStampsTwice(was.clients, mid.clients, clients, c);
        if valid {
          var rating := files[f].priority + if clients[c].a4af[f].neededParts then 10 else 0;
          if rating > priority {
            priority := rating;
            target := Some(f);
            if priority == PR_HIGH + 10 {
              break;
            }
          }
        }
      }
    }

    /** The swap itself, once a target is chosen. */
    method SwapTo(c: nat, to: nat, removeCompletely: bool, now: nat)
      requires Valid() && c in clients && to in clients[c].a4af && clients[c].req.Some?
      modifies this
      ensures Valid() && files.Keys == old(files).Keys && clients.Keys == old(clients).Keys
      ensures forall d :: d in clients && d != c ==> clients[d] == old(clients)[d]
      ensures Swapped(old(clients)[c], clients[c], to, removeCompletely, now)
    {
      hide Linked, Counted, SwappedAt, OnlyNumbers, Swapped;
      ghost var was := State();
      LinkedOther(was, c, to);
      var from := clients[c].req.value;
      var stamp := Stamp(!clients[c].state.NoNeededParts?, now);
      SwapMembership(c, from, to, !removeCompletely);
      if !removeCompletely {
        SetOthers(c, clients[c].a4af[from := stamp]);
      }
      ghost var mid := State();
      MoveStatus(c, to);
      ghost var moved := State();
      SetOthers(c, clients[c].a4af - {to});
      SwapSteps(was, mid, moved, State(), c, to, removeCompletely, now);
    }

    /** DelSource, RemoveA4AFSource, AddA4AFSource and AddSource of a swap; nothing else it does looks at the sets. */
    method SwapMembership(c: nat, from: nat, to: nat, keep: bool)
      requires Numbered() && from in files && to in files && from != to
      modifies this`files
      ensures Numbered() && files.Keys == old(files).Keys
      ensures forall g :: g in files ==> SwappedAt(old(files)[g], files[g], c, g, from, to, keep)
    {
      hide Counted;
      SetMembership(from, files[from].sources - {c}, files[from].a4afSources + (if keep then {c} else {}));
      SetMembership(to, files[to].sources + {c}, files[to].a4afSources - {c});
    }

    /** SetDownloadState, ResetFileStatusInfo and SetRequestFile, as a swap calls them. */
    method MoveStatus(c: nat, to: nat)
      requires Numbered() && c in clients && to in files && clients[c].req != Some(to)
      modifies this
      ensures Numbered() && OnlyNumbers(old(State()), State(), c)
      ensures clients.Keys == old(clients).Keys && files.Keys == old(files).Keys
      ensures clients[c] == Source(old(clients)[c].listed, Some(to), old(clients)[c].a4af, [], NoState)
    {
      hide Counted, WithBits, Requested, StateSet, OnlyNumbers;
      ghost var s0 := State();
      SetDownloadState(c, NoState);
      ghost var s1 := State();
      ReplaceStatus(c, []);
      ghost var s2 := State();
      OnlyNumbersTwice(s0, s1, s2, c);
      SetRequestFile(c, Some(to));
      OnlyNumbersTwice(s0, s2, State(), c);
    }

    /**
     * The source goes to another file, or stays: then nothing is different but that suspensions may have
     * been forgotten. It goes whenever there is a target.
     */
    method SwapToAnotherFile(c: nat, ignoreNoNeeded: bool, ignoreSuspended: bool, removeCompletely: bool, toFile: Option<nat>, now: nat)
      returns (swapped: Option<nat>)
      requires Valid() && c in clients
      modifies this
      ensures Valid() && files.Keys == old(files).Keys && clients.Keys == old(clients).Keys
      ensures old(clients)[c].req.None? || old(clients)[c].state.Downloading? ==> swapped.None?
      ensures forall d :: d in clients && d != c ==> clients[d] == old(clients)[d]
      ensures swapped.None? ==>
        files == old(files) && clients[c] == old(clients)[c].(a4af := clients[c].a4af) && clients[c].a4af.Keys == old(clients)[c].a4af.Keys
      ensures swapped.None? && old(clients)[c].req.Some? && !old(clients)[c].state.Downloading? ==>
        forall f: nat :: toFile.None? || toFile == Some(f) ==> !Target(old(State()), c, f, ignoreNoNeeded, ignoreSuspended || toFile.Some?, now)
      ensures swapped.Some? ==>
        && (toFile.None? || toFile == swapped)
        && Target(old(State()), c, swapped.value, ignoreNoNeeded, ignoreSuspended || toFile.Some?, now)
        && (toFile.None? ==> Best(old(State()), c, swapped.value, ignoreNoNeeded, ignoreSuspended, now))
        && Swapped(old(clients)[c], clients[c], swapped.value, removeCompletely, now)
    {
      hide Linked, Counted, Best, Swapped;
      ghost var was := State();
      LinkedClient(was, c);
      if clients[c].req.None? || clients[c].state.Downloading? {
        return None;
      }
      var target := ChooseTarget(c, ignoreNoNeeded, ignoreSuspended, toFile, now);
      SameLinksUpToStamps(was, State(), c);
      if target.Some? {
        LinkedOther(State(), c, target.value);
        if c in files[clients[c].req.value].sources {
          ghost var mid := clients[c];
          SwapTo(c, target.value, removeCompletely, now);
          SwappedSame(was.clients[c], mid, clients[c], target.value, removeCompletely, now);
          return target;
        }
      }
      return None;
    }

    /** A client that is connected to us and turns out to have the file. */
    method CheckAndAddKnownSource(sender: nat, source: nat, filtered: bool)
      requires Valid() && sender in files && source in clients && clients[source].listed
      modifies this
      ensures Valid() && files.Keys == old(files).Keys && clients.Keys == old(clients).Keys
      ensures filtered ==> State() == old(State())
      ensures !filtered ==> clients[source].req == Some(sender) || sender in clients[source].a4af
      ensures forall d :: d in clients && d != source ==> clients[d] == old(clients)[d]
      ensures clients[source].listed
      ensures old(clients)[source].req.Some? ==>
        clients[source].req == old(clients)[source].req && old(clients)[source].a4af.Keys <= clients[source].a4af.Keys
    {
      hide Linked, Counted;
      if filtered {
        return;
      }
      if clients[source].req.Some? {
        if clients[source].req != Some(sender) {
          var added := AddRequestForAnotherFile(source, sender);
        }
      } else {
        LinkedClient(State(), source);
        BecomeSource(source, sender);
      }
    }

    /**
     * A source found by a server, Kad or another client. It is new, or it turns out to be one we know.
     * `sameHash` are the clients filed under its hash, `known` is what the registry's match gives; `k` is
     * the client that stands for it in the end.
     */
    method CheckAndAddSource(sender: nat, source: nat, filtered: bool, sameHash: seq<nat>, known: Option<nat>) returns (ghost k: nat)
      requires Valid() && sender in files && source in clients && clients[source].a4af == map[] && !clients[source].listed
      requires forall k :: k in sameHash ==> k in clients && clients[k].listed
      requires known.Some? ==> known.value in clients && clients[known.value].listed
      modifies this
      ensures Valid() && files.Keys == old(files).Keys
      ensures filtered ==> clients.Keys == old(clients).Keys - {source}
      ensures !filtered ==> k in clients && clients[k].listed && (clients[k].req == Some(sender) || sender in clients[k].a4af)
      ensures !filtered ==> k == source || k in sameHash || known == Some(k)
      ensures forall d :: d in old(clients) && d != source && old(clients)[d].req.Some? ==>
        d in clients && clients[d].req == old(clients)[d].req && old(clients)[d].a4af.Keys <= clients[d].a4af.Keys
    {
      hide Linked, Counted, OnlyNumbers;
      k := source;
      if filtered {
        SafeDelete(source);
        return;
      }
      var queued := FirstQueued(sameHash);
      if queued.Some? {
        k := queued.value;
        AlsoAsk(queued.value, sender, source);
      } else if known.Some? {
        k := known.value;
        SafeDelete(source);
        CheckAndAddKnownSource(sender, known.value, false);
      } else {
        BecomeSource(source, sender);
      }
    }

    /** A client that is queued for some file stands for the new source. */
    method AlsoAsk(k: nat, sender: nat, source: nat)
      requires Valid() && sender in files && source in clients && k in clients && k != source
      requires clients[k].listed && clients[k].req.Some?
      modifies this
      ensures k in clients && clients[k].listed && (clients[k].req == Some(sender) || sender in clients[k].a4af)
      ensures clients[k].req == old(clients)[k].req && old(clients)[k].a4af.Keys <= clients[k].a4af.Keys
      ensures forall d :: d in old(clients) && d != source && d != k ==> d in clients && clients[d] == old(clients)[d]
      ensures Valid() && files.Keys == old(files).Keys && clients.Keys == old(clients).Keys - {source}
    {
      hide Linked, Counted, OnlyNumbers;
      if clients[k].req != Some(sender) {
        var added := AddRequestForAnotherFile(k, sender);
      }
      SafeDelete(source);
    }

    /** CheckAndAddSource's loop over the clients of the same hash: the first one that is queued for some file. */
    method FirstQueued(sameHash: seq<nat>) returns (k: Option<nat>)
      requires forall k :: k in sameHash ==> k in clients
      ensures k.Some? ==> k.value in sameHash && clients[k.value].req.Some?
      ensures k.None? ==> forall k :: k in sameHash ==> clients[k].req.None?
    {
      var i := 0;
      while i < |sameHash|
        invariant 0 <= i <= |sameHash| && forall j :: 0 <= j < i ==> clients[sameHash[j]].req.None?
      {
        if clients[sameHash[i]].req.Some? {
          return Some(sameHash[i]);
        }
        i := i + 1;
      }
      k := None;
    }
  }

  /** A source before and after a swap: idle, of the new file, which is none of its others any more; the old one is, stamped, unless it was to go completely. */
  ghost predicate Swapped(s: Source, t: Source, to: nat, removeCompletely: bool, now: nat) {
    && t.listed && t.req == Some(to) && t.state.NoState? && t.bits == [] && s.req.Some?
    && t.a4af.Keys == s.a4af.Keys - {to} + (if removeCompletely then {} else {s.req.value})
    && (!removeCompletely ==> s.req.value in t.a4af && t.a4af[s.req.value] == Stamp(!s.state.NoNeededParts?, now))
  }

  /** From `a` to `b` nothing differs but the time stamps of `c`'s other files. */
  ghost predicate OnlyStamps(a: map<nat, Source>, b: map<nat, Source>, c: nat) {
    && c in a && c in b && b == a[c := b[c]] && b[c] == a[c].(a4af := b[c].a4af) && b[c].a4af.Keys == a[c].a4af.Keys
    && forall f :: f in a[c].a4af ==> b[c].a4af[f].neededParts == a[c].a4af[f].neededParts
  }

  lemma OnlyStampsTwice(a: map<nat, Source>, b: map<nat, Source>, d: map<nat, Source>, c: nat)
    requires OnlyStamps(a, b, c) && OnlyStamps(b, d, c)
    ensures OnlyStamps(a, d, c)
  {
    assert d == a[c := d[c]];
  }

  /** No target is rated higher, unless this one's rating ended the search. */
  ghost predicate Best(b: Book, c: nat, f: nat, ignoreNoNeeded: bool, ignoreSuspended: bool, now: nat)
    requires c in b.clients && Target(b, c, f, ignoreNoNeeded, ignoreSuspended, now)
  {
    || Rating(b, c, f) == PR_HIGH + 10
    || forall g :: Target(b, c, g, ignoreNoNeeded, ignoreSuspended, now) ==> Rating(b, c, g) <= Rating(b, c, f)
  }

  /**
   * What it means to be rated best, for priorities below 10: a target with needed parts is never passed over for one
   * without, and among the two sorts none for one of a lower priority, unless a high-priority one ended the search.
   */
  lemma NeededPartsFirst(b: Book, c: nat, f: nat, g: nat, ignoreNoNeeded: bool, ignoreSuspended: bool, now: nat)
    requires c in b.clients && Target(b, c, f, ignoreNoNeeded, ignoreSuspended, now) && Best(b, c, f, ignoreNoNeeded, ignoreSuspended, now)
    requires Target(b, c, g, ignoreNoNeeded, ignoreSuspended, now) && 0 <= b.files[f].priority < 10 && 0 <= b.files[g].priority < 10
    ensures b.clients[c].a4af[g].neededParts ==> b.clients[c].a4af[f].neededParts
    ensures b.clients[c].a4af[g].neededParts == b.clients[c].a4af[f].neededParts ==>
      b.files[g].priority <= b.files[f].priority || (b.clients[c].a4af[f].neededParts && b.files[f].priority == PR_HIGH)
  {
    assert Rating(b, c, g) <= Rating(b, c, f) || Rating(b, c, f) == PR_HIGH + 10;
  }

  /**
   * A source that was swapped away from a file is not swapped back for 15 minutes, unless the swap ignores that; after
   * them it may be, if it has parts that the file needs or the swap does not ask for that.
   */
  lemma SwappedBack(s: Source, b: Book, c: nat, to: nat, ignoreNoNeeded: bool, ignoreSuspended: bool, now: nat, later: nat)
    requires c in b.clients && Swapped(s, b.clients[c], to, false, now) && s.req.value != to && later >= now
    requires s.req.value in b.files && b.files[s.req.value].swappable
    ensures Target(b, c, s.req.value, ignoreNoNeeded, ignoreSuspended, later) <==>
      (ignoreSuspended || later - now >= 900000) && (ignoreNoNeeded || !s.state.NoNeededParts?)
  {
  }

  /** A file whose stamp is as it was is a target, and rated, as it was. */
  lemma StillTarget(a: Book, b: Book, c: nat, f: nat, ignoreNoNeeded: bool, ignoreSuspended: bool, now: nat)
    requires OnlyStamps(a.clients, b.clients, c) && b.files == a.files
    requires f in a.clients[c].a4af && b.clients[c].a4af[f] == a.clients[c].a4af[f]
    ensures Target(b, c, f, ignoreNoNeeded, ignoreSuspended, now) == Target(a, c, f, ignoreNoNeeded, ignoreSuspended, now)
  {
  }

  /** A client is among some file's sources exactly if it is listed and asked for something. */
  lemma AmongSources(b: Book, c: nat)
    requires Linked(b) && c in b.clients
    ensures (exists f :: f in b.files && c in b.files[f].sources) <==> b.clients[c].listed && b.clients[c].req.Some?
  {
    assert ClientOk(b, c);
    assert b.clients[c].req.Some? ==> LinkOk(c, b.clients[c], b.clients[c].req.value, b.files[b.clients[c].req.value]);
  }

  /** Forgotten by all files, and then asked for nothing: how a source is removed. */
  lemma RemovedSteps(a: Book, m: Book, b: Book, c: nat)
    requires Linked(a) && c in a.clients && m.files.Keys == a.files.Keys
    requires m.clients == a.clients[c := a.clients[c].(a4af := map[])]
    requires forall f :: f in a.files ==> m.files[f] == SourceQueue.Forgotten(a.files[f], c)
    requires OnlyNumbers(m, b, c) && b.clients[c].req.None?
    ensures Linked(b)
    ensures forall d :: d in b.clients && d != c ==> d in a.clients && b.clients[d] == a.clients[d]
    ensures b.files.Keys == a.files.Keys
    ensures forall f :: f in b.files ==>
      b.files[f].sources == a.files[f].sources - {c} && b.files[f].a4afSources == a.files[f].a4afSources - {c}
  {
    hide Linked;
    RemovedLinked(a, b, c);
  }

  /** The four stages of a swap: the sets, the old file's stamp, the status and request, the new file's stamp. */
  lemma SwapSteps(a: Book, m: Book, n: Book, b: Book, c: nat, to: nat, removeCompletely: bool, now: nat)
    requires Linked(a) && c in a.clients && a.clients[c].listed && a.clients[c].req.Some? && to in a.clients[c].a4af
    requires m.files.Keys == a.files.Keys
    requires forall g :: g in a.files ==> SwappedAt(a.files[g], m.files[g], c, g, a.clients[c].req.value, to, !removeCompletely)
    requires
      var stamp := Stamp(!a.clients[c].state.NoNeededParts?, now);
      m.clients == if removeCompletely then a.clients
                   else a.clients[c := a.clients[c].(a4af := a.clients[c].a4af[a.clients[c].req.value := stamp])]
    requires OnlyNumbers(m, n, c) && n.clients[c] == Source(true, Some(to), m.clients[c].a4af, [], NoState)
    requires b.files == n.files && b.clients == n.clients[c := n.clients[c].(a4af := n.clients[c].a4af - {to})]
    ensures Linked(b) && Swapped(a.clients[c], b.clients[c], to, removeCompletely, now)
    ensures b.clients.Keys == a.clients.Keys && b.files.Keys == a.files.Keys
    ensures forall d :: d in b.clients && d != c ==> b.clients[d] == a.clients[d]
  {
    hide Linked, SwappedAt;
    var from := a.clients[c].req.value;
    LinkedOther(a, c, to);
    SwappedStill(a, m, n, c, from, to, !removeCompletely);
    SwappedLinked(a, b, c, from, to, !removeCompletely);
  }

  lemma SwappedSame(s: Source, mid: Source, t: Source, to: nat, removeCompletely: bool, now: nat)
    requires mid == s.(a4af := mid.a4af) && mid.a4af.Keys == s.a4af.Keys && Swapped(mid, t, to, removeCompletely, now)
    ensures Swapped(s, t, to, removeCompletely, now)
  {
  }

  lemma SameLinksUpToStamps(a: Book, b: Book, c: nat)
    requires Linked(a) && b.files == a.files && OnlyStamps(a.clients, b.clients, c)
    ensures Linked(b)
  {
    assert ClientOk(b, c) by {
      assert ClientOk(a, c);
      forall f | f in b.files ensures LinkOk(c, b.clients[c], f, b.files[f]) {
        assert LinkOk(c, a.clients[c], f, a.files[f]);
      }
      assert b.clients[c].a4af.Keys == {} <==> b.clients[c].a4af == map[];
    }
    TouchesKeep(a, b, c);
  }

  /** What a client's other file knows of it. */
  lemma LinkedOther(b: Book, c: nat, f: nat)
    requires Linked(b) && c in b.clients && f in b.clients[c].a4af
    ensures f in b.files && b.clients[c].listed && b.clients[c].req.Some? && b.clients[c].req.value in b.files && b.clients[c].req != Some(f)
    ensures c in b.files[b.clients[c].req.value].sources
  {
    assert ClientOk(b, c);
    assert LinkOk(c, b.clients[c], b.clients[c].req.value, b.files[b.clients[c].req.value]);
  }
}
