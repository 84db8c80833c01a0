/**
 * Sources and files as values: which client is asked for which file, which other files it could serve,
 * and the numbers that each file keeps about its sources.
 */
module SourceModel {
  import opened Options

  datatype DownState =
    | Downloading | OnQueue | Connected | Connecting | WaitCallback | ReqHashset | NoNeededParts
    | TooManyConns | LowToLowIp | Banned | Error | NoState

  datatype Stamp = Stamp(neededParts: bool, timestamp: nat)

  /** CUpDownClient: its request file, the other files it could be asked for, and the parts it has. */
  datatype Source = Source(listed: bool, req: Option<nat>, a4af: map<nat, Stamp>, bits: seq<bool>, state: DownState)

  /** CPartFile: its sources, the clients it is another file of, the part frequencies, and the counts of its sources' states. */
  datatype PartFile = PartFile(
    partCount: nat, ed2kPartCount: nat, complete: set<nat>, swappable: bool, priority: nat,
    sources: set<nat>, a4afSources: set<nat>, freq: seq<int>, valid: int, notCurrent: int)

  datatype Book = Book(files: map<nat, PartFile>, clients: map<nat, Source>)
  {
    function Req(c: nat): Option<nat> requires c in clients { clients[c].req }
  }

  // ---- Links: what the source sets and the request files say about each other ----

  ghost predicate LinkOk(c: nat, s: Source, f: nat, file: PartFile) {
    && (c in file.sources <==> s.listed && s.req == Some(f))
    && (c in file.a4afSources <==> f in s.a4af)
  }

  ghost predicate ClientOk(b: Book, c: nat)
    requires c in b.clients
  {
    var s := b.clients[c];
    && (s.req.Some? ==> s.req.value in b.files && s.req.value !in s.a4af)
    && (s.req.None? || !s.listed ==> s.a4af == map[])
    && s.a4af.Keys <= b.files.Keys
    && forall f :: f in b.files ==> LinkOk(c, s, f, b.files[f])
  }

  /**
   * A listed client is in a file's source set exactly if that is its request file; a file is among a
   * client's other files exactly if the client is among that file's other-file sources; never its
   * request file, and none at all without a request file.
   */
  ghost predicate Linked(b: Book) {
    && (forall c :: c in b.clients ==> ClientOk(b, c))
    && (forall f :: f in b.files ==> b.files[f].sources + b.files[f].a4afSources <= b.clients.Keys)
  }

  /** From `a` to `b` only client `c`, and its place in the files' sets, may differ. */
  ghost predicate OnlyTouches(a: Book, b: Book, c: nat) {
    && b.clients.Keys == a.clients.Keys && b.files.Keys == a.files.Keys
    && (forall d :: d in a.clients && d != c ==> b.clients[d] == a.clients[d])
    && (forall f :: f in a.files ==>
          b.files[f].sources - {c} == a.files[f].sources - {c} && b.files[f].a4afSources - {c} == a.files[f].a4afSources - {c})
  }

  lemma OtherKept(a: Book, b: Book, c: nat, d: nat)
    requires d in a.clients && d != c && ClientOk(a, d) && OnlyTouches(a, b, c)
    ensures ClientOk(b, d)
  {
    forall f | f in b.files
      ensures LinkOk(d, b.clients[d], f, b.files[f])
    {
      assert LinkOk(d, a.clients[d], f, a.files[f]);
      assert d in b.files[f].sources <==> d in b.files[f].sources - {c};
      assert d in b.files[f].a4afSources <==> d in b.files[f].a4afSources - {c};
    }
  }

  lemma TouchesKeep(a: Book, b: Book, c: nat)
    requires Linked(a) && c in a.clients && OnlyTouches(a, b, c) && ClientOk(b, c)
    ensures Linked(b)
  {
    hide ClientOk;
    forall d | d in b.clients && d != c
      ensures ClientOk(b, d)
    {
      OtherKept(a, b, c, d);
    }
    forall f | f in b.files
      ensures b.files[f].sources + b.files[f].a4afSources <= b.clients.Keys
    {
      assert b.files[f].sources <= (b.files[f].sources - {c}) + {c};
      assert b.files[f].a4afSources <= (b.files[f].a4afSources - {c}) + {c};
    }
  }

  /** From `a` to `b` no set of sources changes, and of the clients only what `c` is asked for, its status and its state. */
  ghost predicate OnlyNumbers(a: Book, b: Book, c: nat)
    requires c in a.clients
  {
    && b.clients.Keys == a.clients.Keys && b.files.Keys == a.files.Keys
    && (forall d :: d in a.clients && d != c ==> b.clients[d] == a.clients[d])
    && b.clients[c].listed == a.clients[c].listed && b.clients[c].a4af == a.clients[c].a4af
    && (forall f :: f in a.files ==>
          var x, y := a.files[f], b.files[f];
          y == x.(freq := y.freq, valid := y.valid, notCurrent := y.notCurrent))
  }

  lemma OnlyNumbersSelf(b: Book, c: nat)
    requires c in b.clients
    ensures OnlyNumbers(b, b, c)
  {
  }

  lemma OnlyNumbersTwice(a: Book, b: Book, d: Book, c: nat)
    requires c in a.clients && OnlyNumbers(a, b, c) && OnlyNumbers(b, d, c)
    ensures OnlyNumbers(a, d, c)
  {
  }

  lemma OnlyNumbersLinked(a: Book, b: Book, c: nat)
    requires Linked(a) && c in a.clients && OnlyNumbers(a, b, c) && b.clients[c].req == a.clients[c].req
    ensures Linked(b)
  {
    SameLinksKeep(a, b);
  }

  /** A client that no file knows any more, and that is asked for nothing. */
  lemma RemovedLinked(a: Book, b: Book, c: nat)
    requires Linked(a) && c in a.clients && b.clients.Keys == a.clients.Keys && b.files.Keys == a.files.Keys
    requires forall d :: d in a.clients && d != c ==> b.clients[d] == a.clients[d]
    requires b.clients[c].req.None? && b.clients[c].a4af == map[]
    requires forall f :: f in a.files ==>
      b.files[f].sources == a.files[f].sources - {c} && b.files[f].a4afSources == a.files[f].a4afSources - {c}
    ensures Linked(b)
  {
    assert ClientOk(b, c);
    TouchesKeep(a, b, c);
  }

  /** A client dropped once nothing links to it. */
  lemma DroppedLinked(a: Book, b: Book, c: nat)
    requires Linked(a) && c in a.clients && a.clients[c].req.None? && a.clients[c].a4af == map[]
    requires b.files == a.files && b.clients == a.clients - {c}
    ensures Linked(b)
  {
    assert ClientOk(a, c);
    forall d | d in b.clients
      ensures ClientOk(b, d)
    {
      assert ClientOk(a, d);
      forall f | f in b.files ensures LinkOk(d, b.clients[d], f, b.files[f]) {
        assert LinkOk(d, a.clients[d], f, a.files[f]);
      }
    }
    forall f | f in b.files
      ensures b.files[f].sources + b.files[f].a4afSources <= b.clients.Keys
    {
      assert LinkOk(c, a.clients[c], f, a.files[f]);
    }
  }

  /** A client newly asked for `f`, with no other files, among the sources of `f` and of no other file. */
  lemma JoinedLinked(a: Book, b: Book, c: nat, f: nat)
    requires Linked(a) && c in a.clients && f in a.files && b.clients.Keys == a.clients.Keys && b.files.Keys == a.files.Keys
    requires forall d :: d in a.clients && d != c ==> b.clients[d] == a.clients[d]
    requires a.clients[c].a4af == map[] && (a.clients[c].req.None? || !a.clients[c].listed)
    requires b.clients[c].listed && b.clients[c].req == Some(f) && b.clients[c].a4af == map[]
    requires forall g :: g in a.files ==>
      && b.files[g].sources == a.files[g].sources + (if g == f then {c} else {})
      && b.files[g].a4afSources == a.files[g].a4afSources
    ensures Linked(b)
  {
    LinkedClient(a, c);
    JoinedClient(a, b, c, f);
    hide Linked, ClientOk, LinkOk;
    forall g | g in a.files
      ensures b.files[g].sources - {c} == a.files[g].sources - {c} && b.files[g].a4afSources - {c} == a.files[g].a4afSources - {c}
    {
    }
    TouchesKeep(a, b, c);
  }

  lemma JoinedClient(a: Book, b: Book, c: nat, f: nat)
    requires c in a.clients && ClientOk(a, c) && f in a.files && c in b.clients && b.files.Keys == a.files.Keys
    requires a.clients[c].a4af == map[] && (a.clients[c].req.None? || !a.clients[c].listed)
    requires b.clients[c].listed && b.clients[c].req == Some(f) && b.clients[c].a4af == map[]
    requires forall g :: g in a.files ==>
      && b.files[g].sources == a.files[g].sources + (if g == f then {c} else {})
      && b.files[g].a4afSources == a.files[g].a4afSources
    ensures ClientOk(b, c)
  {
    forall g | g in b.files
      ensures LinkOk(c, b.clients[c], g, b.files[g])
    {
      assert LinkOk(c, a.clients[c], g, a.files[g]);
    }
  }

  /** A file added to what a client could also be asked for. */
  lemma AddedTouches(a: Book, b: Book, c: nat, f: nat)
    requires c in a.clients && f in a.files && c in b.clients && b.clients == a.clients[c := b.clients[c]]
    requires b.files == a.files[f := a.files[f].(a4afSources := a.files[f].a4afSources + {c})]
    ensures OnlyTouches(a, b, c)
  {
  }

  lemma AddedLinked(a: Book, b: Book, c: nat, f: nat, stamp: Stamp)
    requires Linked(a) && c in a.clients && f in a.files && a.clients[c].listed && a.clients[c].req.Some? && a.clients[c].req != Some(f)
    requires b.clients == a.clients[c := a.clients[c].(a4af := a.clients[c].a4af[f := stamp])]
    requires b.files == a.files[f := a.files[f].(a4afSources := a.files[f].a4afSources + {c})]
    ensures Linked(b)
  {
    hide Linked, ClientOk, LinkOk, OnlyTouches;
    LinkedClient(a, c);
    AddedClient(a, b, c, f, stamp);
    AddedTouches(a, b, c, f);
    TouchesKeep(a, b, c);
  }

  lemma AddedClient(a: Book, b: Book, c: nat, f: nat, stamp: Stamp)
    requires c in a.clients && ClientOk(a, c) && f in a.files
    requires a.clients[c].listed && a.clients[c].req.Some? && a.clients[c].req != Some(f)
    requires b.clients == a.clients[c := a.clients[c].(a4af := a.clients[c].a4af[f := stamp])]
    requires b.files == a.files[f := a.files[f].(a4afSources := a.files[f].a4afSources + {c})]
    ensures ClientOk(b, c)
  {
    forall g | g in b.files
      ensures LinkOk(c, b.clients[c], g, b.files[g])
    {
      assert LinkOk(c, a.clients[c], g, a.files[g]);
    }
  }

  /** What `c` is to file `g` once it is swapped from `from` to `to`, the old file becoming one of its others or not. */
  ghost predicate SwappedAt(x: PartFile, y: PartFile, c: nat, g: nat, from: nat, to: nat, keep: bool) {
    && y.sources == x.sources - (if g == from then {c} else {}) + (if g == to then {c} else {})
    && y.a4afSources == x.a4afSources - (if g == to then {c} else {}) + (if g == from && keep then {c} else {})
  }

  lemma SwappedClient(a: Book, b: Book, c: nat, from: nat, to: nat, keep: bool)
    requires c in a.clients && ClientOk(a, c) && a.clients[c].listed && a.clients[c].req == Some(from) && to in a.clients[c].a4af
    requires c in b.clients && b.files.Keys == a.files.Keys
    requires b.clients[c].listed && b.clients[c].req == Some(to)
    requires b.clients[c].a4af.Keys == a.clients[c].a4af.Keys - {to} + (if keep then {from} else {})
    requires forall g :: g in a.files ==> SwappedAt(a.files[g], b.files[g], c, g, from, to, keep)
    ensures ClientOk(b, c)
  {
    forall g | g in b.files
      ensures LinkOk(c, b.clients[c], g, b.files[g])
    {
      assert LinkOk(c, a.clients[c], g, a.files[g]) && SwappedAt(a.files[g], b.files[g], c, g, from, to, keep);
    }
  }

  lemma SwappedLinked(a: Book, b: Book, c: nat, from: nat, to: nat, keep: bool)
    requires Linked(a) && c in a.clients && a.clients[c].listed && a.clients[c].req == Some(from) && to in a.clients[c].a4af
    requires b.clients.Keys == a.clients.Keys && b.files.Keys == a.files.Keys
    requires forall d :: d in a.clients && d != c ==> b.clients[d] == a.clients[d]
    requires b.clients[c].listed && b.clients[c].req == Some(to)
    requires b.clients[c].a4af.Keys == a.clients[c].a4af.Keys - {to} + (if keep then {from} else {})
    requires forall g :: g in a.files ==> SwappedAt(a.files[g], b.files[g], c, g, from, to, keep)
    ensures Linked(b)
  {
    hide Linked, ClientOk, SwappedAt, OnlyTouches;
    LinkedClient(a, c);
    SwappedClient(a, b, c, from, to, keep);
    SwappedTouches(a, b, c, from, to, keep);
    TouchesKeep(a, b, c);
  }

  lemma SwappedTouches(a: Book, b: Book, c: nat, from: nat, to: nat, keep: bool)
    requires c in a.clients && b.clients.Keys == a.clients.Keys && b.files.Keys == a.files.Keys
    requires forall d :: d in a.clients && d != c ==> b.clients[d] == a.clients[d]
    requires forall g :: g in a.files ==> SwappedAt(a.files[g], b.files[g], c, g, from, to, keep)
    ensures OnlyTouches(a, b, c)
  {
    hide SwappedAt;
    forall g | g in a.files
      ensures b.files[g].sources - {c} == a.files[g].sources - {c} && b.files[g].a4afSources - {c} == a.files[g].a4afSources - {c}
    {
      SwappedElsewhere(a.files[g], b.files[g], c, g, from, to, keep);
    }
  }

  lemma SwappedStill(a: Book, b: Book, d: Book, c: nat, from: nat, to: nat, keep: bool)
    requires b.files.Keys == a.files.Keys && c in b.clients && OnlyNumbers(b, d, c)
    requires forall g :: g in a.files ==> SwappedAt(a.files[g], b.files[g], c, g, from, to, keep)
    ensures forall g :: g in a.files ==> SwappedAt(a.files[g], d.files[g], c, g, from, to, keep)
  {
    forall g | g in a.files
      ensures SwappedAt(a.files[g], d.files[g], c, g, from, to, keep)
    {
      assert SwappedAt(a.files[g], b.files[g], c, g, from, to, keep);
      assert d.files[g].sources == b.files[g].sources && d.files[g].a4afSources == b.files[g].a4afSources;
    }
  }

  lemma SwappedElsewhere(x: PartFile, y: PartFile, c: nat, g: nat, from: nat, to: nat, keep: bool)
    requires SwappedAt(x, y, c, g, from, to, keep)
    ensures y.sources - {c} == x.sources - {c} && y.a4afSources - {c} == x.a4afSources - {c}
  {
  }

  lemma LinkedClient(b: Book, c: nat)
    requires Linked(b) && c in b.clients
    ensures ClientOk(b, c)
  {
  }

  /** `a` and `b` agree on everything that the links depend on, so the numbers may change freely. */
  ghost predicate SameLinks(a: Book, b: Book) {
    && b.clients.Keys == a.clients.Keys && b.files.Keys == a.files.Keys
    && (forall c :: c in a.clients ==>
          b.clients[c].listed == a.clients[c].listed && b.clients[c].req == a.clients[c].req && b.clients[c].a4af == a.clients[c].a4af)
    && (forall f :: f in a.files ==> b.files[f].sources == a.files[f].sources && b.files[f].a4afSources == a.files[f].a4afSources)
  }

  lemma SameLinksKeep(a: Book, b: Book)
    requires Linked(a) && SameLinks(a, b)
    ensures Linked(b)
  {
    forall c | c in b.clients
      ensures ClientOk(b, c)
    {
      assert ClientOk(a, c);
      forall f | f in b.files ensures LinkOk(c, b.clients[c], f, b.files[f]) {
        assert LinkOk(c, a.clients[c], f, a.files[f]);
      }
    }
  }

  // ---- Numbers: part frequencies and counts by state ----

  predicate Has(s: Source, f: nat, parts: nat, p: nat) {
    s.req == Some(f) && |s.bits| == parts && p < parts && s.bits[p]
  }

  /** The clients asked for `f` whose status says they have part `p`. */
  function Holders(b: Book, f: nat, p: nat): set<nat>
    requires f in b.files
  {
    set c | c in b.clients && Has(b.clients[c], f, b.files[f].partCount, p)
  }

  /** A frequency list of the wrong length is one that has not been set up: nothing has been counted then. */
  ghost predicate FreqOk(b: Book, f: nat)
    requires f in b.files
  {
    var file := b.files[f];
    if |file.freq| == file.partCount then forall p :: 0 <= p < file.partCount ==> file.freq[p] == |Holders(b, f, p)|
    else forall p :: 0 <= p < file.partCount ==> Holders(b, f, p) == {}
  }

  predicate ValidState(st: DownState) { st in {OnQueue, Downloading, Connected} }
  predicate NotCurrentState(st: DownState) { st !in {OnQueue, Downloading} }

  function InState(b: Book, f: nat, current: bool): set<nat> {
    set c | c in b.clients && b.clients[c].req == Some(f)
            && (if current then ValidState(b.clients[c].state) else NotCurrentState(b.clients[c].state))
  }

  ghost predicate CountersOk(b: Book, f: nat)
    requires f in b.files
  {
    b.files[f].valid == |InState(b, f, true)| && b.files[f].notCurrent == |InState(b, f, false)|
  }

  /** Every number a file keeps is the number it stands for. */
  ghost predicate Counted(b: Book) {
    forall f :: f in b.files ==> FreqOk(b, f) && CountersOk(b, f)
  }

  /** The counts in plain words: how many clients asked for the file are in which states, and how many have a part. */
  lemma CountsMean(b: Book, f: nat, p: nat)
    requires Counted(b) && f in b.files && p < b.files[f].partCount
    ensures b.files[f].valid
         == |set c | c in b.clients && b.clients[c].req == Some(f) && (b.clients[c].state.OnQueue? || b.clients[c].state.Downloading? || b.clients[c].state.Connected?)|
    ensures b.files[f].notCurrent
         == |set c | c in b.clients && b.clients[c].req == Some(f) && !b.clients[c].state.OnQueue? && !b.clients[c].state.Downloading?|
    ensures |b.files[f].freq| == b.files[f].partCount ==>
      b.files[f].freq[p] == |set c | c in b.clients && b.clients[c].req == Some(f) && |b.clients[c].bits| == b.files[f].partCount && b.clients[c].bits[p]|
  {
    assert FreqOk(b, f) && CountersOk(b, f);
    assert InState(b, f, true)
        == set c | c in b.clients && b.clients[c].req == Some(f) && (b.clients[c].state.OnQueue? || b.clients[c].state.Downloading? || b.clients[c].state.Connected?);
    assert InState(b, f, false)
        == set c | c in b.clients && b.clients[c].req == Some(f) && !b.clients[c].state.OnQueue? && !b.clients[c].state.Downloading?;
    assert Holders(b, f, p)
        == set c | c in b.clients && b.clients[c].req == Some(f) && |b.clients[c].bits| == b.files[f].partCount && b.clients[c].bits[p];
  }

  function Zeros(n: nat): (r: seq<int>)
    ensures |r| == n && forall i :: 0 <= i < n ==> r[i] == 0
  {
    seq(n, _ => 0)
  }

  /** UpdatePartsFrequency. */
  function Adjusted(file: PartFile, bits: seq<bool>, up: bool): PartFile {
    var sized := if |file.freq| == file.partCount then file.freq else Zeros(file.partCount);
    if (|file.freq| != file.partCount && !up) || |bits| != file.partCount then file.(freq := sized)
    else file.(freq := seq(file.partCount, i requires 0 <= i < file.partCount =>
                             sized[i] + if !bits[i] then 0 else if up then 1 else -1))
  }

  function Flag(x: bool): int { if x then 1 else 0 }

  /** ClientStateChanged; None stands for the -1 of a source that arrives or leaves. */
  function StateChanged(file: PartFile, was: Option<DownState>, now: Option<DownState>): PartFile {
    file.(valid := file.valid - Flag(was.Some? && ValidState(was.value)) + Flag(now.Some? && ValidState(now.value)),
          notCurrent := file.notCurrent - Flag(was.Some? && NotCurrentState(was.value)) + Flag(now.Some? && NotCurrentState(now.value)))
  }

  /** The client's status replaced, and the frequencies of its request file with it: the old one counted out, the new one in. */
  function WithBits(b: Book, c: nat, bits: seq<bool>): Book
    requires c in b.clients && (b.Req(c).Some? ==> b.Req(c).value in b.files)
  {
    var s := b.clients[c];
    b.(clients := b.clients[c := s.(bits := bits)],
       files := if s.req.None? then b.files
                else b.files[s.req.value := Adjusted(Adjusted(b.files[s.req.value], s.bits, false), bits, true)])
  }

  /** SetRequestFile for a client whose status is already cleared. */
  function Moved(b: Book, c: nat, f: Option<nat>): Book
    requires c in b.clients && (b.Req(c).Some? ==> b.Req(c).value in b.files) && (f.Some? ==> f.value in b.files)
  {
    var s := b.clients[c];
    var out := if s.req.None? then b.files else b.files[s.req.value := StateChanged(b.files[s.req.value], Some(s.state), None)];
    b.(clients := b.clients[c := s.(req := f, bits := [])],
       files := if f.None? then out else out[f.value := StateChanged(out[f.value], None, Some(s.state))])
  }

  /** SetDownloadState, apart from what it does to the status. */
  function InStateNow(b: Book, c: nat, st: DownState): Book
    requires c in b.clients && (b.Req(c).Some? ==> b.Req(c).value in b.files)
  {
    var s := b.clients[c];
    b.(clients := b.clients[c := s.(state := st)],
       files := if s.req.None? then b.files else b.files[s.req.value := StateChanged(b.files[s.req.value], Some(s.state), Some(st))])
  }

  lemma CountStep(a: set<nat>, b: set<nat>, c: nat)
    requires a - {c} == b - {c}
    ensures |b| == |a| - Flag(c in a) + Flag(c in b)
  {
    assert a == (a - {c}) + (if c in a then {c} else {});
    assert b == (b - {c}) + (if c in b then {c} else {});
  }

  /** When one client's record changes, each set of holders changes by that client at most. */
  lemma HoldersStep(a: Book, b: Book, c: nat, f: nat, p: nat)
    requires c in a.clients && c in b.clients && b.clients == a.clients[c := b.clients[c]]
    requires f in a.files && f in b.files && a.files[f].partCount == b.files[f].partCount
    ensures var n := a.files[f].partCount;
            && |Holders(b, f, p)| == |Holders(a, f, p)| - Flag(Has(a.clients[c], f, n, p)) + Flag(Has(b.clients[c], f, n, p))
            && (Has(a.clients[c], f, n, p) <==> c in Holders(a, f, p))
            && Holders(b, f, p) - {c} == Holders(a, f, p) - {c}
  {
    assert Holders(b, f, p) - {c} == Holders(a, f, p) - {c};
    CountStep(Holders(a, f, p), Holders(b, f, p), c);
  }

  lemma InStateStep(a: Book, b: Book, c: nat, f: nat, current: bool)
    requires c in a.clients && c in b.clients && b.clients == a.clients[c := b.clients[c]]
    ensures |InState(b, f, current)| == |InState(a, f, current)| - Flag(c in InState(a, f, current)) + Flag(c in InState(b, f, current))
  {
    assert InState(b, f, current) - {c} == InState(a, f, current) - {c};
    CountStep(InState(a, f, current), InState(b, f, current), c);
  }

  /** `a` and `b` agree on everything that the numbers depend on, so the links may change freely. */
  ghost predicate SameNumbers(a: Book, b: Book) {
    && b.clients.Keys == a.clients.Keys && b.files.Keys == a.files.Keys
    && (forall c :: c in a.clients ==>
          b.clients[c].req == a.clients[c].req && b.clients[c].bits == a.clients[c].bits && b.clients[c].state == a.clients[c].state)
    && (forall f :: f in a.files ==>
          var x, y := a.files[f], b.files[f];
          y.partCount == x.partCount && y.freq == x.freq && y.valid == x.valid && y.notCurrent == x.notCurrent)
  }

  lemma SameNumbersKeep(a: Book, b: Book)
    requires Counted(a) && SameNumbers(a, b)
    ensures Counted(b)
  {
    forall f | f in b.files
      ensures FreqOk(b, f) && CountersOk(b, f)
    {
      assert FreqOk(a, f) && CountersOk(a, f);
      assert InState(b, f, true) == InState(a, f, true) && InState(b, f, false) == InState(a, f, false);
      forall p | 0 <= p < a.files[f].partCount
        ensures Holders(b, f, p) == Holders(a, f, p)
      {
      }
    }
  }

  /** A client that is asked for nothing counts nowhere, so it may come and go. */
  lemma UnaskedIsUncounted(a: Book, b: Book, c: nat)
    requires Counted(a) && b.files == a.files && b.clients - {c} == a.clients - {c}
    requires c in a.clients ==> a.clients[c].req.None?
    requires c in b.clients ==> b.clients[c].req.None?
    ensures Counted(b)
  {
    forall f | f in b.files
      ensures FreqOk(b, f) && CountersOk(b, f)
    {
      assert FreqOk(a, f) && CountersOk(a, f);
      UnaskedElsewhere(a, b, c);
      assert InState(b, f, true) == InState(a, f, true) && InState(b, f, false) == InState(a, f, false);
      forall p | 0 <= p < a.files[f].partCount
        ensures Holders(b, f, p) == Holders(a, f, p)
      {
      }
    }
  }

  lemma UnaskedElsewhere(a: Book, b: Book, c: nat)
    requires b.clients - {c} == a.clients - {c}
    requires c in a.clients ==> a.clients[c].req.None?
    requires c in b.clients ==> b.clients[c].req.None?
    ensures forall d :: d in a.clients && a.clients[d].req.Some? ==> d in b.clients && b.clients[d] == a.clients[d]
    ensures forall d :: d in b.clients && b.clients[d].req.Some? ==> d in a.clients && b.clients[d] == a.clients[d]
  {
    assert forall d :: d in a.clients && d != c ==> d in a.clients - {c} && (a.clients - {c})[d] == a.clients[d];
    assert forall d :: d in b.clients && d != c ==> d in b.clients - {c} && (b.clients - {c})[d] == b.clients[d];
  }

  /** What must become of a file's numbers when one client's record goes from `s` to `t`. */
  ghost predicate NumbersMove(f: nat, x: PartFile, y: PartFile, s: Source, t: Source) {
    && y.partCount == x.partCount
    && y.valid == x.valid - Flag(s.req == Some(f) && ValidState(s.state)) + Flag(t.req == Some(f) && ValidState(t.state))
    && y.notCurrent == x.notCurrent - Flag(s.req == Some(f) && NotCurrentState(s.state)) + Flag(t.req == Some(f) && NotCurrentState(t.state))
    && (if |x.freq| == x.partCount then
          |y.freq| == y.partCount && forall p :: 0 <= p < x.partCount ==>
            y.freq[p] == x.freq[p] - Flag(Has(s, f, x.partCount, p)) + Flag(Has(t, f, x.partCount, p))
        else if |y.freq| == y.partCount then
          forall p :: 0 <= p < x.partCount ==> !Has(s, f, x.partCount, p) ==> y.freq[p] == Flag(Has(t, f, x.partCount, p))
        else
          forall p :: 0 <= p < x.partCount && Has(t, f, x.partCount, p) ==> Has(s, f, x.partCount, p))
  }

  lemma NumbersFollow(a: Book, b: Book, c: nat, f: nat)
    requires c in a.clients && c in b.clients && b.clients == a.clients[c := b.clients[c]]
    requires f in a.files && f in b.files && FreqOk(a, f) && CountersOk(a, f)
    requires NumbersMove(f, a.files[f], b.files[f], a.clients[c], b.clients[c])
    ensures FreqOk(b, f) && CountersOk(b, f)
  {
    InStateStep(a, b, c, f, true);
    InStateStep(a, b, c, f, false);
    forall p | 0 <= p < a.files[f].partCount
      ensures |b.files[f].freq| == a.files[f].partCount ==> b.files[f].freq[p] == |Holders(b, f, p)|
      ensures |b.files[f].freq| != a.files[f].partCount ==> Holders(b, f, p) == {}
    {
      HoldersStep(a, b, c, f, p);
    }
  }

  lemma WithBitsKeeps(b: Book, c: nat, bits: seq<bool>)
    requires Counted(b) && c in b.clients && (b.Req(c).Some? ==> b.Req(c).value in b.files)
    ensures Counted(WithBits(b, c, bits))
  {
    var b' := WithBits(b, c, bits);
    forall f | f in b'.files
      ensures FreqOk(b', f) && CountersOk(b', f)
    {
      assert FreqOk(b, f) && CountersOk(b, f);
      AdjustedTwice(f, b.files[f], b.clients[c], bits);
      NumbersFollow(b, b', c, f);
    }
  }

  lemma WithBitsOnly(b: Book, c: nat, bits: seq<bool>)
    requires c in b.clients && (b.Req(c).Some? ==> b.Req(c).value in b.files)
    ensures OnlyNumbers(b, WithBits(b, c, bits), c) && WithBits(b, c, bits).clients[c] == b.clients[c].(bits := bits)
  {
  }

  lemma MovedOnly(b: Book, c: nat, f: Option<nat>)
    requires c in b.clients && (b.Req(c).Some? ==> b.Req(c).value in b.files) && (f.Some? ==> f.value in b.files)
    ensures OnlyNumbers(b, Moved(b, c, f), c) && Moved(b, c, f).clients[c] == b.clients[c].(req := f, bits := [])
  {
  }

  lemma InStateOnly(b: Book, c: nat, st: DownState)
    requires c in b.clients && (b.Req(c).Some? ==> b.Req(c).value in b.files)
    ensures OnlyNumbers(b, InStateNow(b, c, st), c) && InStateNow(b, c, st).clients[c] == b.clients[c].(state := st)
  {
  }

  lemma AdjustedTwice(f: nat, x: PartFile, s: Source, bits: seq<bool>)
    ensures s.req == Some(f) ==> NumbersMove(f, x, Adjusted(Adjusted(x, s.bits, false), bits, true), s, s.(bits := bits))
    ensures s.req != Some(f) ==> NumbersMove(f, x, x, s, s.(bits := bits))
  {
  }

  lemma MovedKeeps(b: Book, c: nat, f: Option<nat>)
    requires Counted(b) && c in b.clients && (b.Req(c).Some? ==> b.Req(c).value in b.files) && (f.Some? ==> f.value in b.files)
    requires b.clients[c].bits == []
    requires forall g :: g in b.files ==> b.files[g].partCount > 0
    ensures Counted(Moved(b, c, f))
  {
    var b' := Moved(b, c, f);
    forall g | g in b'.files
      ensures FreqOk(b', g) && CountersOk(b', g)
    {
      assert FreqOk(b, g) && CountersOk(b, g);
      MovedNumbers(b, c, f, g);
      NumbersFollow(b, b', c, g);
    }
  }

  lemma MovedNumbers(b: Book, c: nat, f: Option<nat>, g: nat)
    requires c in b.clients && (b.Req(c).Some? ==> b.Req(c).value in b.files) && (f.Some? ==> f.value in b.files)
    requires b.clients[c].bits == [] && g in b.files && b.files[g].partCount > 0
    ensures NumbersMove(g, b.files[g], Moved(b, c, f).files[g], b.clients[c], Moved(b, c, f).clients[c])
  {
  }

  lemma InStateNowKeeps(b: Book, c: nat, st: DownState)
    requires Counted(b) && c in b.clients && (b.Req(c).Some? ==> b.Req(c).value in b.files)
    ensures Counted(InStateNow(b, c, st))
  {
    var b' := InStateNow(b, c, st);
    forall f | f in b'.files
      ensures FreqOk(b', f) && CountersOk(b', f)
    {
      assert FreqOk(b, f) && CountersOk(b, f);
      InStateNumbers(b, c, st, f);
      NumbersFollow(b, b', c, f);
    }
  }

  lemma InStateNumbers(b: Book, c: nat, st: DownState, f: nat)
    requires c in b.clients && (b.Req(c).Some? ==> b.Req(c).value in b.files) && f in b.files
    ensures NumbersMove(f, b.files[f], InStateNow(b, c, st).files[f], b.clients[c], InStateNow(b, c, st).clients[c])
  {
  }
}
