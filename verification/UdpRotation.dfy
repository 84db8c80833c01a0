/** Asking the UDP servers for sources: SendNextUDPPacket over two self-emptying queues. */
module UdpRotation {
  import opened Options

  const MAX_FILES_PER_UDP_PACKET: nat := 31
  const MAX_REQUESTS_PER_SERVER: nat := 35

  /** `getSources` is set for servers that take several files in one packet. */
  datatype Server = Server(id: nat, getSources: bool, largeFiles: bool)

  /** `id` tells apart the stays of a file in the list: to the queue, a file removed and added again is a new one. */
  datatype File = File(id: nat, large: bool)

  /** A file to ask this server about; `wanted` are the files that may download and have few enough sources. */
  predicate Eligible(s: Server, f: File, wanted: set<File>) { f in wanted && (f.large ==> s.largeFiles) }

  ghost predicate AnyEligible(s: Server, fs: set<File>, wanted: set<File>) { exists f :: f in fs && Eligible(s, f, wanted) }

  /** The server that begins its turn with the files left over, if there is nothing among them for it but there is elsewhere. */
  ghost function Missed(first: Option<Server>, left: set<File>, files: set<File>, wanted: set<File>): set<Server> {
    if first.Some? && !AnyEligible(first.value, left, wanted) && AnyEligible(first.value, files, wanted) then {first.value} else {}
  }

  /** How many files go into the next packet for a server that has had `n`. */
  function Room(s: Server, n: nat): nat {
    if n >= MAX_REQUESTS_PER_SERVER then 0
    else if !s.getSources then 1
    else if MAX_REQUESTS_PER_SERVER - n < MAX_FILES_PER_UDP_PACKET then MAX_REQUESTS_PER_SERVER - n
    else MAX_FILES_PER_UDP_PACKET
  }

  function Elements(packet: seq<File>): set<File> { set f | f in packet }

  function AskedOf(asked: map<Server, set<File>>, s: Server): set<File> { if s in asked then asked[s] else {} }

  function Noted(asked: map<Server, set<File>>, s: Server, packet: seq<File>): map<Server, set<File>> {
    asked[s := AskedOf(asked, s) + Elements(packet)]
  }

  /** Whatever of `fs` is for this server has been asked of it or is waiting. */
  ghost predicate Covered(s: Server, fs: set<File>, got: set<File>, waiting: set<File>, wanted: set<File>) {
    forall f :: f in fs && Eligible(s, f, wanted) ==> f in got || f in waiting
  }

  /** A packet is taken off the waiting files. */
  lemma CoveredStill(s: Server, fs: set<File>, got: set<File>, waiting: set<File>, wanted: set<File>, packet: set<File>, left: set<File>)
    requires Covered(s, fs, got, waiting, wanted) && Covered(s, waiting, packet, left, wanted)
    ensures Covered(s, fs, got + packet, left, wanted)
  {
  }

  /** A packet to a server other than the connected one, with at most 31 files, none of them asked of it before. */
  ghost predicate PacketOk(s: Server, packet: seq<File>, asked: map<Server, set<File>>, wanted: set<File>, current: Option<Server>) {
    && Some(s) != current
    && 0 < |packet| <= MAX_FILES_PER_UDP_PACKET && (!s.getSources ==> |packet| == 1)
    && |Elements(packet)| == |packet| && Elements(packet) !! AskedOf(asked, s)
    && forall f :: f in packet ==> f in wanted && (f.large ==> s.largeFiles)
  }

  lemma PacketFine(s: Server, packet: seq<File>, asked: map<Server, set<File>>, wanted: set<File>, current: Option<Server>)
    requires Some(s) != current && 0 < |packet| <= MAX_FILES_PER_UDP_PACKET && (!s.getSources ==> |packet| <= 1)
    requires |Elements(packet)| == |packet| && Elements(packet) !! AskedOf(asked, s)
    requires forall f :: f in packet ==> Eligible(s, f, wanted)
    ensures PacketOk(s, packet, asked, wanted, current)
  {
  }

  class UdpQueue {
    var servers: set<Server>
    var files: set<File>
    var queueServers: set<Server>
    var queueFiles: set<File>
    var active: bool
    var udpserver: Option<Server>
    var requests: nat
    /** What each server has been asked since the queues were last filled. */
    ghost var asked: map<Server, set<File>>
    /** The servers that have had their turn since then without being asked anything, though there was a file to ask them about. */
    ghost var passedOver: set<Server>
    /** The servers that have begun their turn since then, with the files that were waiting at that moment or have come since. */
    ghost var begun: map<Server, set<File>>
    /** Those whose turn was cut short. */
    ghost var cut: set<Server>

    constructor (servers: set<Server>, files: set<File>)
      ensures Valid() && !active && this.servers == servers && this.files == files
    {
      this.servers, this.files := servers, files;
      queueServers, queueFiles, active, udpserver, requests := {}, {}, false, None, 0;
      asked, passedOver, begun, cut := map[], {}, map[], {};
    }

    /** Between two servers' turns, all files are waiting. */
    ghost predicate Valid()
      reads this
    {
      Consistent() && (active && udpserver.None? ==> queueFiles == files)
    }

    /** A server gets one turn of at most 35 files: it is not waiting any more, and what it has been asked is not waiting for it. */
    ghost predicate Consistent()
      reads this`servers, this`files, this`queueServers, this`queueFiles, this`active, this`udpserver, this`requests, this`asked, this`begun, this`cut
    {
      && (!active ==> udpserver == None)
      && requests <= MAX_REQUESTS_PER_SERVER
      && queueServers <= servers && queueFiles <= files
      && (forall s :: s in asked ==> s !in queueServers && |asked[s]| <= MAX_REQUESTS_PER_SERVER)
      && (udpserver.Some? ==> CurrentOk(udpserver.value))
      && asked.Keys <= begun.Keys && cut <= begun.Keys && (forall s :: s in begun ==> s !in queueServers)
    }

    ghost predicate CurrentOk(s: Server)
      reads this`servers, this`files, this`queueServers, this`queueFiles, this`active, this`udpserver, this`requests, this`asked, this`begun, this`cut
    {
      s in servers && s in begun && queueFiles <= begun[s] && AskedOf(asked, s) !! queueFiles && |AskedOf(asked, s)| == requests
    }

    /** Every server whose turn is over has been asked all there was to ask, and the current one will be. */
    ghost predicate Thorough(wanted: set<File>, current: Option<Server>)
      reads this`servers, this`files, this`queueServers, this`queueFiles, this`udpserver, this`asked
    {
      && (udpserver.Some? ==> udpserver != current)
      && (forall s :: s in asked ==> asked[s] <= wanted * files)
      && (forall s :: s in servers && s !in queueServers && Some(s) != current ==> Served(s, wanted))
    }

    ghost predicate Served(s: Server, wanted: set<File>)
      reads this`files, this`queueFiles, this`udpserver, this`asked
    {
      Covered(s, files, AskedOf(asked, s), Waits(s), wanted)
    }

    /** The files that are waiting for this server in its turn. */
    ghost function Waits(s: Server): set<File>
      reads this`udpserver, this`queueFiles
    {
      if udpserver == Some(s) then queueFiles else {}
    }

    /**
     * A server is asked only about files that were waiting in its turn, and about all of those that it could be
     * asked about unless its turn is under way or was cut short.
     */
    ghost predicate Shares(wanted: set<File>)
      reads this`begun, this`asked, this`files, this`udpserver, this`queueFiles, this`cut
    {
      forall s :: s in begun ==> Share(s, wanted)
    }

    ghost predicate Share(s: Server, wanted: set<File>)
      reads this`begun, this`asked, this`files, this`udpserver, this`queueFiles, this`cut
      requires s in begun
    {
      AskedOf(asked, s) <= begun[s] && (s in cut || Covered(s, begun[s] * files, AskedOf(asked, s), Waits(s), wanted))
    }

    /**
     * Exactly when a turn that is over and was not cut short has served its server: every file to ask it about was
     * among those waiting in its turn.
     */
    lemma ServedExactly(wanted: set<File>, s: Server)
      requires Shares(wanted) && s in begun && udpserver != Some(s)
      ensures s !in cut ==> (Served(s, wanted) <==> forall f :: f in files && Eligible(s, f, wanted) ==> f in begun[s])
      ensures s in cut && Served(s, wanted) ==> forall f :: f in files && Eligible(s, f, wanted) ==> f in begun[s]
    {
      assert Share(s, wanted);
    }

    /** Every server but the connected one has been asked about every file it could be asked about. */
    ghost predicate AllServed(wanted: set<File>, current: Option<Server>)
      reads this
    {
      forall s, f :: s in servers && Some(s) != current && f in files && f in wanted && (f.large ==> s.largeFiles) ==> f in AskedOf(asked, s)
    }

    /** The turn under way ends here though files may still be waiting: the server has had its 35, or is the connected one now. */
    ghost predicate CutShort(current: Option<Server>)
      reads this
    {
      udpserver.Some? && (requests == MAX_REQUESTS_PER_SERVER || udpserver == current)
    }

    /** A new file joins both lists; the queue of files is told of it. */
    method FileAdded(f: File)
      requires Valid() && f !in files && forall s :: s in begun ==> f !in begun[s] && f !in AskedOf(asked, s)
      modifies this`files, this`queueFiles, this`begun
      ensures Valid() && files == old(files) + {f} && queueFiles == old(queueFiles) + if active then {f} else {}
      ensures forall wanted :: old(Shares(wanted)) ==> Shares(wanted)
    {
      files := files + {f};
      if active {
        queueFiles := queueFiles + {f};
        if udpserver.Some? {
          begun := begun[udpserver.value := begun[udpserver.value] + {f}];
        }
      }
    }

    method FileRemoved(f: File)
      requires Valid()
      modifies this`files, this`queueFiles
      ensures Valid() && files == old(files) - {f} && queueFiles == old(queueFiles) - {f}
      ensures forall wanted :: old(Shares(wanted)) ==> Shares(wanted)
    {
      files, queueFiles := files - {f}, queueFiles - {f};
    }

    function GetMaxFilesPerUDPServerPacket(): (n: nat)
      reads this
      ensures n == if udpserver.None? then 0 else Room(udpserver.value, requests)
      ensures n > 0 ==> n <= MAX_FILES_PER_UDP_PACKET && requests + n <= MAX_REQUESTS_PER_SERVER
    {
      if udpserver.Some? then
        if udpserver.value.getSources then
          if requests < MAX_REQUESTS_PER_SERVER then
            if MAX_FILES_PER_UDP_PACKET < MAX_REQUESTS_PER_SERVER - requests then MAX_FILES_PER_UDP_PACKET
            else MAX_REQUESTS_PER_SERVER - requests
          else 0
        else if requests < MAX_REQUESTS_PER_SERVER then 1
        else 0
      else 0
    }

    /** The turn under way ends, and that of the next server begins, if there is one. */
    method NextServer(current: Option<Server>, ghost wanted: set<File>)
      requires Valid() && active
      modifies this`queueServers, this`udpserver, this`requests, this`begun, this`cut
      ensures Consistent() && requests == 0 && queueServers <= old(queueServers)
      ensures begun == if udpserver.Some? then old(begun)[udpserver.value := queueFiles] else old(begun)
      ensures cut == old(cut) + if old(udpserver).Some? then {old(udpserver).value} else {}
      ensures old(Shares(wanted)) ==> Shares(wanted)
      ensures forall s :: s in old(queueServers) && s !in queueServers ==> Some(s) == udpserver || Some(s) == current
      ensures udpserver.None? ==> queueServers == {} && forall s :: s in old(queueServers) ==> Some(s) == current
      ensures udpserver.Some? ==> udpserver != current && udpserver.value in old(queueServers) && udpserver.value !in asked
      ensures old(udpserver.None? && Thorough(wanted, current)) ==>
        if udpserver.None? then AllServed(wanted, current) else Thorough(wanted, current)
    {
      hide AskedOf, Eligible, Shares;
      EndTurn(wanted);
      var next := GetNextServer(current);
      if next.Some? {
        BeginTurn(next.value, wanted);
      } else if old(udpserver.None? && Thorough(wanted, current)) {
        NoneLeft(wanted, current);
      }
    }

    /** When no server is waiting or has its turn, all have been served. */
    lemma NoneLeft(wanted: set<File>, current: Option<Server>)
      requires udpserver.None? && Thorough(wanted, current) && forall s :: s in queueServers ==> Some(s) == current
      ensures AllServed(wanted, current)
    {
      forall s, f | s in servers && Some(s) != current && f in files && f in wanted && (f.large ==> s.largeFiles)
        ensures f in AskedOf(asked, s)
      {
        assert Served(s, wanted) && Eligible(s, f, wanted);
      }
    }

    /** Servers are taken off the queue, in whatever order, until one is not the connected one. */
    method GetNextServer(current: Option<Server>) returns (next: Option<Server>)
      requires Consistent()
      modifies this`queueServers
      ensures Consistent() && queueServers <= old(queueServers)
      ensures forall s :: s in old(queueServers) && s !in queueServers ==> Some(s) == next || Some(s) == current
      ensures if next.Some? then next != current && next.value in old(queueServers) && next.value !in queueServers else queueServers == {}
    {
      next := None;
      while queueServers != {} && next.None?
        invariant Consistent() && queueServers <= old(queueServers)
        invariant next.Some? ==> next != current && next.value in old(queueServers) && next.value !in queueServers
        invariant forall s :: s in old(queueServers) && s !in queueServers ==> Some(s) == next || Some(s) == current
        decreases |queueServers|
      {
        var s :| s in queueServers;
        queueServers := queueServers - {s};
        if Some(s) != current {
          next := Some(s);
        }
      }
    }

    /** The server's turn begins, with the files that are waiting now. */
    method BeginTurn(s: Server, ghost wanted: set<File>)
      requires Consistent() && active && udpserver.None? && requests == 0 && s in servers && s !in queueServers && s !in begun
      modifies this`udpserver, this`begun
      ensures Consistent() && udpserver == Some(s) && begun == old(begun)[s := queueFiles]
      ensures old(Shares(wanted)) ==> Shares(wanted)
    {
      hide Eligible;
      udpserver, begun := Some(s), begun[s := queueFiles];
      assert forall t :: t in old(begun) && old(Share(t, wanted)) ==> Share(t, wanted);
    }

    /** The turn under way is over, all files used up or not. */
    method EndTurn(ghost wanted: set<File>)
      requires Valid() && active
      modifies this`udpserver, this`requests, this`cut
      ensures Consistent() && requests == 0 && udpserver.None?
      ensures cut == old(cut) + if old(udpserver).Some? then {old(udpserver).value} else {}
      ensures old(Shares(wanted)) ==> Shares(wanted)
    {
      if udpserver.Some? {
        cut := cut + {udpserver.value};
      }
      udpserver, requests := None, 0;
      assert forall s :: s in begun && old(Share(s, wanted)) ==> Share(s, wanted);
    }

    /** Files are taken off the queue until it is empty or the packet full. No file to ask about is skipped. */
    method FillPacket(s: Server, allowed: nat, wanted: set<File>) returns (packet: seq<File>, exhausted: bool)
      requires allowed > 0
      modifies this`queueFiles
      ensures |Elements(packet)| == |packet| <= allowed && Elements(packet) <= old(queueFiles) && queueFiles <= old(queueFiles)
      ensures Elements(packet) !! queueFiles
      ensures Elements(packet) <= wanted && forall f :: f in packet ==> Eligible(s, f, wanted)
      ensures forall f :: f in old(queueFiles) && Eligible(s, f, wanted) ==> f in Elements(packet) || f in queueFiles
      ensures (exhausted <==> |packet| < allowed) && (exhausted ==> queueFiles == {})
      ensures packet != [] <==> AnyEligible(s, old(queueFiles), wanted)
    {
      packet := [];
      var left := allowed;
      var file := GetNext();
      while file.Some? && left > 0
        invariant |packet| + left == allowed && |Elements(packet)| == |packet|
        invariant Elements(packet) <= old(queueFiles) && queueFiles <= old(queueFiles) && Elements(packet) !! queueFiles
        invariant file.Some? ==> file.value in old(queueFiles) && file.value !in queueFiles
        invariant file.Some? && left > 0 ==> file.value !in packet
        invariant forall f :: f in packet ==> Eligible(s, f, wanted)
        invariant forall f :: f in old(queueFiles) && Eligible(s, f, wanted) ==>
          f in packet || f in queueFiles || (left > 0 && file == Some(f))
        invariant file.None? ==> queueFiles == {} && left > 0
        decreases left, |queueFiles|, file.Some?
      {
        if Eligible(s, file.value, wanted) {
          assert Elements(packet + [file.value]) == Elements(packet) + {file.value};
          packet := packet + [file.value];
          left := left - 1;
        }
        if left > 0 {
          file := GetNext();
        }
      }
      exhausted := file.None?;
      PacketEmpty(packet);
      assert packet != [] ==> packet[0] in packet && packet[0] in Elements(packet) && Eligible(s, packet[0], wanted);
    }

    method GetNext() returns (file: Option<File>)
      modifies this`queueFiles
      ensures file.None? ==> old(queueFiles) == queueFiles == {}
      ensures file.Some? ==> file.value in old(queueFiles) && queueFiles == old(queueFiles) - {file.value}
    {
      if queueFiles == {} {
        return None;
      }
      var f :| f in queueFiles;
      queueFiles := queueFiles - {f};
      file := Some(f);
    }

    method StopUDPRequests(ghost wanted: set<File>)
      requires Consistent()
      modifies this`queueServers, this`queueFiles, this`active, this`udpserver
      ensures !active && udpserver == None && queueServers == {} && queueFiles == {}
      ensures Valid() && (old(udpserver).None? && old(Shares(wanted)) ==> Shares(wanted))
    {
      queueServers, queueFiles, active, udpserver := {}, {}, false, None;
      assert forall s :: s in begun && old(Share(s, wanted)) && old(udpserver).None? ==> Share(s, wanted);
    }

    /** With fewer than 35 files to ask about, no turn is cut short. */
    lemma Counted(wanted: set<File>, current: Option<Server>)
      requires Valid() && Thorough(wanted, current) && |wanted * files| < MAX_REQUESTS_PER_SERVER
      ensures !CutShort(current)
    {
      if udpserver.Some? && udpserver.value in asked {
        var s := udpserver.value;
        SubsetSize(asked[s], wanted * files);
      }
    }

    /** The packet is filled, and noted as asked of the current server. A turn on its way to ask everything stays so. */
    method Compose(wanted: set<File>, ghost current: Option<Server>) returns (packet: seq<File>, exhausted: bool)
      requires Consistent() && active && udpserver.Some? && udpserver != current && requests < MAX_REQUESTS_PER_SERVER
      modifies this`queueFiles, this`requests, this`asked
      ensures Consistent() && (exhausted ==> queueFiles == {})
      ensures |packet| <= Room(udpserver.value, old(requests)) && (exhausted <==> |packet| < Room(udpserver.value, old(requests)))
      ensures packet != [] <==> AnyEligible(udpserver.value, old(queueFiles), wanted)
      ensures Elements(packet) <= old(queueFiles)
      ensures packet != [] ==> PacketOk(udpserver.value, packet, old(asked), wanted, current)
      ensures asked == if packet != [] then Noted(old(asked), udpserver.value, packet) else old(asked)
      ensures old(Thorough(wanted, current)) ==> Thorough(wanted, current)
      ensures old(Shares(wanted)) ==> Shares(wanted)
    {
      hide AskedOf, Noted, Elements, PacketOk, Room, Covered;
      var s := udpserver.value;
      ghost var thorough, shares, got := Thorough(wanted, current), Shares(wanted), AskedOf(asked, s);
      assert s in servers && s !in queueServers && queueFiles <= begun[s] && (shares ==> Share(s, wanted)) && (thorough ==> Served(s, wanted));
      hide Consistent;
      packet, exhausted := TakeFiles(wanted, current);
      PacketEmpty(packet);
      NotedOf(old(asked), s, packet, wanted * files);
      if thorough {
        CoveredStill(s, files, got, old(queueFiles), wanted, Elements(packet), queueFiles);
      }
      if shares && s !in cut {
        CoveredStill(s, begun[s] * files, got, old(queueFiles), wanted, Elements(packet), queueFiles);
      }
    }

    method TakeFiles(wanted: set<File>, ghost current: Option<Server>) returns (packet: seq<File>, exhausted: bool)
      requires Consistent() && active && udpserver.Some? && udpserver != current && requests < MAX_REQUESTS_PER_SERVER
      modifies this`queueFiles, this`requests, this`asked
      ensures Consistent() && (exhausted ==> queueFiles == {})
      ensures |packet| <= Room(udpserver.value, old(requests)) && (exhausted <==> |packet| < Room(udpserver.value, old(requests)))
      ensures packet != [] <==> AnyEligible(udpserver.value, old(queueFiles), wanted)
      ensures Elements(packet) <= old(queueFiles) && Elements(packet) <= wanted * files
      ensures Covered(udpserver.value, old(queueFiles), Elements(packet), queueFiles, wanted)
      ensures packet != [] ==> PacketOk(udpserver.value, packet, old(asked), wanted, current)
      ensures asked == if packet != [] then Noted(old(asked), udpserver.value, packet) else old(asked)
    {
      hide AskedOf, Eligible, Noted, Elements, PacketOk, Room;
      packet, exhausted := FillPacket(udpserver.value, GetMaxFilesPerUDPServerPacket(), wanted);
      if packet != [] {
        PacketFine(udpserver.value, packet, asked, wanted, current);
        Note(packet);
      }
    }

    /** The packet counts towards the current server's turn. */
    method Note(packet: seq<File>)
      requires Consistent() && udpserver.Some? && packet != [] && requests + |packet| <= MAX_REQUESTS_PER_SERVER
      requires |Elements(packet)| == |packet| && Elements(packet) !! queueFiles && Elements(packet) !! AskedOf(asked, udpserver.value)
      modifies this`requests, this`asked
      ensures Consistent() && asked == Noted(old(asked), udpserver.value, packet)
    {
      hide AskedOf, Noted, Elements;
      var s := udpserver.value;
      NotedOf(asked, s, packet, {});
      requests := requests + |packet|;
      asked := Noted(asked, s, packet);
    }

    /** One packet for the current server, if there is anything to ask it; its turn is over once the files are used up. */
    method Ask(wanted: set<File>, ghost current: Option<Server>) returns (sent: Option<(Server, seq<File>)>)
      requires Consistent() && active && udpserver.Some? && udpserver != current && requests < MAX_REQUESTS_PER_SERVER
      modifies this`queueFiles, this`udpserver, this`requests, this`asked
      ensures Valid() && (sent.None? ==> udpserver.None?) && (udpserver.Some? ==> udpserver == old(udpserver))
      ensures sent.Some? <==> AnyEligible(old(udpserver).value, old(queueFiles), wanted)
      ensures sent.Some? ==> Some(sent.value.0) == old(udpserver) && PacketOk(sent.value.0, sent.value.1, old(asked), wanted, current)
      ensures sent.Some? ==> Elements(sent.value.1) <= old(queueFiles)
      ensures sent.Some? ==> (udpserver.Some? <==> |sent.value.1| == Room(sent.value.0, old(requests)))
      ensures asked == if sent.Some? then Noted(old(asked), sent.value.0, sent.value.1) else old(asked)
      ensures old(Thorough(wanted, current)) ==> Thorough(wanted, current)
      ensures old(Shares(wanted)) ==> Shares(wanted)
    {
      hide AskedOf, Eligible, Noted, Elements, PacketOk, AnyEligible;
      var s := udpserver.value;
      var packet, exhausted := Compose(wanted, current);
      sent := if packet != [] then Some((s, packet)) else None;
      if exhausted {
        queueFiles := files;
        udpserver := None;
      }
    }

    /** A server whose turn begins may be passed over. */
    method AskOrPass(wanted: set<File>, ghost current: Option<Server>, ghost begins: bool) returns (sent: Option<(Server, seq<File>)>)
      requires Consistent() && active && udpserver.Some? && udpserver != current && requests < MAX_REQUESTS_PER_SERVER
      modifies this`queueFiles, this`udpserver, this`requests, this`asked, this`passedOver
      ensures passedOver == old(passedOver) +
        if begins && sent.None? && AnyEligible(old(udpserver).value, files, wanted) then {old(udpserver).value} else {}
      ensures Valid() && (sent.None? ==> udpserver.None?) && (udpserver.Some? ==> udpserver == old(udpserver))
      ensures sent.Some? <==> AnyEligible(old(udpserver).value, old(queueFiles), wanted)
      ensures sent.Some? ==> Some(sent.value.0) == old(udpserver) && PacketOk(sent.value.0, sent.value.1, old(asked), wanted, current)
      ensures sent.Some? ==> Elements(sent.value.1) <= old(queueFiles)
      ensures sent.Some? ==> (udpserver.Some? <==> |sent.value.1| == Room(sent.value.0, old(requests)))
      ensures asked == if sent.Some? then Noted(old(asked), sent.value.0, sent.value.1) else old(asked)
      ensures old(Thorough(wanted, current)) ==> Thorough(wanted, current)
      ensures old(Shares(wanted)) ==> Shares(wanted)
    {
      hide AskedOf, Noted, Elements, PacketOk, AnyEligible, Covered, Room, Consistent, Shares, Served;
      var s := udpserver.value;
      sent := Ask(wanted, current);
      if begins && sent.None? && AnyEligible(s, files, wanted) {
        passedOver := passedOver + {s};
      }
    }

    /**
     * One round: the next server if the current one's turn is over, and a packet to it if there is anything to ask.
     * `picked` is the server whose turn begins. It is asked nothing exactly if no file that is waiting is
     * eligible for it; and it is then passed over, there being some other file, only after a turn cut short.
     */
    method Step(wanted: set<File>, current: Option<Server>)
      returns (sent: Option<(Server, seq<File>)>, done: bool, ghost picked: Option<Server>)
      requires Valid() && active
      modifies this
      ensures Valid() && files == old(files) && servers == old(servers) && queueServers <= old(queueServers)
      ensures sent.Some? ==> !done && PacketOk(sent.value.0, sent.value.1, old(asked), wanted, current) && sent.value.0 in servers
      ensures sent.Some? ==> (udpserver.Some? <==> |sent.value.1| == Room(sent.value.0, |AskedOf(old(asked), sent.value.0)|))
      ensures sent.Some? ==> Some(sent.value.0) == (if picked.Some? then picked else old(udpserver))
      ensures udpserver.Some? ==> sent.Some? && udpserver.value == sent.value.0
      ensures asked == if sent.Some? then Noted(old(asked), sent.value.0, sent.value.1) else old(asked)
      ensures active == !done && (done ==> queueServers == {})
      ensures forall t :: t in old(queueServers) && t !in queueServers ==> Some(t) == picked || Some(t) == current
      ensures picked.Some? ==> picked != current && picked.value in old(queueServers) && picked.value !in queueServers && picked.value !in old(asked)
      ensures picked.None? && !done <==> old(udpserver).Some? && !old(CutShort(current))
      ensures picked.Some? ==> (sent.Some? <==> AnyEligible(picked.value, old(queueFiles), wanted))
      ensures picked.None? && !done ==> (sent.Some? <==> AnyEligible(old(udpserver).value, old(queueFiles), wanted))
      ensures passedOver == old(passedOver) +
        if picked.Some? && sent.None? && AnyEligible(picked.value, files, wanted) then {picked.value} else {}
      ensures !old(CutShort(current)) ==> passedOver == old(passedOver)
      ensures sent.Some? ==> Elements(sent.value.1) <= old(queueFiles)
      ensures begun == if picked.Some? then old(begun)[picked.value := old(queueFiles)] else old(begun)
      ensures cut == old(cut) + if old(CutShort(current)) then {old(udpserver).value} else {}
      ensures old(Shares(wanted)) ==> Shares(wanted)
      ensures old(Thorough(wanted, current) && !CutShort(current)) ==>
        if done then AllServed(wanted, current) else Thorough(wanted, current)
    {
      hide AskedOf, Served, AnyEligible, PacketOk, Noted, Room, Thorough, Eligible, Elements, Shares, Consistent, CutShort;
      sent, done := None, false;
      picked := Choose(wanted, current);
      if udpserver.None? {
        StopUDPRequests(wanted);
        done := true;
        return;
      }
      sent := AskOrPass(wanted, current, picked.Some?);
    }

    /** The server to ask: the current one, or if its turn is over the next. */
    method Choose(ghost wanted: set<File>, current: Option<Server>) returns (ghost picked: Option<Server>)
      requires Valid() && active
      modifies this`queueServers, this`udpserver, this`requests, this`begun, this`cut
      ensures Consistent() && queueServers <= old(queueServers) && (old(Shares(wanted)) ==> Shares(wanted))
      ensures udpserver.Some? ==> udpserver != current && requests < MAX_REQUESTS_PER_SERVER && udpserver.value in servers
      ensures udpserver.Some? ==> requests == |AskedOf(asked, udpserver.value)|
      ensures old(udpserver).Some? && !old(CutShort(current)) ==>
        picked.None? && udpserver == old(udpserver) && requests == old(requests) && queueServers == old(queueServers)
      ensures !(old(udpserver).Some? && !old(CutShort(current))) ==>
        && picked == udpserver && requests == 0
        && (udpserver.None? ==> queueServers == {})
        && (forall s :: s in old(queueServers) && s !in queueServers ==> Some(s) == udpserver || Some(s) == current)
      ensures picked.None? && udpserver.Some? <==> old(udpserver).Some? && !old(CutShort(current))
      ensures picked.Some? ==> picked == udpserver && picked.value in old(queueServers) && picked.value !in queueServers && picked.value !in asked
      ensures begun == if picked.Some? then old(begun)[picked.value := queueFiles] else old(begun)
      ensures cut == old(cut) + if old(CutShort(current)) then {old(udpserver).value} else {}
      ensures old(Thorough(wanted, current) && !CutShort(current)) ==>
        if udpserver.None? then AllServed(wanted, current) else Thorough(wanted, current)
    {
      hide AskedOf, Served, Room, Thorough, Eligible, Shares;
      RoomLeft();
      picked := None;
      if GetMaxFilesPerUDPServerPacket() < 1 || udpserver == current {
        NextServer(current, wanted);
        picked := udpserver;
      }
    }

    lemma RoomLeft()
      ensures GetMaxFilesPerUDPServerPacket() < 1 <==> udpserver.None? || requests >= MAX_REQUESTS_PER_SERVER
    {
    }

    /** The log before this call, which starts anew with the queues. */
    ghost function Log(): map<Server, set<File>>
      reads this
    {
      if active then asked else map[]
    }

    ghost function Waiting(): set<Server>
      reads this
    {
      if active then queueServers else servers
    }

    ghost function PassedOver(): set<Server>
      reads this
    {
      if active then passedOver else {}
    }

    /** The rotation begins anew. */
    method FillQueues(ghost wanted: set<File>, ghost current: Option<Server>)
      requires Valid() && !active
      modifies this`active, this`queueServers, this`queueFiles, this`asked, this`passedOver, this`begun, this`cut
      ensures Valid() && active && queueServers == servers && queueFiles == files && udpserver.None?
      ensures asked == map[] && passedOver == {} && begun == map[] && cut == {} && Thorough(wanted, current) && Shares(wanted)
    {
      active, queueServers, queueFiles, asked, passedOver, begun, cut := true, servers, files, map[], {}, map[], {};
    }

    ghost function Cut(): set<Server>
      reads this
    {
      if active then cut else {}
    }

    /**
     * Asks one server about as many files as one packet holds. A server whose turn has come is asked nothing for
     * one of two reasons: there is nothing that it could be asked about, or it is passed over. The latter happens
     * to at most one server in a call, `first`, and exactly if the turn before was cut short, the files
     * left over from that turn have none for it, and there is some other file to ask it about.
     */
    method SendNextUDPPacket(wanted: set<File>, current: Option<Server>, online: bool)
      returns (sent: Option<(Server, seq<File>)>, ghost first: Option<Server>)
      requires Valid()
      modifies this
      ensures Valid() && files == old(files) && servers == old(servers)
      ensures !(online && files != {}) ==> sent.None? && first.None? && unchanged(this)
      ensures sent.Some? ==> active && sent.value.0 in servers && PacketOk(sent.value.0, sent.value.1, old(Log()), wanted, current)
      ensures sent.Some? ==> (udpserver.Some? <==> |sent.value.1| == Room(sent.value.0, |AskedOf(old(Log()), sent.value.0)|))
      ensures old(!active || Shares(wanted)) && online && files != {} ==> Shares(wanted)
      ensures online && files != {} ==>
        forall t :: t in old(Waiting()) && t !in queueServers && Some(t) != current ==>
          t in begun && begun[t] == if Some(t) == first then old(queueFiles) else files
      ensures online && files != {} ==> cut == old(Cut()) + if old(CutShort(current)) then {old(udpserver).value} else {}
      ensures udpserver.Some? && online && files != {} ==> sent.Some? && udpserver.value == sent.value.0
      ensures online && files != {} ==> asked == if sent.Some? then Noted(old(Log()), sent.value.0, sent.value.1) else old(Log())
      ensures sent.None? && online && files != {} ==> !active
      ensures online && files != {} ==> passedOver == old(PassedOver()) + Missed(first, old(queueFiles), files, wanted)
      ensures first.Some? ==> old(CutShort(current)) && first != current && first.value in old(queueServers) && first.value !in queueServers
      ensures first.Some? ==> (sent.Some? && sent.value.0 == first.value <==> AnyEligible(first.value, old(queueFiles), wanted))
      ensures online && files != {} && old(CutShort(current)) && first.None? ==> forall t :: t in old(queueServers) ==> Some(t) == current
      ensures online && files != {} ==>
        forall t :: t in old(Waiting()) && t !in queueServers && Some(t) != current && (sent.None? || sent.value.0 != t) ==>
          t in passedOver || !AnyEligible(t, files, wanted)
      ensures online && files != {} && old(udpserver).Some? && !old(CutShort(current)) && AnyEligible(old(udpserver).value, old(queueFiles), wanted) ==>
        sent.Some? && Some(sent.value.0) == old(udpserver)
      ensures online && files != {} && (!old(active) || old(Thorough(wanted, current) && !CutShort(current))) ==>
        if active then Thorough(wanted, current) else AllServed(wanted, current)
    {
      hide AnyEligible, PacketOk, Noted, Room, AskedOf, Served, Eligible, Thorough, AllServed, Shares, Elements, Consistent;
      sent, first := None, None;
      if files == {} || !online {
        return;
      }
      if !active {
        FillQueues(wanted, current);
      }
      var done;
      sent, done, first := Step(wanted, current);
      if !old(CutShort(current)) {
        first := None;
      }
      if sent.None? && !done {
        sent := GoOn(wanted, current);
      }
    }

    /** Further rounds, between two turns. All files are waiting then, and no server is passed over. */
    method GoOn(wanted: set<File>, current: Option<Server>) returns (sent: Option<(Server, seq<File>)>)
      requires Valid() && active && udpserver.None?
      modifies this
      ensures Valid() && files == old(files) && servers == old(servers) && queueServers <= old(queueServers) && active == sent.Some?
      ensures passedOver == old(passedOver) && cut == old(cut)
      ensures sent.Some? ==> sent.value.0 in servers && PacketOk(sent.value.0, sent.value.1, old(asked), wanted, current)
      ensures sent.Some? ==> (udpserver.Some? <==> |sent.value.1| == Room(sent.value.0, |AskedOf(old(asked), sent.value.0)|))
      ensures sent.Some? ==> sent.value.0 in old(queueServers) && sent.value.0 !in queueServers
      ensures udpserver.Some? ==> sent.Some? && udpserver.value == sent.value.0
      ensures asked == if sent.Some? then Noted(old(asked), sent.value.0, sent.value.1) else old(asked)
      ensures sent.None? ==> queueServers == {}
      ensures forall t :: t in old(begun) && t !in old(queueServers) ==> t in begun && begun[t] == old(begun)[t]
      ensures forall t :: t in old(queueServers) && t !in queueServers && Some(t) != current ==>
        t in begun && begun[t] == files && ((sent.Some? && sent.value.0 == t) || !AnyEligible(t, files, wanted))
      ensures old(Shares(wanted)) ==> Shares(wanted)
      ensures old(Thorough(wanted, current)) ==> if sent.None? then AllServed(wanted, current) else Thorough(wanted, current)
    {
      hide AnyEligible, PacketOk, Noted, Room, AskedOf, Served, Eligible, Thorough, AllServed, Shares, Elements, Consistent;
      sent := None;
      var done := false;
      while sent.None? && !done
        invariant Valid() && files == old(files) && servers == old(servers) && queueServers <= old(queueServers)
        invariant active == !done && (done ==> queueServers == {}) && passedOver == old(passedOver) && cut == old(cut)
        invariant udpserver.Some? ==> sent.Some? && udpserver.value == sent.value.0
        invariant sent.Some? ==> !done && sent.value.0 in servers && PacketOk(sent.value.0, sent.value.1, old(asked), wanted, current)
        invariant sent.Some? ==> (udpserver.Some? <==> |sent.value.1| == Room(sent.value.0, |AskedOf(old(asked), sent.value.0)|))
        invariant sent.Some? ==> sent.value.0 in old(queueServers) && sent.value.0 !in queueServers
        invariant asked == if sent.Some? then Noted(old(asked), sent.value.0, sent.value.1) else old(asked)
        invariant forall t :: t in old(begun) && t !in old(queueServers) ==> t in begun && begun[t] == old(begun)[t]
        invariant forall t :: t in old(queueServers) && t !in queueServers && Some(t) != current ==>
          t in begun && begun[t] == files && ((sent.Some? && sent.value.0 == t) || !AnyEligible(t, files, wanted))
        invariant old(Shares(wanted)) ==> Shares(wanted)
        invariant old(Thorough(wanted, current)) ==> if done then AllServed(wanted, current) else Thorough(wanted, current)
        decreases !done, sent.None?, queueServers
      {
        ghost var picked;
        sent, done, picked := Step(wanted, current);
      }
    }
  }

  lemma {:induction false} EqualSize<T>(a: set<T>, b: set<T>)
    requires a <= b && |a| == |b|
    ensures a == b
  {
    if x :| x in b && x !in a {
      SubsetSize(a + {x}, b);
    }
  }

  /** `lucky` has its turn and has been asked about `n` of the files; `other` is still waiting. */
  ghost predicate TurnOf(q: UdpQueue, lucky: Server, other: Server, files: set<File>, n: nat)
    reads q
  {
    && q.Valid() && q.active && q.servers == {lucky, other} && q.files == files && q.queueServers == {other}
    && q.udpserver == Some(lucky) && q.requests == n && q.asked.Keys == {lucky} && |q.asked[lucky]| == n
    && q.passedOver == {} && q.cut == {} && q.Thorough(files, None) && q.Shares(files)
  }

  /** At least 35 files, which any server can be asked about. */
  ghost predicate ForAnyone(files: set<File>) {
    |files| >= MAX_REQUESTS_PER_SERVER && forall f :: f in files ==> !f.large
  }

  lemma EveryFileEligible(files: set<File>)
    requires ForAnyone(files)
    ensures forall s, f :: f in files ==> Eligible(s, f, files)
    ensures forall s, fs :: fs <= files ==> (AnyEligible(s, fs, files) <==> fs != {})
  {
    forall s, fs: set<File> | fs <= files && fs != {}
      ensures AnyEligible(s, fs, files)
    {
      var f :| f in fs;
      assert Eligible(s, f, files);
    }
  }

  /** Until its turn is over, what a server has not been asked about is waiting; and then there is nothing like that. */
  lemma Remaining(q: UdpQueue, s: Server, files: set<File>)
    requires q.Valid() && q.Thorough(files, None) && q.files == files && s in q.servers && s !in q.queueServers && ForAnyone(files)
    ensures q.udpserver == Some(s) ==> q.queueFiles == files - AskedOf(q.asked, s)
    ensures q.udpserver == None ==> files <= AskedOf(q.asked, s)
    ensures AskedOf(q.asked, s) <= files
  {
    EveryFileEligible(files);
    assert q.Served(s, files);
  }

  lemma SharedOut(q: UdpQueue, s: Server, files: set<File>)
    requires q.Shares(files) && s in q.begun && s !in q.cut && q.udpserver.None? && q.files == files && ForAnyone(files) && q.begun[s] <= files
    ensures AskedOf(q.asked, s) == q.begun[s]
  {
    EveryFileEligible(files);
    assert q.Share(s, files);
  }

  method FirstPacket(a: Server, b: Server, files: set<File>) returns (q: UdpQueue, ghost lucky: Server, ghost other: Server)
    requires a != b && a.getSources && b.getSources && ForAnyone(files)
    ensures fresh(q) && {lucky, other} == {a, b} && lucky != other && TurnOf(q, lucky, other, files, MAX_FILES_PER_UDP_PACKET)
  {
    hide ForAnyone, TurnOf, UdpQueue.Shares, UdpQueue.Thorough;
    q := new UdpQueue({a, b}, files);
    lucky := FromTheStart(q, a, b, files);
    other := if lucky == a then b else a;
  }

  method FromTheStart(q: UdpQueue, a: Server, b: Server, files: set<File>) returns (ghost lucky: Server)
    requires a != b && a.getSources && b.getSources && ForAnyone(files) && q.Valid() && !q.active && q.servers == {a, b} && q.files == files
    modifies q
    ensures lucky == a || lucky == b
    ensures TurnOf(q, lucky, if lucky == a then b else a, files, MAX_FILES_PER_UDP_PACKET)
  {
    EveryFileEligible(files);
    hide Eligible, AnyEligible, UdpQueue.Shares, UdpQueue.Thorough, UdpQueue.Served, UdpQueue.AllServed;
    ghost var first;
    var sent;
    sent, first := q.SendNextUDPPacket(files, None, true);
    ghost var missed := q.passedOver;
    assert missed == {};
    assert sent.None? ==> a in missed || !AnyEligible(a, files, files);
    lucky := sent.value.0;
    ghost var other := if lucky == a then b else a;
    assert q.asked == map[lucky := {} + Elements(sent.value.1)];
    assert other !in q.queueServers ==> !AnyEligible(other, files, files);
    Remaining(q, lucky, files);
    NoFewer(files, AskedOf(q.asked, lucky));
  }

  method SecondPacket(q: UdpQueue, ghost lucky: Server, ghost other: Server, files: set<File>)
    requires lucky != other && lucky.getSources && ForAnyone(files) && TurnOf(q, lucky, other, files, MAX_FILES_PER_UDP_PACKET)
    modifies q
    ensures TurnOf(q, lucky, other, files, MAX_REQUESTS_PER_SERVER) && q.queueFiles == files - q.asked[lucky]
  {
    EveryFileEligible(files);
    hide Eligible, AnyEligible, UdpQueue.Shares, UdpQueue.Thorough, UdpQueue.Served, UdpQueue.AllServed;
    Remaining(q, lucky, files);
    NoFewer(files, q.asked[lucky]);
    assert AnyEligible(lucky, q.queueFiles, files);
    ghost var had := q.asked[lucky];
    ghost var first;
    var sent;
    sent, first := q.SendNextUDPPacket(files, None, true);
    assert q.asked.Keys == {lucky} && q.asked[lucky] == had + Elements(sent.value.1);
    ghost var missed := q.passedOver;
    assert other !in q.queueServers ==> other in missed || !AnyEligible(other, files, files);
    Remaining(q, lucky, files);
    NoFewer(files, q.asked[lucky]);
  }

  method PassOver(q: UdpQueue, ghost lucky: Server, ghost other: Server, files: set<File>)
    requires lucky != other && ForAnyone(files) && |files| == MAX_REQUESTS_PER_SERVER && TurnOf(q, lucky, other, files, MAX_REQUESTS_PER_SERVER)
    modifies q
    ensures !q.active && q.asked == map[lucky := files] && q.passedOver == {other}
  {
    EveryFileEligible(files);
    Remaining(q, lucky, files);
    hide Eligible, AnyEligible, UdpQueue.Shares, UdpQueue.Thorough, UdpQueue.Served, UdpQueue.AllServed;
    EqualSize(q.asked[lucky], files);
    ghost var first;
    var sent;
    sent, first := q.SendNextUDPPacket(files, None, true);
    NothingSent(sent, files);
  }

  /** The turn of `other` begins with the files that `lucky` has left. */
  method NextTurn(q: UdpQueue, ghost lucky: Server, ghost other: Server, files: set<File>) returns (packet: seq<File>)
    requires lucky != other && other.getSources && ForAnyone(files) && TurnOf(q, lucky, other, files, MAX_REQUESTS_PER_SERVER)
    requires q.queueFiles != {}
    modifies q
    ensures Elements(packet) <= old(q.queueFiles) && |Elements(packet)| == |packet| && (q.udpserver.Some? ==> |packet| == MAX_FILES_PER_UDP_PACKET)
    ensures q.asked == map[lucky := old(q.asked)[lucky], other := Elements(packet)]
    ensures q.files == files && q.queueServers == {} && q.Shares(files)
    ensures other in q.begun && other !in q.cut && q.begun[other] == old(q.queueFiles)
  {
    EveryFileEligible(files);
    assert AnyEligible(other, q.queueFiles, files) && q.asked == map[lucky := q.asked[lucky]];
    hide Eligible, AnyEligible, ForAnyone, UdpQueue.Shares, UdpQueue.Thorough, UdpQueue.AllServed;
    ghost var first;
    var sent;
    sent, first := q.SendNextUDPPacket(files, None, true);
    assert first == Some(other);
    packet := sent.value.1;
  }

  method AskForRest(q: UdpQueue, ghost lucky: Server, ghost other: Server, files: set<File>)
    requires lucky != other && other.getSources && ForAnyone(files) && TurnOf(q, lucky, other, files, MAX_REQUESTS_PER_SERVER)
    requires MAX_REQUESTS_PER_SERVER < |files| < MAX_REQUESTS_PER_SERVER + MAX_FILES_PER_UDP_PACKET
    modifies q
    ensures q.queueServers == {} && q.udpserver.None?
    ensures q.asked == map[lucky := old(q.asked)[lucky], other := files - old(q.asked)[lucky]]
  {
    Remaining(q, lucky, files);
    SplitSize(files, q.asked[lucky]);
    ghost var left := q.queueFiles;
    assert left == files - q.asked[lucky] && |left| < MAX_FILES_PER_UDP_PACKET;
    hide UdpQueue.Shares;
    var packet := NextTurn(q, lucky, other, files);
    NoFewer(Elements(packet), left);
    SharedOut(q, other, files);
    AskedOne(q.asked, other, Elements(packet));
  }

  lemma AskedOne(asked: map<Server, set<File>>, s: Server, fs: set<File>)
    requires s in asked && asked[s] == fs
    ensures AskedOf(asked, s) == fs
  {
  }

  /**
   * It happens: with any two servers that take several files, and any 35 files to ask them about, the first gets
   * all of them in two packets, and the second is then passed over and never asked about any.
   */
  method TwoServers(a: Server, b: Server, files: set<File>) returns (q: UdpQueue, ghost lucky: Server, ghost other: Server)
    requires a != b && a.getSources && b.getSources && ForAnyone(files) && |files| == MAX_REQUESTS_PER_SERVER
    ensures fresh(q) && {lucky, other} == {a, b} && lucky != other
    ensures !q.active && q.asked == map[lucky := files] && q.passedOver == {other}
  {
    q, lucky, other := FirstPacket(a, b, files);
    SecondPacket(q, lucky, other, files);
    PassOver(q, lucky, other, files);
  }

  /**
   * And with a few files more, the second server is asked only about what the first has left over: its turn is then
   * over, though there were 35 other files to ask it about.
   */
  method LeftOver(a: Server, b: Server, files: set<File>) returns (q: UdpQueue, ghost lucky: Server, ghost other: Server)
    requires a != b && a.getSources && b.getSources && ForAnyone(files)
    requires MAX_REQUESTS_PER_SERVER < |files| < MAX_REQUESTS_PER_SERVER + MAX_FILES_PER_UDP_PACKET
    ensures fresh(q) && {lucky, other} == {a, b} && lucky != other && q.queueServers == {} && q.udpserver.None?
    ensures q.asked.Keys == {lucky, other} && |q.asked[lucky]| == MAX_REQUESTS_PER_SERVER && q.asked[other] == files - q.asked[lucky]
  {
    q, lucky, other := FirstPacket(a, b, files);
    SecondPacket(q, lucky, other, files);
    AskForRest(q, lucky, other, files);
  }

  lemma SplitSize<T>(a: set<T>, b: set<T>)
    requires b <= a
    ensures |a - b| == |a| - |b|
  {
    assert a == (a - b) + b;
  }

  lemma NoFewer<T>(a: set<T>, b: set<T>)
    ensures a <= b ==> |a| <= |b|
  {
    if a <= b {
      SubsetSize(a, b);
    }
  }

  lemma NothingSent(sent: Option<(Server, seq<File>)>, wanted: set<File>)
    ensures sent.Some? && sent.value.1 != [] ==> Elements(sent.value.1) != {}
    ensures sent.Some? && (forall f :: f in sent.value.1 ==> Eligible(sent.value.0, f, wanted)) ==> Elements(sent.value.1) <= wanted
  {
    if sent.Some? {
      PacketEmpty(sent.value.1);
    }
  }

  lemma PacketEmpty(packet: seq<File>)
    ensures packet == [] <==> Elements(packet) == {}
  {
    if packet != [] {
      assert packet[0] in Elements(packet);
    }
  }

  lemma {:induction false} SubsetSize<T>(a: set<T>, b: set<T>)
    requires a <= b
    ensures |a| <= |b|
  {
    if a != {} {
      var x :| x in a;
      SubsetSize(a - {x}, b - {x});
    }
  }

  lemma NotedOf(asked: map<Server, set<File>>, s: Server, packet: seq<File>, all: set<File>)
    ensures AskedOf(Noted(asked, s, packet), s) == AskedOf(asked, s) + Elements(packet)
    ensures AskedOf(asked, s) !! Elements(packet) ==> |AskedOf(Noted(asked, s, packet), s)| == |AskedOf(asked, s)| + |Elements(packet)|
    ensures forall t :: t != s ==> AskedOf(Noted(asked, s, packet), t) == AskedOf(asked, t)
    ensures forall t :: t in Noted(asked, s, packet) ==> t == s || (t in asked && Noted(asked, s, packet)[t] == asked[t])
    ensures s in Noted(asked, s, packet) && Noted(asked, s, packet)[s] == AskedOf(Noted(asked, s, packet), s)
    ensures Elements(packet) <= all && (forall t :: t in asked ==> asked[t] <= all) ==>
      forall t :: t in Noted(asked, s, packet) ==> Noted(asked, s, packet)[t] <= all
  {
  }
}
