/** CClientList's three indexes over the listed clients, kept in step while the clients' own fields change. */
module ClientRegistry {
  import opened Multimaps

  const HIGHEST_LOWID: nat := 16777216

  datatype Lifecycle = New | Listed | Dying

  /** A client's ID, IP and user hash; an IP or hash of 0 is none. */
  datatype Keys = Keys(id: nat, ip: nat, hash: nat)

  datatype Kind = ById | ByIp | ByHash

  /** Every client has an ID entry, whatever the ID; the other two indexes leave out clients without the key. */
  predicate HasKey(kind: Kind, x: Keys) {
    match kind case ById => true case ByIp => x.ip != 0 case ByHash => x.hash != 0
  }

  function Key(kind: Kind, x: Keys): nat {
    match kind case ById => x.id case ByIp => x.ip case ByHash => x.hash
  }

  /** The entries of `m` are, once each, those of the known clients that have a key of this kind. */
  ghost predicate Files(m: Multimap<Client>, kind: Kind, known: map<Client, Keys>)
    decreases |m|
  {
    if m == [] then forall c :: c in known ==> !HasKey(kind, known[c])
    else
      var (key, c) := m[0];
      c in known && HasKey(kind, known[c]) && Key(kind, known[c]) == key && Files(m[1..], kind, known - {c})
  }

  /** In plain words: exactly one entry for each client with a key, under that key, and none for any other. */
  lemma {:induction false} FiledEntries(m: Multimap<Client>, kind: Kind, known: map<Client, Keys>)
    requires Files(m, kind, known)
    ensures forall e :: e in m ==> e.1 in known && HasKey(kind, known[e.1]) && e.0 == Key(kind, known[e.1])
    ensures forall c :: c in known && HasKey(kind, known[c]) ==> multiset(m)[(Key(kind, known[c]), c)] == 1
    ensures kind == ById ==> |m| == |known|
    decreases |m|
  {
    if m != [] {
      var first := m[0].1;
      FiledEntries(m[1..], kind, known - {first});
      assert m == [m[0]] + m[1..];
      assert known.Keys == (known - {first}).Keys + {first};
      forall c | c in known && HasKey(kind, known[c])
        ensures multiset(m)[(Key(kind, known[c]), c)] == 1
      {
        assert c == first ==> m[0] !in m[1..];
      }
    } else if kind == ById {
      assert known.Keys == {};
    }
  }

  /** A range of an index is the known clients with that key: probing one key finds what a scan of all would. */
  lemma {:induction false} RangeIsScan(m: Multimap<Client>, kind: Kind, known: map<Client, Keys>, key: nat)
    requires Files(m, kind, known)
    ensures forall c :: c in EqualRange(m, key) ==> c in known && HasKey(kind, known[c]) && Key(kind, known[c]) == key
    ensures forall c :: c in known && HasKey(kind, known[c]) && Key(kind, known[c]) == key ==> c in EqualRange(m, key)
    decreases |m|
  {
    if m != [] {
      RangeIsScan(m[1..], kind, known - {m[0].1}, key);
    }
  }

  function Inserted(m: Multimap<Client>, kind: Kind, x: Keys, c: Client): Multimap<Client> {
    if HasKey(kind, x) then m + [(Key(kind, x), c)] else m
  }

  function Dropped(m: Multimap<Client>, kind: Kind, x: Keys, c: Client): Multimap<Client> {
    if HasKey(kind, x) then Erased(m, Key(kind, x), c) else m
  }

  lemma {:induction false} InsertKeeps(m: Multimap<Client>, kind: Kind, known: map<Client, Keys>, c: Client, x: Keys)
    requires Files(m, kind, known) && c !in known
    ensures Files(Inserted(m, kind, x, c), kind, known[c := x])
    decreases |m|
  {
    var r := Inserted(m, kind, x, c);
    if m == [] {
      if HasKey(kind, x) {
        assert r[1..] == [] && known[c := x] - {c} == known;
      }
    } else {
      var first := m[0].1;
      InsertKeeps(m[1..], kind, known - {first}, c, x);
      assert r[0] == m[0] && r[1..] == Inserted(m[1..], kind, x, c);
      assert (known - {first})[c := x] == known[c := x] - {first};
    }
  }

  lemma {:induction false} DropKeeps(m: Multimap<Client>, kind: Kind, known: map<Client, Keys>, c: Client)
    requires Files(m, kind, known) && c in known
    ensures Files(Dropped(m, kind, known[c], c), kind, known - {c})
    ensures HasKey(kind, known[c]) ==> (Key(kind, known[c]), c) in m && |Dropped(m, kind, known[c], c)| == |m| - 1
    decreases |m|
  {
    if m != [] {
      var first := m[0].1;
      if first != c {
        DropKeeps(m[1..], kind, known - {first}, c);
        var r := Dropped(m, kind, known[c], c);
        assert r[0] == m[0] && r[1..] == Dropped(m[1..], kind, known[c], c);
        assert known - {first} - {c} == known - {c} - {first};
      }
    }
  }

  /** A client whose key changes is moved; one whose key stays may stay. */
  lemma RekeyKeeps(m: Multimap<Client>, kind: Kind, known: map<Client, Keys>, c: Client, x: Keys)
    requires Files(m, kind, known) && c in known
    ensures Files(Inserted(Dropped(m, kind, known[c], c), kind, x, c), kind, known[c := x])
    ensures Key(kind, x) == Key(kind, known[c]) ==> Files(m, kind, known[c := x])
  {
    DropKeeps(m, kind, known, c);
    InsertKeeps(Dropped(m, kind, known[c], c), kind, known - {c}, c, x);
    assert (known - {c})[c := x] == known[c := x];
    if Key(kind, x) == Key(kind, known[c]) {
      SameKeyStays(m, kind, known, c, x);
    }
  }

  lemma {:induction false} SameKeyStays(m: Multimap<Client>, kind: Kind, known: map<Client, Keys>, c: Client, x: Keys)
    requires Files(m, kind, known) && c in known && Key(kind, x) == Key(kind, known[c])
    ensures Files(m, kind, known[c := x])
    decreases |m|
  {
    if m != [] {
      var first := m[0].1;
      if first == c {
        assert known[c := x] - {c} == known - {c};
      } else {
        SameKeyStays(m[1..], kind, known - {first}, c, x);
        assert (known - {first})[c := x] == known[c := x] - {first};
      }
    }
  }

  /** A client that is not known has no entry to remove. */
  lemma {:induction false} NotFiled(m: Multimap<Client>, kind: Kind, known: map<Client, Keys>, c: Client, key: nat)
    requires Files(m, kind, known) && c !in known
    ensures (key, c) !in m && Erased(m, key, c) == m
    decreases |m|
  {
    if m != [] {
      NotFiled(m[1..], kind, known - {m[0].1}, c, key);
      assert m == [m[0]] + m[1..];
    }
  }

  /** A new client is filed in each index whose key it has. */
  lemma FiledEverywhere(
      byId: Multimap<Client>, byIp: Multimap<Client>, byHash: Multimap<Client>, known: map<Client, Keys>, c: Client, x: Keys)
    requires Files(byId, ById, known) && Files(byIp, ByIp, known) && Files(byHash, ByHash, known) && c !in known
    ensures Files(byId + [(x.id, c)], ById, known[c := x])
    ensures Files(if x.ip != 0 then byIp + [(x.ip, c)] else byIp, ByIp, known[c := x])
    ensures Files(if x.hash != 0 then byHash + [(x.hash, c)] else byHash, ByHash, known[c := x])
  {
    InsertKeeps(byId, ById, known, c, x);
    InsertKeeps(byIp, ByIp, known, c, x);
    InsertKeeps(byHash, ByHash, known, c, x);
    hide Files;
  }

  lemma FirstFiled(m: Multimap<Client>, known: map<Client, Keys>)
    requires Files(m, ById, known)
    ensures m == [] ==> known == map[]
    ensures m != [] ==> m[0].1 in known && m[0].0 == known[m[0].1].id
  {
    EveryoneHasId(known);
  }

  lemma EveryoneHasId(known: map<Client, Keys>)
    ensures forall c :: c in known ==> HasKey(ById, known[c])
  {
  }

  lemma NoneFiled(known: map<Client, Keys>)
    ensures known == map[] ==> Files([], ById, known) && Files([], ByIp, known) && Files([], ByHash, known)
  {
  }

  /** The fields of CUpDownClient that identify it. A hash of 0 is the empty hash. */
  class Client {
    var id: nat
    var ip: nat
    var hash: nat
    var hasValidHash: bool
    const port: nat
    const kadPort: nat
    const serverIP: nat
    const serverPort: nat
    var state: Lifecycle

    constructor (port: nat, kadPort: nat, serverIP: nat, serverPort: nat)
      ensures state.New? && id == ip == hash == 0 && !hasValidHash
      ensures this.port == port && this.kadPort == kadPort && this.serverIP == serverIP && this.serverPort == serverPort
    {
      this.port, this.kadPort, this.serverIP, this.serverPort := port, kadPort, serverIP, serverPort;
      id, ip, hash, hasValidHash, state := 0, 0, 0, false, New;
    }

    /** What the registry files this client by. */
    function Ident(): Keys
      reads this
    {
      Keys(id, ip, if hasValidHash then hash else 0)
    }

    predicate HasLowID()
      reads this
    {
      id < HIGHEST_LOWID
    }
  }

  lemma ErasedStep(m: Multimap<Client>, i: nat, key: nat, c: Client)
    requires i < |m|
    ensures m[..i] + Erased(m[i..], key, c) == if m[i] == (key, c) then m[..i] + m[i + 1..] else m[..i + 1] + Erased(m[i + 1..], key, c)
  {
    assert m[i..][1..] == m[i + 1..] && m[..i + 1] == m[..i] + [m[i]];
  }

  class ClientList {
    var byId: Multimap<Client>
    var byIp: Multimap<Client>
    var byHash: Multimap<Client>
    ghost var known: map<Client, Keys>  // the listed clients, and what they are filed under

    constructor ()
      ensures Valid() && known == map[] && byId == []
    {
      byId, byIp, byHash, known := [], [], [], map[];
    }

    /**
     * Each listed client has exactly one entry under its current ID, exactly one under its IP if that is
     * nonzero, exactly one under its hash if that is valid; no other client has any entry.
     */
    ghost predicate Valid()
      reads this, known.Keys
    {
      && Files(byId, ById, known) && Files(byIp, ByIp, known) && Files(byHash, ByHash, known)
      && UpToDate()
    }

    ghost predicate UpToDate()
      reads this, known.Keys
    {
      forall c :: c in known ==> known[c] == c.Ident() && c.state.Listed? && c.hasValidHash == (c.hash != 0)
    }

    /** What a caller's client may be: one that says it is listed is one of this list's. */
    ghost predicate Known(client: Client)
      reads this, client
    {
      (client.state.Listed? <==> client in known) && client.hasValidHash == (client.hash != 0)
    }

    method AddClient(toadd: Client)
      requires Valid() && Known(toadd)
      modifies this, toadd`state
      ensures Valid() && toadd.Ident() == old(toadd.Ident())
      ensures known == if old(toadd.state).New? then old(known)[toadd := toadd.Ident()] else old(known)
      ensures toadd.state == if old(toadd.state).New? then Listed else old(toadd.state)
    {
      hide Files, HasKey, Key;
      if toadd.state.New? {
        FiledEverywhere(byId, byIp, byHash, known, toadd, toadd.Ident());
        toadd.state := Listed;
        byId := byId + [(toadd.id, toadd)];
        if toadd.ip != 0 {
          byIp := byIp + [(toadd.ip, toadd)];
        }
        if toadd.hasValidHash {
          byHash := byHash + [(toadd.hash, toadd)];
        }
        known := known[toadd := toadd.Ident()];
      }
    }

    /** The loop that the three Remove...FromList share: scan the range of `key` and erase the first entry of `client`. */
    static method EraseFrom(m: Multimap<Client>, key: nat, client: Client) returns (rest: Multimap<Client>, found: bool)
      ensures rest == Erased(m, key, client) && found == ((key, client) in m)
    {
      var i := 0;
      while i < |m|
        invariant 0 <= i <= |m| && (key, client) !in m[..i]
        invariant Erased(m, key, client) == m[..i] + Erased(m[i..], key, client)
      {
        ErasedStep(m, i, key, client);
        if m[i].0 == key && m[i].1 == client {
          return m[..i] + m[i + 1..], true;
        }
        i := i + 1;
      }
      assert m[..i] == m && m[i..] == [];
      rest, found := m, false;
    }

    method RemoveIDFromList(client: Client) returns (found: bool)
      modifies this`byId
      ensures byId == Dropped(old(byId), ById, client.Ident(), client) && found == ((client.id, client) in old(byId))
    {
      byId, found := EraseFrom(byId, client.id, client);
    }

    method RemoveIPFromList(client: Client)
      modifies this`byIp
      ensures byIp == Dropped(old(byIp), ByIp, client.Ident(), client)
    {
      if client.ip == 0 {
        return;
      }
      var found;
      byIp, found := EraseFrom(byIp, client.ip, client);
    }

    method RemoveHashFromList(client: Client)
      requires client.hasValidHash == (client.hash != 0)
      modifies this`byHash
      ensures byHash == Dropped(old(byHash), ByHash, client.Ident(), client)
    {
      if !client.hasValidHash {
        return;
      }
      var found;
      byHash, found := EraseFrom(byHash, client.hash, client);
    }

    /** Called before the client's own ID changes: the index runs ahead of the field by this one client. */
    method UpdateClientID(client: Client, newID: nat)
      requires Valid() && Known(client)
      modifies this`byId
      ensures Files(byId, ById, if client in known then known[client := client.Ident().(id := newID)] else known)
    {
      if client in known {
        RekeyKeeps(byId, ById, known, client, client.Ident().(id := newID));
      }
      if client.state != Listed || client.id == newID {
        return;
      }
      var found := RemoveIDFromList(client);
      byId := byId + [(newID, client)];
    }

    method UpdateClientIP(client: Client, newIP: nat)
      requires Valid() && Known(client)
      modifies this`byIp
      ensures Files(byIp, ByIp, if client in known then known[client := client.Ident().(ip := newIP)] else known)
    {
      if client in known {
        RekeyKeeps(byIp, ByIp, known, client, client.Ident().(ip := newIP));
      }
      if client.state != Listed || client.ip == newIP {
        return;
      }
      RemoveIPFromList(client);
      if newIP != 0 {
        byIp := byIp + [(newIP, client)];
      }
    }

    method UpdateClientHash(client: Client, newHash: nat)
      requires Valid() && Known(client)
      modifies this`byHash
      ensures Files(byHash, ByHash, if client in known then known[client := client.Ident().(hash := newHash)] else known)
    {
      if client in known {
        RekeyKeeps(byHash, ByHash, known, client, client.Ident().(hash := newHash));
      }
      if client.state != Listed || client.hash == newHash {
        return;
      }
      RemoveHashFromList(client);
      if newHash != 0 {
        byHash := byHash + [(newHash, client)];
      }
    }

    /** CUpDownClient::SetUserIDHybrid. */
    method SetUserIDHybrid(client: Client, id: nat)
      requires Valid() && Known(client)
      modifies this`byId, this`known, client`id
      ensures Valid() && Known(client) && client.Ident() == old(client.Ident()).(id := id)
      ensures known == if client in old(known) then old(known)[client := client.Ident()] else old(known)
    {
      hide Files;
      UpdateClientID(client, id);
      client.id := id;
      if client in known {
        RekeyKeeps(byIp, ByIp, known, client, client.Ident());
        RekeyKeeps(byHash, ByHash, known, client, client.Ident());
        known := known[client := client.Ident()];
      }
    }

    /** CUpDownClient::SetIP. */
    method SetIP(client: Client, ip: nat)
      requires Valid() && Known(client)
      modifies this`byIp, this`known, client`ip
      ensures Valid() && Known(client) && client.Ident() == old(client.Ident()).(ip := ip)
      ensures known == if client in old(known) then old(known)[client := client.Ident()] else old(known)
    {
      hide Files;
      UpdateClientIP(client, ip);
      client.ip := ip;
      if client in known {
        RekeyKeeps(byId, ById, known, client, client.Ident());
        RekeyKeeps(byHash, ByHash, known, client, client.Ident());
        known := known[client := client.Ident()];
      }
    }

    /** CUpDownClient::SetUserHash, with the validity flag that ValidateHash sets. */
    method SetUserHash(client: Client, hash: nat)
      requires Valid() && Known(client)
      modifies this`byHash, this`known, client`hash, client`hasValidHash
      ensures Valid() && Known(client) && client.Ident() == old(client.Ident()).(hash := hash)
      ensures known == if client in old(known) then old(known)[client := client.Ident()] else old(known)
    {
      hide Files;
      UpdateClientHash(client, hash);
      client.hash := hash;
      client.hasValidHash := hash != 0;
      if client in known {
        RekeyKeeps(byId, ById, known, client, client.Ident());
        RekeyKeeps(byIp, ByIp, known, client, client.Ident());
        known := known[client := client.Ident()];
      }
    }

    /** Only a client found by ID is looked for in the other two indexes. */
    method RemoveClient(client: Client)
      requires client.hasValidHash == (client.hash != 0)
      modifies this`byId, this`byIp, this`byHash
      ensures byId == Dropped(old(byId), ById, client.Ident(), client)
      ensures (client.id, client) in old(byId) ==>
        byIp == Dropped(old(byIp), ByIp, client.Ident(), client) && byHash == Dropped(old(byHash), ByHash, client.Ident(), client)
      ensures (client.id, client) !in old(byId) ==> byIp == old(byIp) && byHash == old(byHash)
    {
      var found := RemoveIDFromList(client);
      if found {
        RemoveIPFromList(client);
        RemoveHashFromList(client);
      }
    }

    /** CUpDownClient::Safe_Delete, as far as the registry sees it. */
    method SafeDelete(client: Client)
      requires Valid() && Known(client)
      modifies this, client`state
      ensures Valid() && known == old(known) - {client} && client.state.Dying?
    {
      if client.state.Dying? {
        return;
      }
      if client in known {
        DropKeeps(byId, ById, known, client);
        DropKeeps(byIp, ByIp, known, client);
        DropKeeps(byHash, ByHash, known, client);
      } else {
        NotFiled(byId, ById, known, client, client.id);
        assert known - {client} == known;
      }
      client.state := Dying;
      RemoveClient(client);
      known := known - {client};
    }

    /** The indexes by IP and hash go first, the clients after: it ends, with all three empty and every client dying. */
    method DeleteAll()
      requires Valid()
      modifies this, known.Keys`state
      ensures byId == [] && byIp == [] && byHash == [] && known == map[] && Valid()
      ensures forall c :: c in old(known) ==> c.state.Dying?
    {
      hide Files;
      byIp := [];
      byHash := [];
      while byId != []
        invariant known.Keys <= old(known).Keys && UpToDate()
        invariant Files(byId, ById, known) && byIp == [] && byHash == []
        invariant forall c :: c in old(known).Keys - known.Keys ==> c.state.Dying?
        decreases |byId|
      {
        var client := byId[0].1;
        FirstFiled(byId, known);
        DropKeeps(byId, ById, known, client);
        client.state := Dying;
        RemoveClient(client);
        known := known - {client};
      }
      FirstFiled(byId, known);
      NoneFiled(known);
    }

    /** The ways in which `other` can be the same peer as `client`, best first. */
    ghost predicate Matches(rank: nat, client: Client, other: Client)
      reads client, other
    {
      var sameIp := client.ip != 0 && other.ip == client.ip;
      var sameId := client.id != 0 && other.id == client.id;
      var samePort := client.port != 0 && other.port == client.port;
      var sameKadPort := client.kadPort != 0 && other.kadPort == client.kadPort;
      match rank
      case 0 => sameIp && (samePort || (client.HasLowID() && sameKadPort))
      case 1 => !client.HasLowID() && sameIp && sameKadPort
      case 2 => !client.HasLowID() && sameId && samePort
      case 3 => !client.HasLowID() && sameId && sameKadPort
      case 4 => client.HasLowID() && sameId && client.serverIP != 0 && client.serverPort != 0
                && other.serverIP == client.serverIP && other.serverPort == client.serverPort
      case 5 => client.hasValidHash && other.hasValidHash && other.hash == client.hash
      case _ => false
    }

    /** `r` matches, and no listed client matches better. */
    ghost predicate BestMatch(client: Client, r: Client)
      reads this, known.Keys, client, r
    {
      exists k: nat :: Matches(k, client, r) && NoMatchBelow(k, client)
    }

    /** The clients of a range that have the wanted port, the first of them. */
    static method FirstWithPort(range: seq<Client>, port: nat, kadPort: nat) returns (r: Client?)
      ensures r != null ==> r in range && ((port != 0 && r.port == port) || (kadPort != 0 && r.kadPort == kadPort))
      ensures r == null ==> forall c :: c in range ==> !((port != 0 && c.port == port) || (kadPort != 0 && c.kadPort == kadPort))
    {
      var i := 0;
      while i < |range|
        invariant 0 <= i <= |range|
        invariant forall c :: c in range[..i] ==> !((port != 0 && c.port == port) || (kadPort != 0 && c.kadPort == kadPort))
      {
        if (port != 0 && range[i].port == port) || (kadPort != 0 && range[i].kadPort == kadPort) {
          return range[i];
        }
        i := i + 1;
      }
      r := null;
    }

    static method FirstOnServer(range: seq<Client>, serverIP: nat, serverPort: nat) returns (r: Client?)
      ensures r != null ==> r in range && r.serverIP == serverIP && r.serverPort == serverPort
      ensures r == null ==> forall c :: c in range ==> !(c.serverIP == serverIP && c.serverPort == serverPort)
    {
      var i := 0;
      while i < |range|
        invariant 0 <= i <= |range|
        invariant forall c :: c in range[..i] ==> !(c.serverIP == serverIP && c.serverPort == serverPort)
      {
        if range[i].serverIP == serverIP && range[i].serverPort == serverPort {
          return range[i];
        }
        i := i + 1;
      }
      r := null;
    }

    /** FindMatchingClient's branch for a firewalled client: address and port, then server. */
    method FindLowID(client: Client) returns (r: Client?)
      requires Valid() && client.HasLowID()
      ensures r == null ==> NoMatchBelow(5, client)
      ensures r != null ==> r in known && BestMatch(client, r)
    {
      r := null;
      if client.ip != 0 && (client.port != 0 || client.kadPort != 0) {
        RangeIsScan(byIp, ByIp, known, client.ip);
        r := FirstWithPort(EqualRange(byIp, client.ip), client.port, client.kadPort);
        if r != null {
          assert Matches(0, client, r);
          return;
        }
      }
      assert NoMatchBelow(4, client);
      if client.id != 0 && client.serverIP != 0 && client.serverPort != 0 {
        RangeIsScan(byId, ById, known, client.id);
        r := FirstOnServer(EqualRange(byId, client.id), client.serverIP, client.serverPort);
        if r != null {
          assert Matches(4, client, r);
        }
      }
    }

    /** Its branch for the others: by IP and then by ID, with the client port before the Kad port. */
    method FindHighID(client: Client) returns (r: Client?)
      requires Valid() && !client.HasLowID()
      ensures r == null ==> NoMatchBelow(5, client)
      ensures r != null ==> r in known && BestMatch(client, r)
    {
      r := null;
      var i := 0;
      while i < 2
        invariant 0 <= i <= 2 && r == null
        invariant NoMatchBelow(2 * i, client)
      {
        var value := if i == 0 then client.ip else client.id;
        if value != 0 {
          RangeIsScan(if i == 0 then byIp else byId, if i == 0 then ByIp else ById, known, value);
          var range := EqualRange(if i == 0 then byIp else byId, value);
          if client.port != 0 {
            r := FirstWithPort(range, client.port, 0);
            if r != null {
              assert Matches(2 * i, client, r);
              return;
            }
          }
          assert NoMatchBelow(2 * i + 1, client);
          if client.kadPort != 0 {
            r := FirstWithPort(range, 0, client.kadPort);
            if r != null {
              assert Matches(2 * i + 1, client, r);
              return;
            }
          }
        }
        i := i + 1;
      }
    }

    ghost predicate NoMatchBelow(rank: nat, client: Client)
      reads this, known.Keys, client
    {
      forall c, j: nat :: c in known && j < rank ==> !Matches(j, client, c)
    }

    /**
     * Though it only probes ranges of the indexes, it finds a client exactly when a scan of all listed
     * clients would, and one whose match no listed client betters.
     */
    method FindMatchingClient(client: Client) returns (r: Client?)
      requires Valid()
      ensures r == null <==> forall c, k: nat :: c in known ==> !Matches(k, client, c)
      ensures r != null ==> r in known && BestMatch(client, r)
    {
      r := null;
      if client.HasLowID() {
        r := FindLowID(client);
      } else if client.port != 0 || client.kadPort != 0 {
        r := FindHighID(client);
      }
      if r != null {
        return;
      }
      assert NoMatchBelow(5, client);
      if client.hasValidHash {
        RangeIsScan(byHash, ByHash, known, client.hash);
        var range := EqualRange(byHash, client.hash);
        if range != [] {
          r := range[0];
          assert r in range && Matches(5, client, r);
        }
      }
    }
  }
}
