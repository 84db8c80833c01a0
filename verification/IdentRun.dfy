/** Any number of honest clients and an adversary who carries, forges and reorders every packet between them. */
module IdentRun {
  import opened Bytes
  import opened Options
  import opened IdentModel

  /** A client: its connections, each with the user it claims to be, and the credit records of all users. */
  datatype Node = Node(own: Own, sessions: map<nat, (nat, Session)>, credits: map<nat, Credits>)
  {
    predicate Has(session: nat) { session in sessions && sessions[session].0 in credits }
  }

  /** Why a credit record counts as identified. */
  datatype Proof = Proof(key: Key, ip: uint32, challenge: uint32, challengeIp: uint32, kind: byte)

  /**
   * `issued` are the challenges sent for a record, each with the signatures that existed when it was first sent;
   * `signed` is every signature ever made, and `acts` those made by clients.
   */
  datatype World = World(
    nodes: map<nat, Node>, issued: map<(nat, nat, uint32), set<Statement>>, signed: set<Statement>, acts: set<(nat, Statement)>,
    proofs: map<(nat, nat), Proof>)

  datatype Packet = SecIdentState(value: nat, random: uint32) | PublicKey(bytes: seq<byte>) | Signature(bytes: seq<byte>)

  datatype Step =
    | Deliver(node: nat, session: nat, packet: Packet, valid: bool)
    | SendState(node: nat, session: nat, random: uint32)
    | SendKey(node: nat, session: nat)
    | SendSignature(node: nat, session: nat)
    | Transfer(node: nat, session: nat, down: nat, up: nat)
    | Connect(node: nat, session: nat, user: nat, initial: Session)
    | MoveTo(node: nat, session: nat, ip: uint32)
    | Renumber(node: nat, lowId: bool, ed2kId: uint32, publicIp: uint32, localIp: uint32)
    | Forge(st: Statement)

  function Stored(n: Node, session: nat, s: Session, c: Credits): Node
    requires n.Has(session)
  {
    var user := n.sessions[session].0;
    n.(sessions := n.sessions[session := (user, s)], credits := n.credits[user := c])
  }

  function Put(w: World, node: nat, session: nat, s: Session, c: Credits, made: Option<Statement>): World
    requires node in w.nodes && w.nodes[node].Has(session)
  {
    w.(nodes := w.nodes[node := Stored(w.nodes[node], session, s, c)],
       signed := if made.Some? then w.signed + {made.value} else w.signed,
       acts := if made.Some? then w.acts + {(node, made.value)} else w.acts)
  }

  /** Whether the signature in the packet verifies: only if its message was signed with that key, whatever the packet's bytes. */
  ghost predicate Valid(w: World, own: Own, s: Session, c: Credits, bytes: seq<byte>) {
    Examined(own, s, c, bytes) && Verifies(w.signed, c.key, Expected(own, s, c, Kind(s, bytes).value))
  }

  /** A key of an honest client signs only what that client signs. */
  ghost predicate Foreign(w: World, key: Key) { forall n :: n in w.nodes ==> w.nodes[n].own.key != key }

  ghost function Apply(w: World, step: Step): World {
    match step
    case Forge(st) => if Foreign(w, st.signer) then w.(signed := w.signed + {st}) else w
    case Connect(node, session, user, initial) =>
      if node !in w.nodes || initial.lastSignatureIp != 0 then w
      else
        var n := w.nodes[node];
        var c := if user in n.credits then n.credits[user] else Fresh();
        w.(nodes := w.nodes[node := n.(sessions := n.sessions[session := (user, initial)], credits := n.credits[user := c])])
    case Renumber(node, lowId, ed2kId, publicIp, localIp) =>
      if node !in w.nodes then w
      else
        var n := w.nodes[node];
        w.(nodes := w.nodes[node := n.(own := Own(n.own.key, lowId, ed2kId, publicIp, localIp))])
    case _ =>
      if step.node in w.nodes && w.nodes[step.node].Has(step.session) then
        var (user, s) := w.nodes[step.node].sessions[step.session];
        Within(w, step, w.nodes[step.node].own, user, s, w.nodes[step.node].credits[user])
      else w
  }

  function Issued(w: World, k: (nat, nat, uint32)): map<(nat, nat, uint32), set<Statement>> {
    if k in w.issued then w.issued else w.issued[k := w.signed]
  }

  function Fresh(): Credits { Credits([], [], NotAvailable, 0, 0, 0, 0, 0) }

  /** A step of one connection. */
  ghost function Within(w: World, step: Step, own: Own, user: nat, s: Session, c: Credits): World
    requires !step.Forge? && !step.Connect? && !step.Renumber? && step.node in w.nodes && w.nodes[step.node].Has(step.session)
  {
    match step
    case MoveTo(node, session, ip) => Put(w, node, session, s.(ip := ip), c, None)
    case Deliver(node, session, SecIdentState(value, random), _) =>
      var (s', c') := OnSecIdentState(s, c, value, random);
      Put(w, node, session, s', c', None)
    case Deliver(node, session, PublicKey(bytes), _) =>
      var (s', c', made) := OnPublicKey(own, s, c, bytes);
      Put(w, node, session, s', c', made)
    case Deliver(node, session, Signature(bytes), valid) =>
      var ok := valid && Valid(w, own, s, c, bytes);
      var (s', c') := OnSignature(own, s, c, bytes, ok);
      var v := Put(w, node, session, s', c', None);
      if ok then
        var kind := Kind(s, bytes).value;
        v.(proofs := v.proofs[(node, user) := Proof(c.key, s.ip, c.challengeFor, ChallengeIp(own, kind, s.ip), kind)])
      else v
    case SendState(node, session, random) =>
      if Challenge(own, s, c) == 0 || random == 0 then w
      else Put(w, node, session, s, c.(challengeFor := random), None).(issued := Issued(w, (node, user, random)))
    case SendKey(node, session) =>
      if s.wish == KeyAndSignNeeded && own.key != [] then Put(w, node, session, s.(wish := SignatureNeeded), c, None) else w
    case SendSignature(node, session) =>
      Put(w, node, session, AfterSigning(own, s, c), c, SignatureFor(own, s, c))
    case Transfer(node, session, down, up) =>
      if Counts(c, s.ip, own.key != []) then
        Put(w, node, session, s, c.(downloaded := c.downloaded + down, uploaded := c.uploaded + up), None)
      else w
  }

  ghost function Run(w: World, steps: seq<Step>): World
    decreases |steps|
  {
    if steps == [] then w else Run(Apply(w, steps[0]), steps[1..])
  }

  // ---- Invariant ----

  ghost predicate ProofOk(w: World, node: nat, own: Own, user: nat, c: Credits, p: Proof) {
    && p.ip == c.identIp && p.key == c.stored && own.key != []
    && (node, user, p.challenge) in w.issued
    && Verifies(w.signed, p.key, Message(own.key, p.challenge, p.challengeIp, p.kind))
    && (p.kind == CRYPT_CIP_LOCALCLIENT ==> p.challengeIp == p.ip)
  }

  /** The verified key is the one in use; a challenge was sent; an identified user has a proof. */
  ghost predicate CreditsOk(w: World, node: nat, own: Own, user: nat, c: Credits) {
    && (c.stored != [] ==> c.key == c.stored)
    && |c.key| <= MAXPUBKEYSIZE
    && c.ident != IdBadGuy
    && (c.challengeFor != 0 ==> (node, user, c.challengeFor) in w.issued)
    && (c.ident == Identified ==> c.stored != [] && (node, user) in w.proofs && ProofOk(w, node, own, user, c, w.proofs[(node, user)]))
  }

  ghost predicate NodeOk(w: World, node: nat, n: Node) {
    forall user :: user in n.credits ==> CreditsOk(w, node, n.own, user, n.credits[user])
  }

  /** Whatever was signed with an honest client's key, that client signed. */
  ghost predicate HonestKeys(w: World) {
    forall st, n :: st in w.signed && n in w.nodes && w.nodes[n].own.key == st.signer ==>
      exists m :: (m, st) in w.acts && m in w.nodes && w.nodes[m].own.key == st.signer
  }

  ghost predicate Inv(w: World) {
    && (forall n :: n in w.nodes ==> NodeOk(w, n, w.nodes[n]))
    && HonestKeys(w)
  }

  /** Later worlds know more signatures and challenges, and the same proofs of this user. */
  ghost predicate Later(w: World, v: World, node: nat, user: nat) {
    && w.issued.Keys <= v.issued.Keys && w.signed <= v.signed
    && ((node, user) in w.proofs ==> (node, user) in v.proofs && v.proofs[(node, user)] == w.proofs[(node, user)])
  }

  lemma Persists(w: World, v: World, node: nat, own: Own, user: nat, c: Credits)
    requires CreditsOk(w, node, own, user, c) && Later(w, v, node, user)
    ensures CreditsOk(v, node, own, user, c)
  {
  }

  /** A step that changes one record of one node. */
  lemma RecordChanged(w: World, v: World, node: nat, session: nat, s: Session, c: Credits)
    requires Inv(w) && node in w.nodes && w.nodes[node].Has(session)
    requires v.nodes == w.nodes[node := Stored(w.nodes[node], session, s, c)]
    requires forall n, u :: n != node || u != w.nodes[node].sessions[session].0 ==> Later(w, v, n, u)
    requires CreditsOk(v, node, w.nodes[node].own, w.nodes[node].sessions[session].0, c) && HonestKeys(v)
    ensures Inv(v)
  {
    hide CreditsOk, HonestKeys, Later;
    forall n | n in v.nodes ensures NodeOk(v, n, v.nodes[n]) {
      assert n in w.nodes && NodeOk(w, n, w.nodes[n]);
      forall user | user in v.nodes[n].credits ensures CreditsOk(v, n, v.nodes[n].own, user, v.nodes[n].credits[user]) {
        if n != node || user != w.nodes[node].sessions[session].0 {
          Persists(w, v, n, w.nodes[n].own, user, w.nodes[n].credits[user]);
        }
      }
    }
  }

  /** Same signatures, or one more that the node itself made. */
  lemma StillHonest(w: World, v: World, node: nat, made: Option<Statement>)
    requires HonestKeys(w) && node in w.nodes && w.nodes.Keys == v.nodes.Keys
    requires forall n :: n in w.nodes ==> v.nodes[n].own.key == w.nodes[n].own.key
    requires made.Some? ==> made.value.signer == w.nodes[node].own.key
    requires v.signed == if made.Some? then w.signed + {made.value} else w.signed
    requires v.acts == if made.Some? then w.acts + {(node, made.value)} else w.acts
    ensures HonestKeys(v)
  {
    forall st, n | st in v.signed && n in v.nodes && v.nodes[n].own.key == st.signer
      ensures exists m :: (m, st) in v.acts && m in v.nodes && v.nodes[m].own.key == st.signer
    {
      if st in w.signed {
        assert w.nodes[n].own.key == st.signer;
        var m :| (m, st) in w.acts && m in w.nodes && w.nodes[m].own.key == st.signer;
        assert (m, st) in v.acts && v.nodes[m].own.key == st.signer;
      } else {
        assert (node, st) in v.acts && v.nodes[node].own.key == st.signer;
      }
    }
  }

  /** A record that keeps its keys, its identification and its challenge, or gives up the identification. */
  ghost predicate Unproved(c: Credits, d: Credits) {
    && (d.stored != [] ==> d.key == d.stored) && |d.key| <= MAXPUBKEYSIZE && d.ident != IdBadGuy
    && d.challengeFor == c.challengeFor
    && (d.ident == Identified ==> c.ident == Identified && d.stored == c.stored && d.identIp == c.identIp)
  }

  lemma PutKeeps(w: World, node: nat, session: nat, s: Session, c: Credits, made: Option<Statement>)
    requires Inv(w) && node in w.nodes && w.nodes[node].Has(session)
    requires Unproved(w.nodes[node].credits[w.nodes[node].sessions[session].0], c)
    requires made.Some? ==> made.value.signer == w.nodes[node].own.key
    ensures Inv(Put(w, node, session, s, c, made))
  {
    var v := Put(w, node, session, s, c, made);
    var user := w.nodes[node].sessions[session].0;
    StillHonest(w, v, node, made);
    assert NodeOk(w, node, w.nodes[node]);
    hide HonestKeys, NodeOk;
    assert CreditsOk(w, node, w.nodes[node].own, user, w.nodes[node].credits[user]);
    Persists(w, v, node, w.nodes[node].own, user, w.nodes[node].credits[user]);
    assert CreditsOk(v, node, w.nodes[node].own, user, c);
    RecordChanged(w, v, node, session, s, c);
  }

  /** A signature that verifies: the record is identified, for this IP, on the strength of that signature. */
  lemma ProvedKeeps(w: World, node: nat, session: nat, bytes: seq<byte>)
    requires Inv(w) && node in w.nodes && w.nodes[node].Has(session)
    requires var (user, s) := w.nodes[node].sessions[session];
             Valid(w, w.nodes[node].own, s, w.nodes[node].credits[user], bytes)
    ensures Inv(Apply(w, Deliver(node, session, Signature(bytes), true)))
  {
    var (user, s) := w.nodes[node].sessions[session];
    var own, c := w.nodes[node].own, w.nodes[node].credits[user];
    var v := Apply(w, Deliver(node, session, Signature(bytes), true));
    var (s', c') := OnSignature(own, s, c, bytes, true);
    assert CreditsOk(w, node, own, user, c) by { assert NodeOk(w, node, w.nodes[node]); }
    StillHonest(w, v, node, None);
    hide HonestKeys, NodeOk, Verifies, Message;
    assert CreditsOk(v, node, own, user, c');
    RecordChanged(w, v, node, session, s', c');
  }

  lemma ChallengedKeeps(w: World, node: nat, session: nat, random: uint32)
    requires Inv(w) && node in w.nodes && w.nodes[node].Has(session)
    ensures Inv(Apply(w, SendState(node, session, random)))
  {
    var (user, s) := w.nodes[node].sessions[session];
    var own, c := w.nodes[node].own, w.nodes[node].credits[user];
    var v := Apply(w, SendState(node, session, random));
    assert CreditsOk(w, node, own, user, c) by { assert NodeOk(w, node, w.nodes[node]); }
    if Challenge(own, s, c) != 0 && random != 0 {
      StillHonest(w, v, node, None);
      hide HonestKeys, NodeOk, Verifies, Message;
      Persists(w, v, node, own, user, c);
      assert CreditsOk(v, node, own, user, c.(challengeFor := random));
      RecordChanged(w, v, node, session, s, c.(challengeFor := random));
    }
  }

  lemma ConnectKeeps(w: World, node: nat, session: nat, user: nat, initial: Session)
    requires Inv(w)
    ensures Inv(Apply(w, Connect(node, session, user, initial)))
  {
    var v := Apply(w, Connect(node, session, user, initial));
    if node in w.nodes && initial.lastSignatureIp == 0 {
      StillHonest(w, v, node, None);
      hide HonestKeys;
      forall n | n in v.nodes ensures NodeOk(v, n, v.nodes[n]) {
        assert NodeOk(w, n, w.nodes[n]);
        forall u | u in v.nodes[n].credits ensures CreditsOk(v, n, v.nodes[n].own, u, v.nodes[n].credits[u]) {
          if u in w.nodes[n].credits {
            Persists(w, v, n, w.nodes[n].own, u, w.nodes[n].credits[u]);
          }
        }
      }
    }
  }

  /** A client's own ID and addresses may change at any time; its key does not. */
  lemma RenumberKeeps(w: World, step: Step)
    requires Inv(w) && step.Renumber?
    ensures Inv(Apply(w, step))
  {
    var v := Apply(w, step);
    if step.node in w.nodes {
      StillHonest(w, v, step.node, None);
      hide HonestKeys;
      forall n | n in v.nodes ensures NodeOk(v, n, v.nodes[n]) {
        assert NodeOk(w, n, w.nodes[n]);
        forall u | u in v.nodes[n].credits ensures CreditsOk(v, n, v.nodes[n].own, u, v.nodes[n].credits[u]) {
          Persists(w, v, n, w.nodes[n].own, u, w.nodes[n].credits[u]);
        }
      }
    }
  }

  lemma ForgeKeeps(w: World, st: Statement)
    requires Inv(w)
    ensures Inv(Apply(w, Forge(st)))
  {
    var v := Apply(w, Forge(st));
    if Foreign(w, st.signer) {
      forall n | n in v.nodes ensures NodeOk(v, n, v.nodes[n]) {
        assert NodeOk(w, n, w.nodes[n]);
        forall u | u in v.nodes[n].credits ensures CreditsOk(v, n, v.nodes[n].own, u, v.nodes[n].credits[u]) {
          Persists(w, v, n, w.nodes[n].own, u, w.nodes[n].credits[u]);
        }
      }
    }
  }

  /** Every step of every participant keeps the invariant. */
  lemma StepKeepsInv(w: World, step: Step)
    requires Inv(w)
    ensures Inv(Apply(w, step))
  {
    match step
    case Forge(st) => ForgeKeeps(w, st);
    case Connect(node, session, user, initial) => ConnectKeeps(w, node, session, user, initial);
    case Renumber(node, _, _, _, _) => RenumberKeeps(w, step);
    case SendState(node, session, random) =>
      if node in w.nodes && w.nodes[node].Has(session) {
        ChallengedKeeps(w, node, session, random);
      }
    case _ =>
      if step.node in w.nodes && w.nodes[step.node].Has(step.session) {
        ConnectionKeeps(w, step);
      }
  }

  lemma DeliveryKeeps(w: World, node: nat, session: nat, packet: Packet, valid: bool)
    requires Inv(w) && node in w.nodes && w.nodes[node].Has(session)
    ensures Inv(Apply(w, Deliver(node, session, packet, valid)))
  {
    var (user, s) := w.nodes[node].sessions[session];
    var own, c := w.nodes[node].own, w.nodes[node].credits[user];
    assert CreditsOk(w, node, own, user, c) by { assert NodeOk(w, node, w.nodes[node]); }
    hide HonestKeys, NodeOk, ProofOk, Inv, Put, Valid;
    match packet
    case SecIdentState(value, random) =>
      var (s', c') := OnSecIdentState(s, c, value, random);
      PutKeeps(w, node, session, s', c', None);
    case PublicKey(bytes) =>
      var (s', c', made) := OnPublicKey(own, s, c, bytes);
      PutKeeps(w, node, session, s', c', made);
    case Signature(bytes) =>
      if valid && Valid(w, own, s, c, bytes) {
        ProvedKeeps(w, node, session, bytes);
      } else {
        var (s', c') := OnSignature(own, s, c, bytes, false);
        PutKeeps(w, node, session, s', c', None);
      }
  }

  lemma ConnectionKeeps(w: World, step: Step)
    requires Inv(w) && !step.Forge? && !step.Connect? && !step.Renumber? && !step.SendState?
    requires step.node in w.nodes && w.nodes[step.node].Has(step.session)
    ensures Inv(Apply(w, step))
  {
    var (user, s) := w.nodes[step.node].sessions[step.session];
    var own, c := w.nodes[step.node].own, w.nodes[step.node].credits[user];
    assert CreditsOk(w, step.node, own, user, c) by { assert NodeOk(w, step.node, w.nodes[step.node]); }
    hide HonestKeys, NodeOk, ProofOk, Inv, Put, Valid;
    match step
    case Deliver(node, session, packet, valid) => DeliveryKeeps(w, node, session, packet, valid);
    case MoveTo(node, session, ip) =>
      PutKeeps(w, node, session, s.(ip := ip), c, None);
    case SendKey(node, session) =>
      PutKeeps(w, node, session, s.(wish := SignatureNeeded), c, None);
    case SendSignature(node, session) =>
      PutKeeps(w, node, session, AfterSigning(own, s, c), c, SignatureFor(own, s, c));
    case Transfer(node, session, down, up) =>
      PutKeeps(w, node, session, s, c.(downloaded := c.downloaded + down, uploaded := c.uploaded + up), None);
  }

  /** A client's records as they are loaded: nobody is identified, no challenge has been sent and no signature made. */
  ghost predicate Initial(w: World) {
    && w.signed == {} && w.acts == {} && w.issued == map[]
    && forall n :: n in w.nodes ==> forall user :: user in w.nodes[n].credits ==>
      var c := w.nodes[n].credits[user]; |c.stored| <= MAXPUBKEYSIZE && InitalizeIdent(c) == c
  }

  lemma {:induction false} RunKeepsInv(w: World, steps: seq<Step>)
    requires Inv(w)
    ensures Inv(Run(w, steps))
    decreases |steps|
  {
    if steps != [] {
      StepKeepsInv(w, steps[0]);
      RunKeepsInv(Apply(w, steps[0]), steps[1..]);
    }
  }

  /**
   * `st` identifies the user at this IP: the owner of the stored key signed our key together with a challenge
   * that was sent to it, and with the IP and the kind in version 2. An honest owner did so itself.
   */
  ghost predicate Evidence(w: World, node: nat, user: nat, ip: uint32, st: Statement) {
    && node in w.nodes && user in w.nodes[node].credits && (node, user) in w.proofs
    && var c, own, p := w.nodes[node].credits[user], w.nodes[node].own, w.proofs[(node, user)];
    && c.key == c.stored == st.signer && p.ip == ip && own.key != []
    && st in w.signed && (node, user, p.challenge) in w.issued
    && Signed(st) == Message(own.key, p.challenge, p.challengeIp, p.kind)
    && (p.kind == CRYPT_CIP_LOCALCLIENT ==> p.challengeIp == ip)
    && (Foreign(w, st.signer) || exists m :: (m, st) in w.acts && m in w.nodes && w.nodes[m].own.key == st.signer)
  }

  /** In every run from loaded records, a user counts as identified at an IP only if there is such evidence. */
  lemma IdentifiedOnlyBySignature(w: World, steps: seq<Step>, node: nat, user: nat, ip: uint32)
    requires Initial(w)
    ensures var v := Run(w, steps);
            node in v.nodes && user in v.nodes[node].credits && GetCurrentIdentState(v.nodes[node].credits[user], ip) == Identified ==>
              exists st :: Evidence(v, node, user, ip, st)
  {
    assert Inv(w);
    RunKeepsInv(w, steps);
    var v := Run(w, steps);
    if node in v.nodes && user in v.nodes[node].credits && GetCurrentIdentState(v.nodes[node].credits[user], ip) == Identified {
      var c, own := v.nodes[node].credits[user], v.nodes[node].own;
      assert CreditsOk(v, node, own, user, c) by { assert NodeOk(v, node, v.nodes[node]); }
      var p := v.proofs[(node, user)];
      var st :| st in v.signed && st.signer == c.key && Signed(st) == Message(own.key, p.challenge, p.challengeIp, p.kind);
      assert Evidence(v, node, user, ip, st);
    }
  }

  // ---- What no step changes ----

  /** No client's key differs, and there are only more signatures and acts. */
  ghost predicate Grown(w: World, v: World) {
    && v.nodes.Keys == w.nodes.Keys && (forall n :: n in w.nodes ==> v.nodes[n].own.key == w.nodes[n].own.key)
    && w.signed <= v.signed && w.acts <= v.acts
  }

  lemma Frame(w: World, step: Step)
    ensures Grown(w, Apply(w, step))
    ensures var v := Apply(w, step);
            v.issued == w.issued || (step.SendState? && exists user :: v.issued == Issued(w, (step.node, user, step.random)))
  {
    match step
    case Forge(st) =>
    case Connect(node, session, user, initial) =>
    case Renumber(node, _, _, _, _) =>
    case _ =>
      if step.node in w.nodes && w.nodes[step.node].Has(step.session) {
        ConnectionFrame(w, step);
      }
  }

  lemma PutFrame(w: World, node: nat, session: nat, s: Session, c: Credits, made: Option<Statement>)
    requires node in w.nodes && w.nodes[node].Has(session)
    ensures Grown(w, Put(w, node, session, s, c, made)) && Put(w, node, session, s, c, made).issued == w.issued
  {
  }

  lemma ConnectionFrame(w: World, step: Step)
    requires !step.Forge? && !step.Connect? && !step.Renumber?
    requires step.node in w.nodes && w.nodes[step.node].Has(step.session)
    ensures Grown(w, Apply(w, step))
    ensures var v := Apply(w, step);
            v.issued == w.issued || (step.SendState? && exists user :: v.issued == Issued(w, (step.node, user, step.random)))
  {
    var (user, s) := w.nodes[step.node].sessions[step.session];
    var own, c := w.nodes[step.node].own, w.nodes[step.node].credits[user];
    hide Put, Valid, SignatureFor, AfterSigning, Challenge, Kind, ChallengeIp, Counts, Issued;
    hide OnSignature, OnSecIdentState, OnPublicKey;
    match step
    case Deliver(node, session, SecIdentState(value, random), _) =>
      var (s', c') := OnSecIdentState(s, c, value, random);
      PutFrame(w, node, session, s', c', None);
    case Deliver(node, session, PublicKey(bytes), _) =>
      var (s', c', made) := OnPublicKey(own, s, c, bytes);
      PutFrame(w, node, session, s', c', made);
    case Deliver(node, session, Signature(bytes), valid) =>
      var (s', c') := OnSignature(own, s, c, bytes, valid && Valid(w, own, s, c, bytes));
      PutFrame(w, node, session, s', c', None);
    case SendState(node, session, random) =>
      PutFrame(w, node, session, s, c.(challengeFor := random), None);
    case MoveTo(node, session, ip) =>
      PutFrame(w, node, session, s.(ip := ip), c, None);
    case SendKey(node, session) =>
      PutFrame(w, node, session, s.(wish := SignatureNeeded), c, None);
    case SendSignature(node, session) =>
      PutFrame(w, node, session, AfterSigning(own, s, c), c, SignatureFor(own, s, c));
    case Transfer(node, session, down, up) =>
      PutFrame(w, node, session, s, c.(downloaded := c.downloaded + down, uploaded := c.uploaded + up), None);
  }

  // ---- Where a user is identified ----

  ghost predicate IdentifiedAt(w: World, node: nat, user: nat, ip: uint32) {
    node in w.nodes && user in w.nodes[node].credits && GetCurrentIdentState(w.nodes[node].credits[user], ip) == Identified
  }

  /** The address from which the step delivers a signature that proves the user's identity, if it does. */
  ghost function ProofFrom(w: World, step: Step, node: nat, user: nat): Option<uint32> {
    if step.Deliver? && step.packet.Signature? && step.valid && step.node == node && node in w.nodes && w.nodes[node].Has(step.session) then
      var (u, s) := w.nodes[node].sessions[step.session];
      if u == user && Valid(w, w.nodes[node].own, s, w.nodes[node].credits[user], step.packet.bytes) then Some(s.ip) else None
    else None
  }

  ghost function LastProof(w: World, steps: seq<Step>, node: nat, user: nat): Option<uint32>
    decreases |steps|
  {
    if steps == [] then None
    else
      var later := LastProof(Apply(w, steps[0]), steps[1..], node, user);
      if later.Some? then later else ProofFrom(w, steps[0], node, user)
  }

  lemma StepMovesIdentity(w: World, step: Step, node: nat, user: nat, ip: uint32)
    requires Inv(w)
    ensures IdentifiedAt(Apply(w, step), node, user, ip) <==>
      var proof := ProofFrom(w, step, node, user); if proof.Some? then proof.value == ip else IdentifiedAt(w, node, user, ip)
  {
    hide Within, Valid, HonestKeys, NodeOk, CreditsOk;
    if !step.Forge? && !step.Connect? && !step.Renumber? && step.node in w.nodes && w.nodes[step.node].Has(step.session) {
      ConnectionMoves(w, step, node, user, ip);
    }
  }

  /** A record changes place only by a proof; an identified one takes no other key. */
  lemma ConnectionMoves(w: World, step: Step, node: nat, user: nat, ip: uint32)
    requires Inv(w) && !step.Forge? && !step.Connect? && !step.Renumber? && step.node in w.nodes && w.nodes[step.node].Has(step.session)
    ensures IdentifiedAt(Apply(w, step), node, user, ip) <==>
      var proof := ProofFrom(w, step, node, user); if proof.Some? then proof.value == ip else IdentifiedAt(w, node, user, ip)
  {
    var v, at, session := Apply(w, step), step.node, step.session;
    var (u, s) := w.nodes[at].sessions[session];
    var own, c := w.nodes[at].own, w.nodes[at].credits[u];
    assert c.ident == Identified ==> c.stored != [] by { assert NodeOk(w, at, w.nodes[at]); assert CreditsOk(w, at, own, u, c); }
    hide Put, Valid, Foreign, SignatureFor, AfterSigning, Challenge, Kind, ChallengeIp, CreditsOk, NodeOk, HonestKeys, Inv, Examined;
    match step
    case Deliver(_, _, SecIdentState(value, random), _) =>
      var (s', c') := OnSecIdentState(s, c, value, random);
      PutMoves(w, v, at, session, s', c', None, node, user, ip);
    case Deliver(_, _, PublicKey(bytes), _) =>
      var (s', c', made) := OnPublicKey(own, s, c, bytes);
      PutMoves(w, v, at, session, s', c', made, node, user, ip);
    case Deliver(_, _, Signature(bytes), valid) =>
      SignatureMoves(w, at, session, bytes, valid, node, user, ip);
    case MoveTo(_, _, to) =>
      PutMoves(w, v, at, session, s.(ip := to), c, None, node, user, ip);
    case SendState(_, _, random) =>
      if Challenge(own, s, c) != 0 && random != 0 {
        PutMoves(w, v, at, session, s, c.(challengeFor := random), None, node, user, ip);
      }
    case SendKey(_, _) =>
      if s.wish == KeyAndSignNeeded && own.key != [] {
        PutMoves(w, v, at, session, s.(wish := SignatureNeeded), c, None, node, user, ip);
      }
    case SendSignature(_, _) =>
      PutMoves(w, v, at, session, AfterSigning(own, s, c), c, SignatureFor(own, s, c), node, user, ip);
    case Transfer(_, _, down, up) =>
      if Counts(c, s.ip, own.key != []) {
        PutMoves(w, v, at, session, s, c.(downloaded := c.downloaded + down, uploaded := c.uploaded + up), None, node, user, ip);
      }
  }

  lemma SignatureMoves(w: World, at: nat, session: nat, bytes: seq<byte>, valid: bool, node: nat, user: nat, ip: uint32)
    requires at in w.nodes && w.nodes[at].Has(session)
    ensures var step := Deliver(at, session, Signature(bytes), valid);
            IdentifiedAt(Apply(w, step), node, user, ip) <==>
              var proof := ProofFrom(w, step, node, user); if proof.Some? then proof.value == ip else IdentifiedAt(w, node, user, ip)
  {
    var step := Deliver(at, session, Signature(bytes), valid);
    var (u, s) := w.nodes[at].sessions[session];
    var own, c := w.nodes[at].own, w.nodes[at].credits[u];
    var ok := valid && Valid(w, own, s, c, bytes);
    assert ok ==> Examined(own, s, c, bytes);
    hide Put, Valid, Kind, ChallengeIp, Examined;
    var (s', c') := OnSignature(own, s, c, bytes, ok);
    PutMoves(w, Apply(w, step), at, session, s', c', None, node, user, ip);
  }

  lemma PutMoves(w: World, v: World, at: nat, session: nat, s: Session, c: Credits, made: Option<Statement>, node: nat, user: nat, ip: uint32)
    requires at in w.nodes && w.nodes[at].Has(session) && v.nodes == Put(w, at, session, s, c, made).nodes
    ensures IdentifiedAt(v, node, user, ip) <==>
      if node == at && user == w.nodes[at].sessions[session].0 then GetCurrentIdentState(c, ip) == Identified else IdentifiedAt(w, node, user, ip)
  {
  }

  /** Over any run a user is identified at the address of the last proof and at no other; without one, where it was at the start. */
  lemma {:induction false} LatestProofDecides(w: World, steps: seq<Step>, node: nat, user: nat, ip: uint32)
    requires Inv(w)
    ensures IdentifiedAt(Run(w, steps), node, user, ip) <==>
      var proof := LastProof(w, steps, node, user); if proof.Some? then proof.value == ip else IdentifiedAt(w, node, user, ip)
    decreases |steps|
  {
    if steps != [] {
      StepKeepsInv(w, steps[0]);
      StepMovesIdentity(w, steps[0], node, user, ip);
      LatestProofDecides(Apply(w, steps[0]), steps[1..], node, user, ip);
    }
  }

  // ---- The signature comes after the challenge ----

  /** A challenge that no signature made so far could answer: what a good random number is. */
  ghost predicate Unanswered(w: World, step: Step) {
    step.SendState? && step.node in w.nodes ==>
      forall st, ip, kind :: st in w.signed ==> Signed(st) != Message(w.nodes[step.node].own.key, step.random, ip, kind)
  }

  ghost predicate AllUnanswered(w: World, steps: seq<Step>)
    decreases |steps|
  {
    steps == [] || (Unanswered(w, steps[0]) && AllUnanswered(Apply(w, steps[0]), steps[1..]))
  }

  ghost predicate Timely(w: World) {
    forall k, st, ip, kind :: k in w.issued && st in w.issued[k] && k.0 in w.nodes ==>
      Signed(st) != Message(w.nodes[k.0].own.key, k.2, ip, kind)
  }

  lemma StepTimely(w: World, step: Step)
    requires Timely(w) && Unanswered(w, step)
    ensures Timely(Apply(w, step))
  {
    Frame(w, step);
    hide Apply, Message, Signed;
    var v := Apply(w, step);
    forall k, st, ip, kind | k in v.issued && st in v.issued[k] && k.0 in v.nodes
      ensures Signed(st) != Message(v.nodes[k.0].own.key, k.2, ip, kind)
    {
      assert v.nodes[k.0].own.key == w.nodes[k.0].own.key;
    }
  }

  lemma {:induction false} RunTimely(w: World, steps: seq<Step>)
    requires Timely(w) && AllUnanswered(w, steps)
    ensures Timely(Run(w, steps))
    decreases |steps|
  {
    if steps != [] {
      StepTimely(w, steps[0]);
      RunTimely(Apply(w, steps[0]), steps[1..]);
    }
  }

  /** If challenges are good random numbers, the signature that identifies a user was made after the challenge in it was sent. */
  lemma SignedAfterChallenge(w: World, steps: seq<Step>, node: nat, user: nat, ip: uint32, st: Statement)
    requires Initial(w) && AllUnanswered(w, steps) && Evidence(Run(w, steps), node, user, ip, st)
    ensures var v := Run(w, steps); st in v.signed && st !in v.issued[(node, user, v.proofs[(node, user)].challenge)]
  {
    hide Message, Signed;
    RunTimely(w, steps);
    var v := Run(w, steps);
    var p := v.proofs[(node, user)];
    assert Signed(st) == Message(v.nodes[node].own.key, p.challenge, p.challengeIp, p.kind);
  }

  // ---- Keys of one length ----

  /** Every client's key, every key that a client has taken, and every key that a client has signed about has this length. */
  ghost predicate OneLength(w: World, len: nat) {
    && (forall n :: n in w.nodes ==> NodeLength(w.nodes[n], len))
    && (forall a :: a in w.acts ==> |a.1.about| == len && Normal(a.1))
  }

  ghost predicate NodeLength(n: Node, len: nat) {
    && (n.own.key == [] || |n.own.key| == len)
    && forall user :: user in n.credits ==> CreditsLength(n.credits[user], len)
  }

  ghost predicate CreditsLength(c: Credits, len: nat) {
    (c.key == [] || |c.key| == len) && (c.stored == [] || |c.stored| == len)
  }

  /** A public key that a client takes has this length. */
  ghost predicate TakesLength(w: World, step: Step, len: nat) {
    step.Deliver? && step.packet.PublicKey? && step.node in w.nodes && w.nodes[step.node].Has(step.session) ==>
      var n := w.nodes[step.node];
      KeyTaken(n.own, n.credits[n.sessions[step.session].0], step.packet.bytes) ==> |step.packet.bytes| == len + 1
  }

  ghost predicate AllTakeLength(w: World, steps: seq<Step>, len: nat)
    decreases |steps|
  {
    steps == [] || (TakesLength(w, steps[0], len) && AllTakeLength(Apply(w, steps[0]), steps[1..], len))
  }

  lemma PutLength(w: World, node: nat, session: nat, s: Session, c: Credits, made: Option<Statement>, len: nat)
    requires OneLength(w, len) && node in w.nodes && w.nodes[node].Has(session) && CreditsLength(c, len)
    requires made.Some? ==> |made.value.about| == len && Normal(made.value)
    ensures OneLength(Put(w, node, session, s, c, made), len)
  {
    hide CreditsLength, Normal;
    assert NodeLength(w.nodes[node], len);
  }

  lemma ConnectionLength(w: World, step: Step, len: nat)
    requires OneLength(w, len) && TakesLength(w, step, len) && !step.Forge? && !step.Connect? && !step.Renumber?
    requires step.node in w.nodes && w.nodes[step.node].Has(step.session)
    ensures OneLength(Apply(w, step), len)
  {
    var (user, s) := w.nodes[step.node].sessions[step.session];
    var own, c := w.nodes[step.node].own, w.nodes[step.node].credits[user];
    assert CreditsLength(c, len) by { assert NodeLength(w.nodes[step.node], len); }
    hide NodeLength, Put, Valid;
    match step
    case Deliver(node, session, SecIdentState(value, random), _) =>
      var (s', c') := OnSecIdentState(s, c, value, random);
      PutLength(w, node, session, s', c', None, len);
    case Deliver(node, session, PublicKey(bytes), _) =>
      var (s', c', made) := OnPublicKey(own, s, c, bytes);
      PutLength(w, node, session, s', c', made, len);
    case Deliver(node, session, Signature(bytes), valid) =>
      var (s', c') := OnSignature(own, s, c, bytes, valid && Valid(w, own, s, c, bytes));
      PutLength(w, node, session, s', c', None, len);
    case SendState(node, session, random) =>
      PutLength(w, node, session, s, c.(challengeFor := random), None, len);
    case MoveTo(node, session, ip) =>
      PutLength(w, node, session, s.(ip := ip), c, None, len);
    case SendKey(node, session) =>
      PutLength(w, node, session, s.(wish := SignatureNeeded), c, None, len);
    case SendSignature(node, session) =>
      PutLength(w, node, session, AfterSigning(own, s, c), c, SignatureFor(own, s, c), len);
    case Transfer(node, session, down, up) =>
      PutLength(w, node, session, s, c.(downloaded := c.downloaded + down, uploaded := c.uploaded + up), None, len);
  }

  lemma StepLength(w: World, step: Step, len: nat)
    requires OneLength(w, len) && TakesLength(w, step, len)
    ensures OneLength(Apply(w, step), len)
  {
    match step
    case Forge(st) =>
    case Connect(node, session, user, initial) =>
      assert node in w.nodes ==> NodeLength(w.nodes[node], len);
    case Renumber(node, _, _, _, _) =>
      assert node in w.nodes ==> NodeLength(w.nodes[node], len);
    case _ =>
      if step.node in w.nodes && w.nodes[step.node].Has(step.session) {
        ConnectionLength(w, step, len);
      }
  }

  lemma {:induction false} RunLength(w: World, steps: seq<Step>, len: nat)
    requires OneLength(w, len) && AllTakeLength(w, steps, len)
    ensures OneLength(Run(w, steps), len)
    decreases |steps|
  {
    if steps != [] {
      StepLength(w, steps[0], len);
      RunLength(Apply(w, steps[0]), steps[1..], len);
    }
  }

  /**
   * If all clients' keys and all keys they take have one length, a user whose key is an honest client's is identified
   * only if that client signed exactly what it was asked for: our key, the challenge, and in version 2 IP and kind.
   */
  lemma EvidenceExact(w: World, steps: seq<Step>, len: nat, node: nat, user: nat, ip: uint32, st: Statement)
    requires Initial(w) && OneLength(w, len) && AllTakeLength(w, steps, len)
    requires Evidence(Run(w, steps), node, user, ip, st) && !Foreign(Run(w, steps), st.signer)
    ensures var v := Run(w, steps);
            var p := v.proofs[(node, user)];
            st == Statement(v.nodes[node].credits[user].stored, v.nodes[node].own.key, p.challenge, if p.kind == 0 then 0 else p.challengeIp, p.kind)
  {
    RunLength(w, steps, len);
    var v := Run(w, steps);
    var p := v.proofs[(node, user)];
    var m :| (m, st) in v.acts && m in v.nodes && v.nodes[m].own.key == st.signer;
    assert NodeLength(v.nodes[node], len) && |(m, st).1.about| == len;
    MessageInjective(st, Statement(st.signer, v.nodes[node].own.key, p.challenge, if p.kind == 0 then 0 else p.challengeIp, p.kind));
  }

  // ---- Keys of two lengths ----

  lemma {:induction false} RunJoined(w: World, a: seq<Step>, b: seq<Step>)
    ensures Run(w, a + b) == Run(Run(w, a), b)
    decreases |a|
  {
    if a == [] {
      assert a + b == b;
    } else {
      RunJoined(Apply(w, a[0]), a[1..], b);
      assert (a + b)[1..] == a[1..] + b;
    }
  }

  lemma RunThree(w: World, x: Step, y: Step, z: Step)
    ensures Run(w, [x, y, z]) == Apply(Apply(Apply(w, x), y), z)
  {
    assert [x, y, z][1..] == [y, z] && [y, z][1..] == [z] && [z][1..] == [];
    assert Run(Apply(Apply(w, x), y), [z]) == Apply(Apply(Apply(w, x), y), z);
    assert Run(Apply(w, x), [y, z]) == Run(Apply(Apply(w, x), y), [z]);
  }

  function Packed(key: Key): seq<byte>
    requires |key| <= MAXPUBKEYSIZE
  {
    [|key|] + key
  }

  /** Two clients who do not know anyone yet. */
  function Strangers(a: Own, b: Own): World {
    World(map[0 := Node(a, map[], map[]), 1 := Node(b, map[], map[])], map[], {}, {}, map[])
  }

  /** Client 0 is given the key of client 1 over a connection from `ip`, and sends a challenge. */
  function Challenging(b: Own, ip: uint32, challenge: uint32): seq<Step>
    requires |b.key| <= MAXPUBKEYSIZE
  {
    [Connect(0, 0, 0, Session(Nothing, 0, ip, true, true)), Deliver(0, 0, PublicKey(Packed(b.key)), false), SendState(0, 0, challenge)]
  }

  /** Client 1 is asked, by someone who speaks version 2 only, for a signature about the first bytes of client 0's key. */
  function Asking(st: Statement): seq<Step>
    requires |st.about| <= MAXPUBKEYSIZE
  {
    [Connect(1, 0, 0, Session(Nothing, 0, st.ip, false, true)), Deliver(1, 0, SecIdentState(1, st.challenge), false),
     Deliver(1, 0, PublicKey(Packed(st.about)), false)]
  }

  lemma Challenged(a: Own, b: Own, ip: uint32, challenge: uint32)
    requires a.key != [] && 0 < |b.key| <= MAXPUBKEYSIZE && ip != 0 && challenge != 0
    ensures var w := Strangers(a, b);
            Run(w, Challenging(b, ip, challenge)) == w.(
              nodes := w.nodes[0 := Node(a, map[0 := (0, Session(Nothing, 0, ip, true, true))],
                                         map[0 := Credits([], b.key, IdNeeded, 0, 0, 0, challenge, 0)])],
              issued := map[(0, 0, challenge) := {}])
  {
    var w, steps := Strangers(a, b), Challenging(b, ip, challenge);
    RunThree(w, steps[0], steps[1], steps[2]);
    assert steps == [steps[0], steps[1], steps[2]];
    var s := Session(Nothing, 0, ip, true, true);
    var w1 := Apply(w, steps[0]);
    assert w1.nodes[0] == Node(a, map[0 := (0, s)], map[0 := Fresh()]);
    assert Packed(b.key)[1..] == b.key;
    var w2 := Apply(w1, steps[1]);
    assert w2.nodes[0] == Node(a, map[0 := (0, s)], map[0 := Credits([], b.key, IdNeeded, 0, 0, 0, 0, 0)]);
    var w3 := Apply(w2, steps[2]);
    assert w3.nodes[0] == Node(a, map[0 := (0, s)], map[0 := Credits([], b.key, IdNeeded, 0, 0, 0, challenge, 0)]);
  }

  lemma Signing(w: World, b: Own, st: Statement)
    requires 1 in w.nodes && w.nodes[1] == Node(b, map[], map[]) && b.lowId && b.key != []
    requires st.signer == b.key && 0 < |st.about| <= MAXPUBKEYSIZE && st.challenge != 0 && st.kind == CRYPT_CIP_REMOTECLIENT
    ensures var v := Run(w, Asking(st));
            1 in v.nodes && v.nodes == w.nodes[1 := v.nodes[1]] && v.signed == w.signed + {st} && v.issued == w.issued && v.proofs == w.proofs
  {
    var steps := Asking(st);
    RunThree(w, steps[0], steps[1], steps[2]);
    assert steps == [steps[0], steps[1], steps[2]];
    var s := Session(Nothing, 0, st.ip, false, true);
    var w1 := Apply(w, steps[0]);
    assert w1.nodes[1] == Node(b, map[0 := (0, s)], map[0 := Fresh()]);
    var w2 := Apply(w1, steps[1]);
    assert w2.nodes[1] == Node(b, map[0 := (0, s.(wish := SignatureNeeded))], map[0 := Fresh().(challengeFrom := st.challenge)]);
    assert Packed(st.about)[1..] == st.about;
    var w3 := Apply(w2, steps[2]);
    assert w3.signed == w.signed + {st};
    assert w3.nodes == w.nodes[1 := w3.nodes[1]];
  }

  /**
   * It happens, for any two honest clients of whom one has a key of more than five bytes: if its challenge ends in the
   * byte of the remote kind, there is a run from nothing in which the other is identified by a signature that it made
   * about a shorter key, and nobody ever signed anything about the key of the client that was convinced.
   */
  lemma IdentifiedWithoutStatement(a: Own, b: Own, ip: uint32, challenge: uint32)
    requires 5 < |a.key| <= MAXPUBKEYSIZE && 0 < |b.key| <= MAXPUBKEYSIZE && b.lowId && ip != 0
    requires challenge / 0x100_0000 == CRYPT_CIP_REMOTECLIENT && Confused(b.key, a.key, challenge).challenge != 0
    ensures var st := Confused(b.key, a.key, challenge);
            var w := Strangers(a, b);
            var v := Run(w, Challenging(b, ip, challenge) + (Asking(st) + [Deliver(0, 0, Signature([0]), true)]));
            && Initial(w) && 0 in v.nodes && 0 in v.nodes[0].credits && GetCurrentIdentState(v.nodes[0].credits[0], ip) == Identified && v.nodes[0].credits[0].stored == b.key
            && v.signed == {st} && |st.about| == |a.key| - 5
  {
    var st, w := Confused(b.key, a.key, challenge), Strangers(a, b);
    var last := Deliver(0, 0, Signature([0]), true);
    HighByte(challenge);
    ConfusedMessage(b.key, a.key, challenge);
    Challenged(a, b, ip, challenge);
    RunJoined(w, Challenging(b, ip, challenge), Asking(st) + [last]);
    var u := Run(w, Challenging(b, ip, challenge));
    Signing(u, b, st);
    RunJoined(u, Asking(st), [last]);
    var x := Run(u, Asking(st));
    assert [last][1..] == [];
    Convinced(x, a, b, ip, challenge, st);
  }

  lemma Convinced(x: World, a: Own, b: Own, ip: uint32, challenge: uint32, st: Statement)
    requires a.key != [] && b.key != [] && ip != 0 && challenge != 0 && 0 in x.nodes
    requires x.nodes[0] == Node(a, map[0 := (0, Session(Nothing, 0, ip, true, true))], map[0 := Credits([], b.key, IdNeeded, 0, 0, 0, challenge, 0)])
    requires st in x.signed && st.signer == b.key && Signed(st) == Message(a.key, challenge, 0, 0)
    ensures var v := Apply(x, Deliver(0, 0, Signature([0]), true));
            0 in v.nodes && 0 in v.nodes[0].credits && v.signed == x.signed
            && GetCurrentIdentState(v.nodes[0].credits[0], ip) == Identified && v.nodes[0].credits[0].stored == b.key
  {
    var c, s := x.nodes[0].credits[0], x.nodes[0].sessions[0].1;
    hide Message, Signed;
    assert Kind(s, [0]) == Some(0) && Examined(a, s, c, [0]);
    assert Expected(a, s, c, 0) == Message(a.key, challenge, 0, 0);
    assert Valid(x, a, s, c, [0]);
  }

  /** Once a key is verified it never changes, and from then on the totals only grow. */
  lemma StepKeepsKey(w: World, step: Step, node: nat, user: nat)
    requires node in w.nodes && user in w.nodes[node].credits && w.nodes[node].credits[user].stored != []
    ensures Outlives(w, Apply(w, step), node, user)
  {
    hide Within, Valid, Foreign, SignatureFor, Challenge, Kind, ChallengeIp, Fresh, Counts;
    if !step.Forge? && !step.Connect? && !step.Renumber? && step.node in w.nodes && w.nodes[step.node].Has(step.session) {
      ConnectionKeepsKey(w, step, node, user);
    }
  }

  /** The credits `user` has at `node` are there afterwards, with the same verified key and no lower totals. */
  ghost predicate Outlives(w: World, v: World, node: nat, user: nat)
    requires node in w.nodes && user in w.nodes[node].credits
  {
    && node in v.nodes && user in v.nodes[node].credits
    && v.nodes[node].credits[user].stored == w.nodes[node].credits[user].stored
    && v.nodes[node].credits[user].downloaded >= w.nodes[node].credits[user].downloaded
    && v.nodes[node].credits[user].uploaded >= w.nodes[node].credits[user].uploaded
  }

  lemma ConnectionKeepsKey(w: World, step: Step, node: nat, user: nat)
    requires node in w.nodes && user in w.nodes[node].credits && w.nodes[node].credits[user].stored != []
    requires !step.Forge? && !step.Connect? && !step.Renumber? && step.node in w.nodes && w.nodes[step.node].Has(step.session)
    ensures var (u, s) := w.nodes[step.node].sessions[step.session];
            Outlives(w, Within(w, step, w.nodes[step.node].own, u, s, w.nodes[step.node].credits[u]), node, user)
  {
    hide Valid, Foreign, SignatureFor, Challenge, Kind, ChallengeIp, Fresh, Counts;
  }

  lemma {:induction false} VerifiedKeyIsForever(w: World, steps: seq<Step>, node: nat, user: nat)
    requires Inv(w) && node in w.nodes && user in w.nodes[node].credits && w.nodes[node].credits[user].stored != []
    ensures var v := Run(w, steps);
            node in v.nodes && user in v.nodes[node].credits
            && v.nodes[node].credits[user].stored == v.nodes[node].credits[user].key == w.nodes[node].credits[user].stored
            && v.nodes[node].credits[user].downloaded >= w.nodes[node].credits[user].downloaded
            && v.nodes[node].credits[user].uploaded >= w.nodes[node].credits[user].uploaded
    decreases |steps|
  {
    if steps != [] {
      StepKeepsInv(w, steps[0]);
      StepKeepsKey(w, steps[0], node, user);
      VerifiedKeyIsForever(Apply(w, steps[0]), steps[1..], node, user);
    } else {
      assert NodeOk(w, node, w.nodes[node]);
    }
  }
}
