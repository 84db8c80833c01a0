/** Two honest clients that meet: what they send each other, and when each ends up identified by the other. */
module IdentHandshake {
  import opened Bytes
  import opened Options
  import opened IdentModel
  import opened IdentRun

  /** A signature in its packet: its length, its bytes, and for version 2 the kind of address it names. */
  function Framed(sig: seq<byte>, kind: byte): seq<byte>
    requires |sig| <= 248
  {
    [|sig|] + sig + if kind != 0 then [kind] else []
  }

  /** The packet that a step sends out, if it does. `sig` is what the library makes of a statement. */
  ghost function Emitted(w: World, step: Step, sig: seq<byte>): Option<Packet>
    requires |sig| <= 248
  {
    if !(step.SendState? || step.SendKey? || step.SendSignature?) || step.node !in w.nodes || !w.nodes[step.node].Has(step.session) then None
    else
      var (user, s) := w.nodes[step.node].sessions[step.session];
      var own, c := w.nodes[step.node].own, w.nodes[step.node].credits[user];
      match step
      case SendState(_, _, random) =>
        if Challenge(own, s, c) == 0 || random == 0 then None else Some(SecIdentState(Challenge(own, s, c), random))
      case SendKey(_, _) => if s.wish == KeyAndSignNeeded && 0 < |own.key| <= MAXPUBKEYSIZE then Some(PublicKey([|own.key|] + own.key)) else None
      case SendSignature(_, _) => if SignatureFor(own, s, c).Some? then Some(Signature(Framed(sig, SignatureFor(own, s, c).value.kind))) else None
  }

  /** How two clients see each other: the addresses they connect from, and the versions that each supports. */
  datatype Meeting = Meeting(a: Own, b: Own, ipA: uint32, ipB: uint32, a1: bool, a2: bool, b1: bool, b2: bool, x: uint32, y: uint32)
  {
    ghost predicate Proper() {
      && 0 < |a.key| <= MAXPUBKEYSIZE && 0 < |b.key| <= MAXPUBKEYSIZE && a.key != b.key
      && ipA != 0 && ipB != 0 && x != 0 && y != 0
    }

    /** The kind that a client's signature is of: none to a peer that has version 1, else as its own ID is low or high. */
    function KindOfA(): byte { if b1 then 0 else if a.lowId then 10 else 20 }

    function KindOfB(): byte { if a1 then 0 else if b.lowId then 10 else 20 }
  }

  /** `b` asks first and gets the key of `a`; then `a` asks, gets the key of `b` and can sign; `b` signs; both signatures arrive. */
  function StepAt(m: Meeting, k: nat, sigA: seq<byte>, sigB: seq<byte>): Step
    requires k < 13 && |sigA| <= 248 && |sigB| <= 248 && |m.a.key| <= MAXPUBKEYSIZE && |m.b.key| <= MAXPUBKEYSIZE
  {
    match k
    case 0 => Connect(0, 0, 0, AtA(m, Nothing, 0))
    case 1 => Connect(1, 0, 0, AtB(m, Nothing, 0))
    case 2 => SendState(1, 0, m.y)
    case 3 => Deliver(0, 0, SecIdentState(2, m.y), false)
    case 4 => SendKey(0, 0)
    case 5 => Deliver(1, 0, PublicKey([|m.a.key|] + m.a.key), false)
    case 6 => SendState(0, 0, m.x)
    case 7 => Deliver(1, 0, SecIdentState(2, m.x), false)
    case 8 => SendKey(1, 0)
    case 9 => Deliver(0, 0, PublicKey([|m.b.key|] + m.b.key), false)
    case 10 => SendSignature(1, 0)
    case 11 => Deliver(0, 0, Signature(Framed(sigB, m.KindOfB())), true)
    case 12 => Deliver(1, 0, Signature(Framed(sigA, m.KindOfA())), true)
  }

  function Exchange(m: Meeting, sigA: seq<byte>, sigB: seq<byte>): seq<Step>
    requires |sigA| <= 248 && |sigB| <= 248 && |m.a.key| <= MAXPUBKEYSIZE && |m.b.key| <= MAXPUBKEYSIZE
  {
    seq(13, k requires 0 <= k < 13 => StepAt(m, k, sigA, sigB))
  }

  function One(own: Own, s: Session, c: Credits): Node { Node(own, map[0 := (0, s)], map[0 := c]) }

  function AtA(m: Meeting, wish: Wish, last: uint32): Session { Session(wish, last, m.ipB, m.b1, m.b2) }

  function AtB(m: Meeting, wish: Wish, last: uint32): Session { Session(wish, last, m.ipA, m.a1, m.a2) }

  /** What is known of the other: its key if it has come, and the challenges either way. */
  function Known(key: Key, challengeFor: uint32, challengeFrom: uint32): Credits {
    Credits([], key, if key == [] then NotAvailable else IdNeeded, 0, 0, 0, challengeFor, challengeFrom)
  }

  ghost predicate Stands(w: World, m: Meeting, sa: Session, ca: Credits, sb: Session, cb: Credits) {
    w.nodes == map[0 := One(m.a, sa, ca), 1 := One(m.b, sb, cb)]
  }

  // ---- The steps, one by one, in any world ----

  lemma PutOne(w: World, at: nat, own: Own, s: Session, c: Credits, s': Session, c': Credits, made: Option<Statement>)
    requires at in w.nodes && w.nodes[at] == One(own, s, c)
    ensures Put(w, at, 0, s', c', made).nodes == w.nodes[at := One(own, s', c')]
    ensures Put(w, at, 0, s', c', made).signed == w.signed + if made.Some? then {made.value} else {}
  {
    assert Stored(w.nodes[at], 0, s', c') == One(own, s', c');
  }

  /** A challenge goes out, with the key asked for (2) if it is not known. */
  lemma Asks(w: World, at: nat, own: Own, s: Session, c: Credits, random: uint32)
    requires at in w.nodes && w.nodes[at] == One(own, s, c) && own.key != [] && c.key == [] && random != 0
    ensures Emitted(w, SendState(at, 0, random), []) == Some(SecIdentState(2, random))
    ensures var v := Apply(w, SendState(at, 0, random));
            v.nodes == w.nodes[at := One(own, s, c.(challengeFor := random))] && v.signed == w.signed
  {
    PutOne(w, at, own, s, c, s, c.(challengeFor := random), None);
  }

  lemma IsAsked(w: World, at: nat, own: Own, s: Session, c: Credits, random: uint32)
    requires at in w.nodes && w.nodes[at] == One(own, s, c)
    ensures var v := Apply(w, Deliver(at, 0, SecIdentState(2, random), false));
            v.nodes == w.nodes[at := One(own, s.(wish := KeyAndSignNeeded), c.(challengeFrom := random))] && v.signed == w.signed
  {
    PutOne(w, at, own, s, c, s.(wish := KeyAndSignNeeded), c.(challengeFrom := random), None);
  }

  lemma SendsKey(w: World, at: nat, own: Own, s: Session, c: Credits)
    requires at in w.nodes && w.nodes[at] == One(own, s, c) && 0 < |own.key| <= MAXPUBKEYSIZE && s.wish == KeyAndSignNeeded
    ensures Emitted(w, SendKey(at, 0), []) == Some(PublicKey([|own.key|] + own.key))
    ensures var v := Apply(w, SendKey(at, 0));
            v.nodes == w.nodes[at := One(own, s.(wish := SignatureNeeded), c)] && v.signed == w.signed
  {
    PutOne(w, at, own, s, c, s.(wish := SignatureNeeded), c, None);
  }

  /** A key arrives; if a signature is owed, it can be made now. */
  lemma TakesKey(w: World, at: nat, own: Own, s: Session, c: Credits, key: Key)
    requires at in w.nodes && w.nodes[at] == One(own, s, c) && own.key != [] && c.stored == [] && 0 < |key| <= MAXPUBKEYSIZE
    ensures var v, taken := Apply(w, Deliver(at, 0, PublicKey([|key|] + key), false)), c.(key := key, ident := IdNeeded);
            if s.wish == SignatureNeeded && c.challengeFrom != 0 then
              && v.nodes == w.nodes[at := One(own, s.(wish := Nothing), taken)]
              && exists st :: v.signed == w.signed + {st} && Says(st, own, s, key, c.challengeFrom)
            else v.nodes == w.nodes[at := One(own, s, taken)] && v.signed == w.signed
  {
    var taken := c.(key := key, ident := IdNeeded);
    assert ([|key|] + key)[1..] == key;
    var (s', c', made) := OnPublicKey(own, s, c, [|key|] + key);
    assert c' == taken;
    PutOne(w, at, own, s, c, s', c', made);
    if made.Some? {
      assert Says(made.value, own, s, key, c.challengeFrom);
    }
  }

  lemma Signs(w: World, at: nat, own: Own, s: Session, c: Credits, sig: seq<byte>)
    requires at in w.nodes && w.nodes[at] == One(own, s, c) && own.key != [] && c.key != []
    requires s.wish != Nothing && c.challengeFrom != 0 && |sig| <= 248
    ensures Emitted(w, SendSignature(at, 0), sig) == Some(Signature(Framed(sig, if s.v1 then 0 else if own.lowId then 10 else 20)))
    ensures var v := Apply(w, SendSignature(at, 0));
            && v.nodes == w.nodes[at := One(own, s.(wish := Nothing), c)]
            && exists st :: v.signed == w.signed + {st} && Says(st, own, s, c.key, c.challengeFrom)
  {
    var made := SignatureFor(own, s, c);
    PutOne(w, at, own, s, c, AfterSigning(own, s, c), c, made);
    assert Says(made.value, own, s, c.key, c.challengeFrom);
  }

  /** The statement is the signer's, about the other's key and challenge: version 1, or with the address that the kind calls for. */
  ghost predicate Says(st: Statement, own: Own, s: Session, key: Key, challenge: uint32) {
    && st.signer == own.key && st.about == key && st.challenge == challenge
    && (s.v1 ==> st.kind == 0 && st.ip == 0)
    && (!s.v1 && own.lowId ==> st.kind == 10 && st.ip == s.ip)
    && (!s.v1 && !own.lowId ==> st.kind == 20 && st.ip == own.ed2kId)
  }

  /** The address that a client takes for its own. */
  function OwnAddress(own: Own): uint32 {
    if own.publicIp != 0 then own.publicIp else if own.lowId then own.localIp else own.ed2kId
  }

  /** The signature arrives, and is the only one that its signer made: it proves what its statement says, if the addresses agree. */
  lemma Checks(w: World, at: nat, own: Own, s: Session, c: Credits, st: Statement, sig: seq<byte>)
    requires at in w.nodes && w.nodes[at] == One(own, s, c) && own.key != [] && |sig| <= 248
    requires c.key == st.signer != [] && c.stored == [] && c.ident == IdNeeded && s.lastSignatureIp != s.ip && c.challengeFor != 0
    requires st in w.signed && (forall other :: other in w.signed && other.signer == st.signer ==> other == st)
    requires st.about == own.key && st.challenge == c.challengeFor && st.kind in {0, 10, 20} && (st.kind == 0 ==> st.ip == 0)
    ensures var v := Apply(w, Deliver(at, 0, Signature(Framed(sig, st.kind)), true));
            && at in v.nodes && v.nodes == w.nodes[at := v.nodes[at]] && v.signed == w.signed && 0 in v.nodes[at].credits
            && var after := v.nodes[at].credits[0];
               && (GetCurrentIdentState(after, s.ip) == Identified <==>
                   st.kind == 0 || (s.v2 && st.ip == if st.kind == 10 then OwnAddress(own) else s.ip))
               && (GetCurrentIdentState(after, s.ip) == Identified ==> after.stored == st.signer)
  {
    var packet := Framed(sig, st.kind);
    var valid := Valid(w, own, s, c, packet);
    assert |packet| == 1 + |sig| + (if st.kind != 0 then 1 else 0) && packet[0] == |sig|;
    assert st.kind != 0 ==> packet[|packet| - 1] == st.kind;
    assert Kind(s, packet) == if st.kind == 0 then Some(0) else if s.v2 then Some(st.kind) else None;
    if Kind(s, packet).Some? {
      SameMessage(own.key, c.challengeFor, st.ip, ChallengeIp(own, st.kind, s.ip), st.kind);
      assert valid <==> Signed(st) == Expected(own, s, c, st.kind);
    }
    var ok := true && valid;
    var (s', c') := OnSignature(own, s, c, packet, ok);
    PutOne(w, at, own, s, c, s', c', None);
  }

  lemma SameMessage(about: Key, challenge: uint32, ip: uint32, other: uint32, kind: byte)
    ensures Message(about, challenge, ip, kind) == Message(about, challenge, other, kind) <==> kind == 0 || ip == other
  {
    if kind != 0 && Message(about, challenge, ip, kind) == Message(about, challenge, other, kind) {
      var n := |about| + 4;
      assert Message(about, challenge, ip, kind)[n..n + 4] == Encode(ip, 4);
      assert Message(about, challenge, other, kind)[n..n + 4] == Encode(other, 4);
      EncodeInjective(ip, other);
    }
  }

  // ---- The whole exchange ----

  lemma RunNext(w: World, steps: seq<Step>, k: nat)
    requires k < |steps|
    ensures Run(w, steps[..k + 1]) == Apply(Run(w, steps[..k]), steps[k])
  {
    assert steps[..k + 1] == steps[..k] + [steps[k]];
    RunJoined(w, steps[..k], [steps[k]]);
    assert [steps[k]][1..] == [];
  }

  lemma Meet(m: Meeting)
    ensures var w := Apply(Apply(Strangers(m.a, m.b), Connect(0, 0, 0, AtA(m, Nothing, 0))), Connect(1, 0, 0, AtB(m, Nothing, 0)));
            Stands(w, m, AtA(m, Nothing, 0), Known([], 0, 0), AtB(m, Nothing, 0), Known([], 0, 0)) && w.signed == {}
  {
    var w1 := Apply(Strangers(m.a, m.b), Connect(0, 0, 0, AtA(m, Nothing, 0)));
    assert w1.nodes[0] == One(m.a, AtA(m, Nothing, 0), Fresh());
    var w2 := Apply(w1, Connect(1, 0, 0, AtB(m, Nothing, 0)));
    assert w2.nodes[1] == One(m.b, AtB(m, Nothing, 0), Fresh());
  }

  lemma Here(w: World, m: Meeting, sa: Session, ca: Credits, sb: Session, cb: Credits)
    requires w.nodes == map[0 := One(m.a, sa, ca), 1 := One(m.b, sb, cb)]
    ensures Stands(w, m, sa, ca, sb, cb)
    ensures 0 in w.nodes && w.nodes[0] == One(m.a, sa, ca) && 1 in w.nodes && w.nodes[1] == One(m.b, sb, cb)
    ensures forall s, c :: w.nodes[0 := One(m.a, s, c)] == map[0 := One(m.a, s, c), 1 := One(m.b, sb, cb)]
    ensures forall s, c :: w.nodes[1 := One(m.b, s, c)] == map[0 := One(m.a, sa, ca), 1 := One(m.b, s, c)]
  {
  }

  /** Where the two stand before step k. */
  ghost predicate Phase(w: World, m: Meeting, k: nat)
    requires 2 <= k <= 11
  {
    match k
    case 2 => Stands(w, m, AtA(m, Nothing, 0), Known([], 0, 0), AtB(m, Nothing, 0), Known([], 0, 0)) && w.signed == {}
    case 3 => Stands(w, m, AtA(m, Nothing, 0), Known([], 0, 0), AtB(m, Nothing, 0), Known([], m.y, 0)) && w.signed == {}
    case 4 => Stands(w, m, AtA(m, KeyAndSignNeeded, 0), Known([], 0, m.y), AtB(m, Nothing, 0), Known([], m.y, 0)) && w.signed == {}
    case 5 => Stands(w, m, AtA(m, SignatureNeeded, 0), Known([], 0, m.y), AtB(m, Nothing, 0), Known([], m.y, 0)) && w.signed == {}
    case 6 => Stands(w, m, AtA(m, SignatureNeeded, 0), Known([], 0, m.y), AtB(m, Nothing, 0), Known(m.a.key, m.y, 0)) && w.signed == {}
    case 7 => Stands(w, m, AtA(m, SignatureNeeded, 0), Known([], m.x, m.y), AtB(m, Nothing, 0), Known(m.a.key, m.y, 0)) && w.signed == {}
    case 8 => Stands(w, m, AtA(m, SignatureNeeded, 0), Known([], m.x, m.y), AtB(m, KeyAndSignNeeded, 0), Known(m.a.key, m.y, m.x)) && w.signed == {}
    case 9 => Stands(w, m, AtA(m, SignatureNeeded, 0), Known([], m.x, m.y), AtB(m, SignatureNeeded, 0), Known(m.a.key, m.y, m.x)) && w.signed == {}
    case 10 => Stands(w, m, AtA(m, Nothing, 0), Known(m.b.key, m.x, m.y), AtB(m, SignatureNeeded, 0), Known(m.a.key, m.y, m.x)) && ASigned(w, m)
    case 11 => Stands(w, m, AtA(m, Nothing, 0), Known(m.b.key, m.x, m.y), AtB(m, Nothing, 0), Known(m.a.key, m.y, m.x)) && BothSigned(w, m)
  }

  ghost predicate ASigned(w: World, m: Meeting) {
    exists st :: w.signed == {st} && Says(st, m.a, AtA(m, Nothing, 0), m.b.key, m.y)
  }

  ghost predicate BothSigned(w: World, m: Meeting) {
    exists sta, stb :: w.signed == {sta, stb}
      && Says(sta, m.a, AtA(m, Nothing, 0), m.b.key, m.y) && Says(stb, m.b, AtB(m, Nothing, 0), m.a.key, m.x)
  }

  lemma FirstTwo(m: Meeting, steps: seq<Step>)
    requires |steps| >= 2 && steps[0] == Connect(0, 0, 0, AtA(m, Nothing, 0)) && steps[1] == Connect(1, 0, 0, AtB(m, Nothing, 0))
    ensures Phase(Run(Strangers(m.a, m.b), steps[..2]), m, 2)
  {
    RunNext(Strangers(m.a, m.b), steps, 0);
    RunNext(Strangers(m.a, m.b), steps, 1);
    assert steps[..0] == [];
    Meet(m);
  }

  /** `b` asks for the key of `a`, and gets it. */
  lemma BAsks(w: World, m: Meeting)
    requires m.Proper() && Phase(w, m, 2)
    ensures Phase(Apply(w, SendState(1, 0, m.y)), m, 3) && Emitted(w, SendState(1, 0, m.y), []) == Some(SecIdentState(2, m.y))
  {
    hide Apply, Emitted;
    Here(w, m, AtA(m, Nothing, 0), Known([], 0, 0), AtB(m, Nothing, 0), Known([], 0, 0));
    Asks(w, 1, m.b, AtB(m, Nothing, 0), Known([], 0, 0), m.y);
  }

  lemma AIsAsked(w: World, m: Meeting)
    requires m.Proper() && Phase(w, m, 3)
    ensures Phase(Apply(w, Deliver(0, 0, SecIdentState(2, m.y), false)), m, 4)
  {
    hide Apply;
    Here(w, m, AtA(m, Nothing, 0), Known([], 0, 0), AtB(m, Nothing, 0), Known([], m.y, 0));
    IsAsked(w, 0, m.a, AtA(m, Nothing, 0), Known([], 0, 0), m.y);
  }

  lemma ASendsKey(w: World, m: Meeting)
    requires m.Proper() && Phase(w, m, 4)
    ensures Phase(Apply(w, SendKey(0, 0)), m, 5) && Emitted(w, SendKey(0, 0), []) == Some(PublicKey([|m.a.key|] + m.a.key))
  {
    hide Apply, Emitted;
    Here(w, m, AtA(m, KeyAndSignNeeded, 0), Known([], 0, m.y), AtB(m, Nothing, 0), Known([], m.y, 0));
    SendsKey(w, 0, m.a, AtA(m, KeyAndSignNeeded, 0), Known([], 0, m.y));
  }

  lemma BTakesKey(w: World, m: Meeting)
    requires m.Proper() && Phase(w, m, 5)
    ensures Phase(Apply(w, Deliver(1, 0, PublicKey([|m.a.key|] + m.a.key), false)), m, 6)
  {
    hide Apply;
    Here(w, m, AtA(m, SignatureNeeded, 0), Known([], 0, m.y), AtB(m, Nothing, 0), Known([], m.y, 0));
    TakesKey(w, 1, m.b, AtB(m, Nothing, 0), Known([], m.y, 0), m.a.key);
  }

  /** `a` asks for the key of `b`, gets it, and signs on that. */
  lemma AAsks(w: World, m: Meeting)
    requires m.Proper() && Phase(w, m, 6)
    ensures Phase(Apply(w, SendState(0, 0, m.x)), m, 7) && Emitted(w, SendState(0, 0, m.x), []) == Some(SecIdentState(2, m.x))
  {
    hide Apply, Emitted;
    Here(w, m, AtA(m, SignatureNeeded, 0), Known([], 0, m.y), AtB(m, Nothing, 0), Known(m.a.key, m.y, 0));
    Asks(w, 0, m.a, AtA(m, SignatureNeeded, 0), Known([], 0, m.y), m.x);
  }

  lemma BIsAsked(w: World, m: Meeting)
    requires m.Proper() && Phase(w, m, 7)
    ensures Phase(Apply(w, Deliver(1, 0, SecIdentState(2, m.x), false)), m, 8)
  {
    hide Apply;
    Here(w, m, AtA(m, SignatureNeeded, 0), Known([], m.x, m.y), AtB(m, Nothing, 0), Known(m.a.key, m.y, 0));
    IsAsked(w, 1, m.b, AtB(m, Nothing, 0), Known(m.a.key, m.y, 0), m.x);
  }

  lemma BSendsKey(w: World, m: Meeting)
    requires m.Proper() && Phase(w, m, 8)
    ensures Phase(Apply(w, SendKey(1, 0)), m, 9) && Emitted(w, SendKey(1, 0), []) == Some(PublicKey([|m.b.key|] + m.b.key))
  {
    hide Apply, Emitted;
    Here(w, m, AtA(m, SignatureNeeded, 0), Known([], m.x, m.y), AtB(m, KeyAndSignNeeded, 0), Known(m.a.key, m.y, m.x));
    SendsKey(w, 1, m.b, AtB(m, KeyAndSignNeeded, 0), Known(m.a.key, m.y, m.x));
  }

  lemma ATakesKeyAndSigns(w: World, m: Meeting)
    requires m.Proper() && Phase(w, m, 9)
    ensures Phase(Apply(w, Deliver(0, 0, PublicKey([|m.b.key|] + m.b.key), false)), m, 10)
  {
    hide Apply, Says;
    Here(w, m, AtA(m, SignatureNeeded, 0), Known([], m.x, m.y), AtB(m, SignatureNeeded, 0), Known(m.a.key, m.y, m.x));
    TakesKey(w, 0, m.a, AtA(m, SignatureNeeded, 0), Known([], m.x, m.y), m.b.key);
    var v := Apply(w, Deliver(0, 0, PublicKey([|m.b.key|] + m.b.key), false));
    var st :| v.signed == w.signed + {st} && Says(st, m.a, AtA(m, SignatureNeeded, 0), m.b.key, m.y);
    SaysSame(st, m.a, AtA(m, SignatureNeeded, 0), Nothing, m.b.key, m.y);
  }

  lemma BSigns(w: World, m: Meeting, sigB: seq<byte>)
    requires m.Proper() && |sigB| <= 248 && Phase(w, m, 10)
    ensures Phase(Apply(w, SendSignature(1, 0)), m, 11) && Emitted(w, SendSignature(1, 0), sigB) == Some(Signature(Framed(sigB, m.KindOfB())))
  {
    hide Apply, Emitted, Says, Framed;
    Here(w, m, AtA(m, Nothing, 0), Known(m.b.key, m.x, m.y), AtB(m, SignatureNeeded, 0), Known(m.a.key, m.y, m.x));
    Signs(w, 1, m.b, AtB(m, SignatureNeeded, 0), Known(m.a.key, m.y, m.x), sigB);
    var v := Apply(w, SendSignature(1, 0));
    var sta :| w.signed == {sta} && Says(sta, m.a, AtA(m, Nothing, 0), m.b.key, m.y);
    var stb :| v.signed == w.signed + {stb} && Says(stb, m.b, AtB(m, SignatureNeeded, 0), m.a.key, m.x);
    SaysSame(stb, m.b, AtB(m, SignatureNeeded, 0), Nothing, m.a.key, m.x);
    assert v.signed == {sta, stb};
  }

  lemma SaysSame(st: Statement, own: Own, s: Session, wish: Wish, key: Key, challenge: uint32)
    ensures Says(st, own, s, key, challenge) == Says(st, own, s.(wish := wish), key, challenge)
  {
  }

  /** What step k sends out, with this signature if it is one. */
  ghost predicate Sends(w: World, step: Step, sig: seq<byte>, next: Step)
    requires |sig| <= 248
  {
    next.Deliver? && Emitted(w, step, sig) == Some(next.packet)
  }

  lemma NextPhase(w: World, m: Meeting, k: nat, sigA: seq<byte>, sigB: seq<byte>)
    requires m.Proper() && |sigA| <= 248 && |sigB| <= 248 && 2 <= k <= 10 && Phase(w, m, k)
    ensures Phase(Apply(w, StepAt(m, k, sigA, sigB)), m, k + 1)
    ensures k % 2 == 0 ==> Sends(w, StepAt(m, k, sigA, sigB), if k == 10 then sigB else [], StepAt(m, k + 1, sigA, sigB))
  {
    hide Apply, Phase, Emitted;
    match k
    case 2 => BAsks(w, m);
    case 3 => AIsAsked(w, m);
    case 4 => ASendsKey(w, m);
    case 5 => BTakesKey(w, m);
    case 6 => AAsks(w, m);
    case 7 => BIsAsked(w, m);
    case 8 => BSendsKey(w, m);
    case 9 => ATakesKeyAndSigns(w, m);
    case 10 => BSigns(w, m, sigB);
  }

  lemma {:induction false} Reaches(m: Meeting, k: nat, sigA: seq<byte>, sigB: seq<byte>)
    requires m.Proper() && |sigA| <= 248 && |sigB| <= 248 && 2 <= k <= 11
    ensures Phase(Run(Strangers(m.a, m.b), Exchange(m, sigA, sigB)[..k]), m, k)
  {
    var w, steps := Strangers(m.a, m.b), Exchange(m, sigA, sigB);
    if k == 2 {
      FirstTwo(m, steps);
    } else {
      Reaches(m, k - 1, sigA, sigB);
      hide Phase, Run, Apply, StepAt;
      NextPhase(Run(w, steps[..k - 1]), m, k - 1, sigA, sigB);
      RunNext(w, steps, k - 1);
    }
  }

  /** Who ends up identified where: what the addresses and versions come to. */
  ghost predicate Agreed(m: Meeting, v: World) {
    && 0 in v.nodes && 1 in v.nodes && 0 in v.nodes[0].credits && 0 in v.nodes[1].credits
    && var atA, atB := v.nodes[0].credits[0], v.nodes[1].credits[0];
       && (GetCurrentIdentState(atA, m.ipB) == Identified <==>
           m.a1 || (m.b2 && if m.b.lowId then m.ipA == OwnAddress(m.a) else m.b.ed2kId == m.ipB))
       && (GetCurrentIdentState(atB, m.ipA) == Identified <==>
           m.b1 || (m.a2 && if m.a.lowId then m.ipB == OwnAddress(m.b) else m.a.ed2kId == m.ipA))
       && (GetCurrentIdentState(atA, m.ipB) == Identified ==> atA.stored == m.b.key)
       && (GetCurrentIdentState(atB, m.ipA) == Identified ==> atB.stored == m.a.key)
  }

  /** Both signatures arrive. */
  lemma BothCheck(w: World, m: Meeting, sigA: seq<byte>, sigB: seq<byte>)
    requires m.Proper() && |sigA| <= 248 && |sigB| <= 248 && Phase(w, m, 11)
    ensures Agreed(m, Apply(Apply(w, StepAt(m, 11, sigA, sigB)), StepAt(m, 12, sigA, sigB)))
  {
    hide Apply, GetCurrentIdentState;
    var sta, stb :| w.signed == {sta, stb}
      && Says(sta, m.a, AtA(m, Nothing, 0), m.b.key, m.y) && Says(stb, m.b, AtB(m, Nothing, 0), m.a.key, m.x);
    assert stb.kind == m.KindOfB() && sta.kind == m.KindOfA();
    Checks(w, 0, m.a, AtA(m, Nothing, 0), Known(m.b.key, m.x, m.y), stb, sigB);
    var w12 := Apply(w, Deliver(0, 0, Signature(Framed(sigB, stb.kind)), true));
    assert w12.nodes[1] == One(m.b, AtB(m, Nothing, 0), Known(m.a.key, m.y, m.x));
    Checks(w12, 1, m.b, AtB(m, Nothing, 0), Known(m.a.key, m.y, m.x), sta, sigA);
  }

  /**
   * Two honest clients that meet end up identified by each other, if their addresses are what they take them for: `b` by
   * `a` exactly if `a` supports version 1, or `b` supports version 2 and either has a low ID and sees `a` at the address
   * that `a` takes for its own, or is seen by `a` at its high ID; and the other way round. Each packet that
   * arrives is the one that was sent.
   */
  lemma Handshake(m: Meeting, sigA: seq<byte>, sigB: seq<byte>)
    requires m.Proper() && |sigA| <= 248 && |sigB| <= 248
    ensures var w, steps := Strangers(m.a, m.b), Exchange(m, sigA, sigB);
            && (forall k :: 2 <= k <= 10 && k % 2 == 0 ==> Sends(Run(w, steps[..k]), steps[k], if k == 10 then sigB else [], steps[k + 1]))
            && Agreed(m, Run(w, steps))
  {
    hide Run, StepAt, Agreed, Sends, Strangers;
    forall k | 2 <= k <= 10 && k % 2 == 0
      ensures Sends(Run(Strangers(m.a, m.b), Exchange(m, sigA, sigB)[..k]), StepAt(m, k, sigA, sigB), if k == 10 then sigB else [], StepAt(m, k + 1, sigA, sigB))
    {
      SentIsBrought(m, k, sigA, sigB);
    }
    EndsAgreed(m, sigA, sigB);
  }

  lemma SentIsBrought(m: Meeting, k: nat, sigA: seq<byte>, sigB: seq<byte>)
    requires m.Proper() && |sigA| <= 248 && |sigB| <= 248 && 2 <= k <= 10 && k % 2 == 0
    ensures Sends(Run(Strangers(m.a, m.b), Exchange(m, sigA, sigB)[..k]), StepAt(m, k, sigA, sigB), if k == 10 then sigB else [], StepAt(m, k + 1, sigA, sigB))
  {
    hide Phase, Run, Apply, StepAt, Sends, Strangers;
    Reaches(m, k, sigA, sigB);
    NextPhase(Run(Strangers(m.a, m.b), Exchange(m, sigA, sigB)[..k]), m, k, sigA, sigB);
  }

  lemma EndsAgreed(m: Meeting, sigA: seq<byte>, sigB: seq<byte>)
    requires m.Proper() && |sigA| <= 248 && |sigB| <= 248
    ensures Agreed(m, Run(Strangers(m.a, m.b), Exchange(m, sigA, sigB)))
  {
    var w, steps := Strangers(m.a, m.b), Exchange(m, sigA, sigB);
    assert steps[..13] == steps && steps[11] == StepAt(m, 11, sigA, sigB) && steps[12] == StepAt(m, 12, sigA, sigB);
    hide Phase, Run, Apply, StepAt, Agreed, Strangers, Exchange;
    Reaches(m, 11, sigA, sigB);
    RunNext(w, steps, 11);
    RunNext(w, steps, 12);
    BothCheck(Run(w, steps[..11]), m, sigA, sigB);
  }
}
