/**
 * Secure identification as values: the credit record of a user, one connection to him, and what each
 * packet does to them. Signatures are ideal: a message verifies only if the key's owner signed it.
 */
module IdentModel {
  import opened Bytes
  import opened Options

  type uint32 = n: nat | n < 0x1_0000_0000

  type Key = seq<byte>

  const MAXPUBKEYSIZE: nat := 80
  const CRYPT_CIP_REMOTECLIENT: byte := 10
  const CRYPT_CIP_LOCALCLIENT: byte := 20

  datatype Ident = NotAvailable | IdNeeded | Identified | IdFailed | IdBadGuy

  /** `stored` is the verified key that is saved with the credits, `key` the one in use; an empty key is none. */
  datatype Credits = Credits(
    stored: Key, key: Key, ident: Ident, identIp: uint32, downloaded: nat, uploaded: nat,
    challengeFor: uint32, challengeFrom: uint32)

  /** What the other side has asked us for and not had; nothing is also the state once everything is sent. */
  datatype Wish = Nothing | SignatureNeeded | KeyAndSignNeeded

  /** One connection: bits 1 and 2 of `support` are the versions of the protocol that the other side speaks. */
  datatype Session = Session(wish: Wish, lastSignatureIp: uint32, ip: uint32, v1: bool, v2: bool)

  /** Ourselves; without a key there is no cryptography. */
  datatype Own = Own(key: Key, lowId: bool, ed2kId: uint32, publicIp: uint32, localIp: uint32)

  /** What a signature is about; version 1 has kind 0 and no IP. */
  datatype Statement = Statement(signer: Key, about: Key, challenge: uint32, ip: uint32, kind: byte)

  function Message(about: Key, challenge: uint32, ip: uint32, kind: byte): seq<byte> {
    about + Encode(challenge, 4) + if kind != 0 then Encode(ip, 4) + [kind] else []
  }

  function Signed(st: Statement): seq<byte> { Message(st.about, st.challenge, st.ip, st.kind) }

  ghost predicate Verifies(signed: set<Statement>, key: Key, message: seq<byte>) {
    exists st :: st in signed && st.signer == key && Signed(st) == message
  }

  // ---- The credit record ----

  function InitalizeIdent(c: Credits): Credits {
    c.(key := c.stored, ident := if c.stored == [] then NotAvailable else IdNeeded, identIp := 0, challengeFor := 0, challengeFrom := 0)
  }

  function GetCurrentIdentState(c: Credits, ip: uint32): Ident {
    if c.ident == Identified && ip != c.identIp then IdBadGuy else c.ident
  }

  function Verified(c: Credits, ip: uint32): Credits {
    var reset := c.stored == [] && c.downloaded > 0;
    c.(identIp := ip, ident := Identified, stored := if c.stored == [] then c.key else c.stored,
       downloaded := if reset then 1 else c.downloaded, uploaded := if reset then 1 else c.uploaded)
  }

  predicate MaySetKey(c: Credits, key: Key) { |key| <= MAXPUBKEYSIZE && c.stored == [] }

  function SetSecureIdent(c: Credits, key: Key): Credits {
    if MaySetKey(c, key) then c.(key := key, ident := IdNeeded) else c
  }

  /** Bytes are counted unless the client should have identified itself and has not. */
  predicate Counts(c: Credits, ip: uint32, crypto: bool) {
    !crypto || GetCurrentIdentState(c, ip) in {NotAvailable, Identified}
  }

  // ---- One connection ----

  /** The IP that a signature of this kind must name: the signer's as we see it, or ours as the signer sees it. */
  function ChallengeIp(own: Own, kind: byte, ip: uint32): uint32 {
    if kind == CRYPT_CIP_LOCALCLIENT then ip
    else if kind == CRYPT_CIP_REMOTECLIENT then (if own.publicIp != 0 then own.publicIp else if own.lowId then own.localIp else own.ed2kId)
    else 0
  }

  function Challenge(own: Own, s: Session, c: Credits): nat {
    if own.key == [] then 0 else if c.key == [] then 2 else if s.lastSignatureIp != s.ip then 1 else 0
  }

  function OnSecIdentState(s: Session, c: Credits, value: nat, random: uint32): (r: (Session, Credits)) {
    if value > 2 then (s, c)
    else (s.(wish := if value == 0 then Nothing else if value == 1 then SignatureNeeded else KeyAndSignNeeded),
          c.(challengeFrom := random))
  }

  /** SendSignaturePacket: version 1 unless the other side speaks only version 2. */
  function SignatureFor(own: Own, s: Session, c: Credits): Option<Statement> {
    if s.wish == Nothing || own.key == [] || c.key == [] || c.challengeFrom == 0 then None
    else if s.v1 then Some(Statement(own.key, c.key, c.challengeFrom, 0, 0))
    else if own.lowId then Some(Statement(own.key, c.key, c.challengeFrom, s.ip, CRYPT_CIP_REMOTECLIENT))
    else Some(Statement(own.key, c.key, c.challengeFrom, own.ed2kId, CRYPT_CIP_LOCALCLIENT))
  }

  function AfterSigning(own: Own, s: Session, c: Credits): Session {
    if SignatureFor(own, s, c).Some? then s.(wish := Nothing) else s
  }

  /** The packet's first byte declares the length of the key; a key that is taken may let us sign at last. */
  predicate KeyTaken(own: Own, c: Credits, packet: seq<byte>) {
    0 < |packet| <= 250 && packet[0] == |packet| - 1 && own.key != [] && MaySetKey(c, packet[1..])
  }

  function OnPublicKey(own: Own, s: Session, c: Credits, packet: seq<byte>): (r: (Session, Credits, Option<Statement>)) {
    if !KeyTaken(own, c, packet) then (s, c, None)
    else
      var taken := SetSecureIdent(c, packet[1..]);
      if s.wish == SignatureNeeded then (AfterSigning(own, s, taken), taken, SignatureFor(own, s, taken))
      else (s, taken, None)
  }

  /** The kind that a signature packet carries, if it is well formed. */
  function Kind(s: Session, packet: seq<byte>): Option<byte> {
    if packet == [] || |packet| > 250 then None
    else if packet[0] == |packet| - 1 then Some(0)
    else if packet[0] == |packet| - 2 && s.v2 then Some(packet[|packet| - 1])
    else None
  }

  /** A signature is looked at once for each IP, and only if we have a key and have sent a challenge. */
  predicate Examined(own: Own, s: Session, c: Credits, packet: seq<byte>) {
    && Kind(s, packet).Some? && own.key != [] && s.lastSignatureIp != s.ip && c.key != [] && c.challengeFor != 0
  }

  /** The message that the signature must be of. */
  function Expected(own: Own, s: Session, c: Credits, kind: byte): seq<byte> {
    Message(own.key, c.challengeFor, ChallengeIp(own, kind, s.ip), kind)
  }

  function OnSignature(own: Own, s: Session, c: Credits, packet: seq<byte>, valid: bool): (r: (Session, Credits)) {
    if !Examined(own, s, c, packet) then (s, c)
    else
      (s.(lastSignatureIp := s.ip),
       if valid then Verified(c, s.ip) else if c.ident == IdNeeded then c.(ident := IdFailed) else c)
  }

  /** After one signature has been examined at an address, good or bad, no other is until the address changes. */
  lemma OncePerAddress(own: Own, s: Session, c: Credits, packet: seq<byte>, valid: bool, other: seq<byte>, again: bool)
    requires Examined(own, s, c, packet)
    ensures var (s1, c1) := OnSignature(own, s, c, packet, valid);
            OnSignature(own, s1, c1, other, again) == (s1, c1) && c1.ident != IdNeeded
  {
  }

  /** The first proof of a key stores it, and what was downloaded before, if anything, counts no more; later ones leave the totals. */
  lemma FirstProof(c: Credits, ip: uint32)
    requires c.key != []
    ensures var d := Verified(c, ip);
            && GetCurrentIdentState(d, ip) == Identified && d.stored != []
            && (c.stored == [] && c.downloaded > 0 ==> d.stored == c.key && d.downloaded == 1 && d.uploaded == 1)
            && (c.stored == [] && c.downloaded == 0 ==> d.stored == c.key && d.downloaded == 0 && d.uploaded == c.uploaded)
            && (c.stored != [] ==> d.stored == c.stored && d.downloaded == c.downloaded && d.uploaded == c.uploaded)
  {
  }

  // ---- What a message determines ----

  lemma EncodeInjective(a: uint32, b: uint32)
    ensures Encode(a, 4) == Encode(b, 4) <==> a == b
  {
    SpanValues();
    DecodeEncode(a, 4);
    DecodeEncode(b, 4);
  }

  /** A version 1 statement names no IP. */
  predicate Normal(st: Statement) { st.kind == 0 ==> st.ip == 0 }

  /** Equal messages of one signer are the same statement exactly when they are about keys of the same length. */
  lemma MessageInjective(a: Statement, b: Statement)
    requires Normal(a) && Normal(b) && a.signer == b.signer && Signed(a) == Signed(b)
    ensures a == b <==> |a.about| == |b.about|
  {
    var n := |a.about|;
    if n == |b.about| {
      assert Signed(a)[..n] == a.about && Signed(b)[..n] == b.about;
      assert Signed(a)[n..n + 4] == Encode(a.challenge, 4) && Signed(b)[n..n + 4] == Encode(b.challenge, 4);
      EncodeInjective(a.challenge, b.challenge);
      assert a.kind != 0 ==> |Signed(a)| == n + 9;
      assert b.kind != 0 ==> |Signed(b)| == n + 9;
      if a.kind != 0 && b.kind != 0 {
        assert Signed(a)[n + 4..n + 8] == Encode(a.ip, 4) && Signed(b)[n + 4..n + 8] == Encode(b.ip, 4);
        EncodeInjective(a.ip, b.ip);
        assert Signed(a)[n + 8] == a.kind && Signed(b)[n + 8] == b.kind;
      }
    }
  }

  /**
   * With keys of different lengths the versions are confused: a version 1 message about a key is also a version 2
   * message about the key without its last five bytes, if the challenge ends in the byte that is the kind.
   */
  lemma VersionsConfused(key: Key, challenge: uint32, kind: byte)
    requires |key| >= 5 && kind != 0
    ensures (exists st :: Normal(st) && st.kind == kind && Signed(st) == Message(key, challenge, 0, 0)) <==> challenge / 0x100_0000 == kind
    ensures challenge / 0x100_0000 == kind ==> Signed(Confused([], key, challenge)) == Message(key, challenge, 0, 0)
  {
    var whole := Message(key, challenge, 0, 0);
    HighByte(challenge);
    assert whole[|key| + 3] == Encode(challenge, 4)[3];
    forall st | Normal(st) && st.kind == kind && Signed(st) == whole
      ensures challenge / 0x100_0000 == kind
    {
      assert Signed(st)[|Signed(st)| - 1] == kind;
    }
    if challenge / 0x100_0000 == kind {
      ConfusedMessage([], key, challenge);
      assert Normal(Confused([], key, challenge));
    }
  }

  /** The version 2 statement about the shortened key that has the bytes of the version 1 message. */
  function Confused(signer: Key, key: Key, challenge: uint32): Statement
    requires |key| >= 5
  {
    var n := |key| - 5;
    Statement(signer, key[..n], FourBytes(key[n..n + 4]), FourBytes([key[n + 4]] + Encode(challenge, 4)[..3]), Encode(challenge, 4)[3])
  }

  function FourBytes(bs: seq<byte>): uint32
    requires |bs| == 4
  {
    SpanValues();
    Decode(bs)
  }

  lemma ConfusedMessage(signer: Key, key: Key, challenge: uint32)
    requires |key| >= 5 && Encode(challenge, 4)[3] != 0
    ensures Signed(Confused(signer, key, challenge)) == Message(key, challenge, 0, 0)
  {
    var n := |key| - 5;
    EncodeDecode(key[n..n + 4]);
    EncodeDecode([key[n + 4]] + Encode(challenge, 4)[..3]);
    assert Encode(challenge, 4) == Encode(challenge, 4)[..3] + [Encode(challenge, 4)[3]];
    hide Encode, Decode;
    var c := Encode(challenge, 4);
    calc {
      Signed(Confused(signer, key, challenge));
      key[..n] + key[n..n + 4] + ([key[n + 4]] + c[..3] + [c[3]]);
      key + c;
    }
  }

  lemma HighByte(n: uint32)
    ensures Encode(n, 4)[3] == n / 0x100_0000
  {
    assert Encode(n, 4)[1..] == Encode(n / 256, 3);
    assert Encode(n / 256, 3)[1..] == Encode(n / 256 / 256, 2);
    assert Encode(n / 256 / 256, 2)[1..] == Encode(n / 256 / 256 / 256, 1);
    assert Encode(n, 4)[3] == Encode(n / 256 / 256 / 256, 1)[0];
    hide Encode;
    assert n / 256 / 256 / 256 == n / 0x100_0000;
  }
}
