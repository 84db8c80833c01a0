/** CClientCredits, and CUpDownClient's part of the secure identification, as the objects that the packets change. */
module SecureIdent {
  import opened Bytes
  import opened Options
  import M = IdentModel

  class ClientCredits {
    var stored: M.Key
    var publicKey: M.Key
    var identState: M.Ident
    var identIp: M.uint32
    var downloaded: nat
    var uploaded: nat
    var challengeFor: M.uint32
    var challengeFrom: M.uint32

    ghost function State(): M.Credits
      reads this
    {
      M.Credits(stored, publicKey, identState, identIp, downloaded, uploaded, challengeFor, challengeFrom)
    }

    constructor (stored: M.Key, downloaded: nat, uploaded: nat)
      ensures this.stored == stored && this.downloaded == downloaded && this.uploaded == uploaded
      ensures M.InitalizeIdent(State()) == State()
    {
      this.stored, this.downloaded, this.uploaded := stored, downloaded, uploaded;
      publicKey, identIp, challengeFor, challengeFrom := stored, 0, 0, 0;
      identState := if stored == [] then M.NotAvailable else M.IdNeeded;
    }

    method Verified(ip: M.uint32)
      modifies this
      ensures State() == M.Verified(old(State()), ip)
    {
      identIp := ip;
      if stored == [] {
        stored := publicKey;
        if downloaded > 0 {
          downloaded, uploaded := 1, 1;
        }
      }
      identState := M.Identified;
    }

    method SetSecureIdent(key: M.Key) returns (ok: bool)
      modifies this`publicKey, this`identState
      ensures State() == M.SetSecureIdent(old(State()), key) && ok == M.MaySetKey(old(State()), key)
    {
      if M.MAXPUBKEYSIZE < |key| || stored != [] {
        return false;
      }
      publicKey, identState := key, M.IdNeeded;
      ok := true;
    }

    method AddDownloaded(bytes: nat, ip: M.uint32, cryptoAvailable: bool)
      modifies this`downloaded
      ensures State() == old(State()).(downloaded := old(downloaded) + if M.Counts(old(State()), ip, cryptoAvailable) then bytes else 0)
      ensures downloaded == old(downloaded) + if !cryptoAvailable || identState == M.NotAvailable || (identState == M.Identified && identIp == ip) then bytes else 0
    {
      match GetCurrentIdentState(ip)
      case IdFailed | IdBadGuy | IdNeeded =>
        if cryptoAvailable {
          return;
        }
        downloaded := downloaded + bytes;
      case NotAvailable | Identified =>
        downloaded := downloaded + bytes;
    }

    method AddUploaded(bytes: nat, ip: M.uint32, cryptoAvailable: bool)
      modifies this`uploaded
      ensures State() == old(State()).(uploaded := old(uploaded) + if M.Counts(old(State()), ip, cryptoAvailable) then bytes else 0)
      ensures uploaded == old(uploaded) + if !cryptoAvailable || identState == M.NotAvailable || (identState == M.Identified && identIp == ip) then bytes else 0
    {
      match GetCurrentIdentState(ip)
      case IdFailed | IdBadGuy | IdNeeded =>
        if cryptoAvailable {
          return;
        }
        uploaded := uploaded + bytes;
      case NotAvailable | Identified =>
        uploaded := uploaded + bytes;
    }

    function GetCurrentIdentState(ip: M.uint32): (r: M.Ident)
      reads this
      ensures r == M.Identified <==> State().ident == M.Identified && ip == State().identIp
      ensures State().ident == M.Identified && ip != State().identIp ==> r == M.IdBadGuy
      ensures State().ident != M.Identified ==> r == State().ident
      ensures forall crypto: bool :: M.Counts(State(), ip, crypto) <==> !crypto || r in {M.NotAvailable, M.Identified}
    {
      if identState != M.Identified then identState else if ip == identIp then M.Identified else M.IdBadGuy
    }
  }

  class Client {
    const own: M.Own
    const credits: ClientCredits
    var wish: M.Wish
    var lastSignatureIp: M.uint32
    var ip: M.uint32
    var v1: bool
    var v2: bool

    constructor (own: M.Own, credits: ClientCredits, ip: M.uint32, v1: bool, v2: bool)
      ensures this.own == own && this.credits == credits && State() == M.Session(M.Nothing, 0, ip, v1, v2)
    {
      this.own, this.credits, this.ip, this.v1, this.v2 := own, credits, ip, v1, v2;
      wish, lastSignatureIp := M.Nothing, 0;
    }

    ghost function State(): M.Session
      reads this
    {
      M.Session(wish, lastSignatureIp, ip, v1, v2)
    }

    function CryptoAvailable(): bool { |own.key| > 0 }

    /** The packet, if one is sent, asks for the key (2) or only for a signature (1) of a fresh challenge. */
    method SendSecIdentStatePacket(random: M.uint32) returns (value: nat)
      requires random > 0
      modifies credits`challengeFor
      ensures value == M.Challenge(own, State(), old(credits.State()))
      ensures credits.State() == old(credits.State()).(challengeFor := if value == 0 then old(credits.challengeFor) else random)
    {
      value := 0;
      if CryptoAvailable() {
        if |credits.publicKey| == 0 {
          value := 2;
        } else if lastSignatureIp != ip {
          value := 1;
        }
      }
      if value == 0 {
        return;
      }
      credits.challengeFor := random;
    }

    method ProcessSecIdentStatePacket(value: nat, random: M.uint32)
      modifies this`wish, credits`challengeFrom
      ensures (State(), credits.State()) == M.OnSecIdentState(old(State()), old(credits.State()), value, random)
    {
      match value {
        case 0 => wish := M.Nothing;
        case 1 => wish := M.SignatureNeeded;
        case 2 => wish := M.KeyAndSignNeeded;
        case _ => return;
      }
      credits.challengeFrom := random;
    }

    method SendPublicKeyPacket() returns (key: Option<M.Key>)
      modifies this`wish
      ensures key == if old(wish) == M.KeyAndSignNeeded && own.key != [] then Some(own.key) else None
      ensures wish == if key.Some? then M.SignatureNeeded else old(wish)
    {
      if wish != M.KeyAndSignNeeded || !CryptoAvailable() {
        return None;
      }
      key := Some(own.key);
      wish := M.SignatureNeeded;
    }

    method SendSignaturePacket() returns (made: Option<M.Statement>)
      modifies this`wish
      ensures made == M.SignatureFor(own, old(State()), credits.State())
      ensures State() == M.AfterSigning(own, old(State()), credits.State())
    {
      if wish == M.Nothing || !CryptoAvailable() || |credits.publicKey| == 0 || credits.challengeFrom == 0 {
        return None;
      }
      var kind: byte, challengeIp: M.uint32 := 0, 0;
      if !v1 {
        if own.lowId {
          challengeIp, kind := ip, M.CRYPT_CIP_REMOTECLIENT;
        } else {
          challengeIp, kind := own.ed2kId, M.CRYPT_CIP_LOCALCLIENT;
        }
      }
      made := Some(M.Statement(own.key, credits.publicKey, credits.challengeFrom, challengeIp, kind));
      wish := M.Nothing;
    }

    method ProcessPublicKeyPacket(packet: seq<byte>) returns (made: Option<M.Statement>)
      modifies this`wish, credits`publicKey, credits`identState
      ensures (State(), credits.State(), made) == M.OnPublicKey(own, old(State()), old(credits.State()), packet)
    {
      if |packet| == 0 || packet[0] != |packet| - 1 || |packet| > 250 || !CryptoAvailable() {
        return None;
      }
      var ok := credits.SetSecureIdent(packet[1..]);
      if ok && wish == M.SignatureNeeded {
        made := SendSignaturePacket();
      } else {
        made := None;
      }
    }

    /** VerifyIdent: `valid` is the verdict of the signature primitive on the expected message. */
    method VerifyIdent(valid: bool)
      modifies credits
      ensures credits.State() == if own.key == [] then old(credits.State()).(ident := M.NotAvailable) else if valid then M.Verified(old(credits.State()), ip)
        else if old(credits.identState) == M.IdNeeded then old(credits.State()).(ident := M.IdFailed) else old(credits.State())
    {
      if !CryptoAvailable() {
        credits.identState := M.NotAvailable;
        return;
      }
      if !valid {
        if credits.identState == M.IdNeeded {
          credits.identState := M.IdFailed;
        }
      } else {
        credits.Verified(ip);
      }
    }

    /** `verifies` judges any signature over any message with any key. */
    method ProcessSignaturePacket(packet: seq<byte>, verifies: (M.Key, seq<byte>, seq<byte>) -> bool)
      modifies this`lastSignatureIp, credits
      ensures
        var s, c := old(State()), old(credits.State());
        var valid := M.Examined(own, s, c, packet)
          && verifies(c.key, M.Expected(own, s, c, M.Kind(s, packet).value), packet[1..1 + packet[0]]);
        (State(), credits.State()) == M.OnSignature(own, s, c, packet, valid)
    {
      if |packet| == 0 || |packet| > 250 {
        return;
      }
      var kind: byte;
      if packet[0] == |packet| - 1 {
        kind := 0;
      } else if packet[0] == |packet| - 2 && v2 {
        kind := packet[|packet| - 1];
      } else {
        return;
      }
      if !CryptoAvailable() || lastSignatureIp == ip || |credits.publicKey| == 0 || credits.challengeFor == 0 {
        return;
      }
      var message := M.Message(own.key, credits.challengeFor, M.ChallengeIp(own, kind, ip), kind);
      VerifyIdent(verifies(credits.publicKey, message, packet[1..1 + packet[0]]));
      lastSignatureIp := ip;
    }
  }
}
