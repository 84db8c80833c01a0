/** Lists whose old entries are dropped as a side effect: CClientList's bans, and its logs of recent requests. */
module ExpiringLists {
  import opened Options

  const CLIENTBANTIME: nat := 7200000
  const BAN_CLEANUP_TIME: nat := 1200000
  /** How long a firewall check or a direct callback request is remembered: 180 seconds. */
  const WINDOW: nat := 180000

  // ---- Bans ----

  datatype Bans = Bans(banned: map<nat, nat>, lastCleanUp: nat)

  datatype BanEvent = Ban(ip: nat, at: nat) | Unban(ip: nat, at: nat) | Ask(ip: nat, at: nat) | Process(at: nat)

  function Unexpired(banned: map<nat, nat>, now: nat): map<nat, nat> {
    map ip | ip in banned && banned[ip] + CLIENTBANTIME >= now :: banned[ip]
  }

  function BanStep(b: Bans, e: BanEvent): (Bans, bool) {
    match e
    case Ban(ip, at) => (b.(banned := b.banned[ip := at]), false)
    case Unban(ip, at) => (b.(banned := b.banned - {ip}), false)
    case Ask(ip, at) =>
      if ip in b.banned && b.banned[ip] + CLIENTBANTIME > at then (b, true) else (b.(banned := b.banned - {ip}), false)
    case Process(at) =>
      (if b.lastCleanUp + BAN_CLEANUP_TIME < at then Bans(Unexpired(b.banned, at), at) else b, false)
  }

  function BanRun(b: Bans, es: seq<BanEvent>): (Bans, seq<bool>)
    decreases |es|
  {
    if es == [] then (b, [])
    else
      var (b1, answer) := BanStep(b, es[0]);
      var (b2, rest) := BanRun(b1, es[1..]);
      (b2, [answer] + rest)
  }

  /** When the IP was last banned, unless it was pardoned since. */
  function LastBan(past: seq<BanEvent>, ip: nat): Option<nat> {
    if past == [] then None
    else
      var e := past[|past| - 1];
      if e.Ban? && e.ip == ip then Some(e.at)
      else if e.Unban? && e.ip == ip then None
      else LastBan(past[..|past| - 1], ip)
  }

  /** What the full history says. */
  predicate BannedAt(past: seq<BanEvent>, ip: nat, now: nat) {
    LastBan(past, ip).Some? && LastBan(past, ip).value + CLIENTBANTIME > now
  }

  predicate InOrder(es: seq<BanEvent>, from: nat)
    decreases |es|
  {
    es == [] || (es[0].at >= from && InOrder(es[1..], es[0].at))
  }

  /** The map holds the last bans; those that it lost are over. */
  ghost predicate Tells(banned: map<nat, nat>, past: seq<BanEvent>, now: nat) {
    forall ip: nat ::
      if ip in banned then LastBan(past, ip) == Some(banned[ip])
      else LastBan(past, ip).Some? ==> LastBan(past, ip).value + CLIENTBANTIME <= now
  }

  lemma StepTells(b: Bans, past: seq<BanEvent>, e: BanEvent, now: nat)
    requires Tells(b.banned, past, now) && now <= e.at
    ensures Tells(BanStep(b, e).0.banned, past + [e], e.at)
    ensures e.Ask? ==> BanStep(b, e).1 == BannedAt(past, e.ip, e.at)
  {
    assert (past + [e])[..|past|] == past;
    forall ip: nat
      ensures LastBan(past + [e], ip) ==
        if e.Ban? && e.ip == ip then Some(e.at) else if e.Unban? && e.ip == ip then None else LastBan(past, ip)
    {
    }
  }

  /** Whatever is forgotten along the way, every question is answered as the full history of bans and pardons would. */
  lemma {:induction false} PruningUnobservable(b: Bans, past: seq<BanEvent>, es: seq<BanEvent>, now: nat)
    requires Tells(b.banned, past, now) && InOrder(es, now)
    ensures |BanRun(b, es).1| == |es|
    ensures forall i :: 0 <= i < |es| && es[i].Ask? ==> BanRun(b, es).1[i] == BannedAt(past + es[..i], es[i].ip, es[i].at)
    decreases |es|
  {
    if es != [] {
      StepTells(b, past, es[0], now);
      var b1 := BanStep(b, es[0]).0;
      PruningUnobservable(b1, past + [es[0]], es[1..], es[0].at);
      forall i | 0 <= i < |es| && es[i].Ask?
        ensures BanRun(b, es).1[i] == BannedAt(past + es[..i], es[i].ip, es[i].at)
      {
        if i == 0 {
          assert past + es[..0] == past;
        } else {
          assert past + [es[0]] + es[1..][..i - 1] == past + es[..i];
        }
      }
    }
  }

  class BanList {
    var banned: map<nat, nat>
    var lastCleanUp: nat

    constructor (now: nat)
      ensures State() == Bans(map[], now)
    {
      banned, lastCleanUp := map[], now;
    }

    ghost function State(): Bans
      reads this
    {
      Bans(banned, lastCleanUp)
    }

    method AddBannedClient(ip: nat, now: nat)
      modifies this`banned
      ensures State() == BanStep(old(State()), Ban(ip, now)).0
    {
      banned := banned[ip := now];
    }

    method RemoveBannedClient(ip: nat)
      modifies this`banned
      ensures forall at: nat :: State() == BanStep(old(State()), Unban(ip, at)).0
    {
      banned := banned - {ip};
    }

    method IsBannedClient(ip: nat, now: nat) returns (yes: bool)
      modifies this`banned
      ensures (State(), yes) == BanStep(old(State()), Ask(ip, now))
    {
      if ip in banned {
        if banned[ip] + CLIENTBANTIME > now {
          return true;
        }
        RemoveBannedClient(ip);
        assert forall at: nat :: State() == BanStep(old(State()), Unban(ip, at)).0;
        assert State() == BanStep(old(State()), Unban(ip, now)).0;
      }
      assert ip !in old(banned) ==> old(banned) - {ip} == old(banned);
      yes := false;
    }

    method ProcessBans(now: nat)
      modifies this
      ensures State() == BanStep(old(State()), Process(now)).0
    {
      if lastCleanUp + BAN_CLEANUP_TIME < now {
        lastCleanUp := now;
        var todo := banned.Keys;
        while todo != {}
          invariant lastCleanUp == now && todo <= banned.Keys <= old(banned).Keys
          invariant forall ip :: ip in banned ==> banned[ip] == old(banned)[ip]
          invariant forall ip :: ip in old(banned) && ip !in todo ==> (ip in banned <==> old(banned)[ip] + CLIENTBANTIME >= now)
          decreases |todo|
        {
          var ip :| ip in todo;
          todo := todo - {ip};
          if banned[ip] + CLIENTBANTIME < now {
            banned := banned - {ip};
          }
        }
      }
    }
  }

  // ---- Logs of requests, newest first ----

  datatype IpAndTicks = IpAndTicks(ip: nat, inserted: nat)

  type Log = seq<IpAndTicks>

  /** The log without its old end. */
  function Trimmed(log: Log, now: nat): Log {
    if log == [] then [] else if now > log[|log| - 1].inserted + WINDOW then Trimmed(log[..|log| - 1], now) else log
  }

  predicate Recent(log: Log, ip: nat, now: nat) {
    exists i :: 0 <= i < |log| && log[i].ip == ip && now < log[i].inserted + WINDOW
  }

  /** Newest first, nothing from the future. */
  predicate Sorted(log: Log, now: nat) {
    && (forall i :: 0 <= i < |log| ==> log[i].inserted <= now)
    && forall i, j :: 0 <= i < j < |log| ==> log[i].inserted >= log[j].inserted
  }

  /** What goes is over and stays over; as the log is sorted, everything that is over goes. */
  lemma {:induction false} TrimmedExactly(log: Log, now: nat)
    ensures Trimmed(log, now) <= log
    ensures forall i :: |Trimmed(log, now)| <= i < |log| ==> log[i].inserted + WINDOW < now
    ensures Sorted(log, now) ==> forall e :: e in Trimmed(log, now) ==> e.inserted + WINDOW >= now
  {
    if log != [] && now > log[|log| - 1].inserted + WINDOW {
      TrimmedExactly(log[..|log| - 1], now);
    }
  }

  class RequestLog {
    var log: Log

    constructor ()
      ensures log == []
    {
      log := [];
    }

    method Add(ip: nat, now: nat)
      requires Sorted(log, now)
      modifies this
      ensures log == Trimmed([IpAndTicks(ip, now)] + old(log), now) && Sorted(log, now)
    {
      log := [IpAndTicks(ip, now)] + log;
      while log != []
        invariant Sorted(log, now) && Trimmed(log, now) == Trimmed([IpAndTicks(ip, now)] + old(log), now)
        decreases |log|
      {
        if now - log[|log| - 1].inserted > WINDOW {
          log := log[..|log| - 1];
        } else {
          break;
        }
      }
    }

    method IsRecent(ip: nat, now: nat) returns (yes: bool)
      requires Sorted(log, now)
      ensures yes == Recent(log, ip, now)
    {
      var i := 0;
      while i < |log|
        invariant i <= |log| && forall k :: 0 <= k < i ==> !(log[k].ip == ip && now < log[k].inserted + WINDOW)
      {
        if log[i].ip == ip && now - log[i].inserted < WINDOW {
          return true;
        }
        i := i + 1;
      }
      yes := false;
    }
  }

  datatype LogEvent = Request(ip: nat, at: nat) | Query(ip: nat, at: nat)

  function LogStep(log: Log, e: LogEvent): (Log, bool) {
    match e
    case Request(ip, at) => (Trimmed([IpAndTicks(ip, at)] + log, at), false)
    case Query(ip, at) => (log, Recent(log, ip, at))
  }

  function LogRun(log: Log, es: seq<LogEvent>): (Log, seq<bool>)
    decreases |es|
  {
    if es == [] then (log, [])
    else
      var (l1, answer) := LogStep(log, es[0]);
      var (l2, rest) := LogRun(l1, es[1..]);
      (l2, [answer] + rest)
  }

  /** Whether one of these requests came from the IP, less than the window ago. */
  predicate Asked(past: seq<LogEvent>, ip: nat, now: nat) {
    exists i :: 0 <= i < |past| && past[i] == Request(ip, past[i].at) && now < past[i].at + WINDOW
  }

  predicate LogInOrder(es: seq<LogEvent>, from: nat)
    decreases |es|
  {
    es == [] || (es[0].at >= from && LogInOrder(es[1..], es[0].at))
  }

  /** The log is sorted, and answers every later question as all the requests would. */
  ghost predicate Reflects(log: Log, past: seq<LogEvent>, now: nat) {
    && Sorted(log, now)
    && forall ip, at :: at >= now ==> Recent(log, ip, at) == Asked(past, ip, at)
  }

  lemma AskedMore(past: seq<LogEvent>, e: LogEvent, ip: nat, now: nat)
    ensures Asked(past + [e], ip, now) <==> Asked(past, ip, now) || (e == Request(ip, e.at) && now < e.at + WINDOW)
  {
    var more := past + [e];
    if Asked(past, ip, now) {
      var i :| 0 <= i < |past| && past[i] == Request(ip, past[i].at) && now < past[i].at + WINDOW;
      assert more[i] == past[i];
    }
    if e == Request(ip, e.at) && now < e.at + WINDOW {
      assert more[|past|] == e;
    }
  }

  lemma RecentMore(log: Log, x: IpAndTicks, ip: nat, at: nat, now: nat)
    requires at <= now
    ensures Recent(Trimmed([x] + log, at), ip, now) <==> Recent(log, ip, now) || (x.ip == ip && now < x.inserted + WINDOW)
  {
    var more := [x] + log;
    TrimmedExactly(more, at);
    if Recent(log, ip, now) {
      var i :| 0 <= i < |log| && log[i].ip == ip && now < log[i].inserted + WINDOW;
      assert more[i + 1] == log[i] && Trimmed(more, at)[i + 1] == log[i];
    }
    if x.ip == ip && now < x.inserted + WINDOW {
      assert more[0] == x && Trimmed(more, at)[0] == x;
    }
  }

  lemma StepReflects(log: Log, past: seq<LogEvent>, e: LogEvent, now: nat)
    requires Reflects(log, past, now) && now <= e.at
    ensures Reflects(LogStep(log, e).0, past + [e], e.at)
  {
    forall ip, at | at >= e.at ensures Recent(LogStep(log, e).0, ip, at) == Asked(past + [e], ip, at) {
      AskedMore(past, e, ip, at);
      if e.Request? {
        RecentMore(log, IpAndTicks(e.ip, e.at), ip, e.at, at);
      }
    }
    if e.Request? {
      TrimmedExactly([IpAndTicks(e.ip, e.at)] + log, e.at);
    }
  }

  /** Both kinds of request log answer every question as if no entry had ever been dropped. */
  lemma {:induction false} TrimmingUnobservable(log: Log, past: seq<LogEvent>, es: seq<LogEvent>, now: nat)
    requires Reflects(log, past, now) && LogInOrder(es, now)
    ensures |LogRun(log, es).1| == |es|
    ensures forall i :: 0 <= i < |es| && es[i].Query? ==> LogRun(log, es).1[i] == Asked(past + es[..i], es[i].ip, es[i].at)
    decreases |es|
  {
    if es != [] {
      StepReflects(log, past, es[0], now);
      TrimmingUnobservable(LogStep(log, es[0]).0, past + [es[0]], es[1..], es[0].at);
      forall i | 0 <= i < |es| && es[i].Query?
        ensures LogRun(log, es).1[i] == Asked(past + es[..i], es[i].ip, es[i].at)
      {
        if i == 0 {
          assert past + es[..0] == past;
        } else {
          assert past + [es[0]] + es[1..][..i - 1] == past + es[..i];
        }
      }
    }
  }
}
