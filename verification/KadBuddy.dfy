/** The Kad side of CClientList: the set of Kad sources, and the one client that is our buddy. */
module KadBuddy {

  datatype KadState =
    | NoState
    | QueuedFwCheck | ConnectingFwCheck | ConnectedFwCheck
    | QueuedBuddy | IncomingBuddy | ConnectingBuddy | ConnectedBuddy
    | QueuedFwCheckUdp | FwCheckUdp | ConnectingFwCheckUdp
  {
    /** The states that make a pass believe that a buddy is there or on its way. */
    predicate Promising() { QueuedBuddy? || ConnectingBuddy? || ConnectedBuddy? }

    /** A queued firewall check is on its way once a connection is attempted. */
    function Attempted(): KadState {
      if QueuedFwCheck? then ConnectingFwCheck else if QueuedFwCheckUdp? then ConnectingFwCheckUdp else this
    }
  }

  datatype BuddyStatus = Disconnected | Connecting | Connected

  class Peer {
    var kadState: KadState
    const hasLowID: bool

    constructor (hasLowID: bool)
      ensures kadState.NoState? && this.hasLowID == hasLowID
    {
      this.hasLowID, kadState := hasLowID, NoState;
    }
  }

  class KadList {
    var kadSources: set<Peer>
    var buddy: Peer?
    var status: BuddyStatus

    constructor ()
      ensures Valid() && kadSources == {}
    {
      kadSources, buddy, status := {}, null, Disconnected;
    }

    /** A buddy is linked exactly while the status says Connected, and it is always a Kad source. */
    ghost predicate Valid()
      reads this
    {
      (buddy != null <==> status.Connected?) && (buddy != null ==> buddy in kadSources)
    }

    method AddToKadList(toadd: Peer)
      requires Valid()
      modifies this`kadSources
      ensures Valid() && kadSources == old(kadSources) + {toadd}
    {
      kadSources := kadSources + {toadd};
    }

    method RemoveFromKadList(torem: Peer)
      requires Valid()
      modifies this
      ensures Valid() && kadSources == old(kadSources) - {torem}
      ensures buddy == (if torem == old(buddy) then null else old(buddy))
      ensures status == if torem == old(buddy) then Disconnected else old(status)
    {
      if torem in kadSources {
        kadSources := kadSources - {torem};
        if torem == buddy {
          buddy := null;
          status := Disconnected;
        }
      }
    }

    /** CUpDownClient::Disconnected and Safe_Delete, as far as they reach here. */
    method Delete(peer: Peer)
      requires Valid()
      modifies this, peer
      ensures Valid() && kadSources == old(kadSources) - {peer} && peer.kadState.NoState?
      ensures buddy == (if peer == old(buddy) then null else old(buddy))
      ensures status == if peer == old(buddy) then Disconnected else old(status)
    {
      peer.kadState := NoState;
      RemoveFromKadList(peer);
    }

    /**
     * RequestBuddy, RequestTCP, IncomingBuddy and DoRequestFirewallCheckUDP: a client not busy with Kad is given a
     * task, unless the contact is declined, being ourselves, known, or at an address under a firewall check.
     */
    method Enlist(peer: Peer, task: KadState, declined: bool)
      requires Valid()
      requires task.QueuedBuddy? || task.QueuedFwCheck? || task.IncomingBuddy? || task.QueuedFwCheckUdp?
      modifies this`kadSources, peer
      ensures Valid()
      ensures !declined && old(peer.kadState).NoState? ==> peer.kadState == task && kadSources == old(kadSources) + {peer}
      ensures declined || !old(peer.kadState).NoState? ==> peer.kadState == old(peer.kadState) && kadSources == old(kadSources)
    {
      if declined || peer.kadState != NoState {
        return;
      }
      peer.kadState := task;
      AddToKadList(peer);
    }

    /** ConnectionEstablished. */
    method Established(peer: Peer)
      requires Valid()
      modifies peer
      ensures Valid()
      ensures peer.kadState.ConnectedBuddy? <==> old(peer.kadState) in {ConnectingBuddy, IncomingBuddy, ConnectedBuddy}
      ensures peer.kadState.ConnectedFwCheck? <==> old(peer.kadState) in {ConnectingFwCheck, ConnectedFwCheck}
      ensures peer.kadState.FwCheckUdp? <==> old(peer.kadState) in {ConnectingFwCheckUdp, FwCheckUdp}
      ensures old(peer.kadState) in {NoState, QueuedFwCheck, QueuedFwCheckUdp, QueuedBuddy} ==> peer.kadState == old(peer.kadState)
    {
      match peer.kadState {
        case ConnectingFwCheck => peer.kadState := ConnectedFwCheck;
        case ConnectingBuddy => peer.kadState := ConnectedBuddy;
        case IncomingBuddy => peer.kadState := ConnectedBuddy;
        case ConnectingFwCheckUdp => peer.kadState := FwCheckUdp;
        case _ =>
      }
    }

    /** TryToConnect, or a packet that needs a connection: the attempt may end with this client deleted, and any others too. */
    method TryToConnect(peer: Peer)
      requires Valid()
      modifies this, peer, kadSources
      ensures Valid() && kadSources <= old(kadSources)
      ensures buddy == old(buddy) || (buddy == null && status.Disconnected?)
      ensures buddy == old(buddy) ==> status == old(status)
      ensures forall p :: p in old(kadSources) && p != peer ==> p.kadState == old(p.kadState) || p.kadState.NoState?
      ensures peer.kadState.NoState? || peer.kadState == old(peer.kadState).Attempted()
    {
      match peer.kadState {
        case QueuedFwCheck => peer.kadState := ConnectingFwCheck;
        case QueuedFwCheckUdp => peer.kadState := ConnectingFwCheckUdp;
        case _ =>
      }
      var fails: bool := *;
      if fails {
        Delete(peer);
      }
      var doomed := *;
      doomed := doomed * kadSources;
      while doomed != {}
        invariant Valid() && doomed <= kadSources <= old(kadSources)
        invariant buddy == old(buddy) || (buddy == null && status.Disconnected?)
        invariant buddy == old(buddy) ==> status == old(status)
        invariant forall p :: p in old(kadSources) && p != peer ==> p.kadState == old(p.kadState) || p.kadState.NoState?
        invariant peer.kadState.NoState? || peer.kadState == old(peer.kadState).Attempted()
        decreases doomed
      {
        var p :| p in doomed;
        doomed := doomed - {p};
        Delete(p);
      }
    }

    /** The switch of Process for one source. `seen` is its local flag: whether some buddy is there or on its way. */
    method Visit(cur: Peer, kadRunning: bool, pings: bool, seen: BuddyStatus) returns (now: BuddyStatus)
      requires Valid() && cur in kadSources
      modifies this, cur, kadSources
      ensures Valid() && kadSources <= old(kadSources)
      ensures !kadRunning || old(cur.kadState).NoState? ==> cur !in kadSources
      ensures !kadRunning || !old(cur.kadState).Promising() ==> now == seen
      ensures kadRunning && old(cur.kadState).QueuedFwCheck? ==> cur.kadState in {ConnectingFwCheck, NoState}
      ensures kadRunning && old(cur.kadState).QueuedFwCheckUdp? ==> cur.kadState in {ConnectingFwCheckUdp, NoState}
      ensures kadRunning && old(cur.kadState).ConnectedFwCheck? ==> cur.kadState.NoState?
      ensures kadRunning && old(cur.kadState) in {IncomingBuddy, QueuedBuddy, ConnectingBuddy} && old(status).Connected? ==>
        cur.kadState.NoState? && now == seen
      ensures kadRunning && old(cur.kadState).QueuedBuddy? && old(status).Disconnected? ==>
        now.Connecting? && cur.kadState in {ConnectingBuddy, NoState} && !status.Connected?
      ensures kadRunning && old(cur.kadState).QueuedBuddy? && old(status).Connecting? ==>
        now == seen && cur.kadState.QueuedBuddy? && status.Connecting?
      ensures kadRunning && old(cur.kadState).ConnectingBuddy? && !old(status).Connected? ==>
        now.Connecting? && cur.kadState.ConnectingBuddy? && status == old(status)
      ensures kadRunning && old(cur.kadState).ConnectedBuddy? ==>
        now.Connected? && (buddy == (if old(status).Connected? then old(buddy) else cur) || (pings && buddy == null))
      ensures kadRunning && old(cur.kadState) in {ConnectingFwCheck, FwCheckUdp, ConnectingFwCheckUdp} ==>
        cur.kadState == old(cur.kadState) && kadSources == old(kadSources) && buddy == old(buddy) && status == old(status)
      ensures kadRunning && old(cur.kadState).IncomingBuddy? && !old(status).Connected? ==>
        cur.kadState.IncomingBuddy? && kadSources == old(kadSources) && status == old(status)
      ensures forall p :: p in old(kadSources) && p != cur ==> p.kadState == old(p.kadState) || p.kadState.NoState?
    {
      now := seen;
      if !kadRunning {
        cur.kadState := NoState;
      }
      match cur.kadState {
        case QueuedFwCheck => TryToConnect(cur);
        case QueuedFwCheckUdp => TryToConnect(cur);
        case ConnectingFwCheck =>
        case FwCheckUdp =>
        case ConnectingFwCheckUdp =>
        case ConnectedFwCheck =>
          TryToConnect(cur);
          cur.kadState := NoState;
        case IncomingBuddy =>
          if status.Connected? {
            cur.kadState := NoState;
          }
        case QueuedBuddy =>
          if status.Disconnected? {
            now := Connecting;
            status := Connecting;
            cur.kadState := ConnectingBuddy;
            TryToConnect(cur);
          } else if status.Connected? {
            cur.kadState := NoState;
          }
        case ConnectingBuddy =>
          if status.Connected? {
            cur.kadState := NoState;
          } else {
            now := Connecting;
          }
        case ConnectedBuddy =>
          now := Connected;
          if !status.Connected? {
            buddy := cur;
            status := Connected;
          }
          if buddy == cur && pings {
            TryToConnect(cur);
          }
        case NoState =>
          RemoveFromKadList(cur);
      }
    }

    /**
     * One pass, in any order of the sources and whichever of them are deleted on the way. The buddy
     * invariant holds at every step of it. Sources that were done with Kad leave, all of them if Kad is not
     * running; and if no source gave reason to expect a buddy, the pass ends without one, whatever
     * status it found.
     */
    method Process(kadRunning: bool, kadConnected: bool, firewalled: bool, pings: bool)
      requires Valid()
      modifies this, kadSources
      ensures Valid() && kadSources <= old(kadSources)
      ensures forall p :: p in kadSources ==> kadRunning && !old(p.kadState).NoState?
      ensures !kadRunning || (forall p :: p in old(kadSources) ==> old(p.kadState) !in {QueuedBuddy, ConnectingBuddy, ConnectedBuddy}) ==>
        status.Disconnected? && buddy == null
      ensures !kadConnected && buddy != null ==> buddy.kadState.NoState?
    {
      var seen := Disconnected;
      var todo := kadSources;
      while todo != {}
        invariant Valid() && kadSources <= old(kadSources) && todo <= old(kadSources)
        invariant forall p :: p in kadSources - todo ==> kadRunning && !old(p.kadState).NoState?
        invariant forall p :: p in todo ==> p.kadState == old(p.kadState) || p.kadState.NoState?
        invariant !kadRunning || (forall p :: p in old(kadSources) ==> !old(p.kadState).Promising()) ==> seen.Disconnected?
        decreases todo
      {
        var cur :| cur in todo;
        todo := todo - {cur};
        if cur in kadSources {
          seen := Visit(cur, kadRunning, pings, seen);
        }
      }
      if seen.Disconnected? {
        if !status.Disconnected? || buddy != null {
          buddy := null;
          status := Disconnected;
        }
      }
      if kadConnected {
        if !firewalled && buddy != null && !buddy.hasLowID {
          buddy.kadState := NoState;
        }
      } else if buddy != null {
        buddy.kadState := NoState;
      }
    }
  }
}
