/**
 The peer lifecycle of the network as interleaved steps. Every section under peersLock, and every
 single call into the IP tracker or the router, is one atomic step; the steps of any number of
 peers, dial loops and API callers interleave freely. What the IP tracker answers when asked
 whether a connection is wanted is left open: the step carries the answer.
 */
module PeerLifecycle {
  import opened Common
  import opened TrackerModel

  type PeerRef = nat
  type IPRef = nat

  /** Where a peer stands between its start and the end of its Disconnected call. */
  datatype Phase =
    | Handshaking
    | TellTracker            // moved to connectedPeers, the IP tracker is not yet told
    | TellRouter             // the router is not yet told
    | TellSubnets(todo: set<ID>)
    | Live
    | DropConnecting(alsoConnected: bool)
    | UntellTracker
    | UntellRouter
    | DropConnected
    | Gone

  datatype Peer = Peer(node: NodeID, ip: ClaimedIP, subnets: set<ID>, phase: Phase)

  /** A dial loop is at its timer, or past the desirability check and about to dial. */
  datatype Dial = Dial(node: NodeID, dialing: bool)

  datatype RouterCall = RouterConnected(node: NodeID, subnet: ID) | RouterDisconnected(node: NodeID)

  datatype State = State(
    peers: map<PeerRef, Peer>,
    connecting: map<NodeID, PeerRef>,
    connected: map<NodeID, PeerRef>,
    trackedIPs: map<NodeID, IPRef>,
    stopped: set<IPRef>,
    dials: map<IPRef, Dial>,
    closing: bool,
    nextPeer: PeerRef,
    nextIP: IPRef,
    trackerLog: seq<Event>,
    routerLog: seq<RouterCall>)

  function Start(): State {
    State(map[], map[], map[], map[], {}, map[], false, 0, 0, [], [])
  }

  datatype Action =
    | Upgrade(node: NodeID, ip: ClaimedIP, subnets: set<ID>)
    | HandshakeDone(peer: PeerRef)
    | Advance(peer: PeerRef, subnet: ID)
    | BeginDisconnect(peer: PeerRef)
    | LeaveConnecting(peer: PeerRef, wanted: bool)
    | LeaveConnected(peer: PeerRef, wanted: bool)
    | ManuallyTrackIP(node: NodeID)
    | TrackIP(claimed: ClaimedIP, wanted: bool)
    | OtherTrackerCall(event: Event)
    | DialExit(loop: IPRef)
    | DialCheck(loop: IPRef, wanted: bool)
    | DialRetry(loop: IPRef)
    | StartClose

  // ---- Shared pieces of the critical sections ----

  function SetPhase(s: State, p: PeerRef, phase: Phase): State
    requires p in s.peers
  {
    s.(peers := s.peers[p := s.peers[p].(phase := phase)])
  }

  /** Stops the tracked address of a node, if any, and forgets it. */
  function StopTracking(s: State, n: NodeID): State {
    if n in s.trackedIPs then
      s.(stopped := s.stopped + {s.trackedIPs[n]}, trackedIPs := s.trackedIPs - {n})
    else s
  }

  /** Stores a new tracked address for a node and starts dialling it; an old one is not stopped here. */
  function Redial(s: State, n: NodeID): State {
    s.(trackedIPs := s.trackedIPs[n := s.nextIP], dials := s.dials[s.nextIP := Dial(n, false)], nextIP := s.nextIP + 1)
  }

  // ---- The steps ----

  function DoUpgrade(s: State, n: NodeID, ip: ClaimedIP, subnets: set<ID>): State {
    if s.closing || n in s.connecting || n in s.connected then s
    else s.(peers := s.peers[s.nextPeer := Peer(n, ip, subnets, Handshaking)],
            connecting := s.connecting[n := s.nextPeer],
            nextPeer := s.nextPeer + 1)
  }

  function DoHandshakeDone(s: State, p: PeerRef): State
    requires p in s.peers
  {
    var n := s.peers[p].node;
    if n !in s.connecting then SetPhase(s, p, Live)
    else
      var s1 := StopTracking(s, n);
      SetPhase(s1.(connecting := s1.connecting - {n}, connected := s1.connected[n := s1.connecting[n]]), p, TellTracker)
  }

  /** What a peer tells the IP tracker next, outside the lock. */
  function TrackerCalls(x: Peer): seq<Event> {
    if x.phase.TellTracker? then [Connected(x.ip, x.subnets)]
    else if x.phase.UntellTracker? then [Disconnected(x.node)]
    else []
  }

  /** What it tells the router next; the synced subnets come one at a time, in any order. */
  function RouterCalls(x: Peer, subnet: ID): seq<RouterCall> {
    if x.phase.TellRouter? then [RouterConnected(x.node, PRIMARY_NETWORK)]
    else if x.phase.TellSubnets? && subnet in x.phase.todo then [RouterConnected(x.node, subnet)]
    else if x.phase.UntellRouter? then [RouterDisconnected(x.node)]
    else []
  }

  /** Where the peer stands after that call. */
  function NextPhase(mySubnets: set<ID>, x: Peer, subnet: ID): Phase {
    match x.phase
    case TellTracker => TellRouter
    case TellRouter => TellSubnets(mySubnets * x.subnets)
    case TellSubnets(todo) => if todo == {} then Live else TellSubnets(todo - {subnet})
    case UntellTracker => UntellRouter
    case UntellRouter => DropConnected
    case _ => x.phase
  }

  /** The calls a peer makes outside the lock, one at a time. */
  function DoAdvance(mySubnets: set<ID>, s: State, p: PeerRef, subnet: ID): State
    requires p in s.peers
  {
    var x := s.peers[p];
    SetPhase(s.(trackerLog := s.trackerLog + TrackerCalls(x), routerLog := s.routerLog + RouterCalls(x, subnet)),
             p, NextPhase(mySubnets, x, subnet))
  }

  function DoBeginDisconnect(s: State, p: PeerRef): State
    requires p in s.peers
  {
    var n := s.peers[p].node;
    SetPhase(s, p,
             if n in s.connecting then DropConnecting(n in s.connected)
             else if n in s.connected then UntellTracker
             else Gone)
  }

  function DoLeaveConnecting(s: State, p: PeerRef, wanted: bool): State
    requires p in s.peers && s.peers[p].phase.DropConnecting?
  {
    var n := s.peers[p].node;
    var s1 := s.(connecting := s.connecting - {n});
    var s2 := StopTracking(s1, n);
    SetPhase(if n in s.trackedIPs && wanted then Redial(s2, n) else s2, p,
             if s.peers[p].phase.alsoConnected then UntellTracker else Gone)
  }

  function DoLeaveConnected(s: State, p: PeerRef, wanted: bool): State
    requires p in s.peers
  {
    var n := s.peers[p].node;
    var s1 := s.(connected := s.connected - {n});
    SetPhase(if wanted then Redial(s1, n) else s1, p, Gone)
  }

  function DoManuallyTrackIP(s: State, n: NodeID): State {
    if n in s.connected || n in s.trackedIPs then s else Redial(s, n)
  }

  function DoTrackIP(s: State, ip: ClaimedIP, wanted: bool): State {
    var s1 := s.(trackerLog := s.trackerLog + [AddIP(ip)]);
    if !wanted || ip.nodeID in s1.connected then s1
    else Redial(StopTracking(s1, ip.nodeID), ip.nodeID)
  }

  function DoDialCheck(s: State, d: IPRef, wanted: bool): State
    requires d in s.dials
  {
    var n := s.dials[d].node;
    if !wanted then
      var s1 := StopTracking(s, n);
      s1.(dials := s1.dials - {d})
    else if n in s.connecting || n in s.connected then s.(dials := s.dials - {d})
    else s.(dials := s.dials[d := Dial(n, true)])
  }

  function DoStartClose(s: State): State {
    s.(closing := true, stopped := s.stopped + (set n | n in s.trackedIPs :: s.trackedIPs[n]), trackedIPs := map[])
  }

  /** One step; an action whose actor is not at that point changes nothing. */
  function Do(mySubnets: set<ID>, s: State, a: Action): State {
    match a
    case Upgrade(n, ip, subnets) => if ip.nodeID == n then DoUpgrade(s, n, ip, subnets) else s
    case HandshakeDone(p) => if p in s.peers && s.peers[p].phase.Handshaking? then DoHandshakeDone(s, p) else s
    case Advance(p, subnet) => if p in s.peers then DoAdvance(mySubnets, s, p, subnet) else s
    case BeginDisconnect(p) =>
      if p in s.peers && (s.peers[p].phase.Handshaking? || s.peers[p].phase.Live?) then DoBeginDisconnect(s, p) else s
    case LeaveConnecting(p, wanted) =>
      if p in s.peers && s.peers[p].phase.DropConnecting? then DoLeaveConnecting(s, p, wanted) else s
    case LeaveConnected(p, wanted) =>
      if p in s.peers && s.peers[p].phase.DropConnected? then DoLeaveConnected(s, p, wanted) else s
    case ManuallyTrackIP(n) => DoManuallyTrackIP(s, n)
    case TrackIP(ip, wanted) => DoTrackIP(s, ip, wanted)
    case OtherTrackerCall(e) =>
      if e.Connected? || e.Disconnected? then s else s.(trackerLog := s.trackerLog + [e])
    case DialExit(d) =>
      if d in s.dials && (s.closing || d in s.stopped || s.dials[d].dialing) then s.(dials := s.dials - {d}) else s
    case DialCheck(d, wanted) => if d in s.dials && !s.dials[d].dialing then DoDialCheck(s, d, wanted) else s
    case DialRetry(d) =>
      if d in s.dials && s.dials[d].dialing then s.(dials := s.dials[d := Dial(s.dials[d].node, false)]) else s
    case StartClose => DoStartClose(s)
  }

  function Exec(mySubnets: set<ID>, actions: seq<Action>): State {
    if actions == [] then Start()
    else Do(mySubnets, Exec(mySubnets, actions[..|actions| - 1]), actions[|actions| - 1])
  }

  // ---- What every interleaving keeps ----

  predicate InConnecting(ph: Phase) {
    ph.Handshaking? || ph == DropConnecting(false)
  }

  predicate InConnected(ph: Phase) {
    !ph.Handshaking? && !ph.DropConnecting? && !ph.Gone?
  }

  /** A peer that is not gone is the one its set holds under its node ID. */
  ghost predicate PeerPlaced(p: PeerRef, x: Peer, connecting: map<NodeID, PeerRef>, connected: map<NodeID, PeerRef>) {
    || x.phase.Gone?
    || (InConnecting(x.phase) && x.node in connecting && connecting[x.node] == p)
    || (InConnected(x.phase) && x.node in connected && connected[x.node] == p)
  }

  ghost predicate PeersTied(peers: map<PeerRef, Peer>, connecting: map<NodeID, PeerRef>,
                            connected: map<NodeID, PeerRef>, nextPeer: PeerRef)
  {
    && (forall p :: p in peers ==> p < nextPeer && peers[p].ip.nodeID == peers[p].node)
    && (forall p :: p in peers ==> PeerPlaced(p, peers[p], connecting, connected))
    && (forall n :: n in connecting ==> n !in connected)
    && (forall n :: n in connecting ==> connecting[n] in peers && peers[connecting[n]].node == n
                                        && InConnecting(peers[connecting[n]].phase))
    && (forall n :: n in connected ==> connected[n] in peers && peers[connected[n]].node == n
                                       && InConnected(peers[connected[n]].phase))
  }

  ghost predicate PeersOk(s: State) {
    PeersTied(s.peers, s.connecting, s.connected, s.nextPeer)
  }

  /** A live dial loop follows the current entry of its node, or has been told to stop. */
  ghost predicate DialsTied(trackedIPs: map<NodeID, IPRef>, connected: set<NodeID>, stopped: set<IPRef>,
                            dials: map<IPRef, Dial>, nextIP: IPRef)
  {
    && (forall n :: n in trackedIPs ==> n !in connected && trackedIPs[n] < nextIP && trackedIPs[n] !in stopped)
    && (forall n, m :: n in trackedIPs && m in trackedIPs && trackedIPs[n] == trackedIPs[m] ==> n == m)
    && (forall d :: d in dials ==> d < nextIP)
    && (forall d :: d in stopped ==> d < nextIP)
    && (forall d :: d in dials && d !in stopped ==> dials[d].node in trackedIPs && trackedIPs[dials[d].node] == d)
  }

  ghost predicate DialsOk(s: State) {
    DialsTied(s.trackedIPs, s.connected.Keys, s.stopped, s.dials, s.nextIP)
  }

  lemma PeersUpgrade(s: State, n: NodeID, ip: ClaimedIP, subnets: set<ID>)
    requires PeersOk(s) && ip.nodeID == n
    ensures PeersOk(DoUpgrade(s, n, ip, subnets))
  {
    assert InConnecting(Handshaking) && !InConnected(Handshaking);
    hide InConnecting, InConnected;
  }

  lemma PeersHandshakeDone(s: State, p: PeerRef)
    requires PeersOk(s) && p in s.peers && s.peers[p].phase.Handshaking?
    ensures PeersOk(DoHandshakeDone(s, p))
  {
    PlacedIn(s, p);
    PeersMove(s, p);
    hide PeersTied;
  }

  /** A peer moves from the connecting to the connected ones. */
  lemma PeersMove(s: State, p: PeerRef)
    requires PeersOk(s) && p in s.peers && s.peers[p].phase.Handshaking?
    ensures var n := s.peers[p].node;
            PeersTied(s.peers[p := s.peers[p].(phase := TellTracker)], s.connecting - {n}, s.connected[n := p],
                      s.nextPeer)
  {
    PlacedIn(s, p);
    var n, x' := s.peers[p].node, s.peers[p].(phase := TellTracker);
    forall q | q in s.peers && q != p ensures PeerPlaced(q, s.peers[q], s.connecting - {n}, s.connected[n := p]) {
      PlacedElsewhere(s, p, q);
    }
  }

  lemma PlacedElsewhere(s: State, p: PeerRef, q: PeerRef)
    requires PeersOk(s) && p in s.peers && q in s.peers && p != q && s.peers[p].phase.Handshaking?
    ensures var n := s.peers[p].node; PeerPlaced(q, s.peers[q], s.connecting - {n}, s.connected[n := p])
  {
    PlacedIn(s, p);
    if !s.peers[q].phase.Gone? { PlacedIn(s, q); }
  }

  /** A peer changes phase without leaving its set. */
  lemma PeersPhase(s: State, p: PeerRef, phase: Phase)
    requires PeersOk(s) && p in s.peers
    requires (InConnected(s.peers[p].phase) && InConnected(phase)) ||
             (InConnecting(s.peers[p].phase) && InConnecting(phase))
    ensures PeersOk(SetPhase(s, p, phase))
  {
  }

  lemma PeersLeave(s: State, p: PeerRef)
    requires PeersOk(s) && p in s.peers && !s.peers[p].phase.Gone?
    ensures var n := s.peers[p].node;
            PeersTied(s.peers[p := s.peers[p].(phase := Gone)], s.connecting - {n}, s.connected - {n}, s.nextPeer)
  {
  }

  lemma PeersKept(mySubnets: set<ID>, s: State, a: Action)
    requires PeersOk(s)
    ensures PeersOk(Do(mySubnets, s, a))
  {
    hide PeersTied, DoUpgrade, DoHandshakeDone, DoAdvance, DoBeginDisconnect, DoLeaveConnecting, DoLeaveConnected,
         DoTrackIP, DoDialCheck, DoManuallyTrackIP, DoStartClose;
    match a
    case Upgrade(n, ip, subnets) => if ip.nodeID == n { PeersUpgrade(s, n, ip, subnets); }
    case HandshakeDone(p) => if p in s.peers && s.peers[p].phase.Handshaking? { PeersHandshakeDone(s, p); }
    case Advance(p, subnet) => if p in s.peers { PeersAdvance(mySubnets, s, p, subnet); }
    case BeginDisconnect(p) =>
      if p in s.peers && (s.peers[p].phase.Handshaking? || s.peers[p].phase.Live?) { PeersBegin(s, p); }
    case LeaveConnecting(p, wanted) =>
      if p in s.peers && s.peers[p].phase.DropConnecting? { PeersLeaveConnecting(s, p, wanted); }
    case LeaveConnected(p, wanted) =>
      if p in s.peers && s.peers[p].phase.DropConnected? { PeersLeaveConnected(s, p, wanted); }
    case _ => QuietRest(mySubnets, s, a);
  }

  lemma PeersLeaveConnecting(s: State, p: PeerRef, wanted: bool)
    requires PeersOk(s) && p in s.peers && s.peers[p].phase.DropConnecting?
    ensures PeersOk(DoLeaveConnecting(s, p, wanted))
  {
    hide PeersTied;
    PeersLeave(s, p);
    PlacedIn(s, p);
  }

  lemma PeersLeaveConnected(s: State, p: PeerRef, wanted: bool)
    requires PeersOk(s) && p in s.peers && s.peers[p].phase.DropConnected?
    ensures PeersOk(DoLeaveConnected(s, p, wanted))
  {
    hide PeersTied;
    PeersLeave(s, p);
    PlacedIn(s, p);
  }

  /** Where a peer that is not gone is found, and where not. */
  lemma PlacedIn(s: State, p: PeerRef)
    requires PeersOk(s) && p in s.peers && !s.peers[p].phase.Gone?
    ensures var x := s.peers[p];
            && (InConnecting(x.phase) || InConnected(x.phase))
            && (InConnecting(x.phase) ==>
                x.node in s.connecting && s.connecting[x.node] == p && x.node !in s.connected &&
                  s.connected - {x.node} == s.connected)
            && (InConnected(x.phase) ==>
                x.node in s.connected && s.connected[x.node] == p && x.node !in s.connecting &&
                  s.connecting - {x.node} == s.connecting)
  {
  }

  lemma PeersBegin(s: State, p: PeerRef)
    requires PeersOk(s) && p in s.peers && (s.peers[p].phase.Handshaking? || s.peers[p].phase.Live?)
    ensures PeersOk(DoBeginDisconnect(s, p))
    ensures DoBeginDisconnect(s, p).peers[p].phase ==
            if s.peers[p].phase.Handshaking? then DropConnecting(false) else UntellTracker
  {
    hide PeersTied;
    PlacedIn(s, p);
    if s.peers[p].phase.Handshaking? {
      PeersPhase(s, p, DropConnecting(false));
    } else {
      PeersPhase(s, p, UntellTracker);
    }
  }

  lemma PeersAdvance(mySubnets: set<ID>, s: State, p: PeerRef, subnet: ID)
    requires PeersOk(s) && p in s.peers
    ensures PeersOk(DoAdvance(mySubnets, s, p, subnet))
  {
    var x := s.peers[p];
    if x.phase.Gone? {
      assert x.(phase := x.phase) == x && s.peers[p := x] == s.peers;
    } else {
      hide PeersTied;
      PlacedIn(s, p);
      PeersPhase(s, p, NextPhase(mySubnets, x, subnet));
    }
  }

  lemma DialsStop(s: State, n: NodeID)
    requires DialsOk(s)
    ensures DialsOk(StopTracking(s, n)) && n !in StopTracking(s, n).trackedIPs
  {
  }

  lemma DialsRedial(s: State, n: NodeID)
    requires DialsOk(s) && n !in s.trackedIPs && n !in s.connected
    ensures DialsOk(Redial(s, n))
  {
  }

  lemma DialsConnected(s: State, connected: set<NodeID>)
    requires DialsOk(s) && forall n :: n in connected && n !in s.connected ==> n !in s.trackedIPs
    ensures DialsTied(s.trackedIPs, connected, s.stopped, s.dials, s.nextIP)
  {
  }

  lemma DialsLoop(s: State, d: IPRef, dials: map<IPRef, Dial>)
    requires DialsOk(s) && d in s.dials
    requires dials == s.dials - {d} || (exists b :: dials == s.dials[d := Dial(s.dials[d].node, b)])
    ensures DialsTied(s.trackedIPs, s.connected.Keys, s.stopped, dials, s.nextIP)
  {
  }

  lemma DialsClose(s: State)
    requires DialsOk(s)
    ensures DialsOk(DoStartClose(s))
  {
  }

  lemma DialsHandshakeDone(s: State, p: PeerRef)
    requires PeersOk(s) && DialsOk(s) && p in s.peers && s.peers[p].phase.Handshaking?
    ensures DialsOk(DoHandshakeDone(s, p))
  {
    hide PeersTied, DialsTied;
    var n := s.peers[p].node;
    PlacedIn(s, p);
    DialsStop(s, n);
    DialsConnected(StopTracking(s, n), s.connected.Keys + {n});
    assert s.connected[n := s.connecting[n]].Keys == s.connected.Keys + {n};
  }

  lemma DialsLeaveConnecting(s: State, p: PeerRef, wanted: bool)
    requires PeersOk(s) && DialsOk(s) && p in s.peers && s.peers[p].phase.DropConnecting?
    ensures DialsOk(DoLeaveConnecting(s, p, wanted))
  {
    hide PeersTied, DialsTied;
    var n := s.peers[p].node;
    PlacedIn(s, p);
    var s1 := s.(connecting := s.connecting - {n});
    DialsStop(s1, n);
    if n in s.trackedIPs && wanted {
      DialsRedial(StopTracking(s1, n), n);
    }
  }

  lemma DialsLeaveConnected(s: State, p: PeerRef, wanted: bool)
    requires PeersOk(s) && DialsOk(s) && p in s.peers && s.peers[p].phase.DropConnected?
    ensures DialsOk(DoLeaveConnected(s, p, wanted))
  {
    hide PeersTied, DialsTied;
    var n := s.peers[p].node;
    PlacedIn(s, p);
    Untracked(s, n);
    var s1 := s.(connected := s.connected - {n});
    DialsConnected(s, s1.connected.Keys);
    if wanted {
      DialsRedial(s1, n);
    }
  }

  lemma DialsTrackIP(s: State, ip: ClaimedIP, wanted: bool)
    requires DialsOk(s)
    ensures DialsOk(DoTrackIP(s, ip, wanted))
  {
    hide DialsTied;
    var s1 := s.(trackerLog := s.trackerLog + [AddIP(ip)]);
    if wanted && ip.nodeID !in s1.connected {
      DialsStop(s1, ip.nodeID);
      DialsRedial(StopTracking(s1, ip.nodeID), ip.nodeID);
    }
  }

  lemma DialsCheck(s: State, d: IPRef, wanted: bool)
    requires DialsOk(s) && d in s.dials
    ensures DialsOk(DoDialCheck(s, d, wanted))
  {
    hide DialsTied;
    var n := s.dials[d].node;
    if !wanted {
      DialsStop(s, n);
      DialsLoop(StopTracking(s, n), d, s.dials - {d});
    } else if n in s.connecting || n in s.connected {
      DialsLoop(s, d, s.dials - {d});
    } else {
      DialsLoop(s, d, s.dials[d := Dial(n, true)]);
    }
  }

  lemma DialsAdvance(mySubnets: set<ID>, s: State, p: PeerRef, subnet: ID)
    requires p in s.peers && DialsOk(s)
    ensures DialsOk(DoAdvance(mySubnets, s, p, subnet))
  {
    hide DialsTied;
  }

  lemma DialsKept(mySubnets: set<ID>, s: State, a: Action)
    requires PeersOk(s) && DialsOk(s)
    ensures DialsOk(Do(mySubnets, s, a))
  {
    hide PeersTied, DialsTied, DoHandshakeDone, DoLeaveConnecting, DoLeaveConnected, DoTrackIP, DoDialCheck,
         DoStartClose, DoAdvance;
    match a
    case Advance(p, subnet) => if p in s.peers { DialsAdvance(mySubnets, s, p, subnet); }
    case HandshakeDone(p) =>
      if p in s.peers && s.peers[p].phase.Handshaking? { DialsHandshakeDone(s, p); }
    case LeaveConnecting(p, wanted) =>
      if p in s.peers && s.peers[p].phase.DropConnecting? { DialsLeaveConnecting(s, p, wanted); }
    case LeaveConnected(p, wanted) =>
      if p in s.peers && s.peers[p].phase.DropConnected? { DialsLeaveConnected(s, p, wanted); }
    case ManuallyTrackIP(n) => if n !in s.connected && n !in s.trackedIPs { DialsRedial(s, n); }
    case TrackIP(ip, wanted) => DialsTrackIP(s, ip, wanted);
    case DialExit(d) => if d in s.dials { DialsLoop(s, d, s.dials - {d}); }
    case DialCheck(d, wanted) => if d in s.dials && !s.dials[d].dialing { DialsCheck(s, d, wanted); }
    case DialRetry(d) => if d in s.dials { DialsLoop(s, d, s.dials[d := Dial(s.dials[d].node, false)]); }
    case StartClose => DialsClose(s);
    case _ =>
  }

  lemma Untracked(s: State, n: NodeID)
    requires DialsOk(s) && n in s.connected
    ensures n !in s.trackedIPs
  {
  }

  // ---- Who is dialled after a step ----

  datatype Loops = Loops(tracked: map<NodeID, IPRef>, dials: map<IPRef, Dial>, stopped: set<IPRef>)

  function LoopsOf(s: State): Loops {
    Loops(s.trackedIPs, s.dials, s.stopped)
  }

  /** A new loop dials n under a new entry; the entry it had before is stopped. */
  ghost predicate FreshDial(s: Loops, s': Loops, n: NodeID) {
    && n in s'.tracked && s'.tracked[n] !in s.dials && s'.tracked[n] !in s'.stopped
    && s'.tracked[n] in s'.dials && s'.dials[s'.tracked[n]] == Dial(n, false)
    && (n in s.tracked ==> s.tracked[n] in s'.stopped)
  }

  /** No entry is left for n, and every loop that dials it has been told to stop. */
  ghost predicate NotDialed(s: Loops, n: NodeID) {
    n !in s.tracked && forall d :: d in s.dials && s.dials[d].node == n ==> d in s.stopped
  }

  ghost predicate SameDials(s: Loops, s': Loops, n: NodeID) {
    && (n in s'.tracked <==> n in s.tracked)
    && (n in s.tracked ==> s'.tracked[n] == s.tracked[n] && (s.tracked[n] in s'.stopped <==> s.tracked[n] in s.stopped))
    && (forall d :: d in s.dials && s.dials[d].node == n ==> d in s'.dials && s'.dials[d] == s.dials[d])
  }

  ghost predicate OthersSame(s: Loops, s': Loops, n: NodeID) {
    forall m :: m != n ==> SameDials(s, s', m)
  }

  lemma NothingTracked(s: State, n: NodeID)
    requires DialsOk(s) && n !in s.trackedIPs
    ensures NotDialed(LoopsOf(s), n)
  {
  }

  lemma RedialFresh(s: State, n: NodeID)
    requires DialsOk(s)
    ensures var s' := Redial(StopTracking(s, n), n);
            && FreshDial(LoopsOf(s), LoopsOf(s'), n)
            && OthersSame(LoopsOf(s), LoopsOf(s'), n)
  {
  }

  lemma StopDials(s: State, n: NodeID)
    requires DialsOk(s)
    ensures NotDialed(LoopsOf(StopTracking(s, n)), n)
    ensures OthersSame(LoopsOf(s), LoopsOf(StopTracking(s, n)), n)
  {
  }

  /** A peer that had finished its handshake is dialled again exactly if it is still wanted. */
  lemma LeftIsRedialed(s: State, p: PeerRef, wanted: bool)
    requires PeersOk(s) && DialsOk(s) && p in s.peers && s.peers[p].phase.DropConnected?
    ensures var s', n := DoLeaveConnected(s, p, wanted), s.peers[p].node;
            && n !in s'.connected && n !in s'.connecting
            && (if wanted then FreshDial(LoopsOf(s), LoopsOf(s'), n) else NotDialed(LoopsOf(s'), n))
            && OthersSame(LoopsOf(s), LoopsOf(s'), n)
  {
    PlacedIn(s, p);
    Untracked(s, s.peers[p].node);
    hide PeersTied;
    RedialFresh(s, s.peers[p].node);
    NothingTracked(s, s.peers[p].node);
    hide DialsTied, FreshDial, NotDialed, SameDials, OthersSame;
  }

  /** One that had not is dialled again exactly if this node was already dialling it and still wants it. */
  lemma DroppedIsRedialed(s: State, p: PeerRef, wanted: bool)
    requires PeersOk(s) && DialsOk(s) && p in s.peers && s.peers[p].phase.DropConnecting?
    ensures var s', n := DoLeaveConnecting(s, p, wanted), s.peers[p].node;
            && n !in s'.connecting && n !in s'.connected
            && (if n in s.trackedIPs && wanted then FreshDial(LoopsOf(s), LoopsOf(s'), n)
                else NotDialed(LoopsOf(s'), n))
            && OthersSame(LoopsOf(s), LoopsOf(s'), n)
  {
    PlacedIn(s, p);
    hide PeersTied;
    RedialFresh(s, s.peers[p].node);
    StopDials(s, s.peers[p].node);
    hide DialsTied, FreshDial, NotDialed, SameDials, OthersSame;
  }

  /** A learnt address of a wanted node that is not connected replaces the one dialled so far. */
  lemma LearntIsDialed(s: State, ip: ClaimedIP, wanted: bool)
    requires DialsOk(s)
    ensures var s', n := DoTrackIP(s, ip, wanted), ip.nodeID;
            && (if wanted && n !in s.connected then FreshDial(LoopsOf(s), LoopsOf(s'), n)
                else SameDials(LoopsOf(s), LoopsOf(s'), n))
            && OthersSame(LoopsOf(s), LoopsOf(s'), n)
  {
    RedialFresh(s, ip.nodeID);
    assert forall m :: SameDials(LoopsOf(s), LoopsOf(s), m);
    assert OthersSame(LoopsOf(s), LoopsOf(s), ip.nodeID);
    hide DialsTied, FreshDial, NotDialed, SameDials, OthersSame;
  }

  /** A peer that finishes its handshake is no longer dialled. */
  lemma MetIsNotDialed(s: State, p: PeerRef)
    requires PeersOk(s) && DialsOk(s) && p in s.peers && s.peers[p].phase.Handshaking?
    ensures var s', n := DoHandshakeDone(s, p), s.peers[p].node;
            && n in s'.connected && s'.connected[n] == p && n !in s'.connecting
            && NotDialed(LoopsOf(s'), n) && OthersSame(LoopsOf(s), LoopsOf(s'), n)
  {
    PlacedIn(s, p);
    hide PeersTied;
    StopDials(s, s.peers[p].node);
    hide DialsTied, NotDialed, SameDials, OthersSame;
  }

  /** An address given by hand is dialled unless the node is connected or dialled already. */
  lemma GivenIsDialed(s: State, n: NodeID)
    requires DialsOk(s)
    ensures var s' := DoManuallyTrackIP(s, n);
            && (if n in s.connected || n in s.trackedIPs then s' == s else FreshDial(LoopsOf(s), LoopsOf(s'), n))
            && OthersSame(LoopsOf(s), LoopsOf(s'), n)
  {
    RedialFresh(s, n);
    assert forall m :: SameDials(LoopsOf(s), LoopsOf(s), m);
    assert OthersSame(LoopsOf(s), LoopsOf(s), n);
    hide DialsTied, FreshDial, SameDials, OthersSame;
  }

  /** Starting to close stops every dial loop. */
  lemma ClosingStopsDials(s: State, n: NodeID)
    requires DialsOk(s)
    ensures DoStartClose(s).closing && NotDialed(LoopsOf(DoStartClose(s)), n)
  {
    DialsClose(s);
    NothingTracked(DoStartClose(s), n);
  }

  lemma LoopAside(s: State, d: IPRef, dials: map<IPRef, Dial>)
    requires d in s.dials && (dials == s.dials - {d} || exists b :: dials == s.dials[d := Dial(s.dials[d].node, b)])
    ensures OthersSame(LoopsOf(s), LoopsOf(s).(dials := dials), s.dials[d].node)
  {
  }

  lemma LoopEnds(s: State, d: IPRef)
    requires d in s.dials && NotDialed(LoopsOf(s), s.dials[d].node)
    ensures NotDialed(LoopsOf(s).(dials := s.dials - {d}), s.dials[d].node)
  {
  }

  lemma OthersTwice(s: Loops, s1: Loops, s2: Loops, n: NodeID)
    requires OthersSame(s, s1, n) && OthersSame(s1, s2, n)
    ensures OthersSame(s, s2, n)
  {
    forall m | m != n ensures SameDials(s, s2, m) {
      assert SameDials(s, s1, m) && SameDials(s1, s2, m);
    }
  }

  /** A loop goes on exactly if its node is wanted and not met yet; an unwanted node is no longer dialled at all. */
  lemma CheckedIsDialed(s: State, d: IPRef, wanted: bool)
    requires DialsOk(s) && d in s.dials
    ensures var s', n := DoDialCheck(s, d, wanted), s.dials[d].node;
            && (d in s'.dials <==> wanted && n !in s.connecting && n !in s.connected)
            && (d in s'.dials ==> s'.dials[d] == Dial(n, true))
            && (!wanted ==> NotDialed(LoopsOf(s'), n))
            && (wanted ==> s'.trackedIPs == s.trackedIPs && s'.stopped == s.stopped)
            && OthersSame(LoopsOf(s), LoopsOf(s'), n)
  {
    var n := s.dials[d].node;
    StopDials(s, n);
    LoopAside(s, d, s.dials - {d});
    LoopAside(s, d, s.dials[d := Dial(n, true)]);
    LoopAside(StopTracking(s, n), d, s.dials - {d});
    OthersTwice(LoopsOf(s), LoopsOf(StopTracking(s, n)), LoopsOf(StopTracking(s, n)).(dials := s.dials - {d}), n);
    LoopEnds(StopTracking(s, n), d);
    hide DialsTied, FreshDial, NotDialed, SameDials, OthersSame;
  }

  // ---- The calls the IP tracker and the router see ----

  /** The peer that finished its handshake under n and is not yet removed. */
  ghost function PeerAt(s: State, n: NodeID): Option<Peer> {
    if n in s.connected && s.connected[n] in s.peers then Some(s.peers[s.connected[n]]) else None
  }

  /** The tracker was told of the connection and not yet of its end. */
  predicate BetweenTheCalls(ph: Phase) {
    ph.TellRouter? || ph.TellSubnets? || ph.Live? || ph.UntellTracker?
  }

  /** What the IP tracker has been told of a node's connection. */
  ghost function Heard(o: Option<Peer>): Option<ConnectedNode> {
    if o.Some? && BetweenTheCalls(o.value.phase) then Some(ConnectedNode(o.value.subnets, o.value.ip)) else None
  }

  ghost function ConnectionAt(m: Model, n: NodeID): Option<ConnectedNode> {
    if n in m.connected then Some(m.connected[n]) else None
  }

  /** The subnets the router has been told a node is connected on. */
  ghost function RouterTold(mySubnets: set<ID>, o: Option<Peer>): Option<set<ID>> {
    if o.None? then None
    else
      match o.value.phase
      case TellSubnets(todo) => Some({PRIMARY_NETWORK} + (mySubnets * o.value.subnets - todo))
      case Live => Some({PRIMARY_NETWORK} + mySubnets * o.value.subnets)
      case UntellTracker => Some({PRIMARY_NETWORK} + mySubnets * o.value.subnets)
      case UntellRouter => Some({PRIMARY_NETWORK} + mySubnets * o.value.subnets)
      case _ => None
  }

  /** What a sequence of router calls leaves a node connected on. */
  ghost function RouterState(log: seq<RouterCall>, n: NodeID): Option<set<ID>> {
    if log == [] then None
    else
      var before, call := RouterState(log[..|log| - 1], n), log[|log| - 1];
      if call.node != n then before
      else if call.RouterDisconnected? then None
      else Some((if before.Some? then before.value else {}) + {call.subnet})
  }

  /** Connected on the primary network only when down, on another subnet once while up, disconnected only when up. */
  ghost predicate Legal(before: Option<set<ID>>, call: RouterCall) {
    match call
    case RouterConnected(_, s) => if s == PRIMARY_NETWORK then before.None? else before.Some? && s !in before.value
    case RouterDisconnected(_) => before.Some?
  }

  ghost predicate AllLegal(log: seq<RouterCall>) {
    forall i :: 0 <= i < |log| ==> Legal(RouterState(log[..i], log[i].node), log[i])
  }

  /** The IP tracker knows exactly the connections whose peer is between the two calls, by address and subnets. */
  ghost predicate TrackerLogOk(mySubnets: set<ID>, s: State) {
    && Alternates(s.trackerLog)
    && forall n :: ConnectionAt(Run(mySubnets, s.trackerLog), n) == Heard(PeerAt(s, n))
  }

  ghost predicate RouterLogOk(mySubnets: set<ID>, s: State) {
    && AllLegal(s.routerLog)
    && (forall n :: RouterState(s.routerLog, n) == RouterTold(mySubnets, PeerAt(s, n)))
    && (forall n :: var o := PeerAt(s, n); o.Some? && o.value.phase.TellSubnets? ==>
        o.value.phase.todo <= mySubnets * o.value.subnets)
  }

  lemma RunAppend(mySubnets: set<ID>, es: seq<Event>, e: Event)
    ensures forall n :: ConnectionAt(Run(mySubnets, es + [e]), n) ==
              if e.Connected? && e.ip.nodeID == n then Some(ConnectedNode(e.subnets, e.ip))
              else if e == Disconnected(n) then None
              else ConnectionAt(Run(mySubnets, es), n)
  {
    RunOne(mySubnets, es, e);
    hide Run;
  }

  lemma LegalAppend(log: seq<RouterCall>, call: RouterCall)
    requires AllLegal(log) && Legal(RouterState(log, call.node), call)
    ensures AllLegal(log + [call])
    ensures forall n :: n != call.node ==> RouterState(log + [call], n) == RouterState(log, n)
    ensures RouterState(log + [call], call.node) ==
            if call.RouterDisconnected? then None
            else Some((if RouterState(log, call.node).Some? then RouterState(log, call.node).value else {}) +
                      {call.subnet})
  {
    var log' := log + [call];
    assert log'[..|log|] == log;
    forall i | 0 <= i < |log'| ensures Legal(RouterState(log'[..i], log'[i].node), log'[i]) {
      assert i < |log| ==> log'[..i] == log[..i];
    }
  }

  /** Which node's connected peer an action changes. */
  ghost predicate SamePeerAt(s: State, s': State, n: NodeID) {
    && Heard(PeerAt(s', n)) == Heard(PeerAt(s, n))
    && (forall my :: RouterTold(my, PeerAt(s', n)) == RouterTold(my, PeerAt(s, n)))
    && (PeerAt(s', n).Some? && PeerAt(s', n).value.phase.TellSubnets? ==> PeerAt(s', n) == PeerAt(s, n))
  }

  lemma QuietHandshakeDone(s: State, p: PeerRef, n: NodeID)
    requires PeersOk(s) && p in s.peers && s.peers[p].phase.Handshaking?
    ensures SamePeerAt(s, DoHandshakeDone(s, p), n)
    ensures DoHandshakeDone(s, p).routerLog == s.routerLog && DoHandshakeDone(s, p).trackerLog == s.trackerLog
  {
  }

  lemma QuietBegin(s: State, p: PeerRef, n: NodeID)
    requires PeersOk(s) && p in s.peers && (s.peers[p].phase.Handshaking? || s.peers[p].phase.Live?)
    ensures SamePeerAt(s, DoBeginDisconnect(s, p), n)
    ensures DoBeginDisconnect(s, p).routerLog == s.routerLog && DoBeginDisconnect(s, p).trackerLog == s.trackerLog
  {
    hide PeersTied;
    PlacedIn(s, p);
    AtMostHere(s, p, n);
  }

  lemma QuietLeaveConnecting(s: State, p: PeerRef, wanted: bool, n: NodeID)
    requires PeersOk(s) && p in s.peers && s.peers[p].phase.DropConnecting?
    ensures var s' := DoLeaveConnecting(s, p, wanted);
            SamePeerAt(s, s', n) && s'.routerLog == s.routerLog && s'.trackerLog == s.trackerLog
  {
    hide PeersTied;
    PlacedIn(s, p);
    AtMostHere(s, p, n);
  }

  lemma QuietLeaveConnected(s: State, p: PeerRef, wanted: bool, n: NodeID)
    requires PeersOk(s) && p in s.peers && s.peers[p].phase.DropConnected?
    ensures var s' := DoLeaveConnected(s, p, wanted);
            SamePeerAt(s, s', n) && s'.routerLog == s.routerLog && s'.trackerLog == s.trackerLog
  {
    hide PeersTied;
    PlacedIn(s, p);
    AtMostHere(s, p, n);
  }

  lemma QuietUpgrade(s: State, x: NodeID, ip: ClaimedIP, subnets: set<ID>, n: NodeID)
    requires PeersOk(s)
    ensures SamePeerAt(s, DoUpgrade(s, x, ip, subnets), n)
    ensures DoUpgrade(s, x, ip, subnets).routerLog == s.routerLog
    ensures DoUpgrade(s, x, ip, subnets).trackerLog == s.trackerLog
  {
  }

  /** A peer in the connected set is found under its own node only. */
  lemma AtMostHere(s: State, p: PeerRef, n: NodeID)
    requires PeersOk(s) && p in s.peers
    ensures n in s.connected ==> s.connected[n] in s.peers && s.peers[s.connected[n]].node == n
    ensures n in s.connected && s.connected[n] == p ==> s.peers[p].node == n && InConnected(s.peers[p].phase)
  {
  }

  lemma AdvanceAt(mySubnets: set<ID>, s: State, p: PeerRef, subnet: ID, n: NodeID)
    requires PeersOk(s) && p in s.peers
    ensures var s', x := DoAdvance(mySubnets, s, p, subnet), s.peers[p];
            && p in s'.peers
            && (!InConnected(x.phase) ==> s' == s)
            && (InConnected(x.phase) ==>
                 && PeerAt(s, x.node) == Some(x)
                 && PeerAt(s', n) == if n == x.node then Some(s'.peers[p]) else PeerAt(s, n))
  {
    hide PeersTied;
    var x := s.peers[p];
    if !x.phase.Gone? {
      PlacedIn(s, p);
    }
    if !InConnected(x.phase) {
      assert x.(phase := x.phase) == x && s.peers[p := x] == s.peers;
      assert s.trackerLog + [] == s.trackerLog && s.routerLog + [] == s.routerLog;
    }
    AtMostHere(s, p, n);
    hide NextPhase;
  }

  lemma QuietTracker(mySubnets: set<ID>, s: State, s': State)
    requires TrackerLogOk(mySubnets, s) && s'.trackerLog == s.trackerLog
    requires forall n :: SamePeerAt(s, s', n)
    ensures TrackerLogOk(mySubnets, s')
  {
    forall n ensures Heard(PeerAt(s', n)) == Heard(PeerAt(s, n)) {
      assert SamePeerAt(s, s', n);
    }
  }

  lemma QuietRouter(mySubnets: set<ID>, s: State, s': State)
    requires RouterLogOk(mySubnets, s) && s'.routerLog == s.routerLog
    requires forall n :: SamePeerAt(s, s', n)
    ensures RouterLogOk(mySubnets, s')
  {
    forall n
      ensures RouterTold(mySubnets, PeerAt(s', n)) == RouterTold(mySubnets, PeerAt(s, n))
      ensures var o := PeerAt(s', n); o.Some? && o.value.phase.TellSubnets? ==>
              o.value.phase.todo <= mySubnets * o.value.subnets
    {
      assert SamePeerAt(s, s', n);
    }
  }

  lemma TrackerAdvance(mySubnets: set<ID>, s: State, p: PeerRef, subnet: ID)
    requires PeersOk(s) && p in s.peers && TrackerLogOk(mySubnets, s)
    ensures TrackerLogOk(mySubnets, DoAdvance(mySubnets, s, p, subnet))
  {
    hide PeersTied, Alternates, Run, DoAdvance, NextPhase, Heard, ConnectionAt;
    var s', x := DoAdvance(mySubnets, s, p, subnet), s.peers[p];
    IPOfPeer(s, p);
    AdvanceAt(mySubnets, s, p, subnet, x.node);
    AdvanceLogs(mySubnets, s, p, subnet);
    if InConnected(x.phase) {
      TrackerHears(mySubnets, s.trackerLog, x, subnet);
      forall n ensures ConnectionAt(Run(mySubnets, s'.trackerLog), n) == Heard(PeerAt(s', n)) {
        AdvanceAt(mySubnets, s, p, subnet, n);
      }
    }
  }

  lemma AdvanceLogs(mySubnets: set<ID>, s: State, p: PeerRef, subnet: ID)
    requires p in s.peers
    ensures var s' := DoAdvance(mySubnets, s, p, subnet);
            && s'.trackerLog == s.trackerLog + TrackerCalls(s.peers[p])
            && s'.routerLog == s.routerLog + RouterCalls(s.peers[p], subnet)
            && p in s'.peers && s'.peers[p] == s.peers[p].(phase := NextPhase(mySubnets, s.peers[p], subnet))
  {
  }

  /** The tracker hears what the peer's next phase records. */
  lemma TrackerHears(mySubnets: set<ID>, log: seq<Event>, x: Peer, subnet: ID)
    requires Alternates(log) && ConnectionAt(Run(mySubnets, log), x.node) == Heard(Some(x))
    requires x.ip.nodeID == x.node
    ensures var log', x' := log + TrackerCalls(x), x.(phase := NextPhase(mySubnets, x, subnet));
            && Alternates(log')
            && ConnectionAt(Run(mySubnets, log'), x.node) == Heard(Some(x'))
            && forall n :: n != x.node ==>
                 ConnectionAt(Run(mySubnets, log'), n) == ConnectionAt(Run(mySubnets, log), n)
  {
    hide Alternates, Run;
    if TrackerCalls(x) == [] {
      assert log + [] == log;
    } else {
      var e := TrackerCalls(x)[0];
      assert TrackerCalls(x) == [e];
      AlternatesAppend(mySubnets, log, e);
      RunAppend(mySubnets, log, e);
    }
  }

  lemma IPOfPeer(s: State, p: PeerRef)
    requires PeersOk(s) && p in s.peers
    ensures s.peers[p].ip.nodeID == s.peers[p].node
  {
  }

  /** The router hears what the peer's next phase records. */
  lemma RouterHears(mySubnets: set<ID>, log: seq<RouterCall>, x: Peer, subnet: ID)
    requires PRIMARY_NETWORK !in mySubnets
    requires AllLegal(log) && RouterState(log, x.node) == RouterTold(mySubnets, Some(x))
    requires x.phase.TellSubnets? ==> x.phase.todo <= mySubnets * x.subnets
    ensures var log', x' := log + RouterCalls(x, subnet), x.(phase := NextPhase(mySubnets, x, subnet));
            && AllLegal(log') && RouterState(log', x.node) == RouterTold(mySubnets, Some(x'))
            && (x'.phase.TellSubnets? ==> x'.phase.todo <= mySubnets * x'.subnets)
            && forall n :: n != x.node ==> RouterState(log', n) == RouterState(log, n)
  {
    hide AllLegal, RouterState;
    var all := mySubnets * x.subnets;
    if RouterCalls(x, subnet) == [] {
      assert log + [] == log;
      assert all - {} == all;
      assert x.phase.TellSubnets? && subnet !in x.phase.todo ==> x.phase.todo - {subnet} == x.phase.todo;
    } else {
      LegalAppend(log, RouterCalls(x, subnet)[0]);
      assert {PRIMARY_NETWORK} + (all - all) == {} + {PRIMARY_NETWORK};
      if x.phase.TellSubnets? {
        assert {PRIMARY_NETWORK} + (all - x.phase.todo) + {subnet} ==
               {PRIMARY_NETWORK} + (all - (x.phase.todo - {subnet}));
      }
    }
  }

  lemma RouterAdvance(mySubnets: set<ID>, s: State, p: PeerRef, subnet: ID)
    requires PRIMARY_NETWORK !in mySubnets
    requires PeersOk(s) && p in s.peers && RouterLogOk(mySubnets, s)
    ensures RouterLogOk(mySubnets, DoAdvance(mySubnets, s, p, subnet))
  {
    hide PeersTied, AllLegal, RouterState, DoAdvance, NextPhase, RouterTold;
    var x := s.peers[p];
    AdvanceAt(mySubnets, s, p, subnet, x.node);
    AdvanceLogs(mySubnets, s, p, subnet);
    if InConnected(x.phase) {
      assert RouterState(s.routerLog, x.node) == RouterTold(mySubnets, PeerAt(s, x.node));
      RouterHears(mySubnets, s.routerLog, x, subnet);
      RouterAdvanced(mySubnets, s, DoAdvance(mySubnets, s, p, subnet), p, subnet);
    }
  }

  lemma RouterAdvanced(mySubnets: set<ID>, s: State, s': State, p: PeerRef, subnet: ID)
    requires PeersOk(s) && p in s.peers && RouterLogOk(mySubnets, s) && InConnected(s.peers[p].phase)
    requires s' == DoAdvance(mySubnets, s, p, subnet) && AllLegal(s'.routerLog)
    requires forall n :: n != s.peers[p].node ==> RouterState(s'.routerLog, n) == RouterState(s.routerLog, n)
    requires RouterState(s'.routerLog, s.peers[p].node) == RouterTold(mySubnets, PeerAt(s', s.peers[p].node))
    requires p in s'.peers
    requires s'.peers[p].phase.TellSubnets? ==> s'.peers[p].phase.todo <= mySubnets * s'.peers[p].subnets
    ensures RouterLogOk(mySubnets, s')
  {
    hide PeersTied, AllLegal, RouterState, DoAdvance, RouterTold;
    forall n
      ensures RouterState(s'.routerLog, n) == RouterTold(mySubnets, PeerAt(s', n))
      ensures var o := PeerAt(s', n); o.Some? && o.value.phase.TellSubnets? ==>
              o.value.phase.todo <= mySubnets * o.value.subnets
    {
      AdvanceAt(mySubnets, s, p, subnet, n);
      AdvanceAt(mySubnets, s, p, subnet, s.peers[p].node);
    }
  }

  /** Every step of a peer that makes no call leaves what the tracker and the router were told unchanged. */
  lemma QuietPeer(mySubnets: set<ID>, s: State, a: Action, n: NodeID)
    requires PeersOk(s)
    requires a.Upgrade? || a.HandshakeDone? || a.BeginDisconnect? || a.LeaveConnecting? || a.LeaveConnected?
    ensures var s' := Do(mySubnets, s, a);
            SamePeerAt(s, s', n) && s'.routerLog == s.routerLog && s'.trackerLog == s.trackerLog
  {
    hide PeersTied, DoUpgrade, DoHandshakeDone, DoBeginDisconnect, DoLeaveConnecting, DoLeaveConnected;
    match a
    case Upgrade(x, ip, subnets) => QuietUpgrade(s, x, ip, subnets, n);
    case HandshakeDone(p) => if p in s.peers && s.peers[p].phase.Handshaking? { QuietHandshakeDone(s, p, n); }
    case BeginDisconnect(p) =>
      if p in s.peers && (s.peers[p].phase.Handshaking? || s.peers[p].phase.Live?) { QuietBegin(s, p, n); }
    case LeaveConnecting(p, wanted) =>
      if p in s.peers && s.peers[p].phase.DropConnecting? { QuietLeaveConnecting(s, p, wanted, n); }
    case LeaveConnected(p, wanted) =>
      if p in s.peers && s.peers[p].phase.DropConnected? { QuietLeaveConnected(s, p, wanted, n); }
  }

  /** What the steps that touch no peer tell the IP tracker: never a connection or a disconnection. */
  ghost function Said(a: Action): (r: seq<Event>)
    ensures |r| <= 1 && (|r| == 1 ==> !r[0].Connected? && !r[0].Disconnected?)
  {
    if a.TrackIP? then [AddIP(a.claimed)]
    else if a.OtherTrackerCall? && !a.event.Connected? && !a.event.Disconnected? then [a.event]
    else []
  }

  ghost predicate OnlySaid(s: State, s': State, said: seq<Event>) {
    && s'.peers == s.peers && s'.connecting == s.connecting && s'.connected == s.connected && s'.nextPeer == s.nextPeer
    && s'.routerLog == s.routerLog
    && s'.trackerLog == s.trackerLog + said
  }

  lemma QuietTrackIP(s: State, ip: ClaimedIP, wanted: bool)
    ensures OnlySaid(s, DoTrackIP(s, ip, wanted), [AddIP(ip)])
  {
  }

  lemma QuietDial(s: State, d: IPRef, wanted: bool)
    requires d in s.dials
    ensures OnlySaid(s, DoDialCheck(s, d, wanted), [])
  {
  }

  lemma QuietRest(mySubnets: set<ID>, s: State, a: Action)
    requires !a.Advance?
    requires !(a.Upgrade? || a.HandshakeDone? || a.BeginDisconnect? || a.LeaveConnecting? || a.LeaveConnected?)
    ensures OnlySaid(s, Do(mySubnets, s, a), Said(a))
  {
    hide DoTrackIP, DoDialCheck;
    assert s.trackerLog + [] == s.trackerLog;
    match a
    case TrackIP(ip, wanted) => QuietTrackIP(s, ip, wanted);
    case DialCheck(d, wanted) => if d in s.dials { QuietDial(s, d, wanted); }
    case _ =>
  }

  ghost predicate Inv(mySubnets: set<ID>, s: State) {
    PeersOk(s) && DialsOk(s) && TrackerLogOk(mySubnets, s) && RouterLogOk(mySubnets, s)
  }

  lemma LogsKept(mySubnets: set<ID>, s: State, a: Action)
    requires PRIMARY_NETWORK !in mySubnets
    requires PeersOk(s) && TrackerLogOk(mySubnets, s) && RouterLogOk(mySubnets, s)
    ensures TrackerLogOk(mySubnets, Do(mySubnets, s, a)) && RouterLogOk(mySubnets, Do(mySubnets, s, a))
  {
    hide PeersTied, TrackerLogOk, RouterLogOk, SamePeerAt, DoAdvance;
    var s' := Do(mySubnets, s, a);
    if a.Advance? {
      if a.peer in s.peers {
        TrackerAdvance(mySubnets, s, a.peer, a.subnet);
        RouterAdvance(mySubnets, s, a.peer, a.subnet);
      }
    } else if a.Upgrade? || a.HandshakeDone? || a.BeginDisconnect? || a.LeaveConnecting? || a.LeaveConnected? {
      forall n ensures SamePeerAt(s, s', n) && s'.routerLog == s.routerLog && s'.trackerLog == s.trackerLog {
        QuietPeer(mySubnets, s, a, n);
      }
      QuietPeer(mySubnets, s, a, 0);
      QuietRouter(mySubnets, s, s');
      QuietTracker(mySubnets, s, s');
    } else {
      QuietRest(mySubnets, s, a);
      LogsRest(mySubnets, s, s', Said(a));
    }
  }

  lemma LogsRest(mySubnets: set<ID>, s: State, s': State, said: seq<Event>)
    requires TrackerLogOk(mySubnets, s) && RouterLogOk(mySubnets, s)
    requires OnlySaid(s, s', said)
    requires |said| <= 1 && (|said| == 1 ==> !said[0].Connected? && !said[0].Disconnected?)
    ensures TrackerLogOk(mySubnets, s') && RouterLogOk(mySubnets, s')
  {
    hide Alternates, Run, AllLegal, RouterState;
    assert forall n :: PeerAt(s', n) == PeerAt(s, n);
    if said == [] {
      assert s'.trackerLog == s.trackerLog;
    } else {
      assert said == [said[0]];
      AlternatesAppend(mySubnets, s.trackerLog, said[0]);
      RunAppend(mySubnets, s.trackerLog, said[0]);
    }
  }

  lemma {:induction false} EveryRun(mySubnets: set<ID>, actions: seq<Action>)
    requires PRIMARY_NETWORK !in mySubnets
    ensures Inv(mySubnets, Exec(mySubnets, actions))
  {
    if actions != [] {
      var s, a := Exec(mySubnets, actions[..|actions| - 1]), actions[|actions| - 1];
      EveryRun(mySubnets, actions[..|actions| - 1]);
      PeersKept(mySubnets, s, a);
      DialsKept(mySubnets, s, a);
      LogsKept(mySubnets, s, a);
    }
  }

  // ---- Where the calls come from ----

  /** The same connection, wherever it stands. */
  predicate SameConnection(x: Peer, y: Peer) {
    x.node == y.node && x.ip == y.ip && x.subnets == y.subnets
  }

  /** A step keeps every peer's connection; a new peer is the one it upgrades. */
  lemma PeersStem(mySubnets: set<ID>, s: State, a: Action, p: PeerRef)
    requires p in Do(mySubnets, s, a).peers
    ensures var x := Do(mySubnets, s, a).peers[p];
            || (p in s.peers && SameConnection(x, s.peers[p]))
            || (a == Upgrade(x.node, x.ip, x.subnets) && !s.closing && x.node !in s.connecting &&
                x.node !in s.connected)
  {
    hide DoUpgrade, DoHandshakeDone, DoAdvance, DoBeginDisconnect, DoLeaveConnecting, DoLeaveConnected;
    match a
    case Upgrade(n, ip, subnets) => UpgradeAdds(s, n, ip, subnets);
    case HandshakeDone(q) => if q in s.peers { HandshakeMoves(s, q); }
    case Advance(q, subnet) => if q in s.peers { AdvanceMoves(mySubnets, s, q, subnet); }
    case BeginDisconnect(q) => if q in s.peers { BeginMoves(s, q); }
    case LeaveConnecting(q, wanted) => if q in s.peers && s.peers[q].phase.DropConnecting? { LeaveMoves(s, q, wanted); }
    case LeaveConnected(q, wanted) => if q in s.peers { LeftMoves(s, q, wanted); }
    case _ => QuietRest(mySubnets, s, a);
  }

  /** Only the phase of one peer moves. */
  ghost predicate Moves(s: State, s': State, p: PeerRef) {
    && p in s.peers && s'.peers.Keys == s.peers.Keys
    && forall q :: q in s.peers ==>
         if q == p then SameConnection(s'.peers[q], s.peers[q]) else s'.peers[q] == s.peers[q]
  }

  lemma UpgradeAdds(s: State, n: NodeID, ip: ClaimedIP, subnets: set<ID>)
    ensures var s' := DoUpgrade(s, n, ip, subnets);
            s'.peers == if s.closing || n in s.connecting || n in s.connected then s.peers
                        else s.peers[s.nextPeer := Peer(n, ip, subnets, Handshaking)]
  {
  }

  lemma HandshakeMoves(s: State, p: PeerRef)
    requires p in s.peers
    ensures Moves(s, DoHandshakeDone(s, p), p)
  {
  }

  lemma AdvanceMoves(mySubnets: set<ID>, s: State, p: PeerRef, subnet: ID)
    requires p in s.peers
    ensures Moves(s, DoAdvance(mySubnets, s, p, subnet), p)
  {
    hide TrackerCalls, RouterCalls, NextPhase;
  }

  lemma BeginMoves(s: State, p: PeerRef)
    requires p in s.peers
    ensures Moves(s, DoBeginDisconnect(s, p), p)
  {
  }

  lemma LeaveMoves(s: State, p: PeerRef, wanted: bool)
    requires p in s.peers && s.peers[p].phase.DropConnecting?
    ensures Moves(s, DoLeaveConnecting(s, p, wanted), p)
  {
  }

  lemma LeftMoves(s: State, p: PeerRef, wanted: bool)
    requires p in s.peers
    ensures Moves(s, DoLeaveConnected(s, p, wanted), p)
  {
  }

  /** What a step tells the IP tracker. */
  ghost function Told(s: State, a: Action): seq<Event> {
    if a.Advance? then if a.peer in s.peers then TrackerCalls(s.peers[a.peer]) else []
    else Said(a)
  }

  lemma LogGrows(mySubnets: set<ID>, s: State, a: Action)
    ensures Do(mySubnets, s, a).trackerLog == s.trackerLog + Told(s, a)
  {
    hide TrackerCalls, RouterCalls, NextPhase;
    assert s.trackerLog + [] == s.trackerLog;
  }

  ghost predicate PeersFrom(actions: seq<Action>, s: State) {
    forall p :: p in s.peers ==> Upgrade(s.peers[p].node, s.peers[p].ip, s.peers[p].subnets) in actions
  }

  /** An action other than a peer's made this call. */
  ghost predicate CalledBy(actions: seq<Action>, e: Event) {
    || OtherTrackerCall(e) in actions
    || (e.AddIP? && (TrackIP(e.ip, true) in actions || TrackIP(e.ip, false) in actions))
  }

  /** A connection is announced as it was upgraded; the other calls are those of the other actions, all of them. */
  ghost predicate LogFrom(actions: seq<Action>, log: seq<Event>) {
    && (forall e :: e in log && e.Connected? ==> Upgrade(e.ip.nodeID, e.ip, e.subnets) in actions)
    && (forall e: Event :: !e.Connected? && !e.Disconnected? ==> (e in log <==> CalledBy(actions, e)))
  }

  lemma LogFromStep(before: seq<Action>, a: Action, s: State)
    requires LogFrom(before, s.trackerLog) && PeersFrom(before, s)
    requires a.Advance? && a.peer in s.peers ==> s.peers[a.peer].ip.nodeID == s.peers[a.peer].node
    ensures LogFrom(before + [a], s.trackerLog + Told(s, a))
  {
    forall e ensures CalledBy(before + [a], e) <==> CalledBy(before, e) || CalledBy([a], e) {
    }
    if !a.Advance? {
      forall e: Event | !e.Connected? && !e.Disconnected? ensures e in Said(a) <==> CalledBy([a], e) {
      }
    }
  }

  lemma {:induction false} Provenance(mySubnets: set<ID>, actions: seq<Action>)
    requires PRIMARY_NETWORK !in mySubnets
    ensures PeersFrom(actions, Exec(mySubnets, actions)) && LogFrom(actions, Exec(mySubnets, actions).trackerLog)
  {
    if actions != [] {
      var before, a := actions[..|actions| - 1], actions[|actions| - 1];
      var s := Exec(mySubnets, before);
      assert actions == before + [a];
      Provenance(mySubnets, before);
      EveryRun(mySubnets, before);
      LogGrows(mySubnets, s, a);
      LogFromStep(before, a, s);
      hide Do;
      forall p | p in Do(mySubnets, s, a).peers ensures
        var x := Do(mySubnets, s, a).peers[p]; Upgrade(x.node, x.ip, x.subnets) in actions
      {
        PeersStem(mySubnets, s, a, p);
      }
    }
  }

  /** A peer whose goroutines have not all finished their Disconnected call. */
  predicate Alive(s: State, p: PeerRef) {
    p in s.peers && !s.peers[p].phase.Gone?
  }

  /** A dial loop that has not been told to stop. */
  predicate Dialing(s: State, d: IPRef) {
    d in s.dials && d !in s.stopped
  }

  /** What the tracker and the router know of a peer that finished its handshake. */
  lemma Announced(mySubnets: set<ID>, s: State, p: PeerRef)
    requires Inv(mySubnets, s) && Alive(s, p)
    ensures var x, m := s.peers[p], Run(mySubnets, s.trackerLog);
            && (BetweenTheCalls(x.phase) ==>
                x.node in m.connected && m.connected[x.node] == ConnectedNode(x.subnets, x.ip))
            && (x.phase.Live? ==>
                && x.node in m.connected
                && RouterState(s.routerLog, x.node) == Some({PRIMARY_NETWORK} + mySubnets * x.subnets))
  {
    hide Alternates, AllLegal, DialsTied, Run, RouterState;
    PlacedIn(s, p);
    hide PeersTied;
    assert InConnected(s.peers[p].phase) ==> PeerAt(s, s.peers[p].node) == Some(s.peers[p]);
    assert ConnectionAt(Run(mySubnets, s.trackerLog), s.peers[p].node) == Heard(PeerAt(s, s.peers[p].node));
  }

  /** Conversely the tracker knows no connection but that of such a peer. */
  lemma OnlyAnnounced(mySubnets: set<ID>, s: State, n: NodeID)
    requires Inv(mySubnets, s) && n in Run(mySubnets, s.trackerLog).connected
    ensures n in s.connected && Alive(s, s.connected[n])
    ensures var x := s.peers[s.connected[n]];
            && x.node == n && Run(mySubnets, s.trackerLog).connected[n] == ConnectedNode(x.subnets, x.ip)
            && BetweenTheCalls(x.phase)
  {
    hide Alternates, AllLegal, DialsTied, Run, RouterState;
    assert ConnectionAt(Run(mySubnets, s.trackerLog), n) == Heard(PeerAt(s, n));
  }

  /** The promises of the network, over every interleaving. */
  lemma Safety(mySubnets: set<ID>, actions: seq<Action>)
    requires PRIMARY_NETWORK !in mySubnets
    ensures var s := Exec(mySubnets, actions);
            && (forall p, q :: Alive(s, p) && Alive(s, q) && s.peers[p].node == s.peers[q].node ==> p == q)
            && (forall n :: n in s.connecting ==> n !in s.connected)
            && (forall n :: n in s.connected ==> n !in s.trackedIPs)
            && (forall d :: Dialing(s, d) ==> s.dials[d].node in s.trackedIPs && s.trackedIPs[s.dials[d].node] == d)
            && (forall d, e :: Dialing(s, d) && Dialing(s, e) && s.dials[d].node == s.dials[e].node ==> d == e)
            && Alternates(s.trackerLog) && AllLegal(s.routerLog)
    ensures var s, m := Exec(mySubnets, actions), Run(mySubnets, Exec(mySubnets, actions).trackerLog);
            && (forall p :: Alive(s, p) && BetweenTheCalls(s.peers[p].phase) ==>
                  && s.peers[p].node in m.connected
                  && m.connected[s.peers[p].node] == ConnectedNode(s.peers[p].subnets, s.peers[p].ip))
            && (forall n :: n in m.connected ==>
                  && n in s.connected && Alive(s, s.connected[n]) && BetweenTheCalls(s.peers[s.connected[n]].phase)
                  && m.connected[n] == ConnectedNode(s.peers[s.connected[n]].subnets, s.peers[s.connected[n]].ip))
            && (forall p :: Alive(s, p) && s.peers[p].phase.Live? ==>
                  && s.peers[p].node in m.connected
                  && RouterState(s.routerLog, s.peers[p].node) ==
                     Some({PRIMARY_NETWORK} + mySubnets * s.peers[p].subnets))
  {
    EveryRun(mySubnets, actions);
    var s := Exec(mySubnets, actions);
    forall p | Alive(s, p) { Announced(mySubnets, s, p); }
    forall n | n in Run(mySubnets, s.trackerLog).connected { OnlyAnnounced(mySubnets, s, n); }
    forall p, q | Alive(s, p) && Alive(s, q) && s.peers[p].node == s.peers[q].node ensures p == q {
      PlacedIn(s, p);
      PlacedIn(s, q);
    }
  }

  // ---- One connection from its upgrade to its end ----

  function After(mySubnets: set<ID>, s: State, actions: seq<Action>): State {
    if actions == [] then s
    else Do(mySubnets, After(mySubnets, s, actions[..|actions| - 1]), actions[|actions| - 1])
  }

  lemma AfterOne(mySubnets: set<ID>, s: State, actions: seq<Action>, a: Action)
    ensures After(mySubnets, s, actions + [a]) == Do(mySubnets, After(mySubnets, s, actions), a)
  {
    assert (actions + [a])[..|actions|] == actions;
  }

  /** Once closing begins no connection is upgraded any more. */
  lemma {:induction false} ClosedForGood(mySubnets: set<ID>, s: State, actions: seq<Action>, p: PeerRef)
    requires s.closing
    ensures After(mySubnets, s, actions).closing
    ensures p in After(mySubnets, s, actions).peers ==> p in s.peers
  {
    if actions != [] {
      var before, a := actions[..|actions| - 1], actions[|actions| - 1];
      ClosedForGood(mySubnets, s, before, p);
      StaysClosed(mySubnets, After(mySubnets, s, before), a);
      hide Do;
      if p in After(mySubnets, s, actions).peers {
        PeersStem(mySubnets, After(mySubnets, s, before), a, p);
      }
    }
  }

  lemma StaysClosed(mySubnets: set<ID>, s: State, a: Action)
    requires s.closing
    ensures Do(mySubnets, s, a).closing
  {
    hide TrackerCalls, RouterCalls, NextPhase;
  }

  /** Peer p stands among the connected ones, as x, after these calls. */
  ghost predicate Stands(s: State, p: PeerRef, x: Peer, told: seq<Event>, routed: seq<RouterCall>) {
    && p in s.peers && s.peers[p] == x && s.trackerLog == told && s.routerLog == routed
    && x.node !in s.connecting && x.node in s.connected && s.connected[x.node] == p
  }

  lemma StandsNext(mySubnets: set<ID>, s: State, p: PeerRef, x: Peer, subnet: ID)
    requires Stands(s, p, x, s.trackerLog, s.routerLog)
    ensures Stands(Do(mySubnets, s, Advance(p, subnet)), p, x.(phase := NextPhase(mySubnets, x, subnet)),
                   s.trackerLog + TrackerCalls(x), s.routerLog + RouterCalls(x, subnet))
  {
    hide TrackerCalls, RouterCalls, NextPhase;
  }

  /** The upgrade and the handshake of a node that was free. */
  lemma Joins(mySubnets: set<ID>, s: State, ip: ClaimedIP, subnets: set<ID>)
    requires !s.closing && ip.nodeID !in s.connecting && ip.nodeID !in s.connected
    ensures var s' := Do(mySubnets, Do(mySubnets, s, Upgrade(ip.nodeID, ip, subnets)), HandshakeDone(s.nextPeer));
            Stands(s', s.nextPeer, Peer(ip.nodeID, ip, subnets, TellTracker), s.trackerLog, s.routerLog)
  {
  }

  lemma Leaves(mySubnets: set<ID>, s: State, p: PeerRef, x: Peer, wanted: bool)
    requires Stands(s, p, x, s.trackerLog, s.routerLog) && x.phase.DropConnected?
    ensures var s' := Do(mySubnets, s, LeaveConnected(p, wanted));
            && s'.trackerLog == s.trackerLog && s'.routerLog == s.routerLog && x.node !in s'.connected
            && p in s'.peers && s'.peers[p].phase.Gone?
  {
  }

  lemma StandsBegin(mySubnets: set<ID>, s: State, p: PeerRef, x: Peer)
    requires Stands(s, p, x, s.trackerLog, s.routerLog) && x.phase.Live?
    ensures Stands(Do(mySubnets, s, BeginDisconnect(p)), p, x.(phase := UntellTracker), s.trackerLog, s.routerLog)
  {
  }

  /** The router hears of the common subnets in the order they are taken. */
  function Tells(p: PeerRef, order: seq<ID>): seq<Action> {
    seq(|order|, i requires 0 <= i < |order| => Advance(p, order[i]))
  }

  function Routed(n: NodeID, order: seq<ID>): seq<RouterCall> {
    seq(|order|, i requires 0 <= i < |order| => RouterConnected(n, order[i]))
  }

  ghost function Elements(order: seq<ID>): set<ID> {
    set s | s in order
  }

  ghost predicate Distinct(order: seq<ID>) {
    forall i, j :: 0 <= i < j < |order| ==> order[i] != order[j]
  }

  lemma OneMoreElement(order: seq<ID>)
    requires order != [] && Distinct(order)
    ensures var before, last := order[..|order| - 1], order[|order| - 1];
            order == before + [last] && Distinct(before) && last !in Elements(before) &&
            Elements(order) == Elements(before) + {last}
  {
  }

  lemma TodoLess(todo: set<ID>, done: set<ID>, last: ID)
    ensures todo - (done + {last}) == todo - done - {last}
  {
  }

  lemma {:induction false} ToldInOrder(mySubnets: set<ID>, s: State, p: PeerRef, x: Peer, order: seq<ID>)
    requires Stands(s, p, x, s.trackerLog, s.routerLog) && Distinct(order)
    requires x.phase.TellSubnets? && Elements(order) <= x.phase.todo
    ensures Stands(After(mySubnets, s, Tells(p, order)), p, x.(phase := TellSubnets(x.phase.todo - Elements(order))),
                   s.trackerLog, s.routerLog + Routed(x.node, order))
  {
    hide *;
    if order == [] {
      NothingTold(mySubnets, s, p, x);
    } else {
      var before, last := order[..|order| - 1], order[|order| - 1];
      OneMoreElement(order);
      ToldInOrder(mySubnets, s, p, x, before);
      var s1 := After(mySubnets, s, Tells(p, before));
      var x1 := x.(phase := TellSubnets(x.phase.todo - Elements(before)));
      assert last in Elements(order) && last in x1.phase.todo;
      ToldNext(mySubnets, s1, p, x1, s.trackerLog, s.routerLog + Routed(x.node, before), last);
      TodoLess(x.phase.todo, Elements(before), last);
      CallsMore(p, x.node, s.routerLog, before, last);
      AfterOne(mySubnets, s, Tells(p, before), Advance(p, last));
    }
  }

  lemma NothingTold(mySubnets: set<ID>, s: State, p: PeerRef, x: Peer)
    requires Stands(s, p, x, s.trackerLog, s.routerLog) && x.phase.TellSubnets?
    ensures Stands(After(mySubnets, s, Tells(p, [])), p, x.(phase := TellSubnets(x.phase.todo - Elements([]))),
                   s.trackerLog, s.routerLog + Routed(x.node, []))
  {
    assert x.phase.todo - Elements([]) == x.phase.todo && s.routerLog + [] == s.routerLog;
  }

  lemma CallsMore(p: PeerRef, n: NodeID, routed: seq<RouterCall>, before: seq<ID>, last: ID)
    ensures Tells(p, before + [last]) == Tells(p, before) + [Advance(p, last)]
    ensures routed + Routed(n, before + [last]) == routed + Routed(n, before) + [RouterConnected(n, last)]
  {
  }

  lemma ToldNext(mySubnets: set<ID>, s: State, p: PeerRef, x: Peer, told: seq<Event>, routed: seq<RouterCall>,
                 subnet: ID)
    requires Stands(s, p, x, told, routed) && x.phase.TellSubnets? && subnet in x.phase.todo
    ensures Stands(Do(mySubnets, s, Advance(p, subnet)), p, x.(phase := TellSubnets(x.phase.todo - {subnet})),
                   told, routed + [RouterConnected(x.node, subnet)])
  {
    StandsNext(mySubnets, s, p, x, subnet);
    hide Do;
    assert told + [] == told;
  }

  lemma {:induction false} AfterMore(mySubnets: set<ID>, s: State, first: seq<Action>, more: seq<Action>)
    ensures After(mySubnets, s, first + more) == After(mySubnets, After(mySubnets, s, first), more)
  {
    if more == [] {
      assert first + more == first;
    } else {
      var n := |more| - 1;
      assert first + more == first + more[..n] + [more[n]];
      AfterOne(mySubnets, s, first + more[..n], more[n]);
      AfterMore(mySubnets, s, first, more[..n]);
    }
  }

  lemma AfterTwo(mySubnets: set<ID>, s: State, a: Action, b: Action)
    ensures After(mySubnets, s, [a]) == Do(mySubnets, s, a)
    ensures After(mySubnets, s, [a, b]) == Do(mySubnets, Do(mySubnets, s, a), b)
  {
    hide Do;
    assert [a, b][..1] == [a] && [a][..0] == [];
  }

  /** The tracker, then the router on the primary network. */
  lemma TellsBoth(mySubnets: set<ID>, s: State, p: PeerRef, x: Peer)
    requires Stands(s, p, x, s.trackerLog, s.routerLog) && (x.phase.TellTracker? || x.phase.UntellTracker?)
    ensures Stands(After(mySubnets, s, [Advance(p, 0), Advance(p, 0)]), p,
                   x.(phase := if x.phase.TellTracker? then TellSubnets(mySubnets * x.subnets) else DropConnected),
                   s.trackerLog + (if x.phase.TellTracker? then [Connected(x.ip, x.subnets)]
                                   else [Disconnected(x.node)]),
                   s.routerLog + (if x.phase.TellTracker? then [RouterConnected(x.node, PRIMARY_NETWORK)]
                                  else [RouterDisconnected(x.node)]))
  {
    AfterTwo(mySubnets, s, Advance(p, 0), Advance(p, 0));
    var s1 := Do(mySubnets, s, Advance(p, 0));
    StandsNext(mySubnets, s, p, x, 0);
    var x1 := x.(phase := NextPhase(mySubnets, x, 0));
    StandsNext(mySubnets, s1, p, x1, 0);
    hide Do, After;
    assert s.routerLog + [] == s.routerLog && s1.trackerLog + [] == s1.trackerLog;
  }

  /**
   A free node that is upgraded reaches the tracker with its address and subnets, then the router on
   the primary network and on each common subnet, and is then live.
   */
  lemma Arrival(mySubnets: set<ID>, s: State, ip: ClaimedIP, subnets: set<ID>, order: seq<ID>)
    requires !s.closing && ip.nodeID !in s.connecting && ip.nodeID !in s.connected
    requires Distinct(order) && Elements(order) == mySubnets * subnets
    ensures var p, n := s.nextPeer, ip.nodeID;
            Stands(After(mySubnets, s, [Upgrade(n, ip, subnets), HandshakeDone(p)] + [Advance(p, 0), Advance(p, 0)] +
                                       Tells(p, order) + [Advance(p, 0)]),
                   p, Peer(n, ip, subnets, Live), s.trackerLog + [Connected(ip, subnets)],
                   s.routerLog + [RouterConnected(n, PRIMARY_NETWORK)] + Routed(n, order))
  {
    var p, n := s.nextPeer, ip.nodeID;
    var a, b := [Upgrade(n, ip, subnets), HandshakeDone(p)], [Advance(p, 0), Advance(p, 0)];
    Joins(mySubnets, s, ip, subnets);
    AfterTwo(mySubnets, s, a[0], a[1]);
    var s1 := After(mySubnets, s, a);
    TellsBoth(mySubnets, s1, p, Peer(n, ip, subnets, TellTracker));
    AfterMore(mySubnets, s, a, b);
    var s2 := After(mySubnets, s, a + b);
    var x2 := Peer(n, ip, subnets, TellSubnets(mySubnets * subnets));
    ToldInOrder(mySubnets, s2, p, x2, order);
    AfterMore(mySubnets, s, a + b, Tells(p, order));
    var s3 := After(mySubnets, s, a + b + Tells(p, order));
    assert mySubnets * subnets - Elements(order) == {};
    StandsNext(mySubnets, s3, p, Peer(n, ip, subnets, TellSubnets({})), 0);
    AfterOne(mySubnets, s, a + b + Tells(p, order), Advance(p, 0));
    hide Do, After;
    assert s3.trackerLog + [] == s3.trackerLog && s3.routerLog + [] == s3.routerLog;
  }

  /** Its end is told to the tracker and to the router, in this order, before the node is free again. */
  lemma Departure(mySubnets: set<ID>, s: State, p: PeerRef, x: Peer, wanted: bool)
    requires Stands(s, p, x, s.trackerLog, s.routerLog) && x.phase.Live?
    ensures var s' := After(mySubnets, s, [BeginDisconnect(p)] + [Advance(p, 0), Advance(p, 0)] +
                                          [LeaveConnected(p, wanted)]);
            && s'.trackerLog == s.trackerLog + [Disconnected(x.node)]
            && s'.routerLog == s.routerLog + [RouterDisconnected(x.node)]
            && x.node !in s'.connected && !Alive(s', p)
  {
    var a, b := [BeginDisconnect(p)], [Advance(p, 0), Advance(p, 0)];
    AfterTwo(mySubnets, s, a[0], a[0]);
    StandsBegin(mySubnets, s, p, x);
    var s1 := After(mySubnets, s, a);
    TellsBoth(mySubnets, s1, p, x.(phase := UntellTracker));
    AfterMore(mySubnets, s, a, b);
    var s2 := After(mySubnets, s, a + b);
    Leaves(mySubnets, s2, p, x.(phase := DropConnected), wanted);
    AfterOne(mySubnets, s, a + b, LeaveConnected(p, wanted));
  }
}
