/**
 What the concrete maps of the tracker must hold for a given model, and how that changes with
 every event.
 */
module TrackerMeaning {
  import opened Common
  import opened TrackerModel
  import opened GossipSubnet

  datatype TrackedNode = TrackedNode(
    manuallyTracked: bool,
    validatedSubnets: set<ID>,
    trackedSubnets: set<ID>,
    ip: Option<ClaimedIP>)
  {
    predicate WantsConnection() {
      manuallyTracked || |trackedSubnets| > 0
    }

    predicate CanDelete() {
      !manuallyTracked && |validatedSubnets| == 0
    }
  }

  type Pairs = set<(ID, NodeID)>

  ghost function SubnetsOf(pairs: Pairs, n: NodeID): set<ID> {
    set p | p in pairs && p.1 == n :: p.0
  }

  ghost function NodesOf(pairs: Pairs, s: ID): set<NodeID> {
    set p | p in pairs && p.0 == s :: p.1
  }

  ghost function Reasons(m: Model): Pairs {
    m.validators + m.manuallyGossiped
  }

  ghost function IPOf(m: Model, n: NodeID): Option<ClaimedIP> {
    if n in m.latest then Some(m.latest[n]) else None
  }

  ghost function FollowedOf(m: Model, n: NodeID): set<ID> {
    set s | s in SubnetsOf(Reasons(m), n) && m.Follows(s)
  }

  ghost function NodeMeaning(m: Model, n: NodeID): TrackedNode {
    TrackedNode(n in m.manuallyTracked,
                SubnetsOf(Reasons(m), n),
                FollowedOf(m, n),
                IPOf(m, n))
  }

  ghost function TrackedSet(m: Model): set<NodeID> {
    m.manuallyTracked + set p | p in Reasons(m) :: p.1
  }

  /** The tracked map that a model stands for. */
  ghost function TrackedMap(m: Model): map<NodeID, TrackedNode> {
    map n | n in TrackedSet(m) :: NodeMeaning(m, n)
  }

  /** One entry, the latest address, for each node in the subnet's gossip. */
  ghost function GossipList(m: Model, s: ID): map<NodeID, ClaimedIP> {
    map n | n in m.latest && m.InGossip(s, n) :: m.latest[n]
  }

  ghost function SubnetMeaning(m: Model, s: ID): SubnetView {
    SubnetView(NodesOf(m.manuallyGossiped, s), NodesOf(Reasons(m), s), GossipList(m, s))
  }

  ghost function SubnetSet(m: Model): set<ID> {
    set p | p in Reasons(m) :: p.0
  }

  /** The subnet map that a model stands for, each list read as a map. */
  ghost function SubnetMap(m: Model): map<ID, SubnetView> {
    map s | s in SubnetSet(m) :: SubnetMeaning(m, s)
  }

  ghost function ViewOf(views: map<ID, SubnetView>, s: ID): SubnetView {
    if s in views then views[s] else SubnetView({}, {}, map[])
  }

  lemma TrackedSetMeans(m: Model, n: NodeID)
    ensures n in TrackedSet(m) <==> m.Tracked(n)
  {
    if m.Tracked(n) && n !in m.manuallyTracked {
      var s :| (s, n) in m.validators || (s, n) in m.manuallyGossiped;
      assert (s, n) in Reasons(m);
    }
    if n in TrackedSet(m) && n !in m.manuallyTracked {
      var p :| p in Reasons(m) && p.1 == n;
      var s := p.0;
      assert p == (s, n);
      assert (s, n) in m.validators || (s, n) in m.manuallyGossiped;
    }
  }

  /** Membership in the lists, spelled out: the gossip array holds exactly the nodes in the subnet's gossip. */
  lemma SubnetMeans(m: Model, s: ID, n: NodeID)
    requires Consistent(m)
    ensures n in SubnetMeaning(m, s).manuallyGossipable <==> (s, n) in m.manuallyGossiped
    ensures n in SubnetMeaning(m, s).gossipableIDs <==> m.Gossipable(s, n)
    ensures n in SubnetMeaning(m, s).entries <==> m.InGossip(s, n)
    ensures n in SubnetMeaning(m, s).entries ==> SubnetMeaning(m, s).entries[n] == m.latest[n]
    ensures s in SubnetsOf(Reasons(m), n) <==> m.Gossipable(s, n)
    ensures s in SubnetSet(m) <==> exists x :: m.Gossipable(s, x)
  {
    assert m.Gossipable(s, n) ==> (s, n) in Reasons(m);
    assert (s, n) in m.manuallyGossiped ==> n in NodesOf(m.manuallyGossiped, s);
    if m.Gossipable(s, n) {
      assert m.Tracked(n);
    }
    if x :| m.Gossipable(s, x) {
      assert (s, x) in Reasons(m);
    }
    if s in SubnetSet(m) {
      var p :| p in Reasons(m) && p.0 == s;
      assert m.Gossipable(s, p.1);
    }
  }

  // ---- Effects of the handlers on values ----

  /** The tracked entry of n before a reason is added; a new one starts with the connection's address. */
  function Known(tracked: map<NodeID, TrackedNode>, connected: map<NodeID, ConnectedNode>, n: NodeID): TrackedNode {
    if n in tracked then tracked[n]
    else TrackedNode(false, {}, {}, if n in connected then Some(connected[n].ip) else None)
  }

  function WithReason(mySubnets: set<ID>, t: TrackedNode, subnetID: Option<ID>): TrackedNode {
    match subnetID
    case None => t.(manuallyTracked := true)
    case Some(s) =>
      t.(validatedSubnets := t.validatedSubnets + {s},
         trackedSubnets := if s == PRIMARY_NETWORK || s in mySubnets then t.trackedSubnets + {s} else t.trackedSubnets)
  }

  /** The tracked entry of e.node after an event that adds a reason. */
  function EntryAfter(mySubnets: set<ID>, connected: map<NodeID, ConnectedNode>, e: Event,
                      tracked: map<NodeID, TrackedNode>): TrackedNode
    requires e.ManuallyTrack? || e.ManuallyGossip? || e.ValidatorAdded?
  {
    var t := Known(tracked, connected, e.node);
    match e
    case ManuallyTrack(_) => WithReason(mySubnets, t, None)
    case ManuallyGossip(s, _) =>
      WithReason(mySubnets, if s == PRIMARY_NETWORK || s in mySubnets then WithReason(mySubnets, t, None) else t,
                 Some(s))
    case ValidatorAdded(s, _) => WithReason(mySubnets, t, Some(s))
  }

  /** The address listed for n on s, read from n's tracked entry. */
  function Listing(connected: map<NodeID, ConnectedNode>, t: TrackedNode, n: NodeID, s: ID): Option<ClaimedIP> {
    if n in connected && s in connected[n].trackedSubnets then t.ip else None
  }

  // ---- How the meaning changes with each event ----

  lemma SubnetsOfAdd(pairs: Pairs, s: ID, n: NodeID, x: NodeID)
    ensures SubnetsOf(pairs + {(s, n)}, x) == if x == n then SubnetsOf(pairs, n) + {s} else SubnetsOf(pairs, x)
  {
    var pairs' := pairs + {(s, n)};
    assert (s, n) in pairs';
    forall t | t in SubnetsOf(pairs, x) ensures t in SubnetsOf(pairs', x) {
      assert (t, x) in pairs';
    }
  }

  lemma NodesOfAdd(pairs: Pairs, s: ID, n: NodeID, t: ID)
    ensures NodesOf(pairs + {(s, n)}, t) == if t == s then NodesOf(pairs, s) + {n} else NodesOf(pairs, t)
  {
    var pairs' := pairs + {(s, n)};
    assert (s, n) in pairs';
    forall x | x in NodesOf(pairs, t) ensures x in NodesOf(pairs', t) {
      assert (t, x) in pairs';
    }
  }

  lemma NotTrackedNoReasons(m: Model, n: NodeID)
    requires n !in TrackedSet(m)
    ensures SubnetsOf(Reasons(m), n) == {} && n !in m.manuallyTracked
    ensures Consistent(m) ==> n !in m.latest
  {
    TrackedSetMeans(m, n);
    assert forall p :: p in Reasons(m) ==> p.1 != n;
  }

  lemma TrackedSetAdd(m: Model, e: Event)
    requires e.ManuallyTrack? || e.ManuallyGossip? || e.ValidatorAdded?
    ensures TrackedSet(Step(m, e)) == TrackedSet(m) + {e.node}
  {
    var m' := Step(m, e);
    if e.ManuallyGossip? || e.ValidatorAdded? {
      assert Reasons(m') == Reasons(m) + {(e.subnet, e.node)};
      assert (e.subnet, e.node) in Reasons(m');
    }
    forall x | x in TrackedSet(m) ensures x in TrackedSet(m') {
      if x !in m.manuallyTracked {
        var p :| p in Reasons(m) && p.1 == x;
        assert p in Reasons(m');
      }
    }
  }

  lemma AddedReasons(m: Model, e: Event)
    requires e.ManuallyTrack? || e.ManuallyGossip? || e.ValidatorAdded?
    ensures Reasons(Step(m, e)) == if e.ManuallyTrack? then Reasons(m) else Reasons(m) + {(e.subnet, e.node)}
  {
  }

  lemma OtherNodeMeaning(m: Model, e: Event, x: NodeID)
    requires e.ManuallyTrack? || e.ManuallyGossip? || e.ValidatorAdded?
    requires x != e.node
    ensures NodeMeaning(Step(m, e), x) == NodeMeaning(m, x)
  {
    AddedReasons(m, e);
    if !e.ManuallyTrack? {
      SubnetsOfAdd(Reasons(m), e.subnet, e.node, x);
    }
    assert FollowedOf(Step(m, e), x) == FollowedOf(m, x);
  }

  lemma AddedNodeMeaning(m: Model, e: Event)
    requires e.ManuallyTrack? || e.ManuallyGossip? || e.ValidatorAdded?
    requires Consistent(m)
    ensures NodeMeaning(Step(m, e), e.node) == EntryAfter(m.mySubnets, m.connected, e, TrackedMap(m))
  {
    var m', n := Step(m, e), e.node;
    TrackedSetMeans(m, n);
    AddedReasons(m, e);
    if !e.ManuallyTrack? {
      SubnetsOfAdd(Reasons(m), e.subnet, n, n);
    }
    if n !in TrackedSet(m) {
      NotTrackedNoReasons(m, n);
    }
    AddedFollowed(m, e);
    AddedAddress(m, e);
    hide SubnetsOf, FollowedOf, TrackedSet, Reasons, IPOf, Consistent;
  }

  /** A node that becomes tracked takes the address of its connection; any other keeps its own. */
  lemma AddedAddress(m: Model, e: Event)
    requires (e.ManuallyTrack? || e.ManuallyGossip? || e.ValidatorAdded?) && Consistent(m)
    ensures IPOf(Step(m, e), e.node) ==
            if m.Tracked(e.node) then IPOf(m, e.node)
            else if e.node in m.connected then Some(m.connected[e.node].ip) else None
  {
  }

  lemma AddedFollowed(m: Model, e: Event)
    requires e.ManuallyTrack? || e.ManuallyGossip? || e.ValidatorAdded?
    ensures FollowedOf(Step(m, e), e.node) ==
            FollowedOf(m, e.node) + if !e.ManuallyTrack? && m.Follows(e.subnet) then {e.subnet} else {}
  {
    AddedReasons(m, e);
    if !e.ManuallyTrack? {
      SubnetsOfAdd(Reasons(m), e.subnet, e.node, e.node);
    }
  }

  /** Adding a reason updates exactly one tracked entry. */
  lemma AddedTrackedMap(m: Model, e: Event)
    requires e.ManuallyTrack? || e.ManuallyGossip? || e.ValidatorAdded?
    requires Consistent(m)
    ensures e.node in m.connected ==> m.connected[e.node].ip.nodeID == e.node
    ensures Step(m, e).mySubnets == m.mySubnets && Step(m, e).connected == m.connected
    ensures TrackedMap(Step(m, e)) ==
            TrackedMap(m)[e.node := EntryAfter(m.mySubnets, m.connected, e, TrackedMap(m))]
  {
    TrackedSetAdd(m, e);
    forall x | x in TrackedSet(Step(m, e)) ensures
        x != e.node ==> NodeMeaning(Step(m, e), x) == NodeMeaning(m, x)
    {
      if x != e.node { OtherNodeMeaning(m, e, x); }
    }
    AddedNodeMeaning(m, e);
  }

  lemma ManualTrackSubnetMap(m: Model, n: NodeID)
    requires Consistent(m)
    ensures SubnetMap(Step(m, ManuallyTrack(n))) == SubnetMap(m)
  {
    var m' := Step(m, ManuallyTrack(n));
    forall s ensures GossipList(m', s) == GossipList(m, s) {
      SubnetMeans(m, s, n);
      assert m.Gossipable(s, n) ==> m.Tracked(n);
    }
  }

  lemma OtherGossipList(m: Model, e: Event, t: ID)
    requires e.ManuallyGossip? || e.ValidatorAdded?
    requires t != e.subnet
    ensures GossipList(Step(m, e), t) == GossipList(m, t)
  {
    assert m.Gossipable(t, e.node) ==> m.Tracked(e.node);
  }

  lemma AddedGossipList(m: Model, e: Event)
    requires e.ManuallyGossip? || e.ValidatorAdded?
    requires Consistent(m)
    ensures GossipList(Step(m, e), e.subnet) ==
            if !m.Gossipable(e.subnet, e.node) && e.node in m.connected &&
              e.subnet in m.connected[e.node].trackedSubnets
               && e.node in Step(m, e).latest
            then GossipList(m, e.subnet)[e.node := Step(m, e).latest[e.node]] else GossipList(m, e.subnet)
  {
    assert m.Gossipable(e.subnet, e.node) ==> m.Tracked(e.node);
  }

  lemma OtherSubnetMeaning(m: Model, e: Event, t: ID)
    requires e.ManuallyGossip? || e.ValidatorAdded?
    requires t != e.subnet
    ensures SubnetMeaning(Step(m, e), t) == SubnetMeaning(m, t)
  {
    AddedReasons(m, e);
    OtherGossipList(m, e, t);
    NodesOfAdd(Reasons(m), e.subnet, e.node, t);
    NodesOfAdd(m.manuallyGossiped, e.subnet, e.node, t);
  }

  lemma AddedSubnetMeaning(m: Model, e: Event)
    requires e.ManuallyGossip? || e.ValidatorAdded?
    requires Consistent(m)
    ensures var t := EntryAfter(m.mySubnets, m.connected, e, TrackedMap(m));
            && (e.node in m.connected ==> t.ip.Some? && t.ip.value.nodeID == e.node)
            && SubnetMeaning(Step(m, e), e.subnet) ==
               Marked(SubnetMeaning(m, e.subnet), e.node, e.ManuallyGossip?,
                      Listing(m.connected, t, e.node, e.subnet))
  {
    var m', s, n := Step(m, e), e.subnet, e.node;
    AddedReasons(m, e);
    AddedNodeMeaning(m, e);
    StepConsistent(m, e);
    SubnetMeans(m, s, n);
    SubnetMeans(m', s, n);
    assert m'.Gossipable(s, n);
    assert m'.Tracked(n);
    AddedGossipList(m, e);
    NodesOfAdd(Reasons(m), s, n, s);
    NodesOfAdd(m.manuallyGossiped, s, n, s);
  }

  /** A node becoming gossipable on a subnet changes that subnet's lists only. */
  lemma AddedSubnetMap(m: Model, e: Event)
    requires e.ManuallyGossip? || e.ValidatorAdded?
    requires Consistent(m)
    ensures var t := EntryAfter(m.mySubnets, m.connected, e, TrackedMap(m));
            && (e.node in m.connected ==> t.ip.Some? && t.ip.value.nodeID == e.node)
            && SubnetMap(Step(m, e)) ==
               SubnetMap(m)[e.subnet := Marked(ViewOf(SubnetMap(m), e.subnet), e.node, e.ManuallyGossip?,
                                               Listing(m.connected, t, e.node, e.subnet))]
  {
    var m', s, n := Step(m, e), e.subnet, e.node;
    AddedSubnetMeaning(m, e);
    AddedSubnetSet(m, e);
    forall t | t != s ensures SubnetMeaning(m', t) == SubnetMeaning(m, t) {
      OtherSubnetMeaning(m, e, t);
    }
    if s !in SubnetSet(m) {
      NoSubnetMeaning(m, s);
    }
    hide SubnetMeaning, SubnetSet, Step, Consistent, EntryAfter, Marked, Listing, TrackedMap;
  }

  lemma AddedSubnetSet(m: Model, e: Event)
    requires e.ManuallyGossip? || e.ValidatorAdded?
    ensures SubnetSet(Step(m, e)) == SubnetSet(m) + {e.subnet}
  {
    var m' := Step(m, e);
    AddedReasons(m, e);
    assert (e.subnet, e.node) in Reasons(m');
    forall p | p in Reasons(m) ensures p.0 in SubnetSet(m') { assert p in Reasons(m'); }
  }

  lemma NoSubnetMeaning(m: Model, s: ID)
    requires s !in SubnetSet(m)
    ensures SubnetMeaning(m, s) == SubnetView({}, {}, map[])
  {
    assert forall p :: p in Reasons(m) ==> p.0 != s;
    assert forall n :: m.Gossipable(s, n) ==> (s, n) in Reasons(m);
    assert GossipList(m, s) == map[];
  }

  // ---- Addresses, connections ----

  ghost function SetIn(views: map<ID, SubnetView>, ip: ClaimedIP, subnets: set<ID>): map<ID, SubnetView> {
    map s | s in views ::
      if s in subnets && ip.nodeID in views[s].gossipableIDs
      then views[s].(entries := views[s].entries[ip.nodeID := ip]) else views[s]
  }

  ghost function RemoveIn(views: map<ID, SubnetView>, n: NodeID, subnets: set<ID>): map<ID, SubnetView> {
    map s | s in views :: if s in subnets then views[s].(entries := views[s].entries - {n}) else views[s]
  }

  /** Whether an address replaces the one held in a tracked entry. */
  predicate Newer(t: TrackedNode, ip: ClaimedIP) {
    t.ip.None? || t.ip.value.timestamp < ip.timestamp
  }

  /** Only the node's address changes when the model learns one. */
  lemma LearnTrackedMap(m: Model, ip: ClaimedIP)
    ensures ip.nodeID in TrackedMap(m) <==> m.Tracked(ip.nodeID)
    ensures TrackedMap(Learn(m, ip)) ==
            if ip.nodeID in TrackedMap(m) && Newer(TrackedMap(m)[ip.nodeID], ip)
            then TrackedMap(m)[ip.nodeID := TrackedMap(m)[ip.nodeID].(ip := Some(ip))] else TrackedMap(m)
  {
    var m' := Learn(m, ip);
    TrackedSetMeans(m, ip.nodeID);
    assert Reasons(m') == Reasons(m);
    forall n ensures FollowedOf(m', n) == FollowedOf(m, n) {
    }
  }

  lemma LearnSubnetMap(m: Model, ip: ClaimedIP)
    requires Consistent(m)
    ensures SubnetMap(Learn(m, ip)) ==
            if ip.nodeID in TrackedMap(m) && Newer(TrackedMap(m)[ip.nodeID], ip) && ip.nodeID in m.connected
            then SetIn(SubnetMap(m), ip, m.connected[ip.nodeID].trackedSubnets) else SubnetMap(m)
  {
    var m', n := Learn(m, ip), ip.nodeID;
    TrackedSetMeans(m, n);
    assert Reasons(m') == Reasons(m) && SubnetSet(m') == SubnetSet(m);
    forall s ensures SubnetMeaning(m', s) == LearntAt(m, ip, s) {
      LearnAt(m, ip, s);
    }
    hide SubnetMeaning, SubnetSet, Consistent, Reasons, TrackedSet;
  }

  ghost function LearntAt(m: Model, ip: ClaimedIP, s: ID): SubnetView {
    var v, n := SubnetMeaning(m, s), ip.nodeID;
    if Learn(m, ip).latest != m.latest && n in m.connected && s in m.connected[n].trackedSubnets && n in v.gossipableIDs
    then v.(entries := v.entries[n := ip]) else v
  }

  lemma LearnAt(m: Model, ip: ClaimedIP, s: ID)
    requires Consistent(m)
    ensures SubnetMeaning(Learn(m, ip), s) == LearntAt(m, ip, s)
  {
    assert Reasons(Learn(m, ip)) == Reasons(m);
    SubnetMeans(m, s, ip.nodeID);
    assert m.Gossipable(s, ip.nodeID) ==> m.Tracked(ip.nodeID);
    assert GossipList(Learn(m, ip), s) == LearntAt(m, ip, s).entries;
  }

  /** A connection replaces an earlier one of the same node without leaving a stale entry behind. */
  ghost predicate CleanConnect(m: Model, n: NodeID, subnets: set<ID>) {
    n in m.connected ==> forall s :: s in m.connected[n].trackedSubnets && m.Gossipable(s, n) ==> s in subnets
  }

  lemma ConnectTrackedMap(m: Model, ip: ClaimedIP, subnets: set<ID>)
    ensures var m1 := m.(connected := m.connected[ip.nodeID := ConnectedNode(subnets, ip)]);
            TrackedMap(m1) == TrackedMap(m) && Step(m, Connected(ip, subnets)) == Learn(m1, ip)
  {
    var m1 := m.(connected := m.connected[ip.nodeID := ConnectedNode(subnets, ip)]);
    forall n ensures FollowedOf(m1, n) == FollowedOf(m, n) {
    }
  }

  lemma ConnectGossipList(m: Model, ip: ClaimedIP, subnets: set<ID>, s: ID)
    requires Consistent(m)
    ensures var m' := Step(m, Connected(ip, subnets));
            var listed := GossipList(m', s);
            && (forall n :: n != ip.nodeID ==> (n in listed <==> n in GossipList(m, s)))
            && (forall n :: n != ip.nodeID && n in listed ==> listed[n] == GossipList(m, s)[n])
            && (ip.nodeID in listed <==> m.Gossipable(s, ip.nodeID) && s in subnets)
            && (ip.nodeID in listed ==> listed[ip.nodeID] == m'.latest[ip.nodeID])
  {
    var m' := Step(m, Connected(ip, subnets));
    assert m.Gossipable(s, ip.nodeID) ==> m.Tracked(ip.nodeID);
  }

  /** Connecting lists the node's latest address in every subnet it syncs, and nowhere else, iff it connects cleanly. */
  lemma ConnectSubnetMap(m: Model, ip: ClaimedIP, subnets: set<ID>)
    requires Consistent(m)
    ensures var m' := Step(m, Connected(ip, subnets));
            var listed := if m.Tracked(ip.nodeID) then SetIn(SubnetMap(m), m'.latest[ip.nodeID], subnets)
                          else SubnetMap(m);
            SubnetMap(m') == listed <==> CleanConnect(m, ip.nodeID, subnets)
  {
    if CleanConnect(m, ip.nodeID, subnets) {
      CleanConnectLists(m, ip, subnets);
    } else {
      StaleConnectLists(m, ip, subnets);
    }
  }

  lemma ConnectReasons(m: Model, ip: ClaimedIP, subnets: set<ID>)
    requires Consistent(m)
    ensures var m', n := Step(m, Connected(ip, subnets)), ip.nodeID;
            && Reasons(m') == Reasons(m) && SubnetSet(m') == SubnetSet(m)
            && forall s :: && (n in NodesOf(Reasons(m), s) <==> m.Gossipable(s, n))
                           && (m.Gossipable(s, n) ==> s in SubnetSet(m) && m.Tracked(n))
  {
    var m', n := Step(m, Connected(ip, subnets)), ip.nodeID;
    forall s
      ensures n in NodesOf(Reasons(m), s) <==> m.Gossipable(s, n)
      ensures m.Gossipable(s, n) ==> s in SubnetSet(m) && m.Tracked(n)
    {
      SubnetMeans(m, s, n);
    }
  }

  lemma CleanConnectLists(m: Model, ip: ClaimedIP, subnets: set<ID>)
    requires Consistent(m) && CleanConnect(m, ip.nodeID, subnets)
    ensures var m' := Step(m, Connected(ip, subnets));
            SubnetMap(m') == if m.Tracked(ip.nodeID) then SetIn(SubnetMap(m), m'.latest[ip.nodeID], subnets)
                             else SubnetMap(m)
  {
    var m', n := Step(m, Connected(ip, subnets)), ip.nodeID;
    ConnectReasons(m, ip, subnets);
    forall s | s in SubnetSet(m) ensures SubnetMeaning(m', s) == Relisted(m, ip, subnets, s) {
      CleanConnectAt(m, ip, subnets, s);
    }
    hide SubnetMeaning, SubnetSet, Consistent, CleanConnect, Step, Reasons;
  }

  /** What connecting should make of a subnet's lists. */
  ghost function Relisted(m: Model, ip: ClaimedIP, subnets: set<ID>, s: ID): SubnetView {
    var v := SubnetMeaning(m, s);
    if m.Tracked(ip.nodeID) && s in subnets && ip.nodeID in v.gossipableIDs
    then v.(entries := v.entries[ip.nodeID := Step(m, Connected(ip, subnets)).latest[ip.nodeID]]) else v
  }

  lemma CleanConnectAt(m: Model, ip: ClaimedIP, subnets: set<ID>, s: ID)
    requires Consistent(m) && CleanConnect(m, ip.nodeID, subnets)
    ensures SubnetMeaning(Step(m, Connected(ip, subnets)), s) == Relisted(m, ip, subnets, s)
  {
    ConnectReasons(m, ip, subnets);
    ConnectGossipList(m, ip, subnets, s);
    assert GossipList(Step(m, Connected(ip, subnets)), s) == Relisted(m, ip, subnets, s).entries;
  }

  /** A listing left over from an earlier connection stays. */
  lemma StaleConnectLists(m: Model, ip: ClaimedIP, subnets: set<ID>)
    requires Consistent(m) && !CleanConnect(m, ip.nodeID, subnets)
    ensures var m' := Step(m, Connected(ip, subnets));
            SubnetMap(m') != if m.Tracked(ip.nodeID) then SetIn(SubnetMap(m), m'.latest[ip.nodeID], subnets)
                             else SubnetMap(m)
  {
    var m', n := Step(m, Connected(ip, subnets)), ip.nodeID;
    ConnectReasons(m, ip, subnets);
    var listed := if m.Tracked(n) then SetIn(SubnetMap(m), m'.latest[n], subnets) else SubnetMap(m);
    var s :| s in m.connected[n].trackedSubnets && m.Gossipable(s, n) && s !in subnets;
    ConnectGossipList(m, ip, subnets, s);
    assert n in GossipList(m, s) && n !in GossipList(m', s);
    assert listed[s].entries == GossipList(m, s);
  }

  lemma DisconnectMaps(m: Model, n: NodeID)
    requires Consistent(m) && n in m.connected
    ensures var m' := Step(m, Disconnected(n));
            && TrackedMap(m') == TrackedMap(m)
            && SubnetMap(m') == RemoveIn(SubnetMap(m), n, m.connected[n].trackedSubnets)
  {
    var m' := Step(m, Disconnected(n));
    forall x ensures FollowedOf(m', x) == FollowedOf(m, x) {
    }
    forall s ensures GossipList(m', s) ==
      if s in m.connected[n].trackedSubnets then GossipList(m, s) - {n} else GossipList(m, s)
    {
    }
  }

  // ---- Removing a validator ----

  lemma SubnetsOfRemove(pairs: Pairs, s: ID, n: NodeID, x: NodeID)
    ensures SubnetsOf(pairs - {(s, n)}, x) == if x == n then SubnetsOf(pairs, n) - {s} else SubnetsOf(pairs, x)
  {
    forall t | t in SubnetsOf(pairs, x) && !(x == n && t == s) ensures t in SubnetsOf(pairs - {(s, n)}, x) {
      assert (t, x) in pairs - {(s, n)};
    }
  }

  lemma NodesOfRemove(pairs: Pairs, s: ID, n: NodeID, t: ID)
    ensures NodesOf(pairs - {(s, n)}, t) == if t == s then NodesOf(pairs, s) - {n} else NodesOf(pairs, t)
  {
    forall x | x in NodesOf(pairs, t) && !(x == n && t == s) ensures x in NodesOf(pairs - {(s, n)}, t) {
      assert (t, x) in pairs - {(s, n)};
    }
  }

  /** A manually gossiped node stays gossipable when it stops being a validator. */
  lemma RemovedButGossiped(m: Model, s: ID, n: NodeID)
    requires Consistent(m) && (s, n) in m.manuallyGossiped
    ensures var m' := Step(m, ValidatorRemoved(s, n));
            TrackedMap(m') == TrackedMap(m) && SubnetMap(m') == SubnetMap(m)
  {
    var m' := Step(m, ValidatorRemoved(s, n));
    assert m'.Tracked(n);
    assert Reasons(m') == Reasons(m);
    forall x ensures FollowedOf(m', x) == FollowedOf(m, x) {
    }
    forall t ensures GossipList(m', t) == GossipList(m, t) {
      assert forall x :: m'.Gossipable(t, x) <==> m.Gossipable(t, x);
    }
  }

  lemma RemovedUnknown(m: Model, s: ID, n: NodeID)
    requires Consistent(m) && !m.Gossipable(s, n)
    ensures Step(m, ValidatorRemoved(s, n)) == m
  {
    assert m.validators - {(s, n)} == m.validators;
    assert !m.Tracked(n) ==> m.latest - {n} == m.latest;
  }

  lemma RemovedReasons(m: Model, s: ID, n: NodeID)
    requires (s, n) !in m.manuallyGossiped
    ensures Reasons(Step(m, ValidatorRemoved(s, n))) == Reasons(m) - {(s, n)}
  {
  }

  function WithoutSubnet(t: TrackedNode, s: ID): TrackedNode {
    t.(validatedSubnets := t.validatedSubnets - {s}, trackedSubnets := t.trackedSubnets - {s})
  }

  /** The tracked nodes after one loses a subnet: its entry goes with the last reason. */
  function TrackedWithout(tracked: map<NodeID, TrackedNode>, s: ID, n: NodeID): map<NodeID, TrackedNode> {
    if n !in tracked then tracked
    else if WithoutSubnet(tracked[n], s).CanDelete() then tracked - {n}
    else tracked[n := WithoutSubnet(tracked[n], s)]
  }

  /** The subnets after one loses a node: it goes with its last gossipable node. */
  function ViewsWithout(views: map<ID, SubnetView>, s: ID, n: NodeID): map<ID, SubnetView>
    requires s in views
  {
    if WithoutNode(views[s], n).gossipableIDs == {} then views - {s} else views[s := WithoutNode(views[s], n)]
  }

  lemma RemovedNodeMeaning(m: Model, s: ID, n: NodeID, x: NodeID)
    requires Consistent(m) && (s, n) !in m.manuallyGossiped
    ensures var m' := Step(m, ValidatorRemoved(s, n));
            && (x != n ==> NodeMeaning(m', x) == NodeMeaning(m, x))
            && (x == n && m'.Tracked(n) ==> NodeMeaning(m', n) == WithoutSubnet(NodeMeaning(m, n), s))
            && (x == n ==> SubnetsOf(Reasons(m'), n) == SubnetsOf(Reasons(m), n) - {s})
  {
    var m' := Step(m, ValidatorRemoved(s, n));
    RemovedReasons(m, s, n);
    SubnetsOfRemove(Reasons(m), s, n, x);
    assert FollowedOf(m', x) == if x == n then FollowedOf(m, n) - {s} else FollowedOf(m, x);
    assert m'.Tracked(n) <==> m.(validators := m.validators - {(s, n)}).Tracked(n);
  }

  lemma StillTracked(m: Model, n: NodeID)
    ensures n in TrackedSet(m) <==> n in m.manuallyTracked || SubnetsOf(Reasons(m), n) != {}
  {
    if n in TrackedSet(m) && n !in m.manuallyTracked {
      var p :| p in Reasons(m) && p.1 == n;
      assert p.0 in SubnetsOf(Reasons(m), n);
    }
  }

  /** Removing a validator takes one subnet out of its entry, and the entry away with the last reason. */
  lemma RemovedTrackedMap(m: Model, s: ID, n: NodeID)
    requires Consistent(m) && (s, n) !in m.manuallyGossiped
    ensures TrackedMap(Step(m, ValidatorRemoved(s, n))) == TrackedWithout(TrackedMap(m), s, n)
  {
    hide NodeMeaning, TrackedSet, Step, Consistent, WithoutSubnet;
    var m' := Step(m, ValidatorRemoved(s, n));
    RemovedEntry(m, s, n);
    forall x | x != n
      ensures x in TrackedSet(m') <==> x in TrackedSet(m)
      ensures NodeMeaning(m', x) == NodeMeaning(m, x)
    {
      OtherEntry(m, s, n, x);
    }
    forall x ensures x in TrackedMap(m') <==> x in TrackedWithout(TrackedMap(m), s, n) {}
    SameMap(TrackedMap(m'), TrackedWithout(TrackedMap(m), s, n));
  }

  /** The entry of the removed node itself. */
  lemma RemovedEntry(m: Model, s: ID, n: NodeID)
    requires Consistent(m) && (s, n) !in m.manuallyGossiped
    ensures var m', t := Step(m, ValidatorRemoved(s, n)), WithoutSubnet(NodeMeaning(m, n), s);
            && (n in TrackedSet(m') <==> n in TrackedSet(m) && !t.CanDelete())
            && (n in TrackedSet(m') ==> NodeMeaning(m', n) == t)
  {
    var m' := Step(m, ValidatorRemoved(s, n));
    RemovedNodeMeaning(m, s, n, n);
    StillTracked(m, n);
    StillTracked(m', n);
    TrackedSetMeans(m', n);
  }

  lemma OtherEntry(m: Model, s: ID, n: NodeID, x: NodeID)
    requires Consistent(m) && (s, n) !in m.manuallyGossiped && x != n
    ensures var m' := Step(m, ValidatorRemoved(s, n));
            (x in TrackedSet(m') <==> x in TrackedSet(m)) && NodeMeaning(m', x) == NodeMeaning(m, x)
  {
    RemovedReasons(m, s, n);
    RemovedNodeMeaning(m, s, n, x);
    StillTracked(m, x);
    StillTracked(Step(m, ValidatorRemoved(s, n)), x);
  }

  lemma RemovedSubnetMeaning(m: Model, s: ID, n: NodeID, t: ID)
    requires Consistent(m) && (s, n) !in m.manuallyGossiped
    ensures SubnetMeaning(Step(m, ValidatorRemoved(s, n)), t) ==
            if t == s then WithoutNode(SubnetMeaning(m, s), n) else SubnetMeaning(m, t)
  {
    var m' := Step(m, ValidatorRemoved(s, n));
    RemovedReasons(m, s, n);
    NodesOfRemove(Reasons(m), s, n, t);
    RemovedGossipList(m, s, n, t);
    hide GossipList, NodesOf, Reasons;
  }

  lemma RemovedGossipList(m: Model, s: ID, n: NodeID, t: ID)
    requires Consistent(m) && (s, n) !in m.manuallyGossiped
    ensures GossipList(Step(m, ValidatorRemoved(s, n)), t) == if t == s then GossipList(m, s) - {n}
                                                              else GossipList(m, t)
  {
    var m' := Step(m, ValidatorRemoved(s, n));
    assert m'.Gossipable(t, n) ==> m'.Tracked(n);
    assert m'.Tracked(n) <==> m.(validators := m.validators - {(s, n)}).Tracked(n);
  }

  lemma StillASubnet(m: Model, s: ID)
    ensures s in SubnetSet(m) <==> NodesOf(Reasons(m), s) != {}
  {
    if s in SubnetSet(m) {
      var p :| p in Reasons(m) && p.0 == s;
      assert p.1 in NodesOf(Reasons(m), s);
    }
  }

  /** Removing a validator unlists it, and the subnet goes with its last gossipable node. */
  lemma RemovedSubnetMap(m: Model, s: ID, n: NodeID)
    requires Consistent(m) && (s, n) !in m.manuallyGossiped && s in SubnetMap(m)
    ensures SubnetMap(Step(m, ValidatorRemoved(s, n))) == ViewsWithout(SubnetMap(m), s, n)
    ensures WithoutNode(SubnetMap(m)[s], n).gossipableIDs == {} ==> WithoutNode(SubnetMap(m)[s], n).entries == map[]
  {
    hide SubnetMeaning, SubnetSet, Step, Consistent, WithoutNode;
    assert SubnetMap(m)[s] == SubnetMeaning(m, s);
    RemovedSubnetSet(m, s, n);
    forall t ensures SubnetMeaning(Step(m, ValidatorRemoved(s, n)), t) ==
                     if t == s then WithoutNode(SubnetMeaning(m, s), n) else SubnetMeaning(m, t)
    {
      RemovedSubnetMeaning(m, s, n, t);
    }
  }

  lemma RemovedSubnetSet(m: Model, s: ID, n: NodeID)
    requires Consistent(m) && (s, n) !in m.manuallyGossiped && s in SubnetSet(m)
    ensures var m', v := Step(m, ValidatorRemoved(s, n)), WithoutNode(SubnetMeaning(m, s), n);
            && SubnetSet(m') == (if v.gossipableIDs == {} then SubnetSet(m) - {s} else SubnetSet(m))
            && (v.gossipableIDs == {} ==> v.entries == map[])
  {
    hide SubnetMeaning, SubnetSet, Step, Consistent, WithoutNode;
    var m', v := Step(m, ValidatorRemoved(s, n)), WithoutNode(SubnetMeaning(m, s), n);
    forall t
      ensures t in SubnetSet(m') <==> if t == s then v.gossipableIDs != {} else t in SubnetSet(m)
    {
      RemovedSubnetMeaning(m, s, n, t);
      NonEmptySubnet(m, t);
      NonEmptySubnet(m', t);
    }
    SameSet(SubnetSet(m'), if v.gossipableIDs == {} then SubnetSet(m) - {s} else SubnetSet(m));
    RemovedSubnetMeaning(m, s, n, s);
    if s !in SubnetSet(m') { NoSubnetMeaning(m', s); }
  }

  lemma NonEmptySubnet(m: Model, s: ID)
    ensures s in SubnetSet(m) <==> SubnetMeaning(m, s).gossipableIDs != {}
  {
    StillASubnet(m, s);
  }
}
