/**
 The simple meaning of the IP tracker: which nodes are wanted and why, who is connected, and the
 newest address known of every tracked node. The tracker itself (IPTracker) keeps linked maps, a
 swap-remove array and counters; it is proved to refine this model.
 */
module TrackerModel {
  import opened Common

  datatype ClaimedIP = ClaimedIP(nodeID: NodeID, timestamp: nat, gossipID: GossipID)

  datatype ConnectedNode = ConnectedNode(trackedSubnets: set<ID>, ip: ClaimedIP)

  datatype Model = Model(
    mySubnets: set<ID>,
    manuallyTracked: set<NodeID>,
    validators: set<(ID, NodeID)>,
    manuallyGossiped: set<(ID, NodeID)>,
    connected: map<NodeID, ConnectedNode>,
    latest: map<NodeID, ClaimedIP>)
  {
    /** The subnets this node follows, the primary network included. */
    predicate Follows(s: ID) {
      s == PRIMARY_NETWORK || s in mySubnets
    }

    predicate Gossipable(s: ID, n: NodeID) {
      (s, n) in validators || (s, n) in manuallyGossiped
    }

    ghost predicate Tracked(n: NodeID) {
      n in manuallyTracked || SomewhereGossipable(validators, manuallyGossiped, n)
    }

    /** The nodes whose address is handed out for subnet s. */
    predicate InGossip(s: ID, n: NodeID) {
      Gossipable(s, n) && n in connected && s in connected[n].trackedSubnets
    }

    /** The three documented reasons to want a connection. */
    ghost predicate Wanted(n: NodeID) {
      || n in manuallyTracked
      || (exists s :: (s, n) in manuallyGossiped && Follows(s))
      || (exists s :: (s, n) in validators && Follows(s))
    }
  }

  ghost predicate SomewhereGossipable(validators: set<(ID, NodeID)>, gossiped: set<(ID, NodeID)>, n: NodeID) {
    exists s :: (s, n) in validators || (s, n) in gossiped
  }

  datatype Event =
    | ManuallyTrack(node: NodeID)
    | ManuallyGossip(subnet: ID, node: NodeID)
    | ValidatorAdded(subnet: ID, node: NodeID)
    | ValidatorRemoved(subnet: ID, node: NodeID)
    | AddIP(ip: ClaimedIP)
    | Connected(ip: ClaimedIP, subnets: set<ID>)
    | Disconnected(node: NodeID)
    | ResetBloom

  /** A node that becomes tracked while connected is known by the address it connected with. */
  ghost function Adopt(before: Model, after: Model, n: NodeID): Model {
    if !before.Tracked(n) && n in after.connected then
      after.(latest := after.latest[n := after.connected[n].ip])
    else
      after
  }

  /** Among addresses of one node the strictly newer timestamp wins. */
  ghost function Learn(m: Model, ip: ClaimedIP): Model {
    if m.Tracked(ip.nodeID) && (ip.nodeID in m.latest ==> m.latest[ip.nodeID].timestamp < ip.timestamp) then
      m.(latest := m.latest[ip.nodeID := ip])
    else
      m
  }

  ghost function Forget(m: Model, n: NodeID): Model {
    if m.Tracked(n) then m else m.(latest := m.latest - {n})
  }

  ghost function Step(m: Model, e: Event): Model {
    match e
    case ManuallyTrack(n) =>
      Adopt(m, m.(manuallyTracked := m.manuallyTracked + {n}), n)
    case ManuallyGossip(s, n) =>
      Adopt(m, m.(manuallyTracked := if m.Follows(s) then m.manuallyTracked + {n} else m.manuallyTracked,
                  manuallyGossiped := m.manuallyGossiped + {(s, n)}), n)
    case ValidatorAdded(s, n) =>
      Adopt(m, m.(validators := m.validators + {(s, n)}), n)
    case ValidatorRemoved(s, n) =>
      Forget(m.(validators := m.validators - {(s, n)}), n)
    case AddIP(ip) =>
      Learn(m, ip)
    case Connected(ip, subnets) =>
      Learn(m.(connected := m.connected[ip.nodeID := ConnectedNode(subnets, ip)]), ip)
    case Disconnected(n) =>
      m.(connected := m.connected - {n})
    case ResetBloom =>
      m
  }

  function Init(mySubnets: set<ID>): Model {
    Model(mySubnets, {}, {}, {}, map[], map[])
  }

  ghost function Run(mySubnets: set<ID>, es: seq<Event>): Model {
    if es == [] then Init(mySubnets) else Step(Run(mySubnets, es[..|es| - 1]), es[|es| - 1])
  }

  /** What every step keeps. A connected and tracked node always has a known address. */
  ghost predicate Consistent(m: Model) {
    && (forall n :: n in m.connected ==> m.connected[n].ip.nodeID == n)
    && (forall n :: n in m.latest ==> m.latest[n].nodeID == n && m.Tracked(n))
    && (forall n :: n in m.connected && m.Tracked(n) ==>
         n in m.latest && m.connected[n].ip.timestamp <= m.latest[n].timestamp)
  }

  /** Every event keeps the model consistent. */
  lemma StepConsistent(m: Model, e: Event)
    requires Consistent(m)
    ensures Consistent(Step(m, e))
  {
    var m' := Step(m, e);
    if e.ManuallyTrack? || e.ManuallyGossip? || e.ValidatorAdded? || e.ValidatorRemoved? {
      forall x | x != e.node
        ensures m.Tracked(x) <==> m'.Tracked(x)
      {
        assert forall s :: (s, x) in m.validators <==> (s, x) in m'.validators;
        assert forall s :: (s, x) in m.manuallyGossiped <==> (s, x) in m'.manuallyGossiped;
      }
      assert e.ManuallyGossip? ==> (e.subnet, e.node) in m'.manuallyGossiped;
      assert e.ValidatorAdded? ==> (e.subnet, e.node) in m'.validators;
    }
  }

  lemma {:induction false} RunConsistent(mySubnets: set<ID>, es: seq<Event>)
    ensures Consistent(Run(mySubnets, es)) && Run(mySubnets, es).mySubnets == mySubnets
  {
    if es != [] {
      RunConsistent(mySubnets, es[..|es| - 1]);
      StepConsistent(Run(mySubnets, es[..|es| - 1]), es[|es| - 1]);
    }
  }

  // ---- What a run means, in terms of the events alone ----

  ghost predicate ValidatorNow(es: seq<Event>, s: ID, n: NodeID) {
    exists i ::
      && 0 <= i < |es| && es[i] == ValidatorAdded(s, n)
      && forall j :: i < j < |es| ==> es[j] != ValidatorRemoved(s, n)
  }

  ghost predicate ConnectedNow(es: seq<Event>, n: NodeID, c: ConnectedNode) {
    exists i ::
      && 0 <= i < |es| && c.ip.nodeID == n && es[i] == Connected(c.ip, c.trackedSubnets)
      && forall j :: i < j < |es| ==>
           es[j] != Disconnected(n) && !(es[j].Connected? && es[j].ip.nodeID == n)
  }

  /** The event announced this address. */
  predicate Offers(e: Event, ip: ClaimedIP) {
    (e.AddIP? || e.Connected?) && e.ip == ip
  }

  lemma ValidatorNowStep(es: seq<Event>, e: Event, s: ID, n: NodeID)
    ensures ValidatorNow(es + [e], s, n) <==>
            e == ValidatorAdded(s, n) || (e != ValidatorRemoved(s, n) && ValidatorNow(es, s, n))
  {
    var es' := es + [e];
    if e == ValidatorAdded(s, n) {
      assert es'[|es|] == e;
    } else if e != ValidatorRemoved(s, n) && ValidatorNow(es, s, n) {
      var i :| 0 <= i < |es| && es[i] == ValidatorAdded(s, n)
               && forall j :: i < j < |es| ==> es[j] != ValidatorRemoved(s, n);
      assert es'[i] == ValidatorAdded(s, n);
    }
    if ValidatorNow(es', s, n) && e != ValidatorAdded(s, n) {
      var i :| 0 <= i < |es'| && es'[i] == ValidatorAdded(s, n)
               && forall j :: i < j < |es'| ==> es'[j] != ValidatorRemoved(s, n);
      assert es'[|es|] == e && es[i] == ValidatorAdded(s, n);
      assert forall j :: i < j < |es| ==> es[j] == es'[j];
    }
  }

  lemma ConnectedNowStep(es: seq<Event>, e: Event, n: NodeID, c: ConnectedNode)
    ensures ConnectedNow(es + [e], n, c) <==>
            || (c.ip.nodeID == n && e == Connected(c.ip, c.trackedSubnets))
            || (e != Disconnected(n) && !(e.Connected? && e.ip.nodeID == n) && ConnectedNow(es, n, c))
  {
    var es' := es + [e];
    if c.ip.nodeID == n && e == Connected(c.ip, c.trackedSubnets) {
      assert es'[|es|] == e;
    } else if e != Disconnected(n) && !(e.Connected? && e.ip.nodeID == n) && ConnectedNow(es, n, c) {
      var i :| 0 <= i < |es| && c.ip.nodeID == n && es[i] == Connected(c.ip, c.trackedSubnets)
               && forall j :: i < j < |es| ==> es[j] != Disconnected(n) && !(es[j].Connected? && es[j].ip.nodeID == n);
      assert es'[i] == es[i];
    }
    if ConnectedNow(es', n, c) && !(c.ip.nodeID == n && e == Connected(c.ip, c.trackedSubnets)) {
      var i :| 0 <= i < |es'| && c.ip.nodeID == n && es'[i] == Connected(c.ip, c.trackedSubnets)
               && forall j :: i < j < |es'| ==>
                 es'[j] != Disconnected(n) && !(es'[j].Connected? && es'[j].ip.nodeID == n);
      assert es'[|es|] == e && es[i] == es'[i];
      assert forall j :: i < j < |es| ==> es[j] == es'[j];
    }
  }

  /** The reasons a run leaves behind are exactly those its events give. */
  lemma {:induction false} RunReasons(mySubnets: set<ID>, es: seq<Event>, s: ID, n: NodeID)
    ensures (s, n) in Run(mySubnets, es).validators <==> ValidatorNow(es, s, n)
    ensures (s, n) in Run(mySubnets, es).manuallyGossiped <==> ManuallyGossip(s, n) in es
    ensures n in Run(mySubnets, es).manuallyTracked <==>
            ManuallyTrack(n) in es ||
            exists t :: ManuallyGossip(t, n) in es && Init(mySubnets).Follows(t)
  {
    if es != [] {
      var before, e := es[..|es| - 1], es[|es| - 1];
      assert es == before + [e];
      RunReasons(mySubnets, before, s, n);
      RunConsistent(mySubnets, before);
      ValidatorNowStep(before, e, s, n);
    }
  }

  lemma {:induction false} RunConnected(mySubnets: set<ID>, es: seq<Event>, n: NodeID, c: ConnectedNode)
    ensures (n in Run(mySubnets, es).connected && Run(mySubnets, es).connected[n] == c) <==> ConnectedNow(es, n, c)
  {
    if es != [] {
      var before, e := es[..|es| - 1], es[|es| - 1];
      assert es == before + [e];
      RunConnected(mySubnets, before, n, c);
      ConnectedNowStep(before, e, n, c);
    }
  }

  /** Gossipable means: currently a validator there, or manually gossiped there at some time. */
  lemma GossipableMeans(mySubnets: set<ID>, es: seq<Event>, s: ID, n: NodeID)
    ensures Run(mySubnets, es).Gossipable(s, n) <==> ValidatorNow(es, s, n) || ManuallyGossip(s, n) in es
  {
    RunReasons(mySubnets, es, s, n);
  }

  /** A connection is wanted exactly for the three documented reasons, read off the events. */
  lemma WantedMeans(mySubnets: set<ID>, es: seq<Event>, n: NodeID)
    ensures Run(mySubnets, es).Wanted(n) <==>
            || ManuallyTrack(n) in es
            || (exists s :: ManuallyGossip(s, n) in es && Init(mySubnets).Follows(s))
            || (exists s :: ValidatorNow(es, s, n) && Init(mySubnets).Follows(s))
  {
    RunConsistent(mySubnets, es);
    var m := Run(mySubnets, es);
    forall s
      ensures (s, n) in m.validators <==> ValidatorNow(es, s, n)
      ensures (s, n) in m.manuallyGossiped <==> ManuallyGossip(s, n) in es
      ensures m.Follows(s) <==> Init(mySubnets).Follows(s)
    {
      RunReasons(mySubnets, es, s, n);
    }
    RunReasons(mySubnets, es, PRIMARY_NETWORK, n);
  }

  /** The latest address of a node was announced by that node in this run. */
  lemma {:induction false} LatestWasOffered(mySubnets: set<ID>, es: seq<Event>, n: NodeID)
    requires n in Run(mySubnets, es).latest
    ensures exists i :: 0 <= i < |es| && Offers(es[i], Run(mySubnets, es).latest[n])
  {
    var before, e := es[..|es| - 1], es[|es| - 1];
    var m, m' := Run(mySubnets, before), Run(mySubnets, es);
    if n in m.latest && m.latest[n] == m'.latest[n] {
      LatestWasOffered(mySubnets, before, n);
      var i :| 0 <= i < |before| && Offers(before[i], m.latest[n]);
      assert es[i] == before[i];
    } else if e.AddIP? || e.Connected? {
      assert Offers(e, m'.latest[n]);
    } else {
      RunConnected(mySubnets, before, n, m.connected[n]);
      var i :| 0 <= i < |before| && before[i] == Connected(m.connected[n].ip, m.connected[n].trackedSubnets);
      assert Offers(es[i], m'.latest[n]);
    }
  }

  /** Nothing announced while a node was tracked, and stayed tracked, is newer than its latest address. */
  lemma {:induction false} LatestIsNewest(mySubnets: set<ID>, es: seq<Event>, i: nat, ip: ClaimedIP)
    requires i < |es| && Offers(es[i], ip)
    requires forall k :: i <= k <= |es| ==> Run(mySubnets, es[..k]).Tracked(ip.nodeID)
    ensures ip.nodeID in Run(mySubnets, es).latest
    ensures ip.timestamp <= Run(mySubnets, es).latest[ip.nodeID].timestamp
  {
    var last := |es| - 1;
    var before := es[..last];
    assert es[..|es|] == es;
    assert Run(mySubnets, es[..last]).Tracked(ip.nodeID) && Run(mySubnets, es[..|es|]).Tracked(ip.nodeID);
    if i < last {
      forall k | i <= k <= last ensures Run(mySubnets, before[..k]).Tracked(ip.nodeID) {
        assert before[..k] == es[..k];
      }
      LatestIsNewest(mySubnets, before, i, ip);
    }
  }

  /** Between two connections of a node there is a disconnection of it. */
  ghost predicate ConnectsWhenDown(es: seq<Event>) {
    forall i, j ::
      0 <= i < j < |es| && es[i].Connected? && es[j].Connected? && es[i].ip.nodeID == es[j].ip.nodeID ==>
        exists k :: i < k < j && es[k] == Disconnected(es[i].ip.nodeID)
  }

  /** In such a run every connection finds its node disconnected. */
  lemma ConnectFindsDown(mySubnets: set<ID>, es: seq<Event>, j: nat)
    requires ConnectsWhenDown(es) && j < |es| && es[j].Connected?
    ensures es[j].ip.nodeID !in Run(mySubnets, es[..j]).connected
  {
    var n, before := es[j].ip.nodeID, es[..j];
    forall i | 0 <= i < j && before[i].Connected? && before[i].ip.nodeID == n
      ensures exists k :: i < k < j && before[k] == Disconnected(n)
    {
      var k :| i < k < j && es[k] == Disconnected(es[i].ip.nodeID);
      assert before[k] == es[k];
    }
    if n in Run(mySubnets, before).connected {
      RunConnected(mySubnets, before, n, Run(mySubnets, before).connected[n]);
    }
  }

  /** A node that is down now was disconnected after each of its connections. */
  lemma {:induction false} DownMeans(mySubnets: set<ID>, es: seq<Event>, n: NodeID, i: nat)
    requires i < |es| && es[i].Connected? && es[i].ip.nodeID == n
    requires n !in Run(mySubnets, es).connected
    ensures exists k :: i < k < |es| && es[k] == Disconnected(n)
  {
    var before, e := es[..|es| - 1], es[|es| - 1];
    if e != Disconnected(n) {
      assert i < |before|;
      DownMeans(mySubnets, before, n, i);
      var k :| i < k < |before| && before[k] == Disconnected(n);
      assert es[k] == Disconnected(n);
    }
  }

  /** A connection of a node that is down keeps that so. */
  lemma DownAppend(mySubnets: set<ID>, es: seq<Event>, e: Event)
    requires ConnectsWhenDown(es)
    requires e.Connected? ==> e.ip.nodeID !in Run(mySubnets, es).connected
    ensures ConnectsWhenDown(es + [e])
  {
    var es' := es + [e];
    forall i, j | 0 <= i < j < |es'| && es'[i].Connected? && es'[j].Connected? && es'[i].ip.nodeID == es'[j].ip.nodeID
      ensures exists k :: i < k < j && es'[k] == Disconnected(es'[i].ip.nodeID)
    {
      if j < |es| {
        var k :| i < k < j && es[k] == Disconnected(es[i].ip.nodeID);
        assert es'[k] == es[k];
      } else {
        DownMeans(mySubnets, es, e.ip.nodeID, i);
        var k :| i < k < |es| && es[k] == Disconnected(e.ip.nodeID);
        assert es'[k] == es[k];
      }
    }
  }

  /** A disconnection of a node follows a connection of it with none in between. */
  ghost predicate DisconnectsWhenUp(es: seq<Event>) {
    forall j :: 0 <= j < |es| && es[j].Disconnected? ==> UpBefore(es, es[j].node, j)
  }

  ghost predicate UpBefore(es: seq<Event>, n: NodeID, j: nat)
    requires j <= |es|
  {
    exists i ::
      && 0 <= i < j && es[i].Connected? && es[i].ip.nodeID == n
      && forall k :: i < k < j ==> es[k] != Disconnected(n)
  }

  /** Connections and disconnections of each node take turns, beginning with a connection. */
  ghost predicate Alternates(es: seq<Event>) {
    ConnectsWhenDown(es) && DisconnectsWhenUp(es)
  }

  lemma UpMeans(mySubnets: set<ID>, es: seq<Event>, n: NodeID)
    requires n in Run(mySubnets, es).connected
    ensures UpBefore(es, n, |es|)
  {
    var c := Run(mySubnets, es).connected[n];
    RunConnected(mySubnets, es, n, c);
    var i :|
      && 0 <= i < |es| && c.ip.nodeID == n && es[i] == Connected(c.ip, c.trackedSubnets)
      && forall j :: i < j < |es| ==> es[j] != Disconnected(n) && !(es[j].Connected? && es[j].ip.nodeID == n);
    assert es[i].Connected? && es[i].ip.nodeID == n;
  }

  lemma UpKept(es: seq<Event>, e: Event, n: NodeID, j: nat)
    requires j <= |es| && UpBefore(es, n, j)
    ensures UpBefore(es + [e], n, j)
  {
    var i :|
      && 0 <= i < j && es[i].Connected? && es[i].ip.nodeID == n
      && forall k :: i < k < j ==> es[k] != Disconnected(n);
    assert (es + [e])[i] == es[i];
    forall k | i < k < j ensures (es + [e])[k] != Disconnected(n) {
      assert (es + [e])[k] == es[k];
    }
  }

  /** A connection while down and a disconnection while up keep the log alternating. */
  lemma AlternatesAppend(mySubnets: set<ID>, es: seq<Event>, e: Event)
    requires Alternates(es)
    requires e.Connected? ==> e.ip.nodeID !in Run(mySubnets, es).connected
    requires e.Disconnected? ==> e.node in Run(mySubnets, es).connected
    ensures Alternates(es + [e])
  {
    DownAppend(mySubnets, es, e);
    hide ConnectsWhenDown, UpBefore, Run;
    forall j | 0 <= j < |es + [e]| && (es + [e])[j].Disconnected? ensures UpBefore(es + [e], (es + [e])[j].node, j) {
      if j == |es| {
        UpMeans(mySubnets, es, e.node);
        UpKept(es, e, e.node, j);
      } else {
        assert (es + [e])[j] == es[j];
        UpKept(es, e, es[j].node, j);
      }
    }
  }

  /** A listed address need not be the one its node connected with: a newer one that was learnt since replaces it. */
  lemma ListedButNotConnectedWith(mySubnets: set<ID>, first: ClaimedIP, next: ClaimedIP)
    requires first.nodeID == 3 && next.nodeID == 3 && first.timestamp < next.timestamp
    ensures var m := Run(mySubnets,
                         [ManuallyGossip(PRIMARY_NETWORK, 3), Connected(first, {PRIMARY_NETWORK}), AddIP(next)]);
            m.InGossip(PRIMARY_NETWORK, 3) && m.connected[3].ip == first && m.latest[3] == next
  {
    var a, b, c := ManuallyGossip(PRIMARY_NETWORK, 3), Connected(first, {PRIMARY_NETWORK}), AddIP(next);
    RunNone(mySubnets);
    RunOne(mySubnets, [], a);
    RunOne(mySubnets, [a], b);
    RunOne(mySubnets, [a, b], c);
    hide Run, Step;
    assert [] + [a] == [a] && [a] + [b] == [a, b] && [a, b] + [c] == [a, b, c];
    var m1 := Run(mySubnets, [a]);
    GossipStep(Init(mySubnets), 3);
    ConnectStep(m1, first);
    LearnStep(Step(m1, b), next);
  }

  lemma GossipStep(m: Model, n: NodeID)
    requires n !in m.connected
    ensures var m' := Step(m, ManuallyGossip(PRIMARY_NETWORK, n));
            m'.Gossipable(PRIMARY_NETWORK, n) && m'.latest == m.latest && n in m'.manuallyTracked
  {
  }

  lemma ConnectStep(m: Model, ip: ClaimedIP)
    requires m.Gossipable(PRIMARY_NETWORK, ip.nodeID) && ip.nodeID in m.manuallyTracked && ip.nodeID !in m.latest
    ensures var m' := Step(m, Connected(ip, {PRIMARY_NETWORK}));
            && m'.InGossip(PRIMARY_NETWORK, ip.nodeID) && ip.nodeID in m'.manuallyTracked
            && m'.connected[ip.nodeID].ip == ip && ip.nodeID in m'.latest && m'.latest[ip.nodeID] == ip
  {
  }

  lemma LearnStep(m: Model, ip: ClaimedIP)
    requires m.InGossip(PRIMARY_NETWORK, ip.nodeID) && ip.nodeID in m.manuallyTracked && ip.nodeID in m.latest
    requires m.latest[ip.nodeID].timestamp < ip.timestamp
    ensures var m' := Step(m, AddIP(ip));
            && m'.InGossip(PRIMARY_NETWORK, ip.nodeID) && m'.connected == m.connected
            && ip.nodeID in m'.latest && m'.latest[ip.nodeID] == ip
  {
  }

  lemma RunNone(mySubnets: set<ID>)
    ensures Run(mySubnets, []) == Init(mySubnets)
  {
  }

  lemma RunOne(mySubnets: set<ID>, es: seq<Event>, e: Event)
    ensures Run(mySubnets, es + [e]) == Step(Run(mySubnets, es), e)
  {
    assert (es + [e])[..|es|] == es;
  }
}
