/**
 The IP tracker: linked maps, the per-subnet gossip lists, counters and the capped bloom filter,
 updated in place by the event handlers. Each handler is proved to refine the matching step of
 TrackerModel.
 */
module IPTracker {
  import opened Common
  import opened Sums
  import opened TrackerModel
  import opened GossipSubnet
  import opened TrackerMeaning
  import PeerLifecycle

  const MAX_IP_ENTRIES_PER_NODE := 2

  const UNTRACKED := -2
  const OLDER := -1
  const SAME := 0
  const NEWER := 1
  const NEW := 2

  ghost predicate AllValid(subnet: map<ID, GossipableSubnet>) {
    forall s :: s in subnet ==> subnet[s].Valid()
  }

  ghost function Views(subnet: map<ID, GossipableSubnet>): map<ID, SubnetView>
    requires AllValid(subnet)
  {
    map s | s in subnet :: subnet[s].View()
  }

  /** The entry of a subnet, or the empty one a first gossipable node creates. */
  function SubnetOf(subnet: map<ID, GossipableSubnet>, s: ID): GossipableSubnet {
    if s in subnet then subnet[s] else GossipableSubnet({}, {}, map[], [])
  }

  lemma SubnetOfView(subnet: map<ID, GossipableSubnet>, s: ID)
    requires AllValid(subnet)
    ensures SubnetOf(subnet, s).Valid() && SubnetOf(subnet, s).View() == ViewOf(Views(subnet), s)
  {
    var empty := GossipableSubnet({}, {}, map[], []);
    assert empty.Entries() == map[];
  }

  lemma StoreView(subnet: map<ID, GossipableSubnet>, s: ID, sub: GossipableSubnet)
    requires AllValid(subnet) && sub.Valid()
    ensures AllValid(subnet[s := sub]) && Views(subnet[s := sub]) == Views(subnet)[s := sub.View()]
  {
  }

  /** The whole tie: the concrete maps mean the model. */
  ghost predicate Tied(m: Model, tracked: map<NodeID, TrackedNode>, subnet: map<ID, GossipableSubnet>) {
    Consistent(m) && tracked == TrackedMap(m) && AllValid(subnet) && Views(subnet) == SubnetMap(m)
  }

  ghost function Sizes(subnet: map<ID, GossipableSubnet>): map<ID, nat> {
    map s | s in subnet :: |subnet[s].gossipableIPs|
  }

  lemma SizesUpdate(subnet: map<ID, GossipableSubnet>, s: ID, sub: GossipableSubnet)
    ensures Sum(Sizes(subnet[s := sub])) ==
            Sum(Sizes(subnet)) - |SubnetOf(subnet, s).gossipableIPs| + |sub.gossipableIPs|
  {
    assert Sizes(subnet[s := sub]) == Sizes(subnet)[s := |sub.gossipableIPs|];
    SumUpdate(Sizes(subnet), s, |sub.gossipableIPs|);
  }

  lemma SizesRemove(subnet: map<ID, GossipableSubnet>, s: ID)
    requires s in subnet
    ensures Sum(Sizes(subnet - {s})) == Sum(Sizes(subnet)) - |subnet[s].gossipableIPs|
  {
    assert Sizes(subnet - {s}) == Sizes(subnet) - {s};
    SumWithout(Sizes(subnet), s);
  }

  lemma ViewAt(subnet: map<ID, GossipableSubnet>, s: ID)
    requires AllValid(subnet) && s in subnet
    ensures subnet[s].Valid() && s in Views(subnet) && Views(subnet)[s] == subnet[s].View()
  {
  }

  lemma ViewsHave(subnet: map<ID, GossipableSubnet>, s: ID)
    requires AllValid(subnet)
    ensures s in subnet <==> s in Views(subnet)
    ensures s in subnet ==> Views(subnet)[s].manuallyGossipable == subnet[s].manuallyGossipable
    ensures s in subnet ==> subnet[s].Valid() && Views(subnet)[s] == subnet[s].View()
  {
  }

  lemma DisconnectFrame(m: Model, n: NodeID)
    ensures var m' := Step(m, Event.Disconnected(n)); m'.mySubnets == m.mySubnets && m'.connected == m.connected - {n}
    ensures n !in m.connected ==> Step(m, Event.Disconnected(n)) == m
  {
    assert n !in m.connected ==> m.connected - {n} == m.connected;
  }

  lemma ConnectFrame(m: Model, ip: ClaimedIP, subnets: set<ID>)
    ensures var m' := Step(m, Event.Connected(ip, subnets));
            m'.mySubnets == m.mySubnets && m'.connected == m.connected[ip.nodeID := ConnectedNode(subnets, ip)]
  {
  }

  lemma RemovalFrame(m: Model, s: ID, n: NodeID)
    ensures var m' := Step(m, ValidatorRemoved(s, n)); m'.mySubnets == m.mySubnets && m'.connected == m.connected
  {
  }

  lemma DropMeans(subnet: map<ID, GossipableSubnet>, s: ID)
    requires AllValid(subnet) && s in subnet && subnet[s].View().entries == map[]
    ensures AllValid(subnet - {s}) && Views(subnet - {s}) == Views(subnet) - {s}
    ensures Sum(Sizes(subnet - {s})) == Sum(Sizes(subnet)) && |subnet - {s}| == |subnet| - 1
  {
    DropViews(subnet, s);
    NoSlots(subnet[s]);
    hide Views, Sizes, AllValid;
    SizesRemove(subnet, s);
    SmallerWithout(subnet, s);
  }

  /** A new reason, on an entry or on a fresh one, changes no known address. */
  lemma ReasonKeepsIPs(tracked: map<NodeID, TrackedNode>, n: NodeID, mySubnets: set<ID>, subnetID: Option<ID>)
    ensures var t := if n in tracked then tracked[n] else TrackedNode(false, {}, {}, None);
            && IPs(tracked[n := WithReason(mySubnets, t, subnetID)]) == IPs(tracked)
            && |tracked[n := WithReason(mySubnets, t, subnetID)]| == |tracked| + if n in tracked then 0 else 1
  {
    var t := if n in tracked then tracked[n] else TrackedNode(false, {}, {}, None);
    CardUpdate(tracked, n, WithReason(mySubnets, t, subnetID));
  }

  lemma ReasonAndIP(mySubnets: set<ID>, subnetID: Option<ID>, ip: ClaimedIP)
    ensures WithReason(mySubnets, TrackedNode(false, {}, {}, None), subnetID).(ip := Some(ip)) ==
            WithReason(mySubnets, TrackedNode(false, {}, {}, Some(ip)), subnetID)
  {
  }

  lemma NoSlots(sub: GossipableSubnet)
    requires sub.Valid() && sub.View().entries == map[]
    ensures |sub.gossipableIPs| == 0
  {
    sub.SlotPerEntry();
  }

  lemma DropViews(subnet: map<ID, GossipableSubnet>, s: ID)
    requires AllValid(subnet)
    ensures AllValid(subnet - {s}) && Views(subnet - {s}) == Views(subnet) - {s}
  {
  }

  // ---- The bloom filter ----

  ghost function IPs(tracked: map<NodeID, TrackedNode>): map<NodeID, ClaimedIP> {
    map n | n in tracked && tracked[n].ip.Some? :: tracked[n].ip.value
  }

  function Count(additions: map<NodeID, nat>, n: NodeID): nat {
    if n in additions then additions[n] else 0
  }

  /**
   The filter holds one addition per counted one, no node counts more than its cap, and unless a
   failed reset dropped it, every latest address is in the filter or its node has used the cap.
   */
  ghost predicate BloomOk(ips: map<NodeID, ClaimedIP>, bloom: multiset<GossipID>, additions: map<NodeID, nat>,
                          dropped: set<NodeID>)
  {
    && Sum(additions) == |bloom|
    && (forall n :: n in additions ==> additions[n] <= MAX_IP_ENTRIES_PER_NODE)
    && (forall n :: n in ips && n !in dropped ==>
         ips[n].gossipID in bloom || Count(additions, n) == MAX_IP_ENTRIES_PER_NODE)
  }

  /** The nodes whose latest address is gossiped under g. */
  ghost function Announcers(ips: map<NodeID, ClaimedIP>, g: GossipID): set<NodeID> {
    set n | n in ips && ips[n].gossipID == g
  }

  /** A filter just made: each of these addresses once, one addition counted for each of their nodes. */
  ghost predicate Refilled(ips: map<NodeID, ClaimedIP>, bloom: multiset<GossipID>, additions: map<NodeID, nat>) {
    && (forall g :: bloom[g] == |Announcers(ips, g)|) && |bloom| == |ips|
    && additions.Keys == ips.Keys && forall n :: n in additions ==> additions[n] == 1
  }

  /** The filter, what bounds it, and how many addresses it was last made of. */
  datatype Filter = Filter(bloom: multiset<GossipID>, additions: map<NodeID, nat>, maxCount: int, atReset: nat)

  /** What a node's new address does to the filter; ips are the latest addresses, the new one among them. */
  ghost predicate FilterAfter(f: Filter, f': Filter, ips: map<NodeID, ClaimedIP>, ip: ClaimedIP, reset: Option<int>) {
    if Count(f.additions, ip.nodeID) >= MAX_IP_ENTRIES_PER_NODE then f' == f
    else if |f.bloom| < f.maxCount then
      f' == WithAddress(f, ip)
    else if reset.None? then f' == f
    else f'.maxCount == reset.value && f'.atReset == |ips| && Refilled(ips, f'.bloom, f'.additions)
  }

  /** A step moves the filter only if it changes the latest address of its node, and then as that address demands. */
  ghost predicate Refreshed(f: Filter, f': Filter, m: Model, m': Model, n: NodeID, reset: Option<int>) {
    if m'.latest == m.latest then f' == f
    else n in m'.latest && FilterAfter(f, f', m'.latest, m'.latest[n], reset)
  }

  /** The filter is within its maximum, or no larger than the last reset made it. */
  ghost predicate Bounded(f: Filter) {
    |f.bloom| <= f.maxCount || |f.bloom| <= f.atReset
  }

  /** The filter with one more address. */
  ghost function WithAddress(f: Filter, ip: ClaimedIP): Filter {
    f.(bloom := f.bloom + multiset{ip.gossipID},
       additions := f.additions[ip.nodeID := Count(f.additions, ip.nodeID) + 1])
  }

  lemma FilterKept(f: Filter, ips: map<NodeID, ClaimedIP>, ip: ClaimedIP, reset: Option<int>)
    requires Count(f.additions, ip.nodeID) >= MAX_IP_ENTRIES_PER_NODE || (|f.bloom| >= f.maxCount && reset.None?)
    ensures FilterAfter(f, f, ips, ip, reset)
  {
  }

  lemma FilterGrows(f: Filter, ips: map<NodeID, ClaimedIP>, ip: ClaimedIP, reset: Option<int>)
    requires Count(f.additions, ip.nodeID) < MAX_IP_ENTRIES_PER_NODE && |f.bloom| < f.maxCount
    ensures FilterAfter(f, WithAddress(f, ip), ips, ip, reset) && Bounded(WithAddress(f, ip))
  {
  }

  lemma FilterMade(f: Filter, f': Filter, ips: map<NodeID, ClaimedIP>, ip: ClaimedIP, reset: Option<int>)
    requires Count(f.additions, ip.nodeID) < MAX_IP_ENTRIES_PER_NODE && |f.bloom| >= f.maxCount && reset.Some?
    requires f'.maxCount == reset.value && f'.atReset == |ips| && Refilled(ips, f'.bloom, f'.additions)
    ensures FilterAfter(f, f', ips, ip, reset)
  {
  }

  lemma AddedRefreshes(m: Model, e: Event, f: Filter, f': Filter, reset: Option<int>)
    requires Consistent(m) && (e.ManuallyTrack? || e.ManuallyGossip? || e.ValidatorAdded?)
    requires if e.node in TrackedMap(m) || e.node !in m.connected then f' == f
             else FilterAfter(f, f', IPs(TrackedMap(Step(m, e))), m.connected[e.node].ip, reset)
    ensures Refreshed(f, f', m, Step(m, e), e.node, reset)
  {
    TrackedSetMeans(m, e.node);
    StepConsistent(m, e);
    LatestIsIPs(Step(m, e));
    hide TrackedMap, IPs, FilterAfter;
  }

  lemma LearnRefreshes(m: Model, m1: Model, ip: ClaimedIP, f: Filter, f': Filter, reset: Option<int>)
    requires Consistent(Learn(m1, ip)) && m1.latest == m.latest
    requires if ip.nodeID in TrackedMap(m1) && Newer(TrackedMap(m1)[ip.nodeID], ip)
             then FilterAfter(f, f', IPs(TrackedMap(Learn(m1, ip))), ip, reset) else f' == f
    ensures Refreshed(f, f', m, Learn(m1, ip), ip.nodeID, reset)
  {
    LearnChanges(m1, ip);
    LatestIsIPs(Learn(m1, ip));
    hide TrackedMap, IPs, FilterAfter, Consistent;
  }

  lemma RefillNone()
    ensures Refilled(map[], multiset{}, map[])
  {
    forall g: GossipID ensures |Announcers(map[], g)| == 0 {
      assert Announcers(map[], g) == {};
    }
  }

  lemma RefillOne(ips: map<NodeID, ClaimedIP>, bloom: multiset<GossipID>, additions: map<NodeID, nat>,
                  n: NodeID, ip: ClaimedIP)
    requires Refilled(ips, bloom, additions) && n !in ips
    ensures Refilled(ips[n := ip], bloom + multiset{ip.gossipID}, additions[n := 1])
  {
    forall g ensures (bloom + multiset{ip.gossipID})[g] == |Announcers(ips[n := ip], g)| {
      OneMore(ips, n, ip, g);
    }
    CardUpdate(ips, n, ip);
    assert additions[n := 1].Keys == additions.Keys + {n} && ips[n := ip].Keys == ips.Keys + {n};
    hide Announcers;
  }

  lemma OneMore(ips: map<NodeID, ClaimedIP>, n: NodeID, ip: ClaimedIP, g: GossipID)
    requires n !in ips
    ensures |Announcers(ips[n := ip], g)| == |Announcers(ips, g)| + if g == ip.gossipID then 1 else 0
  {
    if g == ip.gossipID {
      assert n !in Announcers(ips, g);
      SameSet(Announcers(ips[n := ip], g), Announcers(ips, g) + {n});
    } else {
      SameSet(Announcers(ips[n := ip], g), Announcers(ips, g));
    }
  }

  lemma {:induction false} SumOnes(m: map<NodeID, nat>)
    requires forall k :: k in m ==> m[k] == 1
    ensures Sum(m) == |m|
    decreases |m|
  {
    if m != map[] {
      var k := AnyKey(m);
      SumWithout(m, k);
      SmallerWithout(m, k);
      SumOnes(m - {k});
    }
  }

  /** Such a filter knows every address and counts one addition each. */
  lemma RefilledOk(ips: map<NodeID, ClaimedIP>, bloom: multiset<GossipID>, additions: map<NodeID, nat>)
    requires Refilled(ips, bloom, additions)
    ensures BloomOk(ips, bloom, additions, {})
    ensures forall n :: n in ips ==> ips[n].gossipID in bloom
    ensures (forall g :: bloom[g] == |Announcers(ips, g)|) && |bloom| == |ips|
    ensures additions.Keys == ips.Keys && forall n :: n in additions ==> additions[n] == 1
  {
    forall n | n in ips ensures ips[n].gossipID in bloom {
      assert n in Announcers(ips, ips[n].gossipID);
    }
    SumOnes(additions);
    assert |additions| == |additions.Keys| && |ips| == |ips.Keys|;
  }

  /** A filter being made: these addresses are in it, those of the nodes in todo are not yet. */
  ghost predicate Refilling(tracked: map<NodeID, TrackedNode>, todo: set<NodeID>, ips: map<NodeID, ClaimedIP>,
                            bloom: multiset<GossipID>, additions: map<NodeID, nat>)
  {
    && Refilled(ips, bloom, additions)
    && (forall n :: n in ips <==> n in tracked && n !in todo && tracked[n].ip.Some?)
    && (forall n :: n in ips ==> ips[n] == tracked[n].ip.value)
  }

  lemma RefillStart(tracked: map<NodeID, TrackedNode>)
    ensures Refilling(tracked, tracked.Keys, map[], multiset{}, map[])
  {
    RefillNone();
  }

  lemma RefillStep(tracked: map<NodeID, TrackedNode>, todo: set<NodeID>, ips: map<NodeID, ClaimedIP>,
                   bloom: multiset<GossipID>, additions: map<NodeID, nat>, n: NodeID)
    requires Refilling(tracked, todo, ips, bloom, additions) && n in todo && n in tracked
    ensures var ip := tracked[n].ip;
            if ip.None? then Refilling(tracked, todo - {n}, ips, bloom, additions)
            else Refilling(tracked, todo - {n}, ips[n := ip.value], bloom + multiset{ip.value.gossipID},
                           additions[n := 1])
  {
    if tracked[n].ip.Some? {
      RefillOne(ips, bloom, additions, n, tracked[n].ip.value);
    }
    hide Refilled;
  }

  lemma RefillEnd(tracked: map<NodeID, TrackedNode>, ips: map<NodeID, ClaimedIP>, bloom: multiset<GossipID>,
                  additions: map<NodeID, nat>)
    requires Refilling(tracked, {}, ips, bloom, additions)
    ensures ips == IPs(tracked) && Refilled(IPs(tracked), bloom, additions) && BloomOk(ips, bloom, additions, {})
    ensures (forall g :: bloom[g] == |Announcers(ips, g)|) && |bloom| == |ips|
    ensures additions.Keys == ips.Keys && forall n :: n in additions ==> additions[n] == 1
  {
    SameMap(ips, IPs(tracked));
    RefilledOk(ips, bloom, additions);
  }

  lemma BloomAdded(ips: map<NodeID, ClaimedIP>, bloom: multiset<GossipID>, additions: map<NodeID, nat>,
                   dropped: set<NodeID>, ip: ClaimedIP)
    requires BloomOk(ips, bloom, additions, dropped)
    requires Count(additions, ip.nodeID) < MAX_IP_ENTRIES_PER_NODE
    ensures BloomOk(ips[ip.nodeID := ip], bloom + multiset{ip.gossipID},
                    additions[ip.nodeID := Count(additions, ip.nodeID) + 1], dropped - {ip.nodeID})
  {
    SumUpdate(additions, ip.nodeID, Count(additions, ip.nodeID) + 1);
  }

  /** A new address not yet added: nothing is lost if its node has used the cap, else it counts as dropped. */
  lemma BloomWaits(ips: map<NodeID, ClaimedIP>, bloom: multiset<GossipID>, additions: map<NodeID, nat>,
                   dropped: set<NodeID>, ip: ClaimedIP)
    requires BloomOk(ips, bloom, additions, dropped)
    ensures Count(additions, ip.nodeID) >= MAX_IP_ENTRIES_PER_NODE ==>
            BloomOk(ips[ip.nodeID := ip], bloom, additions, dropped)
    ensures BloomOk(ips[ip.nodeID := ip], bloom, additions, dropped + {ip.nodeID})
  {
  }

  lemma LatestChanges(tracked: map<NodeID, TrackedNode>, ip: ClaimedIP)
    requires ip.nodeID in tracked
    ensures IPs(tracked[ip.nodeID := tracked[ip.nodeID].(ip := Some(ip))]) == IPs(tracked)[ip.nodeID := ip]
  {
  }

  lemma BloomLess(tracked: map<NodeID, TrackedNode>, bloom: multiset<GossipID>, additions: map<NodeID, nat>,
                  dropped: set<NodeID>, s: ID, n: NodeID)
    requires BloomOk(IPs(tracked), bloom, additions, dropped)
    ensures BloomOk(IPs(TrackedWithout(tracked, s, n)), bloom, additions, dropped)
  {
    var tracked' := TrackedWithout(tracked, s, n);
    forall x | x in IPs(tracked') ensures x in IPs(tracked) && IPs(tracked')[x] == IPs(tracked)[x] {
      assert x in tracked && tracked'[x].ip == tracked[x].ip;
    }
    hide IPs;
  }

  /** Listing an address in one subnet, where the node is gossipable. */
  ghost function SetAt(views: map<ID, SubnetView>, ip: ClaimedIP, s: ID): map<ID, SubnetView> {
    if s in views && ip.nodeID in views[s].gossipableIDs
    then views[s := views[s].(entries := views[s].entries[ip.nodeID := ip])] else views
  }

  lemma SetInStep(views: map<ID, SubnetView>, ip: ClaimedIP, done: set<ID>, s: ID)
    requires s !in done
    ensures SetIn(views, ip, {}) == views
    ensures SetIn(views, ip, done + {s}) == SetAt(SetIn(views, ip, done), ip, s)
  {
  }

  ghost function RemoveAt(views: map<ID, SubnetView>, n: NodeID, s: ID): map<ID, SubnetView> {
    if s in views then views[s := views[s].(entries := views[s].entries - {n})] else views
  }

  lemma RemoveInStep(views: map<ID, SubnetView>, n: NodeID, done: set<ID>, s: ID)
    requires s !in done
    ensures RemoveIn(views, n, {}) == views
    ensures RemoveIn(views, n, done + {s}) == RemoveAt(RemoveIn(views, n, done), n, s)
  {
  }

  lemma LearnChanges(m: Model, ip: ClaimedIP)
    ensures Learn(m, ip).latest != m.latest <==>
            ip.nodeID in TrackedMap(m) && Newer(TrackedMap(m)[ip.nodeID], ip)
    ensures Learn(m, ip).mySubnets == m.mySubnets && Learn(m, ip).connected == m.connected
    ensures Learn(m, ip).Wanted(ip.nodeID) <==> m.Wanted(ip.nodeID)
  {
    LearnTrackedMap(m, ip);
    assert forall s :: Learn(m, ip).Follows(s) <==> m.Follows(s);
  }

  /** Wanting a connection means one of the three documented reasons. */
  lemma WantedMeansEntry(m: Model, n: NodeID)
    requires Consistent(m)
    ensures m.Wanted(n) <==> n in TrackedMap(m) && TrackedMap(m)[n].WantsConnection()
  {
    TrackedSetMeans(m, n);
    if m.Wanted(n) && n !in m.manuallyTracked {
      var s :| m.Gossipable(s, n) && m.Follows(s);
      SubnetMeans(m, s, n);
      assert s in FollowedOf(m, n);
      assert m.Tracked(n);
    }
    if n in TrackedMap(m) && TrackedMap(m)[n].WantsConnection() && n !in m.manuallyTracked {
      var s :| s in FollowedOf(m, n);
      SubnetMeans(m, s, n);
    }
  }

  lemma LatestInEntry(m: Model, n: NodeID)
    requires Consistent(m) && n in TrackedMap(m) && n in m.connected
    ensures n in m.latest && TrackedMap(m)[n].ip == Some(m.latest[n]) && m.latest[n].nodeID == n
    ensures m.Tracked(n)
  {
    TrackedSetMeans(m, n);
  }

  lemma SubnetMapMeans(m: Model, s: ID, n: NodeID)
    requires Consistent(m)
    ensures s !in SubnetMap(m) ==> !m.Gossipable(s, n)
    ensures s in SubnetMap(m) ==> (n in SubnetMap(m)[s].manuallyGossipable <==> (s, n) in m.manuallyGossiped)
    ensures s in SubnetMap(m) ==> (n in SubnetMap(m)[s].entries <==> m.InGossip(s, n))
    ensures s in SubnetMap(m) && n in SubnetMap(m)[s].entries ==> SubnetMap(m)[s].entries[n] == m.latest[n]
  {
    SubnetMeans(m, s, n);
  }

  lemma LatestIsIPs(m: Model)
    requires Consistent(m)
    ensures IPs(TrackedMap(m)) == m.latest
  {
    forall n ensures n in IPs(TrackedMap(m)) <==> n in m.latest {
      TrackedSetMeans(m, n);
    }
  }

  /** What a sent address must be. */
  ghost predicate MayBeSent(m: Model, iter: set<ID>, allowed: ID -> bool, except: NodeID, known: GossipID -> bool,
                            ip: ClaimedIP)
  {
    && Eligible(ip, except, known)
    && ip.nodeID in m.latest && m.latest[ip.nodeID] == ip
    && exists s :: s in iter && allowed(s) && m.InGossip(s, ip.nodeID)
  }

  /** Every eligible node in the gossip of s was sent. */
  ghost predicate AllSent(m: Model, s: ID, except: NodeID, known: GossipID -> bool, sent: set<NodeID>) {
    forall n :: m.InGossip(s, n) && n in m.latest && Eligible(m.latest[n], except, known) ==> n in sent
  }

  lemma EntriesMean(m: Model, s: ID, entries: map<NodeID, ClaimedIP>)
    requires Consistent(m) && s in SubnetMap(m) && SubnetMap(m)[s].entries == entries
    ensures forall n :: n in entries <==> m.InGossip(s, n)
    ensures forall n :: n in entries ==> n in m.latest && entries[n] == m.latest[n]
  {
    forall n ensures n in entries <==> m.InGossip(s, n) {
      SubnetMapMeans(m, s, n);
    }
  }

  lemma NodesGrow(ips: seq<ClaimedIP>, ips': seq<ClaimedIP>)
    requires ips <= ips'
    ensures NodeIDs(ips) <= NodeIDs(ips')
  {
    forall n | n in NodeIDs(ips) ensures n in NodeIDs(ips') {
      var i :| 0 <= i < |ips| && ips[i].nodeID == n;
      assert ips'[i] == ips[i];
    }
  }

  class Tracker {
    const mySubnets: set<ID>
    var numTrackedPeers: int
    var numGossipableIPs: int
    var numTrackedSubnets: int
    var tracked: map<NodeID, TrackedNode>
    var bloom: multiset<GossipID>
    var bloomAdditions: map<NodeID, nat>
    var maxBloomCount: int
    var connected: map<NodeID, ConnectedNode>
    var subnet: map<ID, GossipableSubnet>
    ghost var model: Model
    /** Nodes whose latest address a failed reset kept out of the filter. */
    ghost var dropped: set<NodeID>
    /** How many latest addresses there were when the filter was last made. */
    ghost var atReset: nat

    ghost function FilterState(): Filter
      reads `bloom, `bloomAdditions, `maxBloomCount, `atReset
    {
      Filter(bloom, bloomAdditions, maxBloomCount, atReset)
    }

    ghost predicate Bloomy()
      reads `tracked, `bloom, `bloomAdditions, `maxBloomCount, `atReset, `dropped
    {
      BloomOk(IPs(tracked), bloom, bloomAdditions, dropped) && Bounded(FilterState())
    }

    ghost predicate SubnetGaugesOk()
      reads `subnet, `numTrackedSubnets, `numGossipableIPs
    {
      numTrackedSubnets == |subnet| && numGossipableIPs == Sum(Sizes(subnet))
    }

    ghost predicate Valid()
      reads this
    {
      && model.mySubnets == mySubnets && model.connected == connected
      && Tied(model, tracked, subnet)
      && numTrackedPeers == |tracked| && SubnetGaugesOk()
      && Bloomy()
    }

    constructor (mySubnets: set<ID>, maxBloomCount: int)
      ensures Valid() && this.mySubnets == mySubnets && model == Init(mySubnets) && dropped == {}
      ensures FilterState() == Filter(multiset{}, map[], maxBloomCount, 0)
    {
      this.mySubnets := mySubnets;
      numTrackedPeers, numGossipableIPs, numTrackedSubnets := 0, 0, 0;
      tracked, bloom, bloomAdditions, connected, subnet := map[], multiset{}, map[], map[], map[];
      this.maxBloomCount := maxBloomCount;
      model, dropped, atReset := Init(mySubnets), {}, 0;
      new;
      assert Sizes(subnet) == map[];
      assert Reasons(model) == {};
      assert TrackedMap(model) == map[] && SubnetMap(model) == map[];
    }

    /** Draws a new salt and filter and re-adds the latest addresses; None stands for a failed draw. */
    method ResetBloomFilter(reset: Option<int>) returns (ok: bool)
      requires Bloomy()
      modifies `bloom, `bloomAdditions, `maxBloomCount, `atReset, `dropped
      ensures ok <==> reset.Some?
      ensures !ok ==> FilterState() == old(FilterState()) && dropped == old(dropped)
      ensures Bloomy()
      ensures ok ==> maxBloomCount == reset.value && atReset == |IPs(tracked)| && dropped == {}
      ensures ok ==> Refilled(IPs(tracked), bloom, bloomAdditions)
      ensures ok ==> (forall g :: bloom[g] == |Announcers(IPs(tracked), g)|) && |bloom| == |IPs(tracked)|
      ensures ok ==> bloomAdditions.Keys == IPs(tracked).Keys
      ensures ok ==> forall n :: n in bloomAdditions ==> bloomAdditions[n] == 1
    {
      hide BloomOk, Refilled, Announcers, IPs, Refilling;
      if reset.None? {
        return false;
      }
      RefillStart(tracked);
      var newBloom: multiset<GossipID> := multiset{};
      var additions: map<NodeID, nat> := map[];
      var todo: set<NodeID> := tracked.Keys;
      ghost var ips: map<NodeID, ClaimedIP> := map[];
      while todo != {}
        invariant todo <= tracked.Keys && Refilling(tracked, todo, ips, newBloom, additions)
        decreases todo
      {
        var nodeID := Pick(todo);
        RefillStep(tracked, todo, ips, newBloom, additions, nodeID);
        todo := todo - {nodeID};
        if tracked[nodeID].ip.Some? {
          ips := ips[nodeID := tracked[nodeID].ip.value];
          newBloom := newBloom + multiset{tracked[nodeID].ip.value.gossipID};
          additions := additions[nodeID := 1];
        }
      }
      RefillEnd(tracked, ips, newBloom, additions);
      bloom, bloomAdditions, maxBloomCount, atReset, dropped := newBloom, additions, reset.value, |ips|, {};
      return true;
    }

    /** Makes ip the latest address of its node and adds it to the filter, or makes a new filter if this one is full. */
    method UpdateMostRecentTrackedIP(ip: ClaimedIP, reset: Option<int>)
      requires ip.nodeID in tracked && Bloomy()
      modifies `tracked, `bloom, `bloomAdditions, `maxBloomCount, `atReset, `dropped
      ensures tracked == old(tracked)[ip.nodeID := old(tracked)[ip.nodeID].(ip := Some(ip))]
      ensures Bloomy()
      ensures reset.Some? ==> dropped <= old(dropped)
      ensures FilterAfter(old(FilterState()), FilterState(), IPs(tracked), ip, reset)
      ensures var count := old(Count(bloomAdditions, ip.nodeID));
              && (count >= MAX_IP_ENTRIES_PER_NODE ==> FilterState() == old(FilterState()))
              && (count < MAX_IP_ENTRIES_PER_NODE && old(|bloom| < maxBloomCount) ==>
                  && bloom == old(bloom) + multiset{ip.gossipID} && maxBloomCount == old(maxBloomCount)
                  && bloomAdditions == old(bloomAdditions)[ip.nodeID := count + 1])
              && (count < MAX_IP_ENTRIES_PER_NODE && old(|bloom| >= maxBloomCount) && reset.Some? ==>
                  && maxBloomCount == reset.value && Refilled(IPs(tracked), bloom, bloomAdditions))
    {
      LatestChanges(tracked, ip);
      BloomWaits(IPs(tracked), bloom, bloomAdditions, dropped, ip);
      hide IPs, BloomOk, Refilled, Announcers, FilterAfter, Bounded;
      ghost var before := FilterState();
      tracked := tracked[ip.nodeID := tracked[ip.nodeID].(ip := Some(ip))];
      var oldCount := Count(bloomAdditions, ip.nodeID);
      if oldCount >= MAX_IP_ENTRIES_PER_NODE {
        FilterKept(before, IPs(tracked), ip, reset);
        return;
      }
      if |bloom| >= maxBloomCount {
        dropped := dropped + {ip.nodeID};
        var ok := ResetBloomFilter(reset);
        if ok {
          FilterMade(before, FilterState(), IPs(tracked), ip, reset);
        } else {
          FilterKept(before, IPs(tracked), ip, reset);
        }
        return;
      }
      BloomAdded(IPs(old(tracked)), bloom, bloomAdditions, dropped, ip);
      FilterGrows(before, IPs(tracked), ip, reset);
      bloomAdditions := bloomAdditions[ip.nodeID := oldCount + 1];
      bloom := bloom + multiset{ip.gossipID};
      dropped := dropped - {ip.nodeID};
    }

    method AddTrackableID(nodeID: NodeID, subnetID: Option<ID>, reset: Option<int>)
      requires Bloomy() && numTrackedPeers == |tracked|
      requires nodeID in connected ==> connected[nodeID].ip.nodeID == nodeID
      modifies `tracked, `bloom, `bloomAdditions, `maxBloomCount, `atReset, `dropped, `numTrackedPeers
      ensures tracked == old(tracked)[nodeID := WithReason(mySubnets, Known(old(tracked), connected, nodeID), subnetID)]
      ensures Bloomy() && numTrackedPeers == |tracked|
      ensures reset.Some? ==> dropped <= old(dropped)
      ensures if nodeID in old(tracked) || nodeID !in connected then FilterState() == old(FilterState())
              else FilterAfter(old(FilterState()), FilterState(), IPs(tracked), connected[nodeID].ip, reset)
      ensures nodeID in old(tracked) || nodeID !in connected ==> IPs(tracked) == IPs(old(tracked))
    {
      hide IPs, BloomOk, WithReason, FilterAfter, Bounded, Refilled;
      var previouslyTracked := nodeID in tracked;
      if !previouslyTracked {
        numTrackedPeers := numTrackedPeers + 1;
        tracked := tracked[nodeID := TrackedNode(false, {}, {}, None)];
      }
      tracked := tracked[nodeID := WithReason(mySubnets, tracked[nodeID], subnetID)];
      ReasonKeepsIPs(old(tracked), nodeID, mySubnets, subnetID);
      assert tracked == old(tracked)[nodeID := tracked[nodeID]];
      if previouslyTracked || nodeID !in connected {
        return;
      }
      CardUpdate(tracked, nodeID, tracked[nodeID].(ip := Some(connected[nodeID].ip)));
      ReasonAndIP(mySubnets, subnetID, connected[nodeID].ip);
      UpdateMostRecentTrackedIP(connected[nodeID].ip, reset);
    }

    /** Stores a subnet's new lists, counting a subnet that is new and what was counted while changing the list. */
    method Store(subnetID: ID, sub: GossipableSubnet, gauge: int)
      requires SubnetGaugesOk() && AllValid(subnet) && sub.Valid()
      requires gauge == |sub.gossipableIPs| - |SubnetOf(subnet, subnetID).gossipableIPs|
      modifies `subnet, `numGossipableIPs, `numTrackedSubnets
      ensures SubnetGaugesOk() && AllValid(subnet) && subnet == old(subnet)[subnetID := sub]
      ensures Views(subnet) == Views(old(subnet))[subnetID := sub.View()]
    {
      SizesUpdate(subnet, subnetID, sub);
      CardUpdate(subnet, subnetID, sub);
      StoreView(subnet, subnetID, sub);
      if subnetID !in subnet {
        numTrackedSubnets := numTrackedSubnets + 1;
      }
      numGossipableIPs := numGossipableIPs + gauge;
      subnet := subnet[subnetID := sub];
    }

    method AddGossipableID(nodeID: NodeID, subnetID: ID, manuallyGossiped: bool)
      requires SubnetGaugesOk() && AllValid(subnet)
      requires nodeID in tracked && (nodeID in connected ==> tracked[nodeID].ip.Some?)
      modifies `subnet, `numTrackedSubnets, `numGossipableIPs
      ensures SubnetGaugesOk() && AllValid(subnet)
      ensures Views(subnet) == Views(old(subnet))[subnetID :=
                Marked(ViewOf(Views(old(subnet)), subnetID), nodeID, manuallyGossiped,
                       Listing(connected, tracked[nodeID], nodeID, subnetID))]
    {
      SubnetOfView(subnet, subnetID);
      var sub, gauge := SubnetOf(subnet, subnetID), 0;
      sub, gauge := sub.MarkGossipable(nodeID, manuallyGossiped, Listing(connected, tracked[nodeID], nodeID, subnetID));
      Store(subnetID, sub, gauge);
    }

    // ---- The event handlers ----

    method ManuallyTrack(nodeID: NodeID, reset: Option<int>)
      requires Valid()
      modifies this
      ensures Valid() && model == Step(old(model), Event.ManuallyTrack(nodeID))
      ensures reset.Some? ==> dropped <= old(dropped)
      ensures Refreshed(old(FilterState()), FilterState(), old(model), model, nodeID, reset)
    {
      hide TrackedMap, SubnetMap, Consistent, Views, AllValid, Step, Marked, ViewOf, BloomOk, Sizes, IPs, Refreshed,
           FilterAfter, Known, WithReason, Listing;
      hide Bloomy, SubnetGaugesOk, FilterState;
      ghost var e := Event.ManuallyTrack(nodeID);
      AddedTrackedMap(model, e);
      ManualTrackSubnetMap(model, nodeID);
      StepConsistent(model, e);
      AddTrackableID(nodeID, None, reset);
      AddedRefreshes(model, e, old(FilterState()), FilterState(), reset);
      model := Step(model, e);
    }

    method ManuallyGossip(subnetID: ID, nodeID: NodeID, reset: Option<int>)
      requires Valid()
      modifies this
      ensures Valid() && model == Step(old(model), Event.ManuallyGossip(subnetID, nodeID))
      ensures reset.Some? ==> dropped <= old(dropped)
      ensures Refreshed(old(FilterState()), FilterState(), old(model), model, nodeID, reset)
    {
      hide TrackedMap, SubnetMap, Consistent, Views, AllValid, Step, Marked, ViewOf, BloomOk, Sizes, IPs, Refreshed,
           FilterAfter, Known, WithReason, Listing;
      hide Bloomy, SubnetGaugesOk, FilterState;
      ghost var e := Event.ManuallyGossip(subnetID, nodeID);
      AddedTrackedMap(model, e);
      AddedSubnetMap(model, e);
      StepConsistent(model, e);
      TrackGossiped(subnetID, nodeID, reset);
      AddedRefreshes(model, e, old(FilterState()), FilterState(), reset);
      hide EntryAfter;
      AddGossipableID(nodeID, subnetID, true);
      model := Step(model, e);
    }

    /** A manual gossip also tracks the node by hand where this node follows the subnet. */
    method TrackGossiped(subnetID: ID, nodeID: NodeID, reset: Option<int>)
      requires Bloomy() && numTrackedPeers == |tracked|
      requires nodeID in connected ==> connected[nodeID].ip.nodeID == nodeID
      modifies `tracked, `bloom, `bloomAdditions, `maxBloomCount, `atReset, `dropped, `numTrackedPeers
      ensures tracked == old(tracked)[nodeID :=
                EntryAfter(mySubnets, connected, Event.ManuallyGossip(subnetID, nodeID), old(tracked))]
      ensures Bloomy() && numTrackedPeers == |tracked|
      ensures reset.Some? ==> dropped <= old(dropped)
      ensures if nodeID in old(tracked) || nodeID !in connected then FilterState() == old(FilterState())
              else FilterAfter(old(FilterState()), FilterState(), IPs(tracked), connected[nodeID].ip, reset)
    {
      hide BloomOk, IPs, FilterAfter, Bounded;
      if subnetID == PRIMARY_NETWORK || subnetID in mySubnets {
        AddTrackableID(nodeID, None, reset);
      }
      AddTrackableID(nodeID, Some(subnetID), reset);
    }

    method OnValidatorAdded(subnetID: ID, nodeID: NodeID, reset: Option<int>)
      requires Valid()
      modifies this
      ensures Valid() && model == Step(old(model), ValidatorAdded(subnetID, nodeID))
      ensures reset.Some? ==> dropped <= old(dropped)
      ensures Refreshed(old(FilterState()), FilterState(), old(model), model, nodeID, reset)
    {
      hide TrackedMap, SubnetMap, Consistent, Views, AllValid, Step, Marked, ViewOf, BloomOk, Sizes, IPs, Refreshed,
           FilterAfter, Known, WithReason, Listing;
      hide Bloomy, SubnetGaugesOk, FilterState;
      ghost var e := ValidatorAdded(subnetID, nodeID);
      AddedTrackedMap(model, e);
      AddedSubnetMap(model, e);
      StepConsistent(model, e);
      AddTrackableID(nodeID, Some(subnetID), reset);
      AddedRefreshes(model, e, old(FilterState()), FilterState(), reset);
      AddGossipableID(nodeID, subnetID, false);
      model := Step(model, e);
    }

    /** Keeps the newer of the known and the given address; the comparison is the source's -2 .. 2 code. */
    method LearnIP(ip: ClaimedIP, reset: Option<int>) returns (comparison: int)
      requires Bloomy() && numTrackedPeers == |tracked|
      modifies `tracked, `bloom, `bloomAdditions, `maxBloomCount, `atReset, `dropped
      ensures Bloomy() && numTrackedPeers == |tracked|
      ensures reset.Some? ==> dropped <= old(dropped)
      ensures tracked == if ip.nodeID in old(tracked) && Newer(old(tracked)[ip.nodeID], ip)
                         then old(tracked)[ip.nodeID := old(tracked)[ip.nodeID].(ip := Some(ip))] else old(tracked)
      ensures if ip.nodeID in old(tracked) && Newer(old(tracked)[ip.nodeID], ip)
              then FilterAfter(old(FilterState()), FilterState(), IPs(tracked), ip, reset)
              else FilterState() == old(FilterState())
      ensures comparison == UNTRACKED <==> ip.nodeID !in old(tracked)
      ensures comparison == NEW <==> ip.nodeID in old(tracked) && old(tracked)[ip.nodeID].ip.None?
      ensures var known := if ip.nodeID in old(tracked) then old(tracked)[ip.nodeID].ip else None;
              known.Some? ==> comparison == if ip.timestamp < known.value.timestamp then OLDER
                                            else if ip.timestamp == known.value.timestamp then SAME else NEWER
      ensures comparison > SAME <==> ip.nodeID in old(tracked) && Newer(old(tracked)[ip.nodeID], ip)
    {
      hide FilterAfter, Bounded, BloomOk, IPs;
      if ip.nodeID !in tracked {
        return UNTRACKED;
      }
      var node := tracked[ip.nodeID];
      CardUpdate(tracked, ip.nodeID, node.(ip := Some(ip)));
      if node.ip.None? {
        UpdateMostRecentTrackedIP(ip, reset);
        return NEW;
      }
      if node.ip.value.timestamp > ip.timestamp {
        return OLDER;
      }
      if node.ip.value.timestamp == ip.timestamp {
        return SAME;
      }
      UpdateMostRecentTrackedIP(ip, reset);
      return NEWER;
    }

    /** Lists ip in every given subnet where its node is gossipable, in any order. */
    method SetGossipableIP(ip: ClaimedIP, subnets: set<ID>)
      requires AllValid(subnet) && SubnetGaugesOk()
      modifies `subnet, `numGossipableIPs, `numTrackedSubnets
      ensures AllValid(subnet) && SubnetGaugesOk() && Views(subnet) == SetIn(old(Views(subnet)), ip, subnets)
    {
      hide Sizes, Views, AllValid, SetIn, SetAt;
      var todo := subnets;
      ghost var before := Views(subnet);
      SetInStep(before, ip, {}, PRIMARY_NETWORK);
      assert subnets - todo == {};
      while todo != {}
        invariant todo <= subnets && AllValid(subnet) && SubnetGaugesOk()
        invariant Views(subnet) == SetIn(before, ip, subnets - todo)
        decreases todo
      {
        var subnetID := Pick(todo);
        SetInStep(before, ip, subnets - todo, subnetID);
        SetOne(subnetID, ip);
        assert subnets - (todo - {subnetID}) == subnets - todo + {subnetID};
        todo := todo - {subnetID};
      }
      assert subnets - todo == subnets;
    }

    method SetOne(subnetID: ID, ip: ClaimedIP)
      requires AllValid(subnet) && SubnetGaugesOk()
      modifies `subnet, `numGossipableIPs, `numTrackedSubnets
      ensures AllValid(subnet) && SubnetGaugesOk()
      ensures Views(subnet) == SetAt(old(Views(subnet)), ip, subnetID)
    {
      assert subnetID in subnet <==> subnetID in Views(subnet);
      if subnetID in subnet && ip.nodeID in subnet[subnetID].gossipableIDs {
        var sub, gauge := subnet[subnetID].SetGossipableIP(ip);
        hide Sizes;
        Store(subnetID, sub, gauge);
      }
    }

    method RemoveOne(subnetID: ID, nodeID: NodeID)
      requires AllValid(subnet) && SubnetGaugesOk()
      modifies `subnet, `numGossipableIPs, `numTrackedSubnets
      ensures AllValid(subnet) && SubnetGaugesOk()
      ensures Views(subnet) == RemoveAt(old(Views(subnet)), nodeID, subnetID)
    {
      assert subnetID in subnet <==> subnetID in Views(subnet);
      if subnetID in subnet {
        var sub, gauge := subnet[subnetID].RemoveGossipableIP(nodeID);
        hide Sizes;
        Store(subnetID, sub, gauge);
      }
    }

    method AddIP(ip: ClaimedIP, reset: Option<int>) returns (wanted: bool)
      requires Valid()
      modifies this
      ensures Valid() && model == Step(old(model), Event.AddIP(ip))
      ensures wanted <==> old(model).Wanted(ip.nodeID) &&
                          (ip.nodeID in old(model).latest ==> old(model).latest[ip.nodeID].timestamp < ip.timestamp)
      ensures reset.Some? ==> dropped <= old(dropped)
      ensures Refreshed(old(FilterState()), FilterState(), old(model), model, ip.nodeID, reset)
    {
      hide TrackedMap, SubnetMap, Consistent, Views, AllValid, SetIn, BloomOk, Sizes, IPs, Refreshed, FilterAfter;
      hide Bloomy, SubnetGaugesOk, FilterState;
      ghost var e := Event.AddIP(ip);
      LearnTrackedMap(model, ip);
      LearnSubnetMap(model, ip);
      StepConsistent(model, e);
      LearnChanges(model, ip);
      var comparison := LearnIP(ip, reset);
      LearnRefreshes(model, model, ip, old(FilterState()), FilterState(), reset);
      model := Step(model, e);
      if comparison <= SAME {
        return false;
      }
      if ip.nodeID in connected {
        SetGossipableIP(ip, connected[ip.nodeID].trackedSubnets);
      }
      WantedMeansEntry(model, ip.nodeID);
      return tracked[ip.nodeID].WantsConnection();
    }

    /** A handshake finished. The lists stay exact iff no earlier connection of the node left a stale entry. */
    method Connected(ip: ClaimedIP, subnets: set<ID>, reset: Option<int>)
      requires Valid()
      modifies this
      ensures model == Step(old(model), Event.Connected(ip, subnets))
      ensures Valid() <==> CleanConnect(old(model), ip.nodeID, subnets)
      ensures reset.Some? ==> dropped <= old(dropped)
      ensures Refreshed(old(FilterState()), FilterState(), old(model), model, ip.nodeID, reset)
    {
      hide TrackedMap, SubnetMap, Consistent, Views, AllValid, SetIn, BloomOk, Sizes, IPs, CleanConnect, Step, Learn;
      hide Bloomy, SubnetGaugesOk, FilterState, Refreshed, FilterAfter;
      ghost var e := Event.Connected(ip, subnets);
      ConnectFrame(model, ip, subnets);
      ghost var m1 := model.(connected := model.connected[ip.nodeID := ConnectedNode(subnets, ip)]);
      ConnectTrackedMap(model, ip, subnets);
      LearnTrackedMap(m1, ip);
      ConnectSubnetMap(model, ip, subnets);
      StepConsistent(model, e);
      connected := connected[ip.nodeID := ConnectedNode(subnets, ip)];
      var comparison := LearnIP(ip, reset);
      LearnRefreshes(model, m1, ip, old(FilterState()), FilterState(), reset);
      model := Step(model, e);
      if comparison != UNTRACKED {
        LatestInEntry(model, ip.nodeID);
        SetGossipableIP(tracked[ip.nodeID].ip.value, subnets);
      }
    }

    /** Unlists a node from every given subnet, in any order. */
    method RemoveGossipableIP(nodeID: NodeID, subnets: set<ID>)
      requires AllValid(subnet) && SubnetGaugesOk()
      modifies `subnet, `numGossipableIPs, `numTrackedSubnets
      ensures AllValid(subnet) && SubnetGaugesOk() && Views(subnet) == RemoveIn(old(Views(subnet)), nodeID, subnets)
    {
      hide Sizes, Views, AllValid, RemoveIn, RemoveAt;
      var todo := subnets;
      ghost var before := Views(subnet);
      RemoveInStep(before, nodeID, {}, PRIMARY_NETWORK);
      assert subnets - todo == {};
      while todo != {}
        invariant todo <= subnets && AllValid(subnet) && SubnetGaugesOk()
        invariant Views(subnet) == RemoveIn(before, nodeID, subnets - todo)
        decreases todo
      {
        var subnetID := Pick(todo);
        RemoveInStep(before, nodeID, subnets - todo, subnetID);
        RemoveOne(subnetID, nodeID);
        assert subnets - (todo - {subnetID}) == subnets - todo + {subnetID};
        todo := todo - {subnetID};
      }
      assert subnets - todo == subnets;
    }

    method Disconnected(nodeID: NodeID)
      requires Valid()
      modifies this
      ensures Valid() && model == Step(old(model), Event.Disconnected(nodeID)) && dropped == old(dropped)
      ensures FilterState() == old(FilterState())
    {
      hide TrackedMap, SubnetMap, Consistent, Views, AllValid, RemoveIn, BloomOk, Sizes, IPs, Step;
      hide Bloomy, SubnetGaugesOk, FilterState;
      ghost var e := Event.Disconnected(nodeID);
      DisconnectFrame(model, nodeID);
      if nodeID !in connected {
        return;
      }
      DisconnectMaps(model, nodeID);
      StepConsistent(model, e);
      var node := connected[nodeID];
      connected := connected - {nodeID};
      RemoveGossipableIP(nodeID, node.trackedSubnets);
      model := Step(model, e);
    }

    method DropSubnet(subnetID: ID)
      requires AllValid(subnet) && SubnetGaugesOk() && subnetID in subnet && subnet[subnetID].View().entries == map[]
      modifies `subnet, `numTrackedSubnets
      ensures AllValid(subnet) && SubnetGaugesOk() && Views(subnet) == old(Views(subnet)) - {subnetID}
    {
      DropMeans(subnet, subnetID);
      hide Sizes, Views, AllValid;
      numTrackedSubnets := numTrackedSubnets - 1;
      subnet := subnet - {subnetID};
    }

    /** Takes a node off a subnet's lists; the subnet goes with its last gossipable node. */
    method RemoveGossipableID(subnetID: ID, nodeID: NodeID)
      requires AllValid(subnet) && SubnetGaugesOk() && subnetID in subnet
      requires var v := WithoutNode(subnet[subnetID].View(), nodeID); v.gossipableIDs == {} ==> v.entries == map[]
      modifies `subnet, `numGossipableIPs, `numTrackedSubnets
      ensures AllValid(subnet) && SubnetGaugesOk()
      ensures Views(subnet) == ViewsWithout(old(Views(subnet)), subnetID, nodeID)
    {
      hide Sizes, Views, AllValid, WithoutNode;
      ViewAt(subnet, subnetID);
      var sub, gauge := subnet[subnetID].UnmarkGossipable(nodeID);
      Store(subnetID, sub, gauge);
      ViewAt(subnet, subnetID);
      if sub.gossipableIDs == {} {
        DropSubnet(subnetID);
        assert old(Views(subnet))[subnetID := sub.View()] - {subnetID} == old(Views(subnet)) - {subnetID};
      }
    }

    /** Takes a subnet out of a node's entry; the entry goes with its last reason. */
    method RemoveTrackableID(subnetID: ID, nodeID: NodeID)
      requires Bloomy() && numTrackedPeers == |tracked|
      modifies `tracked, `numTrackedPeers
      ensures Bloomy() && numTrackedPeers == |tracked|
      ensures tracked == TrackedWithout(old(tracked), subnetID, nodeID)
    {
      BloomLess(tracked, bloom, bloomAdditions, dropped, subnetID, nodeID);
      hide IPs, BloomOk, WithoutSubnet;
      if nodeID !in tracked {
        return;
      }
      var node := WithoutSubnet(tracked[nodeID], subnetID);
      CardUpdate(tracked, nodeID, node);
      tracked := tracked[nodeID := node];
      if node.CanDelete() {
        SmallerWithout(tracked, nodeID);
        numTrackedPeers := numTrackedPeers - 1;
        tracked := tracked - {nodeID};
        assert tracked == old(tracked) - {nodeID};
      }
    }

    method OnValidatorRemoved(subnetID: ID, nodeID: NodeID)
      requires Valid()
      modifies this
      ensures Valid() && model == Step(old(model), ValidatorRemoved(subnetID, nodeID)) && dropped == old(dropped)
      ensures FilterState() == old(FilterState())
    {
      hide TrackedMap, SubnetMap, Consistent, BloomOk, Sizes, IPs, Views, AllValid, Step, TrackedWithout, ViewsWithout,
           WithoutNode;
      hide Bloomy, SubnetGaugesOk, FilterState;
      ghost var e := ValidatorRemoved(subnetID, nodeID);
      SubnetMapMeans(model, subnetID, nodeID);
      StepConsistent(model, e);
      RemovalFrame(model, subnetID, nodeID);
      ViewsHave(subnet, subnetID);
      if subnetID !in subnet {
        RemovedUnknown(model, subnetID, nodeID);
        return;
      }
      if nodeID in subnet[subnetID].manuallyGossipable {
        RemovedButGossiped(model, subnetID, nodeID);
        model := Step(model, e);
        return;
      }
      RemovedSubnetMap(model, subnetID, nodeID);
      RemovedTrackedMap(model, subnetID, nodeID);
      RemoveGossipableID(subnetID, nodeID);
      RemoveTrackableID(subnetID, nodeID);
      model := Step(model, e);
    }

    method ResetBloom(reset: Option<int>) returns (ok: bool)
      requires Valid()
      modifies this
      ensures Valid() && model == Step(old(model), Event.ResetBloom) && (ok <==> reset.Some?)
      ensures dropped == if ok then {} else old(dropped)
      ensures !ok ==> FilterState() == old(FilterState())
      ensures ok ==> maxBloomCount == reset.value && atReset == |model.latest| && |bloom| == |model.latest|
      ensures ok ==> Refilled(model.latest, bloom, bloomAdditions)
      ensures ok ==> forall n :: n in model.latest ==> model.latest[n].gossipID in bloom && bloomAdditions[n] == 1
    {
      hide TrackedMap, SubnetMap, Consistent, Views, AllValid, BloomOk, Sizes, IPs;
      LatestIsIPs(model);
      ok := ResetBloomFilter(reset);
      if ok {
        RefilledOk(model.latest, bloom, bloomAdditions);
      }
    }

    // ---- The queries ----

    method WantsConnection(nodeID: NodeID) returns (wants: bool)
      requires Valid()
      ensures wants <==> model.Wanted(nodeID)
    {
      WantedMeansEntry(model, nodeID);
      return nodeID in tracked && tracked[nodeID].WantsConnection();
    }

    method ShouldVerifyIP(ip: ClaimedIP, trackAllSubnets: bool) returns (should: bool)
      requires Valid()
      ensures should <==> (if trackAllSubnets then model.Tracked(ip.nodeID) else model.Wanted(ip.nodeID)) &&
                          (ip.nodeID in model.latest ==> model.latest[ip.nodeID].timestamp < ip.timestamp)
      ensures should ==> Learn(model, ip).latest != model.latest
    {
      WantedMeansEntry(model, ip.nodeID);
      LearnChanges(model, ip);
      LearnTrackedMap(model, ip);
      if ip.nodeID !in tracked {
        return false;
      }
      var node := tracked[ip.nodeID];
      if !trackAllSubnets && !node.WantsConnection() {
        return false;
      }
      return node.ip.None? || node.ip.value.timestamp < ip.timestamp;
    }

    method GetIP(nodeID: NodeID) returns (ip: Option<ClaimedIP>, wanted: bool)
      requires Valid()
      ensures ip == if nodeID in model.latest then Some(model.latest[nodeID]) else None
      ensures wanted <==> ip.Some? && model.Wanted(nodeID)
    {
      WantedMeansEntry(model, nodeID);
      TrackedSetMeans(model, nodeID);
      if nodeID !in tracked || tracked[nodeID].ip.None? {
        return None, false;
      }
      return tracked[nodeID].ip, tracked[nodeID].WantsConnection();
    }

    /**
     The addresses to send a peer: from the given subnets that are allowed, ranged over in any
     order, at most maxNumIPs, never the peer's own and none its filter knows.
     */
    method GetGossipableIPs(iter: set<ID>, allowed: ID -> bool, except: NodeID, known: GossipID -> bool, maxNumIPs: nat)
      returns (ips: seq<ClaimedIP>)
      requires Valid()
      ensures |ips| <= maxNumIPs && DistinctNodes(ips)
      ensures forall k :: 0 <= k < |ips| ==> MayBeSent(model, iter, allowed, except, known, ips[k])
      ensures forall k :: 0 <= k < |ips| ==>
                && ips[k].nodeID != except && !known(ips[k].gossipID)
                && ips[k].nodeID in model.latest && ips[k] == model.latest[ips[k].nodeID]
      ensures |ips| < maxNumIPs ==>
                forall s, n :: s in iter && allowed(s) && model.InGossip(s, n) &&
                  n != except && !known(model.latest[n].gossipID)
                  ==> n in NodeIDs(ips)
    {
      hide TrackedMap, SubnetMap, BloomOk, Sizes, IPs;
      ips := [];
      var nodeIDs: set<NodeID> := {};
      var todo := iter;
      while todo != {}
        invariant todo <= iter && nodeIDs == NodeIDs(ips) && DistinctNodes(ips) && |ips| <= maxNumIPs
        invariant forall k :: 0 <= k < |ips| ==> MayBeSent(model, iter, allowed, except, known, ips[k])
        invariant |ips| < maxNumIPs ==>
                  forall s :: s in iter - todo && allowed(s) ==> AllSent(model, s, except, known, nodeIDs)
        decreases todo
      {
        var subnetID := Pick(todo);
        todo := todo - {subnetID};
        if !allowed(subnetID) {
          continue;
        }
        assert subnetID in subnet <==> subnetID in Views(subnet);
        forall n ensures subnetID !in subnet ==> !model.Gossipable(subnetID, n) {
          SubnetMapMeans(model, subnetID, n);
        }
        if subnetID !in subnet {
          continue;
        }
        ghost var before := ips;
        ips, nodeIDs := subnet[subnetID].GetGossipableIPs(except, known, maxNumIPs, ips, nodeIDs);
        EntriesMean(model, subnetID, subnet[subnetID].Entries());
        assert forall k :: 0 <= k < |ips| ==> MayBeSent(model, iter, allowed, except, known, ips[k]) by {
          forall k | 0 <= k < |ips| ensures MayBeSent(model, iter, allowed, except, known, ips[k]) {
            assert k < |before| ==> ips[k] == before[k];
          }
        }
        NodesGrow(before, ips);
        if |ips| >= maxNumIPs {
          break;
        }
      }
    }

    /**
     The gossip array of every subnet: one entry for each node that is gossipable there, connected
     and syncing the subnet; the entry is the node's latest address; the index is the array's inverse.
     */
    lemma GossipListsExact(s: ID, n: NodeID)
      requires Valid()
      ensures s in subnet ==> Inverse(subnet[s].gossipableIndices, subnet[s].gossipableIPs)
      ensures (s in subnet && n in subnet[s].gossipableIndices) <==> model.InGossip(s, n)
      ensures model.InGossip(s, n) ==>
                n in model.latest && subnet[s].gossipableIPs[subnet[s].gossipableIndices[n]] == model.latest[n]
    {
      SubnetMapMeans(model, s, n);
      assert s in subnet <==> s in Views(subnet);
      if s in subnet {
        InverseIffIndexed(subnet[s].gossipableIndices, subnet[s].gossipableIPs);
        assert Views(subnet)[s].entries == EntriesOf(subnet[s].gossipableIndices, subnet[s].gossipableIPs);
      }
    }
  }

  /** What an event does to the filter. */
  ghost predicate FilterStep(e: Event, f: Filter, f': Filter, m: Model, m': Model, reset: Option<int>) {
    match e
    case ValidatorRemoved(_, _) => f' == f
    case Disconnected(_) => f' == f
    case ResetBloom =>
      if reset.None? then f' == f
      else f'.maxCount == reset.value && f'.atReset == |m'.latest| && Refilled(m'.latest, f'.bloom, f'.additions)
    case AddIP(ip) => Refreshed(f, f', m, m', ip.nodeID, reset)
    case Connected(ip, _) => Refreshed(f, f', m, m', ip.nodeID, reset)
    case _ => Refreshed(f, f', m, m', e.node, reset)
  }

  /** The size and the maximum of the filter change together, to those of the last reset. */
  lemma FilterStepSizes(e: Event, f: Filter, f': Filter, m: Model, m': Model, reset: Option<int>)
    requires FilterStep(e, f, f', m, m', reset)
    ensures || (f'.atReset == f.atReset && f'.maxCount == f.maxCount)
            || (reset.Some? && f'.atReset == |m'.latest| && f'.maxCount == reset.value)
  {
    hide Refilled;
  }

  /** Only a removed validator takes a latest address away. */
  lemma LatestGrows(m: Model, e: Event)
    requires !e.ValidatorRemoved?
    ensures |m.latest| <= |Step(m, e).latest|
  {
    var m' := Step(m, e);
    if m'.latest != m.latest {
      var n := if e.AddIP? || e.Connected? then e.ip.nodeID else e.node;
      assert n in m'.latest && m'.latest == m.latest[n := m'.latest[n]];
      CardUpdate(m.latest, n, m'.latest[n]);
    }
  }

  /** Delivers one event to a tracker. */
  method Deliver(t: Tracker, e: Event, reset: Option<int>)
    requires t.Valid()
    requires e.Connected? ==> e.ip.nodeID !in t.model.connected
    modifies t
    ensures t.Valid() && t.model == Step(old(t.model), e)
    ensures reset.Some? ==> t.dropped <= old(t.dropped)
    ensures FilterStep(e, old(t.FilterState()), t.FilterState(), old(t.model), t.model, reset)
  {
    hide Refilled, Refreshed, FilterAfter, Step, Tied, Consistent;
    match e {
      case ManuallyTrack(n) => t.ManuallyTrack(n, reset);
      case ManuallyGossip(s, n) => t.ManuallyGossip(s, n, reset);
      case ValidatorAdded(s, n) => t.OnValidatorAdded(s, n, reset);
      case ValidatorRemoved(s, n) => t.OnValidatorRemoved(s, n);
      case AddIP(ip) => var wanted := t.AddIP(ip, reset);
      case Connected(ip, subnets) => t.Connected(ip, subnets, reset);
      case Disconnected(n) => t.Disconnected(n);
      case ResetBloom => var ok := t.ResetBloom(reset);
    }
  }

  /** Every reset of the run allows for as many additions as it makes itself. */
  ghost predicate Sized(mySubnets: set<ID>, es: seq<Event>, resets: seq<Option<int>>)
    requires |resets| == |es|
  {
    forall i :: 0 <= i < |es| && resets[i].Some? ==> |Run(mySubnets, es[..i + 1]).latest| <= resets[i].value
  }

  function Max(a: int, b: int): int {
    if a < b then b else a
  }

  /** After i events: the filter was last made after k of them. */
  ghost predicate LastMade(mySubnets: set<ID>, es: seq<Event>, resets: seq<Option<int>>, i: nat, k: nat, f: Filter)
    requires i <= |es| == |resets|
  {
    && k <= i && f.atReset == |Run(mySubnets, es[..k]).latest|
    && ((forall j :: 0 <= j < i ==> !es[j].ValidatorRemoved?) ==> f.atReset <= |Run(mySubnets, es[..i]).latest|)
    && (Sized(mySubnets, es, resets) && 0 < k ==> f.atReset <= f.maxCount)
  }

  lemma LastMadeNext(mySubnets: set<ID>, es: seq<Event>, resets: seq<Option<int>>, i: nat, k: nat, f: Filter,
                     f': Filter)
    returns (k': nat)
    requires i < |es| == |resets| && LastMade(mySubnets, es, resets, i, k, f)
    requires FilterStep(es[i], f, f', Run(mySubnets, es[..i]), Run(mySubnets, es[..i + 1]), resets[i])
    ensures LastMade(mySubnets, es, resets, i + 1, k', f') && (k' == 0 ==> k == 0 && f'.maxCount == f.maxCount)
  {
    hide Run, Step, FilterStep;
    var m := Run(mySubnets, es[..i]);
    assert es[..i + 1] == es[..i] + [es[i]];
    RunOne(mySubnets, es[..i], es[i]);
    FilterStepSizes(es[i], f, f', m, Step(m, es[i]), resets[i]);
    if !es[i].ValidatorRemoved? {
      LatestGrows(m, es[i]);
    }
    k' := if f'.atReset == f.atReset && f'.maxCount == f.maxCount then k else i + 1;
  }

  lemma LastMadeBounds(mySubnets: set<ID>, es: seq<Event>, resets: seq<Option<int>>, k: nat, f: Filter)
    requires |es| == |resets| && LastMade(mySubnets, es, resets, |es|, k, f) && Bounded(f)
    ensures |f.bloom| <= Max(f.maxCount, |Run(mySubnets, es[..k]).latest|)
    ensures (forall j :: 0 <= j < |es| ==> !es[j].ValidatorRemoved?) ==>
              |f.bloom| <= Max(f.maxCount, |Run(mySubnets, es).latest|)
    ensures Sized(mySubnets, es, resets) && (0 < k || 0 <= f.maxCount) ==> |f.bloom| <= f.maxCount
  {
    hide Run, Sized;
    RunNone(mySubnets);
    assert es[..0] == [] && es[..|es|] == es;
  }

  /** In every run where nodes connect only while down, the tracker means what the events say. */
  method Replay(mySubnets: set<ID>, maxBloomCount: int, es: seq<Event>, resets: seq<Option<int>>) returns (t: Tracker)
    requires |resets| == |es| && ConnectsWhenDown(es)
    ensures fresh(t) && t.Valid() && t.model == Run(mySubnets, es)
    ensures (forall i :: 0 <= i < |es| ==> resets[i].Some?) ==> t.dropped == {}
    ensures exists k :: 0 <= k <= |es| && |t.bloom| <= Max(t.maxBloomCount, |Run(mySubnets, es[..k]).latest|)
    ensures (forall i :: 0 <= i < |es| ==> !es[i].ValidatorRemoved?) ==>
              |t.bloom| <= Max(t.maxBloomCount, |t.model.latest|)
    ensures Sized(mySubnets, es, resets) && 0 <= maxBloomCount ==> |t.bloom| <= t.maxBloomCount
  {
    hide Run, Step, Tied, BloomOk, Sizes, IPs, ConnectsWhenDown, FilterStep, Bounded, Tracker.SubnetGaugesOk, Max;
    RunNone(mySubnets);
    assert es[..0] == [] && forall f: Filter :: f.atReset == 0 ==> LastMade(mySubnets, es, resets, 0, 0, f);
    hide LastMade, Sized;
    t := new Tracker(mySubnets, maxBloomCount);
    ghost var k := 0;
    for i := 0 to |es|
      invariant fresh(t) && t.Valid() && t.model == Run(mySubnets, es[..i])
      invariant (forall j :: 0 <= j < i ==> resets[j].Some?) ==> t.dropped == {}
      invariant LastMade(mySubnets, es, resets, i, k, t.FilterState())
      invariant k == 0 ==> t.maxBloomCount == maxBloomCount
    {
      if es[i].Connected? {
        ConnectFindsDown(mySubnets, es, i);
      }
      assert es[..i + 1] == es[..i] + [es[i]];
      RunOne(mySubnets, es[..i], es[i]);
      ghost var f := t.FilterState();
      Deliver(t, es[i], resets[i]);
      k := LastMadeNext(mySubnets, es, resets, i, k, f, t.FilterState());
    }
    LastMadeBounds(mySubnets, es, resets, k, t.FilterState());
    assert es[..|es|] == es;
  }

  /**
   After a validator left, the filter may hold more than its maximum and more than there are latest
   addresses: those it was last made of stay in it.
   */
  method FilterOutgrows(ip: ClaimedIP, max: int) returns (t: Tracker)
    requires max <= 0
    ensures fresh(t) && t.Valid() && t.dropped == {} && t.maxBloomCount == max
    ensures t.model == Run({}, [ValidatorAdded(PRIMARY_NETWORK, ip.nodeID), AddIP(ip),
                                ValidatorRemoved(PRIMARY_NETWORK, ip.nodeID)])
    ensures t.model.latest == map[] && t.bloom == multiset{ip.gossipID}
  {
    ComesAndGoes(ip);
    hide Run, Step, Tied, Refilled, Refreshed, FilterAfter, IPs, BloomOk;
    t := new Tracker({}, 0);
    ghost var f, m := t.FilterState(), t.model;
    t.OnValidatorAdded(PRIMARY_NETWORK, ip.nodeID, Some(max));
    NothingRefreshed(f, t.FilterState(), m, t.model, ip.nodeID, Some(max));
    m := t.model;
    var wanted := t.AddIP(ip, Some(max));
    FirstRefreshes(f, t.FilterState(), m, t.model, ip, max);
    t.OnValidatorRemoved(PRIMARY_NETWORK, ip.nodeID);
  }

  lemma ComesAndGoes(ip: ClaimedIP)
    ensures var n := ip.nodeID;
            var a, b, c := ValidatorAdded(PRIMARY_NETWORK, n), AddIP(ip), ValidatorRemoved(PRIMARY_NETWORK, n);
            var m1 := Step(Init({}), a);
            var m2 := Step(m1, b);
            && m1.latest == map[] && m2.latest == map[n := ip] && Step(m2, c).latest == map[]
            && Run({}, [a, b, c]) == Step(m2, c)
  {
    var n := ip.nodeID;
    var a, b, c := ValidatorAdded(PRIMARY_NETWORK, n), AddIP(ip), ValidatorRemoved(PRIMARY_NETWORK, n);
    RunNone({});
    RunOne({}, [], a);
    RunOne({}, [a], b);
    RunOne({}, [a, b], c);
    assert [] + [a] == [a] && [a] + [b] == [a, b] && [a, b] + [c] == [a, b, c];
    hide Run;
    assert (PRIMARY_NETWORK, n) in Step(Init({}), a).validators;
  }

  lemma NothingRefreshed(f: Filter, f': Filter, m: Model, m': Model, n: NodeID, reset: Option<int>)
    requires Refreshed(f, f', m, m', n, reset) && m'.latest == m.latest
    ensures f' == f
  {
  }

  lemma FirstRefreshes(f: Filter, f': Filter, m: Model, m': Model, ip: ClaimedIP, max: int)
    requires Refreshed(f, f', m, m', ip.nodeID, Some(max)) && f == Filter(multiset{}, map[], 0, 0)
    requires m.latest == map[] && m'.latest == map[ip.nodeID := ip]
    ensures f'.maxCount == max && f'.bloom == multiset{ip.gossipID}
  {
    hide Refilled;
    assert ip.nodeID in m'.latest;
    RefilledWithOne(ip.nodeID, ip, f'.bloom, f'.additions);
  }

  lemma RefilledWithOne(n: NodeID, ip: ClaimedIP, bloom: multiset<GossipID>, additions: map<NodeID, nat>)
    requires Refilled(map[n := ip], bloom, additions)
    ensures bloom == multiset{ip.gossipID}
  {
    forall g ensures bloom[g] == multiset{ip.gossipID}[g] {
      RefillNone();
      OneMore(map[], n, ip, g);
    }
  }

  /**
   The network and its tracker together: whatever the interleaving of peers, dial loops and callers,
   the calls the network makes leave the tracker exact, and it knows each connection by the address
   and the subnets it was upgraded with.
   */
  method TrackerOfNetwork(mySubnets: set<ID>, maxBloomCount: int, actions: seq<PeerLifecycle.Action>,
                          resets: seq<Option<int>>)
    returns (t: Tracker)
    requires PRIMARY_NETWORK !in mySubnets
    requires |resets| == |PeerLifecycle.Exec(mySubnets, actions).trackerLog|
    ensures fresh(t) && t.Valid() && t.model == Run(mySubnets, PeerLifecycle.Exec(mySubnets, actions).trackerLog)
    ensures (forall i :: 0 <= i < |resets| ==> resets[i].Some?) ==> t.dropped == {}
    ensures var s := PeerLifecycle.Exec(mySubnets, actions);
            && (forall p :: PeerLifecycle.Alive(s, p) && PeerLifecycle.BetweenTheCalls(s.peers[p].phase) ==>
                  && s.peers[p].node in t.connected
                  && t.connected[s.peers[p].node] == ConnectedNode(s.peers[p].subnets, s.peers[p].ip))
            && (forall p :: PeerLifecycle.Alive(s, p) && s.peers[p].phase.Live? ==> s.peers[p].node in t.connected)
    ensures forall e :: e in PeerLifecycle.Exec(mySubnets, actions).trackerLog && e.Connected? ==>
              PeerLifecycle.Upgrade(e.ip.nodeID, e.ip, e.subnets) in actions
    ensures forall n :: n in t.connected ==>
              PeerLifecycle.Upgrade(n, t.connected[n].ip, t.connected[n].trackedSubnets) in actions
  {
    PeerLifecycle.Safety(mySubnets, actions);
    PeerLifecycle.Provenance(mySubnets, actions);
    t := Replay(mySubnets, maxBloomCount, PeerLifecycle.Exec(mySubnets, actions).trackerLog, resets);
  }
}
