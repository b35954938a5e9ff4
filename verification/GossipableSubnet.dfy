/**
 The per-subnet gossip list: an array of addresses with a reverse index, so that an entry is
 replaced or removed in constant time. Its meaning is a map from node to address.
 */
module GossipSubnet {
  import opened Common
  import opened Sums
  import opened TrackerModel

  /** The reverse index and the array describe the same set of entries. */
  ghost predicate Inverse(index: map<NodeID, nat>, ips: seq<ClaimedIP>) {
    && (forall n :: n in index ==> index[n] < |ips| && ips[index[n]].nodeID == n)
    && (forall i :: 0 <= i < |ips| ==> ips[i].nodeID in index && index[ips[i].nodeID] == i)
  }

  /** The position of every node in a list. */
  ghost function IndexOf(ips: seq<ClaimedIP>): map<NodeID, nat> {
    if ips == [] then map[] else IndexOf(ips[..|ips| - 1])[ips[|ips| - 1].nodeID := |ips| - 1]
  }

  /** Inverse, stated by construction: the index is the list's, and no two slots share a node. */
  ghost predicate Indexed(index: map<NodeID, nat>, ips: seq<ClaimedIP>) {
    index == IndexOf(ips) && |index| == |ips|
  }

  lemma {:induction false} IndexOfSize(ips: seq<ClaimedIP>)
    ensures |IndexOf(ips)| <= |ips|
    ensures |IndexOf(ips)| == |ips| ==> Inverse(IndexOf(ips), ips)
  {
    if ips != [] {
      var before := ips[..|ips| - 1];
      IndexOfSize(before);
      CardUpdate(IndexOf(before), ips[|ips| - 1].nodeID, |ips| - 1);
    }
  }

  lemma {:induction false} InverseSize(index: map<NodeID, nat>, ips: seq<ClaimedIP>)
    requires Inverse(index, ips)
    ensures |index| == |ips|
    decreases |ips|
  {
    if ips == [] {
      assert forall n :: n !in index;
      assert index == map[];
    } else {
      var n := ips[|ips| - 1].nodeID;
      SmallerWithout(index, n);
      InverseSize(index - {n}, ips[..|ips| - 1]);
    }
  }

  lemma {:induction false} InverseIsIndexOf(index: map<NodeID, nat>, ips: seq<ClaimedIP>)
    requires Inverse(index, ips)
    ensures index == IndexOf(ips)
    decreases |ips|
  {
    if ips == [] {
      assert forall n :: n !in index;
    } else {
      var n := ips[|ips| - 1].nodeID;
      InverseIsIndexOf(index - {n}, ips[..|ips| - 1]);
      assert index == (index - {n})[n := |ips| - 1];
    }
  }

  /** The reverse index of a valid list is its exact inverse, and the other way round. */
  lemma InverseIffIndexed(index: map<NodeID, nat>, ips: seq<ClaimedIP>)
    ensures Indexed(index, ips) <==> Inverse(index, ips)
  {
    IndexOfSize(ips);
    if Inverse(index, ips) {
      InverseSize(index, ips);
      InverseIsIndexOf(index, ips);
    }
  }

  ghost function EntriesOf(index: map<NodeID, nat>, ips: seq<ClaimedIP>): map<NodeID, ClaimedIP>
    requires Inverse(index, ips)
  {
    map n | n in index :: ips[index[n]]
  }

  lemma ReplaceEntry(index: map<NodeID, nat>, ips: seq<ClaimedIP>, ip: ClaimedIP)
    requires Inverse(index, ips) && ip.nodeID in index
    ensures var ips' := ips[index[ip.nodeID] := ip];
            Inverse(index, ips') && EntriesOf(index, ips') == EntriesOf(index, ips)[ip.nodeID := ip]
  {
    var ips' := ips[index[ip.nodeID] := ip];
    forall n | n in index && n != ip.nodeID ensures ips'[index[n]] == ips[index[n]] {
      assert ips[index[n]].nodeID == n;
    }
  }

  lemma AppendEntry(index: map<NodeID, nat>, ips: seq<ClaimedIP>, ip: ClaimedIP)
    requires Inverse(index, ips) && ip.nodeID !in index
    ensures var index', ips' := index[ip.nodeID := |ips|], ips + [ip];
            Inverse(index', ips') && EntriesOf(index', ips') == EntriesOf(index, ips)[ip.nodeID := ip]
  {
    var index', ips' := index[ip.nodeID := |ips|], ips + [ip];
    forall n | n in index ensures EntriesOf(index', ips')[n] == EntriesOf(index, ips)[n] {
      assert ips'[index[n]] == ips[index[n]];
    }
  }

  /** Moving the last entry into the freed slot and shrinking the array removes exactly one entry. */
  lemma SwapRemove(index: map<NodeID, nat>, ips: seq<ClaimedIP>, n: NodeID)
    requires Inverse(index, ips) && n in index
    ensures var last := ips[|ips| - 1];
            var index' := index[last.nodeID := index[n]] - {n};
            var ips' := ips[index[n] := last][..|ips| - 1];
            Inverse(index', ips') && EntriesOf(index', ips') == EntriesOf(index, ips) - {n}
  {
    var last := ips[|ips| - 1];
    var index' := index[last.nodeID := index[n]] - {n};
    var ips' := ips[index[n] := last][..|ips| - 1];
    forall i | 0 <= i < |ips'| ensures ips'[i].nodeID in index' && index'[ips'[i].nodeID] == i {
      assert ips'[i] == if i == index[n] then last else ips[i];
    }
    forall x | x in index' ensures index'[x] < |ips'| && ips'[index'[x]] == ips[index[x]] {
      assert ips[index[x]].nodeID == x;
    }
    assert EntriesOf(index', ips').Keys == (EntriesOf(index, ips) - {n}).Keys;
  }

  /** The first n natural numbers. */
  function Below(n: nat): (r: set<nat>)
    ensures forall i :: i in r <==> 0 <= i < n
  {
    if n == 0 then {} else Below(n - 1) + {n - 1}
  }

  function NodeIDs(ips: seq<ClaimedIP>): set<NodeID> {
    set i | 0 <= i < |ips| :: ips[i].nodeID
  }

  ghost predicate DistinctNodes(ips: seq<ClaimedIP>) {
    forall i, j :: 0 <= i < j < |ips| ==> ips[i].nodeID != ips[j].nodeID
  }

  /** An address a peer may be told about: not its own, and not in its filter. */
  predicate Eligible(ip: ClaimedIP, except: NodeID, known: GossipID -> bool) {
    ip.nodeID != except && !known(ip.gossipID)
  }

  /** What a subnet holds, with the list and its index read as a map. */
  datatype SubnetView = SubnetView(
    manuallyGossipable: set<NodeID>,
    gossipableIDs: set<NodeID>,
    entries: map<NodeID, ClaimedIP>)

  function Marked(v: SubnetView, n: NodeID, manually: bool, entry: Option<ClaimedIP>): SubnetView {
    var v' := if manually then v.(manuallyGossipable := v.manuallyGossipable + {n}) else v;
    if n in v.gossipableIDs then v'
    else v'.(gossipableIDs := v.gossipableIDs + {n},
             entries := if entry.Some? then v.entries[entry.value.nodeID := entry.value] else v.entries)
  }

  function WithoutNode(v: SubnetView, n: NodeID): SubnetView {
    v.(gossipableIDs := v.gossipableIDs - {n}, entries := v.entries - {n})
  }

  /** The nodes that may be gossiped for one subnet, and the list of addresses handed out. */
  datatype GossipableSubnet = GossipableSubnet(
    manuallyGossipable: set<NodeID>,
    gossipableIDs: set<NodeID>,
    gossipableIndices: map<NodeID, nat>,
    gossipableIPs: seq<ClaimedIP>)
  {
    /** The reverse index is the inverse of the list; see InverseIffIndexed. */
    ghost predicate Valid() {
      Indexed(gossipableIndices, gossipableIPs)
    }

    /** The gossip list read as a map. */
    ghost function Entries(): map<NodeID, ClaimedIP>
      requires Valid()
    {
      InverseIffIndexed(gossipableIndices, gossipableIPs);
      EntriesOf(gossipableIndices, gossipableIPs)
    }

    ghost function View(): SubnetView
      requires Valid()
    {
      SubnetView(manuallyGossipable, gossipableIDs, Entries())
    }

    /** The list has one slot per entry. */
    lemma SlotPerEntry()
      requires Valid()
      ensures |gossipableIPs| == |Entries()|
    {
      InverseIffIndexed(gossipableIndices, gossipableIPs);
      assert Entries().Keys == gossipableIndices.Keys;
      assert |gossipableIndices| == |gossipableIndices.Keys| && |Entries()| == |Entries().Keys|;
    }

    /** Lists ip, in the slot its node already has or in a new one at the end; a new one moves the gauge. */
    method SetGossipableIP(ip: ClaimedIP) returns (r: GossipableSubnet, gauge: int)
      requires Valid()
      ensures r.Valid() && r.View() == View().(entries := View().entries[ip.nodeID := ip])
      ensures gauge == |r.gossipableIPs| - |gossipableIPs|
    {
      gauge := 0;
      InverseIffIndexed(gossipableIndices, gossipableIPs);
      if ip.nodeID in gossipableIndices {
        ReplaceEntry(gossipableIndices, gossipableIPs, ip);
        r := this.(gossipableIPs := gossipableIPs[gossipableIndices[ip.nodeID] := ip]);
      } else {
        AppendEntry(gossipableIndices, gossipableIPs, ip);
        gauge := gauge + 1;
        r := this.(gossipableIndices := gossipableIndices[ip.nodeID := |gossipableIPs|],
                   gossipableIPs := gossipableIPs + [ip]);
      }
      InverseIffIndexed(r.gossipableIndices, r.gossipableIPs);
    }

    /** Unlists a node; the last entry moves into its slot so that the list stays contiguous. */
    method RemoveGossipableIP(nodeID: NodeID) returns (r: GossipableSubnet, gauge: int)
      requires Valid()
      ensures r.Valid() && r.View() == View().(entries := View().entries - {nodeID})
      ensures gauge == |r.gossipableIPs| - |gossipableIPs|
    {
      gauge := 0;
      if nodeID !in gossipableIndices {
        assert Entries() - {nodeID} == Entries();
        return this, gauge;
      }
      InverseIffIndexed(gossipableIndices, gossipableIPs);
      SwapRemove(gossipableIndices, gossipableIPs, nodeID);
      var indexToRemove, newNumGossipable := gossipableIndices[nodeID], |gossipableIPs| - 1;
      var indices, ips := gossipableIndices, gossipableIPs;
      if newNumGossipable != indexToRemove {
        var replacementIP := ips[newNumGossipable];
        indices := indices[replacementIP.nodeID := indexToRemove];
        ips := ips[indexToRemove := replacementIP];
      } else {
        assert ips[indexToRemove := ips[newNumGossipable]] == ips;
        assert indices[nodeID := indexToRemove] == indices;
      }
      gauge := gauge - 1;
      r := this.(gossipableIndices := indices - {nodeID}, gossipableIPs := ips[..newNumGossipable]);
      InverseIffIndexed(r.gossipableIndices, r.gossipableIPs);
    }

    /** Adds n to the gossipable nodes, listing the given address if n was not among them. */
    method MarkGossipable(n: NodeID, manually: bool, entry: Option<ClaimedIP>) returns (r: GossipableSubnet, gauge: int)
      requires Valid()
      ensures r.Valid() && r.View() == Marked(View(), n, manually, entry)
      ensures gauge == |r.gossipableIPs| - |gossipableIPs|
    {
      r, gauge := this, 0;
      if manually {
        r := r.(manuallyGossipable := r.manuallyGossipable + {n});
      }
      if n in gossipableIDs {
        return;
      }
      r := r.(gossipableIDs := r.gossipableIDs + {n});
      if entry.Some? {
        r, gauge := r.SetGossipableIP(entry.value);
      }
    }

    /** Takes n off the gossipable nodes and off the list. */
    method UnmarkGossipable(n: NodeID) returns (r: GossipableSubnet, gauge: int)
      requires Valid()
      ensures r.Valid() && r.View() == WithoutNode(View(), n)
      ensures gauge == |r.gossipableIPs| - |gossipableIPs|
    {
      r := this.(gossipableIDs := gossipableIDs - {n});
      r, gauge := r.RemoveGossipableIP(n);
    }

    /**
     Extends ips with entries drawn without replacement, in any order the sampler may choose,
     until maxNumIPs is reached or no entry is left.
     */
    method GetGossipableIPs(except: NodeID, known: GossipID -> bool, maxNumIPs: nat,
                            ips0: seq<ClaimedIP>, nodeIDs0: set<NodeID>)
      returns (ips: seq<ClaimedIP>, nodeIDs: set<NodeID>)
      requires Valid()
      requires nodeIDs0 == NodeIDs(ips0) && DistinctNodes(ips0)
      ensures nodeIDs == NodeIDs(ips) && DistinctNodes(ips)
      ensures ips0 <= ips && (|ips| <= maxNumIPs || ips == ips0)
      ensures forall k :: |ips0| <= k < |ips| ==>
                Eligible(ips[k], except, known) &&
                ips[k].nodeID in Entries() && Entries()[ips[k].nodeID] == ips[k]
      ensures |ips| < maxNumIPs ==>
                forall n :: n in Entries() && Eligible(Entries()[n], except, known) ==> n in nodeIDs
    {
      InverseIffIndexed(gossipableIndices, gossipableIPs);
      ips, nodeIDs := ips0, nodeIDs0;
      var undrawn := Below(|gossipableIPs|);
      while |ips| < maxNumIPs && undrawn != {}
        invariant undrawn <= Below(|gossipableIPs|)
        invariant nodeIDs == NodeIDs(ips) && DistinctNodes(ips)
        invariant ips0 <= ips && (|ips| <= maxNumIPs || ips == ips0)
        invariant forall k :: |ips0| <= k < |ips| ==>
                    Eligible(ips[k], except, known) &&
                    ips[k].nodeID in Entries() && Entries()[ips[k].nodeID] == ips[k]
        invariant forall i :: 0 <= i < |gossipableIPs| && i !in undrawn && Eligible(gossipableIPs[i], except, known)
                    ==> gossipableIPs[i].nodeID in nodeIDs
        decreases undrawn
      {
        var index := Pick(undrawn);
        undrawn := undrawn - {index};
        var ip := gossipableIPs[index];
        if ip.nodeID == except || ip.nodeID in nodeIDs || known(ip.gossipID) {
          continue;
        }
        AppendNode(ips, ip);
        ips := ips + [ip];
        nodeIDs := nodeIDs + {ip.nodeID};
      }
      if |ips| < maxNumIPs {
        forall n | n in Entries() && Eligible(Entries()[n], except, known)
          ensures n in nodeIDs
        {
          assert gossipableIPs[gossipableIndices[n]].nodeID == n;
        }
      }
    }
  }

  lemma AppendNode(ips: seq<ClaimedIP>, ip: ClaimedIP)
    ensures NodeIDs(ips + [ip]) == NodeIDs(ips) + {ip.nodeID}
  {
    var ips' := ips + [ip];
    forall n | n in NodeIDs(ips) + {ip.nodeID} ensures n in NodeIDs(ips') {
      if n in NodeIDs(ips) {
        var i :| 0 <= i < |ips| && ips[i].nodeID == n;
        assert ips'[i].nodeID == n;
      } else {
        assert ips'[|ips|].nodeID == n;
      }
    }
  }
}
