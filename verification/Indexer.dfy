/**
 The policy on incomplete indices, over all the runs of a node on one database. A chain is
 incomplete once it ran unindexed; flags in the database carry that to later runs.
 */
module Indexer {
  import opened Common

  /** The keys in the database: they outlive a run. */
  datatype Flags = Flags(hasRun: bool, incomplete: set<ID>, indexed: set<ID>)

  const NO_FLAGS := Flags(false, {}, {})

  /** A database write; one that reports an error may still have been applied. */
  datatype Put = Done | Failed(applied: bool)

  predicate Written(put: Put) {
    put.Done? || put.applied
  }

  datatype VM = DagVM | ChainVM | UnknownVM

  /** Which calls of one registration fail. */
  datatype Faults = Faults(readIncomplete: bool, readIndexed: bool, mark: Put, block: bool, vtx: bool, tx: bool)

  /** How a registration ended: the last two closed the indexer, by policy or on an error. */
  datatype Outcome = Indexed | Unindexed | Refused | Broken

  /** One registration of a primary network chain at an open indexer. */
  datatype Entry = Entry(chain: ID, allowIncomplete: bool, created: bool, outcome: Outcome)

  predicate Had(history: seq<Entry>, chain: ID, outcome: Outcome) {
    exists i :: 0 <= i < |history| && history[i].chain == chain && history[i].outcome == outcome
  }

  /** No index was created in a run that disallows incomplete ones after the chain ran unindexed. */
  ghost predicate NoneCreatedLate(history: seq<Entry>) {
    forall i, j :: 0 <= i < j < |history| && history[j].created && !history[j].allowIncomplete ==>
      !(history[i].chain == history[j].chain && history[i].outcome.Unindexed?)
  }

  /** No chain that was indexed went on unindexed in such a run. */
  ghost predicate NoneAbandoned(history: seq<Entry>) {
    forall i, j :: 0 <= i < j < |history| && history[j].outcome.Unindexed? && !history[j].allowIncomplete ==>
      !(history[i].chain == history[j].chain && history[i].outcome.Indexed?)
  }

  /** A chain was refused only in such a run, and after it was indexed, or ran unindexed, or broke. */
  ghost predicate RefusedForCause(history: seq<Entry>) {
    forall j :: 0 <= j < |history| && history[j].outcome.Refused? ==>
      !history[j].allowIncomplete && Before(history[..j], history[j].chain)
  }

  ghost predicate Before(history: seq<Entry>, chain: ID) {
    Had(history, chain, Unindexed) || Had(history, chain, Indexed) || Had(history, chain, Broken)
  }

  /** The policy. */
  ghost predicate Sound(history: seq<Entry>) {
    NoneCreatedLate(history) && NoneAbandoned(history) && RefusedForCause(history)
  }

  /** The flags record the history; only a registration that broke leaves one undetermined. */
  ghost predicate Recorded(flags: Flags, history: seq<Entry>) {
    && (forall c :: Had(history, c, Unindexed) ==> c in flags.incomplete)
    && (forall c :: c in flags.incomplete ==> Had(history, c, Unindexed) || Had(history, c, Broken))
    && (forall c :: Had(history, c, Indexed) ==> c in flags.indexed)
    && (forall c :: c in flags.indexed ==> Had(history, c, Indexed) || Had(history, c, Broken))
    && (flags.incomplete != {} ==> flags.hasRun)
  }

  lemma HadAppended(history: seq<Entry>, e: Entry)
    ensures forall c, o :: Had(history + [e], c, o) <==> Had(history, c, o) || (c == e.chain && o == e.outcome)
  {
    var history' := history + [e];
    assert history'[|history|] == e;
    forall c, o ensures Had(history', c, o) <==> Had(history, c, o) || (c == e.chain && o == e.outcome) {
      if Had(history, c, o) {
        var i :| 0 <= i < |history| && history[i].chain == c && history[i].outcome == o;
        assert history'[i] == history[i];
      }
    }
  }

  lemma SoundAppended(history: seq<Entry>, e: Entry)
    requires Sound(history) && (e.created && !e.allowIncomplete ==> !Had(history, e.chain, Unindexed))
    requires e.outcome.Unindexed? && !e.allowIncomplete ==> !Had(history, e.chain, Indexed)
    requires e.outcome.Refused? ==> !e.allowIncomplete && Before(history, e.chain)
    ensures Sound(history + [e])
  {
    hide Before;
    forall j | 0 <= j < |history + [e]| ensures (history + [e])[..j] == history[..j] {
    }
    assert history[..|history|] == history;
  }

  /** What the policy decides, from the history alone. */
  function Decision(history: seq<Entry>, chain: ID, enabled: bool, allow: bool): Outcome {
    if enabled then if allow || !Had(history, chain, Unindexed) then Indexed else Refused
    else if allow || !Had(history, chain, Indexed) then Unindexed else Refused
  }

  // ---- One run, as steps on its state ----

  /** A running indexer: its configuration, the flags, what it indexes, and all registrations so far. */
  datatype Live = Live(
    enabled: bool,
    allow: bool,
    hasRunBefore: bool,
    db: Flags,
    closed: bool,
    blockIndices: set<ID>,
    vtxIndices: set<ID>,
    txIndices: set<ID>,
    history: seq<Entry>)

  /** Whether a registration gets past the first tests. */
  predicate Considered(l: Live, subnet: ID, chain: ID) {
    !l.closed && subnet == PRIMARY_NETWORK && chain !in l.blockIndices + l.txIndices + l.vtxIndices
  }

  /** A registration ends: refused and broken ones close the indexer. */
  function Ended(l: Live, chain: ID, outcome: Outcome): Live {
    l.(closed := l.closed || outcome.Refused? || outcome.Broken?,
       history := l.history + [Entry(chain, l.allow, chain in l.blockIndices, outcome)])
  }

  /** The indices a registration adds before a call fails. */
  function Added(l: Live, chain: ID, vm: VM, faults: Faults): Live {
    if faults.mark.Failed? || faults.block then l
    else l.(blockIndices := l.blockIndices + {chain},
            vtxIndices := if vm.DagVM? && !faults.vtx then l.vtxIndices + {chain} else l.vtxIndices,
            txIndices := if vm.DagVM? && !faults.vtx && !faults.tx then l.txIndices + {chain} else l.txIndices)
  }

  predicate Breaks(vm: VM, faults: Faults) {
    faults.mark.Failed? || faults.block || vm.UnknownVM? || (vm.DagVM? && (faults.vtx || faults.tx))
  }

  function MarkedIncomplete(l: Live, chain: ID, mark: Put): Live {
    if Written(mark) then l.(db := l.db.(incomplete := l.db.incomplete + {chain})) else l
  }

  function MarkedIndexed(l: Live, chain: ID, mark: Put): Live {
    if Written(mark) then l.(db := l.db.(indexed := l.db.indexed + {chain})) else l
  }

  /** One registration. */
  function Registered(l: Live, subnet: ID, chain: ID, vm: VM, faults: Faults): Live {
    if !Considered(l, subnet, chain) then l
    else if faults.readIncomplete || faults.readIndexed then Ended(l, chain, Broken)
    else if !l.enabled then
      if chain in l.db.indexed && !l.allow then Ended(l, chain, Refused)
      else Ended(MarkedIncomplete(l, chain, faults.mark), chain, if faults.mark.Done? then Unindexed else Broken)
    else if !l.allow && chain in l.db.incomplete && (chain in l.db.indexed || l.hasRunBefore) then
      Ended(l, chain, Refused)
    else
      Ended(Added(MarkedIndexed(l, chain, faults.mark), chain, vm, faults), chain,
            if Breaks(vm, faults) then Broken else Indexed)
  }

  /** What every step of a run keeps. */
  ghost predicate Inv(l: Live) {
    && Recorded(l.db, l.history) && Sound(l.history) && l.db.hasRun
    && (l.enabled && l.db.incomplete != {} ==> l.hasRunBefore)
    && l.vtxIndices + l.txIndices <= l.blockIndices
  }

  /** Ending a registration records it, if the flags were written for it. */
  lemma EndedKeeps(l: Live, l': Live, chain: ID, outcome: Outcome)
    requires Inv(l) && l'.history == l.history && l'.allow == l.allow && l'.db.hasRun
    requires l.db.incomplete <= l'.db.incomplete && l.db.indexed <= l'.db.indexed
    requires l'.db.incomplete <= l.db.incomplete + if outcome.Unindexed? || outcome.Broken? then {chain} else {}
    requires l'.db.indexed <= l.db.indexed + if outcome.Indexed? || outcome.Broken? then {chain} else {}
    requires outcome.Unindexed? ==> chain in l'.db.incomplete
    requires outcome.Indexed? ==> chain in l'.db.indexed
    requires chain in l'.blockIndices && !l.allow ==> chain !in l.db.incomplete
    requires outcome.Unindexed? && !l.allow ==> chain !in l.db.indexed
    requires outcome.Refused? ==> !l.allow && (chain in l.db.incomplete || chain in l.db.indexed)
    ensures Recorded(l'.db, Ended(l', chain, outcome).history) && Sound(Ended(l', chain, outcome).history)
  {
    var e := Entry(chain, l.allow, chain in l'.blockIndices, outcome);
    HadAppended(l.history, e);
    SoundAppended(l.history, e);
    hide Had, Sound;
  }

  lemma RegisteredKeeps(l: Live, subnet: ID, chain: ID, vm: VM, faults: Faults)
    requires Inv(l)
    ensures Inv(Registered(l, subnet, chain, vm, faults))
  {
    hide Recorded, Sound;
    if Considered(l, subnet, chain) {
      if faults.readIncomplete || faults.readIndexed {
        EndedKeeps(l, l, chain, Broken);
      } else if !l.enabled {
        if chain in l.db.indexed && !l.allow {
          EndedKeeps(l, l, chain, Refused);
        } else {
          EndedKeeps(l, MarkedIncomplete(l, chain, faults.mark), chain,
                     if faults.mark.Done? then Unindexed else Broken);
        }
      } else if !l.allow && chain in l.db.incomplete && (chain in l.db.indexed || l.hasRunBefore) {
        EndedKeeps(l, l, chain, Refused);
      } else {
        EndedKeeps(l, Added(MarkedIndexed(l, chain, faults.mark), chain, vm, faults), chain,
                   if Breaks(vm, faults) then Broken else Indexed);
      }
    }
  }

  /** The entry of a registration says whether an index was created and whether the indexer closed. */
  predicate Tells(e: Entry, l: Live, chain: ID) {
    && e.chain == chain && e.allowIncomplete == l.allow
    && (e.created <==> chain in l.blockIndices)
    && (l.closed <==> e.outcome.Refused? || e.outcome.Broken?)
    && (e.outcome.Indexed? ==> l.enabled && chain in l.blockIndices && chain in l.db.indexed)
    && (e.outcome.Unindexed? ==> !l.enabled && chain !in l.blockIndices && chain in l.db.incomplete)
  }

  /** Every considered registration leaves one entry that tells what became of it. */
  lemma RegisteredTells(l: Live, subnet: ID, chain: ID, vm: VM, faults: Faults)
    requires l.vtxIndices + l.txIndices <= l.blockIndices
    ensures var l' := Registered(l, subnet, chain, vm, faults);
            if !Considered(l, subnet, chain) then l' == l
            else OneEntry(l, l', chain)
  {
    if Considered(l, subnet, chain) {
      EndedTells(l, chain, Broken);
      EndedTells(l, chain, Refused);
      if l.enabled {
        AddedTells(l, chain, vm, faults);
      } else {
        EndedTells(MarkedIncomplete(l, chain, faults.mark), chain, if faults.mark.Done? then Unindexed else Broken);
      }
      hide Tells, Ended, Added, MarkedIncomplete, MarkedIndexed, Breaks;
    }
  }

  /** What one ended registration adds to the history. */
  ghost predicate OneEntry(l: Live, l': Live, chain: ID) {
    && |l'.history| == |l.history| + 1 && l'.history[..|l.history|] == l.history
    && Tells(l'.history[|l.history|], l', chain)
  }

  lemma EndedTells(l: Live, chain: ID, outcome: Outcome)
    requires !l.closed && (outcome.Indexed? ==> l.enabled && chain in l.blockIndices && chain in l.db.indexed)
    requires outcome.Unindexed? ==> !l.enabled && chain !in l.blockIndices && chain in l.db.incomplete
    ensures OneEntry(l, Ended(l, chain, outcome), chain)
  {
  }

  lemma AddedTells(l: Live, chain: ID, vm: VM, faults: Faults)
    requires !l.closed && l.enabled
    ensures OneEntry(l, Ended(Added(MarkedIndexed(l, chain, faults.mark), chain, vm, faults), chain,
                              if Breaks(vm, faults) then Broken else Indexed), chain)
  {
    EndedTells(Added(MarkedIndexed(l, chain, faults.mark), chain, vm, faults), chain,
               if Breaks(vm, faults) then Broken else Indexed);
    hide Ended, Tells;
  }

  /** What becomes of a registration: the policy's decision, unless a call it needs fails. */
  ghost predicate Outcomes(decision: Outcome, outcome: Outcome, vm: VM, faults: Faults) {
    && (faults.readIncomplete || faults.readIndexed ==> outcome.Broken?)
    && (!faults.readIncomplete && !faults.readIndexed ==>
        && (decision.Refused? ==> outcome.Refused?)
        && (decision.Unindexed? ==> outcome == if faults.mark.Done? then Unindexed else Broken)
        && (decision.Indexed? ==>
            (outcome.Indexed? <==>
             faults.mark.Done? && !faults.block && (vm.ChainVM? || (vm.DagVM? && !faults.vtx && !faults.tx))) &&
            (outcome.Indexed? || outcome.Broken?)))
  }

  /** If no earlier registration of the chain broke, the history and the failing calls alone decide. */
  lemma RegisteredDecides(l: Live, subnet: ID, chain: ID, vm: VM, faults: Faults)
    requires Inv(l) && Considered(l, subnet, chain) && !Had(l.history, chain, Broken)
    ensures var l' := Registered(l, subnet, chain, vm, faults);
            |l'.history| > |l.history| &&
            Outcomes(Decision(l.history, chain, l.enabled, l.allow), l'.history[|l.history|].outcome, vm, faults)
  {
    assert chain in l.db.incomplete <==> Had(l.history, chain, Unindexed);
    assert chain in l.db.indexed <==> Had(l.history, chain, Indexed);
    hide Sound, Had, Recorded;
  }

  /** Which indices and flags a considered registration leaves its own chain. */
  lemma RegisteredCreates(l: Live, subnet: ID, chain: ID, vm: VM, faults: Faults)
    requires Considered(l, subnet, chain)
    ensures var l' := Registered(l, subnet, chain, vm, faults);
            && (|l.history| < |l'.history| && l'.history[|l.history|].outcome.Indexed? ==>
                chain in l'.blockIndices && (vm.DagVM? ==> !faults.vtx && !faults.tx))
            && (chain in l'.vtxIndices <==> chain in l'.blockIndices && vm.DagVM? && !faults.vtx)
            && (chain in l'.txIndices <==> chain in l'.blockIndices && vm.DagVM? && !faults.vtx && !faults.tx)
            && (chain in l'.blockIndices ==> l.enabled && chain in l'.db.indexed)
            && (chain in l'.db.incomplete && chain !in l.db.incomplete ==> !l.enabled)
            && (chain in l'.db.indexed && chain !in l.db.indexed ==> l.enabled)
  {
  }

  /** No other chain enters or leaves an index or a flag. */
  lemma RegisteredElsewhere(l: Live, subnet: ID, chain: ID, vm: VM, faults: Faults, other: ID)
    requires other != chain || !Considered(l, subnet, chain)
    ensures var l' := Registered(l, subnet, chain, vm, faults);
            && (other in l'.blockIndices <==> other in l.blockIndices)
            && (other in l'.vtxIndices <==> other in l.vtxIndices)
            && (other in l'.txIndices <==> other in l.txIndices)
            && (other in l'.db.incomplete <==> other in l.db.incomplete)
            && (other in l'.db.indexed <==> other in l.db.indexed)
  {
  }

  // ---- All runs ----

  /** What happens to a running indexer. */
  datatype Call = Register(subnet: ID, chain: ID, vm: VM, faults: Faults) | CloseCall

  /** One run of the node: its configuration, what fails at its start, and the calls until it stops or crashes. */
  datatype NodeRun = NodeRun(enabled: bool, allowIncomplete: bool, readFails: bool, mark: Put, calls: seq<Call>)

  /** What outlives the runs: the flags, and what the node went through. */
  datatype World = World(flags: Flags, history: seq<Entry>)

  predicate Starts(run: NodeRun) {
    !run.readFails && run.mark.Done?
  }

  /** The flags after a run's start, whether or not it succeeds. */
  function StartFlags(flags: Flags, readFails: bool, mark: Put): Flags {
    if !readFails && Written(mark) then flags.(hasRun := true) else flags
  }

  function Begin(w: World, enabled: bool, allow: bool): Live {
    Live(enabled, allow, w.flags.hasRun, w.flags.(hasRun := true), false, {}, {}, {}, w.history)
  }

  function Called(l: Live, c: Call): Live {
    match c
    case Register(subnet, chain, vm, faults) => Registered(l, subnet, chain, vm, faults)
    case CloseCall => l.(closed := true)
  }

  function AllCalled(l: Live, calls: seq<Call>): Live {
    if calls == [] then l else Called(AllCalled(l, calls[..|calls| - 1]), calls[|calls| - 1])
  }

  function AfterRun(w: World, run: NodeRun): World {
    if !Starts(run) then w.(flags := StartFlags(w.flags, run.readFails, run.mark))
    else
      var l := AllCalled(Begin(w, run.enabled, run.allowIncomplete), run.calls);
      World(l.db, l.history)
  }

  function Exec(runs: seq<NodeRun>): World {
    if runs == [] then World(NO_FLAGS, []) else AfterRun(Exec(runs[..|runs| - 1]), runs[|runs| - 1])
  }

  lemma {:induction false} CallsKeep(l: Live, calls: seq<Call>)
    requires Inv(l)
    ensures Inv(AllCalled(l, calls))
  {
    if calls != [] {
      var before, c := AllCalled(l, calls[..|calls| - 1]), calls[|calls| - 1];
      CallsKeep(l, calls[..|calls| - 1]);
      hide Registered, Recorded, Sound;
      if c.Register? { RegisteredKeeps(before, c.subnet, c.chain, c.vm, c.faults); }
    }
  }

  /**
   Over any sequence of runs on one database: an index created in a run that disallows incomplete ones
   belongs to a chain that never before registered at an open indexer and went on unindexed, an indexed
   chain never goes on unindexed in such a run, nothing is refused without cause, and the flags record
   what happened.
   */
  lemma {:induction false} PolicyHolds(runs: seq<NodeRun>)
    ensures Recorded(Exec(runs).flags, Exec(runs).history) && Sound(Exec(runs).history)
  {
    if runs != [] {
      var w, run := Exec(runs[..|runs| - 1]), runs[|runs| - 1];
      PolicyHolds(runs[..|runs| - 1]);
      if Starts(run) {
        CallsKeep(Begin(w, run.enabled, run.allowIncomplete), run.calls);
      }
      hide AllCalled, Sound, Had;
    }
  }

  class Indexer {
    const allowIncompleteIndex: bool
    const indexingEnabled: bool
    const hasRunBefore: bool
    var db: Flags
    var closed: bool
    var blockIndices: set<ID>
    var vtxIndices: set<ID>
    var txIndices: set<ID>
    ghost var history: seq<Entry>

    ghost function State(): Live
      reads this
    {
      Live(indexingEnabled, allowIncompleteIndex, hasRunBefore, db, closed, blockIndices, vtxIndices, txIndices,
           history)
    }

    ghost predicate Valid()
      reads this
    {
      Inv(State())
    }

    constructor (flags: Flags, enabled: bool, allow: bool, ghost past: seq<Entry>)
      ensures State() == Begin(World(flags, past), enabled, allow)
    {
      indexingEnabled, allowIncompleteIndex, hasRunBefore := enabled, allow, flags.hasRun;
      db := flags.(hasRun := true);
      closed, blockIndices, vtxIndices, txIndices := false, {}, {}, {};
      history := past;
    }

    /** A run starts on the database of the runs before; it does not start if the database fails. */
    static method NewIndexer(flags: Flags, enabled: bool, allow: bool, readFails: bool, mark: Put,
                             ghost past: seq<Entry>)
      returns (r: Option<Indexer>, flags': Flags)
      ensures flags' == StartFlags(flags, readFails, mark)
      ensures r.Some? <==> !readFails && mark.Done?
      ensures r.Some? ==> fresh(r.value) && r.value.State() == Begin(World(flags, past), enabled, allow)
      ensures r.Some? ==>
                var i := r.value;
                && i.indexingEnabled == enabled && i.allowIncompleteIndex == allow && i.hasRunBefore == flags.hasRun
                && !i.closed && i.blockIndices == {} && i.vtxIndices == {} && i.txIndices == {} && i.history == past
                && i.db == flags' && flags' == Flags(true, flags.incomplete, flags.indexed)
      ensures r.Some? && Recorded(flags, past) && Sound(past) ==> r.value.Valid()
      ensures Recorded(flags, past) ==> Recorded(flags', past)
    {
      hide Sound, Had;
      if readFails { return None, flags; }
      if mark.Failed? { return None, if mark.applied then flags.(hasRun := true) else flags; }
      var indexer := new Indexer(flags, enabled, allow, past);
      return Some(indexer), indexer.db;
    }

    /** Closing stops every later registration; the flags stay. */
    method Close()
      modifies `closed
      ensures State() == old(State()).(closed := true)
      ensures forall subnet, chain, vm, faults :: Registered(State(), subnet, chain, vm, faults) == State()
    {
      closed := true;
    }

    /** One registration is one step of the run, and keeps what the policy promises. */
    method RegisterChain(subnet: ID, chain: ID, vm: VM, faults: Faults)
      requires Valid()
      modifies this
      ensures Valid() && State() == Registered(old(State()), subnet, chain, vm, faults)
      ensures old(closed || subnet != PRIMARY_NETWORK || chain in blockIndices + vtxIndices + txIndices) ==>
                State() == old(State())
      ensures !old(closed) && subnet == PRIMARY_NETWORK && chain !in old(blockIndices + vtxIndices + txIndices) ==>
                && |history| == |old(history)| + 1 && history[..|old(history)|] == old(history)
                && Tells(history[|old(history)|], State(), chain)
                && (chain in vtxIndices <==> chain in blockIndices && vm.DagVM? && !faults.vtx)
                && (chain in txIndices <==> chain in blockIndices && vm.DagVM? && !faults.vtx && !faults.tx)
                && (history[|old(history)|].outcome.Indexed? ==>
                    && chain in blockIndices
                    && (chain in vtxIndices <==> vm.DagVM?) && (chain in txIndices <==> vm.DagVM?))
                && (!Had(old(history), chain, Broken) ==>
                    Outcomes(Decision(old(history), chain, indexingEnabled, allowIncompleteIndex),
                             history[|old(history)|].outcome, vm, faults))
      ensures forall other :: other != chain ==>
                && (other in blockIndices <==> other in old(blockIndices))
                && (other in vtxIndices <==> other in old(vtxIndices))
                && (other in txIndices <==> other in old(txIndices))
                && (other in db.incomplete <==> other in old(db).incomplete)
                && (other in db.indexed <==> other in old(db).indexed)
    {
      ghost var l := State();
      RegisterLocked(subnet, chain, vm, faults);
      RegisteredKeeps(l, subnet, chain, vm, faults);
      RegisteredTells(l, subnet, chain, vm, faults);
      if Considered(l, subnet, chain) {
        RegisteredCreates(l, subnet, chain, vm, faults);
        if !Had(l.history, chain, Broken) {
          RegisteredDecides(l, subnet, chain, vm, faults);
        }
      }
      hide Inv, Had, Decision, Tells, Outcomes, Registered;
      forall other | other != chain
        ensures && (other in blockIndices <==> other in l.blockIndices)
                && (other in vtxIndices <==> other in l.vtxIndices)
                && (other in txIndices <==> other in l.txIndices)
                && (other in db.incomplete <==> other in l.db.incomplete)
                && (other in db.indexed <==> other in l.db.indexed)
      {
        RegisteredElsewhere(l, subnet, chain, vm, faults, other);
      }
    }

    /** The registration itself, under the lock. */
    method RegisterLocked(subnet: ID, chain: ID, vm: VM, faults: Faults)
      modifies this
      ensures State() == Registered(old(State()), subnet, chain, vm, faults)
    {
      if closed || subnet != PRIMARY_NETWORK || chain in blockIndices + txIndices + vtxIndices { return; }
      if faults.readIncomplete || faults.readIndexed {
        End(chain, Broken);
        return;
      }
      var isIncomplete, previouslyIndexed := chain in db.incomplete, chain in db.indexed;
      if !indexingEnabled {
        if previouslyIndexed && !allowIncompleteIndex {
          End(chain, Refused);
          return;
        }
        MarkIncomplete(chain, faults.mark);
        return;
      }
      if !allowIncompleteIndex && isIncomplete && (previouslyIndexed || hasRunBefore) {
        End(chain, Refused);
        return;
      }
      Create(chain, vm, faults);
    }

    /** Closes the indexer if the registration failed or was refused. */
    method End(chain: ID, outcome: Outcome)
      modifies `closed, `history
      ensures State() == Ended(old(State()), chain, outcome)
    {
      if outcome.Refused? || outcome.Broken? { closed := true; }
      history := history + [Entry(chain, allowIncompleteIndex, chain in blockIndices, outcome)];
    }

    /** A chain that goes on unindexed is flagged, or the indexer closes. */
    method MarkIncomplete(chain: ID, mark: Put)
      modifies `db, `closed, `history
      ensures State() == Ended(MarkedIncomplete(old(State()), chain, mark), chain,
                               if mark.Done? then Unindexed else Broken)
      ensures !old(closed) ==> (closed || chain in db.incomplete) && closed == mark.Failed?
    {
      if Written(mark) { db := db.(incomplete := db.incomplete + {chain}); }
      End(chain, if mark.Done? then Unindexed else Broken);
    }

    /** Flags the chain as indexed and creates its indices, up to the call that fails. */
    method Create(chain: ID, vm: VM, faults: Faults)
      modifies this
      ensures State() == Ended(Added(MarkedIndexed(old(State()), chain, faults.mark), chain, vm, faults), chain,
                               if Breaks(vm, faults) then Broken else Indexed)
      ensures !old(closed) ==> (closed <==> Breaks(vm, faults))
      ensures closed || (chain in blockIndices && chain in db.indexed)
      ensures chain !in old(blockIndices) ==> (chain in blockIndices <==> faults.mark.Done? && !faults.block)
      ensures chain !in old(vtxIndices) ==>
                (chain in vtxIndices <==> faults.mark.Done? && !faults.block && vm.DagVM? && !faults.vtx)
      ensures chain !in old(txIndices) ==>
                (chain in txIndices <==>
                 faults.mark.Done? && !faults.block && vm.DagVM? && !faults.vtx && !faults.tx)
    {
      if Written(faults.mark) { db := db.(indexed := db.indexed + {chain}); }
      if faults.mark.Failed? || faults.block {
        End(chain, Broken);
        return;
      }
      blockIndices := blockIndices + {chain};
      match vm
      case DagVM =>
        if faults.vtx { End(chain, Broken); return; }
        vtxIndices := vtxIndices + {chain};
        if faults.tx { End(chain, Broken); return; }
        txIndices := txIndices + {chain};
        End(chain, Indexed);
      case ChainVM =>
        End(chain, Indexed);
      case UnknownVM =>
        End(chain, Broken);
    }
  }

  /** The same runs on real indexers: flags and history are those of the steps, so the policy holds of them. */
  method Replay(runs: seq<NodeRun>) returns (flags: Flags, ghost history: seq<Entry>)
    ensures flags == Exec(runs).flags && history == Exec(runs).history
    ensures Recorded(flags, history) && Sound(history)
  {
    flags, history := NO_FLAGS, [];
    for i := 0 to |runs|
      invariant World(flags, history) == Exec(runs[..i])
    {
      var run := runs[i];
      assert runs[..i + 1][..i] == runs[..i];
      PolicyHolds(runs[..i]);
      hide Recorded, Sound;
      var indexer;
      indexer, flags := Indexer.NewIndexer(flags, run.enabled, run.allowIncomplete, run.readFails, run.mark, history);
      if indexer.Some? {
        flags, history := OneRun(indexer.value, run.calls);
      }
    }
    assert runs[..|runs|] == runs;
    PolicyHolds(runs);
  }

  /** The calls of one run, in order; the flags survive it. */
  method OneRun(indexer: Indexer, calls: seq<Call>) returns (flags: Flags, ghost history: seq<Entry>)
    requires indexer.Valid()
    modifies indexer
    ensures indexer.Valid() && indexer.State() == AllCalled(old(indexer.State()), calls)
    ensures flags == indexer.db && history == indexer.history && old(indexer.history) <= history
  {
    hide Inv, Registered, Tells, Decision, Had, Outcomes;
    for i := 0 to |calls|
      invariant indexer.State() == AllCalled(old(indexer.State()), calls[..i])
      invariant indexer.Valid() && old(indexer.history) <= indexer.history
    {
      assert calls[..i + 1][..i] == calls[..i];
      HistoryGrows(indexer.State(), calls[i]);
      CallKeeps(indexer.State(), calls[i]);
      match calls[i]
      case Register(subnet, chain, vm, faults) => indexer.RegisterChain(subnet, chain, vm, faults);
      case CloseCall => indexer.Close();
    }
    assert calls[..|calls|] == calls;
    return indexer.db, indexer.history;
  }

  lemma CallKeeps(l: Live, c: Call)
    requires Inv(l)
    ensures Inv(Called(l, c))
  {
    CallsKeep(l, [c]);
    assert [c][..0] == [] && AllCalled(l, [c]) == Called(l, c);
  }

  lemma HistoryGrows(l: Live, c: Call)
    ensures l.history <= Called(l, c).history
  {
  }
}
