/** Decision rounds: what one accepts, and why accepted transactions never share an input. */
module Decisions {
  import opened Common
  import opened Vertices
  import opened EngineModel

  /** Every other claim on the inputs of the transaction is rejected. */
  ghost predicate Free(conflicts: Conflicts, rejected: set<ID>, tx: Tx) {
    tx.inputs.Some? && forall i, t :: i in tx.inputs.value && t in At(conflicts, i) ==> t == tx.id || t in rejected
  }

  ghost predicate TxsAccept(conflicts: Conflicts, accepted: set<ID>, rejected: set<ID>, txs: seq<Tx>, t: ID) {
    exists k :: 0 <= k < |txs| && txs[k].id == t && t !in accepted && t !in rejected &&
      Free(conflicts, rejected, txs[k])
  }

  /** What the vertices with these identifiers accept: it names no order. */
  ghost predicate Accepts(vertices: Store, conflicts: Conflicts, accepted: set<ID>, rejected: set<ID>, chosen: set<ID>,
                          t: ID)
  {
    exists id :: id in chosen && id in vertices && vertices[id].txs.Some? &&
      TxsAccept(conflicts, accepted, rejected, vertices[id].txs.value, t)
  }

  lemma AcceptsMore(vertices: Store, conflicts: Conflicts, accepted: set<ID>, rejected: set<ID>, chosen: set<ID>,
                    id: ID, t: ID)
    requires id in vertices && vertices[id].txs.Some?
    ensures Accepts(vertices, conflicts, accepted, rejected, chosen + {id}, t) <==>
            Accepts(vertices, conflicts, accepted, rejected, chosen, t) ||
            TxsAccept(conflicts, accepted, rejected, vertices[id].txs.value, t)
  {
    hide TxsAccept;
    if Accepts(vertices, conflicts, accepted, rejected, chosen, t) {
      var x :| x in chosen && x in vertices && vertices[x].txs.Some? &&
        TxsAccept(conflicts, accepted, rejected, vertices[x].txs.value, t);
      assert x in chosen + {id};
    }
    if TxsAccept(conflicts, accepted, rejected, vertices[id].txs.value, t) { assert id in chosen + {id}; }
  }

  // ---- No two accepted transactions share an input ----

  /** The vertex verifies, none of its calls fails, and transactions spend what their identifiers say. */
  ghost predicate Honest(v: Vertex, inputsOf: ID -> seq<ID>) {
    && v.parents.Some? && v.verifies && v.txs.Some?
    && forall k :: 0 <= k < |v.txs.value| ==> v.txs.value[k].inputs == Some(inputsOf(v.txs.value[k].id))
  }

  ghost predicate AllHonest(vertices: Store, inputsOf: ID -> seq<ID>) {
    forall id :: id in vertices ==> Honest(vertices[id], inputsOf)
  }

  ghost predicate Claimed(conflicts: Conflicts, inputsOf: ID -> seq<ID>, t: ID) {
    forall i :: i in inputsOf(t) ==> t in At(conflicts, i)
  }

  ghost predicate Contains(vertices: Store, t: ID) {
    exists id, k :: id in vertices && vertices[id].txs.Some? && 0 <= k < |vertices[id].txs.value| &&
      vertices[id].txs.value[k].id == t
  }

  ghost predicate ConflictFree(accepted: set<ID>, inputsOf: ID -> seq<ID>) {
    forall a, b, i :: a in accepted && b in accepted && a != b && i in inputsOf(a) ==> i !in inputsOf(b)
  }

  /** Every stored transaction that is not rejected, and every accepted one, claims its inputs. */
  ghost predicate Secure(vertices: Store, conflicts: Conflicts, accepted: set<ID>, rejected: set<ID>,
                         inputsOf: ID -> seq<ID>)
  {
    && AllHonest(vertices, inputsOf)
    && (forall t :: Contains(vertices, t) && t !in rejected ==> Claimed(conflicts, inputsOf, t))
    && (forall t :: t in accepted ==> Claimed(conflicts, inputsOf, t))
    && (forall t :: t in accepted ==> t !in rejected)
    && ConflictFree(accepted, inputsOf)
  }

  lemma ClaimsGrow(conflicts: Conflicts, conflicts': Conflicts, inputsOf: ID -> seq<ID>, t: ID)
    requires Claimed(conflicts, inputsOf, t) && forall i, x :: x in At(conflicts, i) ==> x in At(conflicts', i)
    ensures Claimed(conflicts', inputsOf, t)
  {
  }

  /** An honest vertex claims the inputs of each of its transactions not decided yet. */
  lemma HonestClaims(v: Vertex, inputsOf: ID -> seq<ID>, decided: set<ID>, k: nat, input: ID)
    requires Honest(v, inputsOf) && k < |v.txs.value| && v.txs.value[k].id !in decided
    requires input in inputsOf(v.txs.value[k].id)
    ensures Claims(v, decided, input, v.txs.value[k].id)
  {
    var txs := v.txs.value;
    assert txs[k].inputs == Some(inputsOf(txs[k].id));
    assert Reached(txs, decided, k);
  }

  lemma SecureProcess(g: Graph, g': Graph, v: Vertex, accepted: set<ID>, rejected: set<ID>, err: bool,
                      inputsOf: ID -> seq<ID>)
    requires Secure(g.vertices, g.conflicts, accepted, rejected, inputsOf) && Honest(v, inputsOf)
    requires ProcessedOne(g, g', v, accepted + rejected, err)
    ensures Secure(g'.vertices, g'.conflicts, accepted, rejected, inputsOf)
  {
    if v.id !in g.vertices {
      forall t | Contains(g'.vertices, t) && t !in rejected ensures Claimed(g'.conflicts, inputsOf, t) {
        NewlyClaimed(g, g', v, accepted, rejected, err, inputsOf, t);
      }
      hide Contains, Honest, Claims, ConflictFree;
      forall t | t in accepted ensures Claimed(g'.conflicts, inputsOf, t) {
        ClaimsGrow(g.conflicts, g'.conflicts, inputsOf, t);
      }
    }
  }

  lemma NewlyClaimed(g: Graph, g': Graph, v: Vertex, accepted: set<ID>, rejected: set<ID>, err: bool,
                     inputsOf: ID -> seq<ID>, t: ID)
    requires Secure(g.vertices, g.conflicts, accepted, rejected, inputsOf) && Honest(v, inputsOf) && v.id !in g.vertices
    requires ProcessedOne(g, g', v, accepted + rejected, err) && Contains(g'.vertices, t) && t !in rejected
    ensures Claimed(g'.conflicts, inputsOf, t)
  {
    hide ConflictFree, Claims;
    if Contains(g.vertices, t) || t in accepted {
      ClaimsGrow(g.conflicts, g'.conflicts, inputsOf, t);
    } else {
      var id, k :| id in g'.vertices && g'.vertices[id].txs.Some? && 0 <= k < |g'.vertices[id].txs.value| &&
        g'.vertices[id].txs.value[k].id == t;
      assert id == v.id;
      forall i | i in inputsOf(t) ensures t in At(g'.conflicts, i) {
        HonestClaims(v, inputsOf, accepted + rejected, k, i);
      }
    }
  }

  /** A round that takes any of the acceptable transactions keeps the accepted ones apart. */
  lemma SecureRound(vertices: Store, conflicts: Conflicts, accepted: set<ID>, accepted': set<ID>, rejected: set<ID>,
                    chosen: set<ID>, inputsOf: ID -> seq<ID>)
    requires Secure(vertices, conflicts, accepted, rejected, inputsOf) && accepted <= accepted'
    requires forall t :: t in accepted' ==> t in accepted || Accepts(vertices, conflicts, accepted, rejected, chosen, t)
    ensures Secure(vertices, conflicts, accepted', rejected, inputsOf)
  {
    forall t | t in accepted' && t !in accepted
      ensures Claimed(conflicts, inputsOf, t) && t !in rejected && Alone(conflicts, rejected, inputsOf, t)
    {
      TakenIsAlone(vertices, conflicts, accepted, rejected, chosen, inputsOf, t);
    }
    hide Contains, Accepts, AllHonest;
    forall a, b, i | a in accepted' && b in accepted' && a != b && i in inputsOf(a) ensures i !in inputsOf(b) {
    }
  }

  ghost predicate Alone(conflicts: Conflicts, rejected: set<ID>, inputsOf: ID -> seq<ID>, t: ID) {
    forall i, x :: i in inputsOf(t) && x in At(conflicts, i) ==> x == t || x in rejected
  }

  // ---- What holds when vertices may fail to verify ----

  /** Transactions spend what their identifiers say, wherever their inputs can be read. */
  ghost predicate AllStable(vertices: Store, inputsOf: ID -> seq<ID>) {
    forall id :: id in vertices ==> Stable(vertices[id], inputsOf)
  }

  ghost predicate Stable(v: Vertex, inputsOf: ID -> seq<ID>) {
    forall k :: v.txs.Some? && 0 <= k < |v.txs.value| && v.txs.value[k].inputs.Some? ==>
      v.txs.value[k].inputs.value == inputsOf(v.txs.value[k].id)
  }

  /** Of two accepted transactions with a common input, one was claimed on it by no verifying vertex. */
  ghost predicate OneUnclaimed(conflicts: Conflicts, accepted: set<ID>, inputsOf: ID -> seq<ID>) {
    forall a, b, i :: a in accepted && b in accepted && a != b && i in inputsOf(a) && i in inputsOf(b) ==>
      a !in At(conflicts, i) || b !in At(conflicts, i)
  }

  lemma StableInsert(vertices: Store, v: Vertex, inputsOf: ID -> seq<ID>)
    requires AllStable(vertices, inputsOf) && Stable(v, inputsOf)
    ensures AllStable(Insert(vertices, v), inputsOf)
  {
  }

  /** Only claims of undecided transactions are added, so none of an accepted one. */
  lemma UnclaimedProcess(g: Graph, g': Graph, v: Vertex, accepted: set<ID>, rejected: set<ID>, err: bool,
                         inputsOf: ID -> seq<ID>)
    requires OneUnclaimed(g.conflicts, accepted, inputsOf) && ProcessedOne(g, g', v, accepted + rejected, err)
    ensures OneUnclaimed(g'.conflicts, accepted, inputsOf)
  {
    if v.id !in g.vertices {
      forall t, i | t in accepted ensures t in At(g'.conflicts, i) ==> t in At(g.conflicts, i) {
        DecidedClaimNothing(v, accepted + rejected, i, t);
      }
      hide ProcessedOne;
    }
  }

  lemma DecidedClaimNothing(v: Vertex, decided: set<ID>, input: ID, t: ID)
    requires t in decided
    ensures !Claims(v, decided, input, t)
  {
  }

  lemma UnclaimedRound(vertices: Store, conflicts: Conflicts, accepted: set<ID>, accepted': set<ID>, rejected: set<ID>,
                       chosen: set<ID>, inputsOf: ID -> seq<ID>)
    requires AllStable(vertices, inputsOf) && OneUnclaimed(conflicts, accepted, inputsOf)
    requires forall t :: t in accepted ==> t !in rejected
    requires forall t :: t in accepted' ==> t in accepted || Accepts(vertices, conflicts, accepted, rejected, chosen, t)
    ensures OneUnclaimed(conflicts, accepted', inputsOf)
  {
    forall t | t in accepted' && t !in accepted ensures t !in rejected && Alone(conflicts, rejected, inputsOf, t) {
      AcceptedIsAlone(vertices, conflicts, accepted, rejected, chosen, inputsOf, t);
    }
    hide Accepts, AllStable;
  }

  lemma AcceptedIsAlone(vertices: Store, conflicts: Conflicts, accepted: set<ID>, rejected: set<ID>, chosen: set<ID>,
                        inputsOf: ID -> seq<ID>, t: ID)
    requires AllStable(vertices, inputsOf) && Accepts(vertices, conflicts, accepted, rejected, chosen, t)
    ensures t !in accepted && t !in rejected && Alone(conflicts, rejected, inputsOf, t)
  {
    var id :| id in chosen && id in vertices && vertices[id].txs.Some? &&
      TxsAccept(conflicts, accepted, rejected, vertices[id].txs.value, t);
    var txs := vertices[id].txs.value;
    var k :| 0 <= k < |txs| && txs[k].id == t && t !in accepted && t !in rejected && Free(conflicts, rejected, txs[k]);
    assert Stable(vertices[id], inputsOf);
    assert txs[k].inputs.value == inputsOf(t);
  }

  // ---- Rivals that are both claimed ----

  /** Two undecided transactions with a common input, both claimed on it. */
  ghost predicate Stuck(conflicts: Conflicts, accepted: set<ID>, rejected: set<ID>, inputsOf: ID -> seq<ID>, a: ID,
                        b: ID)
  {
    && a != b && a !in accepted + rejected && b !in accepted + rejected
    && exists i :: i in inputsOf(a) && i in inputsOf(b) && a in At(conflicts, i) && b in At(conflicts, i)
  }

  lemma StuckProcess(g: Graph, g': Graph, v: Vertex, accepted: set<ID>, rejected: set<ID>, err: bool,
                     inputsOf: ID -> seq<ID>, a: ID, b: ID)
    requires ProcessedOne(g, g', v, accepted + rejected, err) && Stuck(g.conflicts, accepted, rejected, inputsOf, a, b)
    ensures Stuck(g'.conflicts, accepted, rejected, inputsOf, a, b)
  {
    hide Claims;
    var i :| i in inputsOf(a) && i in inputsOf(b) && a in At(g.conflicts, i) && b in At(g.conflicts, i);
    assert a in At(g'.conflicts, i) && b in At(g'.conflicts, i);
  }

  /** A round accepts neither of the two, as neither is rejected. */
  lemma StuckRound(vertices: Store, conflicts: Conflicts, accepted: set<ID>, accepted': set<ID>, rejected: set<ID>,
                   chosen: set<ID>, inputsOf: ID -> seq<ID>, a: ID, b: ID)
    requires AllStable(vertices, inputsOf) && Stuck(conflicts, accepted, rejected, inputsOf, a, b)
    requires forall t :: t in accepted' ==> t in accepted || Accepts(vertices, conflicts, accepted, rejected, chosen, t)
    ensures Stuck(conflicts, accepted', rejected, inputsOf, a, b)
  {
    if a in accepted' { AcceptedIsAlone(vertices, conflicts, accepted, rejected, chosen, inputsOf, a); }
    if b in accepted' { AcceptedIsAlone(vertices, conflicts, accepted, rejected, chosen, inputsOf, b); }
    hide Accepts, AllStable;
  }

  /** A transaction the round accepts spends an input that another, accepted by then, spends as well. */
  ghost predicate Clash(vertices: Store, conflicts: Conflicts, accepted: set<ID>, rejected: set<ID>, chosen: set<ID>,
                        inputsOf: ID -> seq<ID>)
  {
    exists a, b, i ::
      && Accepts(vertices, conflicts, accepted, rejected, chosen, a)
      && (b in accepted || Accepts(vertices, conflicts, accepted, rejected, chosen, b))
      && a != b && i in inputsOf(a) && i in inputsOf(b)
  }

  /** The cause of a clash: neither spender the round accepts sees the other, which has no claim on the input. */
  lemma ClashIsUnclaimed(vertices: Store, conflicts: Conflicts, accepted: set<ID>, rejected: set<ID>, chosen: set<ID>,
                         inputsOf: ID -> seq<ID>, a: ID, b: ID, i: ID)
    requires AllStable(vertices, inputsOf) && forall t :: t in accepted ==> t !in rejected
    requires Accepts(vertices, conflicts, accepted, rejected, chosen, a) && a != b && i in inputsOf(a)
    requires b in accepted || Accepts(vertices, conflicts, accepted, rejected, chosen, b)
    ensures b !in At(conflicts, i)
  {
    AcceptedIsAlone(vertices, conflicts, accepted, rejected, chosen, inputsOf, a);
    if b !in accepted { AcceptedIsAlone(vertices, conflicts, accepted, rejected, chosen, inputsOf, b); }
    hide Accepts;
  }

  /** Exactly when a round keeps the accepted transactions apart, read off the state before it. */
  lemma ApartIffNoClash(vertices: Store, conflicts: Conflicts, accepted: set<ID>, accepted': set<ID>, rejected: set<ID>,
                        chosen: set<ID>, inputsOf: ID -> seq<ID>)
    requires AllStable(vertices, inputsOf) && ConflictFree(accepted, inputsOf)
    requires forall t :: t in accepted ==> t !in rejected
    requires forall t :: t in accepted' <==>
             t in accepted || Accepts(vertices, conflicts, accepted, rejected, chosen, t)
    ensures ConflictFree(accepted', inputsOf) <==> !Clash(vertices, conflicts, accepted, rejected, chosen, inputsOf)
  {
    hide Accepts;
    if !Clash(vertices, conflicts, accepted, rejected, chosen, inputsOf) {
      forall a, b, i | a in accepted' && b in accepted' && a != b && i in inputsOf(a) ensures i !in inputsOf(b) {
      }
    }
  }

  /** Where every vertex was honest there is never a clash. */
  lemma SecureNoClash(vertices: Store, conflicts: Conflicts, accepted: set<ID>, rejected: set<ID>, chosen: set<ID>,
                      inputsOf: ID -> seq<ID>)
    requires Secure(vertices, conflicts, accepted, rejected, inputsOf)
    ensures !Clash(vertices, conflicts, accepted, rejected, chosen, inputsOf)
  {
    hide Accepts, AllHonest, Contains, ConflictFree;
    forall t | Accepts(vertices, conflicts, accepted, rejected, chosen, t)
      ensures Claimed(conflicts, inputsOf, t) && t !in rejected && Alone(conflicts, rejected, inputsOf, t)
    {
      TakenIsAlone(vertices, conflicts, accepted, rejected, chosen, inputsOf, t);
    }
  }

  lemma TakenIsAlone(vertices: Store, conflicts: Conflicts, accepted: set<ID>, rejected: set<ID>, chosen: set<ID>,
                     inputsOf: ID -> seq<ID>, t: ID)
    requires Secure(vertices, conflicts, accepted, rejected, inputsOf)
    requires Accepts(vertices, conflicts, accepted, rejected, chosen, t)
    ensures Claimed(conflicts, inputsOf, t) && t !in rejected && Alone(conflicts, rejected, inputsOf, t)
  {
    hide ConflictFree;
    var id :| id in chosen && id in vertices && vertices[id].txs.Some? &&
      TxsAccept(conflicts, accepted, rejected, vertices[id].txs.value, t);
    var txs := vertices[id].txs.value;
    var k :| 0 <= k < |txs| && txs[k].id == t && t !in accepted && t !in rejected && Free(conflicts, rejected, txs[k]);
    assert Honest(vertices[id], inputsOf);
    assert Contains(vertices, t);
  }

  /** With stable inputs the round's outcome for a transaction shows at any vertex that holds it. */
  lemma AcceptedHere(vertices: Store, conflicts: Conflicts, accepted: set<ID>, rejected: set<ID>, chosen: set<ID>,
                     inputsOf: ID -> seq<ID>, id: ID, k: nat)
    requires AllHonest(vertices, inputsOf) && id in vertices && id in chosen && k < |vertices[id].txs.value|
    ensures Accepts(vertices, conflicts, accepted, rejected, chosen, vertices[id].txs.value[k].id) <==>
            TxsAccept(conflicts, accepted, rejected, vertices[id].txs.value, vertices[id].txs.value[k].id)
  {
    assert Honest(vertices[id], inputsOf);
    var t := vertices[id].txs.value[k].id;
    if Accepts(vertices, conflicts, accepted, rejected, chosen, t) {
      var w :| w in chosen && w in vertices && vertices[w].txs.Some? &&
        TxsAccept(conflicts, accepted, rejected, vertices[w].txs.value, t);
      assert Honest(vertices[w], inputsOf);
      var j :| 0 <= j < |vertices[w].txs.value| && vertices[w].txs.value[j].id == t && t !in accepted &&
        t !in rejected &&
        Free(conflicts, rejected, vertices[w].txs.value[j]);
      assert vertices[id].txs.value[k].inputs == vertices[w].txs.value[j].inputs;
    }
  }
}

/** The parallel consensus engine. */
module Engine {
  import opened Common
  import opened Vertices
  import Dag
  import PrioritySort
  import opened EngineModel
  import opened Decisions

  /** A vertex handed to a batch: only some support parallel processing. */
  datatype Candidate = Parallel(vertex: Vertex) | Unsupported(id: ID)

  function Supported(list: seq<Candidate>): seq<Vertex> {
    if list == [] then []
    else Supported(list[..|list| - 1]) + if list[|list| - 1].Parallel? then [list[|list| - 1].vertex] else []
  }

  lemma {:induction false} SupportedMeans(list: seq<Candidate>, v: Vertex)
    ensures v in Supported(list) <==> Parallel(v) in list
  {
    if list != [] {
      var before, last := list[..|list| - 1], list[|list| - 1];
      assert list == before + [last];
      SupportedMeans(before, v);
    }
  }

  /** What a batch stores and when it fails, read off the list it was given. */
  lemma BatchMeans(g: Graph, g': Graph, list: seq<Candidate>, decided: set<ID>, err: bool)
    requires Processed(g, g', Supported(list), decided, err) && Determined(Supported(list)) && Keyed(g.vertices)
    ensures forall v :: Parallel(v) in list ==> v.id in g'.vertices
    ensures forall id :: id in g.vertices ==> id in g'.vertices && g'.vertices[id] == g.vertices[id]
    ensures forall id :: id in g'.vertices && id !in g.vertices ==>
              Parallel(g'.vertices[id]) in list && g'.vertices[id].id == id
    ensures err <==> exists v :: Parallel(v) in list && v.id !in g.vertices && Fails(v, decided)
    ensures forall v, i, t :: Parallel(v) in list && v.id !in g.vertices && Claims(v, decided, i, t) ==>
              t in At(g'.conflicts, i)
    ensures forall i, t :: t in At(g'.conflicts, i) && t !in At(g.conflicts, i) ==>
              exists v :: Parallel(v) in list && v.id !in g.vertices && Claims(v, decided, i, t)
  {
    var vs := Supported(list);
    InsertAllMeans(g.vertices, vs);
    forall v ensures v in vs <==> Parallel(v) in list {
      SupportedMeans(list, v);
    }
    hide Supported, Fails, Claims, InsertAll;
    forall i, t | t in At(g'.conflicts, i) && t !in At(g.conflicts, i)
      ensures exists v :: Parallel(v) in list && v.id !in g.vertices && Claims(v, decided, i, t)
    {
      var v :| v in vs && v.id !in g.vertices && Claims(v, decided, i, t);
      assert Parallel(v) in list;
    }
  }

  lemma DeterminedMeans(list: seq<Candidate>)
    requires forall v, w :: Parallel(v) in list && Parallel(w) in list && v.id == w.id ==> v == w
    ensures Determined(Supported(list))
  {
    forall v ensures v in Supported(list) <==> Parallel(v) in list {
      SupportedMeans(list, v);
    }
  }

  /** The claims of a vertex whose transactions all give their inputs. */
  lemma ClaimsWhole(v: Vertex, decided: set<ID>, k: nat, i: ID)
    requires v.parents.Some? && v.verifies && v.txs.Some? && !TxsFail(v.txs.value, decided) && k < |v.txs.value|
    requires v.txs.value[k].id !in decided && i in v.txs.value[k].inputs.value
    ensures Claims(v, decided, i, v.txs.value[k].id)
  {
    assert Reached(v.txs.value, decided, k);
  }

  class ParallelEngine {
    const maxWorkers: nat
    ghost const inputsOf: ID -> seq<ID>
    var vertices: Store
    var edgeMap: map<ID, seq<ID>>
    var conflicts: Conflicts
    var txsAccepted: set<ID>
    var txsRejected: set<ID>

    ghost predicate Valid()
      reads this
    {
      && maxWorkers > 0 && Keyed(vertices) && Dag.EdgesOf(vertices, edgeMap) && NoEmpty(conflicts)
      && txsRejected == {}
    }

    /** Two claimed rivals that are not decided. */
    ghost predicate StuckPair(a: ID, b: ID)
      reads this
    {
      Stuck(conflicts, txsAccepted, txsRejected, inputsOf, a, b)
    }

    /** Accepted transactions are apart, and stay so. */
    ghost predicate Safe()
      reads this
    {
      Secure(vertices, conflicts, txsAccepted, txsRejected, inputsOf)
    }

    /** Whatever fails to verify: of two accepted transactions with a common input one was never claimed on it. */
    ghost predicate Accountable()
      reads this
    {
      AllStable(vertices, inputsOf) && OneUnclaimed(conflicts, txsAccepted, inputsOf)
    }

    ghost function Contents(): Graph
      reads this
    {
      Graph(vertices, conflicts)
    }

    constructor (workers: int, ghost inputs: ID -> seq<ID>)
      ensures Valid() && Safe() && Accountable() && vertices == map[] && txsAccepted == {} && txsRejected == {}
      ensures maxWorkers == (if workers <= 0 then 4 else workers) && inputsOf == inputs
    {
      maxWorkers := if workers <= 0 then 4 else workers;
      inputsOf := inputs;
      vertices, edgeMap, conflicts, txsAccepted, txsRejected := map[], map[], map[], {}, {};
    }

    method AddClaims(t: ID, inputs: seq<ID>)
      requires NoEmpty(conflicts)
      modifies `conflicts
      ensures NoEmpty(conflicts)
      ensures forall i, x :: x in At(conflicts, i) <==> x in At(old(conflicts), i) || (x == t && i in inputs)
    {
      for k := 0 to |inputs|
        invariant NoEmpty(conflicts)
        invariant forall i, x :: x in At(conflicts, i) <==> x in At(old(conflicts), i) || (x == t && i in inputs[..k])
      {
        assert inputs[..k + 1] == inputs[..k] + [inputs[k]];
        conflicts := conflicts[inputs[k] := At(conflicts, inputs[k]) + {t}];
      }
      assert inputs[..|inputs|] == inputs;
    }

    method AddTxs(txs: seq<Tx>) returns (err: bool)
      requires NoEmpty(conflicts)
      modifies `conflicts
      ensures NoEmpty(conflicts)
      ensures err <==> TxsFail(txs, txsAccepted + txsRejected)
      ensures forall i, x :: x in At(conflicts, i) <==>
                             x in At(old(conflicts), i) || TxsClaim(txs, txsAccepted + txsRejected, i, x)
    {
      ghost var decided := txsAccepted + txsRejected;
      hide NoEmpty;
      for k := 0 to |txs|
        invariant NoEmpty(conflicts) && !TxsFail(txs[..k], decided)
        invariant forall i, x :: x in At(conflicts, i) <==>
                  x in At(old(conflicts), i) || TxsClaim(txs[..k], decided, i, x)
      {
        var tx := txs[k];
        assert txs[..k + 1] == txs[..k] + [tx];
        forall i, x
          ensures TxsClaim(txs[..k + 1], decided, i, x) <==>
                  TxsClaim(txs[..k], decided, i, x) ||
                    (tx.id !in decided && tx.inputs.Some? && x == tx.id && i in tx.inputs.value)
        {
          OneMoreClaim(txs[..k], tx, decided, i, x);
        }
        OneMoreFail(txs[..k], tx, decided);
        if tx.id in txsAccepted || tx.id in txsRejected { continue; }
        if tx.inputs.None? {
          forall i, x ensures TxsClaim(txs, decided, i, x) <==> TxsClaim(txs[..k], decided, i, x) {
            StopsHere(txs, k, decided, i, x);
          }
          return true;
        }
        AddClaims(tx.id, tx.inputs.value);
      }
      assert txs[..|txs|] == txs;
      return false;
    }

    /** Stores a vertex and its claims; one already stored changes nothing. */
    method ProcessVertex(v: Vertex) returns (err: bool)
      requires Valid()
      modifies `vertices, `edgeMap, `conflicts
      ensures Valid()
      ensures ProcessedOne(old(Contents()), Contents(), v, txsAccepted + txsRejected, err)
      ensures vertices == if v.id in old(vertices) then old(vertices) else old(vertices)[v.id := v]
      ensures err <==> v.id !in old(vertices) &&
                       (v.parents.None? || (!v.verifies && v.rejectFails) ||
                        (v.verifies && (v.txs.None? ||
                                        exists k :: 0 <= k < |v.txs.value| && v.txs.value[k].inputs.None? &&
                                          v.txs.value[k].id !in txsAccepted + txsRejected)))
      ensures !err && v.id !in old(vertices) && v.verifies ==>
                forall k, i ::
                  (0 <= k < |v.txs.value| && v.txs.value[k].id !in txsAccepted + txsRejected &&
                   i in v.txs.value[k].inputs.value) ==> v.txs.value[k].id in At(conflicts, i)
      ensures !v.verifies ==> conflicts == old(conflicts)
      ensures old(Safe()) && Honest(v, inputsOf) ==> Safe()
      ensures old(Accountable()) && Stable(v, inputsOf) ==> Accountable()
      ensures forall a, b :: old(StuckPair(a, b)) ==> StuckPair(a, b)
    {
      err := Process(v);
      if !err && v.id !in old(vertices) && v.verifies {
        ghost var decided := txsAccepted + txsRejected;
        forall k, i | 0 <= k < |v.txs.value| && v.txs.value[k].id !in decided && i in v.txs.value[k].inputs.value
          ensures v.txs.value[k].id in At(conflicts, i)
        {
          ClaimsWhole(v, decided, k, i);
        }
      }
      forall a, b | old(StuckPair(a, b)) ensures StuckPair(a, b) {
        StuckProcess(old(Contents()), Contents(), v, txsAccepted, txsRejected, err, inputsOf, a, b);
      }
      hide Stuck;
      if old(Accountable()) && Stable(v, inputsOf) {
        StableInsert(old(vertices), v, inputsOf);
        UnclaimedProcess(old(Contents()), Contents(), v, txsAccepted, txsRejected, err, inputsOf);
      }
      if old(Safe()) && Honest(v, inputsOf) {
        hide Honest, Secure, ProcessedOne;
        SecureProcess(old(Contents()), Contents(), v, txsAccepted, txsRejected, err, inputsOf);
      }
    }

    method Process(v: Vertex) returns (err: bool)
      requires Valid()
      modifies `vertices, `edgeMap, `conflicts
      ensures Valid()
      ensures ProcessedOne(old(Contents()), Contents(), v, txsAccepted + txsRejected, err)
      ensures !v.verifies ==> conflicts == old(conflicts)
    {
      if v.id in vertices { return false; }
      hide NoEmpty, TxsFail, TxsClaim;
      Dag.EdgesAfter(vertices, edgeMap, v);
      vertices := vertices[v.id := v];
      if v.parents.None? { return true; }
      edgeMap := edgeMap[v.id := v.parents.value];
      hide Dag.EdgesOf;
      if !v.verifies { return v.rejectFails; }
      if v.txs.None? { return true; }
      err := AddTxs(v.txs.value);
    }

    /**
     Processes a batch with at most maxWorkers at work, whichever of them comes next. The outcome is
     that of processing the supported vertices one by one, in the order they were given in.
     */
    method BatchProcessVertices(list: seq<Candidate>) returns (err: bool)
      requires Valid() && forall v, w :: Parallel(v) in list && Parallel(w) in list && v.id == w.id ==> v == w
      modifies `vertices, `edgeMap, `conflicts
      ensures Valid()
      ensures Processed(old(Contents()), Contents(), Supported(list), txsAccepted + txsRejected, err)
      ensures forall v :: Parallel(v) in list ==> v.id in vertices
      ensures forall id :: id in old(vertices) ==> id in vertices && vertices[id] == old(vertices)[id]
      ensures forall id :: id in vertices && id !in old(vertices) ==> Parallel(vertices[id]) in list
      ensures err <==> exists v :: Parallel(v) in list && v.id !in old(vertices) && Fails(v, txsAccepted + txsRejected)
      ensures forall v, i, t ::
                (Parallel(v) in list && v.id !in old(vertices) && Claims(v, txsAccepted + txsRejected, i, t)) ==>
                t in At(conflicts, i)
      ensures forall i, t :: t in At(conflicts, i) && t !in At(old(conflicts), i) ==>
                exists v :: Parallel(v) in list && v.id !in old(vertices) && Claims(v, txsAccepted + txsRejected, i, t)
      ensures old(Safe()) && (forall v :: Parallel(v) in list ==> Honest(v, inputsOf)) ==> Safe()
      ensures old(Accountable()) && (forall v :: Parallel(v) in list ==> Stable(v, inputsOf)) ==> Accountable()
      ensures forall a, b :: old(StuckPair(a, b)) ==> StuckPair(a, b)
    {
      DeterminedMeans(list);
      var batch := Convert(list);
      var sorted := Sorted(batch);
      SameMembers(sorted, batch);
      forall v ensures v in sorted <==> Parallel(v) in list {
        SupportedMeans(list, v);
      }
      hide Supported, Fails, Claims, Processed, Secure, Honest, Stable, AllStable, OneUnclaimed, Stuck, Determined,
           PrioritySort.Permutation;
      ghost var done;
      err, done := Work(sorted);
      SameMembers(done, sorted);
      AnyOrder(old(Contents()), Contents(), done, batch, txsAccepted + txsRejected, err);
      BatchMeans(old(Contents()), Contents(), list, txsAccepted + txsRejected, err);
    }

    static method Sorted(batch: seq<Vertex>) returns (sorted: seq<Vertex>)
      ensures PrioritySort.Descending(sorted) && PrioritySort.Permutation(sorted, batch)
    {
      var a := new Vertex[|batch|](i requires 0 <= i < |batch| => batch[i]);
      assert a[..] == batch;
      PrioritySort.SortVerticesByPriority(a);
      return a[..];
    }

    method Convert(list: seq<Candidate>) returns (batch: seq<Vertex>)
      ensures batch == Supported(list)
    {
      batch := [];
      for k := 0 to |list|
        invariant batch == Supported(list[..k])
      {
        assert list[..k + 1][..k] == list[..k];
        if list[k].Parallel? { batch := batch + [list[k].vertex]; }
      }
      assert list[..|list|] == list;
    }

    /** The workers: a vertex is launched when a slot is free, and any launched one is processed next. */
    method Work(sorted: seq<Vertex>) returns (err: bool, ghost done: seq<Vertex>)
      requires Valid() && Determined(sorted)
      modifies `vertices, `edgeMap, `conflicts
      ensures Valid() && PrioritySort.Permutation(done, sorted)
      ensures Processed(old(Contents()), Contents(), done, txsAccepted + txsRejected, err)
      ensures old(Safe()) && (forall v :: v in sorted ==> Honest(v, inputsOf)) ==> Safe()
      ensures old(Accountable()) && (forall v :: v in sorted ==> Stable(v, inputsOf)) ==> Accountable()
      ensures forall a, b :: old(StuckPair(a, b)) ==> StuckPair(a, b)
    {
      var launched, running: seq<Vertex> := 0, [];
      err, done := false, [];
      ProcessedNone(Contents(), txsAccepted + txsRejected);
      hide Honest, Secure, Stable, AllStable, OneUnclaimed, Stuck, Determined, Processed;
      while launched < |sorted| || running != []
        invariant launched <= |sorted| && |running| <= maxWorkers && Valid()
        invariant Shared(sorted[..launched], done, running)
        invariant Processed(old(Contents()), Contents(), done, txsAccepted + txsRejected, err)
        invariant old(Safe()) && (forall v :: v in sorted ==> Honest(v, inputsOf)) ==> Safe()
        invariant old(Accountable()) && (forall v :: v in sorted ==> Stable(v, inputsOf)) ==> Accountable()
        invariant forall a, b :: old(StuckPair(a, b)) ==> StuckPair(a, b)
        decreases |sorted| - launched, |running|
      {
        var eager: bool := *;
        if launched < |sorted| && (running == [] || (|running| < maxWorkers && eager)) {
          Launch(sorted, launched, done, running);
          running := running + [sorted[launched]];
          launched := launched + 1;
        } else {
          var r :| 0 <= r < |running|;
          var v := running[r];
          Complete(sorted, launched, done, running, r);
          running := running[..r] + running[r + 1..];
          ghost var before := Contents();
          var failed := ProcessVertex(v);
          hide ProcessedOne;
          ProcessedMore(old(Contents()), before, Contents(), done, v, txsAccepted + txsRejected, err, failed);
          err, done := err || failed, done + [v];
        }
      }
      assert sorted[..|sorted|] == sorted;
    }

    /** The stored vertices that are no stored vertex's parent, recomputed, in any order. */
    method GetFrontier() returns (frontier: seq<ID>)
      requires Valid()
      ensures forall id :: id in frontier <==> id in Childless(vertices)
      ensures |frontier| == |Childless(vertices)|
    {
      var isParent := Parents();
      frontier := [];
      var todo := vertices.Keys;
      ghost var found: set<ID> := {};
      while todo != {}
        invariant todo <= vertices.Keys && |frontier| == |found|
        invariant forall id :: id in frontier <==> id in found
        invariant forall id :: id in found <==> id in vertices && id !in todo && !HasChild(vertices, id)
        decreases todo
      {
        var id := Pick(todo);
        todo := todo - {id};
        if id !in isParent {
          frontier := frontier + [id];
          found := found + {id};
        }
      }
      SameSet(found, Childless(vertices));
    }

    method Parents() returns (isParent: set<ID>)
      requires Valid()
      ensures forall p :: p in isParent <==> HasChild(vertices, p)
    {
      isParent := {};
      var todo := edgeMap.Keys;
      while todo != {}
        invariant todo <= edgeMap.Keys
        invariant forall p :: p in isParent <==> exists c :: c !in todo && IsParent(vertices, p, c)
        decreases todo
      {
        var id := Pick(todo);
        var more := set p | p in edgeMap[id];
        OneMoreChild(vertices, edgeMap, todo, id, isParent, more);
        isParent := isParent + more;
        todo := todo - {id};
      }
    }

    /** Whether every other claim on the inputs is rejected. */
    method CanAccept(tx: Tx) returns (can: bool)
      requires tx.inputs.Some?
      ensures can <==> Free(conflicts, txsRejected, tx)
    {
      var inputs := tx.inputs.value;
      for k := 0 to |inputs|
        invariant forall i, t :: i in inputs[..k] && t in At(conflicts, i) ==> t == tx.id || t in txsRejected
      {
        assert inputs[..k + 1] == inputs[..k] + [inputs[k]];
        var others := At(conflicts, inputs[k]) - {tx.id} - txsRejected;
        if others != {} {
          var t := Pick(others);
          return false;
        }
        assert forall t :: t in At(conflicts, inputs[k]) ==> t == tx.id || t in txsRejected || t in others;
      }
      assert inputs[..|inputs|] == inputs;
      return true;
    }

    /** Rejects every stored occurrence of a transaction. */
    method RejectEverywhere(t: ID) returns (err: bool)
      modifies `txsRejected
      ensures old(txsRejected) <= txsRejected <= old(txsRejected) + {t}
      ensures err ==> !Untroubled(vertices)
    {
      var todo := vertices.Keys;
      while todo != {}
        invariant todo <= vertices.Keys
        invariant old(txsRejected) <= txsRejected <= old(txsRejected) + {t}
        decreases todo
      {
        var id := Pick(todo);
        todo := todo - {id};
        var txs := if vertices[id].txs.Some? then vertices[id].txs.value else [];
        for k := 0 to |txs|
          invariant old(txsRejected) <= txsRejected <= old(txsRejected) + {t}
        {
          if txs[k].id == t {
            if txs[k].rejectFails {
              assert !Quiet(vertices[id]);
              return true;
            }
            txsRejected := txsRejected + {t};
          }
        }
      }
      return false;
    }

    /** Rejecting what conflicts with an acceptable transaction rejects nothing new. */
    method RejectConflicts(tx: Tx) returns (err: bool)
      requires Free(conflicts, txsRejected, tx)
      modifies `txsRejected
      ensures txsRejected == old(txsRejected)
      ensures err ==> !Untroubled(vertices)
    {
      var inputs := tx.inputs.value;
      for k := 0 to |inputs|
        invariant txsRejected == old(txsRejected)
      {
        var todo := At(conflicts, inputs[k]);
        while todo != {}
          invariant todo <= At(conflicts, inputs[k]) && txsRejected == old(txsRejected)
          decreases todo
        {
          var t := Pick(todo);
          todo := todo - {t};
          if t == tx.id { continue; }
          assert t in old(txsRejected);
          err := RejectEverywhere(t);
          assert txsRejected == old(txsRejected);
          if err { return; }
        }
      }
      return false;
    }

    method DecideTx(tx: Tx) returns (err: bool)
      modifies `txsAccepted, `txsRejected
      ensures txsRejected == old(txsRejected)
      ensures var takes := tx.id !in old(txsAccepted) && tx.id !in txsRejected && Free(conflicts, txsRejected, tx);
              && (!err ==> txsAccepted == old(txsAccepted) + if takes then {tx.id} else {})
              && old(txsAccepted) <= txsAccepted <= old(txsAccepted) + if takes then {tx.id} else {}
      ensures err ==> tx.inputs.None? || tx.acceptFails || !Untroubled(vertices)
    {
      if tx.id in txsAccepted || tx.id in txsRejected { return false; }
      if tx.inputs.None? { return true; }
      var can := CanAccept(tx);
      if !can { return false; }
      if tx.acceptFails { return true; }
      txsAccepted := txsAccepted + {tx.id};
      err := RejectConflicts(tx);
    }

    /** One vertex of a round: accepts its acceptable transactions, whatever was accepted before. */
    method DecideTxsOf(txs: seq<Tx>) returns (err: bool)
      modifies `txsAccepted, `txsRejected
      ensures txsRejected == old(txsRejected) && old(txsAccepted) <= txsAccepted
      ensures forall t :: t in txsAccepted ==>
              t in old(txsAccepted) || TxsAccept(conflicts, old(txsAccepted), txsRejected, txs, t)
      ensures !err ==> forall t :: TxsAccept(conflicts, old(txsAccepted), txsRejected, txs, t) ==> t in txsAccepted
      ensures err ==> !Untroubled(vertices) || exists k :: 0 <= k < |txs| && (txs[k].inputs.None? || txs[k].acceptFails)
    {
      ghost var accepted := txsAccepted;
      hide Free, Untroubled;
      for k := 0 to |txs|
        invariant txsRejected == old(txsRejected) && accepted <= txsAccepted
        invariant forall t :: t in txsAccepted <==>
                  t in accepted || TxsAccept(conflicts, accepted, txsRejected, txs[..k], t)
      {
        assert txs[..k + 1] == txs[..k] + [txs[k]];
        forall t ensures TxsAccept(conflicts, accepted, txsRejected, txs[..k + 1], t) <==>
                         TxsAccept(conflicts, accepted, txsRejected, txs[..k], t) ||
                         (t == txs[k].id && t !in accepted && t !in txsRejected && Free(conflicts, txsRejected, txs[k]))
        {
          OneMoreTx(conflicts, accepted, txsRejected, txs[..k], txs[k], t);
        }
        err := DecideTx(txs[k]);
        if err {
          forall t | TxsAccept(conflicts, accepted, txsRejected, txs[..k + 1], t)
            ensures TxsAccept(conflicts, accepted, txsRejected, txs, t)
          {
            Longer(conflicts, accepted, txsRejected, txs, k + 1, t);
          }
          return;
        }
      }
      assert txs[..|txs|] == txs;
      return false;
    }

    method AllDecided(txs: seq<Tx>) returns (all: bool)
      ensures all <==> Decided(txs, txsAccepted, txsRejected)
    {
      for k := 0 to |txs|
        invariant Decided(txs[..k], txsAccepted, txsRejected)
      {
        if txs[k].id in txsAccepted || txs[k].id in txsRejected { continue; }
        return false;
      }
      assert txs[..|txs|] == txs;
      return true;
    }

    /** One step of a round, after the frontier vertices already visited. */
    method DecideVertex(id: ID, ghost accepted: set<ID>, ghost visited: set<ID>) returns (err: bool, all: bool)
      requires id in vertices && Taken(vertices, conflicts, accepted, txsAccepted, txsRejected, visited)
      modifies `txsAccepted, `txsRejected
      ensures txsRejected == old(txsRejected)
      ensures TakenAtMost(vertices, conflicts, accepted, txsAccepted, txsRejected, visited + {id})
      ensures !err ==> Taken(vertices, conflicts, accepted, txsAccepted, txsRejected, visited + {id})
      ensures !err ==> vertices[id].txs.Some? && (all <==> Decided(vertices[id].txs.value, txsAccepted, txsRejected))
      ensures err ==> !Untroubled(vertices)
    {
      var v := vertices[id];
      if v.txs.None? {
        WithinGrows(vertices, conflicts, accepted, txsAccepted, txsRejected, visited, id);
        assert !Quiet(v);
        return true, false;
      }
      err := DecideTxsOf(v.txs.value);
      VisitOne(vertices, conflicts, accepted, old(txsAccepted), txsAccepted, txsRejected, visited, id);
      hide Taken, Accepts, TxsAccept, TakenAtMost;
      if err {
        assert Untroubled(vertices) ==> Quiet(v);
        return true, false;
      }
      all := AllDecided(v.txs.value);
      if all && v.acceptFails {
        assert !Quiet(v);
        err := true;
      }
    }

    /**
     One decision round over the recomputed frontier. It accepts a set that names no order, rejects
     nothing, and keeps accepted transactions apart; a vertex is finished when all it holds is decided.
     */
    method DecideRound() returns (err: bool, finished: set<ID>)
      requires Valid()
      modifies `txsAccepted, `txsRejected
      ensures Valid() && txsRejected == old(txsRejected)
      ensures TakenAtMost(vertices, conflicts, old(txsAccepted), txsAccepted, txsRejected, Childless(vertices))
      ensures !err ==> Taken(vertices, conflicts, old(txsAccepted), txsAccepted, txsRejected, Childless(vertices))
      ensures !err ==> forall t :: t in txsAccepted <==>
                (t in old(txsAccepted) ||
                 (t !in txsRejected && exists id, k :: Unopposed(vertices, conflicts, txsRejected, id, k, t)))
      ensures Untroubled(vertices) ==> !err
      ensures old(Safe()) ==> Safe()
      ensures old(Accountable()) ==> Accountable()
      ensures AllStable(vertices, inputsOf) ==> forall a, b :: old(StuckPair(a, b)) ==> StuckPair(a, b)
      ensures !err && AllStable(vertices, inputsOf) && ConflictFree(old(txsAccepted), inputsOf) ==>
                (ConflictFree(txsAccepted, inputsOf) <==>
                 !Clash(vertices, conflicts, old(txsAccepted), txsRejected, Childless(vertices), inputsOf))
      ensures !err && AllHonest(vertices, inputsOf) ==>
                forall id :: id in finished <==>
                  id in Childless(vertices) && Finished(vertices, txsAccepted, txsRejected, id)
    {
      err, finished := VisitFrontier();
      if !err {
        forall t
          ensures t in txsAccepted <==>
                  (t in old(txsAccepted) ||
                   (t !in txsRejected && exists id, k :: Unopposed(vertices, conflicts, txsRejected, id, k, t)))
        {
          TakenMeans(vertices, conflicts, old(txsAccepted), txsAccepted, txsRejected, t);
        }
      }
      hide Unopposed;
      if AllStable(vertices, inputsOf) {
        forall a, b | old(StuckPair(a, b)) ensures StuckPair(a, b) {
          StuckRound(vertices, conflicts, old(txsAccepted), txsAccepted, txsRejected, Childless(vertices), inputsOf,
                     a, b);
        }
      }
      hide Stuck;
      if old(Accountable()) {
        UnclaimedRound(vertices, conflicts, old(txsAccepted), txsAccepted, txsRejected, Childless(vertices), inputsOf);
      }
      if !err && AllStable(vertices, inputsOf) && ConflictFree(old(txsAccepted), inputsOf) {
        ApartIffNoClash(vertices, conflicts, old(txsAccepted), txsAccepted, txsRejected, Childless(vertices), inputsOf);
      }
      if old(Safe()) {
        hide Secure;
        SecureRound(vertices, conflicts, old(txsAccepted), txsAccepted, txsRejected, Childless(vertices), inputsOf);
      }
    }

    method VisitFrontier() returns (err: bool, finished: set<ID>)
      requires Valid()
      modifies `txsAccepted, `txsRejected
      ensures txsRejected == old(txsRejected)
      ensures TakenAtMost(vertices, conflicts, old(txsAccepted), txsAccepted, txsRejected, Childless(vertices))
      ensures !err ==> Taken(vertices, conflicts, old(txsAccepted), txsAccepted, txsRejected, Childless(vertices))
      ensures Untroubled(vertices) ==> !err
      ensures !err && AllHonest(vertices, inputsOf) ==>
                forall id :: id in finished <==>
                  id in Childless(vertices) && Finished(vertices, txsAccepted, txsRejected, id)
    {
      var frontier := GetFrontier();
      ghost var accepted, visited: set<ID> := txsAccepted, {};
      finished := {};
      TakenNone(vertices, conflicts, accepted, txsRejected);
      hide Taken, TakenAtMost, Untroubled, AllHonest, Finished, Childless, Accepts;
      for k := 0 to |frontier|
        invariant txsRejected == old(txsRejected)
        invariant forall id :: id in visited <==> id in frontier[..k]
        invariant Taken(vertices, conflicts, accepted, txsAccepted, txsRejected, visited)
        invariant AllHonest(vertices, inputsOf) ==>
                    forall id :: id in finished <==>
                      id in visited && Finishes(vertices, conflicts, accepted, txsRejected, id)
      {
        var id := frontier[k];
        assert id in Childless(vertices) && frontier[..k + 1] == frontier[..k] + [id];
        ChildlessStored(vertices, id);
        var all;
        err, all := DecideVertex(id, accepted, visited);
        if err {
          WithinMore(vertices, conflicts, accepted, txsAccepted, txsRejected, visited + {id}, Childless(vertices));
          return;
        }
        visited := visited + {id};
        if AllHonest(vertices, inputsOf) {
          FinishesHere(vertices, conflicts, accepted, txsAccepted, txsRejected, visited, inputsOf, id);
        }
        if all { finished := finished + {id}; }
      }
      assert frontier[..|frontier|] == frontier;
      SameSet(visited, Childless(vertices));
      TakenWithin(vertices, conflicts, accepted, txsAccepted, txsRejected, visited);
      if AllHonest(vertices, inputsOf) {
        forall id | id in visited
          ensures Finishes(vertices, conflicts, accepted, txsRejected, id) <==>
                  Finished(vertices, txsAccepted, txsRejected, id)
        {
          ChildlessStored(vertices, id);
          FinishesHere(vertices, conflicts, accepted, txsAccepted, txsRejected, visited, inputsOf, id);
        }
      }
      return false, finished;
    }
  }

  /** The k-th transaction of a stored vertex that nobody builds on, every other claim on its inputs being rejected. */
  ghost predicate Unopposed(vertices: Store, conflicts: Conflicts, rejected: set<ID>, id: ID, k: int, t: ID) {
    && id in vertices && vertices[id].txs.Some? && 0 <= k < |vertices[id].txs.value|
    && vertices[id].txs.value[k].id == t && vertices[id].txs.value[k].inputs.Some?
    && (forall c :: c in vertices && vertices[c].parents.Some? ==> id !in vertices[c].parents.value)
    && (forall i, x :: i in vertices[id].txs.value[k].inputs.value && i in conflicts && x in conflicts[i] ==>
          x == t || x in rejected)
  }

  /** What a round over the frontier accepts, without naming the steps it takes. */
  lemma TakenMeans(vertices: Store, conflicts: Conflicts, accepted: set<ID>, accepted': set<ID>, rejected: set<ID>,
                   t: ID)
    requires Taken(vertices, conflicts, accepted, accepted', rejected, Childless(vertices))
    ensures t in accepted' <==>
            t in accepted || (t !in rejected && exists id, k :: Unopposed(vertices, conflicts, rejected, id, k, t))
  {
    if t in accepted' && t !in accepted {
      var id :| id in Childless(vertices) && id in vertices && vertices[id].txs.Some? &&
        TxsAccept(conflicts, accepted, rejected, vertices[id].txs.value, t);
      var txs := vertices[id].txs.value;
      var k :| 0 <= k < |txs| && txs[k].id == t && Free(conflicts, rejected, txs[k]);
      forall c | c in vertices && vertices[c].parents.Some? ensures id !in vertices[c].parents.value {
        assert !IsParent(vertices, id, c);
      }
      assert forall i, x :: i in conflicts && x in conflicts[i] ==> x in At(conflicts, i);
      assert Unopposed(vertices, conflicts, rejected, id, k, t);
    }
    if t !in accepted && t !in rejected && exists id, k :: Unopposed(vertices, conflicts, rejected, id, k, t) {
      var id, k :| Unopposed(vertices, conflicts, rejected, id, k, t);
      assert id in Childless(vertices);
      assert Free(conflicts, rejected, vertices[id].txs.value[k]);
      assert TxsAccept(conflicts, accepted, rejected, vertices[id].txs.value, t);
    }
  }

  ghost predicate Decided(txs: seq<Tx>, accepted: set<ID>, rejected: set<ID>) {
    forall k :: 0 <= k < |txs| ==> txs[k].id in accepted || txs[k].id in rejected
  }

  ghost predicate Finished(vertices: Store, accepted: set<ID>, rejected: set<ID>, id: ID) {
    id in vertices && vertices[id].txs.Some? && Decided(vertices[id].txs.value, accepted, rejected)
  }

  /** Every transaction of the vertex was decided before the round or is acceptable in it. */
  ghost predicate Finishes(vertices: Store, conflicts: Conflicts, accepted: set<ID>, rejected: set<ID>, id: ID) {
    && id in vertices && vertices[id].txs.Some?
    && forall k :: 0 <= k < |vertices[id].txs.value| ==>
         var t := vertices[id].txs.value[k].id;
         t in accepted || t in rejected || TxsAccept(conflicts, accepted, rejected, vertices[id].txs.value, t)
  }

  /** Exactly what these vertices accept was accepted on top of an earlier set. */
  ghost predicate Taken(vertices: Store, conflicts: Conflicts, accepted: set<ID>, accepted': set<ID>,
                        rejected: set<ID>, chosen: set<ID>)
  {
    forall t :: t in accepted' <==> t in accepted || Accepts(vertices, conflicts, accepted, rejected, chosen, t)
  }

  /** At most what these vertices accept was accepted on top of an earlier set. */
  ghost predicate TakenAtMost(vertices: Store, conflicts: Conflicts, accepted: set<ID>, accepted': set<ID>,
                              rejected: set<ID>, chosen: set<ID>)
  {
    && accepted <= accepted'
    && forall t :: t in accepted' ==> t in accepted || Accepts(vertices, conflicts, accepted, rejected, chosen, t)
  }

  lemma TakenNone(vertices: Store, conflicts: Conflicts, accepted: set<ID>, rejected: set<ID>)
    ensures Taken(vertices, conflicts, accepted, accepted, rejected, {})
  {
  }

  lemma ChildlessStored(vertices: Store, id: ID)
    requires id in Childless(vertices)
    ensures id in vertices
  {
  }

  lemma TakenWithin(vertices: Store, conflicts: Conflicts, accepted: set<ID>, accepted': set<ID>, rejected: set<ID>,
                    chosen: set<ID>)
    requires Taken(vertices, conflicts, accepted, accepted', rejected, chosen)
    ensures TakenAtMost(vertices, conflicts, accepted, accepted', rejected, chosen)
  {
    hide Accepts;
    assert forall t :: t in accepted ==> t in accepted';
    Subset(accepted, accepted');
  }

  lemma Subset(a: set<ID>, b: set<ID>)
    requires forall t :: t in a ==> t in b
    ensures a <= b
  {
    if a - b != {} {
      var x := Any(a - b);
    } else {
      SubsetGeneric(a, b);
    }
  }

  lemma SubsetGeneric<T>(a: set<T>, b: set<T>)
    requires a - b == {}
    ensures a <= b
  {
    forall x | x in a ensures x in b { assert x !in a - b; }
  }

  lemma WithinMore(vertices: Store, conflicts: Conflicts, accepted: set<ID>, accepted': set<ID>, rejected: set<ID>,
                   chosen: set<ID>, more: set<ID>)
    requires TakenAtMost(vertices, conflicts, accepted, accepted', rejected, chosen)
    requires forall id :: id in chosen ==> id in more
    ensures TakenAtMost(vertices, conflicts, accepted, accepted', rejected, more)
  {
    hide TxsAccept;
    forall t | Accepts(vertices, conflicts, accepted, rejected, chosen, t)
      ensures Accepts(vertices, conflicts, accepted, rejected, more, t)
    {
      var id :| id in chosen && id in vertices && vertices[id].txs.Some? &&
        TxsAccept(conflicts, accepted, rejected, vertices[id].txs.value, t);
      assert id in more;
    }
  }

  lemma WithinGrows(vertices: Store, conflicts: Conflicts, accepted: set<ID>, accepted': set<ID>, rejected: set<ID>,
                    visited: set<ID>, id: ID)
    requires Taken(vertices, conflicts, accepted, accepted', rejected, visited)
    ensures TakenAtMost(vertices, conflicts, accepted, accepted', rejected, visited + {id})
  {
    TakenWithin(vertices, conflicts, accepted, accepted', rejected, visited);
    WithinMore(vertices, conflicts, accepted, accepted', rejected, visited, visited + {id});
  }

  /** What a vertex accepts does not depend on what the round accepted before it. */
  lemma Shift(conflicts: Conflicts, accepted: set<ID>, current: set<ID>, rejected: set<ID>, txs: seq<Tx>, t: ID)
    requires t in accepted ==> t in current
    ensures t in current || TxsAccept(conflicts, current, rejected, txs, t) <==>
            t in current || TxsAccept(conflicts, accepted, rejected, txs, t)
  {
    hide Free;
    if t !in current && TxsAccept(conflicts, accepted, rejected, txs, t) {
      var k :| 0 <= k < |txs| && txs[k].id == t && t !in accepted && t !in rejected &&
        Free(conflicts, rejected, txs[k]);
      assert TxsAccept(conflicts, current, rejected, txs, t);
    }
    if t !in current && TxsAccept(conflicts, current, rejected, txs, t) {
      var k :| 0 <= k < |txs| && txs[k].id == t && t !in current && t !in rejected && Free(conflicts, rejected, txs[k]);
      assert TxsAccept(conflicts, accepted, rejected, txs, t);
    }
  }

  lemma VisitOne(vertices: Store, conflicts: Conflicts, accepted: set<ID>, current: set<ID>, next: set<ID>,
                 rejected: set<ID>, visited: set<ID>, id: ID)
    requires id in vertices && vertices[id].txs.Some?
    requires Taken(vertices, conflicts, accepted, current, rejected, visited)
    requires current <= next
    requires forall t :: t in next ==>
             t in current || TxsAccept(conflicts, current, rejected, vertices[id].txs.value, t)
    ensures TakenAtMost(vertices, conflicts, accepted, next, rejected, visited + {id})
    ensures (forall t :: TxsAccept(conflicts, current, rejected, vertices[id].txs.value, t) ==> t in next) ==>
              Taken(vertices, conflicts, accepted, next, rejected, visited + {id})
  {
    hide TxsAccept, Accepts;
    forall t
      ensures t in current || TxsAccept(conflicts, current, rejected, vertices[id].txs.value, t) <==>
              t in accepted || Accepts(vertices, conflicts, accepted, rejected, visited + {id}, t)
    {
      Shift(conflicts, accepted, current, rejected, vertices[id].txs.value, t);
      AcceptsMore(vertices, conflicts, accepted, rejected, visited, id, t);
    }
    assert forall t :: t in accepted ==> t in next;
    Subset(accepted, next);
  }

  lemma FinishesHere(vertices: Store, conflicts: Conflicts, accepted: set<ID>, current: set<ID>, rejected: set<ID>,
                     visited: set<ID>, inputsOf: ID -> seq<ID>, id: ID)
    requires AllHonest(vertices, inputsOf) && id in vertices && id in visited
    requires Taken(vertices, conflicts, accepted, current, rejected, visited)
    ensures Finishes(vertices, conflicts, accepted, rejected, id) <==> Finished(vertices, current, rejected, id)
    ensures vertices[id].txs.Some?
  {
    assert Honest(vertices[id], inputsOf);
    hide AllHonest, Honest, TxsAccept, Accepts;
    var txs := vertices[id].txs.value;
    forall k | 0 <= k < |txs|
      ensures txs[k].id in current <==>
              txs[k].id in accepted || TxsAccept(conflicts, accepted, rejected, txs, txs[k].id)
    {
      AcceptedHere(vertices, conflicts, accepted, rejected, visited, inputsOf, id, k);
    }
  }

  /** None of the calls a round makes into the vertex and its transactions fails. */
  predicate Quiet(v: Vertex) {
    && v.txs.Some? && !v.acceptFails
    && forall k :: 0 <= k < |v.txs.value| ==>
         v.txs.value[k].inputs.Some? && !v.txs.value[k].acceptFails && !v.txs.value[k].rejectFails
  }

  predicate Untroubled(vertices: Store) {
    forall id :: id in vertices ==> Quiet(vertices[id])
  }

  lemma OneMoreChild(vertices: Store, edges: map<ID, seq<ID>>, todo: set<ID>, id: ID, isParent: set<ID>, more: set<ID>)
    requires Dag.EdgesOf(vertices, edges) && id in edges && id in todo && more == set p | p in edges[id]
    requires forall p :: p in isParent <==> exists c :: c !in todo && IsParent(vertices, p, c)
    ensures forall p :: p in isParent + more <==> exists c :: c !in todo - {id} && IsParent(vertices, p, c)
  {
    forall p ensures p in isParent + more <==> exists c :: c !in todo - {id} && IsParent(vertices, p, c) {
      assert p in more <==> IsParent(vertices, p, id);
      if p in isParent {
        var c :| c !in todo && IsParent(vertices, p, c);
        assert c !in todo - {id};
      }
      if p in more { assert id !in todo - {id}; }
      if c :| c !in todo - {id} && IsParent(vertices, p, c) {
        assert c != id ==> c !in todo;
      }
    }
  }

  lemma OneMoreTx(conflicts: Conflicts, accepted: set<ID>, rejected: set<ID>, txs: seq<Tx>, tx: Tx, t: ID)
    ensures TxsAccept(conflicts, accepted, rejected, txs + [tx], t) <==>
            TxsAccept(conflicts, accepted, rejected, txs, t) ||
            (t == tx.id && t !in accepted && t !in rejected && Free(conflicts, rejected, tx))
  {
    hide Free;
    var more := txs + [tx];
    assert more[|txs|] == tx;
    if TxsAccept(conflicts, accepted, rejected, txs, t) { Longer(conflicts, accepted, rejected, more, |txs|, t); }
  }

  lemma Longer(conflicts: Conflicts, accepted: set<ID>, rejected: set<ID>, txs: seq<Tx>, k: nat, t: ID)
    requires k <= |txs| && TxsAccept(conflicts, accepted, rejected, txs[..k], t)
    ensures TxsAccept(conflicts, accepted, rejected, txs, t)
  {
    hide Free;
    var j :| 0 <= j < k && txs[..k][j].id == t && t !in accepted && t !in rejected &&
      Free(conflicts, rejected, txs[..k][j]);
    assert txs[j] == txs[..k][j];
  }

  /** The launched vertices are processed or at work. */
  ghost predicate Shared(launched: seq<Vertex>, done: seq<Vertex>, running: seq<Vertex>) {
    multiset(done) + multiset(running) == multiset(launched)
  }

  lemma Launch(sorted: seq<Vertex>, launched: nat, done: seq<Vertex>, running: seq<Vertex>)
    requires launched < |sorted| && Shared(sorted[..launched], done, running)
    ensures Shared(sorted[..launched + 1], done, running + [sorted[launched]])
  {
    assert sorted[..launched + 1] == sorted[..launched] + [sorted[launched]];
  }

  lemma Complete(sorted: seq<Vertex>, launched: nat, done: seq<Vertex>, running: seq<Vertex>, r: nat)
    requires launched <= |sorted| && Shared(sorted[..launched], done, running) && r < |running|
    ensures Shared(sorted[..launched], done + [running[r]], running[..r] + running[r + 1..])
    ensures running[r] in sorted
    ensures Determined(sorted) ==> Determined(done + [running[r]])
  {
    assert running == running[..r] + [running[r]] + running[r + 1..];
    forall x | x in done + [running[r]] ensures x in sorted {
      assert x in multiset(sorted[..launched]);
    }
  }

  lemma SameMembers(s: seq<Vertex>, t: seq<Vertex>)
    requires PrioritySort.Permutation(s, t)
    ensures (forall v :: v in s <==> v in t) && (Determined(t) <==> Determined(s))
  {
    assert forall v :: v in s <==> v in multiset(s);
    assert forall v :: v in t <==> v in multiset(t);
  }

  lemma OneMoreClaim(txs: seq<Tx>, tx: Tx, decided: set<ID>, i: ID, x: ID)
    requires !TxsFail(txs, decided)
    ensures TxsClaim(txs + [tx], decided, i, x) <==>
            TxsClaim(txs, decided, i, x) || (tx.id !in decided && tx.inputs.Some? && x == tx.id && i in tx.inputs.value)
  {
    var more := txs + [tx];
    if TxsClaim(txs, decided, i, x) {
      var k :| 0 <= k < |txs| && Reached(txs, decided, k) && txs[k].id == x && x !in decided &&
        i in txs[k].inputs.value;
      assert more[k] == txs[k] && Reached(more, decided, k);
    }
    if tx.id !in decided && tx.inputs.Some? && x == tx.id && i in tx.inputs.value {
      assert more[|txs|] == tx && Reached(more, decided, |txs|);
    }
    if TxsClaim(more, decided, i, x) {
      var k :| 0 <= k < |more| && Reached(more, decided, k) && more[k].id == x && x !in decided &&
        i in more[k].inputs.value;
      if k < |txs| {
        assert Reached(txs, decided, k) by {
          forall j | 0 <= j <= k && txs[j].id !in decided ensures txs[j].inputs.Some? { assert more[j] == txs[j]; }
        }
      }
    }
  }

  lemma OneMoreFail(txs: seq<Tx>, tx: Tx, decided: set<ID>)
    ensures TxsFail(txs + [tx], decided) <==> TxsFail(txs, decided) || (tx.id !in decided && tx.inputs.None?)
  {
    var more := txs + [tx];
    assert more[|txs|] == tx;
    if TxsFail(txs, decided) {
      var k :| 0 <= k < |txs| && txs[k].id !in decided && txs[k].inputs.None?;
      assert more[k] == txs[k];
    }
  }

  /** Nothing past a transaction that fails to give its inputs is claimed. */
  lemma StopsHere(txs: seq<Tx>, k: nat, decided: set<ID>, i: ID, x: ID)
    requires k < |txs| && txs[k].id !in decided && txs[k].inputs.None?
    ensures TxsClaim(txs, decided, i, x) <==> TxsClaim(txs[..k], decided, i, x)
    ensures TxsFail(txs, decided)
  {
    var less := txs[..k];
    if TxsClaim(less, decided, i, x) {
      var j :| 0 <= j < |less| && Reached(less, decided, j) && less[j].id == x && x !in decided &&
        i in less[j].inputs.value;
      assert Reached(txs, decided, j) by {
        forall m | 0 <= m <= j && txs[m].id !in decided ensures txs[m].inputs.Some? { assert less[m] == txs[m]; }
      }
      assert txs[j] == less[j];
    }
    if TxsClaim(txs, decided, i, x) {
      var j :| 0 <= j < |txs| && Reached(txs, decided, j) && txs[j].id == x && x !in decided &&
        i in txs[j].inputs.value;
      assert j < k;
      assert Reached(less, decided, j) by {
        forall m | 0 <= m <= j && less[m].id !in decided ensures less[m].inputs.Some? { assert less[m] == txs[m]; }
      }
      assert txs[j] == less[j];
    }
  }

  /** The graph's frontier is the one the engine recomputes iff every unreadable vertex has a child. */
  lemma FrontiersAgree(vertices: Store, edges: map<ID, seq<ID>>, frontier: set<ID>, recomputed: seq<ID>)
    requires Dag.EdgesOf(vertices, edges) && Dag.FrontierKept(vertices, edges, frontier)
    requires forall id :: id in recomputed <==> id in Childless(vertices)
    ensures (forall id :: id in recomputed <==> id in frontier) <==>
            (forall id :: id in vertices && vertices[id].parents.None? ==> HasChild(vertices, id))
  {
    Dag.FrontierExact(vertices, edges);
    if forall id :: id in recomputed <==> id in frontier {
      SameSet(frontier, Childless(vertices));
    }
  }

  lemma OneSpender(vertices: Store, v: Vertex, tx: Tx)
    requires v.id in vertices && vertices[v.id] == v && v.txs == Some([tx]) && tx.inputs.Some?
    requires forall p, c :: !IsParent(vertices, p, c)
    ensures Accepts(vertices, map[], {}, {}, Childless(vertices), tx.id)
  {
    assert v.id in Childless(vertices) && Free(map[], {}, tx);
    assert [tx][0] == tx && TxsAccept(map[], {}, {}, [tx], tx.id);
    assert vertices[v.id].txs.value == [tx];
  }

  /** Vertices that do not verify claim nothing, yet a round accepts their conflicting transactions. */
  lemma UnverifiedConflict(v: Vertex, w: Vertex, tx: Tx, ty: Tx, inputsOf: ID -> seq<ID>)
    requires tx.inputs == Some([7]) && ty.inputs == Some([7]) && tx.id == 1 && ty.id == 2
    requires v.id == 11 && v.parents == Some([]) && !v.verifies && !v.rejectFails && v.txs == Some([tx])
    requires w.id == 12 && w.parents == Some([]) && !w.verifies && !w.rejectFails && w.txs == Some([ty])
    requires inputsOf(1) == [7] && inputsOf(2) == [7]
    ensures ProcessedOne(Graph(map[], map[]), Graph(map[11 := v], map[]), v, {}, false)
    ensures ProcessedOne(Graph(map[11 := v], map[]), Graph(map[11 := v, 12 := w], map[]), w, {}, false)
    ensures Taken(map[11 := v, 12 := w], map[], {}, {1, 2}, {}, Childless(map[11 := v, 12 := w]))
    ensures !ConflictFree({1, 2}, inputsOf)
    ensures Clash(map[11 := v, 12 := w], map[], {}, {}, Childless(map[11 := v, 12 := w]), inputsOf)
  {
    var vertices := map[11 := v, 12 := w];
    assert forall p, c :: !IsParent(vertices, p, c);
    OneSpender(vertices, v, tx);
    OneSpender(vertices, w, ty);
    assert 7 in inputsOf(1) && 7 in inputsOf(2);
    hide Childless;
  }
}
