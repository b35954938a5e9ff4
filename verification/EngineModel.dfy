/** Sorting the vertices of a batch in place, highest priority first. */
module PrioritySort {
  import opened Vertices

  ghost predicate Descending(s: seq<Vertex>) {
    forall i, j :: 0 <= i < j < |s| ==> s[i].priority >= s[j].priority
  }

  /** Sorted from some index on, and nothing before it is below anything from there on. */
  ghost predicate Settled(s: seq<Vertex>, from: nat) {
    forall i, j :: 0 <= i < j < |s| && from <= j ==> s[i].priority >= s[j].priority
  }

  ghost predicate Permutation(s: seq<Vertex>, t: seq<Vertex>) {
    multiset(s) == multiset(t)
  }

  lemma SwapPermutes(s: seq<Vertex>, j: nat)
    requires j + 1 < |s|
    ensures Permutation(s[j := s[j + 1]][j + 1 := s[j]], s)
  {
    var t := s[j := s[j + 1]][j + 1 := s[j]];
    var left, right := s[..j], s[j + 2..];
    assert s == left + [s[j], s[j + 1]] + right;
    assert t == left + [s[j + 1], s[j]] + right;
    assert multiset([s[j], s[j + 1]]) == multiset([s[j + 1], s[j]]);
  }

  /** One step of a pass, on the contents of the array. */
  function Stepped(s: seq<Vertex>, j: nat): seq<Vertex>
    requires j + 1 < |s|
  {
    if s[j].priority < s[j + 1].priority then s[j := s[j + 1]][j + 1 := s[j]] else s
  }

  /** Within a pass: the element at j is the lowest so far, and the settled part stays so. */
  ghost predicate Carried(s: seq<Vertex>, j: nat, settled: nat) {
    Settled(s, settled) && j < |s| && forall i :: 0 <= i < j ==> s[i].priority >= s[j].priority
  }

  lemma StepCarries(s: seq<Vertex>, j: nat, settled: nat)
    requires j + 1 < settled <= |s| && Carried(s, j, settled)
    ensures Carried(Stepped(s, j), j + 1, settled) && Permutation(Stepped(s, j), s)
  {
    SwapPermutes(s, j);
  }

  method Step(a: array<Vertex>, j: nat)
    requires j + 1 < a.Length
    modifies a
    ensures a[..] == Stepped(old(a[..]), j)
  {
    if a[j].priority < a[j + 1].priority {
      a[j], a[j + 1] := a[j + 1], a[j];
    }
  }

  /** One pass carries the lowest of the first elements to the end of them. */
  method Pass(a: array<Vertex>, count: nat)
    requires 0 < count <= a.Length && Settled(a[..], count)
    modifies a
    ensures Settled(a[..], count - 1) && Permutation(a[..], old(a[..]))
  {
    hide Stepped, Permutation;
    Same(a[..]);
    for j := 0 to count - 1
      invariant Carried(a[..], j, count) && Permutation(a[..], old(a[..]))
    {
      ghost var before := a[..];
      StepCarries(before, j, count);
      Step(a, j);
      Chain(a[..], before, old(a[..]));
    }
  }

  lemma Same(s: seq<Vertex>)
    ensures Permutation(s, s)
  {
  }

  lemma Chain(s: seq<Vertex>, t: seq<Vertex>, u: seq<Vertex>)
    requires Permutation(s, t) && Permutation(t, u)
    ensures Permutation(s, u)
  {
  }

  method SortVerticesByPriority(a: array<Vertex>)
    modifies a
    ensures Descending(a[..]) && Permutation(a[..], old(a[..]))
  {
    hide Permutation;
    Same(a[..]);
    for i := 0 to a.Length
      invariant Settled(a[..], a.Length - i) && Permutation(a[..], old(a[..]))
    {
      ghost var before := a[..];
      Pass(a, a.Length - i);
      Chain(a[..], before, old(a[..]));
    }
  }
}

/** What processing a vertex records, and what a decision round accepts, as relations. */
module EngineModel {
  import opened Common
  import opened Vertices

  type Conflicts = map<ID, set<ID>>

  /** The transactions recorded as spending an input. */
  function At(conflicts: Conflicts, input: ID): set<ID> {
    if input in conflicts then conflicts[input] else {}
  }

  ghost predicate NoEmpty(conflicts: Conflicts) {
    forall i :: i in conflicts ==> conflicts[i] != {}
  }

  /** The loop over transactions gets to the k-th: none before fails to give its inputs. */
  ghost predicate Reached(txs: seq<Tx>, decided: set<ID>, k: nat)
    requires k < |txs|
  {
    forall j :: 0 <= j <= k && txs[j].id !in decided ==> txs[j].inputs.Some?
  }

  ghost predicate TxsClaim(txs: seq<Tx>, decided: set<ID>, input: ID, t: ID) {
    exists k :: 0 <= k < |txs| && Reached(txs, decided, k) && txs[k].id == t && t !in decided &&
      input in txs[k].inputs.value
  }

  /** The claims a vertex leaves, given what is decided when it is processed. */
  ghost predicate Claims(v: Vertex, decided: set<ID>, input: ID, t: ID) {
    v.parents.Some? && v.verifies && v.txs.Some? && TxsClaim(v.txs.value, decided, input, t)
  }

  predicate TxsFail(txs: seq<Tx>, decided: set<ID>) {
    exists k :: 0 <= k < |txs| && txs[k].id !in decided && txs[k].inputs.None?
  }

  predicate Fails(v: Vertex, decided: set<ID>) {
    if v.parents.None? then true
    else if !v.verifies then v.rejectFails
    else if v.txs.None? then true
    else TxsFail(v.txs.value, decided)
  }

  /** What is stored, and which transactions claim which input. */
  datatype Graph = Graph(vertices: Store, conflicts: Conflicts)

  ghost predicate AnyClaims(vertices: Store, vs: seq<Vertex>, decided: set<ID>, input: ID, t: ID) {
    exists v :: v in vs && v.id !in vertices && Claims(v, decided, input, t)
  }

  /** The effect of processing some vertices: it names no order. */
  ghost predicate Processed(g: Graph, g': Graph, vs: seq<Vertex>, decided: set<ID>, err: bool) {
    && g'.vertices == InsertAll(g.vertices, vs)
    && (forall i, t :: t in At(g'.conflicts, i) <==>
        t in At(g.conflicts, i) || AnyClaims(g.vertices, vs, decided, i, t))
    && (err <==> exists v :: v in vs && v.id !in g.vertices && Fails(v, decided))
  }

  /** The effect of processing one. */
  ghost predicate ProcessedOne(g: Graph, g': Graph, v: Vertex, decided: set<ID>, err: bool) {
    && g'.vertices == Insert(g.vertices, v)
    && (v.id in g.vertices ==> g'.conflicts == g.conflicts)
    && (v.id !in g.vertices ==>
          forall i, t :: t in At(g'.conflicts, i) <==> t in At(g.conflicts, i) || Claims(v, decided, i, t))
    && (err <==> v.id !in g.vertices && Fails(v, decided))
  }

  lemma AnyClaimsMore(vertices: Store, vs: seq<Vertex>, v: Vertex, decided: set<ID>, input: ID, t: ID)
    ensures AnyClaims(vertices, vs + [v], decided, input, t) <==>
            AnyClaims(vertices, vs, decided, input, t) || (v.id !in vertices && Claims(v, decided, input, t))
  {
    hide Claims;
    if AnyClaims(vertices, vs, decided, input, t) {
      var w :| w in vs && w.id !in vertices && Claims(w, decided, input, t);
      assert w in vs + [v];
    }
    if v.id !in vertices && Claims(v, decided, input, t) { assert v in vs + [v]; }
  }

  lemma FailsMore(vertices: Store, vs: seq<Vertex>, v: Vertex, decided: set<ID>)
    ensures (exists w :: w in vs + [v] && w.id !in vertices && Fails(w, decided)) <==>
            (exists w :: w in vs && w.id !in vertices && Fails(w, decided)) || (v.id !in vertices && Fails(v, decided))
  {
    hide Fails;
    if w :| w in vs && w.id !in vertices && Fails(w, decided) { assert w in vs + [v]; }
    if v.id !in vertices && Fails(v, decided) { assert v in vs + [v]; }
  }

  /** A vertex stored before the batch adds nothing; one stored by the batch is the same vertex. */
  lemma ProcessedMore(g: Graph, g': Graph, g'': Graph, vs: seq<Vertex>, v: Vertex, decided: set<ID>, err: bool,
                      err': bool)
    requires Processed(g, g', vs, decided, err) && ProcessedOne(g', g'', v, decided, err') && Determined(vs + [v])
    ensures Processed(g, g'', vs + [v], decided, err || err')
  {
    assert (vs + [v])[..|vs|] == vs;
    Stored(g.vertices, vs, v);
    hide Claims, Fails, Determined, AnyClaims, InsertAll;
    forall i, t
      ensures t in At(g''.conflicts, i) <==> t in At(g.conflicts, i) || AnyClaims(g.vertices, vs + [v], decided, i, t)
    {
      AnyClaimsMore(g.vertices, vs, v, decided, i, t);
      ClaimsOnce(g.vertices, vs, v, decided, i, t);
    }
    FailsMore(g.vertices, vs, v, decided);
  }

  lemma Stored(vertices: Store, vs: seq<Vertex>, v: Vertex)
    requires Determined(vs + [v])
    ensures InsertAll(vertices, vs + [v]) == Insert(InsertAll(vertices, vs), v)
    ensures v.id in InsertAll(vertices, vs) <==> v.id in vertices || v in vs
  {
    assert (vs + [v])[..|vs|] == vs;
    assert Determined(vs);
    InsertAllMeans(vertices, vs);
    if w :| w in vs && w.id == v.id { assert w in vs + [v] && v in vs + [v]; }
  }

  lemma ClaimsOnce(vertices: Store, vs: seq<Vertex>, v: Vertex, decided: set<ID>, input: ID, t: ID)
    ensures v in vs && v.id !in vertices && Claims(v, decided, input, t) ==> AnyClaims(vertices, vs, decided, input, t)
  {
  }

  lemma ProcessedNone(g: Graph, decided: set<ID>)
    ensures Processed(g, g, [], decided, false)
  {
  }

  /** Same vertices in any order, and repeated or not: same effect. */
  lemma AnyOrder(g: Graph, g': Graph, vs: seq<Vertex>, ws: seq<Vertex>, decided: set<ID>, err: bool)
    requires Processed(g, g', vs, decided, err) && Determined(vs) && forall v :: v in vs <==> v in ws
    ensures Processed(g, g', ws, decided, err)
  {
    OrderDoesNotMatter(g.vertices, vs, ws);
    hide InsertAll, Claims, Fails, Determined;
    forall i, t ensures AnyClaims(g.vertices, vs, decided, i, t) <==> AnyClaims(g.vertices, ws, decided, i, t) {
      if AnyClaims(g.vertices, vs, decided, i, t) {
        var v :| v in vs && v.id !in g.vertices && Claims(v, decided, i, t);
        assert v in ws;
      }
    }
  }

  /** Two runs over the same vertices end in the same maps. */
  lemma SameEffect(g: Graph, a: Graph, b: Graph, vs: seq<Vertex>, decided: set<ID>, err: bool, err': bool)
    requires Processed(g, a, vs, decided, err) && Processed(g, b, vs, decided, err')
    requires NoEmpty(a.conflicts) && NoEmpty(b.conflicts)
    ensures a == b && err == err'
  {
    hide AnyClaims, InsertAll, Fails;
    forall i ensures At(a.conflicts, i) == At(b.conflicts, i) {
      forall t ensures t in At(a.conflicts, i) <==> t in At(b.conflicts, i) {}
    }
    forall i ensures i in a.conflicts <==> i in b.conflicts {
      assert At(a.conflicts, i) == At(b.conflicts, i);
    }
    forall i | i in a.conflicts ensures a.conflicts[i] == b.conflicts[i] {
      assert At(a.conflicts, i) == At(b.conflicts, i);
    }
    SameMap(a.conflicts, b.conflicts);
  }
}
