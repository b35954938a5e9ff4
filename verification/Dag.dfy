/** Vertices of the transaction graph, and what a set of stored vertices says about children. */
module Vertices {
  import opened Common

  /** Calls into a transaction: absent inputs stand for an error from InputIDs. */
  datatype Tx = Tx(id: ID, inputs: Option<seq<ID>>, acceptFails: bool, rejectFails: bool)

  /** Calls into a vertex: an absent result stands for an error. */
  datatype Vertex = Vertex(id: ID, parents: Option<seq<ID>>, verifies: bool, rejectFails: bool,
                           txs: Option<seq<Tx>>, acceptFails: bool, priority: nat)

  type Store = map<ID, Vertex>

  predicate Keyed(vertices: Store) {
    forall id :: id in vertices ==> vertices[id].id == id
  }

  predicate IsParent(vertices: Store, p: ID, c: ID) {
    c in vertices && vertices[c].parents.Some? && p in vertices[c].parents.value
  }

  ghost predicate HasChild(vertices: Store, p: ID) {
    exists c :: IsParent(vertices, p, c)
  }

  /** The frontier: stored vertices that no stored vertex names as a parent. */
  ghost function Childless(vertices: Store): set<ID> {
    set id | id in vertices && !HasChild(vertices, id)
  }

  /** Adding a vertex: the first one stored under an identifier stays. */
  function Insert(vertices: Store, v: Vertex): Store {
    if v.id in vertices then vertices else vertices[v.id := v]
  }

  function InsertAll(vertices: Store, vs: seq<Vertex>): Store {
    if vs == [] then vertices else Insert(InsertAll(vertices, vs[..|vs| - 1]), vs[|vs| - 1])
  }

  /** An identifier determines its vertex. */
  ghost predicate Determined(vs: seq<Vertex>) {
    forall v, w :: v in vs && w in vs && v.id == w.id ==> v == w
  }

  ghost predicate Offered(vs: seq<Vertex>, id: ID) {
    exists v :: v in vs && v.id == id
  }

  lemma {:induction false} InsertAllMeans(vertices: Store, vs: seq<Vertex>)
    requires Determined(vs)
    ensures forall id :: id in InsertAll(vertices, vs) <==> id in vertices || Offered(vs, id)
    ensures forall id :: id in vertices ==> InsertAll(vertices, vs)[id] == vertices[id]
    ensures forall v :: v in vs && v.id !in vertices ==>
            v.id in InsertAll(vertices, vs) && InsertAll(vertices, vs)[v.id] == v
    ensures Keyed(vertices) ==> Keyed(InsertAll(vertices, vs))
  {
    if vs != [] {
      var rest, last := vs[..|vs| - 1], vs[|vs| - 1];
      assert vs == rest + [last];
      assert Determined(rest);
      InsertAllMeans(vertices, rest);
      InsertMeans(vertices, InsertAll(vertices, rest), rest, last);
    }
  }

  lemma InsertMeans(vertices: Store, stored: Store, vs: seq<Vertex>, v: Vertex)
    requires Determined(vs + [v])
    requires forall id :: id in stored <==> id in vertices || Offered(vs, id)
    requires forall id :: id in vertices ==> stored[id] == vertices[id]
    requires forall w :: w in vs && w.id !in vertices ==> w.id in stored && stored[w.id] == w
    ensures forall id :: id in Insert(stored, v) <==> id in vertices || Offered(vs + [v], id)
    ensures forall id :: id in vertices ==> Insert(stored, v)[id] == vertices[id]
    ensures forall w :: w in vs + [v] && w.id !in vertices ==> w.id in Insert(stored, v) && Insert(stored, v)[w.id] == w
  {
    forall id ensures Offered(vs + [v], id) <==> id == v.id || Offered(vs, id) {
      if id == v.id { assert v in vs + [v]; }
      if w :| w in vs && w.id == id { assert w in vs + [v]; }
    }
    forall w | w in vs + [v] && w.id !in vertices ensures w.id in Insert(stored, v) && Insert(stored, v)[w.id] == w {
      assert v in vs + [v];
    }
  }

  /** What is stored in the end does not depend on the order of arrival, nor on repetitions. */
  lemma OrderDoesNotMatter(vertices: Store, vs: seq<Vertex>, ws: seq<Vertex>)
    requires Determined(vs) && forall v :: v in vs <==> v in ws
    ensures InsertAll(vertices, vs) == InsertAll(vertices, ws)
  {
    StoredAlike(vertices, vs, ws);
    StoredAlike(vertices, ws, vs);
    hide InsertAll;
    SameMap(InsertAll(vertices, vs), InsertAll(vertices, ws));
  }

  predicate Within(a: Store, b: Store) {
    forall id :: id in a ==> id in b && a[id] == b[id]
  }

  lemma StoredAlike(vertices: Store, vs: seq<Vertex>, ws: seq<Vertex>)
    requires Determined(vs) && Determined(ws) && forall v :: v in vs ==> v in ws
    ensures Within(InsertAll(vertices, vs), InsertAll(vertices, ws))
  {
    hide InsertAll, Determined;
    InsertAllMeans(vertices, vs);
    InsertAllMeans(vertices, ws);
    var a, b := InsertAll(vertices, vs), InsertAll(vertices, ws);
    forall id | id in a && id !in vertices ensures id in b && a[id] == b[id] {
      var v :| v in vs && v.id == id;
      assert v in ws && v.id !in vertices;
      assert a[v.id] == v && b[v.id] == v;
    }
  }
}

/** The graph that keeps its frontier and its reverse edges up to date as vertices arrive. */
module Dag {
  import opened Common
  import opened Vertices

  function Children(reverse: map<ID, seq<ID>>, p: ID): seq<ID> {
    if p in reverse then reverse[p] else []
  }

  /** How often c names p as a parent. */
  ghost function Named(vertices: Store, p: ID, c: ID): nat {
    if c in vertices && vertices[c].parents.Some? then multiset(vertices[c].parents.value)[p] else 0
  }

  ghost predicate EdgesOf(vertices: Store, edges: map<ID, seq<ID>>) {
    && (forall id :: id in edges <==> id in vertices && vertices[id].parents.Some?)
    && (forall id :: id in edges ==> edges[id] == vertices[id].parents.value)
  }

  /** Reverse edges are the converse of the edges, with multiplicity; no entry is empty. */
  ghost predicate Converse(vertices: Store, reverse: map<ID, seq<ID>>) {
    && (forall p, c :: multiset(Children(reverse, p))[c] == Named(vertices, p, c))
    && (forall p :: p in reverse ==> reverse[p] != [])
  }

  lemma NamedMeans(vertices: Store, p: ID, c: ID)
    ensures Named(vertices, p, c) > 0 <==> IsParent(vertices, p, c)
  {
  }

  lemma HasEntry(vertices: Store, reverse: map<ID, seq<ID>>, p: ID)
    requires Converse(vertices, reverse)
    ensures p in reverse <==> HasChild(vertices, p)
  {
    if p in reverse {
      var c := reverse[p][0];
      assert c in Children(reverse, p) && multiset(Children(reverse, p))[c] > 0;
      NamedMeans(vertices, p, c);
    }
    if HasChild(vertices, p) {
      var c :| IsParent(vertices, p, c);
      NamedMeans(vertices, p, c);
      assert multiset(Children(reverse, p))[c] > 0;
    }
  }

  /** A new vertex takes its parents' childlessness away and nothing else. */
  lemma ChildrenAfter(vertices: Store, v: Vertex, p: ID)
    requires v.id !in vertices
    ensures HasChild(vertices[v.id := v], p) <==> HasChild(vertices, p) || (v.parents.Some? && p in v.parents.value)
  {
    var after := vertices[v.id := v];
    if HasChild(vertices, p) {
      var c :| IsParent(vertices, p, c);
      assert IsParent(after, p, c);
    }
    if v.parents.Some? && p in v.parents.value { assert IsParent(after, p, v.id); }
    if HasChild(after, p) {
      var c :| IsParent(after, p, c);
      assert c != v.id ==> IsParent(vertices, p, c);
    }
  }

  function Members(ids: seq<ID>): set<ID> {
    set p | p in ids
  }

  lemma OneMoreGone(frontier: set<ID>, ids: seq<ID>, p: ID)
    ensures frontier - Members(ids) - {p} == frontier - Members(ids + [p])
  {
  }

  function ParentsOf(v: Vertex): seq<ID> {
    if v.parents.Some? then v.parents.value else []
  }

  lemma ChildlessAfter(vertices: Store, v: Vertex)
    requires v.id !in vertices
    ensures Childless(vertices[v.id := v]) ==
            Childless(vertices) - Members(ParentsOf(v)) +
            if HasChild(vertices[v.id := v], v.id) then {} else {v.id}
    ensures v.id !in Childless(vertices)
  {
    hide HasChild;
    forall p ensures HasChild(vertices[v.id := v], p) <==> HasChild(vertices, p) || p in ParentsOf(v) {
      ChildrenAfter(vertices, v, p);
    }
  }

  lemma EdgesAfter(vertices: Store, edges: map<ID, seq<ID>>, v: Vertex)
    requires EdgesOf(vertices, edges) && v.id !in vertices
    ensures EdgesOf(vertices[v.id := v], if v.parents.Some? then edges[v.id := v.parents.value] else edges)
  {
  }

  ghost predicate FrontierKept(vertices: Store, edges: map<ID, seq<ID>>, frontier: set<ID>) {
    frontier == Childless(vertices) * edges.Keys
  }

  lemma FrontierAfter(vertices: Store, edges: map<ID, seq<ID>>, frontier: set<ID>, v: Vertex)
    requires EdgesOf(vertices, edges) && v.id !in vertices && FrontierKept(vertices, edges, frontier)
    ensures v.parents.Some? ==>
              FrontierKept(vertices[v.id := v], edges[v.id := v.parents.value],
                           frontier - Members(ParentsOf(v)) +
                           if HasChild(vertices[v.id := v], v.id) then {} else {v.id})
    ensures v.parents.None? ==> FrontierKept(vertices[v.id := v], edges, frontier)
  {
    hide Childless, HasChild;
    ChildlessAfter(vertices, v);
    assert v.id !in edges;
  }

  lemma FrontierMeans(vertices: Store, edges: map<ID, seq<ID>>, frontier: set<ID>, v: Vertex)
    requires EdgesOf(vertices, edges) && v.id !in vertices && frontier == Childless(vertices)
    ensures v.parents.Some? ==>
              frontier - Members(ParentsOf(v)) + (if HasChild(vertices[v.id := v], v.id) then {} else {v.id}) ==
              Childless(vertices[v.id := v])
    ensures v.parents.None? ==> (frontier == Childless(vertices[v.id := v]) <==> HasChild(vertices, v.id))
  {
    hide Childless, HasChild;
    ChildlessAfter(vertices, v);
    ChildrenAfter(vertices, v, v.id);
    assert v.parents.None? ==> Members(ParentsOf(v)) == {};
  }

  /** The reverse edges gained this child, once for each time it names the parent. */
  ghost predicate Gained(before: map<ID, seq<ID>>, after: map<ID, seq<ID>>, id: ID, parents: seq<ID>) {
    && (forall p, c :: multiset(Children(after, p))[c] ==
                       multiset(Children(before, p))[c] + if c == id then multiset(parents)[p] else 0)
    && (forall p :: p in after ==> after[p] != [])
  }

  lemma GainNone(reverse: map<ID, seq<ID>>, id: ID)
    requires forall p :: p in reverse ==> reverse[p] != []
    ensures Gained(reverse, reverse, id, [])
    ensures forall f: set<ID> :: f - Members([]) == f
  {
  }

  lemma GainOne(before: map<ID, seq<ID>>, after: map<ID, seq<ID>>, id: ID, parents: seq<ID>, p: ID)
    requires Gained(before, after, id, parents)
    ensures Gained(before, after[p := Children(after, p) + [id]], id, parents + [p])
  {
    forall q, c ensures multiset(Children(after[p := Children(after, p) + [id]], q))[c] ==
                        multiset(Children(before, q))[c] + if c == id then multiset(parents + [p])[q] else 0
    {
      GainAt(before, after, id, parents, p, q, c);
    }
    KeptFull(before, after, id, parents, p);
  }

  lemma GainAt(before: map<ID, seq<ID>>, after: map<ID, seq<ID>>, id: ID, parents: seq<ID>, p: ID, q: ID, c: ID)
    requires Gained(before, after, id, parents)
    ensures multiset(Children(after[p := Children(after, p) + [id]], q))[c] ==
            multiset(Children(before, q))[c] + if c == id then multiset(parents + [p])[q] else 0
  {
    var was := Children(after, q);
    assert multiset(was)[c] == multiset(Children(before, q))[c] + if c == id then multiset(parents)[q] else 0;
    hide Gained;
    if q == p { assert Children(after[p := Children(after, p) + [id]], q) == was + [id]; }
  }

  lemma KeptFull(before: map<ID, seq<ID>>, after: map<ID, seq<ID>>, id: ID, parents: seq<ID>, p: ID)
    requires Gained(before, after, id, parents)
    ensures var after' := after[p := Children(after, p) + [id]]; forall q :: q in after' ==> after'[q] != []
  {
  }

  lemma ConverseMeans(vertices: Store, reverse: map<ID, seq<ID>>)
    requires Converse(vertices, reverse)
    ensures forall p :: p in reverse ==> reverse[p] != []
  {
  }

  lemma ConverseAfter(vertices: Store, reverse: map<ID, seq<ID>>, reverse': map<ID, seq<ID>>, v: Vertex)
    requires Converse(vertices, reverse) && v.id !in vertices && Gained(reverse, reverse', v.id, ParentsOf(v))
    ensures Converse(vertices[v.id := v], reverse')
  {
  }

  lemma ConverseUnread(vertices: Store, reverse: map<ID, seq<ID>>, v: Vertex)
    requires Converse(vertices, reverse) && v.id !in vertices && v.parents.None?
    ensures Converse(vertices[v.id := v], reverse)
  {
  }

  ghost predicate Readable(vertices: Store) {
    forall id :: id in vertices ==> vertices[id].parents.Some?
  }

  class ParallelDag {
    var vertices: Store
    var edges: map<ID, seq<ID>>
    var reversedge: map<ID, seq<ID>>
    var frontier: set<ID>

    /** Everything kept is determined by the stored vertices, so by no order of arrival. */
    ghost predicate Valid()
      reads this
    {
      && Keyed(vertices) && EdgesOf(vertices, edges) && Converse(vertices, reversedge)
      && FrontierKept(vertices, edges, frontier)
    }

    constructor ()
      ensures Valid() && vertices == map[]
    {
      vertices, edges, reversedge, frontier := map[], map[], map[], {};
    }

    /** A vertex may arrive before or after its parents and its children. */
    method AddVertex(v: Vertex) returns (err: bool)
      requires Valid()
      modifies this
      ensures Valid() && vertices == Insert(old(vertices), v)
      ensures err <==> v.id !in old(vertices) && v.parents.None?
      ensures old(frontier) == Childless(old(vertices)) ==>
                (frontier == Childless(vertices) <==> !err || HasChild(old(vertices), v.id))
    {
      hide EdgesOf, Childless, HasChild, Gained, FrontierKept, Converse;
      if v.id in vertices { return false; }
      EdgesAfter(vertices, edges, v);
      FrontierAfter(vertices, edges, frontier, v);
      ghost var exact := frontier == Childless(vertices);
      if exact { FrontierMeans(vertices, edges, frontier, v); }
      ConverseMeans(vertices, reversedge);
      vertices := vertices[v.id := v];
      if v.parents.None? {
        ConverseUnread(old(vertices), reversedge, v);
        return true;
      }
      Link(v.id, v.parents.value);
      edges := edges[v.id := v.parents.value];
      ConverseAfter(old(vertices), old(reversedge), reversedge, v);
      HasEntry(vertices, reversedge, v.id);
      if v.id !in reversedge {
        frontier := frontier + {v.id};
      }
      assert frontier == old(frontier) - Members(ParentsOf(v)) + if HasChild(vertices, v.id) then {} else {v.id};
      return false;
    }

    /** Adds the vertex to the children of each parent, and takes the parents off the frontier. */
    method Link(id: ID, parents: seq<ID>)
      requires forall p :: p in reversedge ==> reversedge[p] != []
      modifies `reversedge, `frontier
      ensures Gained(old(reversedge), reversedge, id, parents)
      ensures frontier == old(frontier) - Members(parents)
    {
      GainNone(reversedge, id);
      hide Gained, Members;
      assert parents[..0] == [];
      for k := 0 to |parents|
        invariant Gained(old(reversedge), reversedge, id, parents[..k])
        invariant frontier == old(frontier) - Members(parents[..k])
      {
        var p := parents[k];
        assert parents[..k + 1] == parents[..k] + [p];
        GainOne(old(reversedge), reversedge, id, parents[..k], p);
        OneMoreGone(old(frontier), parents[..k], p);
        reversedge := reversedge[p := Children(reversedge, p) + [id]];
        frontier := frontier - {p};
      }
      assert parents[..|parents|] == parents;
    }

    /** The frontier vertices, in any order, each once. */
    method GetFrontier() returns (list: seq<Vertex>)
      requires Valid()
      ensures |list| == |frontier|
      ensures forall id :: id in frontier ==> vertices[id] in list
      ensures forall v :: v in list ==> v.id in frontier && vertices[v.id] == v
    {
      list := [];
      var todo := frontier;
      while todo != {}
        invariant todo <= frontier
        invariant |list| + |todo| == |frontier|
        invariant forall id :: id in frontier - todo ==> vertices[id] in list
        invariant forall v :: v in list ==> v.id in frontier && vertices[v.id] == v
        decreases todo
      {
        var id := Pick(todo);
        todo := todo - {id};
        if id in vertices { list := list + [vertices[id]]; }
      }
    }
  }

  /** The frontier kept is the frontier meant iff every unreadable vertex has a child. */
  lemma FrontierExact(vertices: Store, edges: map<ID, seq<ID>>)
    requires EdgesOf(vertices, edges)
    ensures Childless(vertices) * edges.Keys == Childless(vertices) <==>
            forall id :: id in vertices && vertices[id].parents.None? ==> HasChild(vertices, id)
    ensures Readable(vertices) ==> Childless(vertices) * edges.Keys == Childless(vertices)
  {
    if Childless(vertices) * edges.Keys == Childless(vertices) {
      forall id | id in vertices && vertices[id].parents.None? ensures HasChild(vertices, id) {
        assert id !in edges;
        assert id !in Childless(vertices);
      }
    }
  }

  /** Same vertices, same graph: edges, frontier, and children up to their order. */
  lemma SameGraph(vertices: Store, edges: map<ID, seq<ID>>, edges': map<ID, seq<ID>>,
                  reverse: map<ID, seq<ID>>, reverse': map<ID, seq<ID>>)
    requires EdgesOf(vertices, edges) && EdgesOf(vertices, edges')
    requires Converse(vertices, reverse) && Converse(vertices, reverse')
    ensures edges == edges' && reverse.Keys == reverse'.Keys
    ensures forall p :: p in reverse ==> multiset(reverse[p]) == multiset(reverse'[p])
  {
    SameMap(edges, edges');
    forall p ensures p in reverse <==> p in reverse' {
      HasEntry(vertices, reverse, p);
      HasEntry(vertices, reverse', p);
    }
    forall p | p in reverse ensures multiset(reverse[p]) == multiset(reverse'[p]) {
      forall c ensures multiset(reverse[p])[c] == multiset(reverse'[p])[c] {
        assert multiset(Children(reverse, p))[c] == Named(vertices, p, c) == multiset(Children(reverse', p))[c];
      }
    }
  }
}
