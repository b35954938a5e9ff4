/**
 The API router: endpoints are registered under a base URL and forwarded to every alias of that
 base, and to the aliases of the aliases. The alias graph may have cycles.
 */
module Router {
  import opened Common

  type Handler = int
  type Routes = map<string, map<string, Handler>>
  type Aliases = map<string, seq<string>>

  predicate Has(routes: Routes, base: string, endpoint: string) {
    base in routes && endpoint in routes[base]
  }

  predicate AliasOf(aliases: Aliases, base: string, alias: string) {
    base in aliases && alias in aliases[base]
  }

  /** Every base outside open that has the endpoint has forwarded it to its aliases. */
  ghost predicate Forwarded(routes: Routes, aliases: Aliases, endpoint: string, open: set<string>) {
    forall b, a :: b !in open && AliasOf(aliases, b, a) && Has(routes, b, endpoint) ==> Has(routes, a, endpoint)
  }

  /** Nothing is taken away or changed, and what is new is this endpoint with this handler, within a set of bases. */
  ghost predicate Grew(before: Routes, after: Routes, endpoint: string, handler: Handler, within: set<string>) {
    && (forall b, e :: Has(before, b, e) ==> Has(after, b, e) && after[b][e] == before[b][e])
    && (forall b, e :: Has(after, b, e) && !Has(before, b, e) ==>
        e == endpoint && after[b][e] == handler && b in within)
  }

  predicate IsNew(before: Routes, after: Routes, base: string, endpoint: string) {
    Has(after, base, endpoint) && !Has(before, base, endpoint)
  }

  /** Every alias of a base that got the endpoint, other than skip, got it as well. */
  ghost predicate AllNew(before: Routes, after: Routes, aliases: Aliases, endpoint: string, skip: set<string>) {
    forall b, a :: b !in skip && AliasOf(aliases, b, a) && IsNew(before, after, b, endpoint) ==>
      IsNew(before, after, a, endpoint)
  }

  ghost predicate ClosedSet(aliases: Aliases, s: set<string>) {
    forall b, a :: b in s && AliasOf(aliases, b, a) ==> a in s
  }

  lemma GrewTrans(r0: Routes, r1: Routes, r2: Routes, endpoint: string, handler: Handler, within: set<string>)
    requires Grew(r0, r1, endpoint, handler, within) && Grew(r1, r2, endpoint, handler, within)
    ensures Grew(r0, r2, endpoint, handler, within)
  {
  }

  lemma AddOne(routes: Routes, base: string, endpoint: string, handler: Handler, within: set<string>)
    requires !Has(routes, base, endpoint) && base in within
    ensures var endpoints := if base in routes then routes[base] else map[];
            var routes' := routes[base := endpoints[endpoint := handler]];
            Grew(routes, routes', endpoint, handler, within) && IsNew(routes, routes', base, endpoint)
            && (forall b :: b != base ==> (Has(routes', b, endpoint) <==> Has(routes, b, endpoint)))
  {
  }

  lemma AllNewTrans(r0: Routes, r1: Routes, r2: Routes, aliases: Aliases, endpoint: string, handler: Handler,
                    within: set<string>, skip: set<string>)
    requires Grew(r0, r1, endpoint, handler, within) && Grew(r1, r2, endpoint, handler, within)
    requires AllNew(r0, r1, aliases, endpoint, skip) && AllNew(r1, r2, aliases, endpoint, {})
    ensures AllNew(r0, r2, aliases, endpoint, skip)
  {
    forall b, a | b !in skip && AliasOf(aliases, b, a) && IsNew(r0, r2, b, endpoint)
      ensures IsNew(r0, r2, a, endpoint)
    {
      if IsNew(r0, r1, b, endpoint) {
        assert IsNew(r0, r1, a, endpoint);
      } else {
        assert IsNew(r1, r2, b, endpoint);
        assert IsNew(r1, r2, a, endpoint);
      }
    }
  }

  // ---- Reaching a base along aliases ----

  ghost predicate Path(aliases: Aliases, p: seq<string>) {
    |p| > 0 && forall i :: 0 <= i < |p| - 1 ==> AliasOf(aliases, p[i], p[i + 1])
  }

  ghost predicate Reaches(aliases: Aliases, base: string, target: string) {
    exists p :: Path(aliases, p) && p[0] == base && p[|p| - 1] == target
  }

  ghost function Reachable(aliases: Aliases, base: string): set<string> {
    set x | x in {base} + (set b, a | b in aliases && a in aliases[b] :: a) && Reaches(aliases, base, x)
  }

  lemma ReachableClosed(aliases: Aliases, base: string)
    ensures base in Reachable(aliases, base) && ClosedSet(aliases, Reachable(aliases, base))
  {
    assert Path(aliases, [base]);
    forall b, a | b in Reachable(aliases, base) && AliasOf(aliases, b, a) ensures a in Reachable(aliases, base) {
      var p :| Path(aliases, p) && p[0] == base && p[|p| - 1] == b;
      var q := p + [a];
      assert Path(aliases, q) && q[0] == base && q[|q| - 1] == a;
    }
  }

  /** An endpoint forwarded along every alias is present at everything reachable. */
  lemma {:induction false} ForwardedAlongPath(routes: Routes, aliases: Aliases, endpoint: string, p: seq<string>)
    requires Forwarded(routes, aliases, endpoint, {}) && Path(aliases, p) && Has(routes, p[0], endpoint)
    ensures Has(routes, p[|p| - 1], endpoint)
    decreases |p|
  {
    if |p| > 1 {
      assert AliasOf(aliases, p[0], p[1]);
      assert Path(aliases, p[1..]);
      ForwardedAlongPath(routes, aliases, endpoint, p[1..]);
    }
  }

  lemma ReachesStep(aliases: Aliases, base: string, alias: string)
    requires AliasOf(aliases, base, alias)
    ensures Reachable(aliases, alias) <= Reachable(aliases, base)
  {
    forall x | x in Reachable(aliases, alias) ensures x in Reachable(aliases, base) {
      var p :| Path(aliases, p) && p[0] == alias && p[|p| - 1] == x;
      var q := [base] + p;
      assert forall i :: 0 <= i < |q| - 1 ==> q[i] == (if i == 0 then base else p[i - 1]) && q[i + 1] == p[i];
      assert Path(aliases, q) && q[0] == base && q[|q| - 1] == x;
    }
  }

  ghost predicate UniqueParents(aliases: Aliases) {
    forall b, c, a :: AliasOf(aliases, b, a) && AliasOf(aliases, c, a) ==> b == c
  }

  /** Two aliases of a base that lead to the same place without passing the base are the same alias. */
  lemma {:induction false} SiblingsApart(aliases: Aliases, base: string, p: seq<string>, q: seq<string>)
    requires UniqueParents(aliases) && Path(aliases, p) && Path(aliases, q)
    requires AliasOf(aliases, base, p[0]) && AliasOf(aliases, base, q[0]) && p[|p| - 1] == q[|q| - 1]
    requires base !in p && base !in q
    ensures p[0] == q[0]
    decreases |p|
  {
    assert |p| > 1 ==> AliasOf(aliases, p[|p| - 2], p[|p| - 1]);
    assert |q| > 1 ==> AliasOf(aliases, q[|q| - 2], q[|q| - 1]);
    if |p| > 1 && |q| > 1 {
      SiblingsApart(aliases, base, p[..|p| - 1], q[..|q| - 1]);
    }
  }

  lemma OnThePath(aliases: Aliases, p: seq<string>, x: string)
    requires Path(aliases, p) && x in p
    ensures Reaches(aliases, p[0], x)
  {
    var i :| 0 <= i < |p| && p[i] == x;
    var q := p[..i + 1];
    assert Path(aliases, q) && q[0] == p[0] && q[|q| - 1] == x;
  }

  /** Below root the aliases form a tree: no base has two parents, and nothing below leads back to root. */
  ghost predicate Tree(aliases: Aliases, root: string) {
    && UniqueParents(aliases)
    && (forall a :: AliasOf(aliases, root, a) ==> !Reaches(aliases, a, root))
  }

  lemma {:induction false} UniquePath(aliases: Aliases, root: string, p: seq<string>, q: seq<string>)
    requires Tree(aliases, root) && Path(aliases, p) && Path(aliases, q)
    requires p[0] == q[0] == root && p[|p| - 1] == q[|q| - 1]
    ensures p == q
    decreases |p| + |q|
  {
    if |p| == 1 || |q| == 1 {
      StaysBelow(aliases, root, p);
      StaysBelow(aliases, root, q);
    } else {
      assert AliasOf(aliases, p[|p| - 2], p[|p| - 1]) && AliasOf(aliases, q[|q| - 2], q[|q| - 1]);
      UniquePath(aliases, root, p[..|p| - 1], q[..|q| - 1]);
    }
  }

  lemma StaysBelow(aliases: Aliases, root: string, p: seq<string>)
    requires Tree(aliases, root) && Path(aliases, p) && p[0] == p[|p| - 1] == root
    ensures |p| == 1
  {
    if |p| > 1 {
      assert AliasOf(aliases, p[0], p[1]);
      assert Path(aliases, p[1..]);
    }
  }

  lemma Joined(aliases: Aliases, r: seq<string>, c: seq<string>)
    requires Path(aliases, r) && Path(aliases, c) && AliasOf(aliases, r[|r| - 1], c[0])
    ensures Path(aliases, r + c) && (r + c)[0] == r[0] && (r + c)[|r + c| - 1] == c[|c| - 1]
  {
    var q := r + c;
    forall i | 0 <= i < |q| - 1 ensures AliasOf(aliases, q[i], q[i + 1]) {
      if i >= |r| { assert q[i] == c[i - |r|]; }
    }
  }

  /** In a tree, an alias of a base does not lead back to the base. */
  lemma NotBack(aliases: Aliases, root: string, base: string, alias: string)
    requires Tree(aliases, root) && Reaches(aliases, root, base) && AliasOf(aliases, base, alias)
    ensures !Reaches(aliases, alias, base)
  {
    var r :| Path(aliases, r) && r[0] == root && r[|r| - 1] == base;
    forall c | Path(aliases, c) && c[0] == alias ensures c[|c| - 1] != base {
      Joined(aliases, r, c);
      if c[|c| - 1] == base { UniquePath(aliases, root, r, r + c); }
    }
  }

  /** What two aliases of a base reach is disjoint unless one leads back to the base. */
  lemma BranchesApart(aliases: Aliases, base: string, a1: string, a2: string, x: string)
    requires UniqueParents(aliases) && AliasOf(aliases, base, a1) && AliasOf(aliases, base, a2)
    requires !Reaches(aliases, a1, base) && !Reaches(aliases, a2, base)
    requires Reaches(aliases, a1, x) && Reaches(aliases, a2, x)
    ensures a1 == a2
  {
    var p :| Path(aliases, p) && p[0] == a1 && p[|p| - 1] == x;
    var q :| Path(aliases, q) && q[0] == a2 && q[|q| - 1] == x;
    if base in p { OnThePath(aliases, p, base); }
    if base in q { OnThePath(aliases, q, base); }
    SiblingsApart(aliases, base, p, q);
  }

  lemma ReachesFurther(aliases: Aliases, root: string, base: string, alias: string)
    requires Reaches(aliases, root, base) && AliasOf(aliases, base, alias)
    ensures Reaches(aliases, root, alias)
  {
    var r :| Path(aliases, r) && r[0] == root && r[|r| - 1] == base;
    assert Path(aliases, [alias]);
    Joined(aliases, r, [alias]);
  }

  ghost predicate Distinct(aliases: Aliases, b: string) {
    b in aliases ==> forall i, j :: 0 <= i < j < |aliases[b]| ==> aliases[b][i] != aliases[b][j]
  }

  ghost predicate AllDistinct(aliases: Aliases, s: set<string>) {
    forall b :: b in s ==> Distinct(aliases, b)
  }

  /** No base of a set has the endpoint yet. */
  ghost predicate Clear(routes: Routes, endpoint: string, s: set<string>) {
    forall b :: b in s ==> !Has(routes, b, endpoint)
  }

  /** The bases still without an endpoint. */
  ghost function Missing(routes: Routes, endpoint: string, within: set<string>): set<string> {
    set b | b in within && !Has(routes, b, endpoint)
  }

  lemma MissingShrinks(before: Routes, after: Routes, endpoint: string, handler: Handler, within: set<string>,
                       base: string, smaller: set<string>)
    requires Grew(before, after, endpoint, handler, within) && IsNew(before, after, base, endpoint) && smaller <= within
    ensures Missing(after, endpoint, smaller) < Missing(before, endpoint, within)
  {
    assert base in Missing(before, endpoint, within) && base !in Missing(after, endpoint, smaller);
  }

  /** A base whose aliases all have the endpoint need not stay open. */
  lemma CloseBase(routes: Routes, aliases: Aliases, endpoint: string, open: set<string>, base: string)
    requires Forwarded(routes, aliases, endpoint, open + {base})
    requires forall a :: AliasOf(aliases, base, a) ==> Has(routes, a, endpoint)
    ensures Forwarded(routes, aliases, endpoint, open)
  {
  }

  lemma CloseNew(before: Routes, after: Routes, aliases: Aliases, endpoint: string, base: string)
    requires AllNew(before, after, aliases, endpoint, {base})
    requires forall a :: AliasOf(aliases, base, a) ==> IsNew(before, after, a, endpoint)
    ensures AllNew(before, after, aliases, endpoint, {})
  {
  }

  lemma OpenBase(before: Routes, after: Routes, aliases: Aliases, endpoint: string, open: set<string>, base: string)
    requires Forwarded(before, aliases, endpoint, open) && IsNew(before, after, base, endpoint)
    requires forall b :: b != base ==> (Has(after, b, endpoint) <==> Has(before, b, endpoint))
    ensures Forwarded(after, aliases, endpoint, open + {base}) && AllNew(before, after, aliases, endpoint, {base})
  {
  }

  lemma GrewWithin(before: Routes, after: Routes, endpoint: string, handler: Handler, within: set<string>,
                   larger: set<string>)
    requires Grew(before, after, endpoint, handler, within) && within <= larger
    ensures Grew(before, after, endpoint, handler, larger)
  {
  }

  /** What was added so far lies at the base itself or below an alias already forwarded to. */
  ghost predicate AddedBelow(before: Routes, after: Routes, aliases: Aliases, endpoint: string, base: string,
                             done: seq<string>)
  {
    forall b :: IsNew(before, after, b, endpoint) ==> b == base || exists a :: a in done && b in Reachable(aliases, a)
  }

  /** Forwarding to earlier aliases leaves everything below the next one clear. */
  lemma NextBranchClear(before: Routes, mid: Routes, aliases: Aliases, endpoint: string, base: string,
                        done: seq<string>, alias: string)
    requires UniqueParents(aliases) && alias !in done
    requires forall a :: a in done + [alias] ==> AliasOf(aliases, base, a) && !Reaches(aliases, a, base)
    requires Clear(before, endpoint, Reachable(aliases, alias))
    requires AddedBelow(before, mid, aliases, endpoint, base, done)
    ensures Clear(mid, endpoint, Reachable(aliases, alias))
  {
    assert alias in done + [alias];
    forall x | x in Reachable(aliases, alias) ensures !Has(mid, x, endpoint) {
      if IsNew(before, mid, x, endpoint) {
        var a :| a in done && x in Reachable(aliases, a);
        assert a in done + [alias];
        BranchesApart(aliases, base, alias, a, x);
      }
    }
  }

  lemma AddedBelowMore(before: Routes, mid: Routes, after: Routes, aliases: Aliases, endpoint: string, handler: Handler,
                       base: string, done: seq<string>, alias: string)
    requires AddedBelow(before, mid, aliases, endpoint, base, done)
    requires Grew(mid, after, endpoint, handler, Reachable(aliases, alias))
    ensures AddedBelow(before, after, aliases, endpoint, base, done + [alias])
  {
    forall b | IsNew(before, after, b, endpoint)
      ensures b == base || exists a :: a in done + [alias] && b in Reachable(aliases, a)
    {
      if IsNew(before, mid, b, endpoint) {
        if b != base {
          var a :| a in done && b in Reachable(aliases, a);
          assert a in done + [alias];
        }
      } else {
        assert alias in done + [alias];
      }
    }
  }

  /** A call below root meets no base twice and none that already has the endpoint. */
  ghost predicate Calm(aliases: Aliases, root: string, base: string, routes: Routes, endpoint: string) {
    && Tree(aliases, root) && Reaches(aliases, root, base)
    && AllDistinct(aliases, Reachable(aliases, base)) && Clear(routes, endpoint, Reachable(aliases, base))
  }

  /** The state of the loop over the aliases of base, done with some of them. */
  ghost predicate Forwarding(before: Routes, now: Routes, aliases: Aliases, endpoint: string, handler: Handler,
                             open: set<string>, base: string, done: seq<string>, err: bool, calm: bool)
  {
    && Grew(before, now, endpoint, handler, Reachable(aliases, base))
    && Forwarded(now, aliases, endpoint, open + {base})
    && (forall a :: a in done ==> Has(now, a, endpoint))
    && (!err ==> AllNew(before, now, aliases, endpoint, {base}))
    && (!err ==>
        forall a :: a in done ==> IsNew(before, now, a, endpoint) && AllDistinct(aliases, Reachable(aliases, a)))
    && (!err ==> forall j, k :: 0 <= j < k < |done| ==> done[j] != done[k])
    && (calm ==> !err && AddedBelow(before, now, aliases, endpoint, base, done))
  }

  lemma ForwardingStart(before: Routes, now: Routes, aliases: Aliases, endpoint: string, handler: Handler,
                        open: set<string>, base: string, calm: bool)
    requires Grew(before, now, endpoint, handler, Reachable(aliases, base))
    requires Forwarded(now, aliases, endpoint, open + {base}) && AllNew(before, now, aliases, endpoint, {base})
    requires forall b :: b != base ==> (Has(now, b, endpoint) <==> Has(before, b, endpoint))
    ensures Forwarding(before, now, aliases, endpoint, handler, open, base, [], false, calm)
  {
  }

  lemma AliasAt(aliases: Aliases, base: string, i: nat)
    requires base in aliases && i < |aliases[base]|
    ensures AliasOf(aliases, base, aliases[base][i])
  {
  }

  lemma StaysNew(before: Routes, mid: Routes, after: Routes, base: string, endpoint: string, handler: Handler,
                 within: set<string>)
    requires IsNew(before, mid, base, endpoint) && Grew(mid, after, endpoint, handler, within)
    ensures IsNew(before, after, base, endpoint)
  {
  }

  /** What the recursive call on the next alias needs. */
  lemma ForwardingReady(before: Routes, now: Routes, aliases: Aliases, endpoint: string, handler: Handler,
                        open: set<string>, root: string, base: string, i: nat, err: bool)
    requires base in aliases && i < |aliases[base]|
    requires Forwarding(before, now, aliases, endpoint, handler, open, base, aliases[base][..i], err,
                        Calm(aliases, root, base, before, endpoint))
    requires IsNew(before, now, base, endpoint) && forall b :: b in open ==> Has(before, b, endpoint)
    ensures forall b :: b in open + {base} ==> Has(now, b, endpoint)
    ensures Forwarded(now, aliases, endpoint, open + {base})
    ensures Missing(now, endpoint, Reachable(aliases, aliases[base][i])) <
            Missing(before, endpoint, Reachable(aliases, base))
    ensures Calm(aliases, root, base, before, endpoint) ==> Calm(aliases, root, aliases[base][i], now, endpoint)
  {
    hide AllNew, Forwarded, AddedBelow, AllDistinct, Calm, Reachable, Missing;
    var alias := aliases[base][i];
    assert AliasOf(aliases, base, alias);
    ReachesStep(aliases, base, alias);
    MissingShrinks(before, now, endpoint, handler, Reachable(aliases, base), base, Reachable(aliases, alias));
    if Calm(aliases, root, base, before, endpoint) {
      CalmStep(before, now, aliases, endpoint, root, base, i);
    }
  }

  lemma ForwardingDone(before: Routes, now: Routes, aliases: Aliases, endpoint: string, handler: Handler,
                       open: set<string>, root: string, base: string, err: bool)
    requires Forwarding(before, now, aliases, endpoint, handler, open, base,
                        if base in aliases then aliases[base] else [], err, Calm(aliases, root, base, before, endpoint))
    ensures Forwarded(now, aliases, endpoint, open) && Grew(before, now, endpoint, handler, Reachable(aliases, base))
    ensures !err ==> AllNew(before, now, aliases, endpoint, {}) && AllDistinct(aliases, Reachable(aliases, base))
    ensures Calm(aliases, root, base, before, endpoint) ==> !err
  {
    hide AllNew, Forwarded, Grew, Calm, Reachable, AddedBelow;
    CloseBase(now, aliases, endpoint, open, base);
    if !err {
      CloseNew(before, now, aliases, endpoint, base);
      DistinctBelow(aliases, base);
    }
  }

  lemma ForwardingMeans(before: Routes, now: Routes, aliases: Aliases, endpoint: string, handler: Handler,
                        open: set<string>, base: string, done: seq<string>, err: bool, calm: bool)
    requires Forwarding(before, now, aliases, endpoint, handler, open, base, done, err, calm)
    ensures Forwarded(now, aliases, endpoint, open + {base})
    ensures calm ==> AddedBelow(before, now, aliases, endpoint, base, done)
  {
  }

  lemma ForwardingStep(before: Routes, mid: Routes, after: Routes, aliases: Aliases, endpoint: string, handler: Handler,
                       open: set<string>, base: string, done: seq<string>, alias: string, err: bool, innerErr: bool,
                       calm: bool)
    requires Forwarding(before, mid, aliases, endpoint, handler, open, base, done, err, calm)
    requires AliasOf(aliases, base, alias)
    requires Forwarded(after, aliases, endpoint, open + {base}) && Has(after, alias, endpoint)
    requires Grew(mid, after, endpoint, handler, Reachable(aliases, alias))
    requires !innerErr ==> IsNew(mid, after, alias, endpoint) && AllNew(mid, after, aliases, endpoint, {})
    requires !innerErr ==> AllDistinct(aliases, Reachable(aliases, alias))
    requires calm ==> !innerErr
    ensures Forwarding(before, after, aliases, endpoint, handler, open, base, done + [alias], err || innerErr, calm)
  {
    hide AllNew, Forwarded, AddedBelow, AllDistinct, Reachable, Grew;
    var within := Reachable(aliases, base);
    ReachesStep(aliases, base, alias);
    GrewWithin(mid, after, endpoint, handler, Reachable(aliases, alias), within);
    OneMoreAlias(before, mid, after, aliases, endpoint, handler, within, base, done, alias, !err && !innerErr);
    if calm {
      AddedBelowMore(before, mid, after, aliases, endpoint, handler, base, done, alias);
    }
  }

  /** In calm conditions the next alias is fresh, clear below, and without repetitions below. */
  lemma CalmStep(before: Routes, mid: Routes, aliases: Aliases, endpoint: string, root: string, base: string, i: nat)
    requires base in aliases && i < |aliases[base]|
    requires Calm(aliases, root, base, before, endpoint)
    requires AddedBelow(before, mid, aliases, endpoint, base, aliases[base][..i])
    ensures Calm(aliases, root, aliases[base][i], mid, endpoint)
  {
    var todo := aliases[base];
    ReachableClosed(aliases, base);
    assert Distinct(aliases, base);
    assert AliasOf(aliases, base, todo[i]);
    ReachesStep(aliases, base, todo[i]);
    ReachesFurther(aliases, root, base, todo[i]);
    forall a | a in todo[..i] + [todo[i]] ensures AliasOf(aliases, base, a) && !Reaches(aliases, a, base) {
      NotBack(aliases, root, base, a);
    }
    NextBranchClear(before, mid, aliases, endpoint, base, todo[..i], todo[i]);
  }

  /** No base below a base forwards to an alias twice, if none does below its aliases and it does not itself. */
  lemma DistinctBelow(aliases: Aliases, base: string)
    requires Distinct(aliases, base)
    requires forall a :: AliasOf(aliases, base, a) ==> AllDistinct(aliases, Reachable(aliases, a))
    ensures AllDistinct(aliases, Reachable(aliases, base))
  {
    forall b | b in Reachable(aliases, base) ensures Distinct(aliases, b) {
      var p :| Path(aliases, p) && p[0] == base && p[|p| - 1] == b;
      if |p| > 1 {
        var q := p[1..];
        assert AliasOf(aliases, p[0], p[1]);
        assert Path(aliases, q) && q[0] == p[1] && q[|q| - 1] == b;
        assert AliasOf(aliases, if |q| == 1 then base else q[|q| - 2], b);
        assert b in Reachable(aliases, p[1]);
      }
    }
  }

  /** What one more forwarded alias adds to what the earlier ones achieved. */
  lemma OneMoreAlias(before: Routes, mid: Routes, after: Routes, aliases: Aliases, endpoint: string, handler: Handler,
                     within: set<string>, base: string, done: seq<string>, alias: string, clean: bool)
    requires Grew(before, mid, endpoint, handler, within)
    requires Grew(mid, after, endpoint, handler, within) && Has(after, alias, endpoint)
    requires forall a :: a in done ==> Has(mid, a, endpoint)
    requires clean ==>
             AllNew(before, mid, aliases, endpoint, {base}) && forall a :: a in done ==> IsNew(before, mid, a, endpoint)
    requires clean ==> IsNew(mid, after, alias, endpoint) && AllNew(mid, after, aliases, endpoint, {})
    ensures Grew(before, after, endpoint, handler, within)
    ensures forall a :: a in done + [alias] ==> Has(after, a, endpoint)
    ensures clean ==> AllNew(before, after, aliases, endpoint, {base})
    ensures clean ==> forall a :: a in done + [alias] ==> IsNew(before, after, a, endpoint)
  {
    GrewTrans(before, mid, after, endpoint, handler, within);
    if clean {
      AllNewTrans(before, mid, after, aliases, endpoint, handler, within, {base});
    }
  }

  /** Aliases serve the same handler as their base. */
  ghost predicate AgreeOn(routes: Routes, aliases: Aliases, endpoint: string) {
    forall b, a :: AliasOf(aliases, b, a) && Has(routes, b, endpoint) && Has(routes, a, endpoint) ==>
      routes[a][endpoint] == routes[b][endpoint]
  }

  lemma AgreeKept(before: Routes, after: Routes, aliases: Aliases, endpoint: string, handler: Handler,
                  within: set<string>)
    requires Grew(before, after, endpoint, handler, within) && AllNew(before, after, aliases, endpoint, {})
    requires Forwarded(before, aliases, endpoint, {}) && forall e :: AgreeOn(before, aliases, e)
    ensures forall e :: AgreeOn(after, aliases, e)
  {
    forall e ensures AgreeOn(after, aliases, e) {
      assert AgreeOn(before, aliases, e);
      forall b, a | AliasOf(aliases, b, a) && Has(after, b, e) && Has(after, a, e)
        ensures after[a][e] == after[b][e]
      {
        if e == endpoint && IsNew(before, after, b, e) {
          assert IsNew(before, after, a, e);
        }
      }
    }
  }

  /** Forwarding of other endpoints is not disturbed. */
  lemma OthersForwarded(before: Routes, after: Routes, aliases: Aliases, endpoint: string, handler: Handler,
                        within: set<string>, e: string, open: set<string>)
    requires Grew(before, after, endpoint, handler, within) && e != endpoint
    ensures Forwarded(before, aliases, e, open) ==> Forwarded(after, aliases, e, open)
  {
    assert forall b :: Has(after, b, e) <==> Has(before, b, e);
  }

  /** Without an error, everything reachable got the endpoint now. */
  lemma {:induction false} NewAlongPath(before: Routes, after: Routes, aliases: Aliases, endpoint: string,
                                        p: seq<string>)
    requires AllNew(before, after, aliases, endpoint, {}) && Path(aliases, p) && IsNew(before, after, p[0], endpoint)
    ensures IsNew(before, after, p[|p| - 1], endpoint)
    decreases |p|
  {
    if |p| > 1 {
      assert AliasOf(aliases, p[0], p[1]);
      assert Path(aliases, p[1..]);
      NewAlongPath(before, after, aliases, endpoint, p[1..]);
    }
  }

  lemma AllReachedNew(before: Routes, after: Routes, aliases: Aliases, endpoint: string, base: string)
    requires AllNew(before, after, aliases, endpoint, {}) && IsNew(before, after, base, endpoint)
    ensures Clear(before, endpoint, Reachable(aliases, base))
  {
    forall x | x in Reachable(aliases, base) ensures !Has(before, x, endpoint) {
      var p :| Path(aliases, p) && p[0] == base && p[|p| - 1] == x;
      NewAlongPath(before, after, aliases, endpoint, p);
    }
  }

  /** A base that is nobody's alias is the root of a tree. */
  lemma UnreservedIsRoot(aliases: Aliases, base: string)
    requires UniqueParents(aliases) && forall b :: !AliasOf(aliases, b, base)
    ensures Tree(aliases, base) && Reaches(aliases, base, base)
  {
    assert Path(aliases, [base]);
    forall p | Path(aliases, p) && AliasOf(aliases, base, p[0]) ensures p[|p| - 1] != base {
      if |p| > 1 {
        assert AliasOf(aliases, p[|p| - 2], p[|p| - 1]);
      }
    }
  }

  /** Only the parent of an alias leads to it, so an alias that does not reach its parent is the root of a tree. */
  lemma AliasIsRoot(aliases: Aliases, base: string, alias: string)
    requires UniqueParents(aliases) && AliasOf(aliases, base, alias) && !Reaches(aliases, alias, base)
    ensures Tree(aliases, alias) && Reaches(aliases, alias, alias)
  {
    assert Path(aliases, [alias]);
    forall a | AliasOf(aliases, alias, a) ensures !Reaches(aliases, a, alias) {
      forall p | Path(aliases, p) && p[0] == a ensures p[|p| - 1] != alias {
        Joined(aliases, [alias], p);
        if p[|p| - 1] == alias {
          if |p| > 1 {
            assert AliasOf(aliases, p[|p| - 2], p[|p| - 1]);
            assert p[|p| - 2] in [alias] + p;
          }
          OnThePath(aliases, [alias] + p, base);
        }
      }
    }
  }

  /** Forwarding an endpoint to these aliases runs into a base that has it, or into one twice. */
  ghost predicate Refused(routes: Routes, aliases: Aliases, endpoint: string, list: seq<string>) {
    || (exists i, j :: 0 <= i < j < |list| && list[i] == list[j])
    || (exists a :: a in list && !AllDistinct(aliases, Reachable(aliases, a)))
    || (exists a :: a in list && !Clear(routes, endpoint, Reachable(aliases, a)))
  }

  lemma AliasCalm(before: Routes, mid: Routes, aliases: Aliases, endpoint: string, base: string, list: seq<string>,
                  i: nat)
    requires UniqueParents(aliases) && i < |list| && Has(before, base, endpoint)
    requires forall a :: a in list ==> AliasOf(aliases, base, a)
    requires !Refused(before, aliases, endpoint, list)
    requires AddedBelow(before, mid, aliases, endpoint, base, list[..i])
    ensures Calm(aliases, list[i], list[i], mid, endpoint)
  {
    forall a | a in list ensures !Reaches(aliases, a, base) && Tree(aliases, a) && Reaches(aliases, a, a) {
      assert Clear(before, endpoint, Reachable(aliases, a));
      ReachedIsReachable(aliases, a, base);
      AliasIsRoot(aliases, base, a);
    }
    assert list[i] !in list[..i];
    NextBranchClear(before, mid, aliases, endpoint, base, list[..i], list[i]);
  }

  lemma ReachedIsReachable(aliases: Aliases, a: string, x: string)
    ensures Reaches(aliases, a, x) <==> x in Reachable(aliases, a)
  {
    forall p | Path(aliases, p) && p[0] == a && p[|p| - 1] == x ensures x in Reachable(aliases, a) {
      if |p| > 1 {
        assert AliasOf(aliases, p[|p| - 2], p[|p| - 1]);
      }
    }
  }

  lemma StaysThere(before: Routes, after: Routes, base: string, endpoint: string, handler: Handler, within: set<string>)
    requires Has(before, base, endpoint) && Grew(before, after, endpoint, handler, within)
    ensures Has(after, base, endpoint)
  {
  }

  lemma NotRefused(before: Routes, after: Routes, aliases: Aliases, endpoint: string, base: string, list: seq<string>)
    requires Has(before, base, endpoint) && AllNew(before, after, aliases, endpoint, {base})
    requires forall a :: a in list ==> IsNew(before, after, a, endpoint) && AllDistinct(aliases, Reachable(aliases, a))
    requires forall j, k :: 0 <= j < k < |list| ==> list[j] != list[k]
    ensures AllNew(before, after, aliases, endpoint, {}) && !Refused(before, aliases, endpoint, list)
  {
    forall a | a in list ensures Clear(before, endpoint, Reachable(aliases, a)) {
      AllReachedNew(before, after, aliases, endpoint, a);
    }
  }

  function WithAliases(aliases: Aliases, base: string, list: seq<string>): Aliases {
    aliases[base := (if base in aliases then aliases[base] else []) + list]
  }

  ghost function Endpoints(routes: Routes, base: string): set<string> {
    if base in routes then routes[base].Keys else {}
  }

  /** Nothing is lost or changed, and what is new are these endpoints of base, with its handlers, below it. */
  ghost predicate Spread(before: Routes, after: Routes, aliases: Aliases, base: string, done: set<string>) {
    && (forall b, e :: Has(before, b, e) ==> Has(after, b, e) && after[b][e] == before[b][e])
    && (forall b, e :: Has(after, b, e) && !Has(before, b, e) ==>
         e in done && Has(before, base, e) && after[b][e] == before[base][e] && b in Reachable(aliases, base))
  }

  /** The loop over the endpoints of base, done with some of them: where they are. */
  ghost predicate SpreadOver(r0: Routes, now: Routes, aliases: Aliases, base: string, list: seq<string>,
                             done: set<string>)
  {
    && done <= Endpoints(r0, base) && Spread(r0, now, aliases, base, done)
    && UniqueParents(aliases) && (forall a :: a in list ==> AliasOf(aliases, base, a))
    && (forall e :: Forwarded(now, aliases, e, {base}))
    && (forall e, a :: e in done && a in list ==> Has(now, a, e))
  }

  /** And whether one of them met an error. */
  ghost predicate SpreadWell(r0: Routes, now: Routes, aliases: Aliases, list: seq<string>, done: set<string>,
                             err: bool)
  {
    && (err <==> exists e :: e in done && Refused(r0, aliases, e, list))
    && (!err ==> forall e :: AllNew(r0, now, aliases, e, {}))
    && (!err ==> forall e, a :: e in done && a in list ==> IsNew(r0, now, a, e))
  }

  ghost predicate SpreadSoFar(r0: Routes, now: Routes, aliases: Aliases, base: string, list: seq<string>,
                              done: set<string>, err: bool)
  {
    SpreadOver(r0, now, aliases, base, list, done) && SpreadWell(r0, now, aliases, list, done, err)
  }

  lemma SpreadStart(r0: Routes, aliases0: Aliases, aliases: Aliases, base: string, list: seq<string>)
    requires aliases == WithAliases(aliases0, base, list) && UniqueParents(aliases)
    requires forall e :: Forwarded(r0, aliases0, e, {})
    ensures SpreadSoFar(r0, r0, aliases, base, list, {}, false)
  {
    forall e ensures Forwarded(r0, aliases, e, {base}) {
      assert Forwarded(r0, aliases0, e, {});
      assert forall b, a :: b != base ==> (AliasOf(aliases, b, a) <==> AliasOf(aliases0, b, a));
    }
  }

  /** Endpoints not yet forwarded are as they were. */
  lemma Untouched(r0: Routes, now: Routes, aliases: Aliases, base: string, list: seq<string>, done: set<string>,
                  e: string)
    requires Spread(r0, now, aliases, base, done) && e !in done
    ensures forall b :: Has(now, b, e) <==> Has(r0, b, e)
    ensures Refused(now, aliases, e, list) <==> Refused(r0, aliases, e, list)
  {
    assert forall b :: Has(now, b, e) <==> Has(r0, b, e);
    forall s: set<string> ensures Clear(now, e, s) <==> Clear(r0, e, s) {
    }
  }

  lemma SpreadReady(r0: Routes, now: Routes, aliases: Aliases, base: string, list: seq<string>, done: set<string>,
                    err: bool, endpoint: string)
    requires SpreadSoFar(r0, now, aliases, base, list, done, err) && endpoint in Endpoints(r0, base)
    requires endpoint !in done
    ensures Has(now, base, endpoint) && Has(r0, base, endpoint) && now[base][endpoint] == r0[base][endpoint]
    ensures UniqueParents(aliases) && (forall a :: a in list ==> AliasOf(aliases, base, a))
    ensures Forwarded(now, aliases, endpoint, {base})
    ensures Refused(now, aliases, endpoint, list) <==> Refused(r0, aliases, endpoint, list)
  {
    Untouched(r0, now, aliases, base, list, done, endpoint);
  }

  lemma SpreadMore(r0: Routes, mid: Routes, now: Routes, aliases: Aliases, base: string, done: set<string>,
                   endpoint: string)
    requires Spread(r0, mid, aliases, base, done) && Has(r0, base, endpoint)
    requires Grew(mid, now, endpoint, r0[base][endpoint], Reachable(aliases, base))
    ensures Spread(r0, now, aliases, base, done + {endpoint})
  {
  }

  lemma SpreadStep(r0: Routes, mid: Routes, now: Routes, aliases: Aliases, base: string, list: seq<string>,
                   done: set<string>, err: bool, endpoint: string, innerErr: bool)
    requires SpreadSoFar(r0, mid, aliases, base, list, done, err) && endpoint in Endpoints(r0, base)
    requires endpoint !in done
    requires Grew(mid, now, endpoint, r0[base][endpoint], Reachable(aliases, base))
    requires Forwarded(now, aliases, endpoint, {base}) && forall a :: a in list ==> Has(now, a, endpoint)
    requires innerErr <==> Refused(r0, aliases, endpoint, list)
    requires !innerErr ==>
             AllNew(mid, now, aliases, endpoint, {}) && forall a :: a in list ==> IsNew(mid, now, a, endpoint)
    ensures SpreadSoFar(r0, now, aliases, base, list, done + {endpoint}, err || innerErr)
  {
    SpreadReady(r0, mid, aliases, base, list, done, err, endpoint);
    Untouched(r0, mid, aliases, base, list, done, endpoint);
    hide SpreadOver, SpreadWell;
    SpreadOverStep(r0, mid, now, aliases, base, list, done, endpoint);
    SpreadWellStep(r0, mid, now, aliases, list, done, err, endpoint, r0[base][endpoint], Reachable(aliases, base),
                   innerErr);
  }

  lemma SpreadOverStep(r0: Routes, mid: Routes, now: Routes, aliases: Aliases, base: string, list: seq<string>,
                       done: set<string>, endpoint: string)
    requires SpreadOver(r0, mid, aliases, base, list, done) && Has(r0, base, endpoint)
    requires Grew(mid, now, endpoint, r0[base][endpoint], Reachable(aliases, base))
    requires Forwarded(now, aliases, endpoint, {base}) && forall a :: a in list ==> Has(now, a, endpoint)
    ensures SpreadOver(r0, now, aliases, base, list, done + {endpoint})
  {
    SpreadMore(r0, mid, now, aliases, base, done, endpoint);
    GrewKeeps(mid, now, endpoint, r0[base][endpoint], Reachable(aliases, base));
    hide Reachable, UniqueParents, Forwarded, Spread, Grew;
    forall e ensures Forwarded(now, aliases, e, {base}) {
      if e != endpoint {
        OthersForwarded(mid, now, aliases, endpoint, r0[base][endpoint], Reachable(aliases, base), e, {base});
      }
    }
  }

  lemma SpreadWellStep(r0: Routes, mid: Routes, now: Routes, aliases: Aliases, list: seq<string>, done: set<string>,
                       err: bool, endpoint: string, handler: Handler, within: set<string>, innerErr: bool)
    requires SpreadWell(r0, mid, aliases, list, done, err) && endpoint !in done
    requires Grew(mid, now, endpoint, handler, within) && forall b :: Has(mid, b, endpoint) <==> Has(r0, b, endpoint)
    requires innerErr <==> Refused(r0, aliases, endpoint, list)
    requires !innerErr ==>
             AllNew(mid, now, aliases, endpoint, {}) && forall a :: a in list ==> IsNew(mid, now, a, endpoint)
    ensures SpreadWell(r0, now, aliases, list, done + {endpoint}, err || innerErr)
  {
    GrewKeeps(mid, now, endpoint, handler, within);
    hide Refused, AllNew, Grew;
    if innerErr { assert endpoint in done + {endpoint}; }
    if err {
      var e :| e in done && Refused(r0, aliases, e, list);
      assert e in done + {endpoint};
    }
    if !err && !innerErr {
      forall e ensures AllNew(r0, now, aliases, e, {}) {
        SpreadNew(r0, mid, now, aliases, endpoint, handler, within, e);
      }
    }
  }

  lemma GrewKeeps(before: Routes, after: Routes, endpoint: string, handler: Handler, within: set<string>)
    requires Grew(before, after, endpoint, handler, within)
    ensures forall b, e :: Has(before, b, e) ==> Has(after, b, e)
    ensures forall b, e :: e != endpoint ==> (Has(after, b, e) <==> Has(before, b, e))
  {
  }

  lemma SpreadNew(r0: Routes, mid: Routes, now: Routes, aliases: Aliases, endpoint: string, handler: Handler,
                  within: set<string>, e: string)
    requires Grew(mid, now, endpoint, handler, within) && AllNew(r0, mid, aliases, e, {})
    requires forall b :: Has(mid, b, endpoint) <==> Has(r0, b, endpoint)
    requires AllNew(mid, now, aliases, endpoint, {})
    ensures AllNew(r0, now, aliases, e, {})
  {
    GrewKeeps(mid, now, endpoint, handler, within);
    hide Grew;
    if e == endpoint {
      assert forall b :: IsNew(r0, now, b, e) <==> IsNew(mid, now, b, e);
    } else {
      assert forall b :: IsNew(r0, now, b, e) <==> IsNew(r0, mid, b, e);
    }
  }

  lemma SpreadEnd(r0: Routes, now: Routes, aliases: Aliases, base: string, list: seq<string>, err: bool)
    requires SpreadSoFar(r0, now, aliases, base, list, Endpoints(r0, base), err)
    ensures forall e, a :: Has(r0, base, e) && a in list ==> Has(now, a, e)
    ensures err <==> exists e :: Has(r0, base, e) && Refused(r0, aliases, e, list)
    ensures !err ==> forall e, a :: Has(r0, base, e) && a in list ==> IsNew(r0, now, a, e)
  {
    assert forall e :: e in Endpoints(r0, base) <==> Has(r0, base, e);
  }

  lemma MoreAliases(aliases0: Aliases, base: string, list: seq<string>)
    ensures var aliases := WithAliases(aliases0, base, list);
            forall b, a :: AliasOf(aliases, b, a) <==> AliasOf(aliases0, b, a) || (b == base && a in list)
  {
  }

  /** Aliases that nothing reserved have no base yet. */
  lemma StillUnique(aliases0: Aliases, aliases: Aliases, reserved: set<string>, base: string, list: seq<string>)
    requires UniqueParents(aliases0) && (forall b, a :: AliasOf(aliases0, b, a) ==> a in reserved)
    requires forall a :: a in list ==> a !in reserved
    requires forall b, a :: AliasOf(aliases, b, a) <==> AliasOf(aliases0, b, a) || (b == base && a in list)
    ensures UniqueParents(aliases)
  {
  }

  /** After all endpoints are forwarded the router is closed again, and while clean its handlers agree. */
  lemma AliasesDone(r0: Routes, now: Routes, aliases0: Aliases, aliases: Aliases, base: string, list: seq<string>,
                    clean: bool)
    requires forall b, a :: AliasOf(aliases, b, a) <==> AliasOf(aliases0, b, a) || (b == base && a in list)
    requires Spread(r0, now, aliases, base, Endpoints(r0, base))
    requires forall e :: Forwarded(r0, aliases0, e, {})
    requires forall e :: Forwarded(now, aliases, e, {base})
    requires forall e, a :: Has(r0, base, e) && a in list ==> Has(now, a, e)
    requires clean ==> (forall e :: AgreeOn(r0, aliases0, e)) && (forall e :: AllNew(r0, now, aliases, e, {}))
    requires clean ==> forall e, a :: Has(r0, base, e) && a in list ==> IsNew(r0, now, a, e)
    ensures forall e :: Forwarded(now, aliases, e, {})
    ensures clean ==> forall e :: AgreeOn(now, aliases, e)
  {
    forall e ensures Forwarded(now, aliases, e, {}) {
      assert Forwarded(now, aliases, e, {base}) && Forwarded(r0, aliases0, e, {});
    }
    if clean {
      forall e ensures AgreeOn(now, aliases, e) {
        assert AgreeOn(r0, aliases0, e) && AllNew(r0, now, aliases, e, {}) && Forwarded(r0, aliases0, e, {});
      }
    }
  }

  class ApiRouter {
    var reservedRoutes: set<string>
    var aliases: Aliases
    var routes: Routes
    /** No registration that changed the routes has reported an error. */
    ghost var clean: bool

    /**
     Registers an endpoint at a base and, recursively, at its aliases. A base that already has the
     endpoint reports an error and stops the descent there; the other branches go on. The descent
     ends because every call that goes on takes one base out of those still without the endpoint.
     */
    method ForceAddRouter(base: string, endpoint: string, handler: Handler, ghost open: set<string>, ghost root: string)
      returns (err: bool)
      requires forall b :: b in open ==> Has(routes, b, endpoint)
      requires Forwarded(routes, aliases, endpoint, open)
      modifies `routes
      ensures Forwarded(routes, aliases, endpoint, open) && Has(routes, base, endpoint)
      ensures Grew(old(routes), routes, endpoint, handler, Reachable(aliases, base))
      ensures !err ==> IsNew(old(routes), routes, base, endpoint) && AllNew(old(routes), routes, aliases, endpoint, {})
      ensures !err ==> AllDistinct(aliases, Reachable(aliases, base))
      ensures Calm(aliases, root, base, old(routes), endpoint) ==> !err
      decreases Missing(routes, endpoint, Reachable(aliases, base))
    {
      ghost var within, before := Reachable(aliases, base), routes;
      ReachableClosed(aliases, base);
      var endpoints := if base in routes then routes[base] else map[];
      if endpoint in endpoints {
        return true;
      }
      AddOne(routes, base, endpoint, handler, within);
      endpoints := endpoints[endpoint := handler];
      routes := routes[base := endpoints];
      OpenBase(before, routes, aliases, endpoint, open, base);
      err := ForwardToAliases(base, endpoint, handler, open, root, before);
    }

    /** The loop over the aliases of a base that has just got the endpoint. */
    method ForwardToAliases(base: string, endpoint: string, handler: Handler, ghost open: set<string>,
                            ghost root: string, ghost before: Routes)
      returns (err: bool)
      requires Grew(before, routes, endpoint, handler, Reachable(aliases, base))
      requires IsNew(before, routes, base, endpoint)
      requires forall b :: b != base ==> (Has(routes, b, endpoint) <==> Has(before, b, endpoint))
      requires forall b :: b in open ==> Has(before, b, endpoint)
      requires Forwarded(routes, aliases, endpoint, open + {base}) && AllNew(before, routes, aliases, endpoint, {base})
      modifies `routes
      ensures Forwarded(routes, aliases, endpoint, open)
      ensures Grew(before, routes, endpoint, handler, Reachable(aliases, base)) && IsNew(before, routes, base, endpoint)
      ensures !err ==> AllNew(before, routes, aliases, endpoint, {}) && AllDistinct(aliases, Reachable(aliases, base))
      ensures Calm(aliases, root, base, before, endpoint) ==> !err
      decreases Missing(before, endpoint, Reachable(aliases, base)), 1
    {
      ghost var calm := Calm(aliases, root, base, before, endpoint);
      ForwardingStart(before, routes, aliases, endpoint, handler, open, base, calm);
      var todo := if base in aliases then aliases[base] else [];
      err := false;
      assert todo[..0] == [];
      for i := 0 to |todo|
        invariant Forwarding(before, routes, aliases, endpoint, handler, open, base, todo[..i], err, calm)
        invariant IsNew(before, routes, base, endpoint)
      {
        err := ForwardOne(base, i, endpoint, handler, open, root, before, err);
      }
      assert todo[..|todo|] == todo;
      ForwardingDone(before, routes, aliases, endpoint, handler, open, root, base, err);
    }

    /** Forwards to one alias, keeping the first error. */
    method ForwardOne(base: string, i: nat, endpoint: string, handler: Handler, ghost open: set<string>,
                      ghost root: string, ghost before: Routes, err0: bool)
      returns (err: bool)
      requires base in aliases && i < |aliases[base]|
      requires Forwarding(before, routes, aliases, endpoint, handler, open, base, aliases[base][..i], err0,
                          Calm(aliases, root, base, before, endpoint))
      requires IsNew(before, routes, base, endpoint) && forall b :: b in open ==> Has(before, b, endpoint)
      modifies `routes
      ensures Forwarding(before, routes, aliases, endpoint, handler, open, base, aliases[base][..i + 1], err,
                         Calm(aliases, root, base, before, endpoint))
      ensures IsNew(before, routes, base, endpoint)
      decreases Missing(before, endpoint, Reachable(aliases, base)), 0
    {
      hide *;
      ghost var mid := routes;
      var alias := aliases[base][i];
      ForwardingReady(before, routes, aliases, endpoint, handler, open, root, base, i, err0);
      err := ForceAddRouter(alias, endpoint, handler, open + {base}, root);
      AliasAt(aliases, base, i);
      ForwardingStep(before, mid, routes, aliases, endpoint, handler, open, base, aliases[base][..i], alias, err0, err,
                     Calm(aliases, root, base, before, endpoint));
      StaysNew(before, mid, routes, base, endpoint, handler, Reachable(aliases, alias));
      assert aliases[base][..i + 1] == aliases[base][..i] + [alias];
      err := err0 || err;
    }

    /** Every endpoint of a base is present at its aliases, and at theirs; while clean, with the same handler. */
    ghost predicate Valid()
      reads this
    {
      && (forall e :: Forwarded(routes, aliases, e, {}))
      && (forall b, a :: AliasOf(aliases, b, a) ==> a in reservedRoutes)
      && UniqueParents(aliases)
      && (clean ==> forall e :: AgreeOn(routes, aliases, e))
    }

    constructor ()
      ensures Valid() && clean && routes == map[] && aliases == map[]
    {
      reservedRoutes, aliases, routes, clean := {}, map[], map[], true;
    }

    /** Registers an endpoint at a base and exactly at what the base reaches. */
    method AddRouter(base: string, endpoint: string, handler: Handler) returns (err: bool)
      requires Valid()
      modifies this
      ensures Valid() && aliases == old(aliases) && reservedRoutes == old(reservedRoutes)
      ensures base in reservedRoutes ==> err && routes == old(routes) && clean == old(clean)
      ensures base !in reservedRoutes ==> clean == (old(clean) && !err)
      ensures Grew(old(routes), routes, endpoint, handler, Reachable(aliases, base))
      ensures base !in reservedRoutes ==> forall x :: Reaches(aliases, base, x) ==> Has(routes, x, endpoint)
      ensures err <==> base in reservedRoutes || !AllDistinct(aliases, Reachable(aliases, base))
                       || !Clear(old(routes), endpoint, Reachable(aliases, base))
    {
      if base in reservedRoutes {
        return true;
      }
      ghost var within, before := Reachable(aliases, base), routes;
      assert Forwarded(routes, aliases, endpoint, {});
      UnreservedIsRoot(aliases, base);
      err := ForceAddRouter(base, endpoint, handler, {}, base);
      if !err {
        AllReachedNew(before, routes, aliases, endpoint, base);
      }
      forall e ensures Forwarded(routes, aliases, e, {}) {
        if e != endpoint { OthersForwarded(before, routes, aliases, endpoint, handler, within, e, {}); }
      }
      forall x | Reaches(aliases, base, x) ensures Has(routes, x, endpoint) {
        var p :| Path(aliases, p) && p[0] == base && p[|p| - 1] == x;
        ForwardedAlongPath(routes, aliases, endpoint, p);
      }
      clean := clean && !err;
      if clean {
        AgreeKept(before, routes, aliases, endpoint, handler, within);
      }
    }

    method ForwardAlias(base: string, list: seq<string>, i: nat, endpoint: string, handler: Handler,
                        ghost before: Routes, err0: bool)
      returns (err: bool)
      requires i < |list| && Has(before, base, endpoint) && Has(routes, base, endpoint) && UniqueParents(aliases)
      requires forall a :: a in list ==> AliasOf(aliases, base, a)
      requires Forwarding(before, routes, aliases, endpoint, handler, {}, base, list[..i], err0,
                          !Refused(before, aliases, endpoint, list))
      modifies `routes
      ensures Forwarding(before, routes, aliases, endpoint, handler, {}, base, list[..i + 1], err,
                         !Refused(before, aliases, endpoint, list))
      ensures Has(routes, base, endpoint)
    {
      ghost var mid, calm := routes, !Refused(before, aliases, endpoint, list);
      hide *;
      assert {} + {base} == {base};
      ForwardingMeans(before, routes, aliases, endpoint, handler, {}, base, list[..i], err0, calm);
      if calm {
        AliasCalm(before, routes, aliases, endpoint, base, list, i);
      }
      err := ForceAddRouter(list[i], endpoint, handler, {base}, list[i]);
      ForwardingStep(before, mid, routes, aliases, endpoint, handler, {}, base, list[..i], list[i], err0, err, calm);
      StaysThere(mid, routes, base, endpoint, handler, Reachable(aliases, list[i]));
      assert list[..i + 1] == list[..i] + [list[i]];
      err := err0 || err;
    }

    /** Forwards one endpoint of base to its new aliases, in order. */
    method ForwardEndpoint(base: string, list: seq<string>, endpoint: string, handler: Handler) returns (err: bool)
      requires Has(routes, base, endpoint) && UniqueParents(aliases)
      requires forall a :: a in list ==> AliasOf(aliases, base, a)
      requires Forwarded(routes, aliases, endpoint, {base})
      modifies `routes
      ensures Forwarded(routes, aliases, endpoint, {base}) && forall a :: a in list ==> Has(routes, a, endpoint)
      ensures Grew(old(routes), routes, endpoint, handler, Reachable(aliases, base))
      ensures !err ==> AllNew(old(routes), routes, aliases, endpoint, {})
      ensures !err ==> forall a :: a in list ==> IsNew(old(routes), routes, a, endpoint)
      ensures err <==> Refused(old(routes), aliases, endpoint, list)
    {
      ghost var before := routes;
      ghost var calm := !Refused(routes, aliases, endpoint, list);
      ForwardingStart(before, routes, aliases, endpoint, handler, {}, base, calm);
      err := false;
      assert list[..0] == [];
      for i := 0 to |list|
        invariant Forwarding(before, routes, aliases, endpoint, handler, {}, base, list[..i], err, calm)
        invariant Has(routes, base, endpoint)
      {
        err := ForwardAlias(base, list, i, endpoint, handler, before, err);
      }
      assert list[..|list|] == list;
      if !err {
        NotRefused(before, routes, aliases, endpoint, base, list);
      }
    }

    /** Gives a base more aliases and forwards what it has to them. */
    method AddAlias(base: string, list: seq<string>) returns (err: bool)
      requires Valid()
      modifies this
      ensures Valid()
      ensures (exists a :: a in list && a in old(reservedRoutes)) ==>
                err && routes == old(routes) && aliases == old(aliases) && reservedRoutes == old(reservedRoutes) &&
                  clean == old(clean)
      ensures (forall a :: a in list ==> a !in old(reservedRoutes)) ==>
                && aliases == WithAliases(old(aliases), base, list)
                && reservedRoutes == old(reservedRoutes) + (set a | a in list)
                && Spread(old(routes), routes, aliases, base, Endpoints(old(routes), base))
                && (err <==> exists e :: Has(old(routes), base, e) && Refused(old(routes), aliases, e, list))
                && clean == (old(clean) && !err)
    {
      hide Spread, Refused, Forwarded, AllNew, AgreeOn, IsNew, WithAliases, Endpoints, UniqueParents, Has;
      var taken := AnyReserved(list);
      if taken {
        return true;
      }
      ghost var r0, aliases0 := routes, aliases;
      reservedRoutes := reservedRoutes + (set a | a in list);
      aliases := WithAliases(aliases, base, list);
      MoreAliases(aliases0, base, list);
      StillUnique(aliases0, aliases, old(reservedRoutes), base, list);
      err := ForwardAll(base, list, aliases0);
      clean := clean && !err;
      AliasesDone(r0, routes, aliases0, aliases, base, list, clean);
    }

    method AnyReserved(list: seq<string>) returns (taken: bool)
      ensures taken <==> exists a :: a in list && a in reservedRoutes
    {
      for i := 0 to |list|
        invariant forall a :: a in list[..i] ==> a !in reservedRoutes
      {
        if list[i] in reservedRoutes {
          return true;
        }
        assert list[..i + 1] == list[..i] + [list[i]];
      }
      assert list[..|list|] == list;
      return false;
    }

    /** The loop over the endpoints of base, in any order. */
    method ForwardAll(base: string, list: seq<string>, ghost aliases0: Aliases) returns (err: bool)
      requires aliases == WithAliases(aliases0, base, list) && UniqueParents(aliases)
      requires forall e :: Forwarded(routes, aliases0, e, {})
      modifies `routes
      ensures Spread(old(routes), routes, aliases, base, Endpoints(old(routes), base))
      ensures forall e :: Forwarded(routes, aliases, e, {base})
      ensures forall e, a :: Has(old(routes), base, e) && a in list ==> Has(routes, a, e)
      ensures err <==> exists e :: Has(old(routes), base, e) && Refused(old(routes), aliases, e, list)
      ensures !err ==> forall e :: AllNew(old(routes), routes, aliases, e, {})
      ensures !err ==> forall e, a :: Has(old(routes), base, e) && a in list ==> IsNew(old(routes), routes, a, e)
    {
      ghost var r0 := routes;
      var todo: set<string> := if base in routes then routes[base].Keys else {};
      ghost var all := Endpoints(r0, base);
      hide SpreadSoFar, Spread, Refused, Forwarded, AllNew, IsNew, UniqueParents, Grew, WithAliases;
      SpreadStart(r0, aliases0, aliases, base, list);
      assert all - todo == {};
      err := false;
      while todo != {}
        invariant todo <= all && SpreadSoFar(r0, routes, aliases, base, list, all - todo, err)
        decreases todo
      {
        var endpoint := Pick(todo);
        ghost var mid := routes;
        SpreadReady(r0, routes, aliases, base, list, all - todo, err, endpoint);
        var innerErr := ForwardEndpoint(base, list, endpoint, routes[base][endpoint]);
        SpreadStep(r0, mid, routes, aliases, base, list, all - todo, err, endpoint, innerErr);
        assert all - (todo - {endpoint}) == all - todo + {endpoint};
        todo := todo - {endpoint};
        err := err || innerErr;
      }
      assert all - todo == all;
      SpreadEnd(r0, routes, aliases, base, list, err);
    }
  }
}
