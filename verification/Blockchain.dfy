/**
 The block store. Blocks are created from the pool, then submitted, one at a time; processing
 of pending blocks may happen in between. Heights then number the blocks in order of creation.
 */
module Blockchain {
  import opened Common
  import opened BlockBytes

  datatype Tx = Tx(id: ID, sender: string, recipient: string, amount: nat)

  predicate VerifyTx(tx: Tx) {
    tx.sender != "" && tx.recipient != "" && tx.amount != 0
  }

  /** Why a transaction is refused. */
  datatype Refusal = InvalidSenderOrRecipient | ZeroAmount | AlreadyPooled

  datatype Block = Block(id: Id, parents: seq<Id>, height: nat, txs: seq<Tx>)

  type Blocks = map<Id, Block>

  // ---- The blocks in order of creation ----

  function MaterialOf(b: Block): seq<Byte> {
    Material(b.height, b.parents, |b.txs|)
  }

  ghost predicate Known(chain: seq<Block>, id: Id) {
    exists h :: 0 <= h < |chain| && chain[h].id == id
  }

  /** Identifiers are unique, the n-th block has height n, and parents come before. */
  ghost predicate Ordered(chain: seq<Block>) {
    && (forall h :: 0 <= h < |chain| ==> chain[h].height == h)
    && (forall g, h :: 0 <= g < h < |chain| ==> chain[g].id != chain[h].id)
    && (forall h, p :: 0 <= h < |chain| && p in chain[h].parents ==> Known(chain[..h], p))
  }

  ghost predicate Hashed(chain: seq<Block>, hash: seq<Byte> -> Id) {
    forall h :: 0 <= h < |chain| ==>
      chain[h].id == hash(MaterialOf(chain[h])) && |chain[h].parents| < LIMIT && |chain[h].txs| < LIMIT
  }

  ghost predicate AllVerify(chain: seq<Block>) {
    forall h, k :: 0 <= h < |chain| && 0 <= k < |chain[h].txs| ==> VerifyTx(chain[h].txs[k])
  }

  /** A block of the list that no block of the list names as a parent. */
  ghost predicate IsTip(blocks: seq<Block>, id: Id) {
    Known(blocks, id) && forall h :: 0 <= h < |blocks| ==> id !in blocks[h].parents
  }

  /** Heights strictly increase along parent edges. */
  lemma ParentsAreLower(chain: seq<Block>, h: nat, p: Id)
    requires Ordered(chain) && h < |chain| && p in chain[h].parents
    ensures exists g :: 0 <= g < |chain| && chain[g].id == p && chain[g].height < chain[h].height
  {
    assert Known(chain[..h], p);
    var g :| 0 <= g < h && chain[..h][g].id == p;
    assert chain[g].id == p && chain[g].height < chain[h].height;
  }

  lemma OneMoreKnown(chain: seq<Block>, b: Block, id: Id)
    ensures Known(chain + [b], id) <==> Known(chain, id) || id == b.id
  {
    var more := chain + [b];
    if Known(chain, id) {
      var h :| 0 <= h < |chain| && chain[h].id == id;
      assert more[h].id == id;
    }
    if id == b.id { assert more[|chain|].id == id; }
  }

  lemma Extend(chain: seq<Block>, b: Block)
    requires Ordered(chain) && b.height == |chain| && !Known(chain, b.id)
    requires forall p :: p in b.parents ==> Known(chain, p)
    ensures Ordered(chain + [b])
  {
    var more := chain + [b];
    forall g, h | 0 <= g < h < |more| ensures more[g].id != more[h].id {
      if h == |chain| { assert more[g] == chain[g]; }
    }
    forall h, p | 0 <= h < |more| && p in more[h].parents ensures Known(more[..h], p) {
      assert more[..h] == chain[..h];
      if h == |chain| { assert chain[..h] == chain; }
    }
  }

  /** A submitted block becomes a tip and takes its parents' place. */
  lemma TipsAfter(blocks: seq<Block>, b: Block, id: Id)
    requires !Known(blocks, b.id) && b.id !in b.parents
    requires forall h :: 0 <= h < |blocks| ==> b.id !in blocks[h].parents
    ensures IsTip(blocks + [b], id) <==> id == b.id || (IsTip(blocks, id) && id !in b.parents)
  {
    var more := blocks + [b];
    OneMoreKnown(blocks, b, id);
    assert more[|blocks|] == b;
    if forall h :: 0 <= h < |more| ==> id !in more[h].parents {
      forall h | 0 <= h < |blocks| ensures id !in blocks[h].parents { assert more[h] == blocks[h]; }
    }
  }

  /** The next block differs from all before in height, so in its bytes, so in its identifier. */
  ghost predicate NoCollision(chain: seq<Block>, hash: seq<Byte> -> Id, material: seq<Byte>) {
    forall h :: 0 <= h < |chain| && chain[h].id == hash(material) ==> MaterialOf(chain[h]) == material
  }

  lemma FreshId(chain: seq<Block>, hash: seq<Byte> -> Id, parents: seq<Id>, txs: nat)
    requires Ordered(chain) && Hashed(chain, hash) && |chain| < LIMIT && |parents| < LIMIT && txs < LIMIT
    requires NoCollision(chain, hash, Material(|chain|, parents, txs))
    ensures !Known(chain, hash(Material(|chain|, parents, txs)))
  {
    hide Material;
    if h :| 0 <= h < |chain| && chain[h].id == hash(Material(|chain|, parents, txs)) {
      MaterialInjective(chain[h].height, chain[h].parents, |chain[h].txs|, |chain|, parents, txs);
    }
  }

  /**
   Two blocks created one after the other with no submission in between have the same height. The
   second replaces the first in the store, transactions and all, unless their parents or their numbers
   of transactions differ.
   */
  lemma CreatedTwice(blocks: Blocks, first: Block, second: Block, hash: seq<Byte> -> Id)
    requires first.id == hash(MaterialOf(first)) && second.id == hash(MaterialOf(second)) && first != second
    requires first.id == second.id ==> MaterialOf(first) == MaterialOf(second)
    requires first.height == second.height < LIMIT
    requires |first.parents| < LIMIT && |second.parents| < LIMIT && |first.txs| < LIMIT && |second.txs| < LIMIT
    ensures var after := blocks[first.id := first][second.id := second];
            first.id in after && (after[first.id] == first <==>
                                  first.parents != second.parents || |first.txs| != |second.txs|)
  {
    hide Material;
    if MaterialOf(first) == MaterialOf(second) {
      MaterialInjective(first.height, first.parents, |first.txs|, second.height, second.parents, |second.txs|);
    }
  }

  // ---- Maps of blocks ----

  /** The map holds exactly the blocks of the list. */
  ghost predicate Holds(blocks: Blocks, chain: seq<Block>) {
    && (forall id :: id in blocks <==> Known(chain, id))
    && (forall h :: 0 <= h < |chain| ==> chain[h].id in blocks && blocks[chain[h].id] == chain[h])
  }

  ghost predicate Part(part: Blocks, blocks: Blocks) {
    forall id :: id in part ==> id in blocks && part[id] == blocks[id]
  }

  ghost predicate Partition(pending: Blocks, accepted: Blocks, blocks: Blocks) {
    && Part(pending, blocks) && Part(accepted, blocks)
    && (forall id :: id in blocks ==> (id in pending <==> id !in accepted))
  }

  ghost predicate LatestAre(latest: Blocks, blocks: Blocks, submitted: seq<Block>) {
    Part(latest, blocks) && forall id :: id in latest <==> IsTip(submitted, id)
  }

  ghost predicate ByHeight(byHeight: map<nat, seq<Block>>, chain: seq<Block>) {
    && (forall h: nat :: h in byHeight <==> h < |chain|)
    && (forall h :: 0 <= h < |chain| ==> byHeight[h] == [chain[h]])
  }

  function Row(byHeight: map<nat, seq<Block>>, h: nat): seq<Block> {
    if h in byHeight then byHeight[h] else []
  }

  lemma HoldsMore(blocks: Blocks, chain: seq<Block>, b: Block)
    requires Holds(blocks, chain) && !Known(chain, b.id)
    ensures Holds(blocks[b.id := b], chain + [b])
  {
    var blocks', chain' := blocks[b.id := b], chain + [b];
    forall id ensures id in blocks' <==> Known(chain', id) { OneMoreKnown(chain, b, id); }
    forall h | 0 <= h < |chain'| ensures chain'[h].id in blocks' && blocks'[chain'[h].id] == chain'[h] {
      if h < |chain| {
        assert chain'[h] == chain[h];
        assert Known(chain, chain[h].id);
      }
    }
  }

  lemma PartitionMore(pending: Blocks, accepted: Blocks, blocks: Blocks, b: Block)
    requires Partition(pending, accepted, blocks) && b.id !in blocks
    ensures Partition(pending[b.id := b], accepted, blocks[b.id := b])
  {
  }

  lemma PartitionAccept(pending: Blocks, accepted: Blocks, blocks: Blocks, id: Id)
    requires Partition(pending, accepted, blocks) && id in blocks
    ensures Partition(pending - {id}, accepted[id := blocks[id]], blocks)
  {
  }

  // ---- Transactions ----

  /** The transactions of the blocks, with multiplicity. */
  ghost function Mined(chain: seq<Block>): multiset<Tx> {
    if chain == [] then multiset{} else Mined(chain[..|chain| - 1]) + multiset(chain[|chain| - 1].txs)
  }

  ghost function Pooled(pool: map<ID, Tx>, tx: Tx): nat {
    if tx.id in pool && pool[tx.id] == tx then 1 else 0
  }

  ghost predicate PoolOk(pool: map<ID, Tx>) {
    forall id :: id in pool ==> pool[id].id == id && VerifyTx(pool[id])
  }

  /** Every transaction ever added is in the pool or in a block, as often as it was added. */
  ghost predicate Conserved(added: multiset<Tx>, pool: map<ID, Tx>, chain: seq<Block>) {
    forall tx :: added[tx] == Pooled(pool, tx) + Mined(chain)[tx]
  }

  /** Taking transactions out of the pool into a list. */
  ghost predicate Moved(before: map<ID, Tx>, after: map<ID, Tx>, selected: seq<Tx>) {
    forall tx :: Pooled(before, tx) == Pooled(after, tx) + multiset(selected)[tx]
  }

  lemma MoveOne(before: map<ID, Tx>, after: map<ID, Tx>, selected: seq<Tx>, id: ID)
    requires Moved(before, after, selected) && id in after && PoolOk(after)
    ensures Moved(before, after - {id}, selected + [after[id]]) && PoolOk(after - {id})
  {
    var tx := after[id];
    forall x ensures Pooled(before, x) == Pooled(after - {id}, x) + multiset(selected + [tx])[x] {
      assert Pooled(before, x) == Pooled(after, x) + multiset(selected)[x];
      assert multiset(selected + [tx])[x] == multiset(selected)[x] + if x == tx then 1 else 0;
    }
  }

  lemma MinedMore(chain: seq<Block>, b: Block)
    ensures Mined(chain + [b]) == Mined(chain) + multiset(b.txs)
  {
    assert (chain + [b])[..|chain|] == chain;
  }

  lemma ConservedMore(added: multiset<Tx>, pool: map<ID, Tx>, pool': map<ID, Tx>, chain: seq<Block>, b: Block)
    requires Conserved(added, pool, chain) && Moved(pool, pool', b.txs)
    ensures Conserved(added, pool', chain + [b])
  {
    MinedMore(chain, b);
    hide Mined, Pooled;
    forall tx ensures added[tx] == Pooled(pool', tx) + Mined(chain + [b])[tx] {
      assert Pooled(pool, tx) == Pooled(pool', tx) + multiset(b.txs)[tx];
    }
  }

  /** A mined transaction is in one of the blocks. */
  lemma {:induction false} MinedSomewhere(chain: seq<Block>, tx: Tx)
    ensures Mined(chain)[tx] > 0 <==> exists h :: 0 <= h < |chain| && tx in chain[h].txs
  {
    if chain != [] {
      var n := |chain| - 1;
      var rest := chain[..n];
      MinedSomewhere(rest, tx);
      if h :| 0 <= h < |rest| && tx in rest[h].txs { assert chain[h] == rest[h]; }
      if h :| 0 <= h < |chain| && tx in chain[h].txs {
        assert h < n ==> rest[h] == chain[h];
        assert h == n ==> multiset(chain[n].txs)[tx] > 0;
      }
    }
  }

  function Taken(pool: map<ID, Tx>, maxTxs: nat): nat {
    var limit := if maxTxs == 0 then 1 else maxTxs;
    if limit < |pool| then limit else |pool|
  }

  lemma TakenStep(pool: map<ID, Tx>, id: ID)
    requires id in pool
    ensures |pool - {id}| == |pool| - 1
  {
    assert (pool - {id}).Keys == pool.Keys - {id};
    assert |pool| == |pool.Keys| && |pool - {id}| == |(pool - {id}).Keys|;
  }

  /** All blocks but one that was created and not submitted yet. */
  ghost function Submitted(chain: seq<Block>, inFlight: bool): seq<Block> {
    if inFlight && chain != [] then chain[..|chain| - 1] else chain
  }

  ghost predicate ChainGood(chain: seq<Block>, hash: seq<Byte> -> Id, inFlight: bool, currentHeight: nat) {
    Ordered(chain) && Hashed(chain, hash) && AllVerify(chain) && |Submitted(chain, inFlight)| == currentHeight + 1
  }

  ghost predicate MapsGood(chain: seq<Block>, inFlight: bool, blocks: Blocks, pending: Blocks, accepted: Blocks,
                           latest: Blocks, byHeight: map<nat, seq<Block>>)
  {
    && Holds(blocks, chain) && Partition(pending, accepted, blocks)
    && LatestAre(latest, blocks, Submitted(chain, inFlight)) && ByHeight(byHeight, chain)
  }

  // ---- The height of a new block ----

  /** The last of these parents at or above a height. */
  ghost predicate LastHigh(blocks: Blocks, current: nat, parents: seq<Id>, k: int) {
    && 0 <= k < |parents| && parents[k] in blocks && blocks[parents[k]].height >= current
    && forall j :: k < j < |parents| ==> parents[j] in blocks && blocks[parents[j]].height < current
  }

  /** One more than the last parent at or above the current height, else than the current height. */
  ghost predicate NextIs(blocks: Blocks, current: nat, parents: seq<Id>, height: nat) {
    || (exists k :: LastHigh(blocks, current, parents, k) && height == blocks[parents[k]].height + 1)
    || (&& height == current + 1
        && forall j :: 0 <= j < |parents| ==> parents[j] in blocks && blocks[parents[j]].height < current)
  }

  lemma NextMore(blocks: Blocks, current: nat, parents: seq<Id>, height: nat, p: Id)
    requires NextIs(blocks, current, parents, height) && p in blocks
    ensures NextIs(blocks, current, parents + [p], if blocks[p].height >= current then blocks[p].height + 1 else height)
  {
    var more := parents + [p];
    if blocks[p].height >= current {
      assert LastHigh(blocks, current, more, |parents|);
    } else if k :| LastHigh(blocks, current, parents, k) && height == blocks[parents[k]].height + 1 {
      assert LastHigh(blocks, current, more, k);
    }
  }

  /** With everything submitted no block is above the current height. */
  lemma NextAfterAll(chain: seq<Block>, hash: seq<Byte> -> Id, current: nat, blocks: Blocks, pending: Blocks,
                     accepted: Blocks, latest: Blocks, byHeight: map<nat, seq<Block>>, parents: seq<Id>, height: nat)
    requires ChainGood(chain, hash, false, current) && NextIs(blocks, current, parents, height)
    requires MapsGood(chain, false, blocks, pending, accepted, latest, byHeight)
    ensures height == |chain|
  {
    hide ChainGood, MapsGood;
    ChainLength(chain, hash, current);
    if k :| LastHigh(blocks, current, parents, k) && height == blocks[parents[k]].height + 1 {
      BlockInChain(chain, hash, current, blocks, pending, accepted, latest, byHeight, parents[k]);
    }
  }

  lemma ChainLength(chain: seq<Block>, hash: seq<Byte> -> Id, current: nat)
    requires ChainGood(chain, hash, false, current)
    ensures |chain| == current + 1
  {
  }

  lemma BlockInChain(chain: seq<Block>, hash: seq<Byte> -> Id, current: nat, blocks: Blocks, pending: Blocks,
                     accepted: Blocks, latest: Blocks, byHeight: map<nat, seq<Block>>, id: Id)
    requires ChainGood(chain, hash, false, current) && id in blocks
    requires MapsGood(chain, false, blocks, pending, accepted, latest, byHeight)
    ensures blocks[id].height <= current
  {
    hide Partition, LatestAre, ByHeight, Hashed, AllVerify;
    var h :| 0 <= h < |chain| && chain[h].id == id;
    assert blocks[id] == chain[h];
  }

  /** The new block is above all its parents iff none is higher than the last one at or above the current height. */
  lemma AboveParentsIff(blocks: Blocks, current: nat, parents: seq<Id>, height: nat, k: nat)
    requires LastHigh(blocks, current, parents, k) && height == blocks[parents[k]].height + 1
    requires forall p :: p in parents ==> p in blocks
    ensures (forall p :: p in parents ==> blocks[p].height < height) <==>
            (forall p :: p in parents ==> blocks[p].height <= blocks[parents[k]].height)
  {
  }

  /**
   Three creations without a submission in between: the third, on the second and on the genesis block, gets
   height 1 under a parent of height 2.
   */
  lemma BelowItsParent(genesis: Block, first: Block, second: Block)
    requires genesis.id != first.id && genesis.id != second.id && first.id != second.id
    requires genesis.height == 0 && first.height == 1 && second.height == 2
    ensures NextIs(map[genesis.id := genesis], 0, [genesis.id], first.height)
    ensures NextIs(map[genesis.id := genesis, first.id := first], 0, [first.id], second.height)
    ensures NextIs(map[genesis.id := genesis, first.id := first, second.id := second], 0, [second.id, genesis.id], 1)
  {
    assert LastHigh(map[genesis.id := genesis], 0, [genesis.id], 0);
    assert LastHigh(map[genesis.id := genesis, first.id := first], 0, [first.id], 0);
    assert LastHigh(map[genesis.id := genesis, first.id := first, second.id := second], 0, [second.id, genesis.id], 1);
  }

  class Blockchain {
    const hash: seq<Byte> -> Id
    var txPool: map<ID, Tx>
    var blocks: Blocks
    var acceptedBlocks: Blocks
    var pendingBlocks: Blocks
    var latestBlocks: Blocks
    var blocksByHeight: map<nat, seq<Block>>
    var currentHeight: nat
    ghost var chain: seq<Block>
    ghost var inFlight: bool
    ghost var added: multiset<Tx>

    ghost predicate ChainOk()
      reads this
    {
      ChainGood(chain, hash, inFlight, currentHeight)
    }

    ghost predicate MapsOk()
      reads this
    {
      MapsGood(chain, inFlight, blocks, pendingBlocks, acceptedBlocks, latestBlocks, blocksByHeight)
    }

    ghost predicate Valid()
      reads this
    {
      ChainOk() && MapsOk() && PoolOk(txPool) && Conserved(added, txPool, chain)
    }

    constructor (h: seq<Byte> -> Id)
      ensures Valid() && !inFlight && hash == h && |chain| == 1 && chain[0].parents == [] && txPool == map[]
      ensures acceptedBlocks == blocks
    {
      hash := h;
      var bytes := GenerateBytes(0, [], 0);
      var genesis := Block(h(bytes), [], 0, []);
      txPool, pendingBlocks, currentHeight := map[], map[], 0;
      blocks := map[genesis.id := genesis];
      acceptedBlocks := map[genesis.id := genesis];
      latestBlocks := map[genesis.id := genesis];
      blocksByHeight := map[0 := [genesis]];
      chain, inFlight, added := [genesis], false, multiset{};
      new;
      First(genesis);
    }

    /** A valid transaction enters the pool unless one with its identifier is there. */
    method AddTransaction(tx: Tx) returns (err: Option<Refusal>)
      requires Valid()
      modifies `txPool, `added
      ensures Valid()
      ensures err == if tx.sender == "" || tx.recipient == "" then Some(InvalidSenderOrRecipient)
                     else if tx.amount == 0 then Some(ZeroAmount)
                     else if tx.id in old(txPool) then Some(AlreadyPooled) else None
      ensures txPool == if err.Some? then old(txPool) else old(txPool)[tx.id := tx]
      ensures added == if err.Some? then old(added) else old(added) + multiset{tx}
    {
      hide ChainGood, MapsGood, Conserved, PoolOk, VerifyTx;
      err := Verify(tx);
      if err.Some? { return; }
      if tx.id in txPool { return Some(AlreadyPooled); }
      AddedConserved(added, txPool, chain, tx);
      txPool := txPool[tx.id := tx];
      added := added + multiset{tx};
      return None;
    }

    static method Verify(tx: Tx) returns (err: Option<Refusal>)
      ensures err.None? <==> VerifyTx(tx)
      ensures err == if tx.sender == "" || tx.recipient == "" then Some(InvalidSenderOrRecipient)
                     else if tx.amount == 0 then Some(ZeroAmount) else None
    {
      if tx.sender == "" || tx.recipient == "" { return Some(InvalidSenderOrRecipient); }
      if tx.amount == 0 { return Some(ZeroAmount); }
      return None;
    }

    /** Moves transactions from the pool, in any order, until enough are taken or none is left. */
    method Select(maxTxs: nat) returns (selected: seq<Tx>)
      requires PoolOk(txPool)
      modifies `txPool
      ensures PoolOk(txPool) && Moved(old(txPool), txPool, selected)
      ensures |selected| == Taken(old(txPool), maxTxs) && |selected| + |txPool| == |old(txPool)|
      ensures maxTxs > 0 ==> |selected| <= maxTxs
      ensures |selected| < maxTxs ==> txPool == map[]
      ensures old(txPool) != map[] ==> selected != []
      ensures forall k :: 0 <= k < |selected| ==> VerifyTx(selected[k])
    {
      selected := [];
      assert Moved(txPool, txPool, selected);
      hide Moved;
      var more := true;
      while more && txPool != map[]
        invariant PoolOk(txPool) && Moved(old(txPool), txPool, selected)
        invariant |selected| + |txPool| == |old(txPool)|
        invariant forall k :: 0 <= k < |selected| ==> VerifyTx(selected[k])
        invariant more ==> selected == [] || |selected| < maxTxs
        invariant !more ==> |selected| == if maxTxs == 0 then 1 else maxTxs
        decreases |txPool|
      {
        var id := Pick(txPool.Keys);
        MoveOne(old(txPool), txPool, selected, id);
        TakenStep(txPool, id);
        selected := selected + [txPool[id]];
        txPool := txPool - {id};
        if |selected| >= maxTxs { more := false; }
      }
    }

    /** The height of a new block; with everything submitted it is always the next. */
    method NextHeight(parents: seq<Id>) returns (height: nat)
      requires forall p :: p in parents ==> p in blocks
      ensures NextIs(blocks, currentHeight, parents, height)
      ensures ChainOk() && MapsOk() && !inFlight ==> height == |chain|
    {
      height := currentHeight + 1;
      for k := 0 to |parents|
        invariant NextIs(blocks, currentHeight, parents[..k], height)
      {
        assert parents[..k + 1] == parents[..k] + [parents[k]];
        NextMore(blocks, currentHeight, parents[..k], height, parents[k]);
        var parent := blocks[parents[k]];
        if parent.height >= currentHeight { height := parent.height + 1; }
      }
      assert parents[..|parents|] == parents;
      if ChainOk() && MapsOk() && !inFlight {
        NextAfterAll(chain, hash, currentHeight, blocks, pendingBlocks, acceptedBlocks, latestBlocks, blocksByHeight,
                     parents, height);
      }
    }

    method FindMissing(parents: seq<Id>) returns (missing: bool)
      ensures missing <==> exists k :: 0 <= k < |parents| && parents[k] !in blocks
    {
      for k := 0 to |parents|
        invariant forall j :: 0 <= j < k ==> parents[j] in blocks
      {
        if parents[k] !in blocks { return true; }
      }
      return false;
    }

    /** A block with the next height, the given parents, and transactions from the pool. */
    method CreateBlock(parents: seq<Id>, maxTxs: nat) returns (r: Option<Block>)
      requires Valid() && !inFlight && |chain| < LIMIT && |parents| < LIMIT && |txPool| < LIMIT
      requires NoCollision(chain, hash, Material(|chain|, parents, Taken(txPool, maxTxs)))
      modifies this
      ensures Valid() && added == old(added) && latestBlocks == old(latestBlocks)
      ensures acceptedBlocks == old(acceptedBlocks)
      ensures r.None? <==> exists p :: p in parents && p !in old(blocks)
      ensures r.None? ==>
              chain == old(chain) && txPool == old(txPool) && !inFlight && pendingBlocks == old(pendingBlocks)
      ensures r.Some? ==> && inFlight && chain == old(chain) + [r.value] && r.value.parents == parents
                          && |r.value.txs| == Taken(old(txPool), maxTxs) && r.value.id in pendingBlocks
      ensures r.Some? ==> && Moved(old(txPool), txPool, r.value.txs) && |r.value.txs| + |txPool| == |old(txPool)|
                          && (maxTxs > 0 ==> |r.value.txs| <= maxTxs) && (|r.value.txs| < maxTxs ==> txPool == map[])
                          && (old(txPool) != map[] ==> r.value.txs != [])
    {
      hide ChainGood, MapsGood, Conserved, PoolOk, Moved, Material, NoCollision, Taken, Value,
           VerifyTx, Known;
      var missing := FindMissing(parents);
      if missing { return None; }
      var height := NextHeight(parents);
      TakenFew(txPool, maxTxs);
      NewId(chain, hash, inFlight, currentHeight, parents, Taken(txPool, maxTxs));
      var selected := Select(maxTxs);
      var bytes := GenerateBytes(height, parents, |selected|);
      var block := Block(hash(bytes), parents, height, selected);
      ConservedMore(added, old(txPool), txPool, chain, block);
      Insert(block);
      return Some(block);
    }

    method Insert(block: Block)
      requires ChainOk() && MapsOk() && !inFlight && PoolOk(txPool) && block.height == |chain|
      requires !Known(chain, block.id) && block.id == hash(MaterialOf(block)) && |block.parents| < LIMIT
      requires |block.txs| < LIMIT
      requires forall p :: p in block.parents ==> p in blocks
      requires forall k :: 0 <= k < |block.txs| ==> VerifyTx(block.txs[k])
      modifies `blocks, `pendingBlocks, `blocksByHeight, `chain, `inFlight
      ensures ChainOk() && MapsOk() && inFlight && chain == old(chain) + [block]
      ensures pendingBlocks == old(pendingBlocks)[block.id := block]
    {
      hide ChainGood, MapsGood, Known, MaterialOf, VerifyTx, PoolOk;
      InsertChain(chain, hash, currentHeight, blocks, block, pendingBlocks, acceptedBlocks, latestBlocks,
                  blocksByHeight);
      InsertMaps(chain, blocks, pendingBlocks, acceptedBlocks, latestBlocks, blocksByHeight, block);
      blocks := blocks[block.id := block];
      pendingBlocks := pendingBlocks[block.id := block];
      blocksByHeight := blocksByHeight[block.height := Row(blocksByHeight, block.height) + [block]];
      chain, inFlight := chain + [block], true;
    }

    /** The created block joins the edge of the graph in place of its parents. */
    method SubmitBlock(block: Block)
      requires Valid() && inFlight && chain != [] && chain[|chain| - 1] == block
      modifies this
      ensures Valid() && !inFlight && chain == old(chain) && added == old(added) && txPool == old(txPool)
      ensures currentHeight == block.height == |chain| - 1
      ensures blocks == old(blocks) && pendingBlocks == old(pendingBlocks) && acceptedBlocks == old(acceptedBlocks)
    {
      hide ChainGood, MapsGood, Conserved, PoolOk, IdSet;
      assert chain == chain[..|chain| - 1] + [block];
      LastBlock(chain, hash, currentHeight, blocks, pendingBlocks, acceptedBlocks, latestBlocks, blocksByHeight);
      SubmitMaps(chain[..|chain| - 1], block, chain, hash, currentHeight, blocks, pendingBlocks, acceptedBlocks,
                 latestBlocks, blocksByHeight);
      pendingBlocks := if block.id in blocks then pendingBlocks else pendingBlocks[block.id := block];
      blocks := if block.id in blocks then blocks else blocks[block.id := block];
      RemoveLatest(block.parents);
      latestBlocks := latestBlocks[block.id := block];
      if block.height > currentHeight { currentHeight := block.height; }
      inFlight := false;
    }

    method RemoveLatest(parents: seq<Id>)
      modifies `latestBlocks
      ensures latestBlocks == old(latestBlocks) - IdSet(parents)
    {
      for k := 0 to |parents|
        invariant latestBlocks == old(latestBlocks) - IdSet(parents[..k])
      {
        assert parents[..k + 1] == parents[..k] + [parents[k]];
        latestBlocks := latestBlocks - {parents[k]};
      }
      assert parents[..|parents|] == parents;
    }

    /** The blocks to process: those pending at this moment, in any order. */
    method Snapshot() returns (list: seq<Block>)
      requires Valid()
      ensures forall k :: 0 <= k < |list| ==> list[k] in chain && list[k].id in pendingBlocks
      ensures forall id :: id in pendingBlocks ==> pendingBlocks[id] in list
    {
      hide ChainGood, Conserved, PoolOk, MapsGood;
      list := [];
      var todo := pendingBlocks.Keys;
      while todo != {}
        invariant todo <= pendingBlocks.Keys
        invariant forall k :: 0 <= k < |list| ==> list[k] in chain && list[k].id in pendingBlocks
        invariant forall id :: id in pendingBlocks && id !in todo ==> pendingBlocks[id] in list
        decreases todo
      {
        var id := Pick(todo);
        PendingInChain(chain, inFlight, blocks, pendingBlocks, acceptedBlocks, latestBlocks, blocksByHeight, id);
        list := list + [pendingBlocks[id]];
        todo := todo - {id};
      }
    }

    /** A worker's verdict on a block: whether all its transactions verify. */
    static method VerifyBlock(b: Block) returns (ok: bool)
      ensures ok <==> forall k :: 0 <= k < |b.txs| ==> VerifyTx(b.txs[k])
    {
      for k := 0 to |b.txs|
        invariant forall j :: 0 <= j < k ==> VerifyTx(b.txs[j])
      {
        var err := Blockchain.Verify(b.txs[k]);
        if err.Some? { return false; }
      }
      return true;
    }

    /** Accepts the blocks with a good verdict; by now others may have been created or accepted. */
    method Apply(results: seq<Outcome>)
      requires Valid() && forall k :: 0 <= k < |results| && results[k].ok ==> results[k].id in blocks
      modifies `acceptedBlocks, `pendingBlocks
      ensures Valid()
      ensures forall id :: id in pendingBlocks <==> id in old(pendingBlocks) && !Passed(results, id)
      ensures forall id :: id in acceptedBlocks <==> id in old(acceptedBlocks) || Passed(results, id)
    {
      hide ChainGood, MapsGood, Conserved, PoolOk;
      for k := 0 to |results|
        invariant MapsOk()
        invariant forall id :: id in pendingBlocks <==> id in old(pendingBlocks) && !Passed(results[..k], id)
        invariant forall id :: id in acceptedBlocks <==> id in old(acceptedBlocks) || Passed(results[..k], id)
      {
        var r := results[k];
        assert results[..k + 1] == results[..k] + [r];
        forall id ensures Passed(results[..k + 1], id) <==> Passed(results[..k], id) || (r.ok && r.id == id) {
          OneMoreResult(results[..k], r, id);
        }
        if !r.ok { continue; }
        AcceptMaps(chain, inFlight, blocks, pendingBlocks, acceptedBlocks, latestBlocks, blocksByHeight, r.id);
        acceptedBlocks := acceptedBlocks[r.id := blocks[r.id]];
        pendingBlocks := pendingBlocks - {r.id};
      }
      assert results[..|results|] == results;
    }

    /** Run without interruption, processing accepts every block there is. */
    method ProcessPendingBlocks()
      requires Valid()
      modifies `acceptedBlocks, `pendingBlocks
      ensures Valid()
      ensures forall id :: id !in pendingBlocks
      ensures forall id :: id in blocks <==> id in acceptedBlocks
    {
      hide ChainGood, MapsGood, Conserved, PoolOk, Passed;
      var list := Snapshot();
      var results := VerifyAll(list);
      ResultsKnown(chain, inFlight, blocks, pendingBlocks, acceptedBlocks, latestBlocks, blocksByHeight, list, results);
      Apply(results);
      AllAccepted(chain, inFlight, blocks, pendingBlocks, acceptedBlocks, latestBlocks, blocksByHeight);
    }

    /** Blocks of the chain hold transactions that passed the pool, so every verdict is good. */
    method VerifyAll(list: seq<Block>) returns (results: seq<Outcome>)
      requires ChainOk() && forall k :: 0 <= k < |list| ==> list[k] in chain
      ensures |results| == |list| && forall k :: 0 <= k < |list| ==> results[k] == Outcome(list[k].id, true)
    {
      hide ChainGood, VerifyTx;
      results := [];
      for k := 0 to |list|
        invariant |results| == k && forall j :: 0 <= j < k ==> results[j] == Outcome(list[j].id, true)
      {
        var ok := VerifyBlock(list[k]);
        ChainVerifies(chain, hash, inFlight, currentHeight, list[k]);
        results := results + [Outcome(list[k].id, ok)];
      }
    }

    /** Finds a transaction in the pool or in any block. */
    method GetTransaction(id: ID) returns (r: Option<Tx>)
      requires Valid()
      ensures r.Some? ==> r.value.id == id && added[r.value] > 0
      ensures r.None? ==> forall tx :: tx in added ==> tx.id != id
    {
      hide ChainGood, MapsGood;
      if id in txPool {
        FoundInPool(added, txPool, chain, id);
        return Some(txPool[id]);
      }
      var todo := blocks.Keys;
      while todo != {}
        invariant todo <= blocks.Keys
        invariant forall b :: b in blocks && b !in todo ==> NoTx(blocks[b].txs, id)
        decreases todo
      {
        var b := Pick(todo);
        var k := Find(blocks[b].txs, id);
        if k < |blocks[b].txs| {
          FoundInBlock(added, txPool, chain, inFlight, blocks, pendingBlocks, acceptedBlocks, latestBlocks,
                       blocksByHeight, b, k);
          return Some(blocks[b].txs[k]);
        }
        todo := todo - {b};
      }
      NotFound(added, txPool, chain, inFlight, blocks, pendingBlocks, acceptedBlocks, latestBlocks, blocksByHeight, id);
      return None;
    }

    static method Find(txs: seq<Tx>, id: ID) returns (k: nat)
      ensures k <= |txs| && (k < |txs| ==> txs[k].id == id) && (k == |txs| ==> NoTx(txs, id))
    {
      for i := 0 to |txs|
        invariant forall j :: 0 <= j < i ==> txs[j].id != id
      {
        if txs[i].id == id { return i; }
      }
      return |txs|;
    }

    method GetBlocksByHeight(height: nat) returns (list: seq<Block>)
      requires Valid()
      ensures list == if height < |chain| then [chain[height]] else []
    {
      return Row(blocksByHeight, height);
    }
  }

  datatype Outcome = Outcome(id: Id, ok: bool)

  function IdSet(ids: seq<Id>): set<Id> {
    set id | id in ids
  }

  ghost predicate Passed(results: seq<Outcome>, id: Id) {
    exists k :: 0 <= k < |results| && results[k].ok && results[k].id == id
  }

  ghost predicate NoTx(txs: seq<Tx>, id: ID) {
    forall k :: 0 <= k < |txs| ==> txs[k].id != id
  }

  lemma OneMoreResult(results: seq<Outcome>, r: Outcome, id: Id)
    ensures Passed(results + [r], id) <==> Passed(results, id) || (r.ok && r.id == id)
  {
    var more := results + [r];
    assert more[|results|] == r;
    if Passed(results, id) {
      var k :| 0 <= k < |results| && results[k].ok && results[k].id == id;
      assert more[k] == results[k];
    }
  }

  lemma LastBlock(chain: seq<Block>, hash: seq<Byte> -> Id, currentHeight: nat, blocks: Blocks, pending: Blocks,
                  accepted: Blocks, latest: Blocks, byHeight: map<nat, seq<Block>>)
    requires ChainGood(chain, hash, true, currentHeight) && chain != []
    requires MapsGood(chain, true, blocks, pending, accepted, latest, byHeight)
    ensures var b := chain[|chain| - 1]; b.id in blocks && b.height == |chain| - 1 == currentHeight + 1
    ensures ChainGood(chain, hash, false, currentHeight + 1)
  {
  }

  /** The block in flight is new to the submitted ones, so submitting it moves the tips. */
  lemma SubmitMaps(rest: seq<Block>, b: Block, chain: seq<Block>, hash: seq<Byte> -> Id, currentHeight: nat,
                   blocks: Blocks, pending: Blocks, accepted: Blocks, latest: Blocks, byHeight: map<nat, seq<Block>>)
    requires chain == rest + [b] && ChainGood(chain, hash, true, currentHeight)
    requires MapsGood(chain, true, blocks, pending, accepted, latest, byHeight)
    ensures MapsGood(chain, false, blocks, pending, accepted, (latest - IdSet(b.parents))[b.id := b], byHeight)
  {
    hide Ordered, Partition, ByHeight, Hashed, AllVerify, LatestAre, Known;
    assert Submitted(chain, true) == rest;
    NewBlock(chain, rest, b);
    assert chain[|rest|] == b && blocks[b.id] == b;
    hide Holds;
    SubmitLatest(latest, blocks, rest, b);
  }

  lemma SubmitLatest(latest: Blocks, blocks: Blocks, rest: seq<Block>, b: Block)
    requires LatestAre(latest, blocks, rest) && b.id in blocks && blocks[b.id] == b && !Known(rest, b.id)
    requires b.id !in b.parents
    requires forall h :: 0 <= h < |rest| ==> b.id !in rest[h].parents
    ensures LatestAre((latest - IdSet(b.parents))[b.id := b], blocks, rest + [b])
  {
    hide IsTip, Known;
    var latest' := (latest - IdSet(b.parents))[b.id := b];
    forall id ensures id in latest' <==> IsTip(rest + [b], id) { TipsAfter(rest, b, id); }
  }

  lemma NewBlock(chain: seq<Block>, rest: seq<Block>, b: Block)
    requires Ordered(chain) && chain == rest + [b]
    ensures !Known(rest, b.id) && b.id !in b.parents
    ensures forall h :: 0 <= h < |rest| ==> b.id !in rest[h].parents
  {
    assert chain[|rest|] == b && chain[..|rest|] == rest;
    forall h | 0 <= h < |rest| ensures rest[h].id != b.id { assert chain[h] == rest[h]; }
    assert b.id in b.parents ==> Known(chain[..|rest|], b.id);
    forall h | 0 <= h < |rest| ensures b.id !in rest[h].parents {
      assert chain[h] == rest[h];
      if b.id in chain[h].parents {
        ParentsAreLower(chain, h, b.id);
      }
    }
  }

  lemma PendingInChain(chain: seq<Block>, inFlight: bool, blocks: Blocks, pending: Blocks, accepted: Blocks,
                       latest: Blocks, byHeight: map<nat, seq<Block>>, id: Id)
    requires MapsGood(chain, inFlight, blocks, pending, accepted, latest, byHeight) && id in pending
    ensures pending[id] in chain && pending[id].id == id
  {
    assert Known(chain, id);
    var h :| 0 <= h < |chain| && chain[h].id == id;
    assert blocks[id] == chain[h];
  }

  lemma AcceptMaps(chain: seq<Block>, inFlight: bool, blocks: Blocks, pending: Blocks, accepted: Blocks, latest: Blocks,
                   byHeight: map<nat, seq<Block>>, id: Id)
    requires MapsGood(chain, inFlight, blocks, pending, accepted, latest, byHeight) && id in blocks
    ensures MapsGood(chain, inFlight, blocks, pending - {id}, accepted[id := blocks[id]], latest, byHeight)
  {
    PartitionAccept(pending, accepted, blocks, id);
  }

  lemma ChainVerifies(chain: seq<Block>, hash: seq<Byte> -> Id, inFlight: bool, currentHeight: nat, b: Block)
    requires ChainGood(chain, hash, inFlight, currentHeight) && b in chain
    ensures forall k :: 0 <= k < |b.txs| ==> VerifyTx(b.txs[k])
  {
    hide VerifyTx;
  }

  lemma ResultsKnown(chain: seq<Block>, inFlight: bool, blocks: Blocks, pending: Blocks, accepted: Blocks,
                     latest: Blocks, byHeight: map<nat, seq<Block>>, list: seq<Block>, results: seq<Outcome>)
    requires MapsGood(chain, inFlight, blocks, pending, accepted, latest, byHeight) && |results| == |list|
    requires forall k :: 0 <= k < |list| ==> results[k] == Outcome(list[k].id, true) && list[k].id in pending
    requires forall id :: id in pending ==> pending[id] in list
    ensures forall k :: 0 <= k < |results| ==> results[k].id in blocks
    ensures forall id :: id in pending ==> Passed(results, id)
  {
    forall id | id in pending ensures Passed(results, id) {
      PendingInChain(chain, inFlight, blocks, pending, accepted, latest, byHeight, id);
      var k :| 0 <= k < |list| && list[k] == pending[id];
      assert results[k].ok && results[k].id == id;
    }
  }

  lemma AllAccepted(chain: seq<Block>, inFlight: bool, blocks: Blocks, pending: Blocks, accepted: Blocks,
                    latest: Blocks, byHeight: map<nat, seq<Block>>)
    requires MapsGood(chain, inFlight, blocks, pending, accepted, latest, byHeight) && forall id :: id !in pending
    ensures forall id :: id in blocks <==> id in accepted
  {
  }

  lemma FoundInPool(added: multiset<Tx>, pool: map<ID, Tx>, chain: seq<Block>, id: ID)
    requires Conserved(added, pool, chain) && PoolOk(pool) && id in pool
    ensures added[pool[id]] > 0 && pool[id].id == id
  {
    assert Pooled(pool, pool[id]) == 1;
  }

  lemma FoundInBlock(added: multiset<Tx>, pool: map<ID, Tx>, chain: seq<Block>, inFlight: bool, blocks: Blocks,
                     pending: Blocks, accepted: Blocks, latest: Blocks, byHeight: map<nat, seq<Block>>, b: Id, k: nat)
    requires Conserved(added, pool, chain) && MapsGood(chain, inFlight, blocks, pending, accepted, latest, byHeight)
    requires b in blocks && k < |blocks[b].txs|
    ensures added[blocks[b].txs[k]] > 0
  {
    assert Known(chain, b);
    var h :| 0 <= h < |chain| && chain[h].id == b;
    assert blocks[b] == chain[h];
    MinedSomewhere(chain, blocks[b].txs[k]);
    hide Pooled, Mined;
  }

  lemma NotFound(added: multiset<Tx>, pool: map<ID, Tx>, chain: seq<Block>, inFlight: bool, blocks: Blocks,
                 pending: Blocks, accepted: Blocks, latest: Blocks, byHeight: map<nat, seq<Block>>, id: ID)
    requires Conserved(added, pool, chain) && MapsGood(chain, inFlight, blocks, pending, accepted, latest, byHeight)
    requires id !in pool && forall b :: b in blocks ==> NoTx(blocks[b].txs, id)
    ensures forall tx :: tx in added ==> tx.id != id
  {
    forall tx | tx in added ensures tx.id != id {
      MinedSomewhere(chain, tx);
      if Pooled(pool, tx) == 0 {
        assert added[tx] > 0;
        var h :| 0 <= h < |chain| && tx in chain[h].txs;
        assert blocks[chain[h].id] == chain[h];
      }
    }
  }

  lemma AddedConserved(added: multiset<Tx>, pool: map<ID, Tx>, chain: seq<Block>, tx: Tx)
    requires Conserved(added, pool, chain) && tx.id !in pool
    ensures Conserved(added + multiset{tx}, pool[tx.id := tx], chain)
    ensures PoolOk(pool) && VerifyTx(tx) ==> PoolOk(pool[tx.id := tx])
  {
    hide VerifyTx;
    hide Mined;
    forall x ensures (added + multiset{tx})[x] == Pooled(pool[tx.id := tx], x) + Mined(chain)[x] {
      assert added[x] == Pooled(pool, x) + Mined(chain)[x];
    }
  }

  lemma TakenFew(pool: map<ID, Tx>, maxTxs: nat)
    ensures Taken(pool, maxTxs) <= |pool|
  {
  }

  lemma NewId(chain: seq<Block>, hash: seq<Byte> -> Id, inFlight: bool, currentHeight: nat, parents: seq<Id>, txs: nat)
    requires ChainGood(chain, hash, inFlight, currentHeight) && |chain| < LIMIT && |parents| < LIMIT && txs < LIMIT
    requires NoCollision(chain, hash, Material(|chain|, parents, txs))
    ensures !Known(chain, hash(Material(|chain|, parents, txs)))
  {
    hide Ordered, Hashed, AllVerify, NoCollision, Material;
    FreshId(chain, hash, parents, txs);
  }

  lemma InsertChain(chain: seq<Block>, hash: seq<Byte> -> Id, currentHeight: nat, blocks: Blocks, b: Block,
                    pending: Blocks, accepted: Blocks, latest: Blocks, byHeight: map<nat, seq<Block>>)
    requires ChainGood(chain, hash, false, currentHeight) && b.height == |chain|
    requires MapsGood(chain, false, blocks, pending, accepted, latest, byHeight)
    requires !Known(chain, b.id) && b.id == hash(MaterialOf(b)) && |b.parents| < LIMIT && |b.txs| < LIMIT
    requires forall p :: p in b.parents ==> p in blocks
    requires forall k :: 0 <= k < |b.txs| ==> VerifyTx(b.txs[k])
    ensures ChainGood(chain + [b], hash, true, currentHeight)
  {
    hide Ordered, Known, MaterialOf, Holds, Partition, LatestAre, ByHeight, VerifyTx, Hashed, AllVerify;
    ParentsKnown(blocks, chain, b);
    Extend(chain, b);
    ContentsMore(chain, hash, b);
    assert Submitted(chain + [b], true) == chain;
  }

  lemma ParentsKnown(blocks: Blocks, chain: seq<Block>, b: Block)
    requires Holds(blocks, chain) && forall p :: p in b.parents ==> p in blocks
    ensures forall p :: p in b.parents ==> Known(chain, p)
  {
  }

  lemma ContentsMore(chain: seq<Block>, hash: seq<Byte> -> Id, b: Block)
    requires Hashed(chain, hash) && AllVerify(chain)
    requires b.id == hash(MaterialOf(b)) && |b.parents| < LIMIT && |b.txs| < LIMIT
    requires forall k :: 0 <= k < |b.txs| ==> VerifyTx(b.txs[k])
    ensures Hashed(chain + [b], hash) && AllVerify(chain + [b])
  {
    hide MaterialOf, VerifyTx;
  }

  lemma InsertMaps(chain: seq<Block>, blocks: Blocks, pending: Blocks, accepted: Blocks, latest: Blocks,
                   byHeight: map<nat, seq<Block>>, b: Block)
    requires MapsGood(chain, false, blocks, pending, accepted, latest, byHeight) && b.height == |chain|
    requires !Known(chain, b.id)
    ensures MapsGood(chain + [b], true, blocks[b.id := b], pending[b.id := b], accepted, latest,
                     byHeight[b.height := Row(byHeight, b.height) + [b]])
  {
    assert b.id !in blocks;
    HoldsMore(blocks, chain, b);
    PartitionMore(pending, accepted, blocks, b);
    HeightMore(byHeight, chain, b);
    LatestKept(latest, blocks, chain, b);
    hide Holds, Partition, LatestAre, ByHeight, Known;
    assert Submitted(chain + [b], true) == chain;
  }

  lemma First(genesis: Block)
    requires genesis.height == 0 && genesis.parents == [] && genesis.txs == []
    ensures Ordered([genesis]) && AllVerify([genesis]) && Holds(map[genesis.id := genesis], [genesis])
    ensures Partition(map[], map[genesis.id := genesis], map[genesis.id := genesis])
    ensures LatestAre(map[genesis.id := genesis], map[genesis.id := genesis], [genesis])
    ensures ByHeight(map[0 := [genesis]], [genesis])
    ensures Conserved(multiset{}, map[], [genesis])
  {
    assert [genesis][0] == genesis;
    assert [genesis][..0] == [] && Mined([genesis]) == multiset{};
    forall id ensures Known([genesis], id) <==> id == genesis.id {
      if id == genesis.id { assert [genesis][0].id == id; }
    }
  }

  lemma HeightMore(byHeight: map<nat, seq<Block>>, chain: seq<Block>, b: Block)
    requires ByHeight(byHeight, chain) && b.height == |chain|
    ensures ByHeight(byHeight[b.height := Row(byHeight, b.height) + [b]], chain + [b])
  {
  }

  lemma LatestKept(latest: Blocks, blocks: Blocks, submitted: seq<Block>, b: Block)
    requires LatestAre(latest, blocks, submitted) && Holds(blocks, submitted) && !Known(submitted, b.id)
    ensures LatestAre(latest, blocks[b.id := b], submitted)
  {
  }
}
