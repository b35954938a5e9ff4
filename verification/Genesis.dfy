/**
 The fund partition of the genesis: who holds what on the X-chain, what is locked on the platform
 chain, and how the staked funds are split between the initial stakers. Amounts are 64-bit; that no
 addition or subtraction leaves that range is part of what is verified.
 */
module Genesis {

  const TWO_64 := 0x1_0000_0000_0000_0000
  newtype Amount = x: int | 0 <= x < TWO_64

  type Address = int

  datatype LockedAmount = LockedAmount(amount: Amount, locktime: Amount)

  datatype Allocation = Allocation(
    ethAddr: Address,
    avaxAddr: Address,
    initialAmount: Amount,
    unlockSchedule: seq<LockedAmount>)

  /** One indivisible locked unit: who may claim it, for which Ethereum address, and when. */
  datatype Coin = Coin(avaxAddr: Address, ethAddr: Address, locktime: Amount)

  // ---- Funds as the sequence of their units ----

  ghost function Repeat(n: nat, c: Coin): seq<Coin> {
    seq(n, _ => c)
  }

  ghost function UnlockCoins(a: Allocation, unlocks: seq<LockedAmount>): seq<Coin> {
    if unlocks == [] then []
    else
      var u := unlocks[|unlocks| - 1];
      UnlockCoins(a, unlocks[..|unlocks| - 1]) + Repeat(u.amount as int, Coin(a.avaxAddr, a.ethAddr, u.locktime))
  }

  /** The locked units of a list of allocations, in order. */
  ghost function Coins(allocations: seq<Allocation>): seq<Coin> {
    if allocations == [] then []
    else
      var a := allocations[|allocations| - 1];
      Coins(allocations[..|allocations| - 1]) + UnlockCoins(a, a.unlockSchedule)
  }

  /** The amount locked for one coin, by plain addition. */
  ghost function UnlockAmountFor(a: Allocation, unlocks: seq<LockedAmount>, c: Coin): nat {
    if unlocks == [] then 0
    else
      var u := unlocks[|unlocks| - 1];
      UnlockAmountFor(a, unlocks[..|unlocks| - 1], c) +
      if Coin(a.avaxAddr, a.ethAddr, u.locktime) == c then u.amount as int else 0
  }

  ghost function AmountFor(allocations: seq<Allocation>, c: Coin): nat {
    if allocations == [] then 0
    else
      var a := allocations[|allocations| - 1];
      AmountFor(allocations[..|allocations| - 1], c) + UnlockAmountFor(a, a.unlockSchedule, c)
  }

  ghost function BucketsAmountFor(buckets: seq<seq<Allocation>>, c: Coin): nat {
    if buckets == [] then 0
    else BucketsAmountFor(buckets[..|buckets| - 1], c) + AmountFor(buckets[|buckets| - 1], c)
  }

  ghost function BucketsCoins(buckets: seq<seq<Allocation>>): seq<Coin> {
    if buckets == [] then [] else BucketsCoins(buckets[..|buckets| - 1]) + Coins(buckets[|buckets| - 1])
  }

  lemma UnlockCoinsAppend(a: Allocation, unlocks: seq<LockedAmount>, u: LockedAmount)
    ensures UnlockCoins(a, unlocks + [u]) ==
            UnlockCoins(a, unlocks) + Repeat(u.amount as int, Coin(a.avaxAddr, a.ethAddr, u.locktime))
  {
    assert (unlocks + [u])[..|unlocks|] == unlocks;
  }

  lemma CoinsAppend(allocations: seq<Allocation>, a: Allocation)
    ensures Coins(allocations + [a]) == Coins(allocations) + UnlockCoins(a, a.unlockSchedule)
  {
    assert (allocations + [a])[..|allocations|] == allocations;
  }

  /** A prefix of the allocations, and of the unlocks of the next one, is a prefix of the coins. */
  lemma {:induction false} CoinsPrefix(allocations: seq<Allocation>, i: nat)
    requires i <= |allocations|
    ensures Coins(allocations[..i]) <= Coins(allocations)
    decreases |allocations| - i
  {
    if i < |allocations| {
      CoinsPrefix(allocations, i + 1);
      assert allocations[..i + 1][..i] == allocations[..i];
    } else {
      assert allocations[..i] == allocations;
    }
  }

  lemma {:induction false} UnlocksPrefix(a: Allocation, unlocks: seq<LockedAmount>, j: nat)
    requires j <= |unlocks|
    ensures UnlockCoins(a, unlocks[..j]) <= UnlockCoins(a, unlocks)
    decreases |unlocks| - j
  {
    if j < |unlocks| {
      UnlocksPrefix(a, unlocks, j + 1);
      assert unlocks[..j + 1][..j] == unlocks[..j];
    } else {
      assert unlocks[..j] == unlocks;
    }
  }

  lemma RepeatLength(n: nat, c: Coin)
    ensures |Repeat(n, c)| == n
  {
  }

  lemma RepeatCount(n: nat, c: Coin, d: Coin)
    ensures multiset(Repeat(n, c))[d] == if c == d then n else 0
    decreases n
  {
    if n > 0 {
      RepeatCount(n - 1, c, d);
      assert Repeat(n, c) == Repeat(n - 1, c) + [c];
    } else {
      assert Repeat(n, c) == [];
    }
  }

  lemma {:induction false} UnlockCount(a: Allocation, unlocks: seq<LockedAmount>, c: Coin)
    ensures multiset(UnlockCoins(a, unlocks))[c] == UnlockAmountFor(a, unlocks, c)
  {
    if unlocks != [] {
      var u := unlocks[|unlocks| - 1];
      UnlockCount(a, unlocks[..|unlocks| - 1], c);
      RepeatCount(u.amount as int, Coin(a.avaxAddr, a.ethAddr, u.locktime), c);
    }
  }

  /** Counting units and adding amounts agree. */
  lemma {:induction false} CoinsCount(allocations: seq<Allocation>, c: Coin)
    ensures multiset(Coins(allocations))[c] == AmountFor(allocations, c)
  {
    if allocations != [] {
      var a := allocations[|allocations| - 1];
      CoinsCount(allocations[..|allocations| - 1], c);
      UnlockCount(a, a.unlockSchedule, c);
    }
  }

  lemma {:induction false} BucketsCount(buckets: seq<seq<Allocation>>, c: Coin)
    ensures multiset(BucketsCoins(buckets))[c] == BucketsAmountFor(buckets, c)
  {
    if buckets != [] {
      BucketsCount(buckets[..|buckets| - 1], c);
      CoinsCount(buckets[|buckets| - 1], c);
    }
  }

  // ---- Splitting the staked funds ----

  /** The sum of all unlocks; it fits in 64 bits whenever the number of units does. */
  method TotalAmount(allocations: seq<Allocation>) returns (total: Amount)
    requires |Coins(allocations)| < TWO_64
    ensures total as int == |Coins(allocations)|
  {
    total := 0;
    for i := 0 to |allocations|
      invariant total as int == |Coins(allocations[..i])|
    {
      var a := allocations[i];
      assert allocations[..i + 1][..i] == allocations[..i];
      CoinsPrefix(allocations, i + 1);
      for j := 0 to |a.unlockSchedule|
        invariant total as int == |Coins(allocations[..i])| + |UnlockCoins(a, a.unlockSchedule[..j])|
      {
        assert a.unlockSchedule[..j + 1][..j] == a.unlockSchedule[..j];
        UnlocksPrefix(a, a.unlockSchedule, j + 1);
        total := total + a.unlockSchedule[j].amount;
      }
      assert a.unlockSchedule[..|a.unlockSchedule|] == a.unlockSchedule;
    }
    assert allocations[..|allocations|] == allocations;
  }

  /** What one bucket gets: the total over the number of buckets, rounded down. */
  function Share(total: nat, numSplits: nat): nat
    requires numSplits >= 1
  {
    total / numSplits
  }

  /** Where the i-th share starts: i * share. */
  ghost function Offset(i: nat, share: nat): nat {
    if i == 0 then 0 else Offset(i - 1, share) + share
  }

  lemma {:induction false} OffsetIsProduct(i: nat, share: nat)
    ensures Offset(i, share) == i * share
  {
    if i > 0 {
      OffsetIsProduct(i - 1, share);
      assert (i - 1) * share + share == i * share;
    }
  }

  /** Bucket i holds the i-th share of the units, in order; the last one holds the rest. */
  ghost predicate Shares(buckets: seq<seq<Allocation>>, all: seq<Coin>, share: nat)
  {
    && |buckets| >= 1
    && (forall i :: 0 <= i < |buckets| - 1 ==> IsShare(buckets[i], all, Offset(i, share), Offset(i, share) + share))
    && IsShare(buckets[|buckets| - 1], all, Offset(|buckets| - 1, share), |all|)
  }

  ghost predicate IsShare(bucket: seq<Allocation>, all: seq<Coin>, from: int, to: int) {
    0 <= from <= to <= |all| && Coins(bucket) == all[from..to]
  }

  /** The buckets under construction: closed ones are full shares, the current one holds the units since. */
  datatype Split = Split(
    closed: seq<seq<Allocation>>,
    current: seq<Allocation>,
    allocation: Allocation,
    amount: Amount)

  ghost predicate FullShares(closed: seq<seq<Allocation>>, all: seq<Coin>, share: nat) {
    forall i :: 0 <= i < |closed| ==> IsShare(closed[i], all, Offset(i, share), Offset(i, share) + share)
  }

  lemma OneMoreShare(closed: seq<seq<Allocation>>, bucket: seq<Allocation>, all: seq<Coin>, share: nat)
    requires FullShares(closed, all, share)
    requires IsShare(bucket, all, Offset(|closed|, share), Offset(|closed|, share) + share)
    ensures FullShares(closed + [bucket], all, share)
  {
    hide Coins, Offset, IsShare;
    forall i | 0 <= i < |closed + [bucket]|
      ensures IsShare((closed + [bucket])[i], all, Offset(i, share), Offset(i, share) + share)
    {
      if i < |closed| { assert (closed + [bucket])[i] == closed[i]; }
    }
  }

  ghost predicate Progress(sp: Split, all: seq<Coin>, share: nat, numSplits: nat, pos: nat) {
    && |sp.closed| < numSplits
    && FullShares(sp.closed, all, share)
    && Offset(|sp.closed|, share) <= pos <= |all|
    && Coins(sp.current) + UnlockCoins(sp.allocation, sp.allocation.unlockSchedule) ==
       all[Offset(|sp.closed|, share)..pos]
    && sp.amount as int == pos - Offset(|sp.closed|, share)
    && (|sp.closed| < numSplits - 1 ==> sp.amount as int <= share)
  }

  /** The initial amounts are on the X-chain; no bucket repeats them. */
  ghost predicate NoInitial(bucket: seq<Allocation>) {
    forall a :: a in bucket ==> a.initialAmount == 0
  }

  ghost predicate NoInitials(sp: Split) {
    && (forall b :: b in sp.closed ==> NoInitial(b))
    && NoInitial(sp.current) && sp.allocation.initialAmount == 0
  }

  lemma NoInitialsClose(sp: Split, amount: Amount, locktime: Amount)
    requires NoInitials(sp)
    ensures NoInitials(Split(sp.closed + [sp.current + [Extended(sp, amount, locktime)]], [],
                             sp.allocation.(unlockSchedule := []), 0))
  {
  }

  lemma NoInitialsNext(sp: Split, current: seq<Allocation>, a: Allocation)
    requires NoInitials(sp) && a.initialAmount == 0
    requires current == sp.current || current == sp.current + [sp.allocation]
    ensures NoInitials(sp.(current := current, allocation := a))
  {
  }

  function With(a: Allocation, u: LockedAmount): Allocation {
    a.(unlockSchedule := a.unlockSchedule + [u])
  }

  /** Units of one unlock, put at the end of the current allocation. */
  ghost function Extended(sp: Split, amount: Amount, locktime: Amount): Allocation {
    With(sp.allocation, LockedAmount(amount, locktime))
  }

  lemma ExtendedCoins(sp: Split, all: seq<Coin>, share: nat, numSplits: nat, pos: nat, amount: Amount, locktime: Amount)
    requires Progress(sp, all, share, numSplits, pos) && pos + amount as int <= |all|
    requires all[pos..pos + amount as int] ==
             Repeat(amount as int, Coin(sp.allocation.avaxAddr, sp.allocation.ethAddr, locktime))
    ensures var a := Extended(sp, amount, locktime);
            Coins(sp.current) + UnlockCoins(a, a.unlockSchedule) == all[Offset(|sp.closed|, share)..pos + amount as int]
  {
    UnlockCoinsAppend(sp.allocation, sp.allocation.unlockSchedule, LockedAmount(amount, locktime));
    var a := Extended(sp, amount, locktime);
    SameOwner(sp.allocation, a, a.unlockSchedule);
    var from := Offset(|sp.closed|, share);
    assert all[from..pos] + all[pos..pos + amount as int] == all[from..pos + amount as int];
  }

  lemma {:induction false} SameOwner(a: Allocation, b: Allocation, unlocks: seq<LockedAmount>)
    requires a.avaxAddr == b.avaxAddr && a.ethAddr == b.ethAddr
    ensures UnlockCoins(a, unlocks) == UnlockCoins(b, unlocks)
  {
    if unlocks != [] {
      SameOwner(a, b, unlocks[..|unlocks| - 1]);
    }
  }

  lemma FilledBucket(sp: Split, all: seq<Coin>, share: nat, numSplits: nat, pos: nat, amount: Amount, locktime: Amount)
    requires Progress(sp, all, share, numSplits, pos)
    requires sp.amount as int + amount as int == share && pos + amount as int <= |all|
    requires all[pos..pos + amount as int] ==
             Repeat(amount as int, Coin(sp.allocation.avaxAddr, sp.allocation.ethAddr, locktime))
    ensures var from := Offset(|sp.closed|, share);
            IsShare(sp.current + [Extended(sp, amount, locktime)], all, from, from + share) &&
              pos + amount as int == from + share
  {
    hide Coins, UnlockCoins, Repeat, FullShares;
    ExtendedCoins(sp, all, share, numSplits, pos, amount, locktime);
    CoinsAppend(sp.current, Extended(sp, amount, locktime));
  }

  lemma FreshBucket(closed: seq<seq<Allocation>>, a: Allocation, all: seq<Coin>, share: nat, numSplits: nat)
    requires |closed| < numSplits && FullShares(closed, all, share) && Offset(|closed|, share) <= |all|
    requires a.unlockSchedule == []
    ensures Progress(Split(closed, [], a, 0), all, share, numSplits, Offset(|closed|, share))
  {
  }

  /** Filling the current bucket up to its share and closing it. */
  lemma Closing(sp: Split, all: seq<Coin>, share: nat, numSplits: nat, pos: nat, amount: Amount, locktime: Amount)
    requires Progress(sp, all, share, numSplits, pos) && |sp.closed| < numSplits - 1
    requires sp.amount as int + amount as int == share && pos + amount as int <= |all|
    requires all[pos..pos + amount as int] ==
             Repeat(amount as int, Coin(sp.allocation.avaxAddr, sp.allocation.ethAddr, locktime))
    ensures Progress(Split(sp.closed + [sp.current + [Extended(sp, amount, locktime)]], [],
                           sp.allocation.(unlockSchedule := []), 0),
                     all, share, numSplits, pos + amount as int)
  {
    hide Coins, UnlockCoins, Repeat, FullShares, IsShare, Progress, Extended;
    FilledBucket(sp, all, share, numSplits, pos, amount, locktime);
    ProgressMeans(sp, all, share, numSplits, pos);
    CloseBucket(sp.closed, sp.current + [Extended(sp, amount, locktime)], sp.allocation.(unlockSchedule := []), all,
                share, numSplits);
  }

  lemma ProgressMeans(sp: Split, all: seq<Coin>, share: nat, numSplits: nat, pos: nat)
    requires Progress(sp, all, share, numSplits, pos)
    ensures FullShares(sp.closed, all, share)
  {
  }

  lemma CloseBucket(closed: seq<seq<Allocation>>, bucket: seq<Allocation>, a: Allocation, all: seq<Coin>, share: nat,
                    numSplits: nat)
    requires |closed| < numSplits - 1 && FullShares(closed, all, share) && a.unlockSchedule == []
    requires IsShare(bucket, all, Offset(|closed|, share), Offset(|closed|, share) + share)
    ensures Progress(Split(closed + [bucket], [], a, 0), all, share, numSplits, Offset(|closed|, share) + share)
  {
    hide Coins, UnlockCoins, FullShares, Progress;
    OneMoreShare(closed, bucket, all, share);
    assert Offset(|closed + [bucket]|, share) == Offset(|closed|, share) + share;
    FreshBucket(closed + [bucket], a, all, share, numSplits);
  }

  lemma RunSplit(all: seq<Coin>, pos: nat, n: nat, k: nat, c: Coin)
    requires k <= n && pos + n <= |all| && all[pos..pos + n] == Repeat(n, c)
    ensures all[pos..pos + k] == Repeat(k, c) && all[pos + k..pos + n] == Repeat(n - k, c)
  {
    assert all[pos..pos + k] == all[pos..pos + n][..k];
    assert all[pos + k..pos + n] == all[pos..pos + n][k..];
  }

  /** Some of an unlock is placed; what is left of it is the next run of units. */
  ghost predicate Filling(sp: Split, sp0: Split, all: seq<Coin>, share: nat, numSplits: nat, pos: nat, left: Amount,
                          locktime: Amount)
  {
    && Progress(sp, all, share, numSplits, pos) && NoInitials(sp) && pos + left as int <= |all|
    && all[pos..pos + left as int] ==
       Repeat(left as int, Coin(sp0.allocation.avaxAddr, sp0.allocation.ethAddr, locktime))
    && sp.allocation == sp0.allocation.(unlockSchedule := sp.allocation.unlockSchedule)
    && (|all| == 0 ==> sp.closed == sp0.closed)
  }

  lemma FillingMeans(sp: Split, sp0: Split, all: seq<Coin>, share: nat, numSplits: nat, pos: nat, left: Amount,
                     locktime: Amount)
    requires Filling(sp, sp0, all, share, numSplits, pos, left, locktime)
    ensures sp.amount as int + left as int <= |all| && |sp.closed| < numSplits
    ensures |sp.closed| < numSplits - 1 ==> sp.amount as int <= share
  {
    hide Coins, UnlockCoins, FullShares, Repeat, Offset;
  }

  lemma FillingStep(sp: Split, sp0: Split, all: seq<Coin>, share: nat, numSplits: nat, pos: nat, left: Amount,
                    locktime: Amount, amount: Amount)
    requires Filling(sp, sp0, all, share, numSplits, pos, left, locktime) && |sp.closed| < numSplits - 1
    requires sp.amount as int + amount as int == share && amount <= left && 0 < |all|
    ensures Filling(Split(sp.closed + [sp.current + [Extended(sp, amount, locktime)]], [],
                          sp.allocation.(unlockSchedule := []), 0),
                    sp0, all, share, numSplits, pos + amount as int, left - amount, locktime)
  {
    hide Coins, UnlockCoins, FullShares, Repeat, Progress, NoInitials;
    RunSplit(all, pos, left as int, amount as int, Coin(sp0.allocation.avaxAddr, sp0.allocation.ethAddr, locktime));
    Closing(sp, all, share, numSplits, pos, amount, locktime);
    NoInitialsClose(sp, amount, locktime);
  }

  lemma FillingRest(sp: Split, sp0: Split, all: seq<Coin>, share: nat, numSplits: nat, pos: nat, left: Amount,
                    locktime: Amount)
    requires Filling(sp, sp0, all, share, numSplits, pos, left, locktime) && |all| < TWO_64
    requires |sp.closed| < numSplits - 1 ==> sp.amount as int + left as int <= share
    requires sp.amount as int + left as int < TWO_64
    ensures var sp' := sp.(allocation := Extended(sp, left, locktime), amount := sp.amount + left);
            Progress(sp', all, share, numSplits, pos + left as int) && NoInitials(sp')
  {
    ExtendedCoins(sp, all, share, numSplits, pos, left, locktime);
    hide Coins, UnlockCoins, FullShares, Repeat, Offset;
  }

  /** Places one unlock, closing as many buckets as it fills. */
  method PlaceUnlock(sp0: Split, unlock: LockedAmount, nodeWeight: Amount, numSplits: nat, ghost all: seq<Coin>,
                     ghost pos0: nat)
    returns (sp: Split)
    requires Progress(sp0, all, nodeWeight as int, numSplits, pos0) && |all| < TWO_64 && NoInitials(sp0)
    requires pos0 + unlock.amount as int <= |all|
    requires all[pos0..pos0 + unlock.amount as int] ==
             Repeat(unlock.amount as int, Coin(sp0.allocation.avaxAddr, sp0.allocation.ethAddr, unlock.locktime))
    ensures Progress(sp, all, nodeWeight as int, numSplits, pos0 + unlock.amount as int) && NoInitials(sp)
    ensures sp.allocation == sp0.allocation.(unlockSchedule := sp.allocation.unlockSchedule)
    ensures |all| == 0 ==> sp.closed == sp0.closed
  {
    hide Progress, NoInitials, Repeat;
    sp := sp0;
    var left := unlock.amount;
    ghost var pos: nat := pos0;
    FillingMeans(sp, sp0, all, nodeWeight as int, numSplits, pos, left, unlock.locktime);
    while sp.amount + left > nodeWeight && |sp.closed| < numSplits - 1
      invariant Filling(sp, sp0, all, nodeWeight as int, numSplits, pos, left, unlock.locktime)
      invariant pos + left as int == pos0 + unlock.amount as int && sp.amount as int + left as int <= |all|
      decreases numSplits - |sp.closed|
    {
      FillingMeans(sp, sp0, all, nodeWeight as int, numSplits, pos, left, unlock.locktime);
      var amountToAdd := nodeWeight - sp.amount;
      FillingStep(sp, sp0, all, nodeWeight as int, numSplits, pos, left, unlock.locktime, amountToAdd);
      var filled := With(sp.allocation, LockedAmount(amountToAdd, unlock.locktime));
      left := left - amountToAdd;
      sp := Split(sp.closed + [sp.current + [filled]], [], sp.allocation.(unlockSchedule := []), 0);
      pos := pos + amountToAdd as int;
      FillingMeans(sp, sp0, all, nodeWeight as int, numSplits, pos, left, unlock.locktime);
    }
    if left == 0 {
      return;
    }
    FillingRest(sp, sp0, all, nodeWeight as int, numSplits, pos, left, unlock.locktime);
    sp := sp.(allocation := With(sp.allocation, LockedAmount(left, unlock.locktime)), amount := sp.amount + left);
  }

  /** The coins of unlock j of allocation i are a run of the whole sequence. */
  lemma RunOf(allocations: seq<Allocation>, i: nat, j: nat)
    requires i < |allocations| && j < |allocations[i].unlockSchedule|
    ensures var a, all := allocations[i], Coins(allocations);
            var u := a.unlockSchedule[j];
            var pos := |Coins(allocations[..i])| + |UnlockCoins(a, a.unlockSchedule[..j])|;
            && pos + u.amount as int <= |all|
            && all[pos..pos + u.amount as int] == Repeat(u.amount as int, Coin(a.avaxAddr, a.ethAddr, u.locktime))
            && |UnlockCoins(a, a.unlockSchedule[..j + 1])| == |UnlockCoins(a, a.unlockSchedule[..j])| + u.amount as int
  {
    hide Coins, UnlockCoins, Repeat;
    var a, all := allocations[i], Coins(allocations);
    var u := a.unlockSchedule[j];
    CoinsPrefix(allocations, i + 1);
    assert allocations[..i + 1] == allocations[..i] + [a];
    CoinsAppend(allocations[..i], a);
    UnlocksPrefix(a, a.unlockSchedule, j + 1);
    assert a.unlockSchedule[..j + 1] == a.unlockSchedule[..j] + [u];
    UnlockCoinsAppend(a, a.unlockSchedule[..j], u);
    RepeatLength(u.amount as int, Coin(a.avaxAddr, a.ethAddr, u.locktime));
    Window(all, Coins(allocations[..i]), UnlockCoins(a, a.unlockSchedule), UnlockCoins(a, a.unlockSchedule[..j]),
           Repeat(u.amount as int, Coin(a.avaxAddr, a.ethAddr, u.locktime)));
  }

  lemma Window(all: seq<Coin>, x: seq<Coin>, y: seq<Coin>, u: seq<Coin>, v: seq<Coin>)
    requires x + y <= all && u + v <= y
    ensures |x| + |u| + |v| <= |all| && all[|x| + |u|..|x| + |u| + |v|] == v
  {
    assert v == y[|u|..|u| + |v|];
    assert y == all[|x|..|x| + |y|];
  }

  /** The first unlocks of an allocation are placed on top of what was there. */
  ghost predicate Placing(sp: Split, sp0: Split, allocations: seq<Allocation>, i: nat, j: nat, share: nat,
                          numSplits: nat)
    requires i < |allocations| && j <= |allocations[i].unlockSchedule|
  {
    && Progress(sp, Coins(allocations), share, numSplits, Placed(allocations, i, j)) && NoInitials(sp)
    && sp.allocation == sp0.allocation.(unlockSchedule := sp.allocation.unlockSchedule)
    && (|Coins(allocations)| == 0 ==> sp.closed == sp0.closed)
  }

  /** The number of units before unlock j of allocation i. */
  ghost function Placed(allocations: seq<Allocation>, i: nat, j: nat): nat
    requires i < |allocations| && j <= |allocations[i].unlockSchedule|
  {
    |Coins(allocations[..i])| + |UnlockCoins(allocations[i], allocations[i].unlockSchedule[..j])|
  }

  lemma PlacedEnds(allocations: seq<Allocation>, i: nat)
    requires i < |allocations|
    ensures Placed(allocations, i, 0) == |Coins(allocations[..i])|
    ensures Placed(allocations, i, |allocations[i].unlockSchedule|) == |Coins(allocations[..i + 1])|
  {
    var a := allocations[i];
    assert a.unlockSchedule[..|a.unlockSchedule|] == a.unlockSchedule;
    assert allocations[..i + 1] == allocations[..i] + [a];
    CoinsAppend(allocations[..i], a);
  }

  /** Places all unlocks of one allocation. */
  method PlaceAllocation(sp0: Split, allocations: seq<Allocation>, i: nat, nodeWeight: Amount, numSplits: nat)
    returns (sp: Split)
    requires i < |allocations| && |Coins(allocations)| < TWO_64
    requires Progress(sp0, Coins(allocations), nodeWeight as int, numSplits, |Coins(allocations[..i])|)
    requires NoInitials(sp0)
    requires sp0.allocation == allocations[i].(initialAmount := 0, unlockSchedule := [])
    ensures Progress(sp, Coins(allocations), nodeWeight as int, numSplits, |Coins(allocations[..i + 1])|)
    ensures NoInitials(sp)
    ensures |Coins(allocations)| == 0 ==> sp.closed == sp0.closed
  {
    hide Progress, Coins, Placed, NoInitials;
    PlacedEnds(allocations, i);
    sp := sp0;
    for j := 0 to |allocations[i].unlockSchedule|
      invariant Placing(sp, sp0, allocations, i, j, nodeWeight as int, numSplits)
    {
      sp := PlaceNext(sp, sp0, allocations, i, j, nodeWeight, numSplits);
    }
  }

  /** Places the next unlock of an allocation. */
  method PlaceNext(sp1: Split, ghost sp0: Split, allocations: seq<Allocation>, i: nat, j: nat, nodeWeight: Amount,
                   numSplits: nat)
    returns (sp: Split)
    requires i < |allocations| && j < |allocations[i].unlockSchedule| && |Coins(allocations)| < TWO_64
    requires sp0.allocation == allocations[i].(initialAmount := 0, unlockSchedule := [])
    requires Placing(sp1, sp0, allocations, i, j, nodeWeight as int, numSplits)
    ensures Placing(sp, sp0, allocations, i, j + 1, nodeWeight as int, numSplits)
  {
    hide Progress, Coins, UnlockCoins, NoInitials, Repeat;
    RunOf(allocations, i, j);
    sp := PlaceUnlock(sp1, allocations[i].unlockSchedule[j], nodeWeight, numSplits, Coins(allocations),
                      Placed(allocations, i, j));
  }

  /** Moves on to another allocation, keeping what the finished one holds. */
  lemma NextAllocation(sp: Split, current: seq<Allocation>, a: Allocation, all: seq<Coin>, share: nat, numSplits: nat,
                       pos: nat)
    requires Progress(sp, all, share, numSplits, pos) && a.unlockSchedule == []
    requires current == if |sp.allocation.unlockSchedule| > 0 then sp.current + [sp.allocation] else sp.current
    ensures Progress(sp.(current := current, allocation := a), all, share, numSplits, pos)
  {
    CoinsAppend(sp.current, sp.allocation);
    assert Coins(sp.current) + [] == Coins(sp.current);
    assert Coins(current) + UnlockCoins(a, []) ==
           Coins(sp.current) + UnlockCoins(sp.allocation, sp.allocation.unlockSchedule);
  }

  lemma {:induction false} OffsetGrows(i: nat, j: nat, share: nat)
    requires i <= j
    ensures Offset(i, share) <= Offset(j, share)
  {
    if i < j { OffsetGrows(i, j - 1, share); }
  }

  /** With anything to split, the loop closes all buckets but the last. */
  lemma AllButLastClosed(total: nat, numSplits: nat, closed: nat, amount: nat)
    requires numSplits >= 1 && closed < numSplits
    requires total == Offset(closed, Share(total, numSplits)) + amount
    requires closed < numSplits - 1 ==> amount <= Share(total, numSplits)
    ensures total > 0 ==> closed == numSplits - 1
  {
    var share := Share(total, numSplits);
    OffsetIsProduct(numSplits, share);
    LastShare(total, numSplits);
    assert numSplits * share == (numSplits - 1) * share + share;
    hide Share;
    if closed < numSplits - 1 {
      OffsetGrows(closed + 1, numSplits - 1, share);
      if share == 0 { OffsetIsProduct(closed, 0); }
    }
  }

  /** Places all allocations, one after the other. */
  method PlaceAll(allocations: seq<Allocation>, nodeWeight: Amount, numSplits: nat) returns (sp: Split)
    requires 1 <= numSplits && |Coins(allocations)| < TWO_64
    ensures Progress(sp, Coins(allocations), nodeWeight as int, numSplits, |Coins(allocations)|) && NoInitials(sp)
    ensures sp.allocation.unlockSchedule == [] && (|Coins(allocations)| == 0 ==> sp.closed == [])
  {
    ghost var all, share := Coins(allocations), nodeWeight as int;
    sp := Split([], [], Allocation(0, 0, 0, []), 0);
    FreshBucket([], sp.allocation, all, share, numSplits);
    assert Coins(allocations[..0]) == [] && NoInitials(sp);
    hide Progress, Coins, NoInitials, NoInitial, FullShares, Offset, UnlockCoins;
    for i := 0 to |allocations|
      invariant Progress(sp, all, share, numSplits, |Coins(allocations[..i])|) && NoInitials(sp)
      invariant sp.allocation.unlockSchedule == [] && (|all| == 0 ==> sp.closed == [])
    {
      var start := allocations[i].(initialAmount := 0, unlockSchedule := []);
      NextAllocation(sp, sp.current, start, all, share, numSplits, |Coins(allocations[..i])|);
      NoInitialsNext(sp, sp.current, start);
      sp := PlaceAllocation(sp.(allocation := start), allocations, i, nodeWeight, numSplits);
      var current := if |sp.allocation.unlockSchedule| > 0 then sp.current + [sp.allocation] else sp.current;
      NextAllocation(sp, current, start, all, share, numSplits, |Coins(allocations[..i + 1])|);
      NoInitialsNext(sp, current, start);
      sp := sp.(current := current, allocation := start);
    }
    assert allocations[..|allocations|] == allocations;
  }

  method SplitAllocations(allocations: seq<Allocation>, numSplits: nat) returns (buckets: seq<seq<Allocation>>)
    requires 1 <= numSplits < TWO_64 && |Coins(allocations)| < TWO_64
    ensures Shares(buckets, Coins(allocations), Share(|Coins(allocations)|, numSplits))
    ensures |buckets| == if |Coins(allocations)| > 0 then numSplits else 1
    ensures forall b :: b in buckets ==> NoInitial(b)
  {
    hide Coins, Share, Offset, FullShares, Shares, UnlockCoins, Progress;
    var total := TotalAmount(allocations);
    var nodeWeight := total / numSplits as Amount;
    WeightIsShare(total, numSplits);
    var sp := PlaceAll(allocations, nodeWeight, numSplits);
    ProgressEnds(sp, Coins(allocations), numSplits);
    LastBucket(sp, Coins(allocations), nodeWeight as int, numSplits);
    buckets := sp.closed + [sp.current];
  }

  lemma WeightIsShare(total: Amount, numSplits: nat)
    requires 1 <= numSplits < TWO_64
    ensures (total / numSplits as Amount) as int == Share(total as int, numSplits)
  {
  }

  /** When all units are placed, all buckets but the last are closed. */
  lemma ProgressEnds(sp: Split, all: seq<Coin>, numSplits: nat)
    requires numSplits >= 1 && Progress(sp, all, Share(|all|, numSplits), numSplits, |all|)
    ensures |all| > 0 ==> |sp.closed| == numSplits - 1
  {
    hide Share, Offset, FullShares, Coins, UnlockCoins;
    AllButLastClosed(|all|, numSplits, |sp.closed|, sp.amount as int);
  }

  lemma LastBucket(sp: Split, all: seq<Coin>, share: nat, numSplits: nat)
    requires Progress(sp, all, share, numSplits, |all|) && sp.allocation.unlockSchedule == []
    ensures Shares(sp.closed + [sp.current], all, share)
  {
    assert UnlockCoins(sp.allocation, []) == [] && Coins(sp.current) + [] == Coins(sp.current);
    hide Coins, UnlockCoins, Offset;
    var buckets := sp.closed + [sp.current];
    assert forall i :: 0 <= i < |sp.closed| ==> buckets[i] == sp.closed[i];
  }

  // ---- What the shares mean for amounts ----

  lemma {:induction false} SharesConcat(buckets: seq<seq<Allocation>>, all: seq<Coin>, share: nat, k: nat)
    requires Shares(buckets, all, share) && k < |buckets|
    ensures Offset(k, share) <= |all| && BucketsCoins(buckets[..k]) == all[..Offset(k, share)]
  {
    hide *;
    if k == 0 {
      NoBuckets(buckets, all, share);
    } else {
      SharesConcat(buckets, all, share, k - 1);
      ShareAt(buckets, all, share, k - 1);
      assert buckets[..k] == buckets[..k - 1] + [buckets[k - 1]];
      OneMoreBucket(buckets[..k - 1], buckets[k - 1], all, Offset(k - 1, share), Offset(k, share));
    }
  }

  lemma NoBuckets(buckets: seq<seq<Allocation>>, all: seq<Coin>, share: nat)
    ensures Offset(0, share) == 0 && BucketsCoins(buckets[..0]) == all[..0]
  {
  }

  lemma ShareAt(buckets: seq<seq<Allocation>>, all: seq<Coin>, share: nat, i: nat)
    requires Shares(buckets, all, share) && i + 1 < |buckets|
    ensures IsShare(buckets[i], all, Offset(i, share), Offset(i + 1, share))
  {
    hide Coins;
    assert Offset(i + 1, share) == Offset(i, share) + share;
  }

  lemma OneMoreBucket(buckets: seq<seq<Allocation>>, bucket: seq<Allocation>, all: seq<Coin>, from: nat, to: nat)
    requires IsShare(bucket, all, from, to) && BucketsCoins(buckets) == all[..from]
    ensures to <= |all| && BucketsCoins(buckets + [bucket]) == all[..to]
  {
    assert (buckets + [bucket])[..|buckets|] == buckets;
    assert all[..from] + all[from..to] == all[..to];
  }

  /** Every bucket but the last holds exactly the share, and the last less than numSplits more. */
  lemma SplitIsFair(buckets: seq<seq<Allocation>>, all: seq<Coin>, numSplits: nat)
    requires numSplits >= 1 && Shares(buckets, all, Share(|all|, numSplits))
    requires |all| > 0 ==> |buckets| == numSplits
    ensures forall i :: 0 <= i < |buckets| - 1 ==> |Coins(buckets[i])| == Share(|all|, numSplits)
    ensures |all| > 0 ==>
            Share(|all|, numSplits) <= |Coins(buckets[|buckets| - 1])| < Share(|all|, numSplits) + numSplits
  {
    hide Coins, Share;
    OffsetIsProduct(|buckets| - 1, Share(|all|, numSplits));
    LastShare(|all|, numSplits);
  }

  /** The split loses nothing: the units are the same in the same order, so the amount of every coin is conserved. */
  lemma SplitConserves(buckets: seq<seq<Allocation>>, allocations: seq<Allocation>, share: nat, c: Coin)
    requires Shares(buckets, Coins(allocations), share)
    ensures BucketsCoins(buckets) == Coins(allocations)
    ensures BucketsAmountFor(buckets, c) == AmountFor(allocations, c)
  {
    SharesAll(buckets, Coins(allocations), share);
    hide Coins, BucketsCoins, AmountFor, BucketsAmountFor, Shares;
    CoinsCount(allocations, c);
    BucketsCount(buckets, c);
  }

  lemma SharesAll(buckets: seq<seq<Allocation>>, all: seq<Coin>, share: nat)
    requires Shares(buckets, all, share)
    ensures BucketsCoins(buckets) == all
  {
    hide Coins, Offset;
    var last := |buckets| - 1;
    SharesConcat(buckets, all, share, last);
    assert BucketsCoins(buckets) == BucketsCoins(buckets[..last]) + Coins(buckets[last]);
    assert all[..Offset(last, share)] + all[Offset(last, share)..] == all;
  }

  lemma LastShare(total: nat, numSplits: nat)
    requires numSplits >= 1
    ensures var share := Share(total, numSplits); share <= total - (numSplits - 1) * share < share + numSplits
  {
    var share := total / numSplits;
    assert total == numSplits * share + total % numSplits;
    assert numSplits * share == (numSplits - 1) * share + share;
  }
}
