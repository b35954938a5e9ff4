/**
 Building the genesis state from a configuration: X-chain holdings, unstaked platform outputs and
 the stake of every initial validator, with the total supply conserved.
 */
module GenesisState {
  import opened Common
  import opened Genesis

  datatype Config = Config(
    allocations: seq<Allocation>,
    initialStakedFunds: seq<Address>,
    numStakers: nat)

  /** What else the check of a configuration looks at: times in seconds, and sizes. */
  datatype Setting = Setting(
    networkID: nat,
    startTime: nat,
    stakeDuration: nat,
    stakeDurationOffset: nat,
    maxStakeDuration: nat,
    cChainGenesis: string)

  datatype Holder = Holder(amount: Amount, address: Address)

  datatype Output = Output(locktime: Amount, amount: Amount, avaxAddr: Address, ethAddr: Address)

  datatype State = State(
    holders: seq<Holder>,
    platform: seq<Output>,
    validators: seq<seq<Output>>,
    initialSupply: Amount)

  /** Building fails with an error when the supply overflows, and stops the process on an index or division fault. */
  datatype Outcome = Built(state: State) | SupplyOverflow | Crash

  // ---- Totals ----

  ghost function Initial(allocations: seq<Allocation>): nat {
    if allocations == [] then 0
    else Initial(allocations[..|allocations| - 1]) + allocations[|allocations| - 1].initialAmount as int
  }

  ghost function Supply(allocations: seq<Allocation>): nat {
    Initial(allocations) + |Coins(allocations)|
  }

  ghost function OutputCoins(outputs: seq<Output>): seq<Coin> {
    if outputs == [] then []
    else
      var o := outputs[|outputs| - 1];
      OutputCoins(outputs[..|outputs| - 1]) + Repeat(o.amount as int, Coin(o.avaxAddr, o.ethAddr, o.locktime))
  }

  ghost function StakeCoins(validators: seq<seq<Output>>): seq<Coin> {
    if validators == [] then []
    else StakeCoins(validators[..|validators| - 1]) + OutputCoins(validators[|validators| - 1])
  }

  ghost function HolderTotal(holders: seq<Holder>): nat {
    if holders == [] then 0 else HolderTotal(holders[..|holders| - 1]) + holders[|holders| - 1].amount as int
  }

  lemma InitialAppend(allocations: seq<Allocation>, a: Allocation)
    ensures Initial(allocations + [a]) == Initial(allocations) + a.initialAmount as int
  {
    assert (allocations + [a])[..|allocations|] == allocations;
  }

  lemma OutputAppend(outputs: seq<Output>, o: Output)
    ensures OutputCoins(outputs + [o]) ==
            OutputCoins(outputs) + Repeat(o.amount as int, Coin(o.avaxAddr, o.ethAddr, o.locktime))
  {
    assert (outputs + [o])[..|outputs|] == outputs;
  }

  lemma {:induction false} InitialPrefix(allocations: seq<Allocation>, i: nat)
    requires i <= |allocations|
    ensures Initial(allocations[..i]) <= Initial(allocations)
    decreases |allocations| - i
  {
    if i < |allocations| {
      InitialPrefix(allocations, i + 1);
      assert allocations[..i + 1][..i] == allocations[..i];
    } else {
      assert allocations[..i] == allocations;
    }
  }

  // ---- The checked supply ----

  method CheckedAdd(a: Amount, b: Amount) returns (sum: Option<Amount>)
    ensures sum.Some? <==> a as int + b as int < TWO_64
    ensures sum.Some? ==> sum.value as int == a as int + b as int
  {
    if a > (TWO_64 - 1) as Amount - b {
      return None;
    }
    return Some(a + b);
  }

  /** The sum of one allocation's unlocks on top of what was counted so far. */
  method AddUnlocks(start: Amount, a: Allocation) returns (sum: Option<Amount>)
    ensures sum.Some? <==> start as int + |UnlockCoins(a, a.unlockSchedule)| < TWO_64
    ensures sum.Some? ==> sum.value as int == start as int + |UnlockCoins(a, a.unlockSchedule)|
  {
    var total := start;
    for j := 0 to |a.unlockSchedule|
      invariant total as int == start as int + |UnlockCoins(a, a.unlockSchedule[..j])|
    {
      assert a.unlockSchedule[..j + 1][..j] == a.unlockSchedule[..j];
      UnlocksPrefix(a, a.unlockSchedule, j + 1);
      var next := CheckedAdd(total, a.unlockSchedule[j].amount);
      if next.None? {
        return None;
      }
      total := next.value;
    }
    assert a.unlockSchedule[..|a.unlockSchedule|] == a.unlockSchedule;
    return Some(total);
  }

  /** The supply, or nothing exactly when it does not fit in 64 bits. */
  method InitialSupply(allocations: seq<Allocation>) returns (supply: Option<Amount>)
    ensures supply.Some? <==> Supply(allocations) < TWO_64
    ensures supply.Some? ==> supply.value as int == Supply(allocations)
  {
    var total: Amount := 0;
    for i := 0 to |allocations|
      invariant total as int == Supply(allocations[..i])
    {
      var a := allocations[i];
      assert allocations[..i + 1] == allocations[..i] + [a];
      CoinsAppend(allocations[..i], a);
      InitialAppend(allocations[..i], a);
      CoinsPrefix(allocations, i + 1);
      InitialPrefix(allocations, i + 1);
      var next := CheckedAdd(total, a.initialAmount);
      if next.None? {
        return None;
      }
      next := AddUnlocks(next.value, a);
      if next.None? {
        return None;
      }
      total := next.value;
    }
    assert allocations[..|allocations|] == allocations;
    return Some(total);
  }

  // ---- X-chain holders ----

  /** What an address is given at the start, and what it holds. */
  ghost function InitialFor(allocations: seq<Allocation>, address: Address): nat {
    if allocations == [] then 0
    else
      var a := allocations[|allocations| - 1];
      InitialFor(allocations[..|allocations| - 1], address) +
      if a.avaxAddr == address then a.initialAmount as int else 0
  }

  ghost function Held(holders: seq<Holder>, address: Address): nat {
    if holders == [] then 0
    else
      var h := holders[|holders| - 1];
      Held(holders[..|holders| - 1], address) + if h.address == address then h.amount as int else 0
  }

  lemma HoldersAppend(holders: seq<Holder>, h: Holder)
    ensures HolderTotal(holders + [h]) == HolderTotal(holders) + h.amount as int
    ensures forall x :: Held(holders + [h], x) == Held(holders, x) + if h.address == x then h.amount as int else 0
  {
    assert (holders + [h])[..|holders|] == holders;
  }

  lemma InitialForAppend(allocations: seq<Allocation>, a: Allocation)
    ensures forall x :: InitialFor(allocations + [a], x) ==
                        InitialFor(allocations, x) + if a.avaxAddr == x then a.initialAmount as int else 0
  {
    assert (allocations + [a])[..|allocations|] == allocations;
  }

  /** One holder for every allocation with an initial amount; the source then sorts them. */
  method XChainHolders(allocations: seq<Allocation>) returns (holders: seq<Holder>)
    ensures HolderTotal(holders) == Initial(allocations)
    ensures forall x :: Held(holders, x) == InitialFor(allocations, x)
    ensures forall h :: h in holders ==> h.amount > 0
  {
    holders := [];
    for i := 0 to |allocations|
      invariant HolderTotal(holders) == Initial(allocations[..i])
      invariant forall x :: Held(holders, x) == InitialFor(allocations[..i], x)
      invariant forall h :: h in holders ==> h.amount > 0
    {
      var a := allocations[i];
      assert allocations[..i + 1] == allocations[..i] + [a];
      InitialAppend(allocations[..i], a);
      InitialForAppend(allocations[..i], a);
      hide Held, InitialFor, HolderTotal, Initial;
      if a.initialAmount > 0 {
        var h := Holder(a.initialAmount, a.avaxAddr);
        HoldersAppend(holders, h);
        holders := holders + [h];
      }
    }
    assert allocations[..|allocations|] == allocations;
  }

  // ---- Platform outputs ----

  /** One output per unlock; unstaked funds leave out the empty ones. */
  method Outputs(a: Allocation, keepEmpty: bool) returns (outputs: seq<Output>)
    ensures OutputCoins(outputs) == UnlockCoins(a, a.unlockSchedule)
  {
    outputs := [];
    for j := 0 to |a.unlockSchedule|
      invariant OutputCoins(outputs) == UnlockCoins(a, a.unlockSchedule[..j])
    {
      var u := a.unlockSchedule[j];
      assert a.unlockSchedule[..j + 1][..j] == a.unlockSchedule[..j];
      assert u.amount == 0 ==> Repeat(u.amount as int, Coin(a.avaxAddr, a.ethAddr, u.locktime)) == [];
      if keepEmpty || u.amount > 0 {
        var o := Output(u.locktime, u.amount, a.avaxAddr, a.ethAddr);
        OutputAppend(outputs, o);
        outputs := outputs + [o];
      }
    }
    assert a.unlockSchedule[..|a.unlockSchedule|] == a.unlockSchedule;
  }

  lemma {:induction false} OutputConcat(a: seq<Output>, b: seq<Output>)
    ensures OutputCoins(a + b) == OutputCoins(a) + OutputCoins(b)
  {
    if b == [] {
      assert a + b == a && OutputCoins(b) == [];
    } else {
      var rest, o := b[..|b| - 1], b[|b| - 1];
      OutputConcat(a, rest);
      OutputAppend(rest, o);
      OutputAppend(a + rest, o);
      hide OutputCoins;
      assert rest + [o] == b && (a + rest) + [o] == a + b;
    }
  }

  /** The allocations whose locked funds are staked. */
  ghost function Staked(allocations: seq<Allocation>, funds: set<Address>): seq<Allocation> {
    if allocations == [] then []
    else
      var a := allocations[|allocations| - 1];
      Staked(allocations[..|allocations| - 1], funds) + if a.avaxAddr in funds then [a] else []
  }

  /** Sets staked allocations aside and turns the others into platform outputs. */
  method SetAside(allocations: seq<Allocation>, funds: set<Address>)
    returns (staked: seq<Allocation>, platform: seq<Output>)
    ensures staked == Staked(allocations, funds) && Divided(staked, platform, allocations)
  {
    staked, platform := [], [];
    assert Coins([]) == [] && OutputCoins([]) == [] && Staked([], funds) == [] && allocations[..0] == [];
    for i := 0 to |allocations|
      invariant staked == Staked(allocations[..i], funds)
      invariant Divided(staked, platform, allocations[..i])
    {
      hide Coins, OutputCoins, UnlockCoins, Staked, Divided;
      var a := allocations[i];
      assert allocations[..i + 1] == allocations[..i] + [a];
      StakedAppend(allocations[..i], a, funds);
      if a.avaxAddr in funds {
        DividedStaked(staked, platform, allocations[..i], a);
        staked := staked + [a];
      } else {
        var outputs := Outputs(a, false);
        DividedPaid(staked, platform, allocations[..i], a, outputs);
        platform := platform + outputs;
      }
    }
    assert allocations[..|allocations|] == allocations;
  }

  /** Every unit is staked or paid out. */
  ghost predicate Divided(staked: seq<Allocation>, platform: seq<Output>, allocations: seq<Allocation>) {
    multiset(Coins(staked)) + multiset(OutputCoins(platform)) == multiset(Coins(allocations))
  }

  lemma DividedStaked(staked: seq<Allocation>, platform: seq<Output>, allocations: seq<Allocation>, a: Allocation)
    requires Divided(staked, platform, allocations)
    ensures Divided(staked + [a], platform, allocations + [a])
  {
    hide Coins, OutputCoins, UnlockCoins;
    CoinsAppend(allocations, a);
    CoinsAppend(staked, a);
  }

  lemma DividedPaid(staked: seq<Allocation>, platform: seq<Output>, allocations: seq<Allocation>, a: Allocation,
                    outputs: seq<Output>)
    requires Divided(staked, platform, allocations) && OutputCoins(outputs) == UnlockCoins(a, a.unlockSchedule)
    ensures Divided(staked, platform + outputs, allocations + [a])
  {
    hide Coins, OutputCoins, UnlockCoins;
    CoinsAppend(allocations, a);
    OutputConcat(platform, outputs);
  }

  lemma StakedAppend(allocations: seq<Allocation>, a: Allocation, funds: set<Address>)
    ensures Staked(allocations + [a], funds) ==
            if a.avaxAddr in funds then Staked(allocations, funds) + [a] else Staked(allocations, funds)
  {
    assert (allocations + [a])[..|allocations|] == allocations;
  }

  /** The stake of one validator: every unlock of its bucket. */
  method ValidatorStake(bucket: seq<Allocation>) returns (stake: seq<Output>)
    ensures OutputCoins(stake) == Coins(bucket)
  {
    stake := [];
    for i := 0 to |bucket|
      invariant OutputCoins(stake) == Coins(bucket[..i])
    {
      assert bucket[..i + 1] == bucket[..i] + [bucket[i]];
      CoinsAppend(bucket[..i], bucket[i]);
      var outputs := Outputs(bucket[i], true);
      OutputConcat(stake, outputs);
      stake := stake + outputs;
    }
    assert bucket[..|bucket|] == bucket;
  }

  lemma NoStakes(buckets: seq<seq<Allocation>>)
    ensures StakeCoins([]) == BucketsCoins(buckets[..0])
  {
  }

  lemma StakeAppend(stakes: seq<seq<Output>>, stake: seq<Output>, buckets: seq<seq<Allocation>>,
                    bucket: seq<Allocation>)
    requires StakeCoins(stakes) == BucketsCoins(buckets) && OutputCoins(stake) == Coins(bucket)
    ensures StakeCoins(stakes + [stake]) == BucketsCoins(buckets + [bucket])
  {
    assert (stakes + [stake])[..|stakes|] == stakes && (buckets + [bucket])[..|buckets|] == buckets;
  }

  method ValidatorStakes(buckets: seq<seq<Allocation>>) returns (stakes: seq<seq<Output>>)
    ensures |stakes| == |buckets| && StakeCoins(stakes) == BucketsCoins(buckets)
    ensures forall i :: 0 <= i < |stakes| ==> OutputCoins(stakes[i]) == Coins(buckets[i])
  {
    hide *;
    stakes := [];
    NoStakes(buckets);
    for i := 0 to |buckets|
      invariant |stakes| == i && StakeCoins(stakes) == BucketsCoins(buckets[..i])
      invariant forall k :: 0 <= k < i ==> OutputCoins(stakes[k]) == Coins(buckets[k])
    {
      assert buckets[..i + 1] == buckets[..i] + [buckets[i]];
      var stake := ValidatorStake(buckets[i]);
      StakeAppend(stakes, stake, buckets[..i], buckets[i]);
      stakes := stakes + [stake];
    }
    assert buckets[..|buckets|] == buckets;
  }

  // ---- The whole state ----

  ghost function StakedTotal(config: Config): nat {
    |Coins(Staked(config.allocations, Funds(config)))|
  }

  function Funds(config: Config): set<Address> {
    set a | a in config.initialStakedFunds
  }

  /** The staked total is part of the supply. */
  lemma {:induction false} StakedWithin(allocations: seq<Allocation>, funds: set<Address>)
    ensures |Coins(Staked(allocations, funds))| <= |Coins(allocations)|
  {
    if allocations != [] {
      var a, rest := allocations[|allocations| - 1], allocations[..|allocations| - 1];
      StakedWithin(rest, funds);
      CoinsAppend(Staked(rest, funds), a);
      assert Staked(rest, funds) + [] == Staked(rest, funds);
    }
  }

  lemma {:induction false} UnlockOwner(a: Allocation, unlocks: seq<LockedAmount>, c: Coin)
    requires c.avaxAddr != a.avaxAddr
    ensures multiset(UnlockCoins(a, unlocks))[c] == 0
  {
    if unlocks != [] {
      var u := unlocks[|unlocks| - 1];
      UnlockOwner(a, unlocks[..|unlocks| - 1], c);
      assert c !in Repeat(u.amount as int, Coin(a.avaxAddr, a.ethAddr, u.locktime));
    }
  }

  /** Of each coin all units are staked or none, as its address is among the staked funds or not. */
  lemma {:induction false} StakedCoins(allocations: seq<Allocation>, funds: set<Address>, c: Coin)
    ensures multiset(Coins(Staked(allocations, funds)))[c] ==
            if c.avaxAddr in funds then multiset(Coins(allocations))[c] else 0
  {
    if allocations != [] {
      var rest, a := allocations[..|allocations| - 1], allocations[|allocations| - 1];
      assert allocations == rest + [a];
      StakedCoins(rest, funds, c);
      StakedAppend(rest, a, funds);
      CoinsAppend(rest, a);
      CoinsAppend(Staked(rest, funds), a);
      hide Coins, Staked, UnlockCoins;
      if c.avaxAddr != a.avaxAddr {
        UnlockOwner(a, a.unlockSchedule, c);
      }
    }
  }

  /** The staked units and those paid out, coin by coin. */
  lemma WhereCoinsGo(allocations: seq<Allocation>, funds: set<Address>, platform: seq<Output>, c: Coin)
    requires Divided(Staked(allocations, funds), platform, allocations)
    ensures multiset(Coins(Staked(allocations, funds)))[c] ==
            if c.avaxAddr in funds then multiset(Coins(allocations))[c] else 0
    ensures multiset(OutputCoins(platform))[c] == if c.avaxAddr in funds then 0 else multiset(Coins(allocations))[c]
  {
    StakedCoins(allocations, funds, c);
    hide Coins, OutputCoins, Staked;
    assert (multiset(Coins(Staked(allocations, funds))) + multiset(OutputCoins(platform)))[c] ==
           multiset(Coins(allocations))[c];
  }

  /** Where every unit of the supply went. */
  ghost predicate Conserves(state: State, config: Config) {
    && HolderTotal(state.holders) == Initial(config.allocations)
    && (forall x :: Held(state.holders, x) == InitialFor(config.allocations, x))
    && multiset(OutputCoins(state.platform)) + multiset(StakeCoins(state.validators)) ==
       multiset(Coins(config.allocations))
    && HolderTotal(state.holders) + |OutputCoins(state.platform)| + |StakeCoins(state.validators)| ==
       state.initialSupply as int
  }

  method FromConfig(config: Config) returns (outcome: Outcome)
    requires config.numStakers < TWO_64
    ensures outcome.SupplyOverflow? <==> Supply(config.allocations) >= TWO_64
    ensures outcome.Crash? <==> Supply(config.allocations) < TWO_64 &&
                                (config.numStakers == 0 || (config.numStakers > 1 && StakedTotal(config) == 0))
    ensures outcome.Built? ==> Conserves(outcome.state, config) && |outcome.state.validators| == config.numStakers
    ensures outcome.Built? ==>
            config.numStakers > 0 && Fair(outcome.state.validators, StakedTotal(config), config.numStakers)
    ensures outcome.Built? ==>
            StakeCoins(outcome.state.validators) == Coins(Staked(config.allocations, Funds(config)))
    ensures outcome.Built? ==> forall c: Coin ::
              && multiset(StakeCoins(outcome.state.validators))[c] ==
                 (if c.avaxAddr in config.initialStakedFunds then multiset(Coins(config.allocations))[c] else 0)
              && multiset(OutputCoins(outcome.state.platform))[c] ==
                 (if c.avaxAddr in config.initialStakedFunds then 0 else multiset(Coins(config.allocations))[c])
  {
    hide Coins, OutputCoins, StakeCoins, HolderTotal, Held, Initial, InitialFor, Staked, Fair, Divided;
    var holders := XChainHolders(config.allocations);
    var supply := InitialSupply(config.allocations);
    if supply.None? {
      return SupplyOverflow;
    }
    var staked, platform := SetAside(config.allocations, Funds(config));
    StakedWithin(config.allocations, Funds(config));
    var stakes := Stake(staked, config.numStakers);
    if stakes.None? {
      return Crash;
    }
    StakesConserve(config.allocations, staked, platform, stakes.value);
    forall c: Coin
      ensures multiset(StakeCoins(stakes.value))[c] ==
              if c.avaxAddr in config.initialStakedFunds then multiset(Coins(config.allocations))[c] else 0
      ensures multiset(OutputCoins(platform))[c] ==
              if c.avaxAddr in config.initialStakedFunds then 0 else multiset(Coins(config.allocations))[c]
    {
      WhereCoinsGo(config.allocations, Funds(config), platform, c);
    }
    return Built(State(holders, platform, stakes.value, supply.value));
  }

  /** All stakes but the last are equal, and the last is larger by less than the number of stakers. */
  ghost predicate Fair(stakes: seq<seq<Output>>, total: nat, numStakers: nat)
    requires numStakers > 0
  {
    && (forall i :: 0 <= i < |stakes| - 1 ==> |OutputCoins(stakes[i])| == Share(total, numStakers))
    && (total > 0 ==> |stakes| > 0)
    && (total > 0 ==>
          Share(total, numStakers) <= |OutputCoins(stakes[|stakes| - 1])| < Share(total, numStakers) + numStakers)
  }

  /** The stake of every staker; a division by zero or a missing bucket stops the process. */
  method Stake(staked: seq<Allocation>, numStakers: nat) returns (stakes: Option<seq<seq<Output>>>)
    requires numStakers < TWO_64 && |Coins(staked)| < TWO_64
    ensures stakes.None? <==> numStakers == 0 || (numStakers > 1 && |Coins(staked)| == 0)
    ensures stakes.Some? ==> |stakes.value| == numStakers && StakeCoins(stakes.value) == Coins(staked)
    ensures stakes.Some? ==> Fair(stakes.value, |Coins(staked)|, numStakers)
  {
    if numStakers == 0 {
      return None;
    }
    hide Coins, OutputCoins, StakeCoins, BucketsCoins, Shares, Share, NoInitial;
    var buckets := SplitAllocations(staked, numStakers);
    if |buckets| < numStakers {
      return None;
    }
    var all := ValidatorStakes(buckets);
    SplitIsFair(buckets, Coins(staked), numStakers);
    SharesAll(buckets, Coins(staked), Share(|Coins(staked)|, numStakers));
    return Some(all);
  }

  /** The stakes hold what was staked. */
  lemma StakesConserve(allocations: seq<Allocation>, staked: seq<Allocation>, platform: seq<Output>,
                       stakes: seq<seq<Output>>)
    requires Divided(staked, platform, allocations) && StakeCoins(stakes) == Coins(staked)
    ensures multiset(OutputCoins(platform)) + multiset(StakeCoins(stakes)) == multiset(Coins(allocations))
    ensures |OutputCoins(platform)| + |StakeCoins(stakes)| == |Coins(allocations)|
  {
    hide Coins, OutputCoins, StakeCoins;
    Cardinalities(Coins(staked), OutputCoins(platform), Coins(allocations));
  }

  lemma Cardinalities(a: seq<Coin>, b: seq<Coin>, c: seq<Coin>)
    requires multiset(a) + multiset(b) == multiset(c)
    ensures |a| + |b| == |c|
  {
    assert |multiset(a)| == |a| && |multiset(b)| == |b| && |multiset(c)| == |c|;
    assert |multiset(a) + multiset(b)| == |a| + |b|;
  }

  // ---- What the validation of a configuration guarantees ----

  ghost predicate FundsValid(config: Config) {
    && config.initialStakedFunds != []
    && (forall i, j :: 0 <= i < j < |config.initialStakedFunds| ==>
        config.initialStakedFunds[i] != config.initialStakedFunds[j])
    && (forall f :: f in config.initialStakedFunds ==> exists a :: a in config.allocations && a.avaxAddr == f)
  }

  method ValidateInitialStakedFunds(config: Config) returns (ok: bool)
    ensures ok <==> FundsValid(config)
  {
    if |config.initialStakedFunds| == 0 {
      return false;
    }
    var allocationSet: set<Address> := {};
    for i := 0 to |config.allocations|
      invariant forall f :: f in allocationSet <==> exists a :: a in config.allocations[..i] && a.avaxAddr == f
    {
      var a := config.allocations[i];
      assert config.allocations[..i + 1] == config.allocations[..i] + [a];
      allocationSet := allocationSet + {a.avaxAddr};
    }
    assert config.allocations[..|config.allocations|] == config.allocations;
    assert forall f :: f in allocationSet <==> exists a :: a in config.allocations && a.avaxAddr == f;
    var seen: set<Address> := {};
    for i := 0 to |config.initialStakedFunds|
      invariant forall f :: f in seen <==> f in config.initialStakedFunds[..i]
      invariant forall k, j :: 0 <= k < j < i ==> config.initialStakedFunds[k] != config.initialStakedFunds[j]
      invariant forall f :: f in config.initialStakedFunds[..i] ==> f in allocationSet
    {
      var f := config.initialStakedFunds[i];
      assert config.initialStakedFunds[..i + 1] == config.initialStakedFunds[..i] + [f];
      if f in seen {
        ghost var k :| 0 <= k < i && config.initialStakedFunds[k] == f;
        return false;
      }
      seen := seen + {f};
      if f !in allocationSet {
        assert f in config.initialStakedFunds;
        return false;
      }
    }
    assert config.initialStakedFunds[..|config.initialStakedFunds|] == config.initialStakedFunds;
    return true;
  }

  /** What each error of the configuration check stands for. */
  ghost predicate Fails(e: ConfigError, networkID: nat, setting: Setting, config: Config, now: int) {
    match e
    case ConflictingNetworkIDs => networkID != setting.networkID
    case SupplyTooLarge => Supply(config.allocations) >= TWO_64
    case NoSupply => Supply(config.allocations) == 0
    case FutureStartTime => now < setting.startTime
    case NoStakeDuration => setting.stakeDuration == 0
    case StakeDurationTooHigh => setting.stakeDuration > setting.maxStakeDuration
    case NoStakers => config.numStakers == 0
    case StakeDurationTooLow => config.numStakers > 0 && OffsetTime(setting, config) > setting.stakeDuration
    case InvalidStakedFunds => !FundsValid(config)
    case TooLittleLocked => config.numStakers > |Coins(config.allocations)|
    case NoCChainGenesis => setting.cChainGenesis == ""
  }

  /** The order in which the conditions are looked at. */
  function Rank(e: ConfigError): nat {
    match e
    case ConflictingNetworkIDs => 0
    case SupplyTooLarge => 1
    case NoSupply => 2
    case FutureStartTime => 3
    case NoStakeDuration => 4
    case StakeDurationTooHigh => 5
    case NoStakers => 6
    case StakeDurationTooLow => 7
    case InvalidStakedFunds => 8
    case TooLittleLocked => 9
    case NoCChainGenesis => 10
  }

  ghost predicate Validated(networkID: nat, setting: Setting, config: Config, now: int) {
    forall e :: !Fails(e, networkID, setting, config, now)
  }

  /** The product of offset and stakers wraps at 64 bits. */
  function OffsetTime(setting: Setting, config: Config): nat
    requires config.numStakers > 0
  {
    (setting.stakeDurationOffset * (config.numStakers - 1)) % TWO_64
  }

  datatype ConfigError =
    | ConflictingNetworkIDs
    | SupplyTooLarge
    | NoSupply
    | FutureStartTime
    | NoStakeDuration
    | StakeDurationTooHigh
    | NoStakers
    | StakeDurationTooLow
    | InvalidStakedFunds
    | TooLittleLocked
    | NoCChainGenesis

  /** Accepts a configuration iff no condition fails; otherwise the error is the first that does. */
  method ValidateConfig(networkID: nat, setting: Setting, config: Config, now: int) returns (err: Option<ConfigError>)
    ensures err.Some? ==> Fails(err.value, networkID, setting, config, now)
    ensures err.None? <==> Validated(networkID, setting, config, now)
    ensures err.None? <==>
              && networkID == setting.networkID && 0 < Supply(config.allocations) < TWO_64 && setting.startTime <= now
              && 0 < setting.stakeDuration <= setting.maxStakeDuration && config.numStakers > 0
              && (setting.stakeDurationOffset * (config.numStakers - 1)) % TWO_64 <= setting.stakeDuration
              && FundsValid(config) && config.numStakers <= |Coins(config.allocations)| && setting.cChainGenesis != ""
    ensures err.Some? ==> forall e :: Rank(e) < Rank(err.value) ==> !Fails(e, networkID, setting, config, now)
  {
    hide Coins, FundsValid, Initial;
    if networkID != setting.networkID { return Some(ConflictingNetworkIDs); }
    var supply := InitialSupply(config.allocations);
    if supply.None? { return Some(SupplyTooLarge); }
    if supply.value == 0 { return Some(NoSupply); }
    if now < setting.startTime { return Some(FutureStartTime); }
    if setting.stakeDuration == 0 { return Some(NoStakeDuration); }
    if setting.stakeDuration > setting.maxStakeDuration { return Some(StakeDurationTooHigh); }
    if config.numStakers == 0 { return Some(NoStakers); }
    if OffsetTime(setting, config) > setting.stakeDuration { return Some(StakeDurationTooLow); }
    var fundsOk := ValidateInitialStakedFunds(config);
    if !fundsOk { return Some(InvalidStakedFunds); }
    var locked := TotalAmount(config.allocations);
    if (locked as int) < config.numStakers { return Some(TooLittleLocked); }
    if |setting.cChainGenesis| == 0 { return Some(NoCChainGenesis); }
    return None;
  }

  /**
   The check counts locked funds of all addresses, not of the staked ones: it accepts this configuration, which
   crashes.
   */
  lemma ValidatedMayCrash(setting: Setting, now: int) returns (config: Config)
    requires setting.startTime <= now && 0 < setting.stakeDuration <= setting.maxStakeDuration
    requires setting.stakeDurationOffset <= setting.stakeDuration && setting.cChainGenesis != ""
    ensures Validated(setting.networkID, setting, config, now) && config.numStakers > 1 && StakedTotal(config) == 0
  {
    var empty := Allocation(1, 1, 0, []);
    var locked := Allocation(2, 2, 0, [LockedAmount(2, 7)]);
    config := Config([empty, locked], [1], 2);
    OneLocked(locked, LockedAmount(2, 7));
    hide Coins, UnlockCoins, Staked, Initial, Repeat;
    TwoAllocations(empty, locked, {1});
    assert Funds(config) == {1};
    assert empty in config.allocations;
  }

  lemma OneLocked(a: Allocation, u: LockedAmount)
    requires a.unlockSchedule == [u]
    ensures |UnlockCoins(a, a.unlockSchedule)| == u.amount as int
  {
    UnlockCoinsAppend(a, [], u);
    assert [] + [u] == [u];
  }

  lemma TwoAllocations(a: Allocation, b: Allocation, funds: set<Address>)
    requires a.avaxAddr in funds && b.avaxAddr !in funds && a.unlockSchedule == []
    ensures Staked([a, b], funds) == [a] && Coins([a]) == []
    ensures |Coins([a, b])| == |UnlockCoins(b, b.unlockSchedule)|
    ensures Initial([a, b]) == a.initialAmount as int + b.initialAmount as int
  {
    assert [] + [a] == [a] && [a] + [b] == [a, b];
    CoinsAppend([], a);
    CoinsAppend([a], b);
    InitialAppend([], a);
    InitialAppend([a], b);
    StakedAppend([], a, funds);
    StakedAppend([a], b, funds);
  }
}
