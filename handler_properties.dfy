/** What each transition handler does, stated over the functions the handler
    methods are proved equal to. */
module HandlerProperties {

  import opened Bytes
  import opened Runtime
  import opened Records
  import opened Rewards
  import opened Handlers

  /** The amount a deposit or unstake instruction carries in bytes 1..9. */
  function Amount(data: seq<byte>): u64
    requires |data| >= 9
  {
    U64FromLE(data[1..9])
  }

  /** The staked amount recorded in a 41-byte position buffer. */
  function StakedIn(position: seq<byte>): u64
    requires |position| == STAKE_INFO_LEN
  {
    UnpackStakeInfoFromSlice(position).stakedAmount
  }

  // ---------------------------------------------------------------- signer checks

  lemma InitializeRequiresSigner(accounts: seq<Account>, m: StakingManager)
    requires |accounts| >= 1 && !accounts[0].isSigner
    ensures InitializeSpec(accounts, m) == Update(Err(MissingRequiredSignature), m)
  {
  }

  lemma DepositRequiresSigner(accounts: seq<Account>, m: StakingManager, position: seq<byte>, data: seq<byte>, invoke: Result<()>)
    requires |data| >= 9 && |accounts| >= 3 && !accounts[0].isSigner
    ensures DepositSpec(accounts, m, position, data, invoke) == Effect(Err(MissingRequiredSignature), m, position, None)
  {
  }

  lemma UnstakeRequiresSigner(accounts: seq<Account>, m: StakingManager, position: seq<byte>, data: seq<byte>, invoke: Result<()>)
    requires |data| >= 9 && |accounts| >= 3 && !accounts[0].isSigner
    ensures UnstakeSpec(accounts, m, position, data, invoke) == Effect(Err(MissingRequiredSignature), m, position, None)
  {
  }

  lemma StartEpochRequiresSigner(accounts: seq<Account>, m: StakingManager, data: seq<byte>)
    requires |data| >= 25 && |accounts| >= 1 && !accounts[0].isSigner
    ensures StartEpochSpec(accounts, m, data) == Update(Err(MissingRequiredSignature), m)
  {
  }

  lemma ClaimRequiresSigner(accounts: seq<Account>, m: StakingManager, position: seq<byte>, invoke: Result<()>)
    requires |accounts| >= 3 && !accounts[0].isSigner
    ensures ClaimSpec(accounts, m, position, invoke) == Effect(Err(MissingRequiredSignature), m, position, None)
  {
  }

  // ---------------------------------------------------------------- initialize

  /** initialize succeeds whenever its first account signed, even on a pool that
      is already initialized; it sets the flag, binds the owner to that account's
      key and leaves every other field as it was. */
  lemma InitializeCases(accounts: seq<Account>, m: StakingManager)
    ensures InitializeSpec(accounts, m).result.Ok? <==> |accounts| >= 1 && accounts[0].isSigner
    ensures |accounts| < 1 ==> InitializeSpec(accounts, m) == Update(Err(NotEnoughAccountKeys), m)
    ensures InitializeSpec(accounts, m).result.Err? ==> InitializeSpec(accounts, m).manager == m
    ensures InitializeSpec(accounts, m).result.Ok? ==>
      var m' := InitializeSpec(accounts, m).manager;
      m'.isInitialized && m'.owner == accounts[0].key
      && m'.(isInitialized := m.isInitialized, owner := m.owner) == m
  {
  }

  // ---------------------------------------------------------------- deposit

  /** deposit succeeds exactly when there are three accounts, the first signed,
      the position buffer is 41 bytes, neither sum overflows and the transfer
      succeeds. Then the pool total and the position grow by the amount, an
      uninitialized position becomes initialized and bound to the caller, and
      the transfer moves the amount from the caller to the stake account. A
      failure never changes the pool record. */
  lemma DepositCases(accounts: seq<Account>, m: StakingManager, position: seq<byte>, data: seq<byte>, invoke: Result<()>)
    requires |data| >= 9
    ensures var e := DepositSpec(accounts, m, position, data, invoke);
      e.result.Ok? <==>
        |accounts| >= 3 && accounts[0].isSigner && |position| == STAKE_INFO_LEN
        && StakedIn(position) + Amount(data) < U64_LIMIT
        && m.tokensStaked + Amount(data) < U64_LIMIT
        && invoke.Ok?
    ensures var e := DepositSpec(accounts, m, position, data, invoke);
      e.result.Err? ==> e.manager == m
    ensures var e := DepositSpec(accounts, m, position, data, invoke);
      e.result.Ok? ==>
        && e.manager == m.(tokensStaked := m.tokensStaked + Amount(data))
        && e.transfer == Some(Transfer(accounts[0].key, accounts[1].key, Amount(data)))
        && |e.position| == STAKE_INFO_LEN
        && var before := UnpackStakeInfoFromSlice(position);
           var after := UnpackStakeInfoFromSlice(e.position);
           && after.isInitialized
           && after.user == (if before.isInitialized then before.user else accounts[0].key)
           && after.stakedAmount == before.stakedAmount + Amount(data)
  {
    var e := DepositSpec(accounts, m, position, data, invoke);
    if e.result.Ok? {
      var before := UnpackStakeInfoFromSlice(position);
      var info1 := if before.isInitialized then before else before.(isInitialized := true, user := accounts[0].key);
      StakeInfoRoundTrip(info1.(stakedAmount := info1.stakedAmount + Amount(data)));
    }
  }

  // ---------------------------------------------------------------- unstake

  /** unstake succeeds exactly when there are three accounts, the first signed,
      the position is a 41-byte initialized record holding at least the amount,
      the pool total holds at least the amount and the transfer succeeds. Then
      both shrink by the amount and the transfer moves it back to the caller. */
  lemma UnstakeCases(accounts: seq<Account>, m: StakingManager, position: seq<byte>, data: seq<byte>, invoke: Result<()>)
    requires |data| >= 9
    ensures var e := UnstakeSpec(accounts, m, position, data, invoke);
      e.result.Ok? <==>
        |accounts| >= 3 && accounts[0].isSigner && |position| == STAKE_INFO_LEN && position[0] != 0
        && Amount(data) <= StakedIn(position)
        && Amount(data) <= m.tokensStaked
        && invoke.Ok?
    ensures var e := UnstakeSpec(accounts, m, position, data, invoke);
      e.result.Err? ==> e.manager == m
    ensures var e := UnstakeSpec(accounts, m, position, data, invoke);
      e.result.Ok? ==>
        && e.manager == m.(tokensStaked := m.tokensStaked - Amount(data))
        && e.transfer == Some(Transfer(accounts[1].key, accounts[0].key, Amount(data)))
        && |e.position| == STAKE_INFO_LEN
        && var before := UnpackStakeInfoFromSlice(position);
           UnpackStakeInfoFromSlice(e.position) == before.(stakedAmount := before.stakedAmount - Amount(data))
  {
    var e := UnstakeSpec(accounts, m, position, data, invoke);
    if e.result.Ok? {
      var before := UnpackStakeInfoFromSlice(position);
      StakeInfoRoundTrip(before.(stakedAmount := before.stakedAmount - Amount(data)));
    }
  }

  /** Withdrawing more than the position holds fails with InsufficientFunds
      before anything is written or transferred. */
  lemma UnstakeInsufficientFunds(accounts: seq<Account>, m: StakingManager, position: seq<byte>, data: seq<byte>, invoke: Result<()>)
    requires |data| >= 9 && |accounts| >= 3 && accounts[0].isSigner
    requires |position| == STAKE_INFO_LEN && position[0] != 0
    requires StakedIn(position) < Amount(data)
    ensures UnstakeSpec(accounts, m, position, data, invoke) == Effect(Err(InsufficientFunds), m, position, None)
  {
  }

  /** A position that was never initialized cannot be withdrawn from. */
  lemma UnstakeRejectsUninitializedPosition(accounts: seq<Account>, m: StakingManager, position: seq<byte>, data: seq<byte>, invoke: Result<()>)
    requires |data| >= 9 && |accounts| >= 3 && accounts[0].isSigner
    requires |position| == STAKE_INFO_LEN && position[0] == 0
    ensures UnstakeSpec(accounts, m, position, data, invoke) == Effect(Err(UninitializedAccount), m, position, None)
  {
  }

  /** A successful deposit of an amount, followed by an unstake of the same
      amount by the same accounts whose transfer succeeds, itself succeeds and
      restores the pool record and the position's staked amount; the position
      bytes come back exactly when the position was already initialized with
      flag byte 1. */
  lemma DepositThenUnstakeRestores(accounts: seq<Account>, m: StakingManager, position: seq<byte>,
                                   deposit: seq<byte>, unstake: seq<byte>, invoke: Result<()>)
    requires |deposit| >= 9 && |unstake| >= 9 && deposit[1..9] == unstake[1..9]
    requires DepositSpec(accounts, m, position, deposit, invoke).result.Ok?
    ensures var e1 := DepositSpec(accounts, m, position, deposit, invoke);
      var e2 := UnstakeSpec(accounts, e1.manager, e1.position, unstake, Ok(()));
      && e2.result.Ok?
      && e2.manager == m
      && StakedIn(e2.position) == StakedIn(position)
      && (position[0] == 1 ==> e2.position == position)
  {
    var a := Amount(deposit);
    assert Amount(unstake) == a;
    DepositCases(accounts, m, position, deposit, invoke);
    var e1 := DepositSpec(accounts, m, position, deposit, invoke);
    assert e1.position[0] != 0 by {
      assert UnpackStakeInfoFromSlice(e1.position).isInitialized;
    }
    UnstakeCases(accounts, e1.manager, e1.position, unstake, Ok(()));
    var e2 := UnstakeSpec(accounts, e1.manager, e1.position, unstake, Ok(()));
    if position[0] == 1 {
      var before := UnpackStakeInfoFromSlice(position);
      StakeInfoBytesCanonical(position);
      assert UnpackStakeInfoFromSlice(e2.position) == before;
      StakeInfoBytesCanonical(e2.position);
      assert e2.position[0] == 1;
    }
  }

  // ---------------------------------------------------------------- start_epoch

  /** start_epoch rejects a window that does not start after the current epoch's
      end, or that ends before it starts, with InvalidArgument and no change. */
  lemma StartEpochRejectsBadWindow(accounts: seq<Account>, m: StakingManager, data: seq<byte>)
    requires |data| >= 25 && |accounts| >= 1 && accounts[0].isSigner
    requires U64FromLE(data[1..9]) <= m.currentEpochEndTime || U64FromLE(data[9..17]) <= U64FromLE(data[1..9])
    ensures StartEpochSpec(accounts, m, data) == Update(Err(InvalidArgument), m)
  {
  }

  /** start_epoch succeeds exactly when a signer opens a window strictly after
      the current one and the epoch counter can still grow; it then replaces the
      window and the reward, adds exactly one to the epoch counter and leaves
      the total staked, the owner, the flag and the token keys alone. Any
      signer will do: the owner recorded in the pool is not consulted. */
  lemma StartEpochCases(accounts: seq<Account>, m: StakingManager, data: seq<byte>)
    requires |data| >= 25
    ensures var u := StartEpochSpec(accounts, m, data);
      var start, end := U64FromLE(data[1..9]), U64FromLE(data[9..17]);
      u.result.Ok? <==>
        |accounts| >= 1 && accounts[0].isSigner
        && m.currentEpochEndTime < start < end
        && m.epochId + 1 < U16_LIMIT
    ensures var u := StartEpochSpec(accounts, m, data);
      u.result.Ok? ==>
        && m.currentEpochEndTime < u.manager.currentEpochStartTime < u.manager.currentEpochEndTime
        && u.manager.currentEpochStartTime == U64FromLE(data[1..9])
        && u.manager.currentEpochEndTime == U64FromLE(data[9..17])
        && u.manager.currentEpochReward == U64FromLE(data[17..25])
        && u.manager.epochId == m.epochId + 1
        && u.manager.tokensStaked == m.tokensStaked
        && u.manager.owner == m.owner
        && u.manager.isInitialized == m.isInitialized
        && u.manager.stakeToken == m.stakeToken
        && u.manager.rewardToken == m.rewardToken
  {
  }

  // ---------------------------------------------------------------- claim

  /** claim never changes the pool record or the position, whatever happens;
      on a 41-byte initialized position with a signing caller it hands `invoke`
      the transfer of the computed reward from the reward account to the
      caller, and succeeds exactly when that transfer does. It records nothing,
      so a second claim on the same state asks for the same reward again. */
  lemma ClaimCases(accounts: seq<Account>, m: StakingManager, position: seq<byte>, invoke: Result<()>)
    ensures var e := ClaimSpec(accounts, m, position, invoke);
      e.manager == m && e.position == position
    ensures ClaimSpec(accounts, m, position, invoke).result.Ok? <==>
      |accounts| >= 3 && accounts[0].isSigner && |position| == STAKE_INFO_LEN && position[0] != 0 && invoke.Ok?
    ensures |accounts| >= 3 && accounts[0].isSigner && |position| == STAKE_INFO_LEN && position[0] != 0 ==>
      ClaimSpec(accounts, m, position, invoke).transfer
        == Some(Transfer(accounts[1].key, accounts[0].key, CalculateRewards(m, StakedIn(position))))
    ensures |accounts| >= 3 && accounts[0].isSigner && |position| == STAKE_INFO_LEN && position[0] == 0 ==>
      ClaimSpec(accounts, m, position, invoke) == Effect(Err(UninitializedAccount), m, position, None)
    ensures var e := ClaimSpec(accounts, m, position, invoke);
      ClaimSpec(accounts, e.manager, e.position, invoke) == e
  {
    GetUserStakedAmountCases(position);
  }
}
