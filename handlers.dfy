/** The five transition handlers. Each receives the instruction's whole account
    list (so its first account is the pool account the dispatcher also read),
    the in-memory pool record it may mutate, and the instruction bytes. The
    external `invoke` of a transfer is an oracle: the `invoke` argument is what
    the call returns.

    Each handler is a method over the mutable state, proved equal to a
    function of the state before the call; the properties the ledger promises
    are lemmas about those functions, in module HandlerProperties. */
module Handlers {

  import opened Bytes
  import opened Runtime
  import opened Records
  import opened Rewards

  /** The `&mut StakingManager` the dispatcher lends to a handler. */
  class ManagerCell {
    var isInitialized: bool
    var owner: Pubkey
    var stakeToken: Pubkey
    var rewardToken: Pubkey
    var tokensStaked: u64
    var currentEpochReward: u64
    var currentEpochStartTime: u64
    var currentEpochEndTime: u64
    var epochId: u16

    constructor (m: StakingManager)
      ensures Value() == m
    {
      isInitialized, owner, stakeToken, rewardToken := m.isInitialized, m.owner, m.stakeToken, m.rewardToken;
      tokensStaked, currentEpochReward := m.tokensStaked, m.currentEpochReward;
      currentEpochStartTime, currentEpochEndTime, epochId := m.currentEpochStartTime, m.currentEpochEndTime, m.epochId;
    }

    /** The record value the fields currently hold. */
    function Value(): StakingManager
      reads this
    {
      StakingManager(isInitialized, owner, stakeToken, rewardToken, tokensStaked,
        currentEpochReward, currentEpochStartTime, currentEpochEndTime, epochId)
    }
  }

  /** The data buffer of the position account (the third account), if there is one. */
  function PositionBuffer(accounts: seq<Account>): set<array<byte>>
  {
    if |accounts| >= 3 then {accounts[2].data} else {}
  }

  /** The contents of the position account's buffer (empty when it is missing). */
  function PositionOf(accounts: seq<Account>): seq<byte>
    reads PositionBuffer(accounts)
  {
    if |accounts| >= 3 then accounts[2].data[..] else []
  }

  /** What a handler that only touches the pool record leaves behind. */
  datatype Update = Update(result: Result<()>, manager: StakingManager)

  /** What a handler leaves behind: its result, the pool record, the position
      buffer and the transfer it handed to `invoke`, if it got that far. */
  datatype Effect = Effect(result: Result<()>, manager: StakingManager, position: seq<byte>, transfer: Option<Transfer>)

  // ---------------------------------------------------------------- initialize

  function InitializeSpec(accounts: seq<Account>, m: StakingManager): Update
  {
    if |accounts| < 1 then Update(Err(NotEnoughAccountKeys), m)
    else if !accounts[0].isSigner then Update(Err(MissingRequiredSignature), m)
    else Update(Ok(()), m.(isInitialized := true, owner := accounts[0].key))
  }

  method Initialize(accounts: seq<Account>, manager: ManagerCell) returns (r: Result<()>)
    modifies manager
    ensures Update(r, manager.Value()) == InitializeSpec(accounts, old(manager.Value()))
  {
    if |accounts| < 1 {
      return Err(NotEnoughAccountKeys);
    }
    var ownerAccount := accounts[0];
    if !ownerAccount.isSigner {
      return Err(MissingRequiredSignature);
    }
    manager.isInitialized := true;
    manager.owner := ownerAccount.key;
    r := Ok(());
  }

  // ---------------------------------------------------------------- deposit

  function DepositSpec(accounts: seq<Account>, m: StakingManager, position: seq<byte>, data: seq<byte>, invoke: Result<()>): Effect
    requires |data| >= 9
  {
    if |accounts| < 3 then Effect(Err(NotEnoughAccountKeys), m, position, None)
    else if !accounts[0].isSigner then Effect(Err(MissingRequiredSignature), m, position, None)
    else
      var amount := U64FromLE(data[1..9]);
      match UnpackStakeInfoUnchecked(position)
      case Err(e) => Effect(Err(e), m, position, None)
      case Ok(info0) =>
        var info1 := if info0.isInitialized then info0 else info0.(isInitialized := true, user := accounts[0].key);
        if info1.stakedAmount + amount >= U64_LIMIT then Effect(Err(ArithmeticOverflow), m, position, None)
        else
          var written := StakeInfoBytes(info1.(stakedAmount := info1.stakedAmount + amount));
          var transfer := Some(Transfer(accounts[0].key, accounts[1].key, amount));
          if invoke.Err? then Effect(invoke, m, written, transfer)
          else if m.tokensStaked + amount >= U64_LIMIT then Effect(Err(ArithmeticOverflow), m, written, transfer)
          else Effect(Ok(()), m.(tokensStaked := m.tokensStaked + amount), written, transfer)
  }

  method Deposit(accounts: seq<Account>, manager: ManagerCell, data: seq<byte>, invoke: Result<()>)
    returns (r: Result<()>, transfer: Option<Transfer>)
    requires |data| >= 9
    modifies manager, PositionBuffer(accounts)
    ensures Effect(r, manager.Value(), PositionOf(accounts), transfer)
      == DepositSpec(accounts, old(manager.Value()), old(PositionOf(accounts)), data, invoke)
  {
    if |accounts| < 3 {
      return Err(NotEnoughAccountKeys), None;
    }
    var userAccount, stakeTokenAccount, userStakeAccount := accounts[0], accounts[1], accounts[2];
    if !userAccount.isSigner {
      return Err(MissingRequiredSignature), None;
    }
    var amount := U64FromLE(data[1..9]);
    var unpacked := UnpackStakeInfoUnchecked(userStakeAccount.data[..]);
    if unpacked.Err? {
      return Err(unpacked.error), None;
    }
    var info := unpacked.value;
    if !info.isInitialized {
      info := info.(isInitialized := true, user := userAccount.key);
    }
    if info.stakedAmount + amount >= U64_LIMIT {
      return Err(ArithmeticOverflow), None;
    }
    info := info.(stakedAmount := info.stakedAmount + amount);
    var packed := PackStakeInfo(info, userStakeAccount.data);
    assert packed.Ok?;
    transfer := Some(Transfer(userAccount.key, stakeTokenAccount.key, amount));
    if invoke.Err? {
      return invoke, transfer;
    }
    if manager.tokensStaked + amount >= U64_LIMIT {
      return Err(ArithmeticOverflow), transfer;
    }
    manager.tokensStaked := manager.tokensStaked + amount;
    r := Ok(());
  }

  // ---------------------------------------------------------------- unstake

  function UnstakeSpec(accounts: seq<Account>, m: StakingManager, position: seq<byte>, data: seq<byte>, invoke: Result<()>): Effect
    requires |data| >= 9
  {
    if |accounts| < 3 then Effect(Err(NotEnoughAccountKeys), m, position, None)
    else if !accounts[0].isSigner then Effect(Err(MissingRequiredSignature), m, position, None)
    else
      var amount := U64FromLE(data[1..9]);
      match UnpackStakeInfo(position)
      case Err(e) => Effect(Err(e), m, position, None)
      case Ok(info) =>
        if info.stakedAmount < amount then Effect(Err(InsufficientFunds), m, position, None)
        else
          var written := StakeInfoBytes(info.(stakedAmount := info.stakedAmount - amount));
          var transfer := Some(Transfer(accounts[1].key, accounts[0].key, amount));
          if invoke.Err? then Effect(invoke, m, written, transfer)
          else if m.tokensStaked < amount then Effect(Err(ArithmeticOverflow), m, written, transfer)
          else Effect(Ok(()), m.(tokensStaked := m.tokensStaked - amount), written, transfer)
  }

  method Unstake(accounts: seq<Account>, manager: ManagerCell, data: seq<byte>, invoke: Result<()>)
    returns (r: Result<()>, transfer: Option<Transfer>)
    requires |data| >= 9
    modifies manager, PositionBuffer(accounts)
    ensures Effect(r, manager.Value(), PositionOf(accounts), transfer)
      == UnstakeSpec(accounts, old(manager.Value()), old(PositionOf(accounts)), data, invoke)
  {
    if |accounts| < 3 {
      return Err(NotEnoughAccountKeys), None;
    }
    var userAccount, stakeTokenAccount, userStakeAccount := accounts[0], accounts[1], accounts[2];
    if !userAccount.isSigner {
      return Err(MissingRequiredSignature), None;
    }
    var amount := U64FromLE(data[1..9]);
    var unpacked := UnpackStakeInfo(userStakeAccount.data[..]);
    if unpacked.Err? {
      return Err(unpacked.error), None;
    }
    var info := unpacked.value;
    if info.stakedAmount < amount {
      return Err(InsufficientFunds), None;
    }
    info := info.(stakedAmount := info.stakedAmount - amount);
    var packed := PackStakeInfo(info, userStakeAccount.data);
    assert packed.Ok?;
    transfer := Some(Transfer(stakeTokenAccount.key, userAccount.key, amount));
    if invoke.Err? {
      return invoke, transfer;
    }
    if manager.tokensStaked < amount {
      return Err(ArithmeticOverflow), transfer;
    }
    manager.tokensStaked := manager.tokensStaked - amount;
    r := Ok(());
  }

  // ---------------------------------------------------------------- start_epoch

  function StartEpochSpec(accounts: seq<Account>, m: StakingManager, data: seq<byte>): Update
    requires |data| >= 25
  {
    if |accounts| < 1 then Update(Err(NotEnoughAccountKeys), m)
    else if !accounts[0].isSigner then Update(Err(MissingRequiredSignature), m)
    else
      var startTime := U64FromLE(data[1..9]);
      var endTime := U64FromLE(data[9..17]);
      var rewardAmount := U64FromLE(data[17..25]);
      if startTime <= m.currentEpochEndTime then Update(Err(InvalidArgument), m)
      else if endTime <= startTime then Update(Err(InvalidArgument), m)
      else
        var m1 := m.(currentEpochStartTime := startTime, currentEpochEndTime := endTime, currentEpochReward := rewardAmount);
        if m.epochId + 1 >= U16_LIMIT then Update(Err(ArithmeticOverflow), m1)
        else Update(Ok(()), m1.(epochId := m.epochId + 1))
  }

  method StartEpoch(accounts: seq<Account>, manager: ManagerCell, data: seq<byte>) returns (r: Result<()>)
    requires |data| >= 25
    modifies manager
    ensures Update(r, manager.Value()) == StartEpochSpec(accounts, old(manager.Value()), data)
  {
    if |accounts| < 1 {
      return Err(NotEnoughAccountKeys);
    }
    var ownerAccount := accounts[0];
    if !ownerAccount.isSigner {
      return Err(MissingRequiredSignature);
    }
    var startTime := U64FromLE(data[1..9]);
    var endTime := U64FromLE(data[9..17]);
    var rewardAmount := U64FromLE(data[17..25]);
    if startTime <= manager.currentEpochEndTime {
      return Err(InvalidArgument);
    }
    if endTime <= startTime {
      return Err(InvalidArgument);
    }
    manager.currentEpochStartTime := startTime;
    manager.currentEpochEndTime := endTime;
    manager.currentEpochReward := rewardAmount;
    if manager.epochId + 1 >= U16_LIMIT {
      return Err(ArithmeticOverflow);
    }
    manager.epochId := manager.epochId + 1;
    r := Ok(());
  }

  // ---------------------------------------------------------------- claim

  function ClaimSpec(accounts: seq<Account>, m: StakingManager, position: seq<byte>, invoke: Result<()>): Effect
  {
    if |accounts| < 3 then Effect(Err(NotEnoughAccountKeys), m, position, None)
    else if !accounts[0].isSigner then Effect(Err(MissingRequiredSignature), m, position, None)
    else
      match GetUserStakedAmount(position)
      case Err(e) => Effect(Err(e), m, position, None)
      case Ok(staked) =>
        var transfer := Some(Transfer(accounts[1].key, accounts[0].key, CalculateRewards(m, staked)));
        Effect(if invoke.Err? then invoke else Ok(()), m, position, transfer)
  }

  method Claim(accounts: seq<Account>, manager: ManagerCell, invoke: Result<()>)
    returns (r: Result<()>, transfer: Option<Transfer>)
    ensures Effect(r, manager.Value(), PositionOf(accounts), transfer)
      == ClaimSpec(accounts, manager.Value(), PositionOf(accounts), invoke)
  {
    if |accounts| < 3 {
      return Err(NotEnoughAccountKeys), None;
    }
    var userAccount, rewardTokenAccount, userStakeAccount := accounts[0], accounts[1], accounts[2];
    if !userAccount.isSigner {
      return Err(MissingRequiredSignature), None;
    }
    var userStakedAmount := GetUserStakedAmount(userStakeAccount.data[..]);
    if userStakedAmount.Err? {
      return Err(userStakedAmount.error), None;
    }
    var rewards := CalculateRewards(manager.Value(), userStakedAmount.value);
    transfer := Some(Transfer(rewardTokenAccount.key, userAccount.key, rewards));
    if invoke.Err? {
      return invoke, transfer;
    }
    r := Ok(());
  }
}
