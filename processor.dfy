/** The dispatcher `process_instruction`, and the runtime's all-or-nothing
    treatment of a transaction around it. */
module Processor {

  import opened Bytes
  import opened Runtime
  import opened Records
  import opened Handlers

  /** The instruction is long enough for the opcode it carries: the dispatcher
      reads byte 0, deposit and unstake read bytes 1..9, start_epoch bytes 1..25
      (a shorter buffer makes the program panic, which is not modelled). */
  predicate WellSizedInstruction(data: seq<byte>)
  {
    |data| >= 1
    && (data[0] == 1 || data[0] == 2 ==> |data| >= 9)
    && (data[0] == 3 ==> |data| >= 25)
  }

  /** The data buffer of the pool account (the first account), if there is one. */
  function PoolBuffer(accounts: seq<Account>): set<array<byte>>
  {
    if |accounts| >= 1 then {accounts[0].data} else {}
  }

  function PoolOf(accounts: seq<Account>): seq<byte>
    reads PoolBuffer(accounts)
  {
    if |accounts| >= 1 then accounts[0].data[..] else []
  }

  /** The position account is the pool account itself. */
  predicate PositionIsPool(accounts: seq<Account>)
  {
    |accounts| >= 3 && accounts[2].data == accounts[0].data
  }

  /** The outcome of one call of process_instruction: its result, the pool and
      position buffers it leaves, and the transfer it handed to `invoke`. */
  datatype Outcome = Outcome(result: Result<()>, poolData: seq<byte>, position: seq<byte>, transfer: Option<Transfer>)

  /** Route on byte 0 to the handler it names. */
  function Dispatch(accounts: seq<Account>, m: StakingManager, position: seq<byte>, data: seq<byte>, invoke: Result<()>): Effect
    requires WellSizedInstruction(data)
  {
    if data[0] == 0 then
      var u := InitializeSpec(accounts, m); Effect(u.result, u.manager, position, None)
    else if data[0] == 1 then DepositSpec(accounts, m, position, data, invoke)
    else if data[0] == 2 then UnstakeSpec(accounts, m, position, data, invoke)
    else if data[0] == 3 then
      var u := StartEpochSpec(accounts, m, data); Effect(u.result, u.manager, position, None)
    else if data[0] == 4 then ClaimSpec(accounts, m, position, invoke)
    else Effect(Err(InvalidInstructionData), m, position, None)
  }

  function ProcessSpec(programId: Pubkey, accounts: seq<Account>, poolData: seq<byte>, position: seq<byte>,
                       data: seq<byte>, invoke: Result<()>): Outcome
    requires WellSizedInstruction(data)
  {
    if |accounts| < 1 then Outcome(Err(NotEnoughAccountKeys), poolData, position, None)
    else if accounts[0].owner != programId then Outcome(Err(IncorrectProgramId), poolData, position, None)
    else match UnpackManager(poolData)
      case Err(e) => Outcome(Err(e), poolData, position, None)
      case Ok(m) =>
        if !m.isInitialized then Outcome(Err(UninitializedAccount), poolData, position, None)
        else
          var e := Dispatch(accounts, m, position, data, invoke);
          if e.result.Err? then Outcome(e.result, poolData, e.position, e.transfer)
          else Outcome(Ok(()), ManagerBytes(e.manager), e.position, e.transfer)
  }

  /** A handler never writes a position buffer of the wrong length, so a pool
      buffer passed again as the position account is left alone. */
  lemma DispatchKeepsMisSizedPosition(accounts: seq<Account>, m: StakingManager, position: seq<byte>,
                                      data: seq<byte>, invoke: Result<()>)
    requires WellSizedInstruction(data) && |position| != STAKE_INFO_LEN
    ensures Dispatch(accounts, m, position, data, invoke).position == position
  {
  }

  /** The `match instruction_data[0]` of process_instruction. */
  method RunHandler(accounts: seq<Account>, stakingManager: ManagerCell, data: seq<byte>, invoke: Result<()>)
    returns (r: Result<()>, transfer: Option<Transfer>)
    requires WellSizedInstruction(data)
    modifies stakingManager, PositionBuffer(accounts)
    ensures Effect(r, stakingManager.Value(), PositionOf(accounts), transfer)
      == Dispatch(accounts, old(stakingManager.Value()), old(PositionOf(accounts)), data, invoke)
  {
    if data[0] == 0 {
      r := Initialize(accounts, stakingManager);
      transfer := None;
    } else if data[0] == 1 {
      r, transfer := Deposit(accounts, stakingManager, data, invoke);
    } else if data[0] == 2 {
      r, transfer := Unstake(accounts, stakingManager, data, invoke);
    } else if data[0] == 3 {
      r := StartEpoch(accounts, stakingManager, data);
      transfer := None;
    } else if data[0] == 4 {
      r, transfer := Claim(accounts, stakingManager, invoke);
    } else {
      r, transfer := Err(InvalidInstructionData), None;
    }
  }

  /** process_instruction: check the pool account's owner, load the pool record,
      refuse an uninitialized pool, run the handler byte 0 names, and write the
      pool record back once the handler has succeeded. */
  method ProcessInstruction(programId: Pubkey, accounts: seq<Account>, data: seq<byte>, invoke: Result<()>)
    returns (r: Result<()>, transfer: Option<Transfer>)
    requires WellSizedInstruction(data)
    modifies PoolBuffer(accounts), PositionBuffer(accounts)
    ensures var o := ProcessSpec(programId, accounts, old(PoolOf(accounts)), old(PositionOf(accounts)), data, invoke);
      && r == o.result && transfer == o.transfer
      && PoolOf(accounts) == o.poolData
      && (!PositionIsPool(accounts) ==> PositionOf(accounts) == o.position)
  {
    if |accounts| < 1 {
      return Err(NotEnoughAccountKeys), None;
    }
    var stakingManagerAccount := accounts[0];
    if stakingManagerAccount.owner != programId {
      return Err(IncorrectProgramId), None;
    }
    ghost var poolData := stakingManagerAccount.data[..];
    ghost var position := PositionOf(accounts);
    var unpacked := UnpackManager(stakingManagerAccount.data[..]);
    if unpacked.Err? {
      return Err(unpacked.error), None;
    }
    var stakingManager := new ManagerCell(unpacked.value);
    if !stakingManager.isInitialized {
      return Err(UninitializedAccount), None;
    }
    if PositionIsPool(accounts) {
      DispatchKeepsMisSizedPosition(accounts, unpacked.value, position, data, invoke);
    }
    r, transfer := RunHandler(accounts, stakingManager, data, invoke);
    assert stakingManagerAccount.data[..] == poolData;
    if r.Err? {
      return r, transfer;
    }
    var packed := PackManager(stakingManager.Value(), stakingManagerAccount.data);
    assert packed.Ok?;
    r := Ok(());
  }

  // ---------------------------------------------------------------- the runtime

  /** What the runtime keeps of a transaction: a failed one is rolled back
      entirely, so its buffers revert and its transfer does not happen. */
  datatype Committed = Committed(result: Result<()>, poolData: seq<byte>, position: seq<byte>, executed: Option<Transfer>)

  function Transaction(programId: Pubkey, accounts: seq<Account>, poolData: seq<byte>, position: seq<byte>,
                       data: seq<byte>, invoke: Result<()>): Committed
    requires WellSizedInstruction(data)
  {
    var o := ProcessSpec(programId, accounts, poolData, position, data, invoke);
    if o.result.Ok? then Committed(o.result, o.poolData, o.position, o.transfer)
    else Committed(o.result, poolData, position, None)
  }

  /** One instruction submitted to the runtime: the accounts supply keys,
      signer flags and owners, the oracle what its transfer returns. */
  datatype Request = Request(accounts: seq<Account>, data: seq<byte>, invoke: Result<()>)

  predicate WellSizedRequests(reqs: seq<Request>)
  {
    forall i :: 0 <= i < |reqs| ==> WellSizedInstruction(reqs[i].data)
  }

  /** The pool and position buffers after the runtime has run the requests in
      turn, each against the buffers the previous ones committed. */
  function RunAll(programId: Pubkey, reqs: seq<Request>, poolData: seq<byte>, position: seq<byte>): (seq<byte>, seq<byte>)
    requires WellSizedRequests(reqs)
    decreases |reqs|
  {
    if reqs == [] then (poolData, position)
    else
      var c := Transaction(programId, reqs[0].accounts, poolData, position, reqs[0].data, reqs[0].invoke);
      RunAll(programId, reqs[1..], c.poolData, c.position)
  }

  // ---------------------------------------------------------------- properties

  /** A pool account owned by another program is refused before anything else. */
  lemma ProcessRejectsForeignPool(programId: Pubkey, accounts: seq<Account>, poolData: seq<byte>, position: seq<byte>,
                                  data: seq<byte>, invoke: Result<()>)
    requires WellSizedInstruction(data) && |accounts| >= 1 && accounts[0].owner != programId
    ensures ProcessSpec(programId, accounts, poolData, position, data, invoke)
      == Outcome(Err(IncorrectProgramId), poolData, position, None)
  {
  }

  /** An uninitialized pool is refused for every opcode, initialize (0) included:
      the initialized check runs before dispatch. */
  lemma ProcessRejectsUninitializedPool(programId: Pubkey, accounts: seq<Account>, poolData: seq<byte>, position: seq<byte>,
                                        data: seq<byte>, invoke: Result<()>)
    requires WellSizedInstruction(data) && |accounts| >= 1 && accounts[0].owner == programId
    requires |poolData| == MANAGER_LEN && poolData[0] == 0
    ensures ProcessSpec(programId, accounts, poolData, position, data, invoke)
      == Outcome(Err(UninitializedAccount), poolData, position, None)
  {
  }

  /** A pool buffer of the wrong length is refused with InvalidAccountData. */
  lemma ProcessRejectsMisSizedPool(programId: Pubkey, accounts: seq<Account>, poolData: seq<byte>, position: seq<byte>,
                                   data: seq<byte>, invoke: Result<()>)
    requires WellSizedInstruction(data) && |accounts| >= 1 && accounts[0].owner == programId
    requires |poolData| != MANAGER_LEN
    ensures ProcessSpec(programId, accounts, poolData, position, data, invoke)
      == Outcome(Err(InvalidAccountData), poolData, position, None)
  {
  }

  /** An opcode above 4 is refused with InvalidInstructionData and changes nothing. */
  lemma ProcessRejectsUnknownOpcode(programId: Pubkey, accounts: seq<Account>, poolData: seq<byte>, position: seq<byte>,
                                    data: seq<byte>, invoke: Result<()>)
    requires WellSizedInstruction(data) && |accounts| >= 1 && accounts[0].owner == programId
    requires |poolData| == MANAGER_LEN && poolData[0] != 0
    requires data[0] > 4
    ensures ProcessSpec(programId, accounts, poolData, position, data, invoke)
      == Outcome(Err(InvalidInstructionData), poolData, position, None)
  {
  }

  /** The pool buffer is written only when the handler succeeded, and then it
      holds exactly the encoding of the handler's pool record (so it unpacks to
      that record). */
  lemma ProcessWritesPoolOnlyOnSuccess(programId: Pubkey, accounts: seq<Account>, poolData: seq<byte>, position: seq<byte>,
                                       data: seq<byte>, invoke: Result<()>)
    requires WellSizedInstruction(data)
    ensures var o := ProcessSpec(programId, accounts, poolData, position, data, invoke);
      o.result.Err? ==> o.poolData == poolData
    ensures var o := ProcessSpec(programId, accounts, poolData, position, data, invoke);
      o.result.Ok? ==>
        && |accounts| >= 1 && accounts[0].owner == programId
        && |poolData| == MANAGER_LEN && poolData[0] != 0
        && var m := UnpackManagerFromSlice(poolData);
           var e := Dispatch(accounts, m, position, data, invoke);
           e.result.Ok? && o.poolData == ManagerBytes(e.manager) && UnpackManager(o.poolData) == Ok(e.manager)
  {
    var o := ProcessSpec(programId, accounts, poolData, position, data, invoke);
    if o.result.Ok? {
      var m := UnpackManagerFromSlice(poolData);
      ManagerRoundTrip(Dispatch(accounts, m, position, data, invoke).manager);
    }
  }

  /** A successful claim rewrites the pool buffer with what it read: unchanged
      when its flag byte is 1 (any other non-zero flag is normalised to 1). */
  lemma ClaimKeepsPoolBuffer(programId: Pubkey, accounts: seq<Account>, poolData: seq<byte>, position: seq<byte>,
                             data: seq<byte>, invoke: Result<()>)
    requires WellSizedInstruction(data) && data[0] == 4
    requires ProcessSpec(programId, accounts, poolData, position, data, invoke).result.Ok?
    ensures var o := ProcessSpec(programId, accounts, poolData, position, data, invoke);
      o.position == position && (o.poolData == poolData <==> poolData[0] == 1)
  {
    var m := UnpackManagerFromSlice(poolData);
    assert Dispatch(accounts, m, position, data, invoke).manager == m;
    ManagerBytesCanonical(poolData);
  }

  /** A failed transaction leaves both buffers as they were and moves nothing,
      even when the handler had already rewritten the position before its
      transfer or an addition failed. */
  lemma FailedTransactionCommitsNothing(programId: Pubkey, accounts: seq<Account>, poolData: seq<byte>, position: seq<byte>,
                                        data: seq<byte>, invoke: Result<()>)
    requires WellSizedInstruction(data)
    requires ProcessSpec(programId, accounts, poolData, position, data, invoke).result.Err?
    ensures Transaction(programId, accounts, poolData, position, data, invoke)
      == Committed(ProcessSpec(programId, accounts, poolData, position, data, invoke).result, poolData, position, None)
  {
  }

  /** A pool that is not initialized stays that way: every transaction against
      it fails, so no sequence of requests, initialize included, ever changes
      the pool or the position buffer. */
  lemma {:induction false} UninitializedPoolIsStuck(programId: Pubkey, reqs: seq<Request>, poolData: seq<byte>, position: seq<byte>)
    requires WellSizedRequests(reqs)
    requires |poolData| == MANAGER_LEN && poolData[0] == 0
    ensures RunAll(programId, reqs, poolData, position) == (poolData, position)
    decreases |reqs|
  {
    if reqs != [] {
      var r := reqs[0];
      assert WellSizedInstruction(r.data);
      var o := ProcessSpec(programId, r.accounts, poolData, position, r.data, r.invoke);
      assert o.result.Err?;
      assert WellSizedRequests(reqs[1..]) by {
        forall i | 0 <= i < |reqs[1..]| ensures WellSizedInstruction(reqs[1..][i].data) {
          assert reqs[1..][i] == reqs[i + 1];
        }
      }
      UninitializedPoolIsStuck(programId, reqs[1..], poolData, position);
    }
  }
}
