# Staking pool ledger — Dafny model

This project models the on-chain core of a single-pool staking program for Solana
(`StakingContract.rs`). The program keeps one pool record (`StakingManager`) and one
position record per participant (`UserStakeInfo`). Both are persisted as fixed-layout
little-endian byte buffers. On top of these sit five transitions (`initialize`,
`deposit`, `unstake`, `start_epoch`, `claim`), a reward calculator and a dispatcher
(`process_instruction`). The dispatcher checks the pool account, loads the pool
record, routes on the first instruction byte and writes the pool record back on
success.

Layout of the model:

- `bytes.dfy` (module `Bytes`): `byte` (u8), `u16`/`u64`/`u128`, little-endian encode and decode,
  their round trips, and the `as u64` cast.
- `runtime.dfy` (module `Runtime`): public keys, `ProgramError`, `Result`, accounts
  (key, signer flag, owning program, data buffer as `array<byte>`), and transfer
  requests.
- `records.dfy` (module `Records`): the two records as datatypes and their byte
  layouts. `pack_into_slice` is a method that writes each field into the buffer in
  place, and `unpack_from_slice` is a function. The length-checking
  `Pack::pack`/`unpack_unchecked`/`unpack` wrappers are modelled too. The module
  proves both round trips and when packing an unpacked buffer reproduces it.
- `rewards.dfy` (module `Rewards`): `calculate_rewards`, `get_user_staked_amount` and
  the calculator's properties.
- `handlers.dfy` (module `Handlers`): the five handlers. Each is a method over a
  mutable pool record (class `ManagerCell`, the `&mut StakingManager`) and the
  position account's byte buffer. Each method is proved equal to a function of the
  state before the call.
- `handler_properties.dfy` (module `HandlerProperties`): what each handler does,
  stated over those functions.
- `processor.dfy` (module `Processor`): the dispatcher as a method proved against
  `ProcessSpec`. It also models the runtime's all-or-nothing commit (`Transaction`)
  and a run of many transactions (`RunAll`), plus their properties.

Choices the model makes, following the code:

- **Pool record length.** `StakingManager::LEN` is `1 + 32 + 32 + 32 + 8 + 8 + 8 + 8 + 2`,
  which is 131. The layout is 131 bytes, the epoch id sits at offset 129, and the
  position record is 41 bytes.
- **Handlers get the whole account list.** `process_instruction` takes the pool
  account from its own iterator but passes the whole `accounts` slice to each
  handler. Each handler therefore starts again at index 0. Its "owner" or "user"
  account is the pool account itself, its second account is the custody account and
  its third is the position account. The model does the same: every signer check in
  the model is on `accounts[0]`.
- **Missing accounts.** A missing account is the `NotEnoughAccountKeys` error of
  `next_account_info`. It is checked, like in the code, before the signer check.
- **Position unpack.** `UserStakeInfo::unpack` (used at lines 230 and 317) is
  modelled as `Pack::unpack`:
  - a buffer that is not 41 bytes is `InvalidAccountData`;
  - a record whose flag byte is zero is `UninitializedAccount`.

  The file does not implement `IsInitialized` for `UserStakeInfo`, so the model
  takes the flag field as that check.
- **Overflow.** Every unchecked `+=`/`-=` is an explicit failure outcome,
  `Err(ArithmeticOverflow)`. This is the panic of an overflow-checked build, and the
  runtime aborts the whole transaction on it. It covers:
  - the position sum at line 199;
  - the pool sum at line 207;
  - the pool difference at line 244 (the pool total has no check of its own, so an
    unstake that the position allows can still fail here);
  - `epoch_id += 1` at line 280.

  The failure happens at the same point as in the code. For example, `start_epoch`
  has already overwritten the window and the reward when the epoch counter
  overflows, and `deposit` has already rewritten the position when the pool sum
  overflows.
- **Transfers.** The external transfer (`invoke` of `system_instruction::transfer`)
  is an oracle: the `invoke` argument is what the call returns. Each handler also
  reports the transfer it requested. A failure is returned as is. The runtime then
  discards every write of the failed transaction (`Transaction`): the buffers revert
  and no transfer happens.
- **Known gaps kept as they are.** The model keeps three things the code does not
  guard against:
  - `initialize` has no re-initialization guard;
  - `claim` records nothing, so a second claim asks for the same reward again;
  - `start_epoch` checks only that the first account signed, not that it is the
    recorded owner.

  Because the initialized check runs before dispatch, `initialize` can never succeed
  on an uninitialized pool (`UninitializedPoolIsStuck`).
- **Reward cast.** `calculate_rewards` multiplies in 128 bits, which cannot overflow
  (`ProductFitsU128`), and divides with truncation. The result is then cast
  `as u64`, and the model keeps that cast. When a position is larger than the pool
  total, the cast can wrap (`RewardsWrapPastPoolTotal`).

## Model

| member | source | states |
|---|---|---|
| Bytes.FromLEBound | StakingContract.rs:81-85 | the little-endian value of n bytes is below 256^n |
| Bytes.ToLE | StakingContract.rs:55-59 | `to_le_bytes` yields exactly the requested number of bytes |
| Bytes.FromToLE | StakingContract.rs:55-59 | decoding the n-byte encoding of any value below 256^n gives that value back |
| Bytes.ToFromLE | StakingContract.rs:81-85 | re-encoding the decoded value of a byte string gives the same bytes |
| Bytes.U64RoundTrip | StakingContract.rs:55-58 | `u64::from_le_bytes(x.to_le_bytes()) == x` |
| Bytes.U16RoundTrip | StakingContract.rs:59 | `u16::from_le_bytes(x.to_le_bytes()) == x` |
| Bytes.U64BytesRoundTrip | StakingContract.rs:81-84 | every 8-byte string is the encoding of the u64 it decodes to |
| Bytes.U16BytesRoundTrip | StakingContract.rs:85 | every 2-byte string is the encoding of the u16 it decodes to |
| Bytes.AsU64 | StakingContract.rs:338 | the `as u64` cast is the identity on values that fit in 64 bits |
| Bytes.U64FromLE | StakingContract.rs:81-84 | `u64::from_le_bytes`; no contract of its own: U64BytesRoundTrip and U64RoundTrip state that it inverts U64ToLE in both directions |
| Bytes.U64ToLE | StakingContract.rs:55-58 | `u64::to_le_bytes` yields 8 bytes; U64RoundTrip and U64BytesRoundTrip state that U64FromLE inverts it |
| Bytes.U16FromLE | StakingContract.rs:85 | `u16::from_le_bytes`; no contract of its own: U16BytesRoundTrip and U16RoundTrip state that it inverts U16ToLE in both directions |
| Bytes.U16ToLE | StakingContract.rs:59 | `u16::to_le_bytes` yields 2 bytes; U16RoundTrip and U16BytesRoundTrip state that U16FromLE inverts it |
| Records.BoolByte | StakingContract.rs:51 | the flag is written as 1 or 0, and reading it back as `!= 0` returns the flag |
| Records.ManagerBytes | StakingContract.rs:36 | a packed pool record is exactly LEN = 131 bytes |
| Records.StakeInfoBytes | StakingContract.rs:100 | a packed position record is exactly LEN = 41 bytes |
| Records.UnpackManagerFromSlice | StakingContract.rs:62-87 | reads the nine pool fields at their offsets; no contract of its own: ManagerRoundTrip and ManagerBytesCanonical state that it inverts ManagerBytes |
| Records.UnpackStakeInfoFromSlice | StakingContract.rs:110-119 | reads flag, user and amount at offsets 0, 1 and 33; no contract of its own: StakeInfoRoundTrip and StakeInfoBytesCanonical state that it inverts StakeInfoBytes |
| Records.PackManagerIntoSlice | StakingContract.rs:37-60 | writes the nine fields at their offsets, so the first 131 bytes become the record's layout; bytes beyond 131 are untouched |
| Records.PackStakeInfoIntoSlice | StakingContract.rs:101-108 | writes flag, user and amount at offsets 0, 1 and 33; bytes beyond 41 are untouched |
| Records.WriteAt | StakingContract.rs:52-59 | `copy_from_slice` into a sub-slice sets exactly that range and leaves the others alone |
| Records.ManagerRoundTrip | StakingContract.rs:35-88 | unpacking a packed pool record returns it unchanged |
| Records.StakeInfoRoundTrip | StakingContract.rs:99-120 | unpacking a packed position record returns it unchanged |
| Records.ManagerBytesCanonical | StakingContract.rs:51-85 | packing an unpacked 131-byte buffer reproduces it if and only if its flag byte is 0 or 1 |
| Records.StakeInfoBytesCanonical | StakingContract.rs:105-117 | packing an unpacked 41-byte buffer reproduces it if and only if its flag byte is 0 or 1 |
| Records.UnpackManager | StakingContract.rs:137 | `unpack_unchecked` succeeds exactly on a 131-byte buffer and then returns `unpack_from_slice` of it (which re-encodes to the buffer if and only if its flag byte is 0 or 1); otherwise it fails with InvalidAccountData |
| Records.UnpackStakeInfoUnchecked | StakingContract.rs:193 | `unpack_unchecked` of a position succeeds exactly on a 41-byte buffer and then returns `unpack_from_slice` of it (which re-encodes to the buffer if and only if its flag byte is 0 or 1); otherwise it fails with InvalidAccountData |
| Records.UnpackStakeInfo | StakingContract.rs:230 | `unpack` of a position succeeds exactly on a 41-byte buffer with a non-zero flag; a wrong length is InvalidAccountData and a zero flag is UninitializedAccount |
| Records.PackManager | StakingContract.rs:152 | `pack` writes the record's layout when the buffer is 131 bytes long, and otherwise fails with InvalidAccountData and writes nothing |
| Records.PackStakeInfo | StakingContract.rs:200 | `pack` writes the position layout when the buffer is 41 bytes long, and otherwise fails with InvalidAccountData and writes nothing |
| Rewards.ProductFitsU128 | StakingContract.rs:333 | the u128 product of two u64 values cannot overflow |
| Rewards.CalculateRewards | StakingContract.rs:325-339 | `calculate_rewards`; no contract of its own: the Rewards* lemmas below state its value (0 on an empty pool, the floored share when it fits in 64 bits, the whole reward for the whole pool, monotone up to the pool total, wrapping past it) |
| Rewards.RewardsOfEmptyPool | StakingContract.rs:329-331 | the reward is 0 when nothing is staked |
| Rewards.RewardsOfEmptyPosition | StakingContract.rs:333-336 | a position of 0 earns 0 |
| Rewards.RewardsIsFloorShare | StakingContract.rs:333-338 | if the position is no larger than the pool, the reward is floor(user × reward / total), characterised by r·total ≤ user·reward < (r+1)·total, and it is at most the epoch reward |
| Rewards.RewardsIsFloorWhenItFits | StakingContract.rs:333-338 | on a non-empty pool, the reward equals floor(user × reward / total) if and only if that floor is below 2^64, also for positions past the pool total |
| Rewards.RewardsOfWholePool | StakingContract.rs:333-338 | a position equal to the pool total earns the whole epoch reward |
| Rewards.RewardsMonotone | StakingContract.rs:333-338 | up to the pool total, a larger position never earns less |
| Rewards.RewardsWrapPastPoolTotal | StakingContract.rs:338 | past the pool total the `as u64` cast wraps: with total 1 and reward 2^63, a position of 1 earns 2^63 and a position of 2 earns 0 |
| Rewards.RewardsBeyondPoolTotal | StakingContract.rs:333-338 | past the pool total the floor may still fit: with total 1 and reward 5, a position of 2 earns 10, more than the epoch reward |
| Rewards.RewardsExamples | StakingContract.rs:325-338 | with 1000 staked and a reward of 100, positions of 250 and 333 earn 25 and 33 |
| Rewards.GetUserStakedAmount | StakingContract.rs:316-323 | `get_user_staked_amount`; no contract of its own: GetUserStakedAmountCases and GetUserStakedAmountOfPacked state its outcomes |
| Rewards.GetUserStakedAmountCases | StakingContract.rs:316-323 | the read succeeds if and only if the position is 41 bytes with a non-zero flag, and then returns the amount at offset 33; otherwise InvalidAccountData or UninitializedAccount |
| Rewards.GetUserStakedAmountOfPacked | StakingContract.rs:316-323 | a packed initialized position reads back its staked amount |
| Handlers.Initialize | StakingContract.rs:156-174 | new result and pool record are those of `InitializeSpec` on the old record |
| Handlers.Deposit | StakingContract.rs:176-211 | new result, pool record, position buffer and transfer are those of `DepositSpec` on the old state |
| Handlers.Unstake | StakingContract.rs:213-248 | new result, pool record, position buffer and transfer are those of `UnstakeSpec` on the old state |
| Handlers.StartEpoch | StakingContract.rs:250-285 | new result and pool record are those of `StartEpochSpec` on the old record |
| Handlers.Claim | StakingContract.rs:287-314 | changes nothing; result and transfer are those of `ClaimSpec` |
| HandlerProperties.InitializeRequiresSigner | StakingContract.rs:164-167 | an unsigned first account gives MissingRequiredSignature and leaves the pool record unchanged |
| HandlerProperties.DepositRequiresSigner | StakingContract.rs:186-189 | an unsigned first account gives MissingRequiredSignature, with no change and no transfer |
| HandlerProperties.UnstakeRequiresSigner | StakingContract.rs:223-226 | an unsigned first account gives MissingRequiredSignature, with no change and no transfer |
| HandlerProperties.StartEpochRequiresSigner | StakingContract.rs:258-261 | an unsigned first account gives MissingRequiredSignature, with no change |
| HandlerProperties.ClaimRequiresSigner | StakingContract.rs:297-300 | an unsigned first account gives MissingRequiredSignature, with no change and no transfer |
| HandlerProperties.InitializeCases | StakingContract.rs:161-173 | succeeds if and only if the first account signed, even on an initialized pool; then sets the flag and the owner to that key and nothing else |
| HandlerProperties.DepositCases | StakingContract.rs:181-210 | succeeds if and only if there are 3 accounts, the first signed, the position is 41 bytes, neither sum overflows and the transfer succeeds; then both amounts grow by the deposit, an uninitialized position is bound to the caller, and the amount goes from account 0 to account 1; a failure never changes the pool |
| HandlerProperties.UnstakeCases | StakingContract.rs:218-247 | succeeds if and only if there are 3 accounts, the first signed, the position is initialized and holds at least the amount, the pool total holds at least the amount and the transfer succeeds; then both shrink by the amount and it goes back to account 0 |
| HandlerProperties.UnstakeInsufficientFunds | StakingContract.rs:230-235 | withdrawing more than the position holds gives InsufficientFunds, with nothing written and no transfer |
| HandlerProperties.UnstakeRejectsUninitializedPosition | StakingContract.rs:230 | an uninitialized position gives UninitializedAccount, with no change |
| HandlerProperties.DepositThenUnstakeRestores | StakingContract.rs:193-207 | after a successful deposit of a, an unstake of a whose transfer succeeds also succeeds, and restores the pool record and the staked amount (and the position bytes when the flag byte was 1) |
| HandlerProperties.StartEpochRejectsBadWindow | StakingContract.rs:267-275 | start ≤ current end, or end ≤ start, gives InvalidArgument with the pool unchanged |
| HandlerProperties.StartEpochCases | StakingContract.rs:256-284 | succeeds if and only if a signer gives current end < start < end and the counter can grow; then sets window and reward, adds exactly 1 to epoch_id, and keeps tokens_staked, owner, flag and token keys |
| HandlerProperties.ClaimCases | StakingContract.rs:292-313 | never changes pool or position; for a signer with an initialized position it requests the calculated reward from account 1 to account 0, and succeeds if and only if that transfer does; an uninitialized position gives UninitializedAccount; repeating the claim on the resulting state gives the same outcome |
| Processor.DispatchKeepsMisSizedPosition | StakingContract.rs:143-150 | no handler writes a position buffer that is not 41 bytes |
| Processor.RunHandler | StakingContract.rs:143-150 | routes byte 0 to its handler, and any other byte gives InvalidInstructionData; the new state is that of `Dispatch` |
| Processor.ProcessInstruction | StakingContract.rs:124-154 | result, transfer, pool buffer and (when the position account is not the pool account) position buffer are those of `ProcessSpec` on the old buffers |
| Processor.ProcessRejectsForeignPool | StakingContract.rs:132-135 | a pool account owned by another program gives IncorrectProgramId, with no change |
| Processor.ProcessRejectsUninitializedPool | StakingContract.rs:137-141 | an uninitialized pool gives UninitializedAccount for every opcode, including 0, with no change |
| Processor.ProcessRejectsMisSizedPool | StakingContract.rs:137 | a pool buffer that is not 131 bytes gives InvalidAccountData |
| Processor.ProcessRejectsUnknownOpcode | StakingContract.rs:149 | an opcode above 4 gives InvalidInstructionData, with no change |
| Processor.ProcessWritesPoolOnlyOnSuccess | StakingContract.rs:143-153 | on failure the pool buffer is unchanged; on success it is the encoding of the handler's record and unpacks to it |
| Processor.ClaimKeepsPoolBuffer | StakingContract.rs:148-152 | after a successful claim the position is unchanged, and the pool buffer is unchanged if and only if its flag byte is 1 |
| Processor.FailedTransactionCommitsNothing | StakingContract.rs:202-205 | a failed transaction, including a failed transfer after the position was rewritten, commits neither buffer and no transfer |
| Processor.UninitializedPoolIsStuck | StakingContract.rs:138-144 | from an uninitialized pool, no sequence of transactions changes either buffer, so the pool can never be initialized |

## Left out

- Solana runtime plumbing. `AccountInfo`, `next_account_info`, `entrypoint!` and
  the `RefCell` borrows of account data become plain values: keys, signer flags,
  owners and `array<byte>` buffers.
- Accounts passed more than once. If the position account is the pool account
  itself, the handler never writes it (it is 131 bytes, not 41), and the model
  describes only the pool buffer in that case. Other duplicates share nothing the
  code writes.
- The transfer. `invoke`/`system_instruction::transfer` is a foreign call that moves
  value between external accounts. It is an oracle result here, and balances of
  external accounts are not modelled.
- `msg!` logging, and the unused `Rent`, `Sysvar` and `invoke_signed` imports.
- Transaction serialization and exclusive account locking. The host runtime
  guarantees these; they are not part of this code.
- Panics on short instruction data. Indexing byte 0, and the `try_into().unwrap()`
  of bytes 1..9 and 1..25 (lines 143, 191, 228, 263-265), are not modelled.
  `WellSizedInstruction` and the handlers' `|data|` preconditions require a long
  enough instruction instead. This also puts outside the model the error results the
  code returns on a short instruction before it reads the payload: an empty
  instruction on a pool owned by another program is IncorrectProgramId (lines
  132-135), and a short deposit from a non-signer is MissingRequiredSignature (lines
  186-189). `ProcessRejectsForeignPool`, `ProcessRejectsUninitializedPool` and the
  `*RequiresSigner` lemmas cover only well-sized instructions.
- The runtime's account-permission rules. The runtime fails an instruction that
  changes the data of an account the program does not own, or of an account passed
  read-only. The model has no writable flag and does not check the owner of the
  position account, so under `DepositSpec`/`UnstakeSpec` a write to a foreign or
  read-only position succeeds, and so does `ProcessInstruction` on a read-only pool
  account.
- Overflow in a build without overflow checks. Each unchecked `+=`/`-=`/`+= 1` is
  modelled as the abort of an overflow-checked build, not as a silent wrap.
- Rewards.CalculateRewards: the function has no contract of its own. Its behaviour
  is stated by the `Rewards*` lemmas. It returns a `u64` directly, because the
  code's `Result` is always `Ok`.
- Fixes for re-initialization, repeated claims and owner-gated epoch control. The
  code has none, so the model has none.
