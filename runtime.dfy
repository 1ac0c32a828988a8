/** The few pieces of the Solana program interface the ledger touches:
    public keys, program errors, results, and the accounts an instruction
    is given, reduced to plain values and byte buffers. */
module Runtime {

  import opened Bytes

  /** A 32-byte public key. */
  type Pubkey = s: seq<byte> | |s| == 32 witness seq(32, _ => 0)

  /** The `ProgramError` variants the ledger can return. `ArithmeticOverflow`
      stands for the panic of an overflowing `+=`/`-=` under overflow checks:
      the transaction is aborted like any other error. */
  datatype ProgramError =
    | IncorrectProgramId
    | UninitializedAccount
    | InvalidInstructionData
    | MissingRequiredSignature
    | InsufficientFunds
    | InvalidArgument
    | InvalidAccountData
    | NotEnoughAccountKeys
    | ArithmeticOverflow
    | Custom(code: nat)

  datatype Result<T> = Ok(value: T) | Err(error: ProgramError)

  datatype Option<T> = None | Some(value: T)

  /** An `AccountInfo`: its key, whether it signed the transaction, the program
      owning it, and its data buffer. */
  datatype Account = Account(key: Pubkey, isSigner: bool, owner: Pubkey, data: array<byte>)

  /** A `system_instruction::transfer` request handed to `invoke`. */
  datatype Transfer = Transfer(source: Pubkey, destination: Pubkey, lamports: u64)
}
