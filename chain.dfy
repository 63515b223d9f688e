/**
 * The chain data the services read through the RPC connection, and the RPC
 * connection itself as a record of total functions (one per remote call).
 */
module Chain {
  import opened Wrappers

  /** A base58 public key, compared by its textual value (`key.toString()`). */
  type Address = string

  type Byte = bv8

  /** The program id the purchase detector filters on (the SPL Token program). */
  const TokenProgramId: Address := "TokenkegQfeZyiNwAJbNbGKPFXCWuBvf9Ss623VQ5DA"

  /**
   * A JavaScript number used as a count: an integer, or NaN, which is what
   * `parseInt` gives for text that does not start with a number.
   */
  datatype Num = Int(n: int) | NaN

  /** One awaited RPC call: it resolves to a value or it throws. */
  datatype Call<+T> = Returned(value: T) | Threw

  datatype Instruction = Instruction(programId: Address, accounts: seq<Address>, data: seq<Byte>)

  /** A resolved transaction, reduced to its message's account keys and instructions. */
  datatype Transaction = Transaction(accountKeys: seq<Address>, instructions: seq<Instruction>)

  /** One entry of `getSignaturesForAddress`. */
  datatype SignatureRecord = SignatureRecord(
    signature: string,
    slot: int,
    blockTime: Option<int>,
    confirmationStatus: Option<string>,
    err: Option<string>)

  datatype Block = Block(blockTime: Option<int>, transactions: seq<Transaction>, parentSlot: int)

  /** What `connection.getAccountInfo` returns for an existing account. */
  datatype Account = Account(lamports: int, owner: Address, executable: bool, rentEpoch: int, data: seq<Byte>)

  /**
   * The RPC connection. `isValidKey` says whether `new PublicKey(address)`
   * succeeds; every other field is one remote call, where `None` is the
   * `null` the chain returns for an absent entity and `Threw` a failed call.
   */
  datatype Rpc = Rpc(
    isValidKey: Address -> bool,
    getAccountInfo: Address -> Call<Option<Account>>,
    getSignaturesForAddress: (Address, Num) -> Call<seq<SignatureRecord>>,
    getTransaction: string -> Call<Option<Transaction>>,
    getSlot: Call<int>,
    getBlock: int -> Call<Option<Block>>)

  /** Why a service operation throws. */
  datatype ServiceError =
    | InvalidAddress   // `new PublicKey(address)` threw
    | RpcFailed        // a remote call threw
    | AccountNotFound  // `getAccountInfo` returned null
}
