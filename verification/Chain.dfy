/** The parts of a Solana block that the consumer reads, with the constants it compares them to. */
module Chain {
  import opened GoArith

  /** A public key, compared only for equality. The keys that the code compares with have a constructor each, which
      stands for the base58 text beside it; every other key is an Other. */
  datatype Address =
    | WSOL                   // So11111111111111111111111111111111111111112
    | USDC                   // EPjFWdd5AufqSSqeM2qN1xzybapC8G4wEGGkZwyTDt1v
    | TOKEN_PROGRAM          // TokenkegQfeZyiNwAJbNbGKPFXCWuBvf9Ss623VQ5DA
    | TOKEN_2022_PROGRAM     // TokenzQdBNbLqP5VEhdkAS6EPFLC1PHnBqCXEpPxuEb
    | ORCA                   // whirLbMiicVdio4qvUfM5KAg6Ct8VwpYzGff3uctyCc
    | RAYDIUM_CLMM           // CAMMCzo5YL8w4VFF8KVHrK22GGUsp5VTaW7grrKgrWqK
    | METEORA_DLMM           // LBUZKhRxPF3XUpBCjp4YzTKgLccjZhTSDM9YuVaPwxo
    | PHOENIX                // PhoeNiXZ8ByJGLkxNfZRnkUfjvmuYqLR89jjFHGqdXY
    | PUMP                   // 6EF8rrecthR5Dkzon8Nwu78hRvfCKubJ14M5uBEwF6P
    | Other(id: nat)

  // The SPL token program's instruction tags.
  const INITIALIZE_ACCOUNT: byte := 1
  const TRANSFER: byte := 3
  const TRANSFER_CHECKED: byte := 12
  const INITIALIZE_ACCOUNT_2: byte := 16
  const INITIALIZE_ACCOUNT_3: byte := 18

  /** A compiled instruction. dataOwner is the key in the 32 bytes after the tag, where the data holds one. */
  datatype Instruction = Instruction(program: nat, accounts: seq<nat>, data: seq<byte>, dataOwner: Address)

  /** The instructions that the outer instruction at position index invoked, in order. */
  datatype InnerInstruction = InnerInstruction(index: nat, instructions: seq<Instruction>)

  /** A token balance record; amount is the parsed int64. */
  datatype TokenBalance = TokenBalance(account: nat, mint: Address, owner: Address, amount: int, decimals: byte)

  datatype PumpEvent = PumpEvent(solAmount: uint64, tokenAmount: uint64)

  /** A log line, with the pump event that its base64 payload decodes to, if it does. */
  datatype LogLine = LogLine(text: string, payload: Option<PumpEvent>)

  /** A transaction with its metadata; signatures are only counted. */
  datatype Transaction = Transaction(
    keys: seq<Address>,
    instructions: seq<Instruction>,
    inner: seq<InnerInstruction>,
    preBalances: seq<TokenBalance>,
    postBalances: seq<TokenBalance>,
    signatures: nat,
    failed: bool,
    logs: seq<LogLine>)

  /** True of the programs whose instructions move or create token accounts. */
  predicate IsTokenProgram(program: Address) {
    program == TOKEN_PROGRAM || program == TOKEN_2022_PROGRAM
  }

  /** The instruction's account at this position names a key. */
  predicate NamesKey(inst: Instruction, keys: seq<Address>, i: nat) {
    i < |inst.accounts| && inst.accounts[i] < |keys|
  }

  /** An initialize instruction that is long enough has its account, its mint and, in the first form, its owner read. */
  predicate InitializeInRange(inst: Instruction, keys: seq<Address>)
    requires inst.data != []
  {
    var (tag, n) := (inst.data[0], |inst.accounts|);
    && (tag == INITIALIZE_ACCOUNT && n >= 3 ==>
      NamesKey(inst, keys, 0) && NamesKey(inst, keys, 1) && NamesKey(inst, keys, 2))
    && ((tag == INITIALIZE_ACCOUNT_2 || tag == INITIALIZE_ACCOUNT_3) && n >= 2 && |inst.data| >= 33 ==>
      NamesKey(inst, keys, 0) && NamesKey(inst, keys, 1))
  }

  /** A transfer instruction that is long enough has its two ends read. */
  predicate TransferInRange(inst: Instruction, keys: seq<Address>)
    requires inst.data != []
  {
    var (tag, n) := (inst.data[0], |inst.accounts|);
    && (tag == TRANSFER && n >= 3 && |inst.data| >= 9 ==> NamesKey(inst, keys, 0) && NamesKey(inst, keys, 1))
    && (tag == TRANSFER_CHECKED && n >= 4 && |inst.data| >= 10 ==> NamesKey(inst, keys, 0) && NamesKey(inst, keys, 2))
  }

  /** The program index names a key; a token instruction has a tag byte, and those of its accounts that are read name
      keys as well. The Go code panics otherwise. */
  predicate InstructionInRange(inst: Instruction, keys: seq<Address>) {
    && inst.program < |keys|
    && (IsTokenProgram(keys[inst.program]) ==>
      inst.data != [] && InitializeInRange(inst, keys) && TransferInRange(inst, keys))
  }

  predicate InstructionsInRange(insts: seq<Instruction>, keys: seq<Address>) {
    forall i | 0 <= i < |insts| :: InstructionInRange(insts[i], keys)
  }

  predicate BalancesInRange(items: seq<TokenBalance>, keys: seq<Address>) {
    forall i | 0 <= i < |items| :: items[i].account < |keys|
  }

  predicate InRange(tx: Transaction) {
    && InstructionsInRange(tx.instructions, tx.keys)
    && (forall i | 0 <= i < |tx.inner| :: InstructionsInRange(tx.inner[i].instructions, tx.keys))
    && BalancesInRange(tx.preBalances, tx.keys)
    && BalancesInRange(tx.postBalances, tx.keys)
  }
}
