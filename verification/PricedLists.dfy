/** Which transfers are priced: what counts as a transfer, which ones a list holds, and which lists there are. */
module PricedLists {
  import opened GoArith
  import opened Picking
  import opened Chain
  import opened TokenAccounts
  import opened SwapMatching
  import opened SwapPriceProperties
  import opened SolPrice

  // ----- Instructions that are transfers -----

  /** A Transfer (3) or TransferChecked (12) instruction of a token program, long enough for its form. */
  predicate IsTransferOf(inst: Instruction, keys: seq<Address>, t: Transfer)
    requires InstructionInRange(inst, keys)
  {
    && (keys[inst.program] == TOKEN_PROGRAM || keys[inst.program] == TOKEN_2022_PROGRAM)
    && ((inst.data[0] == 3 && |inst.data| >= 9 && |inst.accounts| >= 3 &&
         t.from == keys[inst.accounts[0]] && t.to == keys[inst.accounts[1]]) ||
        (inst.data[0] == 12 && |inst.data| >= 10 && |inst.accounts| >= 4 &&
         t.from == keys[inst.accounts[0]] && t.to == keys[inst.accounts[2]]))
    && t.amount == LittleEndian64(inst.data[1..9])
  }

  lemma GetTransferIff(inst: Instruction, keys: seq<Address>, t: Transfer)
    requires InstructionInRange(inst, keys)
    ensures GetTransfer(keys, inst) == Some(t) <==> IsTransferOf(inst, keys, t)
  {
    if IsTokenProgram(keys[inst.program]) && |inst.data| >= 9 {
      assert inst.data[1..][..8] == inst.data[1..9][..8];
      LittleEndian64Injective(inst.data[1..], inst.data[1..9]);
      if |inst.data| >= 10 {
        assert inst.data[1..10][..8] == inst.data[1..9][..8];
        LittleEndian64Injective(inst.data[1..10], inst.data[1..9]);
      }
    }
  }

  // ----- The transfers of a list -----

  /** Both ends are known accounts of one mint, which is WSOL or USDC. */
  function Listed(keys: seq<Address>, v: View): Instruction -> Option<Transfer> {
    (inst: Instruction) =>
      if !InstructionInRange(inst, keys) then None
      else match GetTransfer(keys, inst)
        case None => None
        case Some(t) =>
          if t.from in v && t.to in v && v[t.from].mint == v[t.to].mint && v[t.to].mint in {WSOL, USDC} then Some(t)
          else None
  }

  lemma ListedOne(inst: Instruction, keys: seq<Address>, v: View)
    requires InstructionInRange(inst, keys)
    ensures IfPicked(Listed(keys, v), inst) ==
      match GetTransfer(keys, inst)
      case None => []
      case Some(t) => if IsSwapLeg(t, v) then [t] else []
  {
  }

  lemma ListedNext(insts: seq<Instruction>, keys: seq<Address>, v: View)
    requires InstructionsInRange(insts, keys) && insts != []
    ensures TransfersOf(insts, keys, v) ==
            TransfersOf(insts[..|insts| - 1], keys, v) + IfPicked(Listed(keys, v), insts[|insts| - 1])
  {
    ListedOne(insts[|insts| - 1], keys, v);
  }

  /** A list holds exactly those transfers, in order. */
  lemma {:induction false} TransfersListed(insts: seq<Instruction>, keys: seq<Address>, v: View)
    requires InstructionsInRange(insts, keys)
    ensures Picks(Listed(keys, v), insts, TransfersOf(insts, keys, v))
  {
    if insts == [] {
      PicksNone(Listed(keys, v));
    } else {
      var n := |insts| - 1;
      TransfersListed(insts[..n], keys, v);
      ListedNext(insts, keys, v);
      PicksLast(Listed(keys, v), insts, TransfersOf(insts[..n], keys, v));
    }
  }

  // ----- The lists of a transaction -----

  predicate IsDex(program: Address) {
    program in {ORCA, RAYDIUM_CLMM, METEORA_DLMM, PHOENIX}
  }

  /** The list under an outer instruction of a DEX: what its last record of inner instructions transfers. */
  function UnderOuter(tx: Transaction, v: View): int -> Option<seq<Transfer>>
    requires InRange(tx)
  {
    InnerMapInRange(tx.inner, tx.keys);
    (i: int) =>
      if 0 <= i < |tx.instructions| && IsDex(tx.keys[tx.instructions[i].program]) && i in InnerMap(tx.inner)
      then Some(TransfersOf(InnerMap(tx.inner)[i], tx.keys, v)) else None
  }

  /** The list of the two instructions that follow an inner instruction of a DEX. */
  function AfterInner(insts: seq<Instruction>, keys: seq<Address>, v: View): int -> Option<seq<Transfer>>
    requires InstructionsInRange(insts, keys)
  {
    (i: int) =>
      if 0 <= i && i + 2 < |insts| && IsDex(keys[insts[i].program])
      then Some(TransfersOf([insts[i + 1], insts[i + 2]], keys, v)) else None
  }

  lemma OuterNext(tx: Transaction, n: nat, v: View)
    requires InRange(tx) && n < |tx.instructions|
    ensures OuterGroups(tx, n + 1, v) == OuterGroups(tx, n, v) + IfPicked(UnderOuter(tx, v), n)
  {
    assert IfPicked(UnderOuter(tx, v), n) == OuterGroup(tx, n, v);
  }

  lemma {:induction false} OuterListed(tx: Transaction, n: nat, v: View)
    requires InRange(tx) && n <= |tx.instructions|
    ensures Picks(UnderOuter(tx, v), Positions(n), OuterGroups(tx, n, v))
  {
    if n == 0 {
      PicksNone(UnderOuter(tx, v));
    } else {
      OuterListed(tx, n - 1, v);
      OuterNext(tx, n - 1, v);
      PicksPosition(UnderOuter(tx, v), n - 1, OuterGroups(tx, n - 1, v));
    }
  }

  lemma WindowsNext(insts: seq<Instruction>, keys: seq<Address>, n: nat, v: View)
    requires InstructionsInRange(insts, keys) && n < |insts|
    ensures WindowGroups(insts, keys, n + 1, v) ==
            WindowGroups(insts, keys, n, v) + IfPicked(AfterInner(insts, keys, v), n)
  {
    if n + 2 < |insts| {
      assert insts[n + 1..n + 3] == [insts[n + 1], insts[n + 2]];
    }
    assert IfPicked(AfterInner(insts, keys, v), n) == WindowGroup(insts, keys, n, v);
  }

  lemma {:induction false} WindowsListed(insts: seq<Instruction>, keys: seq<Address>, n: nat, v: View)
    requires InstructionsInRange(insts, keys) && n <= |insts|
    ensures Picks(AfterInner(insts, keys, v), Positions(n), WindowGroups(insts, keys, n, v))
  {
    if n == 0 {
      PicksNone(AfterInner(insts, keys, v));
    } else {
      WindowsListed(insts, keys, n - 1, v);
      WindowsNext(insts, keys, n - 1, v);
      PicksPosition(AfterInner(insts, keys, v), n - 1, WindowGroups(insts, keys, n - 1, v));
    }
  }

  /** The lists of one record of inner instructions. */
  function Windows(keys: seq<Address>, v: View): InnerInstruction -> seq<seq<Transfer>> {
    (inner: InnerInstruction) =>
      if InstructionsInRange(inner.instructions, keys)
      then WindowGroups(inner.instructions, keys, |inner.instructions|, v) else []
  }

  lemma {:induction false} InnerListed(tx: Transaction, n: nat, v: View)
    requires InRange(tx) && n <= |tx.inner|
    ensures InnerGroups(tx, n, v) == FlatMap(Windows(tx.keys, v), tx.inner[..n])
  {
    if n > 0 {
      InnerListed(tx, n - 1, v);
      assert tx.inner[..n][..n - 1] == tx.inner[..n - 1];
    }
  }

  /** The lists that are priced are those under the outer DEX instructions, in order, followed by those after the inner
      DEX instructions, record by record. */
  lemma GroupsListed(tx: Transaction, v: View)
    requires InRange(tx)
    ensures exists outer ::
      && Picks(UnderOuter(tx, v), Positions(|tx.instructions|), outer)
      && Groups(tx, v) == outer + FlatMap(Windows(tx.keys, v), tx.inner)
    ensures forall r | 0 <= r < |tx.inner| ::
      Picks(AfterInner(tx.inner[r].instructions, tx.keys, v), Positions(|tx.inner[r].instructions|),
            Windows(tx.keys, v)(tx.inner[r]))
  {
    OuterListed(tx, |tx.instructions|, v);
    InnerListed(tx, |tx.inner|, v);
    assert tx.inner[..|tx.inner|] == tx.inner;
    forall r | 0 <= r < |tx.inner|
      ensures Picks(AfterInner(tx.inner[r].instructions, tx.keys, v), Positions(|tx.inner[r].instructions|),
                    Windows(tx.keys, v)(tx.inner[r]))
    {
      WindowsListed(tx.inner[r].instructions, tx.keys, |tx.inner[r].instructions|, v);
    }
  }
}
