/** From a block to the SOL price: the transfer lists under each DEX instruction, their prices, and the aggregate. */
module SolPrice {
  import opened GoArith
  import opened Chain
  import opened TokenAccounts
  import opened SwapMatching
  import opened SwapPrice
  import opened SwapPriceProperties
  import opened TrimmedMean
  import opened AccountHistory

  // ----- Reading transfers -----

  /** A transfer, or none: not a token program, another instruction, or one too short to be a transfer. */
  function GetTransfer(keys: seq<Address>, inst: Instruction): Option<Transfer>
    requires InstructionInRange(inst, keys)
  {
    if !IsTokenProgram(keys[inst.program]) then None
    else if inst.data[0] == TRANSFER then
      if |inst.data| < 9 || |inst.accounts| < 3 then None
      else Some(Transfer(keys[inst.accounts[0]], keys[inst.accounts[1]], LittleEndian64(inst.data[1..])))
    else if inst.data[0] == TRANSFER_CHECKED then
      if |inst.data| < 10 || |inst.accounts| < 4 then None
      else Some(Transfer(keys[inst.accounts[0]], keys[inst.accounts[2]], LittleEndian64(inst.data[1..10])))
    else None
  }

  /** A Transfer instruction as the token program lays it out: source, destination, authority; tag and amount. */
  function TransferInstruction(program: nat, source: nat, destination: nat, authority: nat, amount: uint64)
    : Instruction
  {
    Instruction(program, [source, destination, authority], [TRANSFER] + Bytes64(amount), Other(0))
  }

  /** A TransferChecked instruction: source, mint, destination, authority; tag, amount and decimals. */
  function TransferCheckedInstruction(program: nat, source: nat, mint: nat, destination: nat, authority: nat,
                                      amount: uint64, decimals: byte): Instruction {
    Instruction(program, [source, mint, destination, authority],
                [TRANSFER_CHECKED] + Bytes64(amount) + [decimals], Other(0))
  }

  /** Both layouts decode to the source, the destination and the amount they were built from. */
  lemma TransferRoundTrip(keys: seq<Address>, program: nat, source: nat, mint: nat, destination: nat, authority: nat,
                          amount: uint64, decimals: byte)
    requires program < |keys| && IsTokenProgram(keys[program])
    requires source < |keys| && mint < |keys| && destination < |keys| && authority < |keys|
    ensures
      var plain := TransferInstruction(program, source, destination, authority, amount);
      var checked := TransferCheckedInstruction(program, source, mint, destination, authority, amount, decimals);
      var transfer := Transfer(keys[source], keys[destination], amount);
      && InstructionInRange(plain, keys) && GetTransfer(keys, plain) == Some(transfer)
      && InstructionInRange(checked, keys) && GetTransfer(keys, checked) == Some(transfer)
  {
    var bytes := Bytes64(amount);
    assert ([TRANSFER] + bytes)[1..] == bytes + [];
    assert ([TRANSFER_CHECKED] + bytes + [decimals])[1..10] == bytes + [decimals];
    BytesRoundTrip(amount, []);
    BytesRoundTrip(amount, [decimals]);
  }

  /** The swap legs among a list of instructions, in order. */
  function TransfersOf(insts: seq<Instruction>, keys: seq<Address>, v: View): (ts: seq<Transfer>)
    requires InstructionsInRange(insts, keys)
    ensures SwapLegs(ts, v)
  {
    if insts == [] then []
    else
      var before := TransfersOf(insts[..|insts| - 1], keys, v);
      match GetTransfer(keys, insts[|insts| - 1])
      case None => before
      case Some(t) => if IsSwapLeg(t, v) then before + [t] else before
  }

  method CollectTransfers(insts: seq<Instruction>, keys: seq<Address>, accounts: TokenAccountMap)
    returns (allTransfer: seq<Transfer>)
    requires InstructionsInRange(insts, keys)
    ensures allTransfer == TransfersOf(insts, keys, accounts.View())
  {
    allTransfer := [];
    for i := 0 to |insts|
      invariant allTransfer == TransfersOf(insts[..i], keys, accounts.View())
    {
      assert insts[..i + 1][..i] == insts[..i];
      match GetTransfer(keys, insts[i])
      case None =>
      case Some(transfer) =>
        if transfer.from in accounts.entries && transfer.to in accounts.entries {
          var from, to := accounts.entries[transfer.from], accounts.entries[transfer.to];
          assert from.View() == accounts.View()[transfer.from] && to.View() == accounts.View()[transfer.to];
          if from.tokenMintAccountAddress == to.tokenMintAccountAddress {
            if from.tokenMintAccountAddress == WSOL || from.tokenMintAccountAddress == USDC {
              allTransfer := allTransfer + [transfer];
            }
          }
        }
    }
    assert insts[..|insts|] == insts;
  }

  // ----- The lists of one transaction -----

  ghost predicate AllSwapLegs(groups: seq<seq<Transfer>>, v: View) {
    forall g | 0 <= g < |groups| :: SwapLegs(groups[g], v)
  }

  predicate IsStableCoinSwapDex(program: Address) {
    program == ORCA || program == RAYDIUM_CLMM || program == METEORA_DLMM || program == PHOENIX
  }

  /** makeInnerInstWithOuterMap: of several records for one outer instruction, the last one stays. */
  method MakeInnerInstWithOuterMap(inner: seq<InnerInstruction>) returns (innerMap: map<nat, seq<Instruction>>)
    ensures innerMap == InnerMap(inner)
    ensures forall k :: k in innerMap <==> HasRecord(inner, k)
    ensures forall i: nat | IsLastRecord(inner, i) ::
      inner[i].index in innerMap && innerMap[inner[i].index] == inner[i].instructions
  {
    forall k
      ensures k in InnerMap(inner) <==> HasRecord(inner, k)
    {
      InnerMapKeys(inner, k);
    }
    forall i: nat | IsLastRecord(inner, i)
      ensures inner[i].index in InnerMap(inner) && InnerMap(inner)[inner[i].index] == inner[i].instructions
    {
      LastRecordStays(inner, i);
    }
    innerMap := map[];
    for i := 0 to |inner|
      invariant innerMap == InnerMap(inner[..i])
    {
      assert inner[..i + 1][..i] == inner[..i];
      innerMap := innerMap[inner[i].index := inner[i].instructions];
    }
    assert inner[..|inner|] == inner;
  }

  function InnerMap(inner: seq<InnerInstruction>): map<nat, seq<Instruction>> {
    if inner == [] then map[]
    else InnerMap(inner[..|inner| - 1])[inner[|inner| - 1].index := inner[|inner| - 1].instructions]
  }

  /** No later record belongs to the same outer instruction. */
  ghost predicate IsLastRecord(inner: seq<InnerInstruction>, i: nat) {
    i < |inner| && forall j | i < j < |inner| :: inner[j].index != inner[i].index
  }

  ghost predicate HasRecord(inner: seq<InnerInstruction>, k: nat) {
    exists i :: 0 <= i < |inner| && inner[i].index == k
  }

  lemma {:induction false} InnerMapKeys(inner: seq<InnerInstruction>, k: nat)
    ensures k in InnerMap(inner) <==> HasRecord(inner, k)
  {
    if inner != [] {
      var n := |inner| - 1;
      InnerMapKeys(inner[..n], k);
      assert HasRecord(inner[..n], k) ==> HasRecord(inner, k);
      assert HasRecord(inner, k) ==> HasRecord(inner[..n], k) || inner[n].index == k;
    }
  }

  lemma {:induction false} LastRecordStays(inner: seq<InnerInstruction>, i: nat)
    requires IsLastRecord(inner, i)
    ensures inner[i].index in InnerMap(inner) && InnerMap(inner)[inner[i].index] == inner[i].instructions
  {
    var n := |inner| - 1;
    if i < n {
      assert inner[n].index != inner[i].index;
      LastRecordStays(inner[..n], i);
    }
  }

  /** GetInnerInstructionByInner: the innerLen instructions after startIndex, if there are that many. */
  method GetInnerInstructionByInner(insts: seq<Instruction>, startIndex: nat, innerLen: nat)
    returns (window: Option<seq<Instruction>>)
    ensures window == if startIndex + innerLen + 1 > |insts| then None
                      else Some(insts[startIndex + 1..startIndex + 1 + innerLen])
  {
    if startIndex + innerLen + 1 > |insts| {
      return None;
    }
    var instructions := [];
    for i := 0 to innerLen
      invariant instructions == insts[startIndex + 1..startIndex + 1 + i]
    {
      instructions := instructions + [insts[startIndex + i + 1]];
    }
    return Some(instructions);
  }

  /** The list under the outer instruction at position i. */
  function OuterGroup(tx: Transaction, i: nat, v: View): seq<seq<Transfer>>
    requires InRange(tx) && i < |tx.instructions|
  {
    InnerMapInRange(tx.inner, tx.keys);
    if IsStableCoinSwapDex(tx.keys[tx.instructions[i].program]) && i in InnerMap(tx.inner)
    then [TransfersOf(InnerMap(tx.inner)[i], tx.keys, v)]
    else []
  }

  /** The list of the two instructions after position i of a list of inner instructions. */
  function WindowGroup(insts: seq<Instruction>, keys: seq<Address>, i: nat, v: View): seq<seq<Transfer>>
    requires InstructionsInRange(insts, keys) && i < |insts|
  {
    if IsStableCoinSwapDex(keys[insts[i].program]) && i + 3 <= |insts|
    then [TransfersOf(insts[i + 1..i + 3], keys, v)]
    else []
  }

  lemma InnerMapInRange(inner: seq<InnerInstruction>, keys: seq<Address>)
    requires forall i | 0 <= i < |inner| :: InstructionsInRange(inner[i].instructions, keys)
    ensures forall k | k in InnerMap(inner) :: InstructionsInRange(InnerMap(inner)[k], keys)
  {
  }

  function OuterGroups(tx: Transaction, n: nat, v: View): seq<seq<Transfer>>
    requires InRange(tx) && n <= |tx.instructions|
  {
    if n == 0 then [] else OuterGroups(tx, n - 1, v) + OuterGroup(tx, n - 1, v)
  }

  function WindowGroups(insts: seq<Instruction>, keys: seq<Address>, n: nat, v: View): seq<seq<Transfer>>
    requires InstructionsInRange(insts, keys) && n <= |insts|
  {
    if n == 0 then [] else WindowGroups(insts, keys, n - 1, v) + WindowGroup(insts, keys, n - 1, v)
  }

  function InnerGroups(tx: Transaction, n: nat, v: View): seq<seq<Transfer>>
    requires InRange(tx) && n <= |tx.inner|
  {
    if n == 0 then []
    else
      var insts := tx.inner[n - 1].instructions;
      InnerGroups(tx, n - 1, v) + WindowGroups(insts, tx.keys, |insts|, v)
  }

  /** Every transfer list that GetSolPriceBySwap prices; each holds swap legs only. */
  function Groups(tx: Transaction, v: View): seq<seq<Transfer>>
    requires InRange(tx)
  {
    OuterGroups(tx, |tx.instructions|, v) + InnerGroups(tx, |tx.inner|, v)
  }

  /** The positive prices of the groups, in order. */
  function PositivePrices(groups: seq<seq<Transfer>>, v: View): seq<real> {
    FlatMap(Pricer(v), groups)
  }

  function Pricer(v: View): seq<Transfer> -> seq<real> {
    ts => PositivePrice(ts, v)
  }

  /** The lists that are priced hold swap legs only (see GroupsAreSwapLegs). */
  function PositivePrice(ts: seq<Transfer>, v: View): seq<real> {
    if SwapLegs(ts, v) && GroupPrice(ts, v) > 0.0 then [GroupPrice(ts, v)] else []
  }

  lemma FlatMapMembers<T>(f: T -> seq<real>, xs: seq<T>)
    requires forall i | 0 <= i < |xs| :: forall y | y in f(xs[i]) :: Finite(y) && y > 0.0
    ensures forall y | y in FlatMap(f, xs) :: Finite(y) && y > 0.0
  {
  }

  lemma WindowGroupsAreSwapLegs(insts: seq<Instruction>, keys: seq<Address>, n: nat, v: View)
    requires InstructionsInRange(insts, keys) && n <= |insts|
    ensures AllSwapLegs(WindowGroups(insts, keys, n, v), v)
  {
  }

  lemma InnerGroupsAreSwapLegs(tx: Transaction, n: nat, v: View)
    requires InRange(tx) && n <= |tx.inner|
    ensures AllSwapLegs(InnerGroups(tx, n, v), v)
  {
    if n > 0 {
      var insts := tx.inner[n - 1].instructions;
      InnerGroupsAreSwapLegs(tx, n - 1, v);
      WindowGroupsAreSwapLegs(insts, tx.keys, |insts|, v);
    }
  }

  lemma OuterGroupsAreSwapLegs(tx: Transaction, n: nat, v: View)
    requires InRange(tx) && n <= |tx.instructions|
    ensures AllSwapLegs(OuterGroups(tx, n, v), v)
  {
  }

  /** Both ends of every priced transfer are known accounts of one mint, WSOL or USDC. */
  lemma GroupsAreSwapLegs(tx: Transaction, v: View)
    requires InRange(tx)
    ensures AllSwapLegs(Groups(tx, v), v)
  {
    OuterGroupsAreSwapLegs(tx, |tx.instructions|, v);
    InnerGroupsAreSwapLegs(tx, |tx.inner|, v);
  }

  // ----- The methods -----

  /** Prices the transfers of one list of instructions; the price counts when it is positive. */
  method PriceOf(insts: seq<Instruction>, keys: seq<Address>, accounts: TokenAccountMap) returns (r: seq<real>)
    requires InstructionsInRange(insts, keys)
    ensures r == PositivePrice(TransfersOf(insts, keys, accounts.View()), accounts.View())
  {
    var allTransfer := CollectTransfers(insts, keys, accounts);
    var price := CalcPriceOnAllTransferBySwapGroup(allTransfer, accounts);
    r := if price > 0.0 then [price] else [];
  }

  lemma OnePrice(ts: seq<Transfer>, v: View)
    ensures PositivePrices([ts], v) == PositivePrice(ts, v)
  {
    FlatMapOne(Pricer(v), ts);
  }

  method OuterPrice(tx: Transaction, innerMap: map<nat, seq<Instruction>>, i: nat, accounts: TokenAccountMap)
    returns (prices: seq<real>)
    requires InRange(tx) && innerMap == InnerMap(tx.inner) && i < |tx.instructions|
    ensures prices == PositivePrices(OuterGroup(tx, i, accounts.View()), accounts.View())
  {
    InnerMapInRange(tx.inner, tx.keys);
    prices := [];
    if IsStableCoinSwapDex(tx.keys[tx.instructions[i].program]) && i in innerMap {
      prices := PriceOf(innerMap[i], tx.keys, accounts);
      OnePrice(TransfersOf(innerMap[i], tx.keys, accounts.View()), accounts.View());
    }
  }

  method WindowPrice(insts: seq<Instruction>, keys: seq<Address>, i: nat, accounts: TokenAccountMap)
    returns (prices: seq<real>)
    requires InstructionsInRange(insts, keys) && i < |insts|
    ensures prices == PositivePrices(WindowGroup(insts, keys, i, accounts.View()), accounts.View())
  {
    prices := [];
    if IsStableCoinSwapDex(keys[insts[i].program]) {
      var window := GetInnerInstructionByInner(insts, i, 2);
      if window.Some? {
        ghost var ts := TransfersOf(window.value, keys, accounts.View());
        assert WindowGroup(insts, keys, i, accounts.View()) == [ts];
        prices := PriceOf(window.value, keys, accounts);
        OnePrice(ts, accounts.View());
      }
    }
  }

  /** The prices under the first n outer instructions, appended one instruction at a time. */
  ghost function OuterAppended(tx: Transaction, n: nat, v: View): seq<real>
    requires InRange(tx) && n <= |tx.instructions|
  {
    if n == 0 then [] else OuterAppended(tx, n - 1, v) + PositivePrices(OuterGroup(tx, n - 1, v), v)
  }

  ghost function WindowAppended(insts: seq<Instruction>, keys: seq<Address>, n: nat, v: View): seq<real>
    requires InstructionsInRange(insts, keys) && n <= |insts|
  {
    if n == 0 then [] else WindowAppended(insts, keys, n - 1, v) + PositivePrices(WindowGroup(insts, keys, n - 1, v), v)
  }

  ghost function InnerAppended(tx: Transaction, n: nat, v: View): seq<real>
    requires InRange(tx) && n <= |tx.inner|
  {
    if n == 0 then []
    else InnerAppended(tx, n - 1, v) +
         WindowAppended(tx.inner[n - 1].instructions, tx.keys, |tx.inner[n - 1].instructions|, v)
  }

  lemma OuterAppendedIsPrices(tx: Transaction, n: nat, v: View)
    requires InRange(tx) && n <= |tx.instructions|
    ensures OuterAppended(tx, n, v) == PositivePrices(OuterGroups(tx, n, v), v)
  {
    if n > 0 {
      OuterAppendedIsPrices(tx, n - 1, v);
      FlatMapConcat(Pricer(v), OuterGroups(tx, n - 1, v), OuterGroup(tx, n - 1, v));
    }
  }

  lemma WindowAppendedIsPrices(insts: seq<Instruction>, keys: seq<Address>, n: nat, v: View)
    requires InstructionsInRange(insts, keys) && n <= |insts|
    ensures WindowAppended(insts, keys, n, v) == PositivePrices(WindowGroups(insts, keys, n, v), v)
  {
    if n > 0 {
      WindowAppendedIsPrices(insts, keys, n - 1, v);
      FlatMapConcat(Pricer(v), WindowGroups(insts, keys, n - 1, v), WindowGroup(insts, keys, n - 1, v));
    }
  }

  lemma InnerAppendedIsPrices(tx: Transaction, n: nat, v: View)
    requires InRange(tx) && n <= |tx.inner|
    ensures InnerAppended(tx, n, v) == PositivePrices(InnerGroups(tx, n, v), v)
  {
    if n > 0 {
      var insts := tx.inner[n - 1].instructions;
      InnerAppendedIsPrices(tx, n - 1, v);
      WindowAppendedIsPrices(insts, tx.keys, |insts|, v);
      FlatMapConcat(Pricer(v), InnerGroups(tx, n - 1, v), WindowGroups(insts, tx.keys, |insts|, v));
    }
  }

  method OuterPrices(tx: Transaction, innerMap: map<nat, seq<Instruction>>, accounts: TokenAccountMap)
    returns (prices: seq<real>)
    requires InRange(tx) && innerMap == InnerMap(tx.inner)
    ensures prices == OuterAppended(tx, |tx.instructions|, accounts.View())
  {
    ghost var v := accounts.View();
    prices := [];
    for i := 0 to |tx.instructions|
      invariant accounts.View() == v
      invariant prices == OuterAppended(tx, i, v)
    {
      var more := OuterPrice(tx, innerMap, i, accounts);
      prices := prices + more;
    }
  }

  lemma WindowAppendedNext(insts: seq<Instruction>, keys: seq<Address>, n: nat, v: View)
    requires InstructionsInRange(insts, keys) && n < |insts|
    ensures WindowAppended(insts, keys, n + 1, v) ==
            WindowAppended(insts, keys, n, v) + PositivePrices(WindowGroup(insts, keys, n, v), v)
  {
  }

  method WindowPrices(insts: seq<Instruction>, keys: seq<Address>, accounts: TokenAccountMap)
    returns (prices: seq<real>)
    requires InstructionsInRange(insts, keys)
    ensures prices == WindowAppended(insts, keys, |insts|, accounts.View())
  {
    ghost var v := accounts.View();
    prices := [];
    for i := 0 to |insts|
      invariant accounts.View() == v
      invariant prices == WindowAppended(insts, keys, i, v)
    {
      var more := WindowPrice(insts, keys, i, accounts);
      WindowAppendedNext(insts, keys, i, v);
      prices := prices + more;
    }
  }

  method InnerPrices(tx: Transaction, accounts: TokenAccountMap) returns (prices: seq<real>)
    requires InRange(tx)
    ensures prices == InnerAppended(tx, |tx.inner|, accounts.View())
  {
    ghost var v := accounts.View();
    prices := [];
    for i := 0 to |tx.inner|
      invariant accounts.View() == v
      invariant prices == InnerAppended(tx, i, v)
    {
      var more := WindowPrices(tx.inner[i].instructions, tx.keys, accounts);
      prices := prices + more;
    }
  }

  lemma PricesOfGroups(tx: Transaction, v: View)
    requires InRange(tx)
    ensures PositivePrices(Groups(tx, v), v) ==
            OuterAppended(tx, |tx.instructions|, v) + InnerAppended(tx, |tx.inner|, v)
  {
    OuterAppendedIsPrices(tx, |tx.instructions|, v);
    InnerAppendedIsPrices(tx, |tx.inner|, v);
    FlatMapConcat(Pricer(v), OuterGroups(tx, |tx.instructions|, v), InnerGroups(tx, |tx.inner|, v));
  }

  method GetSolPriceBySwap(innerMap: map<nat, seq<Instruction>>, accounts: TokenAccountMap, tx: Transaction)
    returns (prices: seq<real>)
    requires InRange(tx) && innerMap == InnerMap(tx.inner)
    ensures prices == PositivePrices(Groups(tx, accounts.View()), accounts.View())
  {
    PricesOfGroups(tx, accounts.View());
    var outer := OuterPrices(tx, innerMap, accounts);
    var inner := InnerPrices(tx, accounts);
    prices := outer + inner;
  }

  ghost predicate Aligned(txs: seq<Transaction>, views: seq<View>, changes: seq<bool>) {
    AllInRange(txs) && |changes| <= |txs| && |views| == |changes| + 1
  }

  /** A transaction with the map it left and whether it reported a change. */
  datatype Applied = Applied(tx: Transaction, view: View, changed: bool)

  ghost function AppliedSteps(txs: seq<Transaction>, views: seq<View>, changes: seq<bool>): seq<Applied>
    requires Aligned(txs, views, changes)
  {
    seq(|changes|, t requires 0 <= t < |changes| => Applied(txs[t], views[t + 1], changes[t]))
  }

  /** Transactions without a reported change are skipped. */
  function PricesOfStep(tx: Transaction, v: View, changed: bool): seq<real> {
    if InRange(tx) && changed then PositivePrices(Groups(tx, v), v) else []
  }

  function StepPrices(): Applied -> seq<real> {
    (a: Applied) => PricesOfStep(a.tx, a.view, a.changed)
  }

  /** All prices of the transactions applied so far. */
  ghost function BlockPrices(txs: seq<Transaction>, views: seq<View>, changes: seq<bool>): seq<real>
    requires Aligned(txs, views, changes)
  {
    FlatMap(StepPrices(), AppliedSteps(txs, views, changes))
  }

  /** The price that GetSolPrice settles on: this block's aggregate, else the row's own price, else that of the
      nearest earlier processed row, else 0. */
  function SettledPrice(prices: seq<real>, rowPrice: real, nearPrice: Option<real>): real {
    if Aggregate(prices) > 0.0 then Aggregate(prices)
    else if rowPrice > 0.0 then rowPrice
    else if nearPrice.Some? then nearPrice.value
    else 0.0
  }

  // ----- Every price is a finite float -----

  lemma Pow10Adds(a: nat, b: nat)
    ensures Pow10(a + b) == Pow10(a) * Pow10(b)
  {
    if a > 0 {
      Pow10Adds(a - 1, b);
    }
  }

  lemma Pow10Of16()
    ensures Pow10(16) == 10000000000000000.0
  {
    assert Pow10(0) == 1.0 && Pow10(1) == 10.0;
    Pow10Adds(1, 1);
    Pow10Adds(2, 2);
    Pow10Adds(4, 4);
    Pow10Adds(8, 8);
  }

  lemma Pow10Of64()
    ensures Pow10(64) == 10000000000000000000000000000000000000000000000000000000000000000.0
  {
    Pow10Of16();
    Pow10Adds(16, 16);
    Pow10Adds(32, 32);
  }

  lemma Pow10Of256()
    ensures Pow10(256) == TEN256
  {
    Pow10Of64();
    Pow10Adds(64, 64);
    Pow10Adds(128, 128);
  }

  const TEN256: real := 10000000000000000000000000000000000000000000000000000000000000000000000000000000000000000000000000000000000000000000000000000000000000000000000000000000000000000000000000000000000000000000000000000000000000000000000000000000000000000000000000000000000000000.0

  lemma ProductAtLeast(q: real, p: real, r: real, a: real)
    requires q * p == a && a >= 1.0 && r >= 1.0
    ensures q * (p * r) >= 1.0
  {
    assert q * (p * r) == a * r;
    assert a * r >= 1.0;
  }

  lemma UnitsAtLeast(amount: nat, decimals: nat, n: nat)
    requires amount > 0 && decimals <= n
    ensures Units(amount, decimals) * Pow10(n) >= 1.0
  {
    UnitsTimesPow10(amount, decimals);
    Pow10Adds(decimals, n - decimals);
    ProductAtLeast(Units(amount, decimals), Pow10(decimals), Pow10(n - decimals), amount as real);
  }

  /** A 64-bit amount in whole coins is 0 or at least 10^-256, and at most 2^64. */
  lemma UnitsRange(amount: uint64, decimals: byte)
    ensures 0.0 <= Units(amount, decimals) <= 0x1_0000_0000_0000_0000 as real
    ensures amount > 0 ==> Units(amount, decimals) * TEN256 >= 1.0
  {
    UnitsBelow(amount, decimals);
    if amount > 0 {
      UnitsAtLeast(amount, decimals, 256);
      Pow10Of256();
    }
  }

  lemma UnitsBelow(amount: nat, decimals: nat)
    ensures 0.0 <= Units(amount, decimals) <= amount as real
  {
  }

  lemma QuotientRange(u: real, w: real, m: real, d: real)
    requires 0.0 <= u <= m && 0.0 < w && w * d >= 1.0 && d > 0.0
    ensures 0.0 <= u / w <= m * d
  {
    var q := u / w;
    assert q * w == u;
    assert q >= 0.0;
    assert q <= q * (w * d) == u * d <= m * d;
  }

  /** The quotient of two 64-bit totals scaled by at most 255 decimals never leaves the range of finite floats. */
  lemma GroupPriceIsFinite(ts: seq<Transfer>, v: View)
    requires Resolvable(ts, v)
    ensures Finite(GroupPrice(ts, v))
  {
    var pairs := GreedyPairs(ts, v);
    if pairs != [] {
      var last := pairs[|pairs| - 1];
      var (u, w) := (Wrap64(SumUsdc(ts, v, pairs)), Wrap64(SumWsol(ts, v, pairs)));
      var (du, dw) := (v[ts[UsdcLeg(ts, v, last)].from].decimals, v[ts[WsolLeg(ts, v, last)].from].decimals);
      UnitsRange(u, du);
      UnitsRange(w, dw);
      UnitsSign(w, dw);
      if w > 0 {
        QuotientRange(Units(u, du), Units(w, dw), 0x1_0000_0000_0000_0000 as real, TEN256);
      }
    }
  }

  lemma PositivePricesAreFinite(groups: seq<seq<Transfer>>, v: View)
    ensures forall x | x in PositivePrices(groups, v) :: Finite(x) && x > 0.0
  {
    forall g | 0 <= g < |groups|
      ensures forall x | x in Pricer(v)(groups[g]) :: Finite(x) && x > 0.0
    {
      if SwapLegs(groups[g], v) {
        GroupPriceIsFinite(groups[g], v);
      }
    }
    FlatMapMembers(Pricer(v), groups);
  }

  lemma StepPricesAreFinite(a: Applied)
    ensures forall x | x in StepPrices()(a) :: Finite(x) && x > 0.0
  {
    if InRange(a.tx) && a.changed {
      PositivePricesAreFinite(Groups(a.tx, a.view), a.view);
    }
  }

  lemma BlockPricesAreFinite(txs: seq<Transaction>, views: seq<View>, changes: seq<bool>)
    requires Aligned(txs, views, changes)
    ensures forall x | x in BlockPrices(txs, views, changes) :: Finite(x) && x > 0.0
  {
    var steps := AppliedSteps(txs, views, changes);
    forall t | 0 <= t < |steps|
      ensures forall x | x in StepPrices()(steps[t]) :: Finite(x) && x > 0.0
    {
      StepPricesAreFinite(steps[t]);
    }
    FlatMapMembers(StepPrices(), steps);
  }

  // ----- The whole block -----

  lemma BlockPricesExtend(txs: seq<Transaction>, views: seq<View>, changes: seq<bool>, w: View, changed: bool)
    requires Aligned(txs, views, changes) && |changes| < |txs|
    ensures BlockPrices(txs, views + [w], changes + [changed]) ==
            BlockPrices(txs, views, changes) + StepPrices()(Applied(txs[|changes|], w, changed))
  {
    var steps, all := AppliedSteps(txs, views, changes), AppliedSteps(txs, views + [w], changes + [changed]);
    assert all[..|all| - 1] == steps;
  }

  /** One transaction: fill the account map, which then holds w, and price its swaps when balances changed. */
  method PriceTransaction(tx: Transaction, innerMap: map<nat, seq<Instruction>>, accounts: TokenAccountMap)
    returns (prices: seq<real>, hasChange: bool, ghost w: View)
    requires InRange(tx) && innerMap == InnerMap(tx.inner) && accounts.Valid()
    modifies accounts, accounts.entries.Values
    ensures accounts.Valid() && fresh(accounts.entries.Values - old(accounts.entries.Values))
    ensures FillStep(old(accounts.View()), tx, w, hasChange) && w == accounts.View()
    ensures prices == PricesOfStep(tx, w, hasChange)
  {
    hasChange := FillTokenAccountMap(tx, accounts);
    w := accounts.View();
    if !hasChange {
      return [], false, w;
    }
    prices := GetSolPriceBySwap(innerMap, accounts, tx);
  }

  /** One iteration of the loop over the transactions of a block. */
  method PriceNext(txs: seq<Transaction>, i: nat, innerMap: map<nat, seq<Instruction>>, accounts: TokenAccountMap,
                   ghost views: seq<View>, ghost changes: seq<bool>)
    returns (more: seq<real>, ghost views': seq<View>, ghost changes': seq<bool>)
    requires BlockRunPrefix(txs, views, changes) && i == |changes| < |txs| && innerMap == InnerMap(txs[i].inner)
    requires accounts.Valid() && accounts.View() == views[i]
    modifies accounts, accounts.entries.Values
    ensures accounts.Valid() && fresh(accounts.entries.Values - old(accounts.entries.Values))
    ensures BlockRunPrefix(txs, views', changes') && |changes'| == i + 1 && accounts.View() == views'[i + 1]
    ensures BlockPrices(txs, views', changes') == BlockPrices(txs, views, changes) + more
  {
    var hasChange;
    ghost var w;
    more, hasChange, w := PriceTransaction(txs[i], innerMap, accounts);
    BlockRunExtends(txs, views, changes, w, hasChange);
    BlockPricesExtend(txs, views, changes, w, hasChange);
    views', changes' := views + [w], changes + [hasChange];
  }

  /** The loop over the transactions of a block. */
  method PriceTransactions(txs: seq<Transaction>)
    returns (accounts: TokenAccountMap, prices: seq<real>, ghost views: seq<View>, ghost changes: seq<bool>)
    requires forall t | 0 <= t < |txs| :: InRange(txs[t])
    ensures fresh(accounts) && fresh(accounts.entries.Values)
    ensures BlockRun(txs, views, changes) && accounts.View() == views[|txs|]
    ensures prices == BlockPrices(txs, views, changes)
  {
    prices := [];
    accounts := new TokenAccountMap();
    views, changes := [accounts.View()], [];
    for i := 0 to |txs|
      invariant fresh(accounts) && fresh(accounts.entries.Values) && accounts.Valid()
      invariant BlockRunPrefix(txs, views, changes) && |changes| == i
      invariant accounts.View() == views[i]
      invariant prices == BlockPrices(txs, views, changes)
    {
      var innerMap := MakeInnerInstWithOuterMap(txs[i].inner);
      var more;
      more, views, changes := PriceNext(txs, i, innerMap, accounts, views, changes);
      prices := prices + more;
    }
  }

  /** The fallbacks behind the aggregate. */
  method SettlePrice(prices: seq<real>, rowPrice: real, nearPrice: Option<real>) returns (price: real)
    requires forall i | 0 <= i < |prices| :: Finite(prices[i])
    ensures price == SettledPrice(prices, rowPrice, nearPrice)
  {
    var finalPrice := RemoveMinAndMaxAndCalculateAverage(prices);
    if finalPrice > 0.0 {
      return finalPrice;
    }
    if rowPrice > 0.0 {
      return rowPrice;
    }
    if nearPrice.Some? {
      return nearPrice.value;
    }
    return 0.0;
  }

  method GetSolPrice(txs: seq<Transaction>, rowPrice: real, nearPrice: Option<real>)
    returns (accounts: TokenAccountMap, price: real, ghost views: seq<View>, ghost changes: seq<bool>)
    requires forall t | 0 <= t < |txs| :: InRange(txs[t])
    ensures fresh(accounts) && fresh(accounts.entries.Values)
    ensures BlockRun(txs, views, changes) && accounts.View() == views[|txs|]
    ensures price == SettledPrice(BlockPrices(txs, views, changes), rowPrice, nearPrice)
  {
    var prices;
    accounts, prices, views, changes := PriceTransactions(txs);
    BlockPricesAreFinite(txs, views, changes);
    price := SettlePrice(prices, rowPrice, nearPrice);
  }
}
