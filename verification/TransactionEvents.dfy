/** Which events a transaction consists of, read off its records and instructions, and what they leave in the map. */
module TransactionEvents {
  import opened GoArith
  import opened Picking
  import opened Chain
  import opened TokenAccounts
  import opened AccountHistory

  // ----- Instructions that initialize an account -----

  /** An InitializeAccount (1), InitializeAccount2 (16) or InitializeAccount3 (18) instruction of a token program, long
      enough for its form: its account, owner and mint. */
  function Initializing(keys: seq<Address>): Instruction -> Option<Event> {
    (inst: Instruction) =>
      if !InstructionInRange(inst, keys) || keys[inst.program] !in {TOKEN_PROGRAM, TOKEN_2022_PROGRAM} then None
      else if inst.data[0] == 1 && |inst.accounts| >= 3 then
        Some(Init(keys[inst.accounts[0]], keys[inst.accounts[2]], keys[inst.accounts[1]]))
      else if inst.data[0] in {16, 18} && |inst.accounts| >= 2 && |inst.data| >= 33 then
        Some(Init(keys[inst.accounts[0]], inst.dataOwner, keys[inst.accounts[1]]))
      else None
  }

  lemma InitializesIff(inst: Instruction, keys: seq<Address>)
    requires InstructionInRange(inst, keys)
    ensures InstructionEvents(inst, keys) == IfPicked(Initializing(keys), inst)
  {
  }

  lemma InitEventsNext(insts: seq<Instruction>, keys: seq<Address>)
    requires InstructionsInRange(insts, keys) && insts != []
    ensures InitEvents(insts, keys) ==
            InitEvents(insts[..|insts| - 1], keys) + IfPicked(Initializing(keys), insts[|insts| - 1])
  {
    InitializesIff(insts[|insts| - 1], keys);
  }

  lemma {:induction false} InitEventsListed(insts: seq<Instruction>, keys: seq<Address>)
    requires InstructionsInRange(insts, keys)
    ensures Picks(Initializing(keys), insts, InitEvents(insts, keys))
  {
    if insts == [] {
      PicksNone(Initializing(keys));
    } else {
      InitEventsListed(insts[..|insts| - 1], keys);
      InitEventsNext(insts, keys);
      PicksLast(Initializing(keys), insts, InitEvents(insts[..|insts| - 1], keys));
    }
  }

  function InstructionsOf(): InnerInstruction -> seq<Instruction> {
    (inner: InnerInstruction) => inner.instructions
  }

  lemma {:induction false} InnerInitEventsListed(inner: seq<InnerInstruction>, keys: seq<Address>)
    requires forall i | 0 <= i < |inner| :: InstructionsInRange(inner[i].instructions, keys)
    ensures Picks(Initializing(keys), FlatMap(InstructionsOf(), inner), InnerInitEvents(inner, keys))
  {
    if inner == [] {
      PicksNone(Initializing(keys));
    } else {
      var n := |inner| - 1;
      InnerInitEventsListed(inner[..n], keys);
      InitEventsListed(inner[n].instructions, keys);
      PicksConcat(Initializing(keys), FlatMap(InstructionsOf(), inner[..n]), InnerInitEvents(inner[..n], keys),
                  inner[n].instructions, InitEvents(inner[n].instructions, keys));
    }
  }

  // ----- The events of a transaction -----

  /** The outer instructions, then the inner ones, record by record. */
  function AllInstructions(tx: Transaction): seq<Instruction> {
    tx.instructions + FlatMap(InstructionsOf(), tx.inner)
  }

  lemma BalancesListed(items: seq<TokenBalance>, keys: seq<Address>)
    requires BalancesInRange(items, keys)
    ensures |PreEvents(items, keys)| == |items| && |PostEvents(items, keys)| == |items|
    ensures forall i | 0 <= i < |items| ::
      PreEvents(items, keys)[i] == PreOf(items[i], keys) && PostEvents(items, keys)[i] == PostOf(items[i], keys)
  {
  }

  lemma EventsSplit(tx: Transaction)
    requires InRange(tx)
    ensures EventsOf(tx) == PreEvents(tx.preBalances, tx.keys) + PostEvents(tx.postBalances, tx.keys)
                            + (InitEvents(tx.instructions, tx.keys) + InnerInitEvents(tx.inner, tx.keys))
  {
  }

  /** All initialize instructions, outer ones first. */
  lemma InitsListed(tx: Transaction)
    requires InRange(tx)
    ensures Picks(Initializing(tx.keys), AllInstructions(tx),
                  InitEvents(tx.instructions, tx.keys) + InnerInitEvents(tx.inner, tx.keys))
  {
    InitEventsListed(tx.instructions, tx.keys);
    InnerInitEventsListed(tx.inner, tx.keys);
    PicksConcat(Initializing(tx.keys), tx.instructions, InitEvents(tx.instructions, tx.keys),
                FlatMap(InstructionsOf(), tx.inner), InnerInitEvents(tx.inner, tx.keys));
  }

  function PreOf(b: TokenBalance, keys: seq<Address>): Event
    requires b.account < |keys|
  {
    Pre(keys[b.account], b.owner, b.mint, b.amount, b.decimals)
  }

  function PostOf(b: TokenBalance, keys: seq<Address>): Event
    requires b.account < |keys|
  {
    Post(keys[b.account], b.owner, b.mint, b.amount, b.decimals)
  }

  /** The events are the pre balances, the post balances, and the initialize instructions, outer ones first. */
  lemma EventsListed(tx: Transaction) returns (pre: seq<Event>, post: seq<Event>, inits: seq<Event>)
    requires InRange(tx)
    ensures EventsOf(tx) == pre + post + inits && |pre| == |tx.preBalances| && |post| == |tx.postBalances|
    ensures forall i | 0 <= i < |pre| :: pre[i] == PreOf(tx.preBalances[i], tx.keys)
    ensures forall i | 0 <= i < |post| :: post[i] == PostOf(tx.postBalances[i], tx.keys)
    ensures Picks(Initializing(tx.keys), AllInstructions(tx), inits)
  {
    pre, post := PreEvents(tx.preBalances, tx.keys), PostEvents(tx.postBalances, tx.keys);
    inits := InitEvents(tx.instructions, tx.keys) + InnerInitEvents(tx.inner, tx.keys);
    EventsSplit(tx);
    InitsListed(tx);
    BalancesListed(tx.preBalances, tx.keys);
    BalancesListed(tx.postBalances, tx.keys);
  }

  /** Where inner instruction i of record r stands among all instructions. */
  function InnerPosition(tx: Transaction, r: nat, i: nat): nat
    requires r < |tx.inner|
  {
    |tx.instructions| + |FlatMap(InstructionsOf(), tx.inner[..r])| + i
  }

  lemma InnerPositionHolds(tx: Transaction, r: nat, i: nat)
    requires r < |tx.inner| && i < |tx.inner[r].instructions|
    ensures InnerPosition(tx, r, i) < |AllInstructions(tx)|
    ensures AllInstructions(tx)[InnerPosition(tx, r, i)] == tx.inner[r].instructions[i]
  {
    var front := FlatMap(InstructionsOf(), tx.inner[..r]);
    FlatMapNext(InstructionsOf(), tx.inner, 0, r);
    assert tx.inner[0..r] == tx.inner[..r] && tx.inner[0..r + 1] == tx.inner[..r + 1];
    assert tx.inner == tx.inner[..r + 1] + tx.inner[r + 1..];
    FlatMapConcat(InstructionsOf(), tx.inner[..r + 1], tx.inner[r + 1..]);
  }

  // ----- What initializing leaves behind -----

  lemma {:induction false} InitStays(v: View, es: seq<Event>, m: nat)
    requires m < |es| && es[m].Init?
    ensures es[m].account in ApplyAll(v, es)
    ensures (forall j | m < j < |es| && es[j].Init? :: es[j].account != es[m].account) ==>
      ApplyAll(v, es)[es[m].account].mint == es[m].mint
  {
    var n := |es| - 1;
    if m < n {
      InitStays(v, es[..n], m);
    }
  }

  /** Picked instruction n initializes an account. */
  predicate IsPickedInit(f: Instruction -> Option<Event>, all: seq<Instruction>, n: nat, e: Event) {
    n < |all| && f(all[n]) == Some(e) && e.Init?
  }

  /** No picked instruction after n names the account. */
  ghost predicate LastToName(f: Instruction -> Option<Event>, all: seq<Instruction>, n: nat, account: Address) {
    forall m | n < m < |all| && f(all[m]).Some? :: f(all[m]).value.account != account
  }

  lemma LaterPicked(f: Instruction -> Option<Event>, all: seq<Instruction>, picked: seq<Event>, n: nat, j: nat,
                    account: Address)
    requires Picks(f, all, picked) && n < |all| && LastToName(f, all, n, account)
    requires CountPicked(f, all, n) < j < |picked|
    ensures picked[j].account != account
  {
    var m := PickedAt(f, all, |all|, j);
    if m <= n {
      CountPickedGrows(f, all, m, n);
    }
  }

  /** Events that end with what was picked. */
  lemma PickedInitStays(v: View, before: seq<Event>, picked: seq<Event>, f: Instruction -> Option<Event>,
                        all: seq<Instruction>, n: nat, e: Event)
    requires Picks(f, all, picked) && IsPickedInit(f, all, n, e)
    ensures e.account in ApplyAll(v, before + picked)
    ensures LastToName(f, all, n, e.account) ==> ApplyAll(v, before + picked)[e.account].mint == e.mint
  {
    var k := CountPicked(f, all, n);
    ApplyAllConcat(v, before, picked);
    InitStays(ApplyAll(v, before), picked, k);
    if LastToName(f, all, n, e.account) {
      forall j | k < j < |picked|
        ensures picked[j].account != e.account
      {
        LaterPicked(f, all, picked, n, j, e.account);
      }
    }
  }

  /** The pass changes neither the accounts nor their mints. */
  lemma FillKeepsMints(v: View, tx: Transaction, w: View, changed: bool, k: Address)
    requires InRange(tx) && FillStep(v, tx, w, changed) && k in ApplyAll(v, EventsOf(tx))
    ensures k in w && w[k].mint == ApplyAll(v, EventsOf(tx))[k].mint
  {
  }

  /** An account that an instruction initializes, outer or inner, is in the map afterwards, with that mint unless a
      later instruction initializes it again. */
  lemma InitializedIsEntered(v: View, tx: Transaction, w: View, changed: bool, n: nat, e: Event)
    requires InRange(tx) && FillStep(v, tx, w, changed)
    requires n < |AllInstructions(tx)| && Initializing(tx.keys)(AllInstructions(tx)[n]) == Some(e)
    ensures e.account in w
    ensures LastToName(Initializing(tx.keys), AllInstructions(tx), n, e.account) ==> w[e.account].mint == e.mint
  {
    var pre, post, inits := EventsListed(tx);
    PickedInitStays(v, pre + post, inits, Initializing(tx.keys), AllInstructions(tx), n, e);
    FillKeepsMints(v, tx, w, changed, e.account);
  }

  /** In particular an account that only an inner instruction initializes. */
  lemma InnerInitializedIsEntered(v: View, tx: Transaction, w: View, changed: bool, r: nat, i: nat, e: Event)
    requires InRange(tx) && FillStep(v, tx, w, changed)
    requires r < |tx.inner| && i < |tx.inner[r].instructions|
    requires Initializing(tx.keys)(tx.inner[r].instructions[i]) == Some(e)
    ensures e.account in w
    ensures LastToName(Initializing(tx.keys), AllInstructions(tx), InnerPosition(tx, r, i), e.account) ==>
      w[e.account].mint == e.mint
  {
    InnerPositionHolds(tx, r, i);
    InitializedIsEntered(v, tx, w, changed, InnerPosition(tx, r, i), e);
  }

  /** Every account of a balance record is in the map afterwards. */
  lemma PreIsEntered(v: View, tx: Transaction, w: View, changed: bool, i: nat)
    requires InRange(tx) && FillStep(v, tx, w, changed) && i < |tx.preBalances|
    ensures tx.keys[tx.preBalances[i].account] in w
  {
    var pre, post, inits := EventsListed(tx);
    EventIsEntered(v, pre, post + inits, i);
    assert pre + post + inits == pre + (post + inits);
  }

  lemma PostIsEntered(v: View, tx: Transaction, w: View, changed: bool, i: nat)
    requires InRange(tx) && FillStep(v, tx, w, changed) && i < |tx.postBalances|
    ensures tx.keys[tx.postBalances[i].account] in w
  {
    var pre, post, inits := EventsListed(tx);
    EventIsEntered(v, pre + post, inits, |pre| + i);
  }

  lemma EventIsEntered(v: View, es: seq<Event>, fs: seq<Event>, m: nat)
    requires m < |es|
    ensures es[m].account in ApplyAll(v, es + fs)
  {
    NamedIsEntered(v, es, m);
    ApplyAllConcat(v, es, fs);
    ApplyAllKeepsKeys(ApplyAll(v, es), fs);
  }

  lemma {:induction false} NamedIsEntered(v: View, es: seq<Event>, m: nat)
    requires m < |es|
    ensures es[m].account in ApplyAll(v, es)
  {
    var n := |es| - 1;
    if m < n {
      NamedIsEntered(v, es[..n], m);
    }
  }

  // ----- Decimals without the pass -----

  /** The decimals of the last post balance since position b that names k and has any, or else those of the birth. */
  function DecimalsSince(es: seq<Event>, k: Address, b: nat): byte {
    if |es| <= b then 0
    else
      var e := es[|es| - 1];
      if e.Post? && e.account == k && e.decimals != 0 then e.decimals
      else if |es| == b + 1 then (if e.Pre? then e.decimals else 0)
      else DecimalsSince(es[..|es| - 1], k, b)
  }

  /** Without the passes an entry has the decimals of its birth until a post balance brings others. */
  lemma {:induction false} DecimalsExplained(es: seq<Event>, k: Address)
    requires k in ApplyAll(map[], es)
    ensures Birth(es, k).Some? && ApplyAll(map[], es)[k].decimals == DecimalsSince(es, k, Birth(es, k).value)
  {
    ReplayExplained(es, k);
    var n := |es| - 1;
    ReplayExplained(es[..n], k);
    if k in ApplyAll(map[], es[..n]) {
      DecimalsExplained(es[..n], k);
    }
  }
}
