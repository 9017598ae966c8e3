/** The token account map: heap objects updated in place by every transaction of a block, and the
    value-level view of them that the properties are stated about. */
module TokenAccounts {
  import opened GoArith
  import opened Chain

  /** The value of one entry. */
  datatype Account = Account(
    owner: Address, address: Address, mint: Address, decimals: byte, preValue: int, postValue: int, closed: bool)

  type View = map<Address, Account>

  class TokenAccount {
    var owner: Address
    var tokenAccountAddress: Address
    var tokenMintAccountAddress: Address
    var tokenDecimal: byte
    var preValue: int
    var postValue: int
    var closed: bool

    constructor (a: Account)
      ensures View() == a
    {
      owner, tokenAccountAddress, tokenMintAccountAddress := a.owner, a.address, a.mint;
      tokenDecimal, preValue, postValue, closed := a.decimals, a.preValue, a.postValue, a.closed;
    }

    function View(): Account
      reads this
    {
      Account(owner, tokenAccountAddress, tokenMintAccountAddress, tokenDecimal, preValue, postValue, closed)
    }
  }

  /** Go's map[string]*entity.TokenAccount: a shared map of shared, mutable entries. */
  class TokenAccountMap {
    var entries: map<Address, TokenAccount>

    constructor ()
      ensures Valid() && entries == map[]
    {
      entries := map[];
    }

    /** No two keys share an entry object. */
    ghost predicate Valid()
      reads this
    {
      forall k, j | k in entries && j in entries && k != j :: entries[k] != entries[j]
    }

    function View(): View
      reads this, entries.Values
    {
      map k | k in entries :: entries[k].View()
    }
  }

  // ----- What one transaction says about token accounts -----

  datatype Event =
    | Pre(account: Address, owner: Address, mint: Address, amount: int, decimals: byte)
    | Post(account: Address, owner: Address, mint: Address, amount: int, decimals: byte)
    | Init(account: Address, owner: Address, mint: Address)

  function PreEvents(items: seq<TokenBalance>, keys: seq<Address>): seq<Event>
    requires BalancesInRange(items, keys)
  {
    seq(|items|, i requires 0 <= i < |items| =>
      Pre(keys[items[i].account], items[i].owner, items[i].mint, items[i].amount, items[i].decimals))
  }

  function PostEvents(items: seq<TokenBalance>, keys: seq<Address>): seq<Event>
    requires BalancesInRange(items, keys)
  {
    seq(|items|, i requires 0 <= i < |items| =>
      Post(keys[items[i].account], items[i].owner, items[i].mint, items[i].amount, items[i].decimals))
  }

  /** The account that a token-program instruction initializes, if it is long enough to name one. */
  function InitializeTarget(inst: Instruction, keys: seq<Address>): Option<Event>
    requires inst.data != [] && InitializeInRange(inst, keys)
  {
    if inst.data[0] == INITIALIZE_ACCOUNT then
      if |inst.accounts| < 3 then None
      else Some(Init(keys[inst.accounts[0]], keys[inst.accounts[2]], keys[inst.accounts[1]]))
    else if inst.data[0] == INITIALIZE_ACCOUNT_2 || inst.data[0] == INITIALIZE_ACCOUNT_3 then
      if |inst.accounts| < 2 || |inst.data| < 33 then None
      else Some(Init(keys[inst.accounts[0]], inst.dataOwner, keys[inst.accounts[1]]))
    else None
  }

  function InstructionEvents(inst: Instruction, keys: seq<Address>): seq<Event>
    requires InstructionInRange(inst, keys)
  {
    if !IsTokenProgram(keys[inst.program]) then []
    else match InitializeTarget(inst, keys)
      case None => []
      case Some(e) => [e]
  }

  function InitEvents(insts: seq<Instruction>, keys: seq<Address>): seq<Event>
    requires InstructionsInRange(insts, keys)
  {
    if insts == [] then []
    else InitEvents(insts[..|insts| - 1], keys) + InstructionEvents(insts[|insts| - 1], keys)
  }

  function InnerInitEvents(inner: seq<InnerInstruction>, keys: seq<Address>): seq<Event>
    requires forall i | 0 <= i < |inner| :: InstructionsInRange(inner[i].instructions, keys)
  {
    if inner == [] then []
    else InnerInitEvents(inner[..|inner| - 1], keys) + InitEvents(inner[|inner| - 1].instructions, keys)
  }

  /** Everything one transaction reports, in the order in which it is applied. */
  function EventsOf(tx: Transaction): seq<Event>
    requires InRange(tx)
  {
    PreEvents(tx.preBalances, tx.keys) + PostEvents(tx.postBalances, tx.keys)
    + InitEvents(tx.instructions, tx.keys) + InnerInitEvents(tx.inner, tx.keys)
  }

  // ----- The effect of events on the view -----

  function ApplyEvent(v: View, e: Event): View {
    match e
    case Pre(k, owner, mint, amount, decimals) =>
      if k in v then v else v[k := Account(owner, k, mint, decimals, amount, 0, true)]
    case Post(k, owner, mint, amount, decimals) =>
      if k in v then
        v[k := v[k].(closed := false, postValue := amount,
                     decimals := if decimals != 0 then decimals else v[k].decimals)]
      else v[k := Account(owner, k, mint, decimals, 0, amount, false)]
    case Init(k, owner, mint) =>
      if k in v && v[k].mint == mint then v
      else v[k := Account(owner, k, mint, 0, 0, 0, false)]
  }

  function ApplyAll(v: View, es: seq<Event>): View {
    if es == [] then v else ApplyEvent(ApplyAll(v, es[..|es| - 1]), es[|es| - 1])
  }

  /** A post balance found its account already in the map, holding another PreValue. */
  predicate ReportsChange(v: View, e: Event) {
    e.Post? && e.account in v && v[e.account].preValue != e.amount
  }

  /** Some event reports a change when it is reached (see HasChangeIff). */
  predicate HasChange(v: View, es: seq<Event>) {
    es != [] && (HasChange(v, es[..|es| - 1]) || ReportsChange(ApplyAll(v, es[..|es| - 1]), es[|es| - 1]))
  }

  // ----- The decimals pass -----

  /** Accounts of one mint hold one number of decimals. */
  ghost predicate UniformDecimals(v: View) {
    forall k, j | k in v && j in v && v[k].mint == v[j].mint :: v[k].decimals == v[j].decimals
  }

  /** Some account of that mint held these decimals. */
  ghost predicate HeldDecimals(v: View, mint: Address, decimals: byte) {
    exists j :: j in v && v[j].mint == mint && v[j].decimals == decimals
  }

  /** All that the pass may do: whichever order the map is walked in, one of the held values wins for each mint. */
  ghost predicate DecimalsPass(v: View, w: View) {
    && w.Keys == v.Keys
    && UniformDecimals(w)
    && forall k {:trigger w[k]} | k in v ::
      w[k] == v[k].(decimals := w[k].decimals) && HeldDecimals(v, v[k].mint, w[k].decimals)
  }

  /** The events of one transaction, then the decimals pass. */
  ghost predicate Fills(v: View, es: seq<Event>, w: View, changed: bool) {
    DecimalsPass(ApplyAll(v, es), w) && changed == HasChange(v, es)
  }

  /** One call of FillTokenAccountMap. */
  ghost predicate FillStep(v: View, tx: Transaction, w: View, changed: bool)
    requires InRange(tx)
  {
    Fills(v, EventsOf(tx), w, changed)
  }

  lemma ApplyAllConcat(v: View, es: seq<Event>, fs: seq<Event>)
    ensures ApplyAll(v, es + fs) == ApplyAll(ApplyAll(v, es), fs)
  {
    if fs == [] {
      assert es + fs == es;
    } else {
      var n := |fs| - 1;
      assert (es + fs)[..|es + fs| - 1] == es + fs[..n];
      ApplyAllConcat(v, es, fs[..n]);
    }
  }

  lemma HasChangeExtends(v: View, es: seq<Event>, e: Event)
    ensures HasChange(v, es + [e]) <==> HasChange(v, es) || ReportsChange(ApplyAll(v, es), e)
  {
    assert (es + [e])[..|es + [e]| - 1] == es;
  }

  /** Event i reports a change when it is reached. */
  predicate ReportsAt(v: View, es: seq<Event>, i: nat)
    requires i < |es|
  {
    ReportsChange(ApplyAll(v, es[..i]), es[i])
  }

  lemma {:induction false} HasChangeUpTo(v: View, es: seq<Event>, n: nat)
    requires n <= |es|
    ensures HasChange(v, es[..n]) <==> exists i :: 0 <= i < n && ReportsAt(v, es, i)
  {
    if n > 0 {
      HasChangeUpTo(v, es, n - 1);
      assert es[..n] == es[..n - 1] + [es[n - 1]];
      HasChangeExtends(v, es[..n - 1], es[n - 1]);
      assert ReportsAt(v, es, n - 1) == ReportsChange(ApplyAll(v, es[..n - 1]), es[n - 1]);
    }
  }

  /** hasChange is true exactly when some post balance found its account in the map with another PreValue. */
  lemma HasChangeIff(v: View, es: seq<Event>)
    ensures HasChange(v, es) <==> exists i :: 0 <= i < |es| && ReportsAt(v, es, i)
  {
    HasChangeUpTo(v, es, |es|);
    assert es[..|es|] == es;
  }

  /** Only post balances report changes. */
  lemma HasChangeIgnores(v: View, es: seq<Event>, fs: seq<Event>)
    requires forall i | 0 <= i < |fs| :: !fs[i].Post?
    ensures HasChange(v, es + fs) <==> HasChange(v, es)
  {
    if fs == [] {
      assert es + fs == es;
    } else {
      var n := |fs| - 1;
      HasChangeIgnores(v, es, fs[..n]);
      HasChangeExtends(v, es + fs[..n], fs[n]);
      assert es + fs == es + fs[..n] + [fs[n]];
    }
  }

  lemma InitEventsAreInits(insts: seq<Instruction>, keys: seq<Address>)
    requires InstructionsInRange(insts, keys)
    ensures forall i | 0 <= i < |InitEvents(insts, keys)| :: InitEvents(insts, keys)[i].Init?
  {
  }

  lemma InnerInitEventsAreInits(inner: seq<InnerInstruction>, keys: seq<Address>)
    requires forall i | 0 <= i < |inner| :: InstructionsInRange(inner[i].instructions, keys)
    ensures forall i | 0 <= i < |InnerInitEvents(inner, keys)| :: InnerInitEvents(inner, keys)[i].Init?
  {
    if inner != [] {
      InitEventsAreInits(inner[|inner| - 1].instructions, keys);
    }
  }

  /** Applying a transaction's events phase by phase; the post balances alone decide hasChange. */
  lemma FillByPhases(v: View, tx: Transaction)
    requires InRange(tx)
    ensures
      var afterPre := ApplyAll(v, PreEvents(tx.preBalances, tx.keys));
      var afterPost := ApplyAll(afterPre, PostEvents(tx.postBalances, tx.keys));
      var afterOuter := ApplyAll(afterPost, InitEvents(tx.instructions, tx.keys));
      && ApplyAll(v, EventsOf(tx)) == ApplyAll(afterOuter, InnerInitEvents(tx.inner, tx.keys))
      && HasChange(v, EventsOf(tx)) == HasChange(afterPre, PostEvents(tx.postBalances, tx.keys))
  {
    var pre, post := PreEvents(tx.preBalances, tx.keys), PostEvents(tx.postBalances, tx.keys);
    var outer, inner := InitEvents(tx.instructions, tx.keys), InnerInitEvents(tx.inner, tx.keys);
    ApplyAllConcat(v, pre, post);
    ApplyAllConcat(v, pre + post, outer);
    ApplyAllConcat(v, pre + post + outer, inner);
    InitEventsAreInits(tx.instructions, tx.keys);
    InnerInitEventsAreInits(tx.inner, tx.keys);
    HasChangeIgnores(v, pre + post, outer);
    HasChangeIgnores(v, pre + post + outer, inner);
    HasChangeFrom(v, pre, post);
  }

  lemma {:induction false} HasChangeFrom(v: View, pre: seq<Event>, post: seq<Event>)
    requires forall i | 0 <= i < |pre| :: !pre[i].Post?
    ensures HasChange(v, pre + post) == HasChange(ApplyAll(v, pre), post)
  {
    if post == [] {
      HasChangeIgnores(v, [], pre);
      assert [] + pre == pre == pre + post;
    } else {
      var init, last := post[..|post| - 1], post[|post| - 1];
      assert pre + post == pre + init + [last] && post == init + [last];
      HasChangeFrom(v, pre, init);
      ApplyAllConcat(v, pre, init);
      HasChangeExtends(v, pre + init, last);
      HasChangeExtends(ApplyAll(v, pre), init, last);
    }
  }

  // ----- The methods -----

  /** A new entry, in place of any other under its key. */
  method PutEntry(key: Address, a: Account, accounts: TokenAccountMap)
    requires accounts.Valid()
    modifies accounts
    ensures accounts.Valid() && fresh(accounts.entries.Values - old(accounts.entries.Values))
    ensures accounts.View() == old(accounts.View())[key := a]
  {
    var entry := new TokenAccount(a);
    accounts.entries := accounts.entries[key := entry];
  }

  /** The body of the loop over pre balances. */
  method AddPreBalance(item: TokenBalance, keys: seq<Address>, accounts: TokenAccountMap)
    requires item.account < |keys| && accounts.Valid()
    modifies accounts
    ensures accounts.Valid() && fresh(accounts.entries.Values - old(accounts.entries.Values))
    ensures accounts.View() == ApplyEvent(old(accounts.View()),
      Pre(keys[item.account], item.owner, item.mint, item.amount, item.decimals))
  {
    var key := keys[item.account];
    if key !in accounts.entries {
      PutEntry(key, Account(item.owner, key, item.mint, item.decimals, item.amount, 0, true), accounts);
    }
  }

  /** The assignments to an entry; changed is true when its PreValue differs. */
  method PostTo(item: TokenBalance, tokenAccount: TokenAccount) returns (changed: bool)
    modifies tokenAccount
    ensures tokenAccount.View() == old(tokenAccount.View()).(
      closed := false, postValue := item.amount,
      decimals := if item.decimals != 0 then item.decimals else old(tokenAccount.tokenDecimal))
    ensures changed == (old(tokenAccount.preValue) != item.amount)
  {
    tokenAccount.closed := false;
    tokenAccount.postValue := item.amount;
    changed := tokenAccount.postValue != tokenAccount.preValue;
    if item.decimals != 0 {
      tokenAccount.tokenDecimal := item.decimals;
    }
  }

  /** A post balance of a known account: its entry is updated in place. */
  method UpdateEntry(item: TokenBalance, key: Address, accounts: TokenAccountMap) returns (changed: bool)
    requires key in accounts.entries && accounts.Valid()
    modifies accounts.entries[key]
    ensures accounts.View() ==
      ApplyEvent(old(accounts.View()), Post(key, item.owner, item.mint, item.amount, item.decimals))
    ensures changed == (old(accounts.View())[key].preValue != item.amount)
  {
    changed := PostTo(item, accounts.entries[key]);
  }

  /** The body of the loop over post balances; changed is true when it sets hasChange. */
  method AddPostBalance(item: TokenBalance, keys: seq<Address>, accounts: TokenAccountMap) returns (changed: bool)
    requires item.account < |keys| && accounts.Valid()
    modifies accounts, accounts.entries.Values
    ensures accounts.Valid() && fresh(accounts.entries.Values - old(accounts.entries.Values))
    ensures accounts.View() == ApplyEvent(old(accounts.View()),
      Post(keys[item.account], item.owner, item.mint, item.amount, item.decimals))
    ensures changed == ReportsChange(old(accounts.View()),
      Post(keys[item.account], item.owner, item.mint, item.amount, item.decimals))
  {
    changed := false;
    var key := keys[item.account];
    if key in accounts.entries {
      changed := UpdateEntry(item, key, accounts);
    } else {
      PutEntry(key, Account(item.owner, key, item.mint, item.decimals, 0, item.amount, false), accounts);
    }
  }

  /** Enters or replaces one account, unless it is known with this mint. */
  method EnterInitialized(account: Address, mint: Address, owner: Address, accounts: TokenAccountMap)
    returns (skip: bool)
    requires accounts.Valid()
    modifies accounts
    ensures accounts.Valid() && fresh(accounts.entries.Values - old(accounts.entries.Values))
    ensures accounts.View() == ApplyEvent(old(accounts.View()), Init(account, owner, mint))
    ensures skip == (account in old(accounts.View()) && old(accounts.View())[account].mint == mint)
  {
    if account in accounts.entries && accounts.entries[account].tokenMintAccountAddress == mint {
      return true;
    }
    PutEntry(account, Account(owner, account, mint, 0, 0, 0, false), accounts);
    skip := false;
  }

  /** Enters or replaces the account that an initialize instruction names; true when it does nothing. */
  method FilterIntializeAccount(inst: Instruction, keys: seq<Address>, accounts: TokenAccountMap) returns (skip: bool)
    requires inst.data != [] && InitializeInRange(inst, keys) && accounts.Valid()
    modifies accounts
    ensures accounts.Valid() && fresh(accounts.entries.Values - old(accounts.entries.Values))
    ensures match InitializeTarget(inst, keys)
      case None => skip && accounts.View() == old(accounts.View())
      case Some(e) =>
        && accounts.View() == ApplyEvent(old(accounts.View()), e)
        && skip == (e.account in old(accounts.View()) && old(accounts.View())[e.account].mint == e.mint)
  {
    var account, mint, owner;
    if inst.data[0] == INITIALIZE_ACCOUNT {
      if |inst.accounts| < 3 {
        return true;
      }
      account, mint, owner := keys[inst.accounts[0]], keys[inst.accounts[1]], keys[inst.accounts[2]];
    } else if inst.data[0] == INITIALIZE_ACCOUNT_2 || inst.data[0] == INITIALIZE_ACCOUNT_3 {
      if |inst.accounts| < 2 || |inst.data| < 33 {
        return true;
      }
      account, mint, owner := keys[inst.accounts[0]], keys[inst.accounts[1]], inst.dataOwner;
    } else {
      return true;
    }
    skip := EnterInitialized(account, mint, owner, accounts);
  }

  lemma OneEvent(v: View, e: Event)
    ensures ApplyAll(v, [e]) == ApplyEvent(v, e) && ApplyAll(v, []) == v
  {
    assert [e][..0] == [];
  }

  /** One iteration of the loop over a list of instructions. */
  method AddInitialized(inst: Instruction, keys: seq<Address>, accounts: TokenAccountMap)
    requires InstructionInRange(inst, keys) && accounts.Valid()
    modifies accounts
    ensures accounts.Valid() && fresh(accounts.entries.Values - old(accounts.entries.Values))
    ensures accounts.View() == ApplyAll(old(accounts.View()), InstructionEvents(inst, keys))
  {
    if IsTokenProgram(keys[inst.program]) {
      ghost var v := accounts.View();
      var _ := FilterIntializeAccount(inst, keys, accounts);
      match InitializeTarget(inst, keys)
      case None =>
      case Some(e) => OneEvent(v, e);
    }
  }

  lemma InitializesNext(v: View, insts: seq<Instruction>, keys: seq<Address>, i: nat)
    requires InstructionsInRange(insts, keys) && i < |insts|
    ensures ApplyAll(v, InitEvents(insts[..i + 1], keys)) ==
      ApplyAll(ApplyAll(v, InitEvents(insts[..i], keys)), InstructionEvents(insts[i], keys))
  {
    assert insts[..i + 1][..i] == insts[..i];
    ApplyAllConcat(v, InitEvents(insts[..i], keys), InstructionEvents(insts[i], keys));
  }

  /** The loop over one list of instructions. */
  method AddInitializedAccounts(insts: seq<Instruction>, keys: seq<Address>, accounts: TokenAccountMap)
    requires InstructionsInRange(insts, keys) && accounts.Valid()
    modifies accounts
    ensures accounts.Valid() && fresh(accounts.entries.Values - old(accounts.entries.Values))
    ensures accounts.View() == ApplyAll(old(accounts.View()), InitEvents(insts, keys))
  {
    ghost var v := accounts.View();
    for i := 0 to |insts|
      invariant accounts.Valid() && fresh(accounts.entries.Values - old(accounts.entries.Values))
      invariant accounts.View() == ApplyAll(v, InitEvents(insts[..i], keys))
    {
      InitializesNext(v, insts, keys, i);
      AddInitialized(insts[i], keys, accounts);
    }
    assert insts[..|insts|] == insts;
  }

  /** The first walk over the map: each mint's decimals, as the last account visited holds them. */
  method CollectDecimals(accounts: TokenAccountMap) returns (decimalsOf: map<Address, byte>)
    ensures forall k | k in accounts.View() :: accounts.View()[k].mint in decimalsOf
    ensures forall mint | mint in decimalsOf :: HeldDecimals(accounts.View(), mint, decimalsOf[mint])
  {
    ghost var v := accounts.View();
    decimalsOf := map[];
    var todo := accounts.entries.Keys;
    while todo != {}
      invariant todo <= accounts.entries.Keys
      invariant forall k | k in v && k !in todo :: v[k].mint in decimalsOf
      invariant forall mint | mint in decimalsOf :: HeldDecimals(v, mint, decimalsOf[mint])
      decreases todo
    {
      var k :| k in todo;
      var item := accounts.entries[k];
      assert v[k] == item.View();
      assert HeldDecimals(v, item.tokenMintAccountAddress, item.tokenDecimal);
      decimalsOf := decimalsOf[item.tokenMintAccountAddress := item.tokenDecimal];
      todo := todo - {k};
    }
  }

  /** The second walk: every account takes its mint's decimals. */
  method WriteDecimals(accounts: TokenAccountMap, decimalsOf: map<Address, byte>)
    requires accounts.Valid()
    requires forall k | k in accounts.View() :: accounts.View()[k].mint in decimalsOf
    modifies accounts.entries.Values
    ensures accounts.View().Keys == old(accounts.View()).Keys
    ensures forall k | k in old(accounts.View()) ::
      accounts.View()[k] == old(accounts.View())[k].(decimals := decimalsOf[old(accounts.View())[k].mint])
  {
    ghost var v := accounts.View();
    var todo := accounts.entries.Keys;
    while todo != {}
      invariant todo <= accounts.entries.Keys
      invariant forall k | k in accounts.entries ::
        (k in v && accounts.entries[k].View() ==
                   if k in todo then v[k] else v[k].(decimals := decimalsOf[v[k].mint]))
      decreases todo
    {
      var k :| k in todo;
      var item := accounts.entries[k];
      assert item.View() == v[k];
      item.tokenDecimal := decimalsOf[item.tokenMintAccountAddress];
      todo := todo - {k};
    }
  }

  /** Gives every account the decimals last recorded for its mint, walking the map in any order. */
  method UnifyDecimals(accounts: TokenAccountMap)
    requires accounts.Valid()
    modifies accounts.entries.Values
    ensures DecimalsPass(old(accounts.View()), accounts.View())
  {
    var decimalsOf := CollectDecimals(accounts);
    WriteDecimals(accounts, decimalsOf);
  }

  method AddPreBalances(items: seq<TokenBalance>, keys: seq<Address>, accounts: TokenAccountMap)
    requires BalancesInRange(items, keys) && accounts.Valid()
    modifies accounts
    ensures accounts.Valid() && fresh(accounts.entries.Values - old(accounts.entries.Values))
    ensures accounts.View() == ApplyAll(old(accounts.View()), PreEvents(items, keys))
  {
    ghost var v, pre := accounts.View(), PreEvents(items, keys);
    for i := 0 to |items|
      invariant accounts.Valid() && fresh(accounts.entries.Values - old(accounts.entries.Values))
      invariant accounts.View() == ApplyAll(v, pre[..i])
    {
      assert pre[..i + 1][..i] == pre[..i];
      AddPreBalance(items[i], keys, accounts);
    }
    assert pre[..|items|] == pre;
  }

  method AddPostBalances(items: seq<TokenBalance>, keys: seq<Address>, accounts: TokenAccountMap)
    returns (hasChange: bool)
    requires BalancesInRange(items, keys) && accounts.Valid()
    modifies accounts, accounts.entries.Values
    ensures accounts.Valid() && fresh(accounts.entries.Values - old(accounts.entries.Values))
    ensures accounts.View() == ApplyAll(old(accounts.View()), PostEvents(items, keys))
    ensures hasChange == HasChange(old(accounts.View()), PostEvents(items, keys))
  {
    ghost var v, post := accounts.View(), PostEvents(items, keys);
    hasChange := false;
    for i := 0 to |items|
      invariant accounts.Valid() && fresh(accounts.entries.Values - old(accounts.entries.Values))
      invariant accounts.View() == ApplyAll(v, post[..i])
      invariant hasChange == HasChange(v, post[..i])
    {
      assert post[..i + 1] == post[..i] + [post[i]];
      assert post[..i + 1][..i] == post[..i];
      HasChangeExtends(v, post[..i], post[i]);
      var changed := AddPostBalance(items[i], keys, accounts);
      hasChange := hasChange || changed;
    }
    assert post[..|items|] == post;
  }

  method AddInnerInitializedAccounts(inner: seq<InnerInstruction>, keys: seq<Address>, accounts: TokenAccountMap)
    requires forall i | 0 <= i < |inner| :: InstructionsInRange(inner[i].instructions, keys)
    requires accounts.Valid()
    modifies accounts
    ensures accounts.Valid() && fresh(accounts.entries.Values - old(accounts.entries.Values))
    ensures accounts.View() == ApplyAll(old(accounts.View()), InnerInitEvents(inner, keys))
  {
    ghost var v := accounts.View();
    for i := 0 to |inner|
      invariant accounts.Valid() && fresh(accounts.entries.Values - old(accounts.entries.Values))
      invariant accounts.View() == ApplyAll(v, InnerInitEvents(inner[..i], keys))
    {
      assert inner[..i + 1][..i] == inner[..i];
      ApplyAllConcat(v, InnerInitEvents(inner[..i], keys), InitEvents(inner[i].instructions, keys));
      AddInitializedAccounts(inner[i].instructions, keys, accounts);
    }
    assert inner[..|inner|] == inner;
  }

  /** Everything before the decimals pass. */
  method ApplyTransaction(tx: Transaction, accounts: TokenAccountMap) returns (hasChange: bool)
    requires InRange(tx) && accounts.Valid()
    modifies accounts, accounts.entries.Values
    ensures accounts.Valid() && fresh(accounts.entries.Values - old(accounts.entries.Values))
    ensures accounts.View() == ApplyAll(old(accounts.View()), EventsOf(tx))
    ensures hasChange == HasChange(old(accounts.View()), EventsOf(tx))
  {
    FillByPhases(accounts.View(), tx);
    AddPreBalances(tx.preBalances, tx.keys, accounts);
    hasChange := AddPostBalances(tx.postBalances, tx.keys, accounts);
    AddInitializedAccounts(tx.instructions, tx.keys, accounts);
    AddInnerInitializedAccounts(tx.inner, tx.keys, accounts);
  }

  method FillTokenAccountMap(tx: Transaction, accounts: TokenAccountMap) returns (hasChange: bool)
    requires InRange(tx) && accounts.Valid()
    modifies accounts, accounts.entries.Values
    ensures accounts.Valid() && fresh(accounts.entries.Values - old(accounts.entries.Values))
    ensures FillStep(old(accounts.View()), tx, accounts.View(), hasChange)
  {
    hasChange := ApplyTransaction(tx, accounts);
    UnifyDecimals(accounts);
  }
}
