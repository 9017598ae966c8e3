/** What the token account map holds after any number of transactions, read off the events alone. */
module AccountHistory {
  import opened GoArith
  import opened Chain
  import opened TokenAccounts

  /** The first n lists of events have each been applied, followed by the decimals pass. */
  ghost predicate Filled(lists: seq<seq<Event>>, views: seq<View>, changes: seq<bool>, n: nat)
    requires n <= |lists| && n < |views| && n <= |changes|
  {
    n == 0 || (Filled(lists, views, changes, n - 1) && Fills(views[n - 1], lists[n - 1], views[n], changes[n - 1]))
  }

  /** A map that starts empty: views[t] holds before list t, and changes[t] is the hasChange of list t. */
  ghost predicate Replays(lists: seq<seq<Event>>, views: seq<View>, changes: seq<bool>) {
    && |changes| <= |lists| && |views| == |changes| + 1
    && views[0] == map[]
    && Filled(lists, views, changes, |changes|)
  }

  ghost predicate AllInRange(txs: seq<Transaction>) {
    forall t | 0 <= t < |txs| :: InRange(txs[t])
  }

  ghost function EventLists(txs: seq<Transaction>): seq<seq<Event>>
    requires AllInRange(txs)
  {
    seq(|txs|, t requires 0 <= t < |txs| => EventsOf(txs[t]))
  }

  /** The transactions of a block applied so far. */
  ghost predicate BlockRunPrefix(txs: seq<Transaction>, views: seq<View>, changes: seq<bool>) {
    AllInRange(txs) && Replays(EventLists(txs), views, changes)
  }

  /** A whole block. */
  ghost predicate BlockRun(txs: seq<Transaction>, views: seq<View>, changes: seq<bool>) {
    BlockRunPrefix(txs, views, changes) && |changes| == |txs|
  }

  lemma {:induction false} FilledPrefix(lists: seq<seq<Event>>, views: seq<View>, changes: seq<bool>, n: nat, t: nat)
    requires t <= n <= |lists| && n < |views| && n <= |changes| && Filled(lists, views, changes, n)
    ensures Filled(lists, views, changes, t)
  {
    if t < n {
      FilledPrefix(lists, views, changes, n - 1, t);
    }
  }

  /** List t has been applied, as has every earlier one. */
  lemma StepAt(lists: seq<seq<Event>>, views: seq<View>, changes: seq<bool>, t: nat)
    requires Replays(lists, views, changes) && t < |changes|
    ensures Filled(lists, views, changes, t + 1)
  {
    FilledPrefix(lists, views, changes, |changes|, t + 1);
  }

  lemma {:induction false} FilledExtends(lists: seq<seq<Event>>, views: seq<View>, changes: seq<bool>, n: nat,
                                         w: View, changed: bool)
    requires n <= |lists| && n < |views| && n <= |changes| && Filled(lists, views, changes, n)
    ensures Filled(lists, views + [w], changes + [changed], n)
  {
    if n > 0 {
      FilledExtends(lists, views, changes, n - 1, w, changed);
    }
  }

  lemma ReplaysExtends(lists: seq<seq<Event>>, views: seq<View>, changes: seq<bool>, w: View, changed: bool)
    requires Replays(lists, views, changes) && |changes| < |lists|
    requires Fills(views[|changes|], lists[|changes|], w, changed)
    ensures Replays(lists, views + [w], changes + [changed])
  {
    FilledExtends(lists, views, changes, |changes|, w, changed);
  }

  lemma BlockRunExtends(txs: seq<Transaction>, views: seq<View>, changes: seq<bool>, w: View, changed: bool)
    requires BlockRunPrefix(txs, views, changes) && |changes| < |txs|
    requires FillStep(views[|changes|], txs[|changes|], w, changed)
    ensures BlockRunPrefix(txs, views + [w], changes + [changed])
  {
    ReplaysExtends(EventLists(txs), views, changes, w, changed);
  }

  /** After every transaction, accounts of one mint agree on their decimals, which some account of the mint held
      before the pass. */
  lemma DecimalsUniform(lists: seq<seq<Event>>, views: seq<View>, changes: seq<bool>, t: nat)
    requires Replays(lists, views, changes) && t < |changes|
    ensures UniformDecimals(views[t + 1])
    ensures
      var (v, w) := (ApplyAll(views[t], lists[t]), views[t + 1]);
      forall k | k in w :: HeldDecimals(v, w[k].mint, w[k].decimals)
  {
    StepAt(lists, views, changes, t);
  }

  /** All events of the first n lists. */
  function AllEvents(lists: seq<seq<Event>>, n: nat): seq<Event>
    requires n <= |lists|
  {
    if n == 0 then [] else AllEvents(lists, n - 1) + lists[n - 1]
  }

  // ----- The decimals pass commutes with everything else -----

  ghost predicate SameButDecimals(v: View, w: View) {
    v.Keys == w.Keys && forall k | k in v :: w[k] == v[k].(decimals := w[k].decimals)
  }

  lemma ApplyEventUpToDecimals(v: View, w: View, e: Event)
    requires SameButDecimals(v, w)
    ensures SameButDecimals(ApplyEvent(v, e), ApplyEvent(w, e))
  {
  }

  lemma {:induction false} ApplyAllUpToDecimals(v: View, w: View, es: seq<Event>)
    requires SameButDecimals(v, w)
    ensures SameButDecimals(ApplyAll(v, es), ApplyAll(w, es))
  {
    if es != [] {
      var n := |es| - 1;
      ApplyAllUpToDecimals(v, w, es[..n]);
      ApplyEventUpToDecimals(ApplyAll(v, es[..n]), ApplyAll(w, es[..n]), es[n]);
    }
  }

  lemma PassUpToDecimals(u: View, v: View, w: View)
    requires SameButDecimals(u, v) && DecimalsPass(v, w)
    ensures SameButDecimals(u, w)
  {
  }

  /** Up to decimals, the map before transaction t is the plain replay of all earlier events. */
  lemma {:induction false} RunIsReplay(lists: seq<seq<Event>>, views: seq<View>, changes: seq<bool>, t: nat)
    requires t <= |lists| && t < |views| && t <= |changes| && views[0] == map[] && Filled(lists, views, changes, t)
    ensures SameButDecimals(ApplyAll(map[], AllEvents(lists, t)), views[t])
  {
    if t > 0 {
      var before, es := AllEvents(lists, t - 1), lists[t - 1];
      RunIsReplay(lists, views, changes, t - 1);
      ApplyAllConcat(map[], before, es);
      ApplyAllUpToDecimals(ApplyAll(map[], before), views[t - 1], es);
      PassUpToDecimals(ApplyAll(ApplyAll(map[], before), es), ApplyAll(views[t - 1], es), views[t]);
    }
  }

  // ----- The life of one entry -----

  /** The event that made the entry now stored under k: the first one to name k, unless a later initialize
      instruction gave k another mint. */
  function Birth(es: seq<Event>, k: Address): (b: Option<nat>)
    ensures b.Some? ==> b.value < |es| && es[b.value].account == k
  {
    if es == [] then None
    else
      var n := |es| - 1;
      var earlier := Birth(es[..n], k);
      if es[n].account != k then earlier
      else if earlier.None? || (es[n].Init? && es[n].mint != es[earlier.value].mint) then Some(n)
      else earlier
  }

  /** The first event that names k. */
  ghost predicate FirstTouch(es: seq<Event>, k: Address, b: nat) {
    b < |es| && es[b].account == k && forall i | 0 <= i < b :: es[i].account != k
  }

  /** A post balance names k at or after position b. */
  ghost predicate PostedSince(es: seq<Event>, k: Address, b: nat) {
    exists i | b <= i < |es| :: es[i].Post? && es[i].account == k
  }

  /** The amount of the last post balance that names k at or after position b. */
  function LastPost(es: seq<Event>, k: Address, b: nat): int {
    if |es| <= b then 0
    else if es[|es| - 1].Post? && es[|es| - 1].account == k then es[|es| - 1].amount
    else LastPost(es[..|es| - 1], k, b)
  }

  function BirthPreValue(e: Event): int {
    if e.Pre? then e.amount else 0
  }

  /** What the replay stores under k. Owner, mint and PreValue never change after the entry's birth. */
  ghost predicate Explains(es: seq<Event>, k: Address, a: Account) {
    match Birth(es, k)
    case None => false
    case Some(b) =>
      && a.address == k
      && a.owner == es[b].owner
      && a.mint == es[b].mint
      && a.preValue == BirthPreValue(es[b])
      && a.postValue == LastPost(es, k, b)
      && (a.closed <==> es[b].Pre? && !PostedSince(es, k, b))
  }

  lemma PostedSinceExtends(es: seq<Event>, e: Event, k: Address, b: nat)
    requires b <= |es|
    ensures PostedSince(es + [e], k, b) <==> PostedSince(es, k, b) || (e.Post? && e.account == k)
  {
    var fs := es + [e];
    if PostedSince(es, k, b) {
      var i :| b <= i < |es| && es[i].Post? && es[i].account == k;
      assert fs[i].Post? && fs[i].account == k;
    }
    if e.Post? && e.account == k {
      assert fs[|es|].Post? && fs[|es|].account == k;
    }
  }

  lemma {:induction false} ReplayExplained(es: seq<Event>, k: Address)
    ensures k in ApplyAll(map[], es) <==> Birth(es, k).Some?
    ensures k in ApplyAll(map[], es) ==> Explains(es, k, ApplyAll(map[], es)[k])
  {
    if es != [] {
      var n := |es| - 1;
      var init, e := es[..n], es[n];
      assert es == init + [e];
      ReplayExplained(init, k);
      if e.account == k && Birth(es, k) == Some(n) {
        assert PostedSince(es, k, n) <==> e.Post?;
        assert |init| <= n;
      } else if Birth(es, k).Some? {
        PostedSinceExtends(init, e, k, Birth(es, k).value);
      }
    }
  }

  /** The entry's birth is the first event naming its account exactly when no later initialize instruction changes
      the mint. */
  lemma {:induction false} BirthIsFirstTouch(es: seq<Event>, k: Address, b: nat)
    requires FirstTouch(es, k, b)
    ensures Birth(es, k) == Some(b) <==>
      forall i | b < i < |es| && es[i].Init? && es[i].account == k :: es[i].mint == es[b].mint
  {
    var n := |es| - 1;
    if b < n {
      assert FirstTouch(es[..n], k, b);
      BirthIsFirstTouch(es[..n], k, b);
    } else {
      NoTouchNoBirth(es[..n], k);
    }
  }

  lemma NoTouchNoBirth(es: seq<Event>, k: Address)
    requires forall i | 0 <= i < |es| :: es[i].account != k
    ensures Birth(es, k) == None
  {
  }

  /** The whole history of the map. */
  lemma MapHistory(lists: seq<seq<Event>>, views: seq<View>, changes: seq<bool>, t: nat, k: Address)
    requires Replays(lists, views, changes) && t <= |changes|
    ensures k in views[t] <==> Birth(AllEvents(lists, t), k).Some?
    ensures k in views[t] ==> Explains(AllEvents(lists, t), k, views[t][k])
  {
    FilledPrefix(lists, views, changes, |changes|, t);
    RunIsReplay(lists, views, changes, t);
    ReplayExplained(AllEvents(lists, t), k);
  }

  lemma KeysGrow(lists: seq<seq<Event>>, views: seq<View>, changes: seq<bool>, t: nat)
    requires Replays(lists, views, changes) && t < |changes|
    ensures views[t].Keys <= views[t + 1].Keys
  {
    StepAt(lists, views, changes, t);
    ApplyAllKeepsKeys(views[t], lists[t]);
  }

  /** Accounts are never removed. */
  lemma {:induction false} KeysPersist(lists: seq<seq<Event>>, views: seq<View>, changes: seq<bool>, s: nat, t: nat)
    requires Replays(lists, views, changes) && s <= t <= |changes|
    ensures views[s].Keys <= views[t].Keys
  {
    if s < t {
      KeysPersist(lists, views, changes, s, t - 1);
      KeysGrow(lists, views, changes, t - 1);
    }
  }

  lemma ApplyAllKeepsKeys(v: View, es: seq<Event>)
    ensures v.Keys <= ApplyAll(v, es).Keys
  {
  }

  /** hasChange, read off the events: some post balance differs from the PreValue with which its account's
      current entry was born, earlier in the block or in this transaction. */
  lemma ChangeHistory(lists: seq<seq<Event>>, views: seq<View>, changes: seq<bool>, t: nat)
    requires Replays(lists, views, changes) && t < |changes|
    ensures changes[t] <==>
      exists i | 0 <= i < |lists[t]| :: DiffersFromBirth(AllEvents(lists, t) + lists[t][..i], lists[t][i])
  {
    var before, es := AllEvents(lists, t), lists[t];
    StepAt(lists, views, changes, t);
    RunIsReplay(lists, views, changes, t);
    HasChangeIff(views[t], es);
    forall i | 0 <= i < |es|
      ensures ReportsAt(views[t], es, i) <==> DiffersFromBirth(before + es[..i], es[i])
    {
      ReportsFromBirth(before, views[t], es, i);
    }
  }

  lemma ReportsFromBirth(before: seq<Event>, v: View, es: seq<Event>, i: nat)
    requires i < |es| && SameButDecimals(ApplyAll(map[], before), v)
    ensures ReportsAt(v, es, i) <==> DiffersFromBirth(before + es[..i], es[i])
  {
    ApplyAllUpToDecimals(ApplyAll(map[], before), v, es[..i]);
    ApplyAllConcat(map[], before, es[..i]);
    ReplayExplained(before + es[..i], es[i].account);
  }

  ghost predicate DiffersFromBirth(es: seq<Event>, e: Event) {
    e.Post? && Birth(es, e.account).Some? && BirthPreValue(es[Birth(es, e.account).value]) != e.amount
  }
}
