/** The decimals pass walks a Go map, whose order is not defined: what the order may change, and when it cannot. */
module WalkOrder {
  import opened GoArith
  import opened Chain
  import opened TokenAccounts

  // ----- What the decimals pass may choose -----

  /** A choice of held decimals for a mint, which prefers those of account k. */
  ghost function ChosenDecimals(v: View, k: Address, mint: Address): (d: byte)
    requires k in v && exists j :: j in v && v[j].mint == mint
    ensures HeldDecimals(v, mint, d)
    ensures mint == v[k].mint ==> d == v[k].decimals
  {
    if mint == v[k].mint then v[k].decimals
    else
      var j :| j in v && v[j].mint == mint;
      v[j].decimals
  }

  /** Some outcome of the pass gives a mint any decimals that one of its accounts holds. */
  lemma SomePassChooses(v: View, k: Address) returns (w: View)
    requires k in v
    ensures DecimalsPass(v, w)
    ensures forall j | j in v && v[j].mint == v[k].mint :: w[j].decimals == v[k].decimals
  {
    w := map j | j in v :: v[j].(decimals := ChosenDecimals(v, k, v[j].mint));
  }

  /** An account's decimals survive every order in which the map may be walked exactly when all accounts of its
      mint already agree with it. */
  lemma DecimalsSurviveIff(v: View, k: Address)
    requires k in v
    ensures (forall w: View | DecimalsPass(v, w) :: w[k].decimals == v[k].decimals) <==>
            (forall j | j in v && v[j].mint == v[k].mint :: v[j].decimals == v[k].decimals)
  {
    forall j | j in v && v[j].mint == v[k].mint && v[j].decimals != v[k].decimals
      ensures exists w: View :: DecimalsPass(v, w) && w[k].decimals != v[k].decimals
    {
      var w := SomePassChooses(v, j);
    }
    forall w: View | DecimalsPass(v, w) && forall j | j in v && v[j].mint == v[k].mint :: v[j].decimals == v[k].decimals
      ensures w[k].decimals == v[k].decimals
    {
      assert HeldDecimals(v, v[k].mint, w[k].decimals);
    }
  }

  /** The pass has one outcome exactly when no mint holds conflicting decimals before it. */
  lemma OneOutcomeIff(v: View)
    ensures (forall w, x | DecimalsPass(v, w) && DecimalsPass(v, x) :: w == x) <==> UniformDecimals(v)
  {
    if UniformDecimals(v) {
      forall w | DecimalsPass(v, w)
        ensures w == v
      {
        UniformPassKeeps(v, w);
      }
    } else {
      var k, j :| k in v && j in v && v[k].mint == v[j].mint && v[k].decimals != v[j].decimals;
      var w := SomePassChooses(v, k);
      var x := SomePassChooses(v, j);
      assert w[k] != x[k];
    }
  }

  lemma UniformPassKeeps(v: View, w: View)
    requires UniformDecimals(v) && DecimalsPass(v, w)
    ensures w == v
  {
    forall k | k in v
      ensures w[k] == v[k]
    {
      assert HeldDecimals(v, v[k].mint, w[k].decimals);
    }
  }

  lemma SomePass(v: View) returns (w: View)
    ensures DecimalsPass(v, w)
  {
    if k :| k in v {
      w := SomePassChooses(v, k);
    } else {
      w := map[];
    }
  }

  /** A transaction after which one walk erases the decimals of an account and another keeps them: beside a known
      WSOL account it initializes a second one, which enters with 0 decimals. */
  lemma InitializeMayEraseDecimals() returns (tx: Transaction, k: Address, w: View, x: View)
    ensures InRange(tx) && FillStep(map[], tx, w, false) && FillStep(map[], tx, x, false)
    ensures k in w && k in x && w[k].decimals == 0 && x[k].decimals == 9
  {
    var created, owner := Other(1), Other(2);
    k := Other(0);
    tx := Transaction(
      [k, created, WSOL, owner, TOKEN_PROGRAM],
      [Instruction(4, [1, 2, 3], [INITIALIZE_ACCOUNT], Other(3))], [],
      [], [TokenBalance(0, WSOL, owner, 5, 9)], 1, false, []);
    var (post, init) := (Post(k, owner, WSOL, 5, 9), Init(created, owner, WSOL));
    EventsOfExample(tx, post, init);
    var v: View := map[
      k := Account(owner, k, WSOL, 9, 0, 5, false), created := Account(owner, created, WSOL, 0, 0, 0, false)];
    TwoEvents(map[], post, init);
    assert ApplyEvent(ApplyEvent(map[], post), init) == v;
    assert !ReportsChange(map[], post);
    w := SomePassChooses(v, created);
    x := SomePassChooses(v, k);
  }

  lemma TwoEvents(v: View, e: Event, f: Event)
    ensures ApplyAll(v, [e, f]) == ApplyEvent(ApplyEvent(v, e), f)
    ensures HasChange(v, [e, f]) <==> ReportsChange(v, e) || ReportsChange(ApplyEvent(v, e), f)
  {
    assert [e, f] == [] + [e] + [f] && [e] == [] + [e];
    ApplyAllConcat(v, [e], [f]);
    HasChangeExtends(v, [], e);
    HasChangeExtends(v, [e], f);
  }

  /** A transaction with one post balance and one initialize instruction. */
  lemma EventsOfExample(tx: Transaction, post: Event, init: Event)
    requires InRange(tx) && tx.preBalances == [] && |tx.postBalances| == 1 && |tx.instructions| == 1 && tx.inner == []
    requires PostEvents(tx.postBalances, tx.keys) == [post]
    requires InstructionEvents(tx.instructions[0], tx.keys) == [init]
    ensures EventsOf(tx) == [post, init]
  {
    assert PreEvents(tx.preBalances, tx.keys) == [];
    assert tx.instructions[..0] == [] && InitEvents([], tx.keys) == [];
    assert InitEvents(tx.instructions, tx.keys) == [] + [init];
    assert [] + [post] + [init] + [] == [post, init];
  }

  // ----- The decimals pass is exactly the set of all walks -----

  /** A walk visits every account of the map once. */
  ghost predicate IsWalk(v: View, order: seq<Address>) {
    && (forall i | 0 <= i < |order| :: order[i] in v)
    && (forall k | k in v :: k in order)
    && NoRepeats(order)
  }

  /** What the first loop has recorded after visiting the accounts in this order: the last one of a mint wins. */
  ghost function Recorded(v: View, order: seq<Address>): map<Address, byte>
    requires forall i | 0 <= i < |order| :: order[i] in v
  {
    if order == [] then map[]
    else
      var n := |order| - 1;
      Recorded(v, order[..n])[v[order[n]].mint := v[order[n]].decimals]
  }

  /** The map after both loops. */
  ghost predicate WalkedTo(v: View, order: seq<Address>, w: View)
    requires IsWalk(v, order)
  {
    && w.Keys == v.Keys
    && forall k | k in v ::
      v[k].mint in Recorded(v, order) && w[k] == v[k].(decimals := Recorded(v, order)[v[k].mint])
  }

  lemma {:induction false} RecordedHeld(v: View, order: seq<Address>, mint: Address)
    requires forall i | 0 <= i < |order| :: order[i] in v
    ensures mint in Recorded(v, order) <==> exists i :: 0 <= i < |order| && v[order[i]].mint == mint
    ensures mint in Recorded(v, order) ==> HeldDecimals(v, mint, Recorded(v, order)[mint])
  {
    if order != [] {
      var n := |order| - 1;
      RecordedHeld(v, order[..n], mint);
      if i :| 0 <= i < n && v[order[..n][i]].mint == mint {
        assert v[order[i]].mint == mint;
      }
      assert HeldDecimals(v, v[order[n]].mint, v[order[n]].decimals);
    }
  }

  lemma WalkIsPass(v: View, order: seq<Address>, w: View)
    requires IsWalk(v, order) && WalkedTo(v, order, w)
    ensures DecimalsPass(v, w)
  {
    forall k | k in v
      ensures HeldDecimals(v, v[k].mint, w[k].decimals)
    {
      RecordedHeld(v, order, v[k].mint);
    }
  }

  ghost function Enumerate(s: set<Address>): (order: seq<Address>)
    ensures forall k :: k in order <==> k in s
    ensures NoRepeats(order)
  {
    if s == {} then []
    else
      var k :| k in s;
      Enumerate(s - {k}) + [k]
  }

  /** The last account of a mint decides what is recorded for it. */
  lemma {:induction false} LastVisitWins(v: View, order: seq<Address>, mint: Address, i: nat) returns (l: nat)
    requires forall n | 0 <= n < |order| :: order[n] in v
    requires i < |order| && v[order[i]].mint == mint
    ensures i <= l < |order| && v[order[l]].mint == mint
    ensures mint in Recorded(v, order) && Recorded(v, order)[mint] == v[order[l]].decimals
  {
    l := |order| - 1;
    if v[order[l]].mint != mint {
      l := LastVisitWins(v, order[..l], mint, i);
    }
  }

  ghost predicate NoRepeats(order: seq<Address>) {
    forall i, j | 0 <= i < j < |order| :: order[i] != order[j]
  }

  lemma NoRepeatsConcat(a: seq<Address>, b: seq<Address>)
    requires NoRepeats(a) && NoRepeats(b) && forall k | k in a :: k !in b
    ensures NoRepeats(a + b)
  {
    forall i, j | 0 <= i < j < |a + b|
      ensures (a + b)[i] != (a + b)[j]
    {
      if i < |a| <= j {
        assert a[i] in a && b[j - |a|] in b;
      }
    }
  }

  /** All accounts outside a set, then those in it. */
  lemma TwoPartWalk(v: View, good: set<Address>)
    requires good <= v.Keys
    ensures IsWalk(v, Enumerate(v.Keys - good) + Enumerate(good))
  {
    var first, last := Enumerate(v.Keys - good), Enumerate(good);
    NoRepeatsConcat(first, last);
    forall k
      ensures k in v <==> k in first + last
    {
      assert k in first + last <==> k in first || k in last;
    }
    assert forall i | 0 <= i < |first + last| :: (first + last)[i] in first + last;
  }

  /** From position n on, the order visits accounts that already hold the outcome. */
  ghost predicate EndsWithHolders(v: View, w: View, order: seq<Address>, n: nat) {
    && n <= |order|
    && (forall i | 0 <= i < |order| :: order[i] in v)
    && forall i | n <= i < |order| :: order[i] in v && order[i] in w && w[order[i]] == v[order[i]]
  }

  /** Such an order records exactly the outcome for the mints of those accounts. */
  lemma RecordsOutcome(v: View, w: View, mint: Address, order: seq<Address>, n: nat, i: nat)
    requires EndsWithHolders(v, w, order, n) && UniformDecimals(w)
    requires n <= i < |order| && v[order[i]].mint == mint
    ensures mint in Recorded(v, order)
    ensures forall k | k in w && w[k].mint == mint :: w[k].decimals == Recorded(v, order)[mint]
  {
    var l := LastVisitWins(v, order, mint, i);
    assert w[order[l]] == v[order[l]];
  }

  lemma HoldersEnd(v: View, w: View, first: seq<Address>, last: seq<Address>)
    requires forall k | k in first :: k in v
    requires forall k | k in last :: k in v && k in w && w[k] == v[k]
    ensures EndsWithHolders(v, w, first + last, |first|)
  {
    var order := first + last;
    forall i | 0 <= i < |order|
      ensures order[i] in v && (i >= |first| ==> order[i] in w && w[order[i]] == v[order[i]])
    {
      assert order[i] in order;
      assert i >= |first| ==> order[i] == last[i - |first|];
    }
  }

  /** Every mint of the map has such an account. */
  lemma HasHolder(v: View, w: View, k: Address) returns (j: Address)
    requires DecimalsPass(v, w) && k in v
    ensures j in v && v[j].mint == v[k].mint && w[j] == v[j]
  {
    assert HeldDecimals(v, v[k].mint, w[k].decimals);
    j :| j in v && v[j].mint == v[k].mint && v[j].decimals == w[k].decimals;
    assert w[j].mint == w[k].mint;
  }

  lemma RecordedFor(v: View, w: View, first: seq<Address>, last: seq<Address>, k: Address)
    requires DecimalsPass(v, w) && k in v && EndsWithHolders(v, w, first + last, |first|)
    requires forall j | j in v && w[j] == v[j] :: j in last
    ensures v[k].mint in Recorded(v, first + last)
    ensures w[k] == v[k].(decimals := Recorded(v, first + last)[v[k].mint])
  {
    var j := HasHolder(v, w, k);
    var i :| 0 <= i < |last| && last[i] == j;
    RecordsOutcome(v, w, v[k].mint, first + last, |first|, |first| + i);
  }

  lemma PassIsWalk(v: View, w: View)
    requires DecimalsPass(v, w)
    ensures exists order :: IsWalk(v, order) && WalkedTo(v, order, w)
  {
    var good := set k | k in v && w[k] == v[k];
    var first, last := Enumerate(v.Keys - good), Enumerate(good);
    TwoPartWalk(v, good);
    HoldersEnd(v, w, first, last);
    forall k | k in v
      ensures v[k].mint in Recorded(v, first + last)
      ensures w[k] == v[k].(decimals := Recorded(v, first + last)[v[k].mint])
    {
      RecordedFor(v, w, first, last, k);
    }
    assert WalkedTo(v, first + last, w);
  }

  /** The outcomes of the decimals pass are exactly those of walking the map in some order. */
  lemma DecimalsPassIff(v: View, w: View)
    ensures DecimalsPass(v, w) <==> exists order :: IsWalk(v, order) && WalkedTo(v, order, w)
  {
    if DecimalsPass(v, w) {
      PassIsWalk(v, w);
    }
    forall order | IsWalk(v, order) && WalkedTo(v, order, w)
      ensures DecimalsPass(v, w)
    {
      WalkIsPass(v, order, w);
    }
  }
}
