/** What the walking order of the decimals passes may change in a whole block, read off the block's events alone. */
module BlockOutcomes {
  import opened GoArith
  import opened Chain
  import opened TokenAccounts
  import opened AccountHistory
  import opened WalkOrder

  // ----- One mint at a time -----

  /** The accounts of one mint hold one number of decimals. */
  ghost predicate MintUniform(v: View, mint: Address) {
    forall k, j | k in v && j in v && v[k].mint == mint && v[j].mint == mint :: v[k].decimals == v[j].decimals
  }

  lemma UniformIff(v: View)
    ensures UniformDecimals(v) <==> forall mint :: MintUniform(v, mint)
  {
    if forall mint :: MintUniform(v, mint) {
      forall k, j | k in v && j in v && v[k].mint == v[j].mint
        ensures v[k].decimals == v[j].decimals
      {
        assert MintUniform(v, v[k].mint);
      }
    }
  }

  /** The maps are equal up to the decimals of other mints. */
  ghost predicate SameFor(v: View, w: View, mint: Address) {
    SameButDecimals(v, w) && forall k | k in v && v[k].mint == mint :: w[k] == v[k]
  }

  lemma ApplyEventSameFor(v: View, w: View, mint: Address, e: Event)
    requires SameFor(v, w, mint)
    ensures SameFor(ApplyEvent(v, e), ApplyEvent(w, e), mint)
  {
  }

  lemma {:induction false} ApplyAllSameFor(v: View, w: View, mint: Address, es: seq<Event>)
    requires SameFor(v, w, mint)
    ensures SameFor(ApplyAll(v, es), ApplyAll(w, es), mint)
  {
    if es != [] {
      var n := |es| - 1;
      ApplyAllSameFor(v, w, mint, es[..n]);
      ApplyEventSameFor(ApplyAll(v, es[..n]), ApplyAll(w, es[..n]), mint, es[n]);
    }
  }

  /** A pass leaves a uniform mint alone. */
  lemma PassSameFor(v: View, w: View, mint: Address)
    requires MintUniform(v, mint) && DecimalsPass(v, w)
    ensures SameFor(v, w, mint)
  {
    forall k | k in v && v[k].mint == mint
      ensures w[k] == v[k]
    {
      assert HeldDecimals(v, mint, w[k].decimals);
    }
  }

  lemma UniformSameFor(v: View, w: View, mint: Address)
    requires SameFor(v, w, mint)
    ensures MintUniform(v, mint) <==> MintUniform(w, mint)
  {
  }

  // ----- The events alone -----

  /** The map after the first t lists, without any pass. */
  ghost function PlainReplay(lists: seq<seq<Event>>, t: nat): View
    requires t <= |lists|
  {
    ApplyAll(map[], AllEvents(lists, t))
  }

  lemma PlainNext(lists: seq<seq<Event>>, t: nat)
    requires t < |lists|
    ensures PlainReplay(lists, t + 1) == ApplyAll(PlainReplay(lists, t), lists[t])
  {
    ApplyAllConcat(map[], AllEvents(lists, t), lists[t]);
  }

  /** The plain replay never holds different decimals for a mint. */
  ghost predicate NoMintConflict(lists: seq<seq<Event>>, mint: Address, n: nat)
    requires n <= |lists|
  {
    forall t | 0 < t <= n :: MintUniform(PlainReplay(lists, t), mint)
  }

  lemma FillTracks(u: View, v: View, es: seq<Event>, w: View, mint: Address)
    requires SameFor(u, v, mint) && MintUniform(ApplyAll(u, es), mint) && DecimalsPass(ApplyAll(v, es), w)
    ensures SameFor(ApplyAll(u, es), w, mint)
  {
    ApplyAllSameFor(u, v, mint, es);
    UniformSameFor(ApplyAll(u, es), ApplyAll(v, es), mint);
    PassSameFor(ApplyAll(v, es), w, mint);
    SameForChain(ApplyAll(u, es), ApplyAll(v, es), w, mint);
  }

  lemma SameForChain(u: View, v: View, w: View, mint: Address)
    requires SameFor(u, v, mint) && SameFor(v, w, mint)
    ensures SameFor(u, w, mint)
  {
    assert forall k | k in u :: v[k] == u[k].(decimals := v[k].decimals);
  }

  lemma TracksNext(lists: seq<seq<Event>>, views: seq<View>, changes: seq<bool>, mint: Address, t: nat)
    requires Replays(lists, views, changes) && t < |changes| && SameFor(PlainReplay(lists, t), views[t], mint)
    requires MintUniform(PlainReplay(lists, t + 1), mint)
    ensures SameFor(PlainReplay(lists, t + 1), views[t + 1], mint)
  {
    PlainNext(lists, t);
    StepAt(lists, views, changes, t);
    FillTracks(PlainReplay(lists, t), views[t], lists[t], views[t + 1], mint);
  }

  /** As long as that holds, every run has the mint's accounts as the plain replay has them. */
  lemma {:induction false} TracksReplay(lists: seq<seq<Event>>, views: seq<View>, changes: seq<bool>, mint: Address,
                                        t: nat)
    requires Replays(lists, views, changes) && t <= |changes| && NoMintConflict(lists, mint, t)
    ensures SameFor(PlainReplay(lists, t), views[t], mint)
  {
    if t > 0 {
      TracksReplay(lists, views, changes, mint, t - 1);
      TracksNext(lists, views, changes, mint, t - 1);
    }
  }

  lemma BeforePass(lists: seq<seq<Event>>, views: seq<View>, mint: Address, t: nat)
    requires t < |lists| && t < |views| && SameFor(PlainReplay(lists, t), views[t], mint)
    ensures SameFor(PlainReplay(lists, t + 1), ApplyAll(views[t], lists[t]), mint)
    ensures MintUniform(PlainReplay(lists, t + 1), mint) <==> MintUniform(ApplyAll(views[t], lists[t]), mint)
  {
    PlainNext(lists, t);
    ApplyAllSameFor(PlainReplay(lists, t), views[t], mint, lists[t]);
    UniformSameFor(PlainReplay(lists, t + 1), ApplyAll(views[t], lists[t]), mint);
  }

  lemma NextConflict(lists: seq<seq<Event>>, views: seq<View>, changes: seq<bool>, mint: Address, t: nat)
    requires Replays(lists, views, changes) && t < |lists| && t <= |changes| && NoMintConflict(lists, mint, t)
    ensures MintUniform(PlainReplay(lists, t + 1), mint) <==> MintUniform(ApplyAll(views[t], lists[t]), mint)
  {
    TracksReplay(lists, views, changes, mint, t);
    BeforePass(lists, views, mint, t);
  }

  lemma NoMintConflictNext(lists: seq<seq<Event>>, mint: Address, t: nat)
    requires t < |lists|
    ensures NoMintConflict(lists, mint, t + 1) <==>
      NoMintConflict(lists, mint, t) && MintUniform(PlainReplay(lists, t + 1), mint)
  {
  }

  /** Whether a run ever meets different decimals for a mint is decided by the events. */
  lemma {:induction false} ConflictsOfRun(lists: seq<seq<Event>>, views: seq<View>, changes: seq<bool>, mint: Address,
                                          n: nat)
    requires Replays(lists, views, changes) && n <= |changes|
    ensures NoMintConflict(lists, mint, n) <==> MintUniformBefore(lists, views, mint, n)
  {
    if n > 0 {
      ConflictsOfRun(lists, views, changes, mint, n - 1);
      NoMintConflictNext(lists, mint, n - 1);
      MintUniformNext(lists, views, mint, n - 1);
      if NoMintConflict(lists, mint, n - 1) {
        NextConflict(lists, views, changes, mint, n - 1);
      }
    }
  }

  lemma MintUniformNext(lists: seq<seq<Event>>, views: seq<View>, mint: Address, t: nat)
    requires t < |lists| && t + 1 < |views|
    ensures MintUniformBefore(lists, views, mint, t + 1) <==>
      MintUniformBefore(lists, views, mint, t) && MintUniform(ApplyAll(views[t], lists[t]), mint)
  {
  }

  /** The plain replay never holds different decimals for any mint. */
  ghost predicate NoConflict(lists: seq<seq<Event>>, n: nat)
    requires n <= |lists|
  {
    forall t | 0 < t <= n :: UniformDecimals(PlainReplay(lists, t))
  }

  lemma NoConflictPerMint(lists: seq<seq<Event>>, n: nat)
    requires n <= |lists|
    ensures NoConflict(lists, n) <==> forall mint :: NoMintConflict(lists, mint, n)
  {
    if forall mint :: NoMintConflict(lists, mint, n) {
      forall t | 0 < t <= n
        ensures UniformDecimals(PlainReplay(lists, t))
      {
        assert forall mint :: NoMintConflict(lists, mint, n) ==> MintUniform(PlainReplay(lists, t), mint);
        UniformIff(PlainReplay(lists, t));
      }
    }
  }

  /** The passes of a run find one mint uniform. */
  ghost predicate MintUniformBefore(lists: seq<seq<Event>>, views: seq<View>, mint: Address, n: nat)
    requires n <= |lists| && n < |views|
  {
    forall t | 0 <= t < n :: MintUniform(ApplyAll(views[t], lists[t]), mint)
  }

  lemma UniformPerMint(lists: seq<seq<Event>>, views: seq<View>, n: nat)
    requires n <= |lists| && n < |views|
    ensures UniformBeforePasses(lists, views, n) <==> forall mint :: MintUniformBefore(lists, views, mint, n)
  {
    if forall mint :: MintUniformBefore(lists, views, mint, n) {
      forall t | 0 <= t < n
        ensures UniformDecimals(ApplyAll(views[t], lists[t]))
      {
        assert forall mint :: MintUniformBefore(lists, views, mint, n) ==>
          MintUniform(ApplyAll(views[t], lists[t]), mint);
        UniformIff(ApplyAll(views[t], lists[t]));
      }
    }
  }

  /** Whether a run ever meets different decimals is decided by the events. */
  lemma NoConflictIff(lists: seq<seq<Event>>, views: seq<View>, changes: seq<bool>, n: nat)
    requires Replays(lists, views, changes) && n <= |changes|
    ensures NoConflict(lists, n) <==> UniformBeforePasses(lists, views, n)
  {
    NoConflictPerMint(lists, n);
    UniformPerMint(lists, views, n);
    forall mint
      ensures NoMintConflict(lists, mint, n) <==> MintUniformBefore(lists, views, mint, n)
    {
      ConflictsOfRun(lists, views, changes, mint, n);
    }
  }

  // ----- When a block has one run -----

  /** Each pass of a run finds uniform decimals. */
  ghost predicate UniformBeforePasses(lists: seq<seq<Event>>, views: seq<View>, n: nat)
    requires n <= |lists| && n < |views|
  {
    forall t | 0 <= t < n :: UniformDecimals(ApplyAll(views[t], lists[t]))
  }

  ghost predicate FullReplay(lists: seq<seq<Event>>, views: seq<View>, changes: seq<bool>) {
    Replays(lists, views, changes) && |changes| == |lists|
  }

  /** Without conflicts another run of the same lists takes the same course. */
  lemma {:induction false} SameCourse(lists: seq<seq<Event>>, views: seq<View>, changes: seq<bool>,
                                      views': seq<View>, changes': seq<bool>, t: nat)
    requires FullReplay(lists, views, changes) && FullReplay(lists, views', changes') && t <= |lists|
    requires UniformBeforePasses(lists, views, |lists|)
    ensures views'[t] == views[t] && (t > 0 ==> changes'[t - 1] == changes[t - 1])
  {
    if t > 0 {
      SameCourse(lists, views, changes, views', changes', t - 1);
      StepAt(lists, views, changes, t - 1);
      StepAt(lists, views', changes', t - 1);
      UniformPassKeeps(ApplyAll(views[t - 1], lists[t - 1]), views[t]);
      UniformPassKeeps(ApplyAll(views[t - 1], lists[t - 1]), views'[t]);
    }
  }

  lemma {:induction false} FilledCut(lists: seq<seq<Event>>, views: seq<View>, changes: seq<bool>, n: nat, t: nat)
    requires n <= t <= |lists| && t < |views| && t <= |changes| && Filled(lists, views, changes, n)
    ensures Filled(lists, views[..t + 1], changes[..t], n)
  {
    if n > 0 {
      FilledCut(lists, views, changes, n - 1, t);
    }
  }

  /** A run up to any point can be continued to the end. */
  lemma {:induction false} Completes(lists: seq<seq<Event>>, views: seq<View>, changes: seq<bool>)
    returns (all: seq<View>, allChanges: seq<bool>)
    requires Replays(lists, views, changes)
    ensures FullReplay(lists, all, allChanges) && |views| <= |all| && all[..|views|] == views
    decreases |lists| - |changes|
  {
    var n := |changes|;
    if n == |lists| {
      return views, changes;
    }
    var w := SomePass(ApplyAll(views[n], lists[n]));
    var changed := HasChange(views[n], lists[n]);
    ReplaysExtends(lists, views, changes, w, changed);
    all, allChanges := Completes(lists, views + [w], changes + [changed]);
    assert all[..|views|] == all[..|views + [w]|][..|views|];
  }

  lemma AnotherPass(v: View, w: View) returns (other: View)
    requires !UniformDecimals(v)
    ensures DecimalsPass(v, other) && other != w
  {
    OneOutcomeIff(v);
    var x, y :| DecimalsPass(v, x) && DecimalsPass(v, y) && x != y;
    other := if x == w then y else x;
  }

  /** A run may take another turn at transaction t. */
  lemma Branches(lists: seq<seq<Event>>, views: seq<View>, changes: seq<bool>, t: nat, w: View, changed: bool)
    requires Replays(lists, views, changes) && t < |changes| && Fills(views[t], lists[t], w, changed)
    ensures Replays(lists, views[..t + 1] + [w], changes[..t] + [changed])
  {
    FilledPrefix(lists, views, changes, |changes|, t);
    FilledCut(lists, views, changes, t, t);
    ReplaysExtends(lists, views[..t + 1], changes[..t], w, changed);
  }

  /** Where a transaction leaves a conflict, some run goes another way. */
  lemma ConflictBranches(lists: seq<seq<Event>>, views: seq<View>, changes: seq<bool>, t: nat)
    returns (all: seq<View>, allChanges: seq<bool>)
    requires FullReplay(lists, views, changes) && t < |lists|
    requires !UniformDecimals(ApplyAll(views[t], lists[t]))
    ensures FullReplay(lists, all, allChanges) && all != views
  {
    var other := AnotherPass(ApplyAll(views[t], lists[t]), views[t + 1]);
    var changed := HasChange(views[t], lists[t]);
    Branches(lists, views, changes, t, other, changed);
    var start := views[..t + 1] + [other];
    all, allChanges := Completes(lists, start, changes[..t] + [changed]);
    assert all[..|start|][t + 1] == start[t + 1] == other;
  }

  /** A block has a single run exactly when replaying its events without any pass never leaves the accounts of a mint
      with different decimals. */
  lemma OneRunIff(lists: seq<seq<Event>>, views: seq<View>, changes: seq<bool>)
    requires FullReplay(lists, views, changes)
    ensures
      (forall views', changes' | FullReplay(lists, views', changes') :: views' == views && changes' == changes)
      <==> NoConflict(lists, |lists|)
  {
    NoConflictIff(lists, views, changes, |lists|);
    if NoConflict(lists, |lists|) {
      forall views', changes' | FullReplay(lists, views', changes')
        ensures views' == views && changes' == changes
      {
        forall t: nat | t <= |lists|
          ensures views'[t] == views[t]
        {
          SameCourse(lists, views, changes, views', changes', t);
        }
        forall t: nat | t < |lists|
          ensures changes'[t] == changes[t]
        {
          SameCourse(lists, views, changes, views', changes', t + 1);
        }
      }
    } else {
      var t :| 0 <= t < |lists| && !UniformDecimals(ApplyAll(views[t], lists[t]));
      var all, allChanges := ConflictBranches(lists, views, changes, t);
    }
  }

  // ----- Which decimals a mint may end up with -----

  ghost predicate HasMint(v: View, mint: Address) {
    exists k :: k in v && v[k].mint == mint
  }

  /** The accounts of a mint all set to the same decimals. */
  ghost function Repaint(v: View, mint: Address, d: byte): View {
    map k | k in v :: if v[k].mint == mint then v[k].(decimals := d) else v[k]
  }

  /** The mint goes into transaction t with decimals d, and some account of it comes out with e. */
  ghost predicate Carries(lists: seq<seq<Event>>, t: nat, mint: Address, d: byte, e: byte)
    requires t < |lists|
  {
    HeldDecimals(ApplyAll(Repaint(PlainReplay(lists, t), mint, d), lists[t]), mint, e)
  }

  /** The decimals that a mint may have after t transactions, computed from the events. */
  ghost predicate MayHold(lists: seq<seq<Event>>, t: nat, mint: Address, e: byte)
    requires t <= |lists|
    decreases t
  {
    && t > 0
    && var n := t - 1;
      exists d: byte ::
        && Carries(lists, n, mint, d, e)
        && (HasMint(PlainReplay(lists, n), mint) ==> MayHold(lists, n, mint, d))
  }

  /** All accounts of the mint, of which there are some, hold these decimals. */
  ghost predicate Holds(v: View, mint: Address, d: byte) {
    HasMint(v, mint) && forall k | k in v && v[k].mint == mint :: v[k].decimals == d
  }

  lemma RepaintSameFor(u: View, v: View, mint: Address, d: byte)
    requires SameButDecimals(u, v) && forall k | k in v && v[k].mint == mint :: v[k].decimals == d
    ensures SameFor(Repaint(u, mint, d), v, mint)
  {
  }

  /** With decimals d for the mint before transaction t, what its accounts hold before the pass is what d carries. */
  lemma HeldBeforePass(lists: seq<seq<Event>>, views: seq<View>, changes: seq<bool>, t: nat, mint: Address,
                       d: byte, e: byte)
    requires Replays(lists, views, changes) && t < |lists| && t <= |changes|
    requires forall k | k in views[t] && views[t][k].mint == mint :: views[t][k].decimals == d
    ensures HeldDecimals(ApplyAll(views[t], lists[t]), mint, e) <==> Carries(lists, t, mint, d, e)
  {
    FilledPrefix(lists, views, changes, |changes|, t);
    RunIsReplay(lists, views, changes, t);
    var painted := Repaint(PlainReplay(lists, t), mint, d);
    RepaintSameFor(PlainReplay(lists, t), views[t], mint, d);
    ApplyAllSameFor(painted, views[t], mint, lists[t]);
    HeldSameFor(ApplyAll(painted, lists[t]), ApplyAll(views[t], lists[t]), mint, e);
  }

  lemma HeldSameFor(v: View, w: View, mint: Address, e: byte)
    requires SameFor(v, w, mint)
    ensures HeldDecimals(v, mint, e) <==> HeldDecimals(w, mint, e)
  {
    if HeldDecimals(v, mint, e) {
      var j :| j in v && v[j].mint == mint && v[j].decimals == e;
      assert w[j] == v[j];
    }
    if HeldDecimals(w, mint, e) {
      var j :| j in w && w[j].mint == mint && w[j].decimals == e;
      assert w[j] == v[j];
    }
  }

  lemma HasMintOfRun(lists: seq<seq<Event>>, views: seq<View>, changes: seq<bool>, t: nat, mint: Address)
    requires Replays(lists, views, changes) && t <= |changes|
    ensures HasMint(views[t], mint) <==> HasMint(PlainReplay(lists, t), mint)
  {
    FilledPrefix(lists, views, changes, |changes|, t);
    RunIsReplay(lists, views, changes, t);
    assert forall k | k in views[t] :: views[t][k].mint == PlainReplay(lists, t)[k].mint;
  }

  /** Between transactions the accounts of a mint agree. */
  lemma HoldsSome(lists: seq<seq<Event>>, views: seq<View>, changes: seq<bool>, t: nat, mint: Address)
    returns (d: byte)
    requires Replays(lists, views, changes) && t <= |changes|
    ensures forall k | k in views[t] && views[t][k].mint == mint :: views[t][k].decimals == d
  {
    d := 0;
    if j :| j in views[t] && views[t][j].mint == mint {
      d := views[t][j].decimals;
      DecimalsUniform(lists, views, changes, t - 1);
    }
  }

  /** What a run holds, it may hold. */
  lemma {:induction false} HeldMayHold(lists: seq<seq<Event>>, views: seq<View>, changes: seq<bool>, t: nat,
                                       mint: Address, e: byte)
    requires Replays(lists, views, changes) && t <= |changes| && Holds(views[t], mint, e)
    ensures MayHold(lists, t, mint, e)
  {
    var n := t - 1;
    var d := HoldsSome(lists, views, changes, n, mint);
    var k :| k in views[t] && views[t][k].mint == mint;
    StepAt(lists, views, changes, n);
    assert HeldDecimals(ApplyAll(views[n], lists[n]), mint, views[t][k].decimals);
    HeldBeforePass(lists, views, changes, n, mint, d, e);
    HasMintOfRun(lists, views, changes, n, mint);
    if HasMint(views[n], mint) {
      HeldMayHold(lists, views, changes, n, mint, d);
    }
  }

  /** Some outcome gives a mint any decimals that one of its accounts holds. */
  lemma PassWith(v: View, mint: Address, e: byte) returns (w: View)
    requires HeldDecimals(v, mint, e)
    ensures DecimalsPass(v, w) && Holds(w, mint, e)
  {
    var j :| j in v && v[j].mint == mint && v[j].decimals == e;
    w := SomePassChooses(v, j);
    assert w[j].mint == mint;
  }

  /** A run of the first t lists. */
  lemma {:induction false} SomeRun(lists: seq<seq<Event>>, t: nat) returns (views: seq<View>, changes: seq<bool>)
    requires t <= |lists|
    ensures Replays(lists, views, changes) && |changes| == t
  {
    if t == 0 {
      return [map[]], [];
    }
    views, changes := SomeRun(lists, t - 1);
    var v := ApplyAll(views[t - 1], lists[t - 1]);
    var w := SomePass(v);
    ReplaysExtends(lists, views, changes, w, HasChange(views[t - 1], lists[t - 1]));
    views, changes := views + [w], changes + [HasChange(views[t - 1], lists[t - 1])];
  }

  /** What a mint may hold, some run makes it hold. */
  lemma {:induction false} MayHoldHappens(lists: seq<seq<Event>>, t: nat, mint: Address, e: byte)
    returns (views: seq<View>, changes: seq<bool>)
    requires t <= |lists| && MayHold(lists, t, mint, e)
    ensures Replays(lists, views, changes) && |changes| == t && Holds(views[t], mint, e)
    decreases t
  {
    var n := t - 1;
    var d: byte :|
      Carries(lists, n, mint, d, e) && (HasMint(PlainReplay(lists, n), mint) ==> MayHold(lists, n, mint, d));
    if HasMint(PlainReplay(lists, n), mint) {
      views, changes := MayHoldHappens(lists, n, mint, d);
    } else {
      views, changes := SomeRun(lists, n);
      HasMintOfRun(lists, views, changes, n, mint);
    }
    HeldBeforePass(lists, views, changes, n, mint, d, e);
    var v, changed := ApplyAll(views[n], lists[n]), HasChange(views[n], lists[n]);
    var w := PassWith(v, mint, e);
    ReplaysExtends(lists, views, changes, w, changed);
    views, changes := views + [w], changes + [changed];
  }

  lemma MayHoldRun(lists: seq<seq<Event>>, t: nat, mint: Address, e: byte)
    returns (views: seq<View>, changes: seq<bool>)
    requires t <= |lists| && MayHold(lists, t, mint, e)
    ensures FullReplay(lists, views, changes) && Holds(views[t], mint, e)
  {
    var start, first := MayHoldHappens(lists, t, mint, e);
    views, changes := Completes(lists, start, first);
    assert views[..|start|][t] == views[t];
  }

  /** The decimals computed from the events are exactly those that some run of the block gives the mint. */
  lemma MayHoldIff(lists: seq<seq<Event>>, t: nat, mint: Address, e: byte)
    requires t <= |lists|
    ensures MayHold(lists, t, mint, e) <==>
      exists views, changes :: FullReplay(lists, views, changes) && Holds(views[t], mint, e)
  {
    if MayHold(lists, t, mint, e) {
      var views, changes := MayHoldRun(lists, t, mint, e);
    }
    forall views, changes | FullReplay(lists, views, changes) && Holds(views[t], mint, e)
      ensures MayHold(lists, t, mint, e)
    {
      HeldMayHold(lists, views, changes, t, mint, e);
    }
  }

  // ----- Mints are independent -----

  lemma RunsSameButDecimals(lists: seq<seq<Event>>, views: seq<View>, changes: seq<bool>,
                            views': seq<View>, changes': seq<bool>, t: nat)
    requires Replays(lists, views, changes) && Replays(lists, views', changes') && t <= |changes| && t <= |changes'|
    ensures SameButDecimals(views[t], views'[t])
  {
    FilledPrefix(lists, views, changes, |changes|, t);
    FilledPrefix(lists, views', changes', |changes'|, t);
    RunIsReplay(lists, views, changes, t);
    RunIsReplay(lists, views', changes', t);
  }

  lemma {:induction false} HasChangeSame(v: View, w: View, es: seq<Event>)
    requires SameButDecimals(v, w)
    ensures HasChange(v, es) == HasChange(w, es)
  {
    if es != [] {
      var n := |es| - 1;
      HasChangeSame(v, w, es[..n]);
      ApplyAllUpToDecimals(v, w, es[..n]);
    }
  }

  /** The accounts of one mint from w, all others from v. */
  ghost function Mix(v: View, w: View, mint: Address): View
    requires SameButDecimals(v, w)
  {
    map k | k in v :: if v[k].mint == mint then w[k] else v[k]
  }

  /** The maps are equal up to the decimals of one mint. */
  ghost predicate DifferOnlyIn(v: View, w: View, mint: Address) {
    SameButDecimals(v, w) && forall m | m != mint :: SameFor(v, w, m)
  }

  lemma MixIsSame(v: View, w: View, mint: Address)
    requires SameButDecimals(v, w)
    ensures SameFor(w, Mix(v, w, mint), mint) && DifferOnlyIn(v, Mix(v, w, mint), mint)
  {
    assert forall k | k in v :: w[k].mint == v[k].mint;
  }

  lemma SameIsMix(v: View, w: View, x: View, mint: Address)
    requires SameButDecimals(v, w) && SameFor(w, x, mint) && DifferOnlyIn(v, x, mint)
    ensures x == Mix(v, w, mint)
  {
    forall k | k in v
      ensures x[k] == Mix(v, w, mint)[k]
    {
      assert w[k].mint == v[k].mint;
      assert v[k].mint != mint ==> SameFor(v, x, v[k].mint);
    }
  }

  lemma MixAll(v: View, w: View, mint: Address, es: seq<Event>)
    requires SameButDecimals(v, w)
    ensures SameButDecimals(ApplyAll(v, es), ApplyAll(w, es))
    ensures ApplyAll(Mix(v, w, mint), es) == Mix(ApplyAll(v, es), ApplyAll(w, es), mint)
  {
    var x := Mix(v, w, mint);
    MixIsSame(v, w, mint);
    ApplyAllUpToDecimals(v, w, es);
    ApplyAllUpToDecimals(v, x, es);
    ApplyAllSameFor(w, x, mint, es);
    forall m | m != mint
      ensures SameFor(ApplyAll(v, es), ApplyAll(x, es), m)
    {
      ApplyAllSameFor(v, x, m, es);
    }
    SameIsMix(ApplyAll(v, es), ApplyAll(w, es), ApplyAll(x, es), mint);
  }

  /** What the pass does to one account. */
  ghost predicate PassesAt(v: View, w: View, k: Address)
    requires k in v && k in w
  {
    w[k] == v[k].(decimals := w[k].decimals) && HeldDecimals(v, v[k].mint, w[k].decimals)
  }

  /** An outcome of the pass, account by account. */
  ghost predicate Settles(v: View, w: View) {
    && w.Keys == v.Keys && UniformDecimals(w)
    && forall k {:trigger PassesAt(v, w, k)} | k in v :: PassesAt(v, w, k)
  }

  lemma PassSettles(v: View, w: View)
    requires DecimalsPass(v, w)
    ensures Settles(v, w)
  {
  }

  lemma MixUniform(v: View, w: View, mint: Address)
    requires SameButDecimals(v, w) && UniformDecimals(v) && UniformDecimals(w)
    ensures UniformDecimals(Mix(v, w, mint))
  {
    forall k, j | k in v && j in v && v[k].mint == v[j].mint
      ensures Mix(v, w, mint)[k].decimals == Mix(v, w, mint)[j].decimals
    {
      assert w[k].mint == v[k].mint && w[j].mint == v[j].mint;
    }
  }

  lemma MixHeld(v: View, w: View, mint: Address, m: Address, d: byte)
    requires SameButDecimals(v, w) && HeldDecimals(if m == mint then w else v, m, d)
    ensures HeldDecimals(Mix(v, w, mint), m, d)
  {
    var u := if m == mint then w else v;
    var j :| j in u && u[j].mint == m && u[j].decimals == d;
    assert w[j].mint == v[j].mint;
    assert Mix(v, w, mint)[j] == u[j];
  }

  lemma MixAt(v: View, v': View, w: View, w': View, mint: Address, k: Address)
    requires SameButDecimals(v, w) && SameButDecimals(v', w') && v'.Keys == v.Keys && k in v
    requires PassesAt(v, v', k) && PassesAt(w, w', k)
    ensures PassesAt(Mix(v, w, mint), Mix(v', w', mint), k)
  {
    assert w[k].mint == v[k].mint;
    MixHeld(v, w, mint, v[k].mint, if v[k].mint == mint then w'[k].decimals else v'[k].decimals);
  }

  lemma MixPasses(v: View, v': View, w: View, w': View, mint: Address)
    requires SameButDecimals(v, w) && SameButDecimals(v', w') && Settles(v, v') && Settles(w, w')
    ensures DecimalsPass(Mix(v, w, mint), Mix(v', w', mint))
  {
    var x, x' := Mix(v, w, mint), Mix(v', w', mint);
    MixUniform(v', w', mint);
    forall k | k in x
      ensures x'[k] == x[k].(decimals := x'[k].decimals) && HeldDecimals(x, x[k].mint, x'[k].decimals)
    {
      assert PassesAt(v, v', k) && PassesAt(w, w', k);
      MixAt(v, v', w, w', mint, k);
    }
  }

  lemma MixPass(v: View, v': View, w: View, w': View, mint: Address)
    requires SameButDecimals(v, w) && SameButDecimals(v', w') && DecimalsPass(v, v') && DecimalsPass(w, w')
    ensures DecimalsPass(Mix(v, w, mint), Mix(v', w', mint))
  {
    PassSettles(v, v');
    PassSettles(w, w');
    MixPasses(v, v', w, w', mint);
  }

  /** Two runs of a block can be mixed: one mint as in the second, the rest as in the first. */
  lemma {:induction false} MixRuns(lists: seq<seq<Event>>, views: seq<View>, changes: seq<bool>,
                                   views': seq<View>, changes': seq<bool>, mint: Address, n: nat)
    returns (mixed: seq<View>)
    requires FullReplay(lists, views, changes) && FullReplay(lists, views', changes') && n <= |lists|
    ensures Replays(lists, mixed, changes[..n]) && |mixed| == n + 1
    ensures forall t | 0 <= t <= n :: SameButDecimals(views[t], views'[t]) && mixed[t] == Mix(views[t], views'[t], mint)
  {
    if n == 0 {
      return [map[]];
    }
    mixed := MixRuns(lists, views, changes, views', changes', mint, n - 1);
    mixed := MixNext(lists, views, changes, views', changes', mint, n - 1, mixed);
  }

  lemma MixFills(v: View, v': View, w: View, w': View, es: seq<Event>, changed: bool, changed': bool, mint: Address)
    requires SameButDecimals(v, w) && SameButDecimals(v', w') && Fills(v, es, v', changed) && Fills(w, es, w', changed')
    ensures Fills(Mix(v, w, mint), es, Mix(v', w', mint), changed)
  {
    MixAll(v, w, mint, es);
    MixPass(ApplyAll(v, es), v', ApplyAll(w, es), w', mint);
    MixSameButDecimals(v, w, mint);
    HasChangeSame(v, Mix(v, w, mint), es);
  }

  lemma MixSameButDecimals(v: View, w: View, mint: Address)
    requires SameButDecimals(v, w)
    ensures SameButDecimals(v, Mix(v, w, mint))
  {
  }

  lemma MixNext(lists: seq<seq<Event>>, views: seq<View>, changes: seq<bool>,
                views': seq<View>, changes': seq<bool>, mint: Address, n: nat, before: seq<View>)
    returns (mixed: seq<View>)
    requires FullReplay(lists, views, changes) && FullReplay(lists, views', changes') && n < |lists|
    requires Replays(lists, before, changes[..n]) && |before| == n + 1
    requires forall t | 0 <= t <= n ::
      SameButDecimals(views[t], views'[t]) && before[t] == Mix(views[t], views'[t], mint)
    ensures Replays(lists, mixed, changes[..n + 1]) && |mixed| == n + 2
    ensures forall t | 0 <= t <= n + 1 ::
      SameButDecimals(views[t], views'[t]) && mixed[t] == Mix(views[t], views'[t], mint)
  {
    MixStep(lists, views, changes, views', changes', mint, n);
    var w := Mix(views[n + 1], views'[n + 1], mint);
    ReplaysExtends(lists, before, changes[..n], w, changes[n]);
    assert changes[..n + 1] == changes[..n] + [changes[n]];
    mixed := before + [w];
  }

  lemma FillsAt(lists: seq<seq<Event>>, views: seq<View>, changes: seq<bool>, t: nat)
    requires FullReplay(lists, views, changes) && t < |lists|
    ensures Fills(views[t], lists[t], views[t + 1], changes[t])
  {
    StepAt(lists, views, changes, t);
  }

  lemma MixStep(lists: seq<seq<Event>>, views: seq<View>, changes: seq<bool>,
                views': seq<View>, changes': seq<bool>, mint: Address, t: nat)
    requires FullReplay(lists, views, changes) && FullReplay(lists, views', changes') && t < |lists|
    ensures SameButDecimals(views[t], views'[t]) && SameButDecimals(views[t + 1], views'[t + 1])
    ensures Fills(Mix(views[t], views'[t], mint), lists[t], Mix(views[t + 1], views'[t + 1], mint), changes[t])
  {
    RunsSameButDecimals(lists, views, changes, views', changes', t);
    RunsSameButDecimals(lists, views, changes, views', changes', t + 1);
    FillsAt(lists, views, changes, t);
    FillsAt(lists, views', changes', t);
    MixFills(views[t], views[t + 1], views'[t], views'[t + 1], lists[t], changes[t], changes'[t], mint);
  }
}
