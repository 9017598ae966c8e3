/** What one handling of a slot comes to, stated of its inputs and of the table alone. */
module HandlingProperties {
  import opened GoArith
  import opened AccountHistory
  import opened SolPrice
  import opened BlockFetch
  import opened BlockStore

  /** The processed row with the largest slot below the given one. */
  ghost predicate IsNearest(t: Table, slot: int, near: Row) {
    && near.id in t && t[near.id] == near && near.status == 1 && near.slot < slot
    && forall id | id in t && t[id].status == 1 && near.slot < t[id].slot :: t[id].slot >= slot
  }

  /** What a finished block's price is: settled from its transactions, the row's own price, and the price of the
      nearest earlier processed row if there is one and the query succeeds. Pump instructions are parsed, with the last
      map of the block, exactly for a positive price. */
  lemma FinishedIff(t: Table, answer: Answer, row: Row, nearFails: bool, price: real, panicked: bool)
    requires Finishes(t, answer, row, nearFails, price, panicked)
    ensures price <= 0.0 ==> !panicked
    ensures exists views, changes, nearPrice ::
      var txs := TransactionsOf(answer);
      && BlockRun(txs, views, changes)
      && price == SettledPrice(BlockPrices(txs, views, changes), row.solPrice, nearPrice)
      && (price > 0.0 ==> ParsesAll(txs, views, panicked))
      && IsNearPrice(t, row.slot, nearFails, nearPrice)
  {
    var near, views, changes :|
      && Priced(t, answer, row, near, nearFails, price, views, changes)
      && if price > 0.0 then ParsesAll(TransactionsOf(answer), views, panicked) else !panicked;
    var nearPrice := if nearFails || near.None? then None else Some(near.value.solPrice);
    if nearPrice.Some? {
      assert IsNearest(t, row.slot, near.value);
    }
    assert IsNearPrice(t, row.slot, nearFails, nearPrice);
  }

  ghost predicate IsNearPrice(t: Table, slot: int, nearFails: bool, nearPrice: Option<real>) {
    match nearPrice
    case Some(p) => !nearFails && exists near :: IsNearest(t, slot, near) && near.solPrice == p
    case None => nearFails || forall id | id in t && t[id].status == 1 :: t[id].slot >= slot
  }

  /** The slot is looked up and fetched. */
  predicate Reached(slot: uint64, env: Env) {
    slot != 0 && !env.lookupFails
  }

  /** The answer is an error, or a block with transactions. */
  predicate IsWritten(answer: Answer) {
    answer.Error? || (answer.block.Some? && answer.block.value.transactions != [])
  }

  /** When each of the outcomes comes about. */
  lemma HandledIff(t: Table, slot: uint64, answer: Answer, env: Env, t': Table, h: Handled)
    requires TableOk(t) && env.newId > 0 && env.newId !in t && Handles(t, slot, answer, env, t', h)
    ensures h.Ignored? <==> slot == 0
    ensures h.LookupFailed? <==> slot != 0 && env.lookupFails
    ensures h.Crashed? <==> Reached(slot, env) && answer == Block(None)
    ensures h.NoTransactions? <==>
      Reached(slot, env) && answer.Block? && answer.block.Some? && answer.block.value.transactions == []
    ensures h.SaveFailed? <==> Reached(slot, env) && IsWritten(answer) && env.saveFails
    ensures h.Saved? <==> Reached(slot, env) && IsWritten(answer) && !env.saveFails
    ensures h.Saved? && answer.Error? ==> h.price == 0.0 && !h.panicked
  {
    if Reached(slot, env) {
      var row :| RowFound(t, AsInt64(slot), row) && Records(t, row, answer, env, t', h);
    }
  }

  /** The stored row of a slot, or one that was never saved. */
  ghost predicate WasStored(t: Table, slot: int, stored: Row) {
    if HasSlot(t, slot) then stored.id in t && t[stored.id] == stored && stored.slot == slot
    else stored.height == 0 && stored.message == "" && stored.solPrice == 0.0
  }

  /** The fields of a saved row: an error brings its message and the present time, a block its height and time where it
      has them; the rest is as stored. */
  lemma SavedFields(t: Table, slot: uint64, answer: Answer, env: Env, t': Table, h: Handled)
    requires TableOk(t) && env.newId !in t && Handles(t, slot, answer, env, t', h) && h.Saved?
    ensures exists stored ::
      && WasStored(t, AsInt64(slot), stored) && h.row.solPrice == stored.solPrice
      && match answer
         case Error(message) => h.row.message == message && h.row.time == env.now && h.row.height == stored.height
         case Block(None) => false
         case Block(Some(b)) =>
           && h.row.message == stored.message
           && (if b.time.Some? then b.time == Some(h.row.time) else h.row.time == env.now)
           && (if b.height.Some? then b.height == Some(h.row.height) else h.row.height == stored.height)
  {
    var row :| RowFound(t, AsInt64(slot), row) && Records(t, row, answer, env, t', h);
    assert WasStored(t, AsInt64(slot), row);
  }

  /** Whatever the handler saves is the row of its slot, with the status that the answer dictates and the price the
      row had; no other row changes, and a new row appears only where the slot had none. */
  lemma SavedAsDictated(t: Table, slot: uint64, answer: Answer, env: Env, t': Table, h: Handled)
    requires TableOk(t) && env.newId !in t && Handles(t, slot, answer, env, t', h)
    ensures !h.Saved? ==> t' == t
    ensures h.Saved? ==>
      && h.row.slot == AsInt64(slot) && h.row.status == Dictated(answer)
      && t' == t[h.row.id := h.row]
      && (h.row.id in t <==> HasSlot(t, AsInt64(slot)))
      && (h.row.id in t ==> t[h.row.id].slot == AsInt64(slot) && t[h.row.id].solPrice == h.row.solPrice)
  {
    if slot != 0 && !env.lookupFails {
      var row :| RowFound(t, AsInt64(slot), row) && Records(t, row, answer, env, t', h);
    }
  }
}
