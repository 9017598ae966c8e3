/** The block table, and one worker's handling of one slot. */
module BlockStore {
  import opened GoArith
  import opened Chain
  import opened TokenAccounts
  import opened AccountHistory
  import opened SolPrice
  import opened BlockFetch
  import PumpEvents

  const PROCESSED := 1
  const FAILED := 2
  const SKIPPED := 3

  datatype Row = Row(id: int, slot: int, height: int, time: int, status: int, solPrice: real, message: string)

  /** Rows by primary key. */
  type Table = map<int, Row>

  ghost predicate HasSlot(t: Table, slot: int) {
    exists id :: id in t && t[id].slot == slot
  }

  /** What the schema guarantees: the key is the row's id, ids are assigned from 1, and no two rows share a slot. */
  ghost predicate TableOk(t: Table) {
    && (forall id | id in t :: id > 0 && t[id].id == id)
    && forall i, j | i in t && j in t && t[i].slot == t[j].slot :: i == j
  }

  // ----- The queries -----

  /** FindOneBySlot without a database error. */
  ghost predicate Finds(t: Table, slot: int, found: Option<Row>) {
    match found
    case None => !HasSlot(t, slot)
    case Some(row) => row.id in t && t[row.id] == row && row.slot == slot
  }

  /** INSERT with a fresh auto-increment id; the unique key on slot refuses a second row for a slot. */
  ghost predicate Inserts(t: Table, row: Row, newId: int, t': Table, ok: bool) {
    if HasSlot(t, row.slot) then !ok && t' == t
    else ok && newId > 0 && newId !in t && t' == t[newId := row.(id := newId)]
  }

  /** Save of a row with an id: UPDATE by primary key, which the unique key on slot may refuse. */
  ghost predicate Updates(t: Table, row: Row, t': Table, ok: bool) {
    if exists id :: id in t && t[id].slot == row.slot && id != row.id then !ok && t' == t
    else ok && t' == t[row.id := row]
  }

  /** saveOrUpdateSlot: rows that carry an id are updated, new ones inserted; the database may also fail. */
  ghost predicate Saves(t: Table, row: Row, dbFails: bool, newId: int, t': Table, ok: bool) {
    if dbFails then !ok && t' == t
    else if row.id != 0 then Updates(t, row, t', ok)
    else Inserts(t, row, newId, t', ok)
  }

  /** GetBatchFailedBlockBySlot: the failed rows above the bound with the highest slots, highest first. */
  ghost predicate FailedBatch(t: Table, bound: int, limit: nat, batch: seq<Row>) {
    && |batch| <= limit
    && (forall i | 0 <= i < |batch| ::
      batch[i].id in t && t[batch[i].id] == batch[i] && batch[i].status == FAILED && batch[i].slot > bound)
    && (forall i, j | 0 <= i < j < |batch| :: batch[i].slot > batch[j].slot)
    && forall id | id in t && t[id].status == FAILED && t[id].slot > bound && t[id] !in batch ::
      |batch| == limit && forall i | 0 <= i < limit :: t[id].slot < batch[i].slot
  }

  /** FindOneNearSlot: the processed row with the largest slot below the given one. */
  ghost predicate FindsNear(t: Table, slot: int, found: Option<Row>) {
    match found
    case None => forall id | id in t :: !(t[id].status == PROCESSED && t[id].slot < slot)
    case Some(row) =>
      && row.id in t && t[row.id] == row && row.status == PROCESSED && row.slot < slot
      && forall id | id in t && t[id].status == PROCESSED && t[id].slot < slot :: t[id].slot <= row.slot
  }

  // ----- What one fetch makes of a row -----

  function ValueOr<T>(o: Option<T>, default: T): T {
    if o.Some? then o.value else default
  }

  datatype Decision = Crash | Drop | Write(row: Row)

  /** A nil block without an error crashes the worker, a block without transactions is dropped, and anything else
      is written back to the row. */
  function Decide(row: Row, answer: Answer, now: int): Decision {
    match answer
    case Error(message) =>
      Write(row.(status := if SaysSkipped(message) then SKIPPED else FAILED, time := now, message := message))
    case Block(None) => Crash
    case Block(Some(b)) =>
      if b.transactions == [] then Drop
      else Write(row.(height := if b.height.Some? then b.height.value else row.height,
                      time := if b.time.Some? then b.time.value else now,
                      status := PROCESSED))
  }

  /** The status that an answer dictates. */
  function Dictated(answer: Answer): int {
    match answer
    case Error(message) => if SaysSkipped(message) then SKIPPED else FAILED
    case Block(_) => PROCESSED
  }

  /** Status 1 for a block, 3 for an error that says the slot was skipped, and 2 for any other error. */
  lemma DictatedIff(answer: Answer)
    ensures Dictated(answer) == 1 <==> answer.Block?
    ensures Dictated(answer) == 2 <==> answer.Error? && !SaysSkipped(answer.message)
    ensures Dictated(answer) == 3 <==> answer.Error? && SaysSkipped(answer.message)
  {
  }

  /** The row that stands for a slot without one. */
  function NewRow(slot: int): Row {
    Row(0, slot, 0, 0, 0, 0.0, "")
  }

  lemma NonEmptyHasMember(s: set<int>)
    requires s != {}
    ensures exists x :: x in s
  {
    NoMemberMeansEmpty(s);
  }

  lemma NoMemberMeansEmpty(s: set<int>)
    ensures (forall x :: x !in s) ==> s == {}
  {
    if forall x :: x !in s {
      assert s == {};
    }
  }

  // ----- The table as an object -----

  class BlockModel {
    var rows: Table

    constructor ()
      ensures rows == map[]
    {
      rows := map[];
    }

    method FindOneBySlot(slot: int) returns (found: Option<Row>)
      requires TableOk(rows)
      ensures Finds(rows, slot, found)
    {
      var todo := rows.Keys;
      while todo != {}
        invariant todo <= rows.Keys
        invariant forall id | id in rows && rows[id].slot == slot :: id in todo
        decreases todo
      {
        NonEmptyHasMember(todo);
        var id :| id in todo;
        if rows[id].slot == slot {
          return Some(rows[id]);
        }
        todo := todo - {id};
      }
      found := None;
    }

    method FindOneNearSlot(slot: int) returns (found: Option<Row>)
      requires TableOk(rows)
      ensures FindsNear(rows, slot, found)
    {
      found := None;
      var todo := rows.Keys;
      while todo != {}
        invariant todo <= rows.Keys
        invariant match found
          case None => forall id | id in rows && id !in todo :: !(rows[id].status == PROCESSED && rows[id].slot < slot)
          case Some(row) =>
            && row.id in rows && rows[row.id] == row && row.status == PROCESSED && row.slot < slot
            && forall id | id in rows && id !in todo && rows[id].status == PROCESSED && rows[id].slot < slot ::
              rows[id].slot <= row.slot
        decreases todo
      {
        NonEmptyHasMember(todo);
        var id :| id in todo;
        var row := rows[id];
        if row.status == PROCESSED && row.slot < slot && (found.None? || found.value.slot < row.slot) {
          found := Some(row);
        }
        todo := todo - {id};
      }
    }

    /** INSERT; id is the next auto-increment value. */
    method Insert(row: Row, newId: int) returns (ok: bool)
      requires TableOk(rows) && newId > 0 && newId !in rows
      modifies this
      ensures Inserts(old(rows), row, newId, rows, ok)
    {
      var found := FindOneBySlot(row.slot);
      ok := found.None?;
      if ok {
        rows := rows[newId := row.(id := newId)];
      }
    }

    method Update(row: Row) returns (ok: bool)
      requires TableOk(rows)
      modifies this
      ensures Updates(old(rows), row, rows, ok)
    {
      var found := FindOneBySlot(row.slot);
      ok := found.None? || found.value.id == row.id;
      if ok {
        rows := rows[row.id := row];
      }
    }

    method SaveOrUpdateSlot(row: Row, dbFails: bool, newId: int) returns (ok: bool)
      requires TableOk(rows) && newId > 0 && newId !in rows
      modifies this
      ensures Saves(old(rows), row, dbFails, newId, rows, ok)
    {
      if dbFails {
        return false;
      }
      if row.id != 0 {
        ok := Update(row);
      } else {
        ok := Insert(row, newId);
      }
    }
  }

  lemma SavesKeepTableOk(t: Table, row: Row, dbFails: bool, newId: int, t': Table, ok: bool)
    requires TableOk(t) && newId > 0 && newId !in t && Saves(t, row, dbFails, newId, t', ok)
    requires row.id >= 0
    ensures TableOk(t')
  {
    if ok && row.id == 0 {
      assert forall id | id in t :: t[id].slot != row.slot;
    }
  }

  // ----- One handling -----

  /** What the database and the clock contribute to one handling. */
  datatype Env = Env(lookupFails: bool, saveFails: bool, nearFails: bool, newId: int, now: int)

  /** Price is 0 where no block was priced; panicked tells whether parsing the pump instructions did. */
  datatype Handled =
    | Ignored
    | LookupFailed
    | Crashed
    | NoTransactions
    | SaveFailed
    | Saved(row: Row, price: real, panicked: bool)

  /** The worker is gone. */
  predicate EndsWorker(h: Handled) {
    h == Crashed || (h.Saved? && h.panicked)
  }

  ghost predicate RowFound(t: Table, slot: int, row: Row) {
    Finds(t, slot, Some(row)) || (Finds(t, slot, None) && row == NewRow(slot))
  }

  /** The table after a worker has found a row for a slot and fetched the answer, with what came of it. */
  ghost predicate Records(t: Table, row: Row, answer: Answer, env: Env, t': Table, h: Handled) {
    match Decide(row, answer, env.now)
    case Crash => h == Crashed && t' == t
    case Drop => h == NoTransactions && t' == t
    case Write(w) =>
      && Saves(t, w, env.saveFails, env.newId, t', !h.SaveFailed?)
      && (h.SaveFailed? || (h.Saved? && h.row == WithId(w, env.newId)))
      && (h.Saved? && answer.Error? ==> h.price == 0.0 && !h.panicked)
  }

  /** The row after a successful save: gorm fills in the id of an inserted row. */
  function WithId(row: Row, newId: int): Row {
    if row.id != 0 then row else row.(id := newId)
  }

  ghost predicate Handles(t: Table, slot: uint64, answer: Answer, env: Env, t': Table, h: Handled) {
    if slot == 0 then h == Ignored && t' == t
    else if env.lookupFails then h == LookupFailed && t' == t
    else exists row :: RowFound(t, AsInt64(slot), row) && Records(t, row, answer, env, t', h)
  }

  /** The transactions of a fetched block. */
  function TransactionsOf(answer: Answer): seq<Transaction> {
    if answer.Block? && answer.block.Some? then answer.block.value.transactions else []
  }

  /** The price of a saved block: settled from a run over its transactions, the row's price, and the nearest
      earlier processed row, unless that query fails. */
  ghost predicate Priced(t: Table, answer: Answer, row: Row, near: Option<Row>, nearFails: bool, price: real,
                         views: seq<View>, changes: seq<bool>) {
    var txs := TransactionsOf(answer);
    && FindsNear(t, row.slot, near)
    && BlockRun(txs, views, changes)
    && price == SettledPrice(BlockPrices(txs, views, changes), row.solPrice,
                             if nearFails || near.None? then None else Some(near.value.solPrice))
  }

  method LookUp(store: BlockModel, slot: int) returns (row: Row)
    requires TableOk(store.rows)
    ensures RowFound(store.rows, slot, row)
  {
    var found := store.FindOneBySlot(slot);
    row := if found.Some? then found.value else NewRow(slot);
  }

  /** The assignments to the row on the three paths of the handler. Id, slot and price of the row are kept, the status
      is what the answer dictates; an error leaves its message and no height, a block its height and no message. */
  method Record(row: Row, answer: Answer, now: int) returns (d: Decision)
    ensures d.Crash? <==> answer == Block(None)
    ensures d.Drop? <==> answer.Block? && answer.block.Some? && answer.block.value.transactions == []
    ensures d.Write? ==>
      d.row.id == row.id && d.row.slot == row.slot && d.row.solPrice == row.solPrice && d.row.status == Dictated(answer)
    ensures d.Write? && answer.Error? ==>
      d.row.message == answer.message && d.row.time == now && d.row.height == row.height
    ensures d.Write? && answer.Block? ==>
      && d.row.message == row.message
      && d.row.time == ValueOr(answer.block.value.time, now)
      && d.row.height == ValueOr(answer.block.value.height, row.height)
  {
    var dbBlock := row;
    match answer
    case Error(message) =>
      if SaysSkipped(message) {
        dbBlock := dbBlock.(status := SKIPPED);
        dbBlock := dbBlock.(time := now);
        dbBlock := dbBlock.(message := message);
        return Write(dbBlock);
      }
      dbBlock := dbBlock.(status := FAILED);
      dbBlock := dbBlock.(time := now);
      dbBlock := dbBlock.(message := message);
      d := Write(dbBlock);
    case Block(None) =>
      d := Crash;
    case Block(Some(block)) =>
      if |block.transactions| == 0 {
        return Drop;
      }
      if block.height.Some? {
        dbBlock := dbBlock.(height := block.height.value);
      }
      if block.time.Some? {
        dbBlock := dbBlock.(time := block.time.value);
      } else {
        dbBlock := dbBlock.(time := now);
      }
      dbBlock := dbBlock.(status := PROCESSED);
      d := Write(dbBlock);
  }

  method PriceBlock(store: BlockModel, answer: Answer, row: Row, nearFails: bool)
    returns (accounts: TokenAccountMap, price: real,
             ghost near: Option<Row>, ghost views: seq<View>, ghost changes: seq<bool>)
    requires TableOk(store.rows)
    requires forall t | 0 <= t < |TransactionsOf(answer)| :: InRange(TransactionsOf(answer)[t])
    ensures Priced(store.rows, answer, row, near, nearFails, price, views, changes)
    ensures fresh(accounts) && fresh(accounts.entries.Values)
    ensures accounts.View() == views[|TransactionsOf(answer)|]
  {
    var found := store.FindOneNearSlot(row.slot);
    var nearPrice := if nearFails || found.None? then None else Some(found.value.solPrice);
    near := found;
    accounts, price, views, changes := GetSolPrice(TransactionsOf(answer), row.solPrice, nearPrice);
  }

  /** What the rest of the handler does with a saved block: it settles a price and, if that is positive, parses the
      pump instructions with the account map of the block. */
  ghost predicate Finishes(t: Table, answer: Answer, row: Row, nearFails: bool, price: real, panicked: bool) {
    exists near, views, changes ::
      && Priced(t, answer, row, near, nearFails, price, views, changes)
      && if price > 0.0 then ParsesAll(TransactionsOf(answer), views, panicked) else !panicked
  }

  lemma FinishesWith(t: Table, answer: Answer, row: Row, near: Option<Row>, nearFails: bool, price: real,
                     views: seq<View>, changes: seq<bool>, panicked: bool)
    requires if price > 0.0 then ParsesAll(TransactionsOf(answer), views, panicked) else !panicked
    ensures Priced(t, answer, row, near, nearFails, price, views, changes) ==>
      Finishes(t, answer, row, nearFails, price, panicked)
  {
  }

  ghost predicate ParsesAll(txs: seq<Transaction>, views: seq<View>, panicked: bool) {
    && |views| == |txs| + 1
    && ParsesWith(txs, views[|txs|], panicked)
  }

  ghost predicate ParsesWith(txs: seq<Transaction>, v: View, panicked: bool) {
    && PumpEvents.AllProgramsInRange(txs)
    && exists n, consumed, held :: PumpEvents.ParsesBlock(txs, v, n, panicked, consumed, held)
  }

  /** The pump instructions of a priced block, parsed with a fresh cursor. */
  method ParsePump(txs: seq<Transaction>, accounts: TokenAccountMap, price: real) returns (panicked: bool)
    requires PumpEvents.AllProgramsInRange(txs)
    ensures ParsesWith(txs, accounts.View(), panicked)
  {
    ghost var v := accounts.View();
    var tx := new PumpEvents.TxDecodeEntity(price, accounts);
    assert tx.accounts.View() == v;
    var n;
    ghost var consumed;
    n, panicked, consumed := PumpEvents.ParseTxInstruction(txs, tx);
  }

  /** The part of the handler after a block was saved. */
  method FinishBlock(store: BlockModel, answer: Answer, row: Row, nearFails: bool) returns (price: real, panicked: bool)
    requires TableOk(store.rows)
    requires forall t | 0 <= t < |TransactionsOf(answer)| :: InRange(TransactionsOf(answer)[t])
    ensures Finishes(store.rows, answer, row, nearFails, price, panicked)
    ensures price <= 0.0 ==> !panicked
  {
    ghost var near, views, changes;
    var accounts;
    var txs := TransactionsOf(answer);
    accounts, price, near, views, changes := PriceBlock(store, answer, row, nearFails);
    ghost var t := store.rows;
    panicked := false;
    if price > 0.0 {
      panicked := ParsePump(txs, accounts, price);
    }
    FinishesWith(t, answer, row, near, nearFails, price, views, changes, panicked);
  }

  /** handleTransacton. */
  method HandleTransacton(store: BlockModel, slot: uint64, attempts: nat -> Attempt, env: Env) returns (h: Handled)
    requires TableOk(store.rows) && env.newId > 0 && env.newId !in store.rows
    requires var txs := TransactionsOf(FetchResult(attempts)); forall t | 0 <= t < |txs| :: InRange(txs[t])
    modifies store
    ensures Handles(old(store.rows), slot, FetchResult(attempts), env, store.rows, h)
    ensures h.Saved? && FetchResult(attempts).Block? ==>
      Finishes(store.rows, FetchResult(attempts), h.row, env.nearFails, h.price, h.panicked)
    ensures h.Saved? && h.price <= 0.0 ==> !h.panicked
    ensures TableOk(store.rows)
  {
    if slot == 0 {
      return Ignored;
    }
    if env.lookupFails {
      return LookupFailed;
    }
    var row := LookUp(store, AsInt64(slot));
    var answer, _, _ := GetSolBlockInfo(attempts);
    var decision := Record(row, answer, env.now);
    match decision
    case Crash =>
      h := Crashed;
    case Drop =>
      h := NoTransactions;
    case Write(w) =>
      var ok := store.SaveOrUpdateSlot(w, env.saveFails, env.newId);
      SavesKeepTableOk(old(store.rows), w, env.saveFails, env.newId, store.rows, ok);
      if !ok {
        return SaveFailed;
      }
      var price, panicked := 0.0, false;
      if answer.Block? {
        price, panicked := FinishBlock(store, answer, WithId(w, env.newId), env.nearFails);
      }
      h := Saved(WithId(w, env.newId), price, panicked);
  }
}
