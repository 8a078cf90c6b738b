/** Order numbers under concurrent transactions: `allocateNextOrderNumber`
    (apps/api/src/database/order-number.ts) and the inserts that use it.

    Transactions interleave step by step. Statements see committed rows and the transaction's own,
    an advisory transaction lock is held until commit or abort, and no order is ever deleted.
    The lock is chosen by a hash of the location, about which nothing is assumed. */
module OrderNumbers {
  type TxId = nat
  type Location = string

  datatype Row = Row(location: Location, number: int)

  /** What a transaction is doing: its own business, waiting for the lock, holding it
      and about to read, or holding a number for an order it is about to insert. */
  datatype Stage = Free | Waiting(location: Location) | Locked(location: Location) | Numbered(row: Row)

  datatype Transaction = Transaction(held: set<int>, rows: seq<Row>, stage: Stage)

  datatype Database = Database(orders: seq<Row>, txs: map<TxId, Transaction>)

  datatype Event =
    | Begin(tx: TxId)
    | Ask(tx: TxId, location: Location)
    | Grant(tx: TxId)
    | Read(tx: TxId)
    | Insert(tx: TxId)
    | Commit(tx: TxId)
    | Abort(tx: TxId)

  const FIRST_ORDER_NUMBER := 1001

  /** The latest order number of a location, 0 if it has no order. */
  function Latest(rows: seq<Row>, location: Location): (n: int) {
    if rows == [] then 0
    else
      var n := Latest(rows[..|rows| - 1], location);
      var r := rows[|rows| - 1];
      if r.location == location && (n == 0 || r.number > n) then r.number else n
  }

  function Next(rows: seq<Row>, location: Location): int {
    if Latest(rows, location) == 0 then FIRST_ORDER_NUMBER else Latest(rows, location) + 1
  }

  predicate LockFree(db: Database, tx: TxId, key: int) {
    forall u :: u in db.txs && u != tx ==> key !in db.txs[u].held
  }

  /** `@@unique([locationId, orderNumber])` would refuse the insert. */
  predicate Clash(db: Database, tx: TxId, row: Row) {
    row in db.orders || exists u :: u in db.txs && row in db.txs[u].rows
  }

  function Ended(db: Database, tx: TxId): Database {
    db.(txs := db.txs - {tx})
  }

  function Apply(hash: Location -> int, db: Database, e: Event): Database {
    var t := e.tx;
    if e.Begin? then
      if t in db.txs then db else db.(txs := db.txs[t := Transaction({}, [], Free)])
    else if t !in db.txs then db
    else
      var x := db.txs[t];
      match e
      case Ask(_, location) =>
        if x.stage.Free? then db.(txs := db.txs[t := x.(stage := Waiting(location))]) else db
      case Grant(_) =>
        if x.stage.Waiting? && LockFree(db, t, hash(x.stage.location))
        then db.(txs := db.txs[t := x.(held := x.held + {hash(x.stage.location)}, stage := Locked(x.stage.location))])
        else db
      case Read(_) =>
        if x.stage.Locked?
        then
          var row := Row(x.stage.location, Next(db.orders + x.rows, x.stage.location));
          db.(txs := db.txs[t := x.(stage := Numbered(row))])
        else db
      case Insert(_) =>
        if !x.stage.Numbered? then db
        else if Clash(db, t, x.stage.row) then Ended(db, t)
        else db.(txs := db.txs[t := x.(rows := x.rows + [x.stage.row], stage := Free)])
      case Commit(_) =>
        if x.stage.Free? then Ended(db, t).(orders := db.orders + x.rows) else db
      case Abort(_) => Ended(db, t)
  }

  function Run(hash: Location -> int, events: seq<Event>): Database {
    if events == [] then Database([], map[])
    else Apply(hash, Run(hash, events[..|events| - 1]), events[|events| - 1])
  }

  // ----- the allocation itself

  /** The rows and locks one server process works on. */
  class OrderStore {
    var orders: seq<Row>
    var txs: map<TxId, Transaction>

    function State(): Database
      reads this
    {
      Database(orders, txs)
    }

    /** One uninterrupted allocation: the lock is free when asked for. */
    method AllocateNextOrderNumber(hash: Location -> int, tx: TxId, location: Location) returns (number: int)
      requires tx in txs && txs[tx].stage.Free? && LockFree(State(), tx, hash(location))
      modifies this
      ensures State() == Apply(hash, Apply(hash, Apply(hash, old(State()), Ask(tx, location)), Grant(tx)), Read(tx))
      ensures orders == old(orders) && tx in txs && txs[tx].stage == Numbered(Row(location, number))
      ensures hash(location) in txs[tx].held
    {
      var x := txs[tx];
      txs := txs[tx := x.(held := x.held + {hash(location)}, stage := Locked(location))];
      var visible := orders + x.rows;
      var latest := 0;
      for i := 0 to |visible|
        invariant latest == Latest(visible[..i], location)
      {
        assert visible[..i + 1][..i] == visible[..i];
        if visible[i].location == location && (latest == 0 || visible[i].number > latest) {
          latest := visible[i].number;
        }
      }
      assert visible[..|visible|] == visible;
      number := if latest == 0 then FIRST_ORDER_NUMBER else latest + 1;
      txs := txs[tx := txs[tx].(stage := Numbered(Row(location, number)))];
      assert LockFree(Apply(hash, old(State()), Ask(tx, location)), tx, hash(location));
    }
  }
}
