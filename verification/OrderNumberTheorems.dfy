/** What every run of the order-number transactions keeps (apps/api/src/database/order-number.ts). */
module OrderNumberTheorems {
  import opened OrderNumbers

  // ----- what every run keeps

  /** A location's order numbers, in the order the rows were written. */
  function Numbers(rows: seq<Row>, location: Location): seq<int> {
    if rows == [] then []
    else
      Numbers(rows[..|rows| - 1], location)
      + if rows[|rows| - 1].location == location then [rows[|rows| - 1].number] else []
  }

  predicate Consecutive(s: seq<int>) {
    forall i :: 0 <= i < |s| ==> s[i] == 1001 + i
  }

  lemma {:induction false} NumbersConcat(a: seq<Row>, b: seq<Row>, location: Location)
    ensures Numbers(a + b, location) == Numbers(a, location) + Numbers(b, location)
  {
    if b == [] {
      assert a + b == a;
    } else {
      assert (a + b)[..|a + b| - 1] == a + b[..|b| - 1];
      NumbersConcat(a, b[..|b| - 1], location);
    }
  }

  lemma {:induction false} NumbersElsewhere(rows: seq<Row>, location: Location)
    requires forall r :: r in rows ==> r.location != location
    ensures Numbers(rows, location) == []
  {
    if rows != [] {
      NumbersElsewhere(rows[..|rows| - 1], location);
    }
  }

  lemma {:induction false} NumbersContain(rows: seq<Row>, row: Row)
    requires row in rows
    ensures row.number in Numbers(rows, row.location)
  {
    var n := |rows| - 1;
    if rows[n] != row {
      assert row in rows[..n];
      NumbersContain(rows[..n], row);
    }
  }

  lemma {:induction false} NextIsCount(rows: seq<Row>, location: Location)
    requires Consecutive(Numbers(rows, location))
    ensures Numbers(rows, location) == [] ==> Latest(rows, location) == 0
    ensures Numbers(rows, location) != [] ==> Latest(rows, location) == FIRST_ORDER_NUMBER + |Numbers(rows, location)| - 1
    ensures Next(rows, location) == FIRST_ORDER_NUMBER + |Numbers(rows, location)|
  {
    if rows != [] {
      var init := rows[..|rows| - 1];
      var s := Numbers(rows, location);
      assert forall i :: 0 <= i < |Numbers(init, location)| ==> Numbers(init, location)[i] == s[i];
      NextIsCount(init, location);
      if rows[|rows| - 1].location == location {
        assert s[|s| - 1] == rows[|rows| - 1].number;
      }
    }
  }

  /** A transaction's rows continue the committed ones, and it holds the lock of every location it touches. */
  ghost predicate Sound(hash: Location -> int, orders: seq<Row>, x: Transaction) {
    && (forall r :: r in x.rows ==> hash(r.location) in x.held)
    && (forall l :: Consecutive(Numbers(orders + x.rows, l)))
    && (x.stage.Locked? ==> hash(x.stage.location) in x.held)
    && (x.stage.Numbered? ==>
          hash(x.stage.row.location) in x.held
          && x.stage.row.number == FIRST_ORDER_NUMBER + |Numbers(orders + x.rows, x.stage.row.location)|)
  }

  ghost predicate Invariant(hash: Location -> int, db: Database) {
    && (forall l :: Consecutive(Numbers(db.orders, l)))
    && (forall t :: t in db.txs ==> Sound(hash, db.orders, db.txs[t]))
    && (forall t, u :: t in db.txs && u in db.txs && t != u ==> db.txs[t].held !! db.txs[u].held)
  }

  lemma {:induction false} ReadKeeps(hash: Location -> int, orders: seq<Row>, x: Transaction)
    requires Sound(hash, orders, x) && x.stage.Locked?
    ensures Sound(hash, orders, x.(stage := Numbered(Row(x.stage.location, Next(orders + x.rows, x.stage.location)))))
  {
    NextIsCount(orders + x.rows, x.stage.location);
  }

  lemma {:induction false} InsertKeeps(hash: Location -> int, orders: seq<Row>, x: Transaction)
    requires Sound(hash, orders, x) && x.stage.Numbered?
    ensures Sound(hash, orders, x.(rows := x.rows + [x.stage.row], stage := Free))
  {
    var row := x.stage.row;
    forall l ensures Consecutive(Numbers(orders + (x.rows + [row]), l)) {
      assert orders + (x.rows + [row]) == (orders + x.rows) + [row];
      assert ((orders + x.rows) + [row])[..|orders + x.rows|] == orders + x.rows;
      assert Consecutive(Numbers(orders + x.rows, l));
    }
  }

  /** A commit appends rows only where no other transaction holds the lock. */
  lemma {:induction false} CommitKeeps(hash: Location -> int, orders: seq<Row>, x: Transaction, other: Transaction)
    requires Sound(hash, orders, x) && Sound(hash, orders, other) && x.held !! other.held
    ensures Sound(hash, orders + x.rows, other)
  {
    forall l ensures Consecutive(Numbers(orders + x.rows + other.rows, l))
      ensures hash(l) in other.held ==> Numbers(orders + x.rows + other.rows, l) == Numbers(orders + other.rows, l)
    {
      NumbersConcat(orders + x.rows, other.rows, l);
      NumbersConcat(orders, x.rows, l);
      NumbersConcat(orders, other.rows, l);
      assert Consecutive(Numbers(orders + x.rows, l)) && Consecutive(Numbers(orders + other.rows, l));
      if hash(l) in other.held {
        NumbersElsewhere(x.rows, l);
        assert Numbers(orders + x.rows + other.rows, l) == Numbers(orders + other.rows, l);
      } else {
        NumbersElsewhere(other.rows, l);
        assert Numbers(orders + x.rows + other.rows, l) == Numbers(orders + x.rows, l);
      }
    }
  }

  /** Under the invariant the unique index never refuses a number. */
  lemma {:induction false} NoClash(hash: Location -> int, db: Database, t: TxId)
    requires Invariant(hash, db) && t in db.txs && db.txs[t].stage.Numbered?
    ensures !Clash(db, t, db.txs[t].stage.row)
  {
    var x := db.txs[t];
    var row := x.stage.row;
    NumbersConcat(db.orders, x.rows, row.location);
    assert Consecutive(Numbers(db.orders + x.rows, row.location));
    assert row.number !in Numbers(db.orders + x.rows, row.location);
    if row in db.orders { NumbersContain(db.orders, row); }
    forall u | u in db.txs ensures row !in db.txs[u].rows {
      if u == t {
        if row in x.rows { NumbersContain(x.rows, row); }
      } else {
        assert hash(row.location) !in db.txs[u].held;
      }
    }
  }

  lemma {:induction false} CommitStep(hash: Location -> int, db: Database, t: TxId)
    requires Invariant(hash, db) && t in db.txs && db.txs[t].stage.Free?
    ensures Invariant(hash, Apply(hash, db, Commit(t)))
  {
    hide Sound;
    var x := db.txs[t];
    var after := Apply(hash, db, Commit(t));
    assert forall l :: Consecutive(Numbers(db.orders + x.rows, l)) by { SoundExtends(hash, db.orders, x); }
    forall u | u in after.txs ensures Sound(hash, after.orders, after.txs[u]) {
      CommitKeeps(hash, db.orders, x, db.txs[u]);
    }
  }

  lemma {:induction false} SoundExtends(hash: Location -> int, orders: seq<Row>, x: Transaction)
    requires Sound(hash, orders, x)
    ensures forall l :: Consecutive(Numbers(orders + x.rows, l))
  {
  }

  /** Replacing one transaction's record, its locks unchanged. */
  lemma {:induction false} UpdateStep(hash: Location -> int, db: Database, t: TxId, y: Transaction)
    requires Invariant(hash, db) && t in db.txs && y.held == db.txs[t].held && Sound(hash, db.orders, y)
    ensures Invariant(hash, db.(txs := db.txs[t := y]))
  {
    hide Sound;
  }

  lemma {:induction false} BeginStep(hash: Location -> int, db: Database, t: TxId)
    requires Invariant(hash, db) && t !in db.txs
    ensures Invariant(hash, Apply(hash, db, Begin(t)))
  {
    assert db.orders + [] == db.orders;
    assert Sound(hash, db.orders, Transaction({}, [], Free));
    hide Sound;
  }

  lemma {:induction false} GrantStep(hash: Location -> int, db: Database, t: TxId)
    requires Invariant(hash, db)
    ensures Invariant(hash, Apply(hash, db, Grant(t)))
  {
    if t in db.txs && db.txs[t].stage.Waiting? && LockFree(db, t, hash(db.txs[t].stage.location)) {
      var x := db.txs[t];
      var y := x.(held := x.held + {hash(x.stage.location)}, stage := Locked(x.stage.location));
      assert Sound(hash, db.orders, y) by { assert Sound(hash, db.orders, x); }
      hide Sound;
      assert Apply(hash, db, Grant(t)) == db.(txs := db.txs[t := y]);
    }
  }

  lemma {:induction false} StepKeeps(hash: Location -> int, db: Database, e: Event)
    requires Invariant(hash, db)
    ensures Invariant(hash, Apply(hash, db, e))
  {
    hide Sound, Clash, LockFree;
    var t := e.tx;
    if e.Begin? {
      if t !in db.txs { BeginStep(hash, db, t); }
    } else if e.Grant? {
      GrantStep(hash, db, t);
    } else if t in db.txs {
      var x := db.txs[t];
      match e
      case Ask(_, location) =>
        if x.stage.Free? {
          assert Sound(hash, db.orders, x.(stage := Waiting(location))) by { WaitingSound(hash, db.orders, x, location); }
          UpdateStep(hash, db, t, x.(stage := Waiting(location)));
        }
      case Read(_) =>
        if x.stage.Locked? {
          ReadKeeps(hash, db.orders, x);
          UpdateStep(hash, db, t, x.(stage := Numbered(Row(x.stage.location, Next(db.orders + x.rows, x.stage.location)))));
        }
      case Insert(_) =>
        if x.stage.Numbered? {
          NoClash(hash, db, t);
          InsertKeeps(hash, db.orders, x);
          UpdateStep(hash, db, t, x.(rows := x.rows + [x.stage.row], stage := Free));
        }
      case Commit(_) =>
        if x.stage.Free? { CommitStep(hash, db, t); }
      case Abort(_) =>
    }
  }

  lemma {:induction false} WaitingSound(hash: Location -> int, orders: seq<Row>, x: Transaction, location: Location)
    requires Sound(hash, orders, x)
    ensures Sound(hash, orders, x.(stage := Waiting(location)))
  {
  }

  lemma {:induction false} RunKeeps(hash: Location -> int, events: seq<Event>)
    ensures Invariant(hash, Run(hash, events))
  {
    if events != [] {
      hide Invariant, Apply;
      RunKeeps(hash, events[..|events| - 1]);
      StepKeeps(hash, Run(hash, events[..|events| - 1]), events[|events| - 1]);
    } else {
      assert forall l :: Numbers([], l) == [];
    }
  }

  /** However transactions interleave, abort and share locks, a location's committed orders
      are numbered 1001, 1002, … in the order they were committed, without gap or repetition. */
  lemma {:induction false} CommittedConsecutive(hash: Location -> int, events: seq<Event>, location: Location)
    ensures Consecutive(Numbers(Run(hash, events).orders, location))
  {
    RunKeeps(hash, events);
  }

  /** In no run does the unique index refuse an insert. */
  lemma {:induction false} UniqueIndexNeverRefuses(hash: Location -> int, events: seq<Event>, t: TxId)
    requires t in Run(hash, events).txs && Run(hash, events).txs[t].stage.Numbered?
    ensures t in Run(hash, events + [Insert(t)]).txs
  {
    RunKeeps(hash, events);
    NoClash(hash, Run(hash, events), t);
    assert (events + [Insert(t)])[..|events|] == events;
    hide Clash;
  }

  /** Committed orders keep their numbers for ever. */
  lemma {:induction false} CommittedStay(hash: Location -> int, events: seq<Event>, k: nat)
    requires k <= |events|
    ensures Run(hash, events[..k]).orders <= Run(hash, events).orders
  {
    if k == |events| {
      assert events[..k] == events;
    } else {
      var init := events[..|events| - 1];
      CommittedStay(hash, init, k);
      assert init[..k] == events[..k];
    }
  }

  /** A transaction that commits gives its orders the numbers it read, next in line at its locations. */
  lemma {:induction false} CommitAppends(hash: Location -> int, events: seq<Event>, t: TxId, location: Location)
    requires var db := Run(hash, events); t in db.txs && db.txs[t].stage.Free?
    ensures var db := Run(hash, events);
            var own := Numbers(db.txs[t].rows, location);
            var before := Numbers(db.orders, location);
            Numbers(Run(hash, events + [Commit(t)]).orders, location) == before + own
            && forall i :: 0 <= i < |own| ==> own[i] == 1001 + |before| + i
  {
    RunKeeps(hash, events);
    assert (events + [Commit(t)])[..|events|] == events;
    var db := Run(hash, events);
    SoundRows(hash, db, t);
    OwnFollow(hash, db.orders, db.txs[t], location);
    hide Sound, Invariant, Numbers;
  }

  lemma {:induction false} SoundRows(hash: Location -> int, db: Database, t: TxId)
    requires Invariant(hash, db) && t in db.txs
    ensures Sound(hash, db.orders, db.txs[t])
  {
    hide Sound;
  }

  lemma {:induction false} OwnFollow(hash: Location -> int, orders: seq<Row>, x: Transaction, location: Location)
    requires Sound(hash, orders, x)
    ensures var own, before := Numbers(x.rows, location), Numbers(orders, location);
            Numbers(orders + x.rows, location) == before + own && forall i :: 0 <= i < |own| ==> own[i] == 1001 + |before| + i
  {
    NumbersConcat(orders, x.rows, location);
    SoundExtends(hash, orders, x);
    hide Sound, Numbers;
    var all := Numbers(orders + x.rows, location);
    var own, before := Numbers(x.rows, location), Numbers(orders, location);
    assert Consecutive(all);
    assert forall i :: 0 <= i < |own| ==> own[i] == all[|before| + i];
  }

  /** A new transaction that gets the lock and is not interrupted stores its order, with the number next
      in line at its location, and leaves nothing held. */
  lemma {:induction false} OrderIsStored(hash: Location -> int, events: seq<Event>, t: TxId, location: Location)
    requires t !in Run(hash, events).txs && LockFree(Run(hash, events), t, hash(location))
    ensures var db := Run(hash, events);
            var asking := Apply(hash, Apply(hash, db, Begin(t)), Ask(t, location));
            var numbered := Apply(hash, Apply(hash, asking, Grant(t)), Read(t));
            var placed := Apply(hash, Apply(hash, numbered, Insert(t)), Commit(t));
            placed.orders == db.orders + [Row(location, 1001 + |Numbers(db.orders, location)|)] && placed.txs == db.txs
  {
    RunKeeps(hash, events);
    hide Run, Invariant, Clash;
    var db := Run(hash, events);
    var numbered := NumberedTransaction(hash, db, t, location);
    NoClash(hash, numbered, t);
    assert db.txs == numbered.txs - {t};
  }

  /** The same up to the point where the transaction has its number. */
  lemma {:induction false} NumberedTransaction(hash: Location -> int, db: Database, t: TxId, location: Location) returns (numbered: Database)
    requires Invariant(hash, db) && t !in db.txs && LockFree(db, t, hash(location))
    ensures numbered == Apply(hash, Apply(hash, Apply(hash, Apply(hash, db, Begin(t)), Ask(t, location)), Grant(t)), Read(t))
    ensures Invariant(hash, numbered) && numbered.orders == db.orders && t in numbered.txs && numbered.txs - {t} == db.txs
    ensures numbered.txs[t].stage == Numbered(Row(location, 1001 + |Numbers(db.orders, location)|)) && numbered.txs[t].rows == []
  {
    NextIsCount(db.orders, location);
    hide Invariant, Next, Latest;
    var a := Apply(hash, db, Begin(t));
    StepKeeps(hash, db, Begin(t));
    var b := Apply(hash, a, Ask(t, location));
    StepKeeps(hash, a, Ask(t, location));
    assert b.txs[t] == Transaction({}, [], Waiting(location));
    assert LockFree(b, t, hash(location));
    var c := Apply(hash, b, Grant(t));
    StepKeeps(hash, b, Grant(t));
    assert c.txs[t] == Transaction({} + {hash(location)}, [], Locked(location));
    numbered := Apply(hash, c, Read(t));
    StepKeeps(hash, c, Read(t));
    assert c.orders + c.txs[t].rows == db.orders;
    assert numbered.txs - {t} == db.txs;
  }
}
