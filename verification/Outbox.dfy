/**
 * test/memory_storage.go and homeserver/outbound_transactions.go: the per-destination EDU queue, locked by one
 * transaction at a time, which takes batches of at most 100 and either commits or rolls back.
 */
module Outbox {
  import opened Basics

  type Destination = string
  type Payload = string
  type TxnId = nat

  /** The Matrix Server-Server API's limit on EDUs in one transaction. */
  const MAX_EDUS := 100

  /** memoryDestinationEdu: a queued EDU and the transaction it is assigned to, if any. */
  datatype Row = Row(payload: Payload, txn: Option<TxnId>)

  function Payloads(rows: seq<Row>): (r: seq<Payload>)
    ensures |r| == |rows| && forall i :: 0 <= i < |rows| ==> r[i] == rows[i].payload
  {
    seq(|rows|, i requires 0 <= i < |rows| => rows[i].payload)
  }

  function Min(a: nat, b: nat): nat {
    if a < b then a else b
  }

  /** The batch a new transaction takes from a queue. */
  function FirstBatch(queue: seq<Payload>): seq<Payload> {
    queue[..Min(MAX_EDUS, |queue|)]
  }

  function Assigned(rows: seq<Row>, t: TxnId): (r: seq<Row>)
    ensures |r| == |rows|
  {
    seq(|rows|, i requires 0 <= i < |rows| => if i < MAX_EDUS then Row(rows[i].payload, Some(t)) else rows[i])
  }

  function Released(rows: seq<Row>, t: TxnId): (r: seq<Row>)
    ensures |r| == |rows|
  {
    seq(|rows|, i requires 0 <= i < |rows| => if rows[i].txn == Some(t) then Row(rows[i].payload, None) else rows[i])
  }

  function Unassigned(rows: seq<Row>, t: TxnId): seq<Row> {
    if rows == [] then []
    else
      var front, last := Unassigned(rows[..|rows| - 1], t), rows[|rows| - 1];
      if last.txn == Some(t) then front else front + [last]
  }

  /** One destination: its rows, and the transaction that holds its mutex. */
  datatype Queue = Queue(rows: seq<Row>, holder: Option<TxnId>) {
    function Insert(p: Payload): Queue {
      Queue(rows + [Row(p, None)], holder)
    }

    function Begin(t: TxnId): Queue {
      if rows == [] then Queue(rows, None) else Queue(Assigned(rows, t), Some(t))
    }

    function Commit(t: TxnId): Queue {
      Queue(Unassigned(rows, t), None)
    }

    function Rollback(t: TxnId): Queue {
      Queue(Released(rows, t), None)
    }

    /** Exactly the first k rows are assigned, all of them to t. */
    ghost predicate Marks(t: TxnId, k: nat) {
      && k <= |rows|
      && (forall i :: 0 <= i < k ==> rows[i].txn == Some(t))
      && (forall i :: k <= i < |rows| ==> rows[i].txn == None)
    }

    ghost predicate Unmarked() {
      forall i :: 0 <= i < |rows| ==> rows[i].txn == None
    }
  }

  lemma {:induction false} UnassignedDropsMarks(rows: seq<Row>, t: TxnId, k: nat)
    requires Queue(rows, None).Marks(t, k)
    ensures Unassigned(rows, t) == rows[k..]
  {
    if rows != [] {
      var n := |rows| - 1;
      if k <= n {
        assert Queue(rows[..n], None).Marks(t, k);
        UnassignedDropsMarks(rows[..n], t, k);
        assert rows[k..] == rows[..n][k..] + [rows[n]];
      } else {
        assert Queue(rows[..n], None).Marks(t, n);
        UnassignedDropsMarks(rows[..n], t, n);
      }
    }
  }

  /** How a transaction over an unmarked queue ends. */
  lemma AssignedEnds(rows: seq<Row>, t: TxnId)
    requires Queue(rows, None).Unmarked()
    ensures var k := |FirstBatch(Payloads(rows))|;
      && Queue(Assigned(rows, t), None).Marks(t, k)
      && FirstBatch(Payloads(rows)) == Payloads(rows)[..k]
      && Unassigned(Assigned(rows, t), t) == rows[k..]
      && Released(Assigned(rows, t), t) == rows
  {
    var k := |FirstBatch(Payloads(rows))|;
    UnassignedDropsMarks(Assigned(rows, t), t, k);
    assert Assigned(rows, t)[k..] == rows[k..];
  }

  // ---------- The store object ----------

  datatype MatrixTransaction = MatrixTransaction(txnId: TxnId, destination: Destination, edus: seq<Payload>)

  class MemoryStorage {
    /** A destination's mutex: None when unlocked, and otherwise the transaction that locked it. */
    var locks: map<Destination, Option<TxnId>>
    var edus: map<Destination, seq<Row>>
    var nextId: TxnId

    constructor ()
      ensures Valid() && Queues() == map[]
    {
      locks, edus, nextId := map[], map[], 0;
    }

    ghost predicate Valid()
      reads this
    {
      locks.Keys == edus.Keys
    }

    ghost function Queues(): (q: map<Destination, Queue>)
      requires Valid()
      reads this
      ensures q.Keys == edus.Keys == locks.Keys
      ensures forall d :: d in q ==> q[d].rows == edus[d] && q[d].holder == locks[d]
    {
      map d | d in edus :: Queue(edus[d], locks[d])
    }

    method InsertEdu(d: Destination, p: Payload)
      requires Valid()
      modifies `locks, `edus
      ensures Valid()
      ensures Queues()
        == old(Queues())[d := (if d in old(Queues()) then old(Queues())[d] else Queue([], None)).Insert(p)]
    {
      if d !in locks {
        locks := locks[d := None];
      }
      if d !in edus {
        edus := edus[d := []];
      }
      edus := edus[d := edus[d] + [Row(p, None)]];
    }

    /** The loop over a destination's rows: collects payloads and marks rows until the batch is full. */
    static method TakeBatch(queued: seq<Row>, txnId: TxnId) returns (batch: seq<Payload>, rows: seq<Row>)
      ensures |batch| == if |queued| < 100 then |queued| else 100
      ensures batch == FirstBatch(Payloads(queued)) && rows == Assigned(queued, txnId)
    {
      batch, rows := [], queued;
      var i := 0;
      while i < |rows| && |batch| < MAX_EDUS
        invariant |rows| == |queued| && 0 <= i <= |rows| && |batch| == i <= MAX_EDUS
        invariant batch == Payloads(queued)[..i]
        invariant forall j :: 0 <= j < |rows| ==>
          rows[j] == if j < i then Row(queued[j].payload, Some(txnId)) else queued[j]
      {
        batch := batch + [rows[i].payload];
        rows := rows[i := Row(rows[i].payload, Some(txnId))];
        i := i + 1;
      }
    }

    /** Lock() blocks while another transaction is open; this is the step taken once it returns. */
    method BeginMatrixTransaction(d: Destination) returns (r: Option<(MatrixTransaction, DestinationTransaction)>)
      requires Valid()
      requires d in locks ==> locks[d].None?
      modifies this
      ensures Valid() && nextId == old(nextId) + if d in old(locks) then 1 else 0
      ensures r.None? <==> d !in old(edus) || old(edus)[d] == []
      ensures r.None? ==> Queues() == old(Queues())
      ensures r.Some? ==>
        && Queues() == old(Queues())[d := old(Queues())[d].Begin(old(nextId))]
        && r.value.0 == MatrixTransaction(old(nextId), d, FirstBatch(Payloads(old(edus)[d])))
        && fresh(r.value.1) && r.value.1.Opens(this, d, old(nextId))
    {
      if d !in locks {
        return None;
      }
      var txnId := nextId;
      locks, nextId := locks[d := Some(txnId)], nextId + 1;
      var batch, rows := TakeBatch(edus[d], txnId);
      if batch == [] {
        locks := locks[d := None];
        assert locks == old(locks);
        return None;
      }
      edus := edus[d := rows];
      var txn := new DestinationTransaction(this, d, txnId);
      r := Some((MatrixTransaction(txnId, d, batch), txn));
    }

    /** Lists, in no particular order, the destinations with an EDU that no transaction has taken. */
    method GetDestinationsNeedingCatchup() returns (ds: seq<Destination>)
      requires Valid()
      ensures Distinct(ds)
      ensures forall d :: d in ds <==> d in edus && exists i :: 0 <= i < |edus[d]| && edus[d][i].txn.None?
    {
      ds := [];
      var left := edus.Keys;
      while left != {}
        invariant left <= edus.Keys && Distinct(ds)
        invariant forall d ::
          d in ds <==> d in edus && d !in left && exists i :: 0 <= i < |edus[d]| && edus[d][i].txn.None?
        decreases left
      {
        var d :| d in left;
        left := left - {d};
        var rows, i := edus[d], 0;
        while i < |rows| && rows[i].txn.Some?
          invariant 0 <= i <= |rows|
          invariant forall j :: 0 <= j < i ==> rows[j].txn.Some?
        {
          i := i + 1;
        }
        if i < |rows| {
          ds := ds + [d];
        }
      }
    }
  }

  class DestinationTransaction {
    const storage: MemoryStorage
    const destination: Destination
    const transactionId: TxnId
    var committed: bool

    constructor (storage: MemoryStorage, destination: Destination, transactionId: TxnId)
      ensures Opens(storage, destination, transactionId)
    {
      this.storage, this.destination, this.transactionId, this.committed := storage, destination, transactionId, false;
    }

    ghost predicate Opens(storage: MemoryStorage, destination: Destination, transactionId: TxnId)
      reads this
    {
      this.storage == storage && this.destination == destination && this.transactionId == transactionId && !committed
    }

    /** The mutex is this transaction's to unlock; unlocking it otherwise is a fatal error in Go. */
    ghost predicate HoldsLock()
      reads this, storage
    {
      && storage.Valid() && destination in storage.locks
      && storage.locks[destination] == Some(transactionId)
    }

    method Commit()
      requires HoldsLock()
      modifies this, storage`edus, storage`locks
      ensures storage.Valid() && committed
      ensures storage.Queues()
        == old(storage.Queues())[destination := old(storage.Queues())[destination].Commit(transactionId)]
    {
      var rows := storage.edus[destination];
      var newEdus: seq<Row> := [];
      for i := 0 to |rows|
        invariant newEdus == Unassigned(rows[..i], transactionId)
      {
        assert rows[..i + 1][..i] == rows[..i];
        if rows[i].txn.None? || rows[i].txn.value != transactionId {
          newEdus := newEdus + [rows[i]];
        }
      }
      assert rows[..|rows|] == rows;
      storage.edus := storage.edus[destination := newEdus];
      storage.locks := storage.locks[destination := None];
      committed := true;
    }

    /** Does nothing after a commit. */
    method Rollback()
      requires storage.Valid()
      requires !committed ==> HoldsLock()
      modifies storage`edus, storage`locks
      ensures storage.Valid()
      ensures storage.Queues() == if committed then old(storage.Queues())
        else old(storage.Queues())[destination := old(storage.Queues())[destination].Rollback(transactionId)]
    {
      if committed {
        return;
      }
      var rows := storage.edus[destination];
      for i := 0 to |rows|
        invariant |rows| == |old(storage.edus)[destination]|
        invariant forall j :: 0 <= j < |rows| ==>
          rows[j] == if j < i then Released(old(storage.edus)[destination], transactionId)[j]
                     else old(storage.edus)[destination][j]
      {
        if rows[i].txn.Some? && rows[i].txn.value == transactionId {
          rows := rows[i := Row(rows[i].payload, None)];
        }
      }
      assert rows == Released(old(storage.edus)[destination], transactionId);
      storage.edus := storage.edus[destination := rows];
      storage.locks := storage.locks[destination := None];
    }
  }

  /** The end of a send: commit what the server accepted; the deferred rollback undoes anything else. */
  method EndTransaction(txn: DestinationTransaction, accepted: bool, ghost was: seq<Row>)
    requires txn.HoldsLock() && !txn.committed && Queue(was, None).Unmarked()
    requires txn.storage.Queues()[txn.destination].rows == Assigned(was, txn.transactionId)
    modifies txn, txn.storage`edus, txn.storage`locks
    ensures txn.storage.Valid()
    ensures txn.storage.Queues() == old(txn.storage.Queues())[txn.destination :=
      Queue(if accepted then was[|FirstBatch(Payloads(was))|..] else was, None)]
  {
    AssignedEnds(was, txn.transactionId);
    hide Assigned, Unassigned, Released, FirstBatch, Payloads;
    if accepted {
      txn.Commit();
    }
    txn.Rollback();
  }

  /**
   * SendNextTransactionTo: `accepted` is whether the remote server accepts the transaction. The batch is removed
   * exactly when it was accepted, and otherwise the queue is as it was.
   */
  method SendNextTransactionTo(store: MemoryStorage, d: Destination, accepted: bool)
    returns (sent: Option<MatrixTransaction>)
    requires store.Valid()
    requires d in store.edus ==> store.Queues()[d].holder.None? && store.Queues()[d].Unmarked()
    modifies store
    ensures store.Valid()
    ensures sent.None? <==> d !in old(store.edus) || old(store.edus)[d] == []
    ensures sent.None? ==> store.Queues() == old(store.Queues())
    ensures sent.Some? ==>
      && sent.value.destination == d && |sent.value.edus| == Min(100, |old(store.edus)[d]|)
      && sent.value.edus == FirstBatch(Payloads(old(store.edus)[d]))
      && store.Queues() == old(store.Queues())[d :=
           Queue(if accepted then old(store.edus)[d][|sent.value.edus|..] else old(store.edus)[d], None)]
  {
    ghost var was := if d in store.edus then store.edus[d] else [];
    var begun := store.BeginMatrixTransaction(d);
    if begun.None? {
      return None;
    }
    var (mxTxn, sqlTxn) := begun.value;
    EndTransaction(sqlTxn, accepted, was);
    sent := Some(mxTxn);
  }
}
