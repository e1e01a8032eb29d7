/**
 * storage/psql.go: the same queue as a table of rows with increasing ids. RETURNING promises no order, so a batch is
 * the set of the lowest ids; read in id order, the table behaves as the first-in-first-out queue of the memory store.
 */
module SqlOutbox {
  import opened Basics
  import opened Outbox

  type RowId = nat

  /** The rows of destination_edus that belong to one destination. */
  type Table = map<RowId, Payload>

  /** `SELECT id ... ORDER BY id ASC LIMIT n`, as a set. */
  ghost predicate Lowest(batch: set<RowId>, table: Table, n: nat) {
    && batch <= table.Keys
    && |batch| == Min(n, |table.Keys|)
    && forall a, b :: a in batch && b in table && b !in batch ==> a < b
  }

  ghost predicate Increasing(ids: seq<RowId>) {
    forall i, j :: 0 <= i < j < |ids| ==> ids[i] < ids[j]
  }

  /** `ids` are the table's ids in increasing order. */
  ghost predicate Orders(ids: seq<RowId>, table: Table) {
    Increasing(ids) && Elements(ids) == table.Keys
  }

  /** The payloads of some rows. */
  function Rows(table: Table, ids: seq<RowId>): (q: seq<Payload>)
    requires forall id :: id in ids ==> id in table
    ensures |q| == |ids|
  {
    seq(|ids|, i requires 0 <= i < |ids| => table[ids[i]])
  }

  lemma OrderedRows(ids: seq<RowId>, table: Table)
    requires Orders(ids, table)
    ensures forall id :: id in ids <==> id in table
    ensures |ids| == |table.Keys|
  {
    assert forall id :: id in ids <==> id in Elements(ids);
    DistinctSize(ids);
  }

  lemma {:induction false} DistinctSize<T>(s: seq<T>)
    requires Distinct(s)
    ensures |Elements(s)| == |s|
  {
    if s != [] {
      var front, last := s[..|s| - 1], s[|s| - 1];
      DistinctSize(front);
      assert Elements(s) == Elements(front) + {last};
      assert last !in Elements(front);
    }
  }

  lemma {:induction false} SubsetOfSameSize<T>(a: set<T>, b: set<T>)
    requires a <= b && |a| >= |b|
    ensures a == b
  {
    if x :| x in b && x !in a {
      assert a <= b - {x};
      SubsetSize(a, b - {x});
    }
  }

  /** The n lowest ids are the first n in order. */
  lemma LowestIsPrefix(table: Table, ids: seq<RowId>, batch: set<RowId>, n: nat)
    requires Orders(ids, table) && Lowest(batch, table, n)
    ensures |batch| <= |ids| && batch == Elements(ids[..|batch|])
  {
    OrderedRows(ids, table);
    var k := |batch|;
    var first := ids[..k];
    DistinctSize(first);
    if batch <= Elements(first) {
      SubsetOfSameSize(batch, Elements(first));
    } else {
      var a :| a in batch && a !in Elements(first);
      var i :| k <= i < |ids| && ids[i] == a;
      assert forall j :: 0 <= j < k ==> ids[j] < a;
      SubsetOfSameSize(Elements(first), batch);
    }
  }

  /** Inserting under a new highest id, as a BIGSERIAL does, appends to the queue. */
  lemma InsertAppends(table: Table, ids: seq<RowId>, id: RowId, p: Payload)
    requires Orders(ids, table) && forall x :: x in table ==> x < id
    ensures Orders(ids + [id], table[id := p])
    ensures (forall x :: x in ids ==> x in table) && Rows(table[id := p], ids + [id]) == Rows(table, ids) + [p]
  {
    OrderedRows(ids, table);
    assert forall i :: 0 <= i < |ids| ==> ids[i] in table;
  }

  /** The rows after the first k are those left when the first k are deleted. */
  lemma TailOrders(table: Table, ids: seq<RowId>, k: nat)
    requires Orders(ids, table) && k <= |ids|
    ensures Orders(ids[k..], table - Elements(ids[..k]))
  {
  }

  lemma RowsTail(table: Table, table': Table, ids: seq<RowId>, k: nat)
    requires k <= |ids| && forall i :: 0 <= i < |ids| ==> ids[i] in table
    requires forall i :: k <= i < |ids| ==> ids[i] in table' && table'[ids[i]] == table[ids[i]]
    ensures (forall x :: x in ids ==> x in table) && (forall x :: x in ids[k..] ==> x in table')
    ensures Rows(table', ids[k..]) == Rows(table, ids)[k..]
  {
  }

  /** Deleting the first k rows drops the head of the queue. */
  lemma DeletePrefix(table: Table, ids: seq<RowId>, k: nat)
    requires Orders(ids, table) && k <= |ids|
    ensures Orders(ids[k..], table - Elements(ids[..k]))
    ensures (forall x :: x in ids ==> x in table) && (forall x :: x in ids[k..] ==> x in table - Elements(ids[..k]))
    ensures Rows(table - Elements(ids[..k]), ids[k..]) == Rows(table, ids)[k..]
  {
    TailOrders(table, ids, k);
    OrderedRows(ids, table);
    forall i | k <= i < |ids| ensures ids[i] in table - Elements(ids[..k]) {
      assert ids[k..][i - k] in Elements(ids[k..]);
    }
    RowsTail(table, table - Elements(ids[..k]), ids, k);
  }

  /** Deleting the n lowest rows drops the head of the queue. */
  lemma DeleteDropsHead(table: Table, ids: seq<RowId>, batch: set<RowId>, n: nat)
    requires Orders(ids, table) && Lowest(batch, table, n)
    ensures |batch| <= |ids| && Orders(ids[|batch|..], table - batch)
    ensures (forall x :: x in ids ==> x in table) && Rows(table - batch, ids[|batch|..]) == Rows(table, ids)[|batch|..]
  {
    LowestIsPrefix(table, ids, batch, n);
    DeletePrefix(table, ids, |batch|);
  }

  lemma SameElementsSameMultiset<T>(s: seq<T>, t: seq<T>)
    requires Distinct(s) && Distinct(t) && Elements(s) == Elements(t)
    ensures multiset(s) == multiset(t)
  {
    DistinctByCount(s);
    DistinctByCount(t);
    forall x ensures multiset(s)[x] == multiset(t)[x] {
      assert x in s <==> x in Elements(s);
      assert x in t <==> x in Elements(t);
      assert x in s <==> multiset(s)[x] > 0;
      assert x in t <==> multiset(t)[x] > 0;
    }
  }

  /**
   * A transaction takes, in whatever order its rows are returned, the batch the memory store takes; committing it
   * leaves the rest of the queue in order, and it takes nothing exactly when the queue is empty.
   */
  lemma SqlBatchRefinesQueue(table: Table, ids: seq<RowId>, batch: set<RowId>, returned: seq<RowId>)
    requires Orders(ids, table) && Lowest(batch, table, MAX_EDUS)
    requires Distinct(returned) && Elements(returned) == batch
    ensures |batch| <= |ids| && multiset(returned) == multiset(ids[..|batch|])
    ensures (forall x :: x in ids ==> x in table) && Rows(table, ids[..|batch|]) == FirstBatch(Rows(table, ids))
    ensures Orders(ids[|batch|..], table - batch)
    ensures Rows(table - batch, ids[|batch|..]) == Rows(table, ids)[|FirstBatch(Rows(table, ids))|..]
    ensures batch == {} <==> ids == []
  {
    OrderedRows(ids, table);
    LowestIsPrefix(table, ids, batch, MAX_EDUS);
    DeleteDropsHead(table, ids, batch, MAX_EDUS);
    SameElementsSameMultiset(returned, ids[..|batch|]);
  }

  /** Rows inserted while a transaction is open do not disturb its commit. */
  lemma InsertsDoNotDisturbCommit(table: Table, batch: set<RowId>, later: Table, ids: seq<RowId>)
    requires Lowest(batch, table, MAX_EDUS) && Orders(ids, later)
    requires forall id :: id in table ==> id in later && later[id] == table[id]
    requires forall id, earlier :: id in later && id !in table && earlier in table ==> earlier < id
    ensures |batch| <= |ids| && Orders(ids[|batch|..], later - batch)
    ensures (forall x :: x in ids ==> x in later) && Rows(later - batch, ids[|batch|..]) == Rows(later, ids)[|batch|..]
  {
    assert batch <= later.Keys;
    SubsetSize(batch, later.Keys);
    DeleteDropsHead(later, ids, batch, |batch|);
  }
}
