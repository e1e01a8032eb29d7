/**
 * The state-learning queue of test/memory_storage.go, LearnState of homeserver/learn_state.go, and the task of
 * tasks/state_cache.go that drains the queue.
 */
module LearnQueue {
  import opened Basics

  /** A queued item; `ptr` is the identity of the pointer that was pushed, which Commit compares. */
  datatype Item = Item(ptr: nat, roomId: string, atEventId: string, viaServer: string)

  /** The queued and the pending items; those of the store are pointers, those of a run are numbers. */
  datatype Stock<T(==)> = Stock(queue: seq<T>, pending: seq<T>) {
    function Push(x: T): Stock<T> {
      Stock(queue + [x], pending)
    }

    function Pop(): Stock<T>
      requires queue != []
    {
      Stock(queue[1..], pending + [queue[0]])
    }

    /** A committed transaction: its item is no longer pending. */
    function Complete(x: T): Stock<T> {
      Stock(queue, Without(pending, x))
    }

    /** A rolled-back transaction: its item goes to the back of the queue. */
    function Return(x: T): Stock<T> {
      Stock(queue + [x], Without(pending, x))
    }

    /** One round of the draining task. */
    function Round(learned: bool): Stock<T>
      requires queue != []
    {
      if learned then Pop().Complete(queue[0]) else Pop().Return(queue[0])
    }
  }

  datatype Room = Room(version: string, lastCachedMillis: int, communityId: string)

  class LearnStore {
    var queue: seq<Item>
    var pending: seq<Item>
    var rooms: map<string, Room>

    constructor ()
      ensures Valid() && queue == [] && pending == [] && rooms == map[]
    {
      queue, pending, rooms := [], [], map[];
    }

    /** Every push allocates its own item, so no pointer is in the store twice. */
    ghost predicate Valid()
      reads this
    {
      Distinct(queue + pending)
    }

    ghost function Items(): Stock<Item>
      reads this
    {
      Stock(queue, pending)
    }

    method PushStateLearnQueue(item: Item)
      requires Valid() && item !in queue && item !in pending
      modifies `queue
      ensures Valid() && Items() == old(Items()).Push(item)
    {
      DistinctConcat(queue, pending);
      DistinctConcat(queue + [item], pending);
      DistinctConcat(queue, [item]);
      ElementsOfConcat(queue, [item]);
      queue := queue + [item];
    }

    method PopStateLearnQueue() returns (r: Option<(Item, LearnTransaction)>)
      requires Valid()
      modifies `queue, `pending
      ensures Valid()
      ensures r.None? <==> old(queue) == []
      ensures r.None? ==> Items() == old(Items())
      ensures r.Some? ==>
        && Items() == old(Items()).Pop() && r.value.0 == old(queue)[0]
        && fresh(r.value.1) && r.value.1.storage == this && r.value.1.row == r.value.0 && !r.value.1.committed
    {
      if queue == [] {
        return None;
      }
      var item := queue[0];
      PopKeepsDistinct(queue, pending);
      queue := queue[1..];
      pending := pending + [item];
      var txn := new LearnTransaction(this, item);
      r := Some((item, txn));
    }
  }

  lemma PopKeepsDistinct(queue: seq<Item>, pending: seq<Item>)
    requires queue != [] && Distinct(queue + pending)
    ensures Distinct(queue[1..] + (pending + [queue[0]]))
  {
    var u := queue + pending;
    assert queue[1..] + (pending + [queue[0]]) == u[1..] + [u[0]];
  }

  class LearnTransaction {
    const storage: LearnStore
    const row: Item
    var committed: bool

    constructor (storage: LearnStore, row: Item)
      ensures this.storage == storage && this.row == row && !committed
    {
      this.storage, this.row, this.committed := storage, row, false;
    }

    method Commit()
      modifies `committed, storage`pending
      ensures committed
      ensures storage.Items() == if old(committed) then old(storage.Items()) else old(storage.Items()).Complete(row)
    {
      if committed {
        return;
      }
      var newQueue: seq<Item> := [];
      for i := 0 to |storage.pending|
        invariant newQueue == Without(storage.pending[..i], row)
      {
        assert storage.pending[..i + 1][..i] == storage.pending[..i];
        if storage.pending[i] != row {
          newQueue := newQueue + [storage.pending[i]];
        }
      }
      assert storage.pending[..|storage.pending|] == storage.pending;
      storage.pending := newQueue;
      committed := true;
    }

    /** Puts the item at the back of the queue; does nothing once the transaction has ended. */
    method Rollback()
      modifies `committed, storage`pending, storage`queue
      ensures committed
      ensures storage.Items() == if old(committed) then old(storage.Items()) else old(storage.Items()).Return(row)
    {
      if committed {
        return;
      }
      storage.queue := storage.queue + [row];
      Commit();
    }
  }

  /** What the outside world does during one LearnState: its answers, and the rooms once the state is processed. */
  datatype Surroundings = Surroundings(
    firstReadOk: bool, lookupOk: bool, learnOk: bool, during: map<string, Room>, secondReadOk: bool, storeOk: bool,
    now: int)

  /** When LearnState succeeds. */
  predicate Learns(rooms: map<string, Room>, roomId: string, w: Surroundings) {
    w.firstReadOk && roomId in rooms && w.lookupOk && w.learnOk && w.secondReadOk && roomId in w.during && w.storeOk
  }

  /** The rooms as LearnState leaves them: processed, with the room's cache timestamp bumped. */
  function Stamped(w: Surroundings, roomId: string): map<string, Room> {
    if roomId in w.during then w.during[roomId := w.during[roomId].(lastCachedMillis := w.now)] else w.during
  }

  /** LearnState: on success it stamps the room as it is after processing, and on failure it stamps nothing. */
  method LearnState(store: LearnStore, roomId: string, w: Surroundings) returns (ok: bool)
    modifies store`rooms
    ensures ok <==>
      && w.firstReadOk && roomId in old(store.rooms) && w.lookupOk && w.learnOk
      && w.secondReadOk && roomId in w.during && w.storeOk
    ensures ok ==>
      && store.rooms.Keys == w.during.Keys
      && store.rooms[roomId].lastCachedMillis == w.now
      && store.rooms[roomId].version == w.during[roomId].version
      && store.rooms[roomId].communityId == w.during[roomId].communityId
      && forall other :: other in w.during && other != roomId ==> store.rooms[other] == w.during[other]
    ensures !ok ==> store.rooms == old(store.rooms) || store.rooms == w.during
  {
    if !w.firstReadOk || roomId !in store.rooms || !w.lookupOk {
      return false;
    }
    store.rooms := w.during;  // the processing itself, and whatever else happens meanwhile
    if !w.learnOk || !w.secondReadOk || roomId !in store.rooms {
      return false;
    }
    var room := store.rooms[roomId].(lastCachedMillis := w.now);
    if !w.storeOk {
      return false;
    }
    store.rooms := store.rooms[roomId := room];
    return true;
  }

  /** popAndProcessStateLearnQueue; `done` is the item it completes, if any. */
  method PopAndProcess(store: LearnStore, w: Surroundings) returns (hasMore: bool, ghost done: seq<Item>)
    requires store.Valid()
    modifies store
    ensures store.Valid() && store.pending == old(store.pending)
    ensures store.Items() == if old(store.queue) == [] then old(store.Items()) else old(store.Items()).Round(hasMore)
    ensures hasMore <==> old(store.queue) != [] && Learns(old(store.rooms), old(store.queue)[0].roomId, w)
    ensures store.queue == if old(store.queue) == [] then []
      else if hasMore then old(store.queue)[1..] else old(store.queue)[1..] + [old(store.queue)[0]]
    ensures done == if hasMore then [old(store.queue)[0]] else []
    ensures hasMore ==> store.rooms == Stamped(w, old(store.queue)[0].roomId)
    ensures !hasMore ==> store.rooms == old(store.rooms) || (old(store.queue) != [] && store.rooms == w.during)
  {
    done := [];
    var popped := store.PopStateLearnQueue();
    if popped.None? {
      return false, done;
    }
    PopEnds(old(store.queue), old(store.pending));
    var (item, txn) := popped.value;
    hasMore := LearnState(store, item.roomId, w);
    if hasMore {
      txn.Commit();
      done := [item];
    }
    txn.Rollback();  // deferred in the source
  }

  /** How a transaction on the head of the queue can end. */
  lemma PopEnds(queue: seq<Item>, pending: seq<Item>)
    requires queue != [] && Distinct(queue + pending)
    ensures Without(pending + [queue[0]], queue[0]) == pending
    ensures Distinct(queue[1..] + pending)
    ensures Distinct((queue[1..] + [queue[0]]) + pending)
  {
    var u, rotated := queue + pending, queue[1..] + [queue[0]];
    assert queue[1..] + pending == u[1..];
    DistinctConcat(queue, pending);
    assert queue[0] in Elements(queue);
    assert queue[0] !in Elements(pending);
    WithoutCount(pending, queue[0]);
    assert (pending + [queue[0]])[..|pending|] == pending;
    assert forall x :: x in rotated ==> x in queue;
    assert Elements(rotated) <= Elements(queue);
    DistinctConcat(rotated, pending);
  }

  /** The rooms when round k starts, if every round before it succeeded; `rounds` is what each round meets. */
  function RoomsAt(queue: seq<Item>, rooms: map<string, Room>, rounds: nat -> Surroundings, k: nat): map<string, Room>
    requires k <= |queue|
  {
    if k == 0 then rooms else Stamped(rounds(k - 1), queue[k - 1].roomId)
  }

  predicate LearnsInRound(queue: seq<Item>, rooms: map<string, Room>, rounds: nat -> Surroundings, k: nat)
    requires k < |queue|
  {
    Learns(RoomsAt(queue, rooms, rounds, k), queue[k].roomId, rounds(k))
  }

  /** The first k items are learned from, in order. */
  ghost predicate LearnsFirst(queue: seq<Item>, rooms: map<string, Room>, rounds: nat -> Surroundings, k: nat) {
    k <= |queue| && forall i :: 0 <= i < k ==> LearnsInRound(queue, rooms, rounds, i)
  }

  /** What is left when the k-th item cannot be learned from, or there is none: that item goes to the back. */
  ghost predicate StopsAt(
    queue: seq<Item>, rooms: map<string, Room>, rounds: nat -> Surroundings, k: nat, queue': seq<Item>,
    rooms': map<string, Room>)
  {
    && k <= |queue|
    && (k < |queue| ==> !LearnsInRound(queue, rooms, rounds, k))
    && queue' == (if k == |queue| then [] else queue[k + 1..] + [queue[k]])
    && (rooms' == RoomsAt(queue, rooms, rounds, k) || (k < |queue| && rooms' == rounds(k).during))
  }

  /** One round, seen from the start of the task. */
  lemma RoundFromStart(
    queue: seq<Item>, rooms: map<string, Room>, rounds: nat -> Surroundings, k: nat, queue': seq<Item>,
    rooms': map<string, Room>, hasMore: bool)
    requires LearnsFirst(queue, rooms, rounds, k)
    requires hasMore <==> k < |queue| && LearnsInRound(queue, rooms, rounds, k)
    requires queue' == if k == |queue| then []
      else if hasMore then queue[k..][1..] else queue[k..][1..] + [queue[k]]
    requires hasMore ==> rooms' == Stamped(rounds(k), queue[k].roomId)
    requires !hasMore ==> rooms' == RoomsAt(queue, rooms, rounds, k) || (k < |queue| && rooms' == rounds(k).during)
    ensures hasMore ==>
      && LearnsFirst(queue, rooms, rounds, k + 1) && queue' == queue[k + 1..]
      && rooms' == RoomsAt(queue, rooms, rounds, k + 1)
    ensures !hasMore ==> StopsAt(queue, rooms, rounds, k, queue', rooms')
  {
    hide Learns, Stamped;
  }

  /**
   * CacheLearnedRoomState: completes exactly the items before the first that cannot be learned from, in order, moves
   * that one to the back, and stops; nothing stays pending. It terminates because each further round has consumed an
   * item.
   */
  method CacheLearnedRoomState(store: LearnStore, rounds: nat -> Surroundings) returns (ghost done: seq<Item>)
    requires store.Valid()
    modifies store
    ensures store.Valid() && store.pending == old(store.pending)
    ensures LearnsFirst(old(store.queue), old(store.rooms), rounds, |done|) && done == old(store.queue)[..|done|]
    ensures StopsAt(old(store.queue), old(store.rooms), rounds, |done|, store.queue, store.rooms)
  {
    ghost var q, rooms := store.queue, store.rooms;
    done := [];
    var hasMore, round := true, 0;
    while hasMore
      invariant store.Valid() && store.pending == old(store.pending)
      invariant LearnsFirst(q, rooms, rounds, |done|) && done == q[..|done|]
      invariant hasMore ==>
        round == |done| && store.queue == q[round..] && store.rooms == RoomsAt(q, rooms, rounds, round)
      invariant !hasMore ==> StopsAt(q, rooms, rounds, |done|, store.queue, store.rooms)
      decreases hasMore, |store.queue|
    {
      hide StopsAt, Stamped, Learns;
      ghost var more: seq<Item>;
      hasMore, more := PopAndProcess(store, rounds(round));
      RoundFromStart(q, rooms, rounds, round, store.queue, store.rooms, hasMore);
      done := done + more;
      round := round + 1;
    }
  }
}
