/** The life of an order: it is submitted, revalidated on every block, marked invalid and valid again,
    and in the end deleted, while events tell the world about it. */
module LifeCycle {
  import opened Wrappers
  import opened Orders
  import opened OrderTable

  datatype OrderEvent = OrderEvent(key: Key, remaining: U128, status: OrderStatus)

  // ---------- one order ----------

  /** The event of a revalidation: when something changed, unless an invalid order stays invalid. */
  function EmitOf(k: Key, snap: Snapshot, state: SignedOrderState): seq<OrderEvent> {
    if (state.fillable != snap.remaining || state.status != snap.status) && (snap.status.Fillable? || state.status.Fillable?)
    then [OrderEvent(k, state.fillable, state.status)]
    else []
  }

  /** What an event says: that the order has the state that was fetched. There is one when an order that is
      or was fillable changes, and none otherwise. */
  lemma EventsTellTheFetchedState(k: Key, snap: Snapshot, state: SignedOrderState)
    ensures var told := EmitOf(k, snap, state);
            && |told| <= 1
            && (told != [] ==> told[0].key == k && told[0].remaining == state.fillable && told[0].status == state.status)
            && (told == [] <==> || (snap.remaining == state.fillable && snap.status == state.status)
                                || (snap.status != Fillable && state.status != Fillable))
  {
  }

  /** The write of a revalidation, on whatever the row has become. */
  function WriteOf(row: Option<Entry>, snap: Snapshot, state: SignedOrderState, block: int): Option<Entry> {
    match row
    case None => None
    case Some(e) =>
      if ValidateState(state).Success? then
        if !snap.status.Fillable? || snap.remaining != state.fillable then Some(Clear(e, state.fillable)) else Some(e)
      else if snap.status.Fillable? then Some(Mark(e, block))
      else Some(e)
  }

  /** All there is about one order: its row, and the events that were sent about it. */
  datatype Life = Life(row: Option<Entry>, log: seq<OrderEvent>)

  /** A submission that the contract finds in this state. */
  function Submitted(l: Life, k: Key, createdAt: int, state: SignedOrderState): Life {
    if ValidateState(state).Failure? then l
    else Life(Some(Upsert(l.row, createdAt, state.fillable)), l.log + [OrderEvent(k, state.fillable, Added)])
  }

  function Purged(l: Life, block: int): Life {
    if l.row.Some? && Overdue(l.row.value, block) then l.(row := None) else l
  }

  function Revalidated(l: Life, k: Key, state: SignedOrderState, block: int): Life {
    if l.row.None? then l
    else
      var snap := Read(l.row.value);
      Life(WriteOf(l.row, snap, state, block), l.log + EmitOf(k, snap, state))
  }

  /** A block: rows that were invalid for too long go, the others are revalidated. */
  function Processed(l: Life, k: Key, state: SignedOrderState, block: int, maxReorg: nat): Life {
    Revalidated(Purged(l, block - maxReorg), k, state, block)
  }

  // ---------- the service ----------

  datatype AppError = OrderInvalid(reason: OrderError) | InternalError

  datatype BlockError = Panic | ReadFailed | FetchFailed

  /** The events about one order. */
  function Of(events: seq<OrderEvent>, k: Key): seq<OrderEvent> {
    if events == [] then []
    else Of(events[..|events| - 1], k) + if events[|events| - 1].key == k then [events[|events| - 1]] else []
  }

  lemma OfAppend(events: seq<OrderEvent>, e: OrderEvent, k: Key)
    ensures Of(events + [e], k) == Of(events, k) + if e.key == k then [e] else []
  {
  }

  class App {
    const database: Database
    const chain: ChainInfo
    var events: seq<OrderEvent>

    function LifeOf(k: Key): Life
      reads this, database
    {
      Life(database.Row(k), Of(events, k))
    }

    /** Starts on a table that may hold rows from before. Nothing was sent yet. */
    constructor (chain: ChainInfo, rows: Table)
      ensures fresh(database) && this.chain == chain
      ensures forall k :: LifeOf(k) == Life(if k in rows then Some(rows[k]) else None, [])
    {
      database := new Database(rows);
      this.chain := chain;
      events := [];
    }

    method Send(e: OrderEvent)
      modifies this
      ensures events == old(events) + [e]
      ensures forall k :: Of(events, k) == Of(old(events), k) + if e.key == k then [e] else []
    {
      forall k {
        OfAppend(events, e, k);
      }
      events := events + [e];
    }

    /** Accepts an order, or says why not. `fetched` is what the batcher finds out about it; the hash in
        it becomes the key of the order. */
    method Order(order: LimitOrder, fetched: Option<SignedOrderState>, received: int) returns (r: Result<(), AppError>)
      modifies this, database
      ensures r.Success? <==> ValidateOrder(order, chain).Success? && fetched.Some? && ValidateState(fetched.value).Success?
      ensures r.Failure? ==> forall k :: LifeOf(k) == old(LifeOf(k))
      ensures r == Failure(InternalError) <==> ValidateOrder(order, chain).Success? && fetched.None?
      ensures r.Failure? && r.error.OrderInvalid? ==>
                || ValidateOrder(order, chain) == Failure(r.error.reason)
                || (ValidateOrder(order, chain).Success? && fetched.Some? && ValidateState(fetched.value) == Failure(r.error.reason))
      ensures r.Success? ==> forall k ::
                LifeOf(k) == if k == fetched.value.hash then Submitted(old(LifeOf(k)), k, received, fetched.value)
                             else old(LifeOf(k))
    {
      var valid := ValidateOrder(order, chain);
      if valid.Failure? {
        return Failure(OrderInvalid(valid.error));
      }
      if fetched.None? {
        return Failure(InternalError);
      }
      var state := fetched.value;
      var fillable := ValidateState(state);
      if fillable.Failure? {
        return Failure(OrderInvalid(fillable.error));
      }
      database.InsertOrder(state.hash, received, state.fillable);
      Send(OrderEvent(state.hash, state.fillable, Added));
      r := Success(());
    }

    method Revalidate(k: Key, snap: Snapshot, state: SignedOrderState, block: int)
      modifies this, database
      ensures forall j | j != k :: LifeOf(j) == old(LifeOf(j))
      ensures LifeOf(k) == Life(WriteOf(old(LifeOf(k)).row, snap, state, block), old(LifeOf(k)).log + EmitOf(k, snap, state))
    {
      var wasInvalid := snap.status != Fillable;
      var changed := state.fillable != snap.remaining || state.status != snap.status;
      if changed && (!wasInvalid || state.status == Fillable) {
        Send(OrderEvent(k, state.fillable, state.status));
      }
      if ValidateState(state).Success? {
        if wasInvalid || snap.remaining != state.fillable {
          database.UpdateOrder(k, state.fillable);
        }
      } else if !wasInvalid {
        database.InvalidateOrder(k, block);
      }
    }

    /** Deals with one block alone. The rows are revalidated one at a time, in any order. A block below
        `maxReorg` panics, as its height minus `maxReorg` is computed on unsigned numbers. A row that
        cannot be read back ends the block before any is revalidated, and an order whose state cannot be
        fetched ends it when its turn comes. */
    method ProcessBlock(block: nat, maxReorg: nat, unreadable: set<Key>, states: map<Key, SignedOrderState>)
      returns (r: Result<(), BlockError>)
      modifies this, database
      ensures r == Failure(Panic) <==> block < maxReorg
      ensures r == Failure(Panic) ==> forall k :: LifeOf(k) == old(LifeOf(k))
      ensures r == Failure(ReadFailed) <==>
                block >= maxReorg && exists k | k in unreadable :: Purged(old(LifeOf(k)), block - maxReorg).row.Some?
      ensures r == Failure(ReadFailed) ==> forall k :: LifeOf(k) == Purged(old(LifeOf(k)), block - maxReorg)
      ensures r == Failure(FetchFailed) ==> exists k :: k !in states && Purged(old(LifeOf(k)), block - maxReorg).row.Some?
      ensures r == Failure(FetchFailed) ==> forall k ::
                || LifeOf(k) == Purged(old(LifeOf(k)), block - maxReorg)
                || (k in states && LifeOf(k) == Processed(old(LifeOf(k)), k, states[k], block, maxReorg))
      ensures r.Success? ==> forall k ::
                && (Purged(old(LifeOf(k)), block - maxReorg).row.Some? ==> k in states)
                && (k !in states ==> LifeOf(k) == Purged(old(LifeOf(k)), block - maxReorg))
                && (k in states ==> LifeOf(k) == Processed(old(LifeOf(k)), k, states[k], block, maxReorg))
    {
      if block < maxReorg {
        return Failure(Panic);
      }
      database.DeleteOrders(block - maxReorg);
      if exists k :: k in unreadable && k in database.table {
        assert forall k | k in unreadable && k in database.table :: database.Row(k).Some?;
        return Failure(ReadFailed);
      }
      r := RevalidateAll(block, states);
    }

    /** Revalidates every row, as it is now. */
    method RevalidateAll(block: nat, states: map<Key, SignedOrderState>) returns (r: Result<(), BlockError>)
      modifies this, database
      ensures r.Success? || r == Failure(FetchFailed)
      ensures r.Failure? ==> exists k :: k !in states && old(LifeOf(k)).row.Some?
      ensures r.Failure? ==> forall k ::
                || LifeOf(k) == old(LifeOf(k))
                || (k in states && LifeOf(k) == Revalidated(old(LifeOf(k)), k, states[k], block))
      ensures r.Success? ==> forall k ::
                && (old(LifeOf(k)).row.Some? ==> k in states)
                && (k !in states ==> LifeOf(k) == old(LifeOf(k)))
                && (k in states ==> LifeOf(k) == Revalidated(old(LifeOf(k)), k, states[k], block))
    {
      var snapshots: map<Key, Snapshot> := map k | k in database.table :: Read(database.table[k]);
      var todo: set<Key> := snapshots.Keys;
      while todo != {}
        invariant todo <= snapshots.Keys
        invariant forall k | k in snapshots.Keys ::
                    old(LifeOf(k)).row.Some? && snapshots[k] == Read(old(LifeOf(k)).row.value)
        invariant forall k | k !in snapshots.Keys || k in todo :: LifeOf(k) == old(LifeOf(k))
        invariant forall k | k !in snapshots.Keys :: old(LifeOf(k)).row.None?
        invariant forall k | k in snapshots.Keys && k !in todo ::
                    k in states && LifeOf(k) == Revalidated(old(LifeOf(k)), k, states[k], block)
        decreases todo
      {
        var k: Key := Pick<Key>(todo);
        if k !in states {
          return Failure(FetchFailed);
        }
        Revalidate(k, snapshots[k], states[k], block);
        todo := todo - {k};
      }
      r := Success(());
    }
  }
}
