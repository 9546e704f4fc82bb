/** The order table, as far as its rows change: for each order hash the remaining amount and the block
    since which the order is invalid. The columns that hold the order itself never change. */
module OrderTable {
  import opened Wrappers
  import opened Orders

  // The hash of an order, the primary key.
  type Key = H256

  datatype Entry = Entry(createdAt: int, remaining: U128, invalidSince: Option<int>)

  type Table = map<Key, Entry>

  /** A row as it is read: the status only says whether the row is marked invalid. */
  datatype Snapshot = Snapshot(remaining: U128, status: OrderStatus)

  function Read(e: Entry): Snapshot {
    Snapshot(e.remaining, if e.invalidSince.None? then Fillable else Invalid)
  }

  // ---------- what each statement does to a row ----------

  function Upsert(row: Option<Entry>, createdAt: int, remaining: U128): Entry {
    match row
    case None => Entry(createdAt, remaining, None)
    case Some(e) => e.(remaining := remaining)
  }

  function Clear(e: Entry, remaining: U128): Entry {
    e.(remaining := remaining, invalidSince := None)
  }

  function Mark(e: Entry, block: int): Entry {
    if e.invalidSince.None? || e.invalidSince.value > block then e.(invalidSince := Some(block)) else e
  }

  predicate Overdue(e: Entry, block: int) {
    e.invalidSince.Some? && e.invalidSince.value <= block
  }

  class Database {
    var table: Table

    function Row(k: Key): Option<Entry>
      reads this
    {
      if k in table then Some(table[k]) else None
    }

    /** Connects to a table that may hold rows from before. */
    constructor (rows: Table)
      ensures forall k :: Row(k) == if k in rows then Some(rows[k]) else None
    {
      table := rows;
    }

    method InsertOrder(k: Key, createdAt: int, remaining: U128)
      modifies this
      ensures Row(k) == Some(Upsert(old(Row(k)), createdAt, remaining))
      ensures forall j | j != k :: Row(j) == old(Row(j))
    {
      if k in table {
        table := table[k := table[k].(remaining := remaining)];
      } else {
        table := table[k := Entry(createdAt, remaining, None)];
      }
    }

    method UpdateOrder(k: Key, remaining: U128)
      modifies this
      ensures Row(k) == if old(Row(k)).None? then None else Some(Clear(old(Row(k)).value, remaining))
      ensures forall j | j != k :: Row(j) == old(Row(j))
    {
      if k in table {
        table := table[k := table[k].(remaining := remaining, invalidSince := None)];
      }
    }

    method InvalidateOrder(k: Key, block: int)
      modifies this
      ensures Row(k) == if old(Row(k)).None? then None else Some(Mark(old(Row(k)).value, block))
      ensures forall j | j != k :: Row(j) == old(Row(j))
    {
      if k in table && (table[k].invalidSince.None? || table[k].invalidSince.value > block) {
        table := table[k := table[k].(invalidSince := Some(block))];
      }
    }

    method DeleteOrders(block: int)
      modifies this
      ensures forall k :: Row(k) == if old(Row(k)).Some? && Overdue(old(Row(k)).value, block) then None else old(Row(k))
    {
      table := map k | k in table && !(table[k].invalidSince.Some? && table[k].invalidSince.value <= block) :: table[k];
    }
  }

  // ---------- concurrent marks ----------

  function MarkAll(e: Entry, blocks: seq<int>): Entry {
    if blocks == [] then e else Mark(MarkAll(e, blocks[..|blocks| - 1]), blocks[|blocks| - 1])
  }

  /** Marks of any number of blocks, in any order, leave the lowest of them and the previous mark. */
  lemma {:induction false} MarksLeaveTheLowest(e: Entry, blocks: seq<int>)
    ensures var m := MarkAll(e, blocks);
            && m.createdAt == e.createdAt && m.remaining == e.remaining
            && (m.invalidSince.None? <==> e.invalidSince.None? && blocks == [])
            && (m.invalidSince.Some? ==>
                  && (m.invalidSince == e.invalidSince || m.invalidSince.value in blocks)
                  && (e.invalidSince.Some? ==> m.invalidSince.value <= e.invalidSince.value)
                  && forall b | b in blocks :: m.invalidSince.value <= b)
  {
    if blocks != [] {
      var front := blocks[..|blocks| - 1];
      MarksLeaveTheLowest(e, front);
      assert blocks == front + [blocks[|blocks| - 1]];
    }
  }

  /** So the order in which concurrent marks reach the row does not matter. */
  lemma MarksCommute(e: Entry, a: seq<int>, b: seq<int>)
    requires multiset(a) == multiset(b)
    ensures MarkAll(e, a) == MarkAll(e, b)
  {
    MarksLeaveTheLowest(e, a);
    MarksLeaveTheLowest(e, b);
    forall x
      ensures x in a <==> x in b
    {
      assert x in a <==> x in multiset(a);
      assert x in b <==> x in multiset(b);
    }
    assert a == [] <==> b == [];
  }
}
