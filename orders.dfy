/**
 * The order store: the orders file read by `load_orders` and rewritten in full
 * by `save_order`. The file is an `Option<seq<Order>>`: `None` while the file
 * does not exist, otherwise the array it holds.
 */
module Orders {
  import opened Wrappers

  /** The `"%Y-%m-%d %H:%M:%S"` text of the clock reading, supplied by the caller. */
  type Timestamp = string

  /**
   * One order record. `timestamp` is `None` for the record the phone step builds
   * and `Some` once the store has stamped it.
   */
  datatype Order = Order(
    productId: int,
    productName: string,
    price: string,
    customerName: string,
    phone: string,
    timestamp: Option<Timestamp>)

  /** The record as stored: the clock reading replaces whatever timestamp the caller gave. */
  function Stamp(order: Order, now: Timestamp): (r: Order)
    ensures r.timestamp == Some(now)
    ensures r.(timestamp := order.timestamp) == order
  {
    order.(timestamp := Some(now))
  }

  /** What `load_orders` reads: nothing when the file is missing. */
  function Load(file: Option<seq<Order>>): seq<Order> {
    if file.Some? then file.value else []
  }

  /** The file after `save_order` is called once for each pair of `batch`, in order. */
  ghost function SaveAll(file: Option<seq<Order>>, batch: seq<(Order, Timestamp)>): Option<seq<Order>>
    decreases |batch|
  {
    if batch == [] then file
    else SaveAll(Some(Load(file) + [Stamp(batch[0].0, batch[0].1)]), batch[1..])
  }

  /** Successive saves only ever append: the old contents stay, in order, before the new records. */
  lemma {:induction false} SaveAllAppends(file: Option<seq<Order>>, batch: seq<(Order, Timestamp)>)
    ensures var stored := Load(SaveAll(file, batch));
      && |stored| == |Load(file)| + |batch|
      && stored[..|Load(file)|] == Load(file)
      && forall i | 0 <= i < |batch| :: stored[|Load(file)| + i] == Stamp(batch[i].0, batch[i].1)
    decreases |batch|
  {
    if batch != [] {
      var next := Some(Load(file) + [Stamp(batch[0].0, batch[0].1)]);
      SaveAllAppends(next, batch[1..]);
      var stored := Load(SaveAll(file, batch));
      assert stored[..|Load(next)|][..|Load(file)|] == stored[..|Load(file)|];
      forall i | 0 <= i < |batch|
        ensures stored[|Load(file)| + i] == Stamp(batch[i].0, batch[i].1)
      {
        if i == 0 {
          assert stored[|Load(file)|] == stored[..|Load(next)|][|Load(file)|];
        } else {
          assert batch[1..][i - 1] == batch[i];
        }
      }
    }
  }

  /**
   * Saving N orders into a missing file and loading gives back exactly those N
   * orders, field for field and in order, each carrying its save-time timestamp.
   */
  lemma SaveRoundTrip(batch: seq<(Order, Timestamp)>)
    ensures var stored := Load(SaveAll(None, batch));
      && |stored| == |batch|
      && forall i | 0 <= i < |batch| ::
           stored[i].(timestamp := batch[i].0.timestamp) == batch[i].0 &&
           stored[i].timestamp == Some(batch[i].1)
  {
    SaveAllAppends(None, batch);
    var stored := Load(SaveAll(None, batch));
    forall i | 0 <= i < |batch|
      ensures stored[i] == Stamp(batch[i].0, batch[i].1)
    {
      assert stored[|Load(None)| + i] == Stamp(batch[i].0, batch[i].1);
    }
  }

  /** The orders file. */
  class OrderStore {
    var file: Option<seq<Order>>

    constructor (file: Option<seq<Order>>)
      ensures this.file == file
    {
      this.file := file;
    }

    function Stored(): seq<Order>
      reads this
    {
      Load(file)
    }

    /** `load_orders`: the stored array, or the empty list when the file does not exist. */
    method LoadOrders() returns (orders: seq<Order>)
      ensures file.None? ==> orders == []
      ensures file.Some? ==> orders == file.value
    {
      if file.Some? {
        orders := file.value;
      } else {
        orders := [];
      }
    }

    /**
     * `save_order`: load, stamp, append, rewrite. The file then exists and holds
     * the earlier orders unchanged followed by exactly one new record.
     */
    method SaveOrder(order: Order, now: Timestamp)
      modifies this
      ensures file == SaveAll(old(file), [(order, now)])
      ensures |Stored()| == |old(Stored())| + 1
      ensures Stored()[..|old(Stored())|] == old(Stored())
      ensures Stored()[|old(Stored())|] == Stamp(order, now)
    {
      var orders := LoadOrders();
      var stamped := Stamp(order, now);
      orders := orders + [stamped];
      file := Some(orders);
      SaveAllAppends(old(file), [(order, now)]);
    }
  }
}
