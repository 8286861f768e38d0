/**
 * The pre-save hook of dacp/orders/signals.py that gives stock back when an
 * order is cancelled. The Order and OrderItem models live in
 * dacp/orders/models.py, which is not part of this model: an order is modelled
 * by its primary key, its status and its items, each item by the ProductSize it
 * consumed and its quantity.
 */
module OrderSignals {
  import opened Wrappers
  import opened Store

  datatype Status = Pending | Processing | Shipped | Delivered | Cancelled

  datatype OrderItem = OrderItem(sizeId: nat, quantity: nat)

  /** The statuses in which the order's stock has already been taken. */
  predicate TookStock(s: Status)
  {
    s == Processing || s == Shipped || s == Delivered
  }

  /**
   * The guard of restore_stock_on_cancel: a saved order (a primary key that
   * is not empty or 0), found in the table, moving into `cancelled` from a
   * status that is not `cancelled` and that had taken stock.
   */
  predicate RestoresStock(pk: Option<nat>, stored: map<nat, Status>, newStatus: Status)
  {
    pk.Some? && pk.value != 0 && pk.value in stored &&
    newStatus == Cancelled && stored[pk.value] != Cancelled && TookStock(stored[pk.value])
  }

  /** `product_size.stock += quantity` on the row with primary key `sizeId`. */
  function Credit(rows: seq<ProductSize>, sizeId: nat, quantity: nat): seq<ProductSize>
  {
    if |rows| == 0 then []
    else
      var row := if rows[0].id == sizeId then rows[0].(stock := rows[0].stock + quantity) else rows[0];
      [row] + Credit(rows[1..], sizeId, quantity)
  }

  /** Every item credited in turn. */
  function CreditAll(rows: seq<ProductSize>, items: seq<OrderItem>): seq<ProductSize>
  {
    if |items| == 0 then rows
    else
      var last := items[|items| - 1];
      Credit(CreditAll(rows, items[..|items| - 1]), last.sizeId, last.quantity)
  }

  /** The stock table after the hook has run for the order being saved. */
  function Transition(pk: Option<nat>, stored: map<nat, Status>, newStatus: Status,
                      items: seq<OrderItem>, rows: seq<ProductSize>): seq<ProductSize>
  {
    if RestoresStock(pk, stored, newStatus) then CreditAll(rows, items) else rows
  }

  /** Sum of the quantities of the items that consumed size `sizeId`. */
  function QuantityFor(items: seq<OrderItem>, sizeId: nat): nat
  {
    if |items| == 0 then 0
    else
      var last := items[|items| - 1];
      QuantityFor(items[..|items| - 1], sizeId) + (if last.sizeId == sizeId then last.quantity else 0)
  }

  function QuantitySum(items: seq<OrderItem>): nat
  {
    if |items| == 0 then 0 else QuantitySum(items[..|items| - 1]) + items[|items| - 1].quantity
  }

  function TotalStock(rows: seq<ProductSize>): nat
  {
    if |rows| == 0 then 0 else rows[0].stock + TotalStock(rows[1..])
  }

  /** No two rows share a primary key. */
  ghost predicate UniqueIds(rows: seq<ProductSize>)
  {
    forall i, j :: 0 <= i < j < |rows| ==> rows[i].id != rows[j].id
  }

  /** Crediting changes stock counters only: same rows, same keys, products and size names. */
  ghost predicate SameRows(a: seq<ProductSize>, b: seq<ProductSize>)
  {
    |a| == |b| &&
    forall i :: 0 <= i < |a| ==> a[i].id == b[i].id && a[i].product == b[i].product && a[i].sizeName == b[i].sizeName
  }

  lemma {:induction false} CreditShape(rows: seq<ProductSize>, sizeId: nat, quantity: nat)
    ensures SameRows(Credit(rows, sizeId, quantity), rows)
    ensures forall i :: 0 <= i < |rows| ==>
      Credit(rows, sizeId, quantity)[i].stock == rows[i].stock + (if rows[i].id == sizeId then quantity else 0)
  {
    if |rows| > 0 {
      CreditShape(rows[1..], sizeId, quantity);
    }
  }

  /** One credit adds its quantity to the stock of its own row and to no other. */
  lemma CreditStock(rows: seq<ProductSize>, sizeId: nat, quantity: nat, id: nat)
    ensures HasSize(Credit(rows, sizeId, quantity), id) == HasSize(rows, id)
    ensures StockOf(Credit(rows, sizeId, quantity), id) ==
      StockOf(rows, id) + (if id == sizeId && HasSize(rows, id) then quantity else 0)
  {
    var credited := Credit(rows, sizeId, quantity);
    CreditShape(rows, sizeId, quantity);
    match FindSize(rows, id) {
      case None =>
        assert forall j :: 0 <= j < |credited| ==> credited[j].id != id;
      case Some(k) =>
        assert forall j :: 0 <= j < k ==> credited[j].id != id;
        assert FindSize(credited, id) == Some(k) by {
          var f := FindSize(credited, id);
          assert f.Some? by { assert credited[k].id == id; }
          assert !(f.value < k) && !(k < f.value);
        }
    }
  }

  lemma {:induction false} CreditAllShape(rows: seq<ProductSize>, items: seq<OrderItem>)
    ensures SameRows(CreditAll(rows, items), rows)
  {
    if |items| > 0 {
      var last := items[|items| - 1];
      CreditAllShape(rows, items[..|items| - 1]);
      CreditShape(CreditAll(rows, items[..|items| - 1]), last.sizeId, last.quantity);
    }
  }

  /** Crediting all items adds to each existing row exactly the quantity its items consumed. */
  lemma {:induction false} CreditAllStock(rows: seq<ProductSize>, items: seq<OrderItem>, id: nat)
    ensures HasSize(CreditAll(rows, items), id) == HasSize(rows, id)
    ensures StockOf(CreditAll(rows, items), id) ==
      StockOf(rows, id) + (if HasSize(rows, id) then QuantityFor(items, id) else 0)
  {
    if |items| > 0 {
      var last := items[|items| - 1];
      CreditAllStock(rows, items[..|items| - 1], id);
      CreditStock(CreditAll(rows, items[..|items| - 1]), last.sizeId, last.quantity, id);
    }
  }

  /** With unique keys, crediting an existing row adds exactly its quantity to the total stock. */
  lemma {:induction false} CreditTotal(rows: seq<ProductSize>, sizeId: nat, quantity: nat)
    requires UniqueIds(rows)
    ensures TotalStock(Credit(rows, sizeId, quantity)) ==
      TotalStock(rows) + (if HasSize(rows, sizeId) then quantity else 0)
  {
    if |rows| > 0 {
      assert UniqueIds(rows[1..]);
      CreditTotal(rows[1..], sizeId, quantity);
      if rows[0].id == sizeId {
        assert !HasSize(rows[1..], sizeId) by {
          assert forall j :: 0 <= j < |rows[1..]| ==> rows[1..][j].id != sizeId;
        }
      } else {
        assert HasSize(rows, sizeId) == HasSize(rows[1..], sizeId);
      }
    }
  }

  lemma {:induction false} CreditAllTotal(rows: seq<ProductSize>, items: seq<OrderItem>)
    requires UniqueIds(rows)
    requires forall k :: 0 <= k < |items| ==> HasSize(rows, items[k].sizeId)
    ensures TotalStock(CreditAll(rows, items)) == TotalStock(rows) + QuantitySum(items)
  {
    if |items| > 0 {
      var init, last := items[..|items| - 1], items[|items| - 1];
      CreditAllTotal(rows, init);
      var before := CreditAll(rows, init);
      CreditAllShape(rows, init);
      assert UniqueIds(before) by {
        forall i, j | 0 <= i < j < |before| ensures before[i].id != before[j].id {
          assert before[i].id == rows[i].id && before[j].id == rows[j].id;
        }
      }
      CreditAllStock(rows, init, last.sizeId);
      CreditTotal(before, last.sizeId, last.quantity);
    }
  }

  /** Row by row: crediting all items adds to each row what the items that consumed it hold. */
  lemma {:induction false} CreditAllRow(rows: seq<ProductSize>, items: seq<OrderItem>, i: nat)
    requires i < |rows|
    ensures |CreditAll(rows, items)| == |rows|
    ensures CreditAll(rows, items)[i] == rows[i].(stock := rows[i].stock + QuantityFor(items, rows[i].id))
  {
    CreditAllShape(rows, items);
    if |items| > 0 {
      var init, last := items[..|items| - 1], items[|items| - 1];
      CreditAllRow(rows, init, i);
      CreditShape(CreditAll(rows, init), last.sizeId, last.quantity);
    }
  }

  lemma {:induction false} QuantityForUnreferenced(items: seq<OrderItem>, id: nat)
    requires forall k :: 0 <= k < |items| ==> items[k].sizeId != id
    ensures QuantityFor(items, id) == 0
  {
    if |items| > 0 {
      QuantityForUnreferenced(items[..|items| - 1], id);
    }
  }

  /**
   * Stock is credited only for a saved, stored order moving into `cancelled`
   * from processing, shipped or delivered: a new order, an order missing from
   * the table, any other target status, an order already cancelled and a
   * pending order all leave the table as it is.
   */
  lemma OnlyCancellingTakenStockCredits(pk: Option<nat>, stored: map<nat, Status>, newStatus: Status,
                                        items: seq<OrderItem>, rows: seq<ProductSize>)
    ensures Transition(pk, stored, newStatus, items, rows) != rows ==>
      pk.Some? && pk.value != 0 && pk.value in stored && newStatus == Cancelled &&
      stored[pk.value] in {Processing, Shipped, Delivered}
  {
  }

  /**
   * Re-saving an order that the hook has just cancelled, still as cancelled,
   * credits nothing a second time.
   */
  lemma CancelIsIdempotent(pk: nat, stored: map<nat, Status>, items: seq<OrderItem>, rows: seq<ProductSize>)
    ensures var once := Transition(Some(pk), stored, Cancelled, items, rows);
      Transition(Some(pk), stored[pk := Cancelled], Cancelled, items, once) == once
  {
  }

  /** Each existing row gains exactly what the order's items consumed of it when the guard holds, nothing otherwise. */
  lemma TransitionCredits(pk: Option<nat>, stored: map<nat, Status>, newStatus: Status,
                          items: seq<OrderItem>, rows: seq<ProductSize>, id: nat)
    ensures var after := Transition(pk, stored, newStatus, items, rows);
      HasSize(after, id) == HasSize(rows, id) &&
      StockOf(after, id) == StockOf(rows, id) +
        (if RestoresStock(pk, stored, newStatus) && HasSize(rows, id) then QuantityFor(items, id) else 0)
  {
    CreditAllStock(rows, items, id);
  }

  /** No stock counter ever goes down. */
  lemma StockNeverDecreases(pk: Option<nat>, stored: map<nat, Status>, newStatus: Status,
                            items: seq<OrderItem>, rows: seq<ProductSize>)
    ensures var after := Transition(pk, stored, newStatus, items, rows);
      |after| == |rows| && forall i :: 0 <= i < |rows| ==> after[i].stock >= rows[i].stock
  {
    forall i | 0 <= i < |rows| ensures |CreditAll(rows, items)| == |rows| && CreditAll(rows, items)[i].stock >= rows[i].stock {
      CreditAllRow(rows, items, i);
    }
    CreditAllShape(rows, items);
  }

  /** Rows no item of the order refers to are left exactly as they were. */
  lemma UnreferencedRowsUnchanged(pk: Option<nat>, stored: map<nat, Status>, newStatus: Status,
                                  items: seq<OrderItem>, rows: seq<ProductSize>, i: nat)
    requires i < |rows|
    requires forall k :: 0 <= k < |items| ==> items[k].sizeId != rows[i].id
    ensures var after := Transition(pk, stored, newStatus, items, rows);
      i < |after| && after[i] == rows[i]
  {
    CreditAllRow(rows, items, i);
    QuantityForUnreferenced(items, rows[i].id);
  }

  /**
   * With unique keys and every item pointing at an existing row, a credited
   * transition raises the total stock by exactly the order's total quantity.
   */
  lemma TransitionTotal(pk: Option<nat>, stored: map<nat, Status>, newStatus: Status,
                        items: seq<OrderItem>, rows: seq<ProductSize>)
    requires UniqueIds(rows)
    requires forall k :: 0 <= k < |items| ==> HasSize(rows, items[k].sizeId)
    ensures TotalStock(Transition(pk, stored, newStatus, items, rows)) ==
      TotalStock(rows) + (if RestoresStock(pk, stored, newStatus) then QuantitySum(items) else 0)
  {
    CreditAllTotal(rows, items);
  }

  /**
   * restore_stock_on_cancel: the guard, then for every item of the order the
   * consumed quantity is added back to its ProductSize's stock.
   */
  method RestoreStockOnCancel(pk: Option<nat>, stored: map<nat, Status>, newStatus: Status,
                              items: seq<OrderItem>, rows: seq<ProductSize>) returns (updated: seq<ProductSize>)
    ensures updated == Transition(pk, stored, newStatus, items, rows)
  {
    updated := rows;
    if pk.None? || pk.value == 0 {
      return;
    }
    if pk.value !in stored {
      return;
    }
    var previous := stored[pk.value];
    if newStatus == Cancelled && previous != Cancelled {
      if TookStock(previous) {
        var i := 0;
        while i < |items|
          invariant 0 <= i <= |items|
          invariant updated == CreditAll(rows, items[..i])
        {
          var item := items[i];
          assert items[..i + 1][..i] == items[..i];
          updated := Credit(updated, item.sizeId, item.quantity);
          i := i + 1;
        }
        assert items[..|items|] == items;
      }
    }
  }
}
