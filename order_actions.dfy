/** The admin order-status action: a requested status change moves variant
    stock in the direction the status pair calls for, refuses to drive any
    running stock value below zero, and commits stock and status together
    or not at all. */
module OrderActions {
  import opened Common
  import opened Store

  /** Statuses in which the order's inventory counts as taken. */
  predicate Committed(s: OrderStatus) {
    s == OrderStatus.PAID || s == FULFILLED
  }

  /** `stockDeltaDirection`: −1 when a pending order becomes paid or
      fulfilled, +1 when a paid or fulfilled order is canceled or refunded,
      0 for every other pair. */
  function StockDeltaDirection(oldS: OrderStatus, newS: OrderStatus): (d: int)
    ensures d == -1 || d == 0 || d == 1
    ensures d == -1 <==> oldS == PENDING && Committed(newS)
    ensures d == 1 <==> Committed(oldS) && (newS == OrderStatus.CANCELED || newS == REFUNDED)
  {
    if oldS == PENDING && (newS == OrderStatus.PAID || newS == FULFILLED) then -1
    else if (oldS == OrderStatus.PAID || oldS == FULFILLED) && (newS == OrderStatus.CANCELED || newS == REFUNDED) then 1
    else 0
  }

  /** The direction follows whether inventory is taken, except on the four
      kinds of pair the table leaves at 0 although commitment changes: leaving
      PAID/FULFILLED for PENDING keeps the stock taken, and entering
      PAID/FULFILLED from CANCELED/REFUNDED takes nothing. */
  lemma DirectionAndCommitment(oldS: OrderStatus, newS: OrderStatus)
    ensures StockDeltaDirection(oldS, newS) == -1 ==> !Committed(oldS) && Committed(newS)
    ensures StockDeltaDirection(oldS, newS) == 1 ==> Committed(oldS) && !Committed(newS)
    ensures StockDeltaDirection(oldS, newS) == 0 && Committed(oldS) != Committed(newS) <==>
      (Committed(oldS) && newS == PENDING) ||
      ((oldS == OrderStatus.CANCELED || oldS == REFUNDED) && Committed(newS))
  {
  }

  /** The variant id an order line adjusts: a falsy id counts as none. */
  function VariantOf(it: OrderItem): Option<string> {
    if it.variantId == Some("") then None else it.variantId
  }

  /** The variants the order's lines reference. */
  function Referenced(items: seq<OrderItem>): set<string> {
    set i | 0 <= i < |items| && VariantOf(items[i]).Some? :: VariantOf(items[i]).value
  }

  /** Total quantity the lines ask of variant `v`. */
  function SumQty(items: seq<OrderItem>, v: string): int {
    if |items| == 0 then 0
    else (if VariantOf(items[0]) == Some(v) then items[0].qty else 0) + SumQty(items[1..], v)
  }

  /** Stock read from the working map; a variant the store did not return
      starts from 0. */
  function Get0(m: map<string, int>, v: string): int {
    if v in m then m[v] else 0
  }

  datatype FoldResult = Folded(stock: map<string, int>) | Short(variantId: string, current: int, need: int)

  /** The guarded loop over the lines: each line with a variant moves that
      variant's running value by `dir * qty`; the first value that would go
      below zero stops the fold and names the variant, its current value and
      the quantity asked. */
  function FoldStock(m: map<string, int>, items: seq<OrderItem>, dir: int): FoldResult
    decreases |items|
  {
    if |items| == 0 then Folded(m)
    else match VariantOf(items[0])
      case None => FoldStock(m, items[1..], dir)
      case Some(v) =>
        var curr := Get0(m, v);
        var next := curr + dir * items[0].qty;
        if next < 0 then Short(v, curr, items[0].qty)
        else FoldStock(m[v := next], items[1..], dir)
  }

  lemma MulAdd(d: int, a: int, b: int)
    ensures d * (a + b) == d * a + d * b
  {
  }

  lemma ReferencedCons(items: seq<OrderItem>)
    requires |items| > 0
    ensures Referenced(items) == Referenced(items[1..]) + (if VariantOf(items[0]).Some? then {VariantOf(items[0]).value} else {})
  {
    var rest := items[1..];
    forall v | v in Referenced(items) ensures v in Referenced(rest) || Some(v) == VariantOf(items[0]) {
      var i :| 0 <= i < |items| && VariantOf(items[i]) == Some(v);
      if i > 0 { assert VariantOf(rest[i - 1]) == Some(v); }
    }
    forall v | v in Referenced(rest) ensures v in Referenced(items) {
      var i :| 0 <= i < |rest| && VariantOf(rest[i]) == Some(v);
      assert items[i + 1] == rest[i];
    }
  }

  /** On success every referenced variant ends at its start value plus
      `dir` times the total quantity asked of it; every other entry of the
      working map is left as it was. */
  lemma {:induction false} FoldSuccess(m: map<string, int>, items: seq<OrderItem>, dir: int, r: map<string, int>)
    requires FoldStock(m, items, dir) == Folded(r)
    ensures r.Keys == m.Keys + Referenced(items)
    ensures forall v :: v in Referenced(items) ==> r[v] == Get0(m, v) + dir * SumQty(items, v)
    ensures forall v :: v in m && v !in Referenced(items) ==> r[v] == m[v]
    decreases |items|
  {
    if |items| > 0 {
      var rest := items[1..];
      ReferencedCons(items);
      var m' := Step(m, items[0], dir);
      assert FoldStock(m, items, dir) == FoldStock(m', rest, dir);
      FoldSuccess(m', rest, dir, r);
      forall v | v in Referenced(items) ensures r[v] == Get0(m, v) + dir * SumQty(items, v) {
        var head := if VariantOf(items[0]) == Some(v) then items[0].qty else 0;
        assert SumQty(items, v) == head + SumQty(rest, v);
        assert Get0(m', v) == Get0(m, v) + dir * head;
        if v !in Referenced(rest) {
          SumQtyUnreferenced(rest, v);
          assert r[v] == m'[v];
        }
        MulAdd(dir, head, SumQty(rest, v));
      }
    }
  }

  /** Every variant the fold touched ends non-negative, whatever the start
      values were: the last value written for it passed the guard. */
  lemma {:induction false} FoldTouchedNonNegative(m: map<string, int>, items: seq<OrderItem>, dir: int, r: map<string, int>)
    requires FoldStock(m, items, dir) == Folded(r)
    ensures forall v :: v in r && (v in Referenced(items) || (v in m && m[v] >= 0)) ==> r[v] >= 0
    decreases |items|
  {
    if |items| > 0 {
      ReferencedCons(items);
      var m' := Step(m, items[0], dir);
      assert FoldStock(m, items, dir) == FoldStock(m', items[1..], dir);
      FoldTouchedNonNegative(m', items[1..], dir, r);
    }
  }

  /** The running value of line `k`'s variant right after line `k`. */
  function Running(m: map<string, int>, items: seq<OrderItem>, dir: int, k: nat): int
    requires k < |items| && VariantOf(items[k]).Some?
  {
    Get0(m, VariantOf(items[k]).value) + dir * SumQty(items[..k + 1], VariantOf(items[k]).value)
  }

  /** The working map after one line, without the guard. */
  function Step(m: map<string, int>, it: OrderItem, dir: int): map<string, int> {
    match VariantOf(it)
    case None => m
    case Some(w) => m[w := Get0(m, w) + dir * it.qty]
  }

  lemma RunningShift(m: map<string, int>, items: seq<OrderItem>, dir: int, k: nat)
    requires 0 < k < |items| && VariantOf(items[k]).Some?
    ensures Running(m, items, dir, k) == Running(Step(m, items[0], dir), items[1..], dir, k - 1)
  {
    assert items[..k + 1][1..] == items[1..][..k];
  }

  lemma RunningFirst(m: map<string, int>, items: seq<OrderItem>, dir: int)
    requires 0 < |items| && VariantOf(items[0]).Some?
    ensures Running(m, items, dir, 0) == Get0(m, VariantOf(items[0]).value) + dir * items[0].qty
  {
    var v := VariantOf(items[0]).value;
    assert items[..1] == [items[0]];
    assert SumQty([items[0]], v) == items[0].qty + SumQty([], v);
  }

  /** The fold succeeds exactly when no running value goes below zero. */
  lemma {:induction false} FoldOkIff(m: map<string, int>, items: seq<OrderItem>, dir: int)
    ensures FoldStock(m, items, dir).Folded? <==>
      forall k :: 0 <= k < |items| && VariantOf(items[k]).Some? ==> Running(m, items, dir, k) >= 0
    decreases |items|
  {
    if |items| > 0 {
      var rest := items[1..];
      var m' := Step(m, items[0], dir);
      FoldOkIff(m', rest, dir);
      forall k | 0 < k < |items| && VariantOf(items[k]).Some?
        ensures Running(m, items, dir, k) == Running(m', rest, dir, k - 1)
      {
        assert VariantOf(rest[k - 1]).Some?;
        RunningShift(m, items, dir, k);
      }
      var headOk := VariantOf(items[0]).None? || Get0(m, VariantOf(items[0]).value) + dir * items[0].qty >= 0;
      if VariantOf(items[0]).Some? { RunningFirst(m, items, dir); }
      assert headOk ==> FoldStock(m, items, dir) == FoldStock(m', rest, dir);
      assert !headOk ==> FoldStock(m, items, dir).Short?;
      if !headOk {
        assert Running(m, items, dir, 0) < 0;
      } else if !FoldStock(m', rest, dir).Folded? {
        var k :| 0 <= k < |rest| && VariantOf(rest[k]).Some? && Running(m', rest, dir, k) < 0;
        assert VariantOf(items[k + 1]).Some?;
        assert Running(m, items, dir, k + 1) < 0;
      } else {
        forall k | 0 <= k < |items| && VariantOf(items[k]).Some? ensures Running(m, items, dir, k) >= 0 {
          if k > 0 { assert VariantOf(rest[k - 1]).Some?; }
        }
      }
    }
  }

  /** Line `k` is the first line whose variant's running value goes below
      zero. */
  predicate FirstNegative(m: map<string, int>, items: seq<OrderItem>, dir: int, k: nat) {
    && k < |items| && VariantOf(items[k]).Some?
    && Running(m, items, dir, k) < 0
    && forall j :: 0 <= j < k && VariantOf(items[j]).Some? ==> Running(m, items, dir, j) >= 0
  }

  /** Line `k` is the first line to go negative, for variant `v`, from the
      value `c`, asking for `n`. */
  predicate ShortAt(m: map<string, int>, items: seq<OrderItem>, dir: int, k: nat, v: string, c: int, n: int) {
    FirstNegative(m, items, dir, k) && VariantOf(items[k]) == Some(v)
    && n == items[k].qty && Running(m, items, dir, k) == c + dir * n
  }

  lemma ShortAtHead(m: map<string, int>, items: seq<OrderItem>, dir: int)
    requires 0 < |items| && VariantOf(items[0]).Some?
    requires Get0(m, VariantOf(items[0]).value) + dir * items[0].qty < 0
    ensures ShortAt(m, items, dir, 0, VariantOf(items[0]).value, Get0(m, VariantOf(items[0]).value), items[0].qty)
  {
    RunningFirst(m, items, dir);
  }

  lemma ShortAtShift(m: map<string, int>, items: seq<OrderItem>, dir: int, k: nat, v: string, c: int, n: int)
    requires 0 < |items|
    requires VariantOf(items[0]).None? || Get0(m, VariantOf(items[0]).value) + dir * items[0].qty >= 0
    requires ShortAt(Step(m, items[0], dir), items[1..], dir, k, v, c, n)
    ensures ShortAt(m, items, dir, k + 1, v, c, n)
  {
    var rest := items[1..];
    var m' := Step(m, items[0], dir);
    assert items[k + 1] == rest[k];
    RunningShift(m, items, dir, k + 1);
    forall j | 0 <= j < k + 1 && VariantOf(items[j]).Some?
      ensures Running(m, items, dir, j) >= 0
    {
      if j == 0 {
        RunningFirst(m, items, dir);
      } else {
        assert VariantOf(rest[j - 1]).Some?;
        RunningShift(m, items, dir, j);
      }
    }
  }

  /** A stopped fold names the first line that would drive its variant
      negative: that line's variant, the value before the line and the
      line's quantity. */
  lemma {:induction false} FoldShortFirst(m: map<string, int>, items: seq<OrderItem>, dir: int, v: string, c: int, n: int)
    requires FoldStock(m, items, dir) == Short(v, c, n)
    ensures exists k: nat :: ShortAt(m, items, dir, k, v, c, n)
    decreases |items|
  {
    var rest := items[1..];
    var m' := Step(m, items[0], dir);
    if VariantOf(items[0]).Some? && Get0(m, VariantOf(items[0]).value) + dir * items[0].qty < 0 {
      ShortAtHead(m, items, dir);
    } else {
      assert FoldStock(m, items, dir) == FoldStock(m', rest, dir);
      FoldShortFirst(m', rest, dir, v, c, n);
      var k: nat :| ShortAt(m', rest, dir, k, v, c, n);
      ShortAtShift(m, items, dir, k, v, c, n);
    }
  }

  lemma {:induction false} SumQtyNonNegative(items: seq<OrderItem>, v: string)
    requires forall i :: 0 <= i < |items| ==> items[i].qty >= 0
    ensures SumQty(items, v) >= 0
  {
    if |items| > 0 { SumQtyNonNegative(items[1..], v); }
  }

  datatype OrderError =
    | IdRequired
    | InvalidStatus
    | OrderNotFound
    | InsufficientStock(variantId: string, current: int, need: int)
    | VariantNotFound

  datatype Outcome = Updated | Unchanged | Failed(error: OrderError)

  datatype Transition = Transition(outcome: Outcome, orders: map<string, Order>, stock: map<string, int>)

  /** The stock rows the transaction reads: those of the referenced variants. */
  function StockOf(stock: map<string, int>, vs: set<string>): map<string, int> {
    map v | v in vs && v in stock :: stock[v]
  }

  /** `setOrderStatus` as one atomic step over the order and stock tables. */
  function SetStatus(orders: map<string, Order>, stock: map<string, int>, id: string, status: string): Transition {
    if id == "" then Transition(Failed(IdRequired), orders, stock)
    else match ParseStatus(status)
      case None => Transition(Failed(InvalidStatus), orders, stock)
      case Some(s) =>
        if id !in orders then Transition(Failed(OrderNotFound), orders, stock)
        else
          var o := orders[id];
          if o.status == s then Transition(Unchanged, orders, stock)
          else
            var dir := StockDeltaDirection(o.status, s);
            var updated := orders[id := o.(status := s)];
            var vs := Referenced(o.items);
            if dir == 0 || vs == {} then Transition(Updated, updated, stock)
            else match FoldStock(StockOf(stock, vs), o.items, dir)
              case Short(v, c, n) => Transition(Failed(InsufficientStock(v, c, n)), orders, stock)
              case Folded(r) =>
                if r.Keys <= stock.Keys then Transition(Updated, updated, stock + r)
                else Transition(Failed(VariantNotFound), orders, stock)
  }

  /** Every outcome but `Updated` leaves both tables untouched; a missing
      id, an unknown status and a missing order each fail with their own
      error, checked in that order, and re-setting the current status
      changes nothing. */
  lemma SetStatusContract(orders: map<string, Order>, stock: map<string, int>, id: string, status: string)
    ensures var t := SetStatus(orders, stock, id, status);
      && (!t.outcome.Updated? ==> t.orders == orders && t.stock == stock)
      && (id == "" || ParseStatus(status).None? || id !in orders ==> t.outcome.Failed?)
      && (id == "" ==> t.outcome == Failed(IdRequired))
      && (id != "" && ParseStatus(status).None? ==> t.outcome == Failed(InvalidStatus))
      && (id != "" && ParseStatus(status).Some? && id !in orders ==> t.outcome == Failed(OrderNotFound))
      && (id != "" && ParseStatus(status).Some? && id in orders && orders[id].status == ParseStatus(status).value
          ==> t.outcome == Unchanged)
  {
  }

  /** A successful step moves the order to a different status and adds
      `dir * SumQty(items, v)` to the stock of every variant `v`, where
      `dir` is the stock direction of the transition; a moving transition
      only succeeds when every referenced variant exists and ends
      non-negative. */
  lemma SetStatusUpdated(orders: map<string, Order>, stock: map<string, int>, id: string, status: string)
    requires SetStatus(orders, stock, id, status).outcome == Updated
    ensures var t := SetStatus(orders, stock, id, status);
      var o := orders[id];
      var s := ParseStatus(status).value;
      var dir := StockDeltaDirection(o.status, s);
      && o.status != s
      && t.orders == orders[id := o.(status := s)]
      && t.stock.Keys == stock.Keys
      && (dir != 0 ==> Referenced(o.items) <= stock.Keys)
      && (forall v :: v in stock ==> t.stock[v] == stock[v] + dir * SumQty(o.items, v))
      && (dir != 0 ==> forall v :: v in Referenced(o.items) ==> t.stock[v] >= 0)
  {
    var t := SetStatus(orders, stock, id, status);
    var o := orders[id];
    var s := ParseStatus(status).value;
    var dir := StockDeltaDirection(o.status, s);
    var vs := Referenced(o.items);
    if dir == 0 {
    } else if vs == {} {
      forall v | v in stock ensures SumQty(o.items, v) == 0 {
        SumQtyUnreferenced(o.items, v);
      }
    } else {
      var init := StockOf(stock, vs);
      var r := FoldStock(init, o.items, dir).stock;
      FoldSuccess(init, o.items, dir, r);
      FoldTouchedNonNegative(init, o.items, dir, r);
      forall v | v in stock ensures t.stock[v] == stock[v] + dir * SumQty(o.items, v) {
        if v !in vs { SumQtyUnreferenced(o.items, v); }
      }
    }
  }

  lemma {:induction false} SumQtyUnreferenced(items: seq<OrderItem>, v: string)
    requires v !in Referenced(items)
    ensures SumQty(items, v) == 0
  {
    if |items| > 0 {
      assert VariantOf(items[0]) != Some(v);
      forall w | w in Referenced(items[1..]) ensures w in Referenced(items) {
        var i :| 0 <= i < |items[1..]| && VariantOf(items[1..][i]) == Some(w);
        assert items[i + 1] == items[1..][i];
      }
      SumQtyUnreferenced(items[1..], v);
    }
  }

  /** When does the step succeed: a valid request for a different status
      succeeds exactly when the direction is 0, or no running stock value
      goes negative and every referenced variant exists. */
  lemma SetStatusSucceedsIff(orders: map<string, Order>, stock: map<string, int>, id: string, status: string)
    requires id != "" && ParseStatus(status).Some? && id in orders
    requires orders[id].status != ParseStatus(status).value
    ensures var o := orders[id];
      var dir := StockDeltaDirection(o.status, ParseStatus(status).value);
      var init := StockOf(stock, Referenced(o.items));
      SetStatus(orders, stock, id, status).outcome == Updated <==>
        dir == 0 ||
        ((forall k :: 0 <= k < |o.items| && VariantOf(o.items[k]).Some? ==> Running(init, o.items, dir, k) >= 0)
         && Referenced(o.items) <= stock.Keys)
  {
    var o := orders[id];
    var dir := StockDeltaDirection(o.status, ParseStatus(status).value);
    var vs := Referenced(o.items);
    var init := StockOf(stock, vs);
    FoldOkIff(init, o.items, dir);
    assert forall k :: 0 <= k < |o.items| && VariantOf(o.items[k]).Some? ==> VariantOf(o.items[k]).value in vs;
    if dir != 0 && vs != {} && FoldStock(init, o.items, dir).Folded? {
      var r := FoldStock(init, o.items, dir).stock;
      FoldSuccess(init, o.items, dir, r);
      assert r.Keys == vs;
    }
  }

  /** When does the step report a shortfall: a valid request for a
      different status fails with `InsufficientStock` exactly when stock
      moves and some running value goes negative. The error then names the
      first such line's variant, the value that variant had before the
      line, and the line's quantity. */
  lemma SetStatusShortIff(orders: map<string, Order>, stock: map<string, int>, id: string, status: string)
    requires id != "" && ParseStatus(status).Some? && id in orders
    requires orders[id].status != ParseStatus(status).value
    ensures var o := orders[id];
      var dir := StockDeltaDirection(o.status, ParseStatus(status).value);
      var init := StockOf(stock, Referenced(o.items));
      var t := SetStatus(orders, stock, id, status);
      && (t.outcome.Failed? && t.outcome.error.InsufficientStock? <==>
            dir != 0 && exists k :: 0 <= k < |o.items| && VariantOf(o.items[k]).Some? && Running(init, o.items, dir, k) < 0)
      && (t.outcome.Failed? && t.outcome.error.InsufficientStock? ==>
            exists k: nat :: ShortAt(init, o.items, dir, k, t.outcome.error.variantId, t.outcome.error.current, t.outcome.error.need))
  {
    var o := orders[id];
    var dir := StockDeltaDirection(o.status, ParseStatus(status).value);
    var vs := Referenced(o.items);
    var init := StockOf(stock, vs);
    FoldOkIff(init, o.items, dir);
    assert forall k :: 0 <= k < |o.items| && VariantOf(o.items[k]).Some? ==> VariantOf(o.items[k]).value in vs;
    if dir != 0 && vs != {} {
      match FoldStock(init, o.items, dir)
      case Short(v, c, n) => FoldShortFirst(init, o.items, dir, v, c, n);
      case Folded(_) =>
    }
  }

  /** One unit in stock and three asked: confirming the order fails with
      "current 1, need 3" and changes nothing. */
  lemma ShortageScenario()
    ensures var o := Order(OrderStatus.PENDING, 3000, [OrderItem("p", Some("v"), 1000, 3)]);
      var orders := map["o" := o];
      var stock := map["v" := 1];
      SetStatus(orders, stock, "o", "PAID") == Transition(Failed(InsufficientStock("v", 1, 3)), orders, stock)
  {
    var it := OrderItem("p", Some("v"), 1000, 3);
    var o := Order(OrderStatus.PENDING, 3000, [it]);
    assert ParseStatus("PAID") == Some(OrderStatus.PAID);
    assert StockDeltaDirection(OrderStatus.PENDING, OrderStatus.PAID) == -1;
    assert VariantOf(o.items[0]) == Some("v");
    assert "v" in Referenced(o.items);
    assert Referenced(o.items) == {"v"};
    var init := StockOf(map["v" := 1], {"v"});
    assert init == map["v" := 1];
    assert FoldStock(init, o.items, -1) == Short("v", 1, 3);
  }

  /** A paid order with non-negative quantities whose referenced variants
      all exist with non-negative stock can always be canceled: the
      increments cannot drive stock below zero. */
  lemma CancelSucceeds(orders: map<string, Order>, stock: map<string, int>, id: string)
    requires id in orders && id != "" && orders[id].status == OrderStatus.PAID
    requires forall i :: 0 <= i < |orders[id].items| ==> orders[id].items[i].qty >= 0
    requires Referenced(orders[id].items) <= stock.Keys
    requires forall v :: v in Referenced(orders[id].items) ==> stock[v] >= 0
    ensures SetStatus(orders, stock, id, "CANCELED").outcome == Updated
  {
    var items := orders[id].items;
    var vs := Referenced(items);
    var init := StockOf(stock, vs);
    forall k | 0 <= k < |items| && VariantOf(items[k]).Some? ensures Running(init, items, 1, k) >= 0 {
      SumQtyNonNegative(items[..k + 1], VariantOf(items[k]).value);
      assert VariantOf(items[k]).value in vs;
    }
    SetStatusSucceedsIff(orders, stock, id, "CANCELED");
  }

  /** Confirming a pending order and then canceling it restores every stock
      value, for orders whose quantities are non-negative. */
  lemma ConfirmThenCancel(orders: map<string, Order>, stock: map<string, int>, id: string)
    requires id != "" && id in orders && orders[id].status == PENDING
    requires forall i :: 0 <= i < |orders[id].items| ==> orders[id].items[i].qty >= 0
    requires SetStatus(orders, stock, id, "PAID").outcome == Updated
    ensures var t1 := SetStatus(orders, stock, id, "PAID");
      var t2 := SetStatus(t1.orders, t1.stock, id, "CANCELED");
      t2.outcome == Updated && t2.stock == stock && t2.orders[id].status == OrderStatus.CANCELED
  {
    var items := orders[id].items;
    var t1 := SetStatus(orders, stock, id, "PAID");
    SetStatusUpdated(orders, stock, id, "PAID");
    assert t1.orders[id] == orders[id].(status := OrderStatus.PAID);
    CancelSucceeds(t1.orders, t1.stock, id);
    var t2 := SetStatus(t1.orders, t1.stock, id, "CANCELED");
    SetStatusUpdated(t1.orders, t1.stock, id, "CANCELED");
    assert forall v :: v in stock ==> t2.stock[v] == stock[v];
  }

  /** `setOrderStatus`: validation, the no-op, the guarded stock loop and
      the atomic commit, over the store. */
  method SetOrderStatus(db: Db, id: string, status: string) returns (outcome: Outcome)
    modifies db
    ensures Transition(outcome, db.orders, db.stock) == SetStatus(old(db.orders), old(db.stock), id, status)
    ensures db.payments == old(db.payments)
  {
    if id == "" {
      return Failed(IdRequired);
    }
    var parsed := ParseStatus(status);
    if parsed.None? {
      return Failed(InvalidStatus);
    }
    var s := parsed.value;
    if id !in db.orders {
      return Failed(OrderNotFound);
    }
    var order := db.orders[id];
    if order.status == s {
      return Unchanged;
    }
    var dir := StockDeltaDirection(order.status, s);
    var newStock := db.stock;
    if dir != 0 {
      var variantIds := Referenced(order.items);
      if variantIds != {} {
        var stockMap := StockOf(db.stock, variantIds);
        ghost var init := stockMap;
        var i := 0;
        while i < |order.items|
          invariant 0 <= i <= |order.items|
          invariant FoldStock(init, order.items, dir) == FoldStock(stockMap, order.items[i..], dir)
        {
          var it := order.items[i];
          assert order.items[i..][1..] == order.items[i + 1..];
          var v := VariantOf(it);
          if v.Some? {
            var curr := Get0(stockMap, v.value);
            var next := curr + dir * it.qty;
            if next < 0 {
              return Failed(InsufficientStock(v.value, curr, it.qty));
            }
            stockMap := stockMap[v.value := next];
          }
          i := i + 1;
        }
        if !(stockMap.Keys <= db.stock.Keys) {
          return Failed(VariantNotFound);
        }
        newStock := db.stock + stockMap;
      }
    }
    db.stock := newStock;
    db.orders := db.orders[id := order.(status := s)];
    return Updated;
  }
}
