/** `TradingBot.check_pending_orders` as functions of the pending list: which
    orders stay pending and which become open trades on one bar. Both are
    defined by recursion on the last order, the order in which the source's
    loop visits the list. */
module Orders {
  import opened Trades

  /** Every order carries the `order_time` key the expiry test reads. */
  predicate Timed(orders: seq<Trade>)
  {
    forall o :: o in orders ==> o.orderTime.Some?
  }

  /** The order survives the bar: not expired, still pending, and the bar's
      range missed its price. */
  predicate StaysPending(o: Trade, now: real, low: real, high: real)
    requires o.orderTime.Some?
  {
    !Expired(o, now) && o.status == Pending && !Triggers(o, low, high)
  }

  /** The order triggers on the bar: not expired, still pending, and the
      bar's range contains its price. */
  predicate Fires(o: Trade, now: real, low: real, high: real)
    requires o.orderTime.Some?
  {
    !Expired(o, now) && o.status == Pending && Triggers(o, low, high)
  }

  /** The new `pending_orders` list. */
  function Kept(orders: seq<Trade>, now: real, low: real, high: real): seq<Trade>
    requires Timed(orders)
    decreases |orders|
  {
    if orders == [] then []
    else
      var o := orders[|orders| - 1];
      Kept(orders[..|orders| - 1], now, low, high) + (if StaysPending(o, now, low, high) then [o] else [])
  }

  /** The trades appended to `open_trades`, in list order. */
  function Triggered(orders: seq<Trade>, now: real, low: real, high: real, close: real): seq<Trade>
    requires Timed(orders)
    decreases |orders|
  {
    if orders == [] then []
    else
      var o := orders[|orders| - 1];
      Triggered(orders[..|orders| - 1], now, low, high, close)
        + (if Fires(o, now, low, high) then [Activated(o, close, now)] else [])
  }

  /** `a` is `b` with some elements removed, the rest in their original order. */
  predicate IsSubsequence<T(==)>(a: seq<T>, b: seq<T>)
    decreases |b|
  {
    a == [] ||
    (b != [] &&
     ((a[|a| - 1] == b[|b| - 1] && IsSubsequence(a[..|a| - 1], b[..|b| - 1])) ||
      IsSubsequence(a, b[..|b| - 1])))
  }

  /** Checking one more order extends each list by at most that order. */
  lemma CheckStep(orders: seq<Trade>, i: nat, now: real, low: real, high: real, close: real)
    requires Timed(orders) && i < |orders|
    ensures Timed(orders[..i]) && Timed(orders[..i + 1])
    ensures Kept(orders[..i + 1], now, low, high) ==
            Kept(orders[..i], now, low, high) + (if StaysPending(orders[i], now, low, high) then [orders[i]] else [])
    ensures Triggered(orders[..i + 1], now, low, high, close) ==
            Triggered(orders[..i], now, low, high, close)
              + (if Fires(orders[i], now, low, high) then [Activated(orders[i], close, now)] else [])
  {
    assert orders[..i + 1][..i] == orders[..i];
  }

  /** An order stays pending exactly when it was in the list, has not
      expired, is still marked pending and was not reached by the bar. */
  lemma {:induction false} KeptMembers(orders: seq<Trade>, now: real, low: real, high: real, t: Trade)
    requires Timed(orders)
    ensures t in Kept(orders, now, low, high) <==> t in orders && StaysPending(t, now, low, high)
    decreases |orders|
  {
    if orders != [] {
      var init := orders[..|orders| - 1];
      assert orders == init + [orders[|orders| - 1]];
      KeptMembers(init, now, low, high, t);
    }
  }

  /** A trade is opened exactly for each order that fires, filled at the bar
      close with that order's bracket. */
  lemma {:induction false} TriggeredMembers(orders: seq<Trade>, now: real, low: real, high: real, close: real, t: Trade)
    requires Timed(orders)
    ensures t in Triggered(orders, now, low, high, close) <==>
            exists o :: o in orders && Fires(o, now, low, high) && t == Activated(o, close, now)
    decreases |orders|
  {
    if orders != [] {
      var init := orders[..|orders| - 1];
      var last := orders[|orders| - 1];
      assert orders == init + [last];
      TriggeredMembers(init, now, low, high, close, t);
      if t in Triggered(orders, now, low, high, close) && t !in Triggered(init, now, low, high, close) {
        assert t == Activated(last, close, now) && last in orders && Fires(last, now, low, high);
      }
    }
  }

  /** The orders left pending keep their original relative order. */
  lemma {:induction false} KeptInOrder(orders: seq<Trade>, now: real, low: real, high: real)
    requires Timed(orders)
    ensures IsSubsequence(Kept(orders, now, low, high), orders)
    decreases |orders|
  {
    if orders != [] {
      var init := orders[..|orders| - 1];
      var last := orders[|orders| - 1];
      KeptInOrder(init, now, low, high);
      var k := Kept(orders, now, low, high);
      if StaysPending(last, now, low, high) {
        assert k[|k| - 1] == last && k[..|k| - 1] == Kept(init, now, low, high);
      } else {
        assert k == Kept(init, now, low, high);
        assert k == [] || IsSubsequence(k, orders[..|orders| - 1]);
      }
    }
  }

  /** Every order goes to at most one place: the pending list only shrinks,
      and what it loses is at least what becomes an open trade. */
  lemma {:induction false} OrdersAreConserved(orders: seq<Trade>, now: real, low: real, high: real, close: real)
    requires Timed(orders)
    ensures |Kept(orders, now, low, high)| + |Triggered(orders, now, low, high, close)| <= |orders|
    decreases |orders|
  {
    if orders != [] {
      OrdersAreConserved(orders[..|orders| - 1], now, low, high, close);
    }
  }

  /** What remains pending is still pending, timed and unexpired; what is
      triggered is open, filled at the close, stamped with `now`, and was
      placed at most 300 s ago. */
  lemma AfterCheckStatuses(orders: seq<Trade>, now: real, low: real, high: real, close: real)
    requires Timed(orders)
    ensures forall t :: t in Kept(orders, now, low, high) ==>
              t.status == Pending && t.orderTime.Some? && !Expired(t, now)
    ensures forall t :: t in Triggered(orders, now, low, high, close) ==>
              t.status == Open && t.entryPrice == close && t.openTime == Some(now) &&
              t.orderTime.Some? && now - t.orderTime.value <= PendingTtlSeconds
  {
    forall t | t in Kept(orders, now, low, high)
      ensures t.status == Pending && t.orderTime.Some? && !Expired(t, now)
    {
      KeptMembers(orders, now, low, high, t);
    }
    forall t | t in Triggered(orders, now, low, high, close)
      ensures t.status == Open && t.entryPrice == close && t.openTime == Some(now) &&
              t.orderTime.Some? && now - t.orderTime.value <= PendingTtlSeconds
    {
      TriggeredMembers(orders, now, low, high, close, t);
    }
  }

  /** An expired order is dropped and never becomes a trade, even when the
      bar's range covers its price. */
  lemma ExpiredOrderNeverTrades(orders: seq<Trade>, now: real, low: real, high: real, close: real, o: Trade)
    requires Timed(orders)
    requires o in orders && Expired(o, now)
    ensures o !in Kept(orders, now, low, high)
    ensures Activated(o, close, now) !in Triggered(orders, now, low, high, close)
  {
    KeptMembers(orders, now, low, high, o);
    var t := Activated(o, close, now);
    TriggeredMembers(orders, now, low, high, close, t);
  }
}
