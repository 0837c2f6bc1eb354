/** The server side of the order-status stream (apps/api/src/sse/order-status.js): the two
    process-wide maps `activeConnections` (order id to response) and `orderIntervals` (order id to
    repeating timer), the per-tick status progression, and connection teardown.

    Timers and transport callbacks are explicit events on a `StreamServer` object: a subscription
    request, a tick of a live interval, a fired cleanup timeout, a closed request. Each event runs to
    completion before the next one. Responses and timers are identified by numbers; what a response
    received is the list of frames written to it, and `ended` records `res.end()`. Store calls that
    throw are named by a `Fault` parameter; `Date.now()` is the `now` parameter. */
module OrderStatusStream {
  import opened Wrappers
  import opened Text
  import opened Records
  import opened EventStream

  /** An Express response object. */
  type Handle = nat
  /** A `setInterval` handle. */
  type TimerId = nat

  /** The interval between ticks and the grace delay before the final cleanup, in ms. */
  const TickInterval := 5000
  const CleanupDelay := 2000
  const ThreeDays := 3 * 24 * 60 * 60 * 1000

  /** Which store call throws during an event: the tick's `findById`, its `save`, or the
      `findById` inside the `sendStatusUpdate` that follows a save. */
  datatype Fault = NoFault | LoadFails | SaveFails | ReloadFails

  /** What sendStatusUpdate writes for `orderId` (lines 34-56): the stored order's snapshot,
      `{ error: 'Order not found' }` for an unknown id, or `{ error: 'Failed to fetch order status' }`
      when the lookup throws. */
  function StatusPayload(orders: map<string, Order>, orderId: string, now: Date, lookupFails: bool): (p: Payload)
    ensures lookupFails ==> p == ErrorPayload("Failed to fetch order status")
    ensures !lookupFails && orderId !in orders ==> p == ErrorPayload("Order not found")
    ensures !lookupFails && orderId in orders ==>
      p.SnapshotPayload? && p.snapshot.orderId == orderId && p.snapshot.timestamp == now
      && p.snapshot.status == orders[orderId].status && p.snapshot.carrier == orders[orderId].carrier
      && p.snapshot.trackingNumber == orders[orderId].trackingNumber
      && p.snapshot.estimatedDelivery == orders[orderId].estimatedDelivery
  {
    if lookupFails then ErrorPayload("Failed to fetch order status")
    else if orderId !in orders then ErrorPayload("Order not found")
    else
      var o := orders[orderId];
      SnapshotPayload(Snapshot(orderId, o.status, o.carrier, o.trackingNumber, o.estimatedDelivery, now))
  }

  /** The JSON text an unknown order id receives: `{"error":"Order not found"}`. */
  lemma NotFoundJson(orders: map<string, Order>, orderId: string, now: Date)
    requires orderId !in orders
    ensures Json(StatusPayload(orders, orderId, now, false)) == "{\"error\":\"" + "Order not found" + "\"}"
  {
    var m := "Order not found";
    assert forall i :: 0 <= i < |m| ==> PlainChar(m[i]);
    PlainErrorJson(m);
  }

  /** What the tick's switch (lines 73-98) decides for a loaded order. */
  datatype TickStep =
    | Advanced(order: Order)  // the order with its next status and fields, to be saved
    | Finished                // DELIVERED: clear and delete the interval
    | Ignored                 // an unrecognised status: return, the interval keeps running

  /** The switch on `order.status` and the field assignments that follow it (lines 73-105). */
  function TickStepOf(o: Order, now: Date): TickStep {
    if o.status == DELIVERED then Finished
    else if o.status !in [PENDING, PROCESSING, SHIPPED] then Ignored
    else
      var next := if o.status == PENDING then PROCESSING else if o.status == PROCESSING then SHIPPED else DELIVERED;
      // `let carrier = order.carrier` and `estimatedDelivery`, overridden by the PROCESSING case;
      // the PROCESSING case writes `order.trackingNumber` directly.
      var carrier := if o.status == PROCESSING && !Truthy(o.carrier) then Some("FedEx") else o.carrier;
      var tracking :=
        if o.status == PROCESSING && !Truthy(o.trackingNumber) then Some("FX" + NatToString(now)) else o.trackingNumber;
      var eta := if o.status == PROCESSING then Some(now + ThreeDays) else o.estimatedDelivery;
      Advanced(o.(
        status := next,
        carrier := if Truthy(carrier) then carrier else o.carrier,
        trackingNumber := tracking,
        estimatedDelivery := if eta.Some? then eta else o.estimatedDelivery,
        updatedAt := now))
  }

  /** The transition table: PENDING, PROCESSING and SHIPPED advance to the next status of the
      lifecycle, DELIVERED finishes, and any other value is ignored. */
  lemma TickFollowsLifecycle(o: Order, now: Date)
    ensures forall k :: 0 <= k < 3 && o.status == Lifecycle[k] ==>
      TickStepOf(o, now).Advanced? && TickStepOf(o, now).order.status == Lifecycle[k + 1]
    ensures o.status == DELIVERED <==> TickStepOf(o, now).Finished?
    ensures o.status !in Lifecycle <==> TickStepOf(o, now).Ignored?
  {}

  /** The fields a tick changes. On PROCESSING to SHIPPED the carrier becomes "FedEx" and the
      tracking number "FX" followed by the clock only when they are unset, and the estimated
      delivery is always set to three days from now; every other step leaves the three fields as
      they were loaded. Only status and updatedAt change otherwise. */
  lemma TickFields(o: Order, now: Date)
    requires TickStepOf(o, now).Advanced?
    ensures var n := TickStepOf(o, now).order;
      n.customerId == o.customerId && n.items == o.items && n.total == o.total
      && n.createdAt == o.createdAt && n.updatedAt == now
      && (o.status == PROCESSING ==>
            n.carrier == (if Truthy(o.carrier) then o.carrier else Some("FedEx"))
            && n.trackingNumber == (if Truthy(o.trackingNumber) then o.trackingNumber else Some("FX" + NatToString(now)))
            && n.estimatedDelivery == Some(now + ThreeDays))
      && (o.status != PROCESSING ==>
            n.carrier == o.carrier && n.trackingNumber == o.trackingNumber && n.estimatedDelivery == o.estimatedDelivery)
  {}

  /** The status after the ticks of `clocks` (the `Date.now()` of each tick), as long as each one
      advances the order. */
  function AfterTicks(o: Order, clocks: seq<Date>): Order
    decreases |clocks|
  {
    if clocks == [] then o
    else match TickStepOf(o, clocks[0])
      case Advanced(n) => AfterTicks(n, clocks[1..])
      case _ => o
  }

  /** Forward-only progression: an order created PENDING passes through the lifecycle in order,
      one status per tick, and stops at DELIVERED; from the SHIPPED step on it carries a carrier,
      a tracking number and an estimated delivery. */
  lemma {:induction false} ProgressionFromPending(o: Order, clocks: seq<Date>)
    requires o.status == PENDING
    ensures var n := AfterTicks(o, clocks);
      n.status == Lifecycle[if |clocks| < 3 then |clocks| else 3]
      && (|clocks| >= 2 ==> Truthy(n.carrier) && Truthy(n.trackingNumber) && n.estimatedDelivery.Some?)
  {
    if clocks != [] {
      var p := TickStepOf(o, clocks[0]).order;
      if |clocks| > 1 {
        var q := TickStepOf(p, clocks[1]).order;
        assert AfterTicks(p, clocks[1..]) == AfterTicks(q, clocks[2..]);
        assert "FX" + NatToString(clocks[1]) != "";
        if |clocks| > 2 {
          var r := TickStepOf(q, clocks[2]).order;
          assert AfterTicks(q, clocks[2..]) == AfterTicks(r, clocks[3..]);
          if |clocks| > 3 {
            assert TickStepOf(r, clocks[3]).Finished?;
          }
        }
      }
    }
  }

  /** What one tick does with its interval. */
  datatype TickOutcome =
    | StopTimer     // clear the interval and delete its map entry
    | KeepTimer     // return; the interval stays
    | Saved(order: Order)

  /** The outcome of a tick given what `findById` returned and which store call throws: a missing
      order, a throwing lookup or save (the catch block), and DELIVERED stop the timer; an unknown
      status keeps it. */
  function TickOutcomeOf(loaded: Option<Order>, now: Date, fault: Fault): (r: TickOutcome)
    ensures (fault == LoadFails || loaded.None?) ==> r == StopTimer
    ensures r.KeepTimer? <==> fault != LoadFails && loaded.Some? && loaded.value.status !in Lifecycle
    ensures r.Saved? ==> fault != SaveFails && loaded.Some? && TickStepOf(loaded.value, now) == Advanced(r.order)
    ensures fault != LoadFails && fault != SaveFails && loaded.Some? && TickStepOf(loaded.value, now).Advanced? ==>
      r == Saved(TickStepOf(loaded.value, now).order)
    ensures fault != LoadFails && loaded.Some? && (TickStepOf(loaded.value, now).Finished? || (TickStepOf(loaded.value, now).Advanced? && fault == SaveFails)) ==>
      r == StopTimer
  {
    if fault == LoadFails || loaded.None? then StopTimer
    else match TickStepOf(loaded.value, now)
      case Finished => StopTimer
      case Ignored => KeepTimer
      case Advanced(n) => if fault == SaveFails then StopTimer else Saved(n)
  }

  function Lookup(orders: map<string, Order>, id: string): Option<Order> {
    if id in orders then Some(orders[id]) else None
  }

  /** The payloads written to response `h`, in order. */
  function SentTo(written: seq<(Handle, Payload)>, h: Handle): seq<Payload> {
    if written == [] then []
    else SentTo(written[..|written| - 1], h) + (if written[|written| - 1].0 == h then [written[|written| - 1].1] else [])
  }

  class StreamServer {
    /** The order collection the ticks read and save. */
    const db: Database
    /** `activeConnections`: the registered response per order id. */
    var activeConnections: map<string, Handle>
    /** `orderIntervals`: the interval registered per order id. */
    var orderIntervals: map<string, TimerId>
    /** The intervals not yet cleared, each with the order id its callback closes over. */
    var liveTimers: map<TimerId, string>
    /** The next handle `setInterval` returns. */
    var nextTimer: TimerId
    /** The order ids of the `setTimeout(cleanupConnection, 2000)` calls that have not fired yet. */
    var pendingCleanups: multiset<string>
    /** Every `res.write` of a frame, in order. */
    var written: seq<(Handle, Payload)>
    /** The responses `res.end()` was called on. */
    var ended: set<Handle>

    /** A live interval is registered for the order its callback serves and vice versa, so no order
        ever has two live intervals. */
    ghost predicate Valid()
      reads this
    {
      && (forall t :: t in liveTimers ==> t < nextTimer)
      && (forall t :: t in liveTimers ==> liveTimers[t] in orderIntervals && orderIntervals[liveTimers[t]] == t)
      && (forall o :: o in orderIntervals ==> orderIntervals[o] in liveTimers && liveTimers[orderIntervals[o]] == o)
    }

    /** At most one live timer per order id. */
    lemma AtMostOneTimerPerOrder()
      requires Valid()
      ensures forall t1, t2 :: t1 in liveTimers && t2 in liveTimers && liveTimers[t1] == liveTimers[t2] ==> t1 == t2
    {}

    /** What response `h` has received decodes, event by event, to the JSON texts written to it. */
    lemma ReceivedEvents(h: Handle)
      ensures Events(Body(SentTo(written, h))) == JsonTexts(SentTo(written, h))
    {
      BodyDispatches(SentTo(written, h));
    }

    constructor (db: Database)
      ensures Valid() && this.db == db
      ensures activeConnections == map[] && orderIntervals == map[] && liveTimers == map[]
      ensures pendingCleanups == multiset{} && written == [] && ended == {}
    {
      this.db := db;
      activeConnections, orderIntervals, liveTimers, nextTimer := map[], map[], map[], 0;
      pendingCleanups, written, ended := multiset{}, [], {};
    }

    /** `sendStatusUpdate(res, orderId)`: one frame written to `res`. */
    method SendStatusUpdate(res: Handle, orderId: string, now: Date, lookupFails: bool)
      modifies this`written
      ensures written == old(written) + [(res, StatusPayload(db.orders, orderId, now, lookupFails))]
    {
      written := written + [(res, StatusPayload(db.orders, orderId, now, lookupFails))];
    }

    /** `startAutoProgression(orderId)`: clears the interval registered for the order, if any,
        then arms a fresh one and registers it (lines 58-129). */
    method StartAutoProgression(orderId: string)
      requires Valid()
      modifies this`liveTimers, this`orderIntervals, this`nextTimer
      ensures Valid()
      ensures nextTimer == old(nextTimer) + 1
      ensures orderIntervals == old(orderIntervals)[orderId := old(nextTimer)]
      ensures liveTimers ==
        (if orderId in old(orderIntervals) then old(liveTimers) - {old(orderIntervals[orderId])} else old(liveTimers))
        [old(nextTimer) := orderId]
    {
      if orderId in orderIntervals {
        liveTimers := liveTimers - {orderIntervals[orderId]};
      }
      var interval := nextTimer;
      nextTimer := nextTimer + 1;
      liveTimers := liveTimers[interval := orderId];
      orderIntervals := orderIntervals[orderId := interval];
    }

    /** `handleOrderStatusStream` and `setupOrderStatusStream` (lines 9-31, 146-155): a missing id
        is answered 400 and changes nothing; otherwise the response is registered (replacing,
        without ending, any earlier one for the same order), the initial frame is written, and the
        progression is (re)started — all before anything is known about the order. Returns the HTTP
        status. */
    method HandleOrderStatusStream(orderId: string, res: Handle, now: Date, lookupFails: bool) returns (status: nat)
      requires Valid()
      modifies this
      ensures Valid()
      ensures orderId == "" ==> status == 400 && unchanged(this)
      ensures orderId != "" ==>
        && status == 200
        && activeConnections == old(activeConnections)[orderId := res]
        && written == old(written) + [(res, StatusPayload(db.orders, orderId, now, lookupFails))]
        && nextTimer == old(nextTimer) + 1
        && orderIntervals == old(orderIntervals)[orderId := old(nextTimer)]
        && liveTimers ==
          (if orderId in old(orderIntervals) then old(liveTimers) - {old(orderIntervals[orderId])} else old(liveTimers))
          [old(nextTimer) := orderId]
        && ended == old(ended) && pendingCleanups == old(pendingCleanups)
    {
      if orderId == "" {
        return 400;
      }
      status := 200;
      activeConnections := activeConnections[orderId := res];
      SendStatusUpdate(res, orderId, now, lookupFails);
      StartAutoProgression(orderId);
    }

    /** `cleanupConnection(orderId)`, the request's `close` handler and the target of the final
        timeout (lines 131-143): ends and drops the registered response, clears and drops the
        registered interval; nothing else changes, and nothing at all when neither exists. */
    method CleanupConnection(orderId: string)
      requires Valid()
      modifies this`activeConnections, this`ended, this`liveTimers, this`orderIntervals
      ensures Valid()
      ensures ended == if orderId in old(activeConnections) then old(ended) + {old(activeConnections[orderId])} else old(ended)
      ensures activeConnections == old(activeConnections) - {orderId}
      ensures orderIntervals == old(orderIntervals) - {orderId}
      ensures liveTimers == if orderId in old(orderIntervals) then old(liveTimers) - {old(orderIntervals[orderId])} else old(liveTimers)
    {
      if orderId in activeConnections {
        ended := ended + {activeConnections[orderId]};
        activeConnections := activeConnections - {orderId};
      }
      if orderId in orderIntervals {
        liveTimers := liveTimers - {orderIntervals[orderId]};
        orderIntervals := orderIntervals - {orderId};
      }
    }

    /** A scheduled `setTimeout(() => cleanupConnection(orderId), 2000)` fires. */
    method FireCleanup(orderId: string)
      requires Valid() && orderId in pendingCleanups
      modifies this`activeConnections, this`ended, this`liveTimers, this`orderIntervals, this`pendingCleanups
      ensures Valid()
      ensures pendingCleanups == old(pendingCleanups) - multiset{orderId}
      ensures ended == if orderId in old(activeConnections) then old(ended) + {old(activeConnections[orderId])} else old(ended)
      ensures activeConnections == old(activeConnections) - {orderId}
      ensures orderIntervals == old(orderIntervals) - {orderId}
      ensures liveTimers == if orderId in old(orderIntervals) then old(liveTimers) - {old(orderIntervals[orderId])} else old(liveTimers)
    {
      pendingCleanups := pendingCleanups - multiset{orderId};
      CleanupConnection(orderId);
    }

    /** The live interval `t` fires (lines 64-126). A missing order, a throwing store call and a
        DELIVERED order clear this interval and delete this order's entry only; an unknown status
        returns with the interval still running; otherwise the advanced order is saved and, if a
        response is registered, a fresh snapshot is written to it, and on reaching DELIVERED a
        cleanup is scheduled. The interval itself is not cleared by the tick that delivers. */
    method Tick(t: TimerId, now: Date, fault: Fault)
      requires Valid() && t in liveTimers
      modifies this`liveTimers, this`orderIntervals, this`written, this`pendingCleanups, db`orders
      ensures Valid()
      ensures var id := old(liveTimers[t]);
        match TickOutcomeOf(Lookup(old(db.orders), id), now, fault)
        case StopTimer =>
          && liveTimers == old(liveTimers) - {t} && orderIntervals == old(orderIntervals) - {id}
          && db.orders == old(db.orders) && written == old(written) && pendingCleanups == old(pendingCleanups)
        case KeepTimer =>
          && liveTimers == old(liveTimers) && orderIntervals == old(orderIntervals)
          && db.orders == old(db.orders) && written == old(written) && pendingCleanups == old(pendingCleanups)
        case Saved(n) =>
          && liveTimers == old(liveTimers) && orderIntervals == old(orderIntervals)
          && db.orders == old(db.orders)[id := n]
          && written == (if id in activeConnections
                         then old(written) + [(activeConnections[id], StatusPayload(db.orders, id, now, fault == ReloadFails))]
                         else old(written))
          && pendingCleanups == (if id in activeConnections && n.status == DELIVERED
                                 then old(pendingCleanups) + multiset{id} else old(pendingCleanups))
    {
      var orderId := liveTimers[t];
      match TickOutcomeOf(Lookup(db.orders, orderId), now, fault)
      case StopTimer =>
        liveTimers := liveTimers - {t};
        orderIntervals := orderIntervals - {orderId};
      case KeepTimer =>
      case Saved(n) =>
        db.orders := db.orders[orderId := n];
        if orderId in activeConnections {
          var res := activeConnections[orderId];
          SendStatusUpdate(res, orderId, now, fault == ReloadFails);
          if n.status == DELIVERED {
            pendingCleanups := pendingCleanups + multiset{orderId};
          }
        }
    }
  }
}
