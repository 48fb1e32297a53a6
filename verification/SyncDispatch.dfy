/**
 The sync receiver and the fulfilment desk write the same tables. What a device's completion does through
 the receiver is what `complete_delivery` does, so everything proved of the desk's runs holds of synced ones.
 */
module SyncDispatch {
  import opened Outcomes
  import opened Querysets
  import opened SyncHandlers
  import R = SyncReceiver
  import T = Trade

  function StatusAs(s: T.DeliveryStatus): DeliveryStatus {
    match s
    case PENDING => DeliveryStatus.PENDING
    case HANDED_OVER => DELIVERED
    case FAILED => DeliveryStatus.FAILED
  }

  function OrderStatusAs(s: T.OrderStatus): OrderStatus {
    match s
    case PLACED => OrderStatus.PLACED
    case CONFIRMED => OrderStatus.CONFIRMED
    case DISPATCHED => OrderStatus.DISPATCHED
    case DELIVERED => ORDER_DELIVERED
    case CANCELLED => OrderStatus.CANCELLED
  }

  function DeliveryAs(d: T.Delivery): Delivery { Delivery(d.order + 1, d.dispatched, StatusAs(d.status)) }

  predicate Key(id: int, rows: nat) { 1 <= id <= rows }

  ghost predicate SameDeliveries(t: T.Tables, db: Db) {
    && (forall id :: id in db.deliveries <==> Key(id, |t.deliveries|))
    && (forall d :: 0 <= d < |t.deliveries| ==> db.deliveries[d + 1] == DeliveryAs(t.deliveries[d]))
  }

  ghost predicate SameOrders(t: T.Tables, db: Db) {
    && (forall id :: id in db.orders <==> Key(id, |t.orders|))
    && (forall o :: 0 <= o < |t.orders| ==> db.orders[o + 1] == OrderStatusAs(t.orders[o].status))
  }

  /** The unique index on `outcome_client_uuid` names exactly the deliveries that carry one. */
  ghost predicate SameOutcomes(t: T.Tables, db: Db) {
    && (forall key :: key in db.outcomes ==> Key(db.outcomes[key], |t.deliveries|) && t.deliveries[db.outcomes[key] - 1].outcome == Some(key))
    && (forall d :: 0 <= d < |t.deliveries| && t.deliveries[d].outcome.Some? ==>
          t.deliveries[d].outcome.value in db.outcomes && db.outcomes[t.deliveries[d].outcome.value] == d + 1)
  }

  ghost predicate SameTables(t: T.Tables, db: Db) { SameDeliveries(t, db) && SameOrders(t, db) && SameOutcomes(t, db) }

  /** A completion the receiver hands on: a delivery in scope and coordinates that are numbers. */
  predicate HandedOn(w: World, db: Db, op: Operation) {
    && op.deliveryId.Some? && op.deliveryId.value in w.visible && op.deliveryId.value in db.deliveries
    && !op.latitude.Malformed? && !op.longitude.Malformed?
  }

  function Step(op: Operation): T.Action
    requires op.deliveryId.Some? && op.deliveryId.value > 0
  {
    T.CompleteDelivery(op.deliveryId.value - 1, Some(op.key), op.latitude.Absent? == op.longitude.Absent?)
  }

  /** The delivery an outcome key is recorded on: the same answer from the index and from the rows. */
  predicate Indexed(t: T.Tables, db: Db, key: Uuid) {
    var i := IndexWhere(T.SettledAs(key), t.deliveries);
    if i >= 0 then key in db.outcomes && db.outcomes[key] == i + 1 else key !in db.outcomes
  }

  lemma OutcomeIsIndexed(t: T.Tables, db: Db, key: Uuid)
    requires SameOutcomes(t, db)
    ensures Indexed(t, db, key)
  {
    var i := IndexWhere(T.SettledAs(key), t.deliveries);
    if key in db.outcomes {
      assert T.SettledAs(key)(t.deliveries[db.outcomes[key] - 1]);
    }
    if i >= 0 {
      assert t.deliveries[i].outcome == Some(key);
    }
  }

  function HandedOver(t: T.Tables, d: nat, key: Uuid): T.Tables
    requires T.Known(t, d)
  {
    var o := t.deliveries[d].order;
    t.(deliveries := t.deliveries[d := t.deliveries[d].(status := T.HANDED_OVER, outcome := Some(key))],
       orders := t.orders[o := t.orders[o].(status := T.DELIVERED)])
  }

  function Recorded(t: T.Tables, db: Db, d: nat, key: Uuid): Db
    requires T.Known(t, d)
  {
    db.(deliveries := db.deliveries[d + 1 := DeliveryAs(t.deliveries[d]).(status := DELIVERED)],
        outcomes := db.outcomes[key := d + 1],
        orders := db.orders[t.deliveries[d].order + 1 := ORDER_DELIVERED])
  }

  /** What the two sides see of one delivery. */
  lemma SameDelivery(t: T.Tables, db: Db, id: int)
    requires SameTables(t, db) && T.Machines(t) && id in db.deliveries
    ensures 1 <= id <= |t.deliveries| && T.Known(t, id - 1)
    ensures
      var d := t.deliveries[id - 1];
      && db.deliveries[id] == DeliveryAs(d) && T.InStep(d, t.orders[d.order])
      && d.order + 1 in db.orders && db.orders[d.order + 1] == OrderStatusAs(t.orders[d.order].status)
  {
    assert Key(id, |t.deliveries|);
    assert db.deliveries[(id - 1) + 1] == DeliveryAs(t.deliveries[id - 1]);
    assert Key(t.deliveries[id - 1].order + 1, |t.orders|);
  }

  /** Branch by branch, on what the two sides see. */
  lemma SameVerdict(w: World, db: Db, op: Operation, t: T.Tables, d: nat)
    requires HandedOn(w, db, op) && op.deliveryId.value == d + 1 && T.Known(t, d)
    requires db.deliveries[d + 1] == DeliveryAs(t.deliveries[d])
    requires t.deliveries[d].order + 1 in db.orders && db.orders[t.deliveries[d].order + 1] == OrderStatusAs(t.orders[t.deliveries[d].order].status)
    requires Indexed(t, db, op.key)
    ensures
      var (reply, r) := (CompleteDelivery(w, db, op), T.Complete(t, d, Some(op.key), op.latitude.Absent? == op.longitude.Absent?));
      var replayed := IndexWhere(T.SettledAs(op.key), t.deliveries);
      && (reply.Accept? ==>
            && r.Done? && reply.entity == DeliveryEntity(if replayed >= 0 then replayed + 1 else d + 1)
            && ((r.value == t && reply.db == db)
                || (&& op.key !in db.outcomes && t.deliveries[d].status == T.PENDING
                    && r.value == HandedOver(t, d, op.key) && reply.db == Recorded(t, db, d, op.key))))
      && (reply.Refuse? ==> r == Refused(reply.code))
      && (reply.Fault? ==> r == Refused("INTEGRITY_ERROR"))
  {
  }

  /** The receiver's completion accepts, refuses and faults exactly where the service does, names its delivery, and writes its rows. */
  lemma CompletionIsTheServices(w: World, db: Db, op: Operation, t: T.Tables)
    requires SameTables(t, db) && T.Machines(t) && HandedOn(w, db, op)
    ensures
      var (reply, r) := (CompleteDelivery(w, db, op), T.Try(t, Step(op)));
      var replayed := IndexWhere(T.SettledAs(op.key), t.deliveries);
      && (reply.Accept? ==>
            && r.Done? && SameTables(r.value, reply.db)
            && reply.entity == DeliveryEntity(if replayed >= 0 then replayed + 1 else op.deliveryId.value))
      && (reply.Refuse? ==> r == Refused(reply.code))
      && (reply.Fault? ==> r == Refused("INTEGRITY_ERROR"))
  {
    var d := op.deliveryId.value - 1;
    SameDelivery(t, db, op.deliveryId.value);
    OutcomeIsIndexed(t, db, op.key);
    SameVerdict(w, db, op, t, d);
    if op.key !in db.outcomes && t.deliveries[d].status == T.PENDING {
      HandoverIsMirrored(t, db, d, op.key);
    }
  }

  /** Recording a handover in both. */
  lemma HandoverIsMirrored(t: T.Tables, db: Db, d: nat, key: Uuid)
    requires SameTables(t, db) && T.Known(t, d) && t.deliveries[d].outcome.None? && key !in db.outcomes
    ensures SameTables(HandedOver(t, d, key), Recorded(t, db, d, key))
  {
  }

  // ------------------------------------------------------------------ whole batches, interruptions included

  lemma {:induction false} RunConcat(t: T.Tables, a: seq<T.Action>, b: seq<T.Action>)
    ensures T.Run(t, a + b) == T.Run(T.Run(t, a), b)
  {
    if |b| == 0 {
      assert a + b == a;
    } else {
      assert (a + b)[..|a + b| - 1] == a + b[..|b| - 1];
      RunConcat(t, a, b[..|b| - 1]);
    }
  }

  lemma OneStep(t: T.Tables, a: T.Action)
    ensures T.Run(t, [a]) == T.Next(t, a)
  {
    assert [a][..0] == [] && T.Run(t, []) == t;
  }

  lemma ReachedFurther(t: T.Tables, a: seq<T.Action>, b: seq<T.Action>, db: Db)
    requires T.AllSane(a) && Reached(T.Run(t, a), b, db)
    ensures Reached(t, a + b, db)
  {
    RunConcat(t, a, b);
  }

  /** `db` holds what the desk's tables hold after `actions`, and those are sound. */
  ghost predicate Reached(t: T.Tables, actions: seq<T.Action>, db: Db) {
    T.AllSane(actions) && T.Valid(T.Run(t, actions)) && SameTables(T.Run(t, actions), db)
  }

  /** A completion handed on: one step of the desk, or none. */
  lemma CompletionIsMirrored(w: World, db: Db, op: Operation, t: T.Tables)
    requires SameTables(t, db) && T.Valid(t) && HandedOn(w, db, op)
    ensures op.deliveryId.value > 0
    ensures var reply := CompleteDelivery(w, db, op); Reached(t, [Step(op)], if reply.Accept? then reply.db else db)
  {
    SameDelivery(t, db, op.deliveryId.value);
    OneStep(t, Step(op));
    T.NextValid(t, Step(op));
    CompletionIsTheServices(w, db, op, t);
  }

  /** Everything else a device can send leaves deliveries and orders alone. */
  lemma OthersLeaveDeliveries(w: World, db: Db, op: Operation)
    requires !(op.kind.DELIVERY_COMPLETE? && HandedOn(w, db, op))
    ensures var reply := Handle(w, db, op); reply.Accept? ==> reply.db == db.(visits := reply.db.visits)
  {
  }

  /** What one handler call commits, the desk does in at most one step. */
  lemma HandlerIsMirrored(w: World, db: Db, op: Operation, t: T.Tables) returns (actions: seq<T.Action>)
    requires SameTables(t, db) && T.Valid(t)
    ensures var reply := Handle(w, db, op); Reached(t, actions, if reply.Accept? then reply.db else db)
  {
    if op.kind.DELIVERY_COMPLETE? && HandedOn(w, db, op) {
      CompletionIsMirrored(w, db, op, t);
      actions := [Step(op)];
    } else {
      OthersLeaveDeliveries(w, db, op);
      actions := [];
    }
  }

  /** Beside the operation's own row, an attempt writes what its handler committed, or nothing. */
  lemma OnlyTheHandlerWrites(w: World, db: Db, op: Operation, c: Db)
    requires R.Interrupted(w, db, op, c)
    ensures
      var reply := Handle(w, db, op);
      c == db.(ops := c.ops) || (reply.Accept? && c == reply.db.(ops := c.ops))
  {
    HandlersIgnoreRecords(w, db, op, R.Receipt(db, op).ops);
  }

  lemma RecordsDoNotMatter(t: T.Tables, actions: seq<T.Action>, db: Db, c: Db)
    requires Reached(t, actions, db) && c == db.(ops := c.ops)
    ensures Reached(t, actions, c)
  {
  }

  /** However far one operation got, and whether or not it was interrupted. */
  lemma InterruptedIsMirrored(w: World, db: Db, op: Operation, c: Db, t: T.Tables) returns (actions: seq<T.Action>)
    requires SameTables(t, db) && T.Valid(t) && R.Interrupted(w, db, op, c)
    ensures Reached(t, actions, c)
  {
    OnlyTheHandlerWrites(w, db, op, c);
    if c == db.(ops := c.ops) {
      actions := [];
    } else {
      actions := HandlerIsMirrored(w, db, op, t);
      RecordsDoNotMatter(t, actions, Handle(w, db, op).db, c);
    }
  }

  lemma {:induction false} BatchIsMirrored(w: World, db: Db, batch: seq<Operation>, t: T.Tables) returns (actions: seq<T.Action>)
    requires SameTables(t, db) && T.Valid(t)
    ensures Reached(t, actions, R.Pass(w, db, batch).0)
    decreases |batch|
  {
    if |batch| == 0 {
      actions := [];
    } else {
      var (next, answer) := R.Process(w, db, batch[0]);
      actions := InterruptedIsMirrored(w, db, batch[0], next, t);
      if !answer.ServerError? {
        var rest := BatchIsMirrored(w, next, batch[1..], T.Run(t, actions));
        ReachedFurther(t, actions, rest, R.Pass(w, db, batch).0);
        actions := actions + rest;
      }
    }
  }

  lemma CutShortIsMirrored(w: World, db: Db, batch: seq<Operation>, k: nat, c: Db, t: T.Tables) returns (actions: seq<T.Action>)
    requires SameTables(t, db) && T.Valid(t) && R.CutShort(w, db, batch, k, c)
    ensures Reached(t, actions, c)
  {
    actions := BatchIsMirrored(w, db, batch[..k], t);
    var last := InterruptedIsMirrored(w, R.Pass(w, db, batch[..k]).0, batch[k], c, T.Run(t, actions));
    ReachedFurther(t, actions, last, c);
    actions := actions + last;
  }

  lemma RequestIsMirrored(w: World, db: Db, batch: seq<Operation>, c: Db, t: T.Tables) returns (actions: seq<T.Action>)
    requires SameTables(t, db) && T.Valid(t) && R.InterruptedRequest(w, db, batch, c)
    ensures Reached(t, actions, c)
  {
    var k: nat :| R.CutShort(w, db, batch, k, c);
    actions := CutShortIsMirrored(w, db, batch, k, c, t);
  }

  /**
   Start from tables some run of the desk reaches. However many requests are then cut short, wherever the
   crashes fall, what is left is again what a run of the desk reaches.
   */
  lemma {:induction false} SyncedTablesAreReachable(w: World, batch: seq<Operation>, states: seq<Db>, before: seq<T.Action>) returns (actions: seq<T.Action>)
    requires R.Interruptions(w, batch, states) && T.AllSane(before) && SameTables(T.Run(T.Empty, before), states[0])
    ensures Reached(T.Empty, actions, states[|states| - 1])
    decreases |states|
  {
    var n := |states| - 1;
    if n == 0 {
      T.EveryRunIsValid(before);
      actions := before;
    } else {
      assert R.Interruptions(w, batch, states[..n]);
      actions := SyncedTablesAreReachable(w, batch, states[..n], before);
      assert states[..n][n - 1] == states[n - 1];
      var last := RequestIsMirrored(w, states[n - 1], batch, states[n], T.Run(T.Empty, actions));
      ReachedFurther(T.Empty, actions, last, states[n]);
      actions := actions + last;
    }
  }

  /** So a synced delivery is never out of step with its order. */
  lemma SyncedDeliveriesAreInStep(t: T.Tables, db: Db, id: int)
    requires T.Valid(t) && SameTables(t, db) && id in db.deliveries
    ensures
      var d := db.deliveries[id];
      && d.orderId in db.orders
      && (d.dispatched <==> db.orders[d.orderId] == OrderStatus.DISPATCHED || db.orders[d.orderId] == ORDER_DELIVERED)
      && (d.status == DELIVERED <==> db.orders[d.orderId] == ORDER_DELIVERED)
      && (forall key :: key in db.outcomes && db.outcomes[key] == id ==> d.status != DeliveryStatus.PENDING)
  {
    SameDelivery(t, db, id);
  }
}
