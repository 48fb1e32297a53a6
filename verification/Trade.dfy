/**
 Orders, their deliveries, and the stock the deliveries move. Rows are numbered by their position;
 each service function is one step that commits or leaves everything as it was.
 */
module Trade {
  import opened Outcomes
  import opened Sums
  import opened Querysets
  import opened Pricing

  type Uuid = int

  datatype OrderStatus = PLACED | CONFIRMED | DISPATCHED | DELIVERED | CANCELLED

  datatype Order = Order(customer: int, status: OrderStatus, lines: seq<OrderLine>, totals: OrderTotals, uuid: Option<Uuid>)

  datatype DeliveryStatus = PENDING | HANDED_OVER | FAILED

  datatype Delivery = Delivery(order: nat, status: DeliveryStatus, dispatched: bool, uuid: Option<Uuid>, outcome: Option<Uuid>)

  datatype MovementKind = ISSUE | RETURN | OTHER_MOVEMENT

  /** One `stock_movement` row; `delivery` is its source document when it has one. */
  datatype Movement = Movement(kind: MovementKind, product: int, quantity: int, delivery: Option<nat>)

  datatype Tables = Tables(orders: seq<Order>, deliveries: seq<Delivery>, stock: seq<Movement>)

  // ------------------------------------------------------------------ orders

  function Allowed(from: OrderStatus): set<OrderStatus> {
    match from
    case PLACED => {CONFIRMED, CANCELLED}
    case CONFIRMED => {DISPATCHED, CANCELLED}
    case DISPATCHED => {DELIVERED}
    case DELIVERED => {}
    case CANCELLED => {}
  }

  predicate Editable(o: Order) { o.status == PLACED || o.status == CONFIRMED }

  function Transition(t: Tables, o: nat, to: OrderStatus): Outcome<Tables>
    requires o < |t.orders|
  {
    if to !in Allowed(t.orders[o].status) then Refused(VALIDATION_FAILED)
    else Done(t.(orders := t.orders[o := t.orders[o].(status := to)]))
  }

  function PlacedAs(key: Uuid): Order -> bool { (o: Order) => o.uuid == Some(key) }

  /** `creditRefuses` is the verdict of the credit policy on the order as it would then stand. */
  function Place(t: Tables, customer: int, active: bool, raw: seq<RawLine>, maxPercent: int, uuid: Option<Uuid>, creditRefuses: bool): Outcome<Tables> {
    if uuid.Some? && IndexWhere(PlacedAs(uuid.value), t.orders) >= 0 then Done(t)
    else if !active || |raw| == 0 then Refused(VALIDATION_FAILED)
    else
      match PricedLines(raw, maxPercent)
      case Refused(code) => Refused(code)
      case Done(lines) =>
        if creditRefuses then Refused("CREDIT_LIMIT_EXCEEDED")
        else Done(t.(orders := t.orders + [Order(customer, PLACED, lines, TotalsOf(lines), uuid)]))
  }

  /** An amendment may leave an order with no lines: unlike `Place`, the source does not refuse an empty list here. */
  function Amend(t: Tables, o: nat, raw: seq<RawLine>, maxPercent: int, creditRefuses: bool): Outcome<Tables>
    requires o < |t.orders|
  {
    if !Editable(t.orders[o]) then Refused(VALIDATION_FAILED)
    else
      match PricedLines(raw, maxPercent)
      case Refused(code) => Refused(code)
      case Done(lines) =>
        if creditRefuses then Refused("CREDIT_LIMIT_EXCEEDED")
        else Done(t.(orders := t.orders[o := t.orders[o].(lines := lines, totals := TotalsOf(lines))]))
  }

  function CancelOrder(t: Tables, o: nat, reason: string): Outcome<Tables>
    requires o < |t.orders|
  {
    if reason == "" then Refused(VALIDATION_FAILED) else Transition(t, o, CANCELLED)
  }

  // ------------------------------------------------------------------ deliveries

  function OfOrder(o: nat): Delivery -> bool { (d: Delivery) => d.order == o }
  function AssignedAs(key: Uuid): Delivery -> bool { (d: Delivery) => d.uuid == Some(key) }
  function SettledAs(key: Uuid): Delivery -> bool { (d: Delivery) => d.outcome == Some(key) }

  function Assign(t: Tables, o: nat, internalUser: bool, uuid: Option<Uuid>): Outcome<Tables>
    requires o < |t.orders|
  {
    if uuid.Some? && IndexWhere(AssignedAs(uuid.value), t.deliveries) >= 0 then Done(t)
    else if IndexWhere(OfOrder(o), t.deliveries) >= 0 then Done(t)
    else if t.orders[o].status != CONFIRMED || !internalUser then Refused(VALIDATION_FAILED)
    else Done(t.(deliveries := t.deliveries + [Delivery(o, PENDING, false, uuid, None)]))
  }

  function Move(kind: MovementKind, sign: int, l: OrderLine, d: nat): Movement {
    Movement(kind, l.product, sign * Abs(l.quantity), Some(d))
  }

  /** One movement per line of the order. */
  function Moves(kind: MovementKind, sign: int, lines: seq<OrderLine>, d: nat): seq<Movement> {
    if |lines| == 0 then [] else Moves(kind, sign, lines[..|lines| - 1], d) + [Move(kind, sign, lines[|lines| - 1], d)]
  }

  function Dispatch(t: Tables, d: nat, creditRefuses: bool): Outcome<Tables>
    requires d < |t.deliveries| && t.deliveries[d].order < |t.orders|
  {
    var o := t.deliveries[d].order;
    if t.deliveries[d].dispatched then Done(t)
    else if t.orders[o].status != CONFIRMED then Refused(VALIDATION_FAILED)
    else if creditRefuses then Refused("CREDIT_LIMIT_EXCEEDED")
    else if |t.orders[o].lines| == 0 then Refused(VALIDATION_FAILED)
    else
      Done(Tables(
        t.orders[o := t.orders[o].(status := DISPATCHED)],
        t.deliveries[d := t.deliveries[d].(dispatched := true)],
        t.stock + Moves(ISSUE, -1, t.orders[o].lines, d)))
  }

  function Complete(t: Tables, d: nat, uuid: Option<Uuid>, coordinatesPaired: bool): Outcome<Tables>
    requires d < |t.deliveries| && t.deliveries[d].order < |t.orders|
  {
    var o := t.deliveries[d].order;
    if uuid.Some? && IndexWhere(SettledAs(uuid.value), t.deliveries) >= 0 then Done(t)
    else if !t.deliveries[d].dispatched then Refused(VALIDATION_FAILED)
    else if t.deliveries[d].status != PENDING then Done(t)
    else if !coordinatesPaired then Refused("INTEGRITY_ERROR")
    else if DELIVERED !in Allowed(t.orders[o].status) then Refused(VALIDATION_FAILED)
    else
      Done(t.(deliveries := t.deliveries[d := t.deliveries[d].(status := HANDED_OVER, outcome := uuid)],
              orders := t.orders[o := t.orders[o].(status := DELIVERED)]))
  }

  function Fail(t: Tables, d: nat, reason: string, uuid: Option<Uuid>): Outcome<Tables>
    requires d < |t.deliveries| && t.deliveries[d].order < |t.orders|
  {
    if reason == "" then Refused(VALIDATION_FAILED)
    else if uuid.Some? && IndexWhere(SettledAs(uuid.value), t.deliveries) >= 0 then Done(t)
    else if !t.deliveries[d].dispatched then Refused(VALIDATION_FAILED)
    else if t.deliveries[d].status != PENDING then Done(t)
    else
      Done(t.(deliveries := t.deliveries[d := t.deliveries[d].(status := FAILED, outcome := uuid)],
              stock := t.stock + Moves(RETURN, 1, t.orders[t.deliveries[d].order].lines, d)))
  }

  // ------------------------------------------------------------------ runs

  datatype Action =
    | PlaceOrder(customer: int, active: bool, raw: seq<RawLine>, maxPercent: int, uuid: Option<Uuid>, creditRefuses: bool)
    | AmendOrder(order: nat, raw: seq<RawLine>, maxPercent: int, creditRefuses: bool)
    | ConfirmOrder(order: nat)
    | Withdraw(order: nat, reason: string)
    | AssignDelivery(order: nat, internalUser: bool, uuid: Option<Uuid>)
    | DispatchDelivery(delivery: nat, creditRefuses: bool)
    | CompleteDelivery(delivery: nat, uuid: Option<Uuid>, coordinatesPaired: bool)
    | FailDelivery(delivery: nat, reason: string, uuid: Option<Uuid>)
    | MoveStock(product: int, quantity: int)  // any movement explained by a reason code

  /** What the database guarantees of every product and of the discount tunable. */
  predicate Sane(a: Action) {
    (a.PlaceOrder? || a.AmendOrder?) ==> 0 <= a.maxPercent <= 10000 && forall i :: 0 <= i < |a.raw| ==> Stocked(a.raw[i].product)
  }

  function Try(t: Tables, a: Action): Outcome<Tables> {
    match a
    case PlaceOrder(customer, active, raw, maxPercent, uuid, credit) => Place(t, customer, active, raw, maxPercent, uuid, credit)
    case AmendOrder(o, raw, maxPercent, credit) => if o < |t.orders| then Amend(t, o, raw, maxPercent, credit) else Refused("NOT_FOUND")
    case ConfirmOrder(o) => if o < |t.orders| then Transition(t, o, CONFIRMED) else Refused("NOT_FOUND")
    case Withdraw(o, reason) => if o < |t.orders| then CancelOrder(t, o, reason) else Refused("NOT_FOUND")
    case AssignDelivery(o, internalUser, uuid) => if o < |t.orders| then Assign(t, o, internalUser, uuid) else Refused("NOT_FOUND")
    case DispatchDelivery(d, credit) => if Known(t, d) then Dispatch(t, d, credit) else Refused("NOT_FOUND")
    case CompleteDelivery(d, uuid, paired) => if Known(t, d) then Complete(t, d, uuid, paired) else Refused("NOT_FOUND")
    case FailDelivery(d, reason, uuid) => if Known(t, d) then Fail(t, d, reason, uuid) else Refused("NOT_FOUND")
    case MoveStock(product, quantity) =>
      if quantity == 0 then Refused(VALIDATION_FAILED) else Done(t.(stock := t.stock + [Movement(OTHER_MOVEMENT, product, quantity, None)]))
  }

  predicate Known(t: Tables, d: nat) { d < |t.deliveries| && t.deliveries[d].order < |t.orders| }

  /** A refusal rolls the transaction back. */
  function Next(t: Tables, a: Action): Tables {
    var r := Try(t, a);
    if r.Done? then r.value else t
  }

  function Run(t: Tables, actions: seq<Action>): Tables {
    if |actions| == 0 then t else Next(Run(t, actions[..|actions| - 1]), actions[|actions| - 1])
  }

  const Empty := Tables([], [], [])

  // ------------------------------------------------------------------ the joint invariant

  function MovedBy(kind: MovementKind, d: nat, product: int): Movement -> int {
    (m: Movement) => if m.kind == kind && m.delivery == Some(d) && m.product == product then m.quantity else 0
  }

  /** Everything a delivery did to one product's stock by movements of one kind. */
  function NetMoved(t: Tables, kind: MovementKind, d: nat, product: int): int { SumOf(MovedBy(kind, d, product), t.stock) }

  function OrderedTerm(product: int): OrderLine -> int { (l: OrderLine) => if l.product == product then l.quantity else 0 }

  function Ordered(lines: seq<OrderLine>, product: int): int { SumOf(OrderedTerm(product), lines) }

  predicate Left(s: OrderStatus) { s == DISPATCHED || s == DELIVERED }

  /** The delivery's flags against its order's status, both ways. */
  predicate InStep(d: Delivery, o: Order) {
    && (d.dispatched <==> Left(o.status))
    && (d.status == HANDED_OVER <==> o.status == DELIVERED)
    && (d.status != PENDING ==> d.dispatched) && (d.outcome.Some? ==> d.status != PENDING)
  }

  predicate Priceable(o: Order) {
    (forall i :: 0 <= i < |o.lines| ==> Priced(o.lines[i])) && o.totals == TotalsOf(o.lines)
  }

  predicate HasDelivery(t: Tables, o: nat) { exists d :: 0 <= d < |t.deliveries| && t.deliveries[d].order == o }

  ghost predicate Machines(t: Tables) {
    && (forall o :: 0 <= o < |t.orders| ==> Priceable(t.orders[o]))
    && (forall d :: 0 <= d < |t.deliveries| ==> t.deliveries[d].order < |t.orders| && InStep(t.deliveries[d], t.orders[t.deliveries[d].order]))
    && (forall d, e :: 0 <= d < e < |t.deliveries| ==> t.deliveries[d].order != t.deliveries[e].order)
    && (forall o :: 0 <= o < |t.orders| && Left(t.orders[o].status) ==> HasDelivery(t, o))
    && (forall d, e :: 0 <= d < e < |t.deliveries| && t.deliveries[d].outcome.Some? ==> t.deliveries[d].outcome != t.deliveries[e].outcome)
  }

  /** A delivery has issued what was ordered once the goods left, and returned it if they came back; nothing else is in its name. */
  ghost predicate StockAgrees(t: Tables, d: nat)
    requires d < |t.deliveries| && t.deliveries[d].order < |t.orders|
  {
    forall product ::
      var ordered := Ordered(t.orders[t.deliveries[d].order].lines, product);
      && NetMoved(t, ISSUE, d, product) == (if t.deliveries[d].dispatched then -ordered else 0)
      && NetMoved(t, RETURN, d, product) == (if t.deliveries[d].status == FAILED then ordered else 0)
      && NetMoved(t, OTHER_MOVEMENT, d, product) == 0
  }

  ghost predicate Explained(t: Tables) {
    && (forall m :: 0 <= m < |t.stock| ==> t.stock[m].delivery.Some? ==> t.stock[m].delivery.value < |t.deliveries|)
    && (forall d :: 0 <= d < |t.deliveries| ==> t.deliveries[d].order < |t.orders| && StockAgrees(t, d))
  }

  ghost predicate Valid(t: Tables) { Machines(t) && Explained(t) }

  // ------------------------------------------------------------------ movements

  /** The movements of one delivery, product by product. */
  lemma {:induction false} MovesTotal(kind: MovementKind, sign: int, lines: seq<OrderLine>, e: nat, asked: MovementKind, d: nat, product: int)
    requires forall i :: 0 <= i < |lines| ==> lines[i].quantity > 0
    ensures SumOf(MovedBy(asked, d, product), Moves(kind, sign, lines, e)) == if d == e && asked == kind then sign * Ordered(lines, product) else 0
    ensures forall m :: m in Moves(kind, sign, lines, e) ==> m.delivery == Some(e)
  {
    if |lines| != 0 {
      var front, last := lines[..|lines| - 1], lines[|lines| - 1];
      MovesTotal(kind, sign, front, e, asked, d, product);
      SumOfSnoc(MovedBy(asked, d, product), Moves(kind, sign, front, e), Move(kind, sign, last, e));
      assert sign * (Ordered(front, product) + last.quantity) == sign * Ordered(front, product) + sign * last.quantity;
    }
  }

  /** A delivery that does not exist yet has moved nothing. */
  lemma {:induction false} NothingMovedYet(stock: seq<Movement>, kind: MovementKind, d: nat, product: int)
    requires forall m :: 0 <= m < |stock| ==> stock[m].delivery != Some(d)
    ensures SumOf(MovedBy(kind, d, product), stock) == 0
  {
    if |stock| != 0 { NothingMovedYet(stock[..|stock| - 1], kind, d, product); }
  }

  /** Adding the movements of delivery `e` keeps every other delivery's account. */
  lemma AppendMoves(t: Tables, t': Tables, kind: MovementKind, sign: int, lines: seq<OrderLine>, e: nat, d: nat)
    requires forall i :: 0 <= i < |lines| ==> lines[i].quantity > 0
    requires t'.stock == t.stock + Moves(kind, sign, lines, e)
    ensures forall asked, product ::
              NetMoved(t', asked, d, product) == NetMoved(t, asked, d, product) + if d == e && asked == kind then sign * Ordered(lines, product) else 0
  {
    forall asked, product
      ensures NetMoved(t', asked, d, product) == NetMoved(t, asked, d, product) + if d == e && asked == kind then sign * Ordered(lines, product) else 0
    {
      SumOfConcat(MovedBy(asked, d, product), t.stock, Moves(kind, sign, lines, e));
      MovesTotal(kind, sign, lines, e, asked, d, product);
    }
  }

  /** Lines for the same goods leave, and come back, as the same movements. */
  lemma {:induction false} SameGoodsMoveAlike(kind: MovementKind, sign: int, a: seq<OrderLine>, b: seq<OrderLine>, d: nat)
    requires |a| == |b| && forall i :: 0 <= i < |a| ==> SameGoods(a[i], b[i])
    ensures Moves(kind, sign, a, d) == Moves(kind, sign, b, d)
  {
    if |a| != 0 { SameGoodsMoveAlike(kind, sign, a[..|a| - 1], b[..|b| - 1], d); }
  }

  /** Whether an order was entered in packs or in the units they hold, its dispatch is decided alike and moves the same stock. */
  lemma PacksDispatchAsUnits(t: Tables, u: Tables, d: nat, creditRefuses: bool)
    requires Known(t, d) && u.deliveries == t.deliveries && u.stock == t.stock && |u.orders| == |t.orders|
    requires var o := t.deliveries[d].order;
             && u.orders[o] == t.orders[o].(lines := u.orders[o].lines) && |u.orders[o].lines| == |t.orders[o].lines|
             && forall i :: 0 <= i < |t.orders[o].lines| ==> SameGoods(t.orders[o].lines[i], u.orders[o].lines[i])
    ensures var (a, b) := (Dispatch(t, d, creditRefuses), Dispatch(u, d, creditRefuses));
            (a.Done? <==> b.Done?) && (a.Done? ==> a.value.stock == b.value.stock && a.value.deliveries == b.value.deliveries)
  {
    SameGoodsMoveAlike(ISSUE, -1, t.orders[t.deliveries[d].order].lines, u.orders[t.deliveries[d].order].lines, d);
  }

  // ------------------------------------------------------------------ every step keeps it

  lemma PlaceValid(t: Tables, customer: int, active: bool, raw: seq<RawLine>, maxPercent: int, uuid: Option<Uuid>, credit: bool)
    requires Valid(t) && 0 <= maxPercent <= 10000 && forall i :: 0 <= i < |raw| ==> Stocked(raw[i].product)
    ensures var r := Place(t, customer, active, raw, maxPercent, uuid, credit); r.Done? ==> Valid(r.value)
  {
    PricedLinesArePriced(raw, maxPercent);
    var r := Place(t, customer, active, raw, maxPercent, uuid, credit);
    if r.Done? && r.value != t {
      var t' := r.value;
      forall o | 0 <= o < |t'.orders| && Left(t'.orders[o].status) ensures HasDelivery(t', o) {
        assert HasDelivery(t, o);
      }
      forall d | 0 <= d < |t'.deliveries| ensures StockAgrees(t', d) { SameStock(t, t', d); }
    }
  }

  /** Deliveries whose flags, order lines and movements are as before keep their account. */
  lemma SameStock(t: Tables, t': Tables, d: nat)
    requires d < |t.deliveries| && d < |t'.deliveries|
    requires t.deliveries[d].order < |t.orders| && t'.deliveries[d].order < |t'.orders|
    requires t'.stock == t.stock && StockAgrees(t, d)
    requires t'.deliveries[d].dispatched == t.deliveries[d].dispatched
    requires (t'.deliveries[d].status == FAILED) == (t.deliveries[d].status == FAILED)
    requires t.deliveries[d].dispatched || t.deliveries[d].status == FAILED ==> t'.orders[t'.deliveries[d].order].lines == t.orders[t.deliveries[d].order].lines
    ensures StockAgrees(t', d)
  {
    forall kind, product ensures NetMoved(t', kind, d, product) == NetMoved(t, kind, d, product) {}
  }

  lemma AmendValid(t: Tables, o: nat, raw: seq<RawLine>, maxPercent: int, credit: bool)
    requires Valid(t) && o < |t.orders| && 0 <= maxPercent <= 10000 && forall i :: 0 <= i < |raw| ==> Stocked(raw[i].product)
    ensures var r := Amend(t, o, raw, maxPercent, credit); r.Done? ==> Valid(r.value)
  {
    PricedLinesArePriced(raw, maxPercent);
    var r := Amend(t, o, raw, maxPercent, credit);
    if r.Done? {
      var t' := r.value;
      OrderChangeKeepsMachines(t, t', o);
      forall d | 0 <= d < |t'.deliveries| ensures StockAgrees(t', d) { SameStock(t, t', d); }
    }
  }

  /** Confirming or cancelling: an order with no goods out changes between statuses with no goods out. */
  lemma TransitionValid(t: Tables, o: nat, to: OrderStatus)
    requires Valid(t) && o < |t.orders| && (to == CONFIRMED || to == CANCELLED)
    ensures Transition(t, o, to).Done? ==> Valid(Transition(t, o, to).value)
  {
    if Transition(t, o, to).Done? {
      var t' := Transition(t, o, to).value;
      OrderChangeKeepsMachines(t, t', o);
      forall d | 0 <= d < |t'.deliveries| ensures StockAgrees(t', d) { SameStock(t, t', d); }
    }
  }

  /** Changing an order whose goods have not left, into another whose goods have not left. */
  lemma OrderChangeKeepsMachines(t: Tables, t': Tables, o: nat)
    requires Machines(t) && o < |t.orders| && |t'.orders| == |t.orders| && t' == t.(orders := t.orders[o := t'.orders[o]])
    requires !Left(t.orders[o].status) && !Left(t'.orders[o].status) && Priceable(t'.orders[o])
    ensures Machines(t')
  {
    forall p | 0 <= p < |t'.orders| && Left(t'.orders[p].status) ensures HasDelivery(t', p) { assert HasDelivery(t, p); }
    forall p | 0 <= p < |t'.orders| ensures Priceable(t'.orders[p]) { assert Priceable(t.orders[p]); }
    forall d | 0 <= d < |t'.deliveries| ensures t'.deliveries[d].order < |t'.orders| && InStep(t'.deliveries[d], t'.orders[t'.deliveries[d].order]) {
      assert InStep(t.deliveries[d], t.orders[t.deliveries[d].order]);
    }
  }

  lemma AssignValid(t: Tables, o: nat, internalUser: bool, uuid: Option<Uuid>)
    requires Valid(t) && o < |t.orders|
    ensures Assign(t, o, internalUser, uuid).Done? ==> Valid(Assign(t, o, internalUser, uuid).value)
  {
    var r := Assign(t, o, internalUser, uuid);
    if r.Done? && r.value != t {
      var t', n := r.value, |t.deliveries|;
      AssignMachines(t, t', o);
      forall d | 0 <= d < |t'.deliveries| ensures StockAgrees(t', d) {
        if d < n { SameStock(t, t', d); } else {
          forall kind, product ensures NetMoved(t', kind, d, product) == 0 { NothingMovedYet(t.stock, kind, d, product); }
        }
      }
    }
  }

  lemma AssignMachines(t: Tables, t': Tables, o: nat)
    requires Machines(t) && o < |t.orders| && t.orders[o].status == CONFIRMED && IndexWhere(OfOrder(o), t.deliveries) < 0
    requires |t'.deliveries| == |t.deliveries| + 1 && t' == t.(deliveries := t.deliveries + [t'.deliveries[|t.deliveries|]])
    requires var d := t'.deliveries[|t.deliveries|]; d.order == o && d.status == PENDING && !d.dispatched && d.outcome.None?
    ensures Machines(t')
  {
    forall p | 0 <= p < |t'.orders| && Left(t'.orders[p].status) ensures HasDelivery(t', p) {
      assert HasDelivery(t, p);
      var d :| 0 <= d < |t.deliveries| && t.deliveries[d].order == p;
      assert t'.deliveries[d].order == p;
    }
    forall d, e | 0 <= d < e < |t'.deliveries| ensures t'.deliveries[d].order != t'.deliveries[e].order {
      assert !OfOrder(o)(t.deliveries[d]);
    }
  }

  lemma MovesBelong(kind: MovementKind, sign: int, t: Tables, t': Tables, e: nat)
    requires Valid(t) && e < |t.deliveries| && t'.stock == t.stock + Moves(kind, sign, t.orders[t.deliveries[e].order].lines, e)
    requires |t'.deliveries| == |t.deliveries|
    ensures forall m :: 0 <= m < |t'.stock| ==> t'.stock[m].delivery.Some? ==> t'.stock[m].delivery.value < |t'.deliveries|
  {
    var moves := Moves(kind, sign, t.orders[t.deliveries[e].order].lines, e);
    MovesTotal(kind, sign, t.orders[t.deliveries[e].order].lines, e, kind, 0, 0);
    forall m | 0 <= m < |t'.stock| && t'.stock[m].delivery.Some? ensures t'.stock[m].delivery.value < |t'.deliveries| {
      if m >= |t.stock| { assert t'.stock[m] == moves[m - |t.stock|] && moves[m - |t.stock|] in moves; }
    }
  }

  lemma DispatchValid(t: Tables, d: nat, credit: bool)
    requires Valid(t) && Known(t, d)
    ensures Dispatch(t, d, credit).Done? ==> Valid(Dispatch(t, d, credit).value)
  {
    var r := Dispatch(t, d, credit);
    if r.Done? && !t.deliveries[d].dispatched {
      var t', o := r.value, t.deliveries[d].order;
      forall e | 0 <= e < |t'.deliveries| ensures StockAgrees(t', e) {
        AppendMoves(t, t', ISSUE, -1, t.orders[o].lines, d, e);
        assert StockAgrees(t, e);
      }
      MovesBelong(ISSUE, -1, t, t', d);
      DispatchMachines(t, t', d);
    }
  }

  lemma DispatchMachines(t: Tables, t': Tables, d: nat)
    requires Machines(t) && Known(t, d) && t.orders[t.deliveries[d].order].status == CONFIRMED
    requires t'.orders == t.orders[t.deliveries[d].order := t.orders[t.deliveries[d].order].(status := DISPATCHED)]
    requires t'.deliveries == t.deliveries[d := t.deliveries[d].(dispatched := true)]
    ensures Machines(t')
  {
    var o := t.deliveries[d].order;
    forall p | 0 <= p < |t'.orders| && Left(t'.orders[p].status) ensures HasDelivery(t', p) {
      if p == o {
        assert t'.deliveries[d].order == o;
      } else {
        assert HasDelivery(t, p);
        var e :| 0 <= e < |t.deliveries| && t.deliveries[e].order == p;
        assert t'.deliveries[e].order == p;
      }
    }
  }

  lemma CompleteValid(t: Tables, d: nat, uuid: Option<Uuid>, paired: bool)
    requires Valid(t) && Known(t, d)
    ensures Complete(t, d, uuid, paired).Done? ==> Valid(Complete(t, d, uuid, paired).value)
  {
    var r := Complete(t, d, uuid, paired);
    if r.Done? && r.value != t {
      var t', o := r.value, t.deliveries[d].order;
      forall e | 0 <= e < |t'.deliveries| ensures StockAgrees(t', e) { SameStock(t, t', e); }
      OutcomeMachines(t, t', d, uuid);
    }
  }

  /** Recording an outcome, whichever it is: the order follows a handover and stays put on a failure. */
  lemma OutcomeMachines(t: Tables, t': Tables, d: nat, uuid: Option<Uuid>)
    requires Machines(t) && Known(t, d) && t.deliveries[d].dispatched && t.deliveries[d].status == PENDING
    requires uuid.Some? ==> IndexWhere(SettledAs(uuid.value), t.deliveries) < 0
    requires |t'.deliveries| == |t.deliveries| && (t'.deliveries[d].status == HANDED_OVER || t'.deliveries[d].status == FAILED)
    requires t'.deliveries == t.deliveries[d := t.deliveries[d].(status := t'.deliveries[d].status, outcome := uuid)]
    requires t'.orders == if t'.deliveries[d].status == FAILED then t.orders
                          else t.orders[t.deliveries[d].order := t.orders[t.deliveries[d].order].(status := DELIVERED)]
    ensures Machines(t')
  {
    forall p | 0 <= p < |t'.orders| && Left(t'.orders[p].status) ensures HasDelivery(t', p) {
      if p == t.deliveries[d].order {
        assert t'.deliveries[d].order == p;
      } else {
        assert HasDelivery(t, p);
        var e :| 0 <= e < |t.deliveries| && t.deliveries[e].order == p;
        assert t'.deliveries[e].order == p;
      }
    }
    forall e | 0 <= e < |t.deliveries| && uuid.Some? ensures t.deliveries[e].outcome != uuid {
      assert !SettledAs(uuid.value)(t.deliveries[e]);
    }
  }

  lemma FailValid(t: Tables, d: nat, reason: string, uuid: Option<Uuid>)
    requires Valid(t) && Known(t, d)
    ensures Fail(t, d, reason, uuid).Done? ==> Valid(Fail(t, d, reason, uuid).value)
  {
    var r := Fail(t, d, reason, uuid);
    if r.Done? && r.value != t {
      var t', o := r.value, t.deliveries[d].order;
      forall e | 0 <= e < |t'.deliveries| ensures StockAgrees(t', e) {
        AppendMoves(t, t', RETURN, 1, t.orders[o].lines, d, e);
        assert StockAgrees(t, e);
      }
      MovesBelong(RETURN, 1, t, t', d);
      OutcomeMachines(t, t', d, uuid);
    }
  }

  lemma OtherMovementValid(t: Tables, product: int, quantity: int)
    requires Valid(t)
    ensures Valid(t.(stock := t.stock + [Movement(OTHER_MOVEMENT, product, quantity, None)]))
  {
    var m := Movement(OTHER_MOVEMENT, product, quantity, None);
    var t' := t.(stock := t.stock + [m]);
    forall d | 0 <= d < |t'.deliveries| ensures StockAgrees(t', d) {
      forall kind, p ensures NetMoved(t', kind, d, p) == NetMoved(t, kind, d, p) { SumOfSnoc(MovedBy(kind, d, p), t.stock, m); }
      assert StockAgrees(t, d);
    }
    forall o | 0 <= o < |t'.orders| && Left(t'.orders[o].status) ensures HasDelivery(t', o) {
      assert HasDelivery(t, o);
    }
  }

  lemma NextValid(t: Tables, a: Action)
    requires Valid(t) && Sane(a)
    ensures Valid(Next(t, a))
  {
    match a
    case PlaceOrder(customer, active, raw, maxPercent, uuid, credit) => PlaceValid(t, customer, active, raw, maxPercent, uuid, credit);
    case AmendOrder(o, raw, maxPercent, credit) => if o < |t.orders| { AmendValid(t, o, raw, maxPercent, credit); }
    case ConfirmOrder(o) => if o < |t.orders| { TransitionValid(t, o, CONFIRMED); }
    case Withdraw(o, reason) => if o < |t.orders| { TransitionValid(t, o, CANCELLED); }
    case AssignDelivery(o, internalUser, uuid) => if o < |t.orders| { AssignValid(t, o, internalUser, uuid); }
    case DispatchDelivery(d, credit) => if Known(t, d) { DispatchValid(t, d, credit); }
    case CompleteDelivery(d, uuid, paired) => if Known(t, d) { CompleteValid(t, d, uuid, paired); }
    case FailDelivery(d, reason, uuid) => if Known(t, d) { FailValid(t, d, reason, uuid); }
    case MoveStock(product, quantity) => OtherMovementValid(t, product, quantity);
  }

  ghost predicate AllSane(actions: seq<Action>) { forall i :: 0 <= i < |actions| ==> Sane(actions[i]) }

  /**
   Over every run, retries included: an order's goods are out exactly when its delivery was
   dispatched, it is delivered exactly when its delivery was handed over, and product by product each
   delivery has issued exactly what was ordered if the goods left, and returned exactly that if they came back.
   */
  lemma {:induction false} EveryRunIsValid(actions: seq<Action>)
    requires AllSane(actions)
    ensures Valid(Run(Empty, actions))
  {
    if |actions| != 0 {
      EveryRunIsValid(actions[..|actions| - 1]);
      NextValid(Run(Empty, actions[..|actions| - 1]), actions[|actions| - 1]);
    }
  }

  // ------------------------------------------------------------------ what no later step changes

  /** An order whose goods have left keeps its customer, lines and totals, and never goes back. */
  predicate Frozen(before: Order, after: Order) {
    && after.customer == before.customer
    && (Left(before.status) ==>
          && after.lines == before.lines && after.totals == before.totals && Left(after.status)
          && (before.status == DELIVERED ==> after.status == DELIVERED))
    && (before.status == CANCELLED ==> after.status == CANCELLED) && (before.status != PLACED ==> after.status != PLACED)
    && after.uuid == before.uuid
  }

  lemma StepKeepsFrozen(t: Tables, a: Action, o: nat)
    requires o < |t.orders|
    ensures o < |Next(t, a).orders| && Frozen(t.orders[o], Next(t, a).orders[o])
  {
  }

  lemma {:induction false} LinesAreFrozenOnceDispatched(t: Tables, actions: seq<Action>, o: nat)
    requires o < |t.orders|
    ensures o < |Run(t, actions).orders| && Frozen(t.orders[o], Run(t, actions).orders[o])
  {
    if |actions| != 0 {
      LinesAreFrozenOnceDispatched(t, actions[..|actions| - 1], o);
      StepKeepsFrozen(Run(t, actions[..|actions| - 1]), actions[|actions| - 1], o);
    }
  }

  /** What a later state remembers of a delivery: its order, its key, that it went out, and how it ended. */
  predicate Remembered(before: Delivery, after: Delivery) {
    && after.order == before.order && after.uuid == before.uuid
    && (before.dispatched ==> after.dispatched)
    && (before.status != PENDING ==> after.status == before.status && after.outcome == before.outcome)
  }

  lemma StepRemembers(t: Tables, a: Action, d: nat)
    requires d < |t.deliveries|
    ensures d < |Next(t, a).deliveries| && Remembered(t.deliveries[d], Next(t, a).deliveries[d])
  {
  }

  lemma {:induction false} DeliveriesAreRemembered(t: Tables, actions: seq<Action>, d: nat)
    requires d < |t.deliveries|
    ensures d < |Run(t, actions).deliveries| && Remembered(t.deliveries[d], Run(t, actions).deliveries[d])
  {
    if |actions| != 0 {
      DeliveriesAreRemembered(t, actions[..|actions| - 1], d);
      StepRemembers(Run(t, actions[..|actions| - 1]), actions[|actions| - 1], d);
    }
  }

  lemma {:induction false} OrdersStay(t: Tables, actions: seq<Action>)
    ensures |t.orders| <= |Run(t, actions).orders|
  {
    if |actions| != 0 { OrdersStay(t, actions[..|actions| - 1]); }
  }

  /** However much happens in between, a dispatch sent again moves nothing, and so does a second outcome of either kind. */
  lemma RetriesChangeNothing(t: Tables, actions: seq<Action>, d: nat, credit: bool, uuid: Option<Uuid>, paired: bool, reason: string)
    requires Known(t, d) && t.deliveries[d].dispatched
    ensures
      var later := Run(t, actions);
      && Known(later, d)
      && Dispatch(later, d, credit) == Done(later)
      && (t.deliveries[d].status != PENDING ==>
            && Complete(later, d, uuid, paired) == Done(later)
            && (reason != "" ==> Fail(later, d, reason, uuid) == Done(later)))
  {
    DeliveriesAreRemembered(t, actions, d);
    OrdersStay(t, actions);
  }

  // ------------------------------------------------------------------ requests sent again

  /** No key a device sent names two orders, or two assignments. */
  ghost predicate KeysAreUnique(t: Tables) {
    && (forall o, p :: 0 <= o < p < |t.orders| && t.orders[o].uuid.Some? ==> t.orders[o].uuid != t.orders[p].uuid)
    && (forall d, e :: 0 <= d < e < |t.deliveries| && t.deliveries[d].uuid.Some? ==> t.deliveries[d].uuid != t.deliveries[e].uuid)
  }

  lemma PlacingKeepsKeys(t: Tables, customer: int, active: bool, raw: seq<RawLine>, maxPercent: int, uuid: Option<Uuid>, credit: bool)
    requires KeysAreUnique(t)
    ensures var r := Place(t, customer, active, raw, maxPercent, uuid, credit); r.Done? ==> KeysAreUnique(r.value)
  {
    forall o | 0 <= o < |t.orders| && uuid.Some? && IndexWhere(PlacedAs(uuid.value), t.orders) < 0 ensures t.orders[o].uuid != uuid {
      assert !PlacedAs(uuid.value)(t.orders[o]);
    }
  }

  lemma AssigningKeepsKeys(t: Tables, o: nat, internalUser: bool, uuid: Option<Uuid>)
    requires KeysAreUnique(t) && o < |t.orders|
    ensures var r := Assign(t, o, internalUser, uuid); r.Done? ==> KeysAreUnique(r.value)
  {
    forall d | 0 <= d < |t.deliveries| && uuid.Some? && IndexWhere(AssignedAs(uuid.value), t.deliveries) < 0 ensures t.deliveries[d].uuid != uuid {
      assert !AssignedAs(uuid.value)(t.deliveries[d]);
    }
  }

  /** Over every run a key places one order and assigns one delivery at most. */
  lemma {:induction false} EveryRunsKeysAreUnique(actions: seq<Action>)
    ensures KeysAreUnique(Run(Empty, actions))
  {
    if |actions| != 0 {
      var t, a := Run(Empty, actions[..|actions| - 1]), actions[|actions| - 1];
      EveryRunsKeysAreUnique(actions[..|actions| - 1]);
      match a
      case PlaceOrder(customer, active, raw, maxPercent, uuid, credit) => PlacingKeepsKeys(t, customer, active, raw, maxPercent, uuid, credit);
      case AssignDelivery(o, internalUser, uuid) => if o < |t.orders| { AssigningKeepsKeys(t, o, internalUser, uuid); }
      case _ =>
    }
  }

  /** The tables already hold what this request asks for. */
  predicate Served(t: Tables, a: Action) {
    match a
    case PlaceOrder(_, _, _, _, uuid, _) => uuid.Some? && exists o :: 0 <= o < |t.orders| && t.orders[o].uuid == uuid
    case ConfirmOrder(o) => o < |t.orders| && t.orders[o].status != PLACED
    case Withdraw(o, _) => o < |t.orders| && t.orders[o].status == CANCELLED
    case AssignDelivery(o, _, uuid) =>
      o < |t.orders| && exists d :: 0 <= d < |t.deliveries| && (t.deliveries[d].order == o || (uuid.Some? && t.deliveries[d].uuid == uuid))
    case DispatchDelivery(d, _) => Known(t, d) && t.deliveries[d].dispatched
    case CompleteDelivery(d, uuid, _) => Known(t, d) && (HasOutcome(t, uuid) || (t.deliveries[d].dispatched && t.deliveries[d].status != PENDING))
    case FailDelivery(d, reason, uuid) => Known(t, d) && (HasOutcome(t, uuid) || (t.deliveries[d].dispatched && t.deliveries[d].status != PENDING))
    case AmendOrder(_, _, _, _) => false
    case MoveStock(_, _) => false
  }

  predicate HasOutcome(t: Tables, uuid: Option<Uuid>) { uuid.Some? && exists d :: 0 <= d < |t.deliveries| && t.deliveries[d].outcome == uuid }

  /** Requests that can be told apart from a new one when they are sent again. */
  predicate Identified(a: Action) { !a.AmendOrder? && !a.MoveStock? && (a.PlaceOrder? ==> a.uuid.Some?) }

  /** The same request, whatever else its payload now says. */
  predicate Repeats(a: Action, again: Action) {
    match a
    case PlaceOrder(_, _, _, _, uuid, _) => again.PlaceOrder? && again.uuid == uuid
    case ConfirmOrder(o) => again == a
    case Withdraw(o, _) => again.Withdraw? && again.order == o
    case AssignDelivery(o, _, uuid) => again.AssignDelivery? && again.order == o && again.uuid == uuid
    case DispatchDelivery(d, _) => again.DispatchDelivery? && again.delivery == d
    case CompleteDelivery(d, uuid, _) => (again.CompleteDelivery? || again.FailDelivery?) && again.delivery == d && again.uuid == uuid
    case FailDelivery(d, _, uuid) => (again.CompleteDelivery? || again.FailDelivery?) && again.delivery == d && again.uuid == uuid
    case _ => again == a
  }

  /** A repeat is answered with what the first one made; a second confirmation or withdrawal is refused. */
  predicate Answers(a: Action) { !a.ConfirmOrder? && !a.Withdraw? && (a.FailDelivery? ==> a.reason != "") }

  lemma CommittedIsServed(t: Tables, a: Action)
    requires Identified(a) && Try(t, a).Done?
    ensures Served(Next(t, a), a)
  {
    var t' := Next(t, a);
    match a
    case PlaceOrder(_, _, _, _, uuid, _) =>
      var o := if t' == t then IndexWhere(PlacedAs(uuid.value), t.orders) else |t.orders|;
      assert t'.orders[o].uuid == uuid;
    case AssignDelivery(o, _, uuid) =>
      var d := if t' != t then |t.deliveries|
               else if uuid.Some? && IndexWhere(AssignedAs(uuid.value), t.deliveries) >= 0 then IndexWhere(AssignedAs(uuid.value), t.deliveries)
               else IndexWhere(OfOrder(o), t.deliveries);
      assert t'.deliveries[d].order == o || (uuid.Some? && t'.deliveries[d].uuid == uuid);
    case CompleteDelivery(d, uuid, _) =>
      if uuid.Some? && IndexWhere(SettledAs(uuid.value), t.deliveries) >= 0 {
        assert t.deliveries[IndexWhere(SettledAs(uuid.value), t.deliveries)].outcome == uuid;
      }
    case FailDelivery(d, _, uuid) =>
      if uuid.Some? && IndexWhere(SettledAs(uuid.value), t.deliveries) >= 0 {
        assert t.deliveries[IndexWhere(SettledAs(uuid.value), t.deliveries)].outcome == uuid;
      }
    case _ =>
  }

  /** Only a settled delivery remembers an outcome key. */
  ghost predicate EndedIfKeyed(t: Tables) {
    forall d :: 0 <= d < |t.deliveries| && t.deliveries[d].outcome.Some? ==> t.deliveries[d].status != PENDING
  }

  lemma ServedChangesNothing(t: Tables, a: Action)
    requires Served(t, a)
    ensures Next(t, a) == t && (Answers(a) ==> Try(t, a) == Done(t))
  {
    match a
    case PlaceOrder(_, _, _, _, uuid, _) =>
      var o :| 0 <= o < |t.orders| && t.orders[o].uuid == uuid;
      assert PlacedAs(uuid.value)(t.orders[o]);
    case AssignDelivery(o, _, uuid) =>
      var d :| 0 <= d < |t.deliveries| && (t.deliveries[d].order == o || (uuid.Some? && t.deliveries[d].uuid == uuid));
      assert OfOrder(o)(t.deliveries[d]) || AssignedAs(uuid.value)(t.deliveries[d]);
    case CompleteDelivery(_, uuid, _) => OutcomeIsFound(t, uuid);
    case FailDelivery(_, _, uuid) => OutcomeIsFound(t, uuid);
    case _ =>
  }

  lemma OutcomeIsFound(t: Tables, uuid: Option<Uuid>)
    ensures HasOutcome(t, uuid) ==> IndexWhere(SettledAs(uuid.value), t.deliveries) >= 0
  {
    if HasOutcome(t, uuid) {
      var d :| 0 <= d < |t.deliveries| && t.deliveries[d].outcome == uuid;
      assert SettledAs(uuid.value)(t.deliveries[d]);
    }
  }

  /** Every row of `t` as a later state has it. */
  ghost predicate Grows(t: Tables, later: Tables) {
    && |t.orders| <= |later.orders| && |t.deliveries| <= |later.deliveries|
    && (forall o :: 0 <= o < |t.orders| ==> Frozen(t.orders[o], later.orders[o]))
    && (forall d :: 0 <= d < |t.deliveries| ==> Remembered(t.deliveries[d], later.deliveries[d]))
  }

  lemma {:induction false} RunGrows(t: Tables, actions: seq<Action>)
    ensures Grows(t, Run(t, actions))
  {
    forall o | 0 <= o < |t.orders| ensures o < |Run(t, actions).orders| && Frozen(t.orders[o], Run(t, actions).orders[o]) {
      LinesAreFrozenOnceDispatched(t, actions, o);
    }
    forall d | 0 <= d < |t.deliveries| ensures d < |Run(t, actions).deliveries| && Remembered(t.deliveries[d], Run(t, actions).deliveries[d]) {
      DeliveriesAreRemembered(t, actions, d);
    }
    OrdersStay(t, actions);
    if |t.deliveries| > 0 { DeliveriesAreRemembered(t, actions, |t.deliveries| - 1); }
  }

  lemma ServedStays(t: Tables, later: Tables, a: Action)
    requires Grows(t, later) && Served(t, a) && EndedIfKeyed(t)
    ensures Served(later, a)
  {
    match a
    case PlaceOrder(_, _, _, _, uuid, _) =>
      var o :| 0 <= o < |t.orders| && t.orders[o].uuid == uuid;
      assert Frozen(t.orders[o], later.orders[o]);
    case ConfirmOrder(o) => assert Frozen(t.orders[o], later.orders[o]);
    case Withdraw(o, _) => assert Frozen(t.orders[o], later.orders[o]);
    case AssignDelivery(o, _, uuid) =>
      var d :| 0 <= d < |t.deliveries| && (t.deliveries[d].order == o || (uuid.Some? && t.deliveries[d].uuid == uuid));
      assert Remembered(t.deliveries[d], later.deliveries[d]);
    case DispatchDelivery(d, _) => assert Remembered(t.deliveries[d], later.deliveries[d]);
    case CompleteDelivery(d, uuid, _) => OutcomeStays(t, later, d, uuid);
    case FailDelivery(d, _, uuid) => OutcomeStays(t, later, d, uuid);
    case _ =>
  }

  lemma OutcomeStays(t: Tables, later: Tables, d: nat, uuid: Option<Uuid>)
    requires Grows(t, later) && Known(t, d) && EndedIfKeyed(t)
    ensures Known(later, d) && (HasOutcome(t, uuid) ==> HasOutcome(later, uuid))
    ensures t.deliveries[d].dispatched && t.deliveries[d].status != PENDING ==> later.deliveries[d].dispatched && later.deliveries[d].status != PENDING
  {
    assert Remembered(t.deliveries[d], later.deliveries[d]);
    if HasOutcome(t, uuid) {
      var e :| 0 <= e < |t.deliveries| && t.deliveries[e].outcome == uuid;
      assert Remembered(t.deliveries[e], later.deliveries[e]);
    }
  }

  /**
   A request that committed and is sent again, however much happened in between and whatever the repeat now says,
   changes nothing: a key places one order, an order is confirmed, withdrawn, assigned and dispatched once, and a
   delivery ends once.
   */
  lemma ResentChangesNothing(t: Tables, a: Action, between: seq<Action>, again: Action)
    requires Valid(t) && Sane(a) && Identified(a) && Try(t, a).Done? && Repeats(a, again)
    ensures var later := Run(Next(t, a), between);
            Next(later, again) == later && (Answers(again) ==> Try(later, again) == Done(later))
  {
    NextValid(t, a);
    CommittedIsServed(t, a);
    RunGrows(Next(t, a), between);
    ServedStays(Next(t, a), Run(Next(t, a), between), a);
    ServedChangesNothing(Run(Next(t, a), between), again);
  }

  /** Sent again at once, a committed request changes nothing exactly when it identifies itself or amends an order. */
  lemma ResentAtOnce(t: Tables, a: Action)
    requires Valid(t) && Sane(a) && Try(t, a).Done?
    ensures Next(Next(t, a), a) == Next(t, a) <==> Identified(a) || a.AmendOrder?
  {
    if Identified(a) {
      ResentChangesNothing(t, a, [], a);
    } else {
      assert a.PlaceOrder? ==> |Next(Next(t, a), a).orders| > |Next(t, a).orders|;
      assert a.MoveStock? ==> |Next(Next(t, a), a).stock| > |Next(t, a).stock|;
    }
  }

  // ------------------------------------------------------------------ exactly when a request changes something

  /** How far along its life an order is; a withdrawn one is nowhere. */
  function Stage(s: OrderStatus): int {
    match s
    case PLACED => 0
    case CONFIRMED => 1
    case DISPATCHED => 2
    case DELIVERED => 3
    case CANCELLED => -1
  }

  /** A transition is one stage forward, or a withdrawal before the goods leave; there is no other. */
  lemma OneStageOrWithdrawn(t: Tables, o: nat, to: OrderStatus)
    requires o < |t.orders|
    ensures
      var from := t.orders[o].status;
      Transition(t, o, to).Done? <==> from != CANCELLED && (if to == CANCELLED then Stage(from) <= 1 else Stage(to) == Stage(from) + 1)
  {
  }

  /**
   An order is placed exactly under a fresh key, for an active customer, with at least one line, all of them acceptable,
   and with credit; it is then the last row, PLACED, and its own.
   */
  lemma PlacedExactlyWhen(t: Tables, customer: int, active: bool, raw: seq<RawLine>, maxPercent: int, uuid: Option<Uuid>, creditRefuses: bool)
    requires Sane(PlaceOrder(customer, active, raw, maxPercent, uuid, creditRefuses))
    ensures
      var t' := Next(t, PlaceOrder(customer, active, raw, maxPercent, uuid, creditRefuses));
      && (t' != t <==>
            && (uuid.Some? ==> forall o :: 0 <= o < |t.orders| ==> t.orders[o].uuid != uuid)
            && active && |raw| > 0 && !creditRefuses && forall i :: 0 <= i < |raw| ==> Acceptable(raw[i], maxPercent))
      && (t' != t ==>
            && |t'.orders| == |t.orders| + 1 && t'.orders[..|t.orders|] == t.orders && t'.deliveries == t.deliveries && t'.stock == t.stock
            && Entered(t'.orders[|t.orders|], raw) && t'.orders[|t.orders|].customer == customer
            && t'.orders[|t.orders|].status == PLACED && t'.orders[|t.orders|].uuid == uuid)
  {
    PricedLinesArePriced(raw, maxPercent);
    OrderPricedExactlyWhen(raw, maxPercent);
    if uuid.Some? && IndexWhere(PlacedAs(uuid.value), t.orders) < 0 {
      forall o | 0 <= o < |t.orders| ensures t.orders[o].uuid != uuid { assert !PlacedAs(uuid.value)(t.orders[o]); }
    }
  }

  /** The order's lines are what was entered, priced as the products then stood, and its totals follow them. */
  predicate Entered(o: Order, raw: seq<RawLine>) {
    && Priceable(o) && |o.lines| == |raw|
    && forall i :: 0 <= i < |raw| ==>
         && EnteredAs(raw[i], o.lines[i].quantity, o.lines[i].packQuantity) && o.lines[i].product == raw[i].product.id
         && o.lines[i].unitPrice == raw[i].product.sellingPrice && o.lines[i].taxRate == raw[i].product.taxRate
         && o.lines[i].discount == raw[i].discount
  }

  /** An order's lines are replaced exactly while its goods have not left and it stands, if all are acceptable and credit allows; nothing else of it changes. */
  lemma AmendedExactlyWhen(t: Tables, o: nat, raw: seq<RawLine>, maxPercent: int, creditRefuses: bool)
    requires o < |t.orders| && Sane(AmendOrder(o, raw, maxPercent, creditRefuses))
    ensures
      var r := Amend(t, o, raw, maxPercent, creditRefuses);
      && (r.Done? <==>
            && t.orders[o].status != CANCELLED && !Left(t.orders[o].status) && !creditRefuses
            && forall i :: 0 <= i < |raw| ==> Acceptable(raw[i], maxPercent))
      && (r.Done? ==>
            && r.value == t.(orders := r.value.orders) && |r.value.orders| == |t.orders| && Entered(r.value.orders[o], raw)
            && r.value.orders[o].customer == t.orders[o].customer && r.value.orders[o].status == t.orders[o].status
            && r.value.orders[o].uuid == t.orders[o].uuid
            && forall p :: 0 <= p < |t.orders| && p != o ==> r.value.orders[p] == t.orders[p])
  {
    PricedLinesArePriced(raw, maxPercent);
    OrderPricedExactlyWhen(raw, maxPercent);
  }

  /** A delivery is assigned exactly for a confirmed order without one, to internal staff, under a fresh key; it is then the last row, pending. */
  lemma AssignedExactlyWhen(t: Tables, o: nat, internalUser: bool, uuid: Option<Uuid>)
    requires o < |t.orders|
    ensures
      var t' := Next(t, AssignDelivery(o, internalUser, uuid));
      && (t' != t <==>
            && t.orders[o].status == CONFIRMED && internalUser
            && forall d :: 0 <= d < |t.deliveries| ==> t.deliveries[d].order != o && (uuid.Some? ==> t.deliveries[d].uuid != uuid))
      && (t' != t ==> t' == t.(deliveries := t.deliveries + [Delivery(o, PENDING, false, uuid, None)]))
  {
    forall d | 0 <= d < |t.deliveries| && Assign(t, o, internalUser, uuid) != Done(t)
      ensures t.deliveries[d].order == o ==> IndexWhere(OfOrder(o), t.deliveries) >= 0
      ensures uuid.Some? && t.deliveries[d].uuid == uuid ==> IndexWhere(AssignedAs(uuid.value), t.deliveries) >= 0
    {
      assert OfOrder(o)(t.deliveries[d]) <==> t.deliveries[d].order == o;
      assert uuid.Some? ==> (AssignedAs(uuid.value)(t.deliveries[d]) <==> t.deliveries[d].uuid == uuid);
    }
  }

  /** No delivery has ended under this key. */
  predicate FreshOutcome(t: Tables, uuid: Option<Uuid>) {
    uuid.Some? ==> forall d :: 0 <= d < |t.deliveries| ==> t.deliveries[d].outcome != uuid
  }

  lemma FreshIsNotFound(t: Tables, uuid: Option<Uuid>)
    ensures FreshOutcome(t, uuid) <==> uuid.None? || IndexWhere(SettledAs(uuid.value), t.deliveries) < 0
  {
    if uuid.Some? && IndexWhere(SettledAs(uuid.value), t.deliveries) < 0 {
      forall d | 0 <= d < |t.deliveries| ensures t.deliveries[d].outcome != uuid { assert !SettledAs(uuid.value)(t.deliveries[d]); }
    }
  }

  /** Row `d` out for delivery and not yet back. */
  predicate OnItsWay(d: Delivery) { d.dispatched && d.status == PENDING }

  /**
   On tables a run reaches: goods leave exactly for a confirmed order with lines and credit; a handover is recorded
   exactly for goods on their way, under a fresh key and with whole coordinates, its order never refusing; and a failure
   exactly for goods on their way, under a fresh key and with a reason.
   */
  lemma OutcomesExactlyWhen(t: Tables, d: nat, creditRefuses: bool, uuid: Option<Uuid>, paired: bool, reason: string)
    requires Valid(t) && Known(t, d)
    ensures Next(t, DispatchDelivery(d, creditRefuses)) != t
            <==> t.orders[t.deliveries[d].order].status == CONFIRMED && !creditRefuses && t.orders[t.deliveries[d].order].lines != []
    ensures Next(t, CompleteDelivery(d, uuid, paired)) != t <==> OnItsWay(t.deliveries[d]) && FreshOutcome(t, uuid) && paired
    ensures Next(t, FailDelivery(d, reason, uuid)) != t <==> OnItsWay(t.deliveries[d]) && FreshOutcome(t, uuid) && reason != ""
  {
    assert InStep(t.deliveries[d], t.orders[t.deliveries[d].order]);
    FreshIsNotFound(t, uuid);
    OutcomeChanges(t, d, creditRefuses, uuid, paired, reason);
    OutcomeKept(t, d, creditRefuses, uuid, paired, reason);
  }

  /** When none of the three writes, and why. */
  lemma OutcomeKept(t: Tables, d: nat, creditRefuses: bool, uuid: Option<Uuid>, paired: bool, reason: string)
    requires Known(t, d)
    ensures var o := t.orders[t.deliveries[d].order];
            Next(t, DispatchDelivery(d, creditRefuses)) == t <==> t.deliveries[d].dispatched || o.status != CONFIRMED || creditRefuses || o.lines == []
    ensures Next(t, CompleteDelivery(d, uuid, paired)) == t
            <==> || (uuid.Some? && IndexWhere(SettledAs(uuid.value), t.deliveries) >= 0) || !OnItsWay(t.deliveries[d])
                 || !paired || t.orders[t.deliveries[d].order].status != DISPATCHED
    ensures Next(t, FailDelivery(d, reason, uuid)) == t
            <==> reason == "" || (uuid.Some? && IndexWhere(SettledAs(uuid.value), t.deliveries) >= 0) || !OnItsWay(t.deliveries[d])
  {
    OutcomeChanges(t, d, creditRefuses, uuid, paired, reason);
  }

  /** What each of the three writes when it writes. */
  lemma OutcomeChanges(t: Tables, d: nat, creditRefuses: bool, uuid: Option<Uuid>, paired: bool, reason: string)
    requires Known(t, d)
    ensures var t' := Next(t, DispatchDelivery(d, creditRefuses));
            t' != t ==> !t.deliveries[d].dispatched && t'.deliveries[d].dispatched && t'.orders[t.deliveries[d].order].status == DISPATCHED
    ensures var t' := Next(t, CompleteDelivery(d, uuid, paired));
            t' != t ==> t'.deliveries[d].status == HANDED_OVER && t'.deliveries[d].outcome == uuid && t'.stock == t.stock
    ensures var t' := Next(t, FailDelivery(d, reason, uuid));
            t' != t ==> t'.deliveries[d].status == FAILED && t'.deliveries[d].outcome == uuid && t'.orders == t.orders
  {
  }

  // ------------------------------------------------------------------ the services, updating rows in place

  class FulfilmentDesk {
    var orders: seq<Order>
    var deliveries: seq<Delivery>
    var stock: seq<Movement>

    function Contents(): Tables
      reads this
    {
      Tables(orders, deliveries, stock)
    }

    constructor ()
      ensures Contents() == Empty
    {
      orders, deliveries, stock := [], [], [];
    }

    method PlaceOrder(customer: int, active: bool, raw: seq<RawLine>, maxPercent: int, uuid: Option<Uuid>, creditRefuses: bool) returns (r: Outcome<()>)
      modifies this`orders
      ensures var s := Place(old(Contents()), customer, active, raw, maxPercent, uuid, creditRefuses);
              if s.Done? then r == Done(()) && Contents() == s.value else r == Refused(s.code) && Contents() == old(Contents())
    {
      if uuid.Some? && IndexWhere(PlacedAs(uuid.value), orders) >= 0 {
        return Done(());
      }
      if !active || |raw| == 0 {
        return Refused(VALIDATION_FAILED);
      }
      var before := orders;
      orders := orders + [Order(customer, PLACED, [], TotalsOf([]), uuid)];
      var priced := ReplaceLines(raw, maxPercent);
      if priced.Refused? {
        orders := before;  // the transaction rolls back
        return Refused(priced.code);
      }
      orders := orders[|before| := orders[|before|].(lines := priced.value.0, totals := priced.value.1)];
      if creditRefuses {
        orders := before;
        return Refused("CREDIT_LIMIT_EXCEEDED");
      }
      r := Done(());
    }

    method AmendOrder(o: nat, raw: seq<RawLine>, maxPercent: int, creditRefuses: bool) returns (r: Outcome<()>)
      requires o < |orders|
      modifies this
      ensures var s := Amend(old(Contents()), o, raw, maxPercent, creditRefuses);
              if s.Done? then r == Done(()) && Contents() == s.value else r == Refused(s.code) && Contents() == old(Contents())
    {
      if orders[o].status != PLACED && orders[o].status != CONFIRMED {
        return Refused(VALIDATION_FAILED);
      }
      var priced := ReplaceLines(raw, maxPercent);
      if priced.Refused? {
        return Refused(priced.code);
      }
      if creditRefuses {
        return Refused("CREDIT_LIMIT_EXCEEDED");
      }
      orders := orders[o := orders[o].(lines := priced.value.0, totals := priced.value.1)];
      r := Done(());
    }

    method MoveTo(o: nat, to: OrderStatus) returns (r: Outcome<()>)
      requires o < |orders|
      modifies this`orders
      ensures var s := Transition(old(Contents()), o, to);
              if s.Done? then r == Done(()) && Contents() == s.value else r == Refused(s.code) && Contents() == old(Contents())
    {
      if to !in Allowed(orders[o].status) {
        return Refused(VALIDATION_FAILED);
      }
      orders := orders[o := orders[o].(status := to)];
      r := Done(());
    }

    method AssignDelivery(o: nat, internalUser: bool, uuid: Option<Uuid>) returns (r: Outcome<()>)
      requires o < |orders|
      modifies this`deliveries
      ensures var s := Assign(old(Contents()), o, internalUser, uuid);
              if s.Done? then r == Done(()) && Contents() == s.value else r == Refused(s.code) && Contents() == old(Contents())
    {
      if uuid.Some? && IndexWhere(AssignedAs(uuid.value), deliveries) >= 0 {
        return Done(());
      }
      if IndexWhere(OfOrder(o), deliveries) >= 0 {
        return Done(());
      }
      if orders[o].status != CONFIRMED || !internalUser {
        return Refused(VALIDATION_FAILED);
      }
      deliveries := deliveries + [Delivery(o, PENDING, false, uuid, None)];
      r := Done(());
    }

    /** One movement per line, appended in line order. */
    method RecordMovements(kind: MovementKind, sign: int, lines: seq<OrderLine>, d: nat)
      modifies this`stock
      ensures stock == old(stock) + Moves(kind, sign, lines, d)
    {
      var i := 0;
      while i < |lines|
        invariant 0 <= i <= |lines|
        invariant stock == old(stock) + Moves(kind, sign, lines[..i], d)
      {
        assert lines[..i + 1][..i] == lines[..i];
        stock := stock + [Move(kind, sign, lines[i], d)];
        i := i + 1;
      }
      assert lines[..i] == lines;
    }

    method DispatchDelivery(d: nat, creditRefuses: bool) returns (r: Outcome<()>)
      requires Known(Contents(), d)
      modifies this
      ensures var s := Dispatch(old(Contents()), d, creditRefuses);
              if s.Done? then r == Done(()) && Contents() == s.value else r == Refused(s.code) && Contents() == old(Contents())
    {
      if deliveries[d].dispatched {
        return Done(());
      }
      var o := deliveries[d].order;
      if orders[o].status != CONFIRMED {
        return Refused(VALIDATION_FAILED);
      }
      if creditRefuses {
        return Refused("CREDIT_LIMIT_EXCEEDED");
      }
      if |orders[o].lines| == 0 {
        return Refused(VALIDATION_FAILED);
      }
      RecordMovements(ISSUE, -1, orders[o].lines, d);
      deliveries := deliveries[d := deliveries[d].(dispatched := true)];
      r := MoveTo(o, DISPATCHED);
    }

    method FailDelivery(d: nat, reason: string, uuid: Option<Uuid>) returns (r: Outcome<()>)
      requires Known(Contents(), d)
      modifies this
      ensures var s := Fail(old(Contents()), d, reason, uuid);
              if s.Done? then r == Done(()) && Contents() == s.value else r == Refused(s.code) && Contents() == old(Contents())
    {
      if reason == "" {
        return Refused(VALIDATION_FAILED);
      }
      if uuid.Some? && IndexWhere(SettledAs(uuid.value), deliveries) >= 0 {
        return Done(());
      }
      if !deliveries[d].dispatched {
        return Refused(VALIDATION_FAILED);
      }
      if deliveries[d].status == PENDING {
        deliveries := deliveries[d := deliveries[d].(outcome := uuid, status := FAILED)];
        RecordMovements(RETURN, 1, orders[deliveries[d].order].lines, d);
      }
      r := Done(());
    }

    method CompleteDelivery(d: nat, uuid: Option<Uuid>, coordinatesPaired: bool) returns (r: Outcome<()>)
      requires Known(Contents(), d)
      modifies this
      ensures var s := Complete(old(Contents()), d, uuid, coordinatesPaired);
              if s.Done? then r == Done(()) && Contents() == s.value else r == Refused(s.code) && Contents() == old(Contents())
    {
      if uuid.Some? && IndexWhere(SettledAs(uuid.value), deliveries) >= 0 {
        return Done(());
      }
      if !deliveries[d].dispatched {
        return Refused(VALIDATION_FAILED);
      }
      if deliveries[d].status != PENDING {
        return Done(());
      }
      if !coordinatesPaired {
        return Refused("INTEGRITY_ERROR");
      }
      var before := deliveries;
      deliveries := deliveries[d := deliveries[d].(outcome := uuid, status := HANDED_OVER)];
      r := MoveTo(deliveries[d].order, DELIVERED);
      if r.Refused? {
        deliveries := before;  // the transaction rolls back
      }
    }
  }
}
