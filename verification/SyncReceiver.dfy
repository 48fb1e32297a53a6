/**
 The sync receiver, serially. A first attempt commits three times: the receipt, the business effect
 and the outcome. A replay finishes whatever an interruption left between them.
 */
module SyncHandlers {
  import opened Outcomes

  type Uuid = int

  datatype OperationType = DELIVERY_COMPLETE | VISIT_CREATE | UNSUPPORTED(name: string)

  /** A coordinate as it arrives in a payload: absent, exact, or text that is no number. */
  datatype Coordinate = Absent | Exact(micro: int) | Malformed

  datatype VisitOutcome = BlankOutcome | ORDER_TAKEN | NO_ORDER | SHOP_CLOSED | UnknownOutcome(spelling: string)

  datatype Operation = Operation(
    key: Uuid,
    kind: OperationType,
    deliveryId: Option<int>,
    customerId: Option<int>,
    visitedAt: Option<int>,
    outcome: VisitOutcome,
    text: string,
    latitude: Coordinate,
    longitude: Coordinate,
    accuracy: Coordinate)

  datatype Status = RECEIVED | ACCEPTED | DUPLICATE | DEFERRED | REJECTED

  datatype Entity = NoEntity | VisitEntity(key: Uuid) | DeliveryEntity(id: int)

  /** One `sync_operation` row. The payload is kept only when the operation is refused. */
  datatype Record = Record(status: Status, entity: Entity, errorCode: string, payload: Option<Operation>)

  datatype Visit = Visit(customerId: int, visitedAt: int, outcome: VisitOutcome, text: string, latitude: Coordinate, longitude: Coordinate)

  datatype DeliveryStatus = PENDING | DELIVERED | FAILED

  datatype Delivery = Delivery(orderId: int, dispatched: bool, status: DeliveryStatus)

  datatype OrderStatus = PLACED | CONFIRMED | DISPATCHED | ORDER_DELIVERED | CANCELLED

  /**
   What the receiver writes. `visits` is keyed by `client_uuid` and `outcomes` by
   `outcome_client_uuid`: each map is one unique index.
   */
  datatype Db = Db(
    ops: map<Uuid, Record>,
    visits: map<Uuid, Visit>,
    deliveries: map<int, Delivery>,
    outcomes: map<Uuid, int>,
    orders: map<int, OrderStatus>)

  /** What the handlers read and nothing here changes: the customers, and the deliveries in the actor's scope. */
  datatype World = World(customers: set<int>, visible: set<int>)

  /** A handler commits an effect, refuses with a domain error, or faults with anything else. */
  datatype Reply = Accept(entity: Entity, db: Db) | Refuse(code: string) | Fault

  const UNSUPPORTED_OPERATION := "SYNC_UNSUPPORTED_OPERATION"
  const MAX_BATCH := 200

  function RecordVisit(w: World, db: Db, op: Operation): Reply {
    if op.latitude.Malformed? || op.longitude.Malformed? || op.accuracy.Malformed? then Refuse(VALIDATION_FAILED)
    else if op.key in db.visits then Accept(VisitEntity(op.key), db)
    else if op.latitude.Absent? != op.longitude.Absent? then Refuse(VALIDATION_FAILED)
    else if op.outcome.UnknownOutcome? then Refuse(VALIDATION_FAILED)
    else if op.customerId.None? || op.customerId.value !in w.customers then Refuse(VALIDATION_FAILED)
    else if op.visitedAt.None? then Fault
    else
      var visit := Visit(op.customerId.value, op.visitedAt.value, op.outcome, op.text, op.latitude, op.longitude);
      Accept(VisitEntity(op.key), db.(visits := db.visits[op.key := visit]))
  }

  function CompleteDelivery(w: World, db: Db, op: Operation): Reply {
    if op.deliveryId.None? || op.deliveryId.value !in w.visible || op.deliveryId.value !in db.deliveries then Refuse(VALIDATION_FAILED)
    else if op.latitude.Malformed? || op.longitude.Malformed? then Refuse(VALIDATION_FAILED)
    else if op.key in db.outcomes then Accept(DeliveryEntity(db.outcomes[op.key]), db)
    else
      var id := op.deliveryId.value;
      var d := db.deliveries[id];
      if !d.dispatched then Refuse(VALIDATION_FAILED)
      else if d.status != PENDING then Accept(DeliveryEntity(id), db)
      else if op.latitude.Absent? != op.longitude.Absent? then Fault
      else if d.orderId !in db.orders || db.orders[d.orderId] != DISPATCHED then Refuse(VALIDATION_FAILED)
      else
        Accept(DeliveryEntity(id), db.(
          deliveries := db.deliveries[id := d.(status := DELIVERED)],
          outcomes := db.outcomes[op.key := id],
          orders := db.orders[d.orderId := ORDER_DELIVERED]))
  }

  function Handle(w: World, db: Db, op: Operation): Reply {
    match op.kind
    case DELIVERY_COMPLETE => CompleteDelivery(w, db, op)
    case VISIT_CREATE => RecordVisit(w, db, op)
    case UNSUPPORTED(_) => Refuse(UNSUPPORTED_OPERATION)
  }

  /** What a visit payload must hold to be recorded: whole numbers, both coordinates or neither, a known outcome, a known customer and a time. */
  predicate Recordable(w: World, op: Operation) {
    && !op.latitude.Malformed? && !op.longitude.Malformed? && !op.accuracy.Malformed?
    && (op.latitude.Absent? <==> op.longitude.Absent?) && !op.outcome.UnknownOutcome?
    && op.customerId.Some? && op.customerId.value in w.customers && op.visitedAt.Some?
  }

  /** A visit shows what its operation sent. */
  predicate Sent(v: Visit, op: Operation) {
    && op.customerId == Some(v.customerId) && op.visitedAt == Some(v.visitedAt) && v.outcome == op.outcome && v.text == op.text
    && v.latitude == op.latitude && v.longitude == op.longitude
  }

  /**
   A visit is inserted exactly when its key is new and its payload is in order; it is then the only new row, under
   that key and as sent. A payload short only of its time faults; any other is refused, unless the key is known.
   */
  lemma VisitsAreInsertedExactlyWhen(w: World, db: Db, op: Operation)
    requires op.kind.VISIT_CREATE?
    ensures
      var r := Handle(w, db, op);
      && (r.Accept? && r.db != db <==> op.key !in db.visits && Recordable(w, op))
      && (r.Accept? ==> r.entity == VisitEntity(op.key))
      && (r.Accept? && r.db != db ==>
            && r.db == db.(visits := r.db.visits) && r.db.visits.Keys == db.visits.Keys + {op.key} && Sent(r.db.visits[op.key], op)
            && forall key :: key in db.visits ==> r.db.visits[key] == db.visits[key])
      && (r.Fault? <==> op.key !in db.visits && op.visitedAt.None? && Recordable(w, op.(visitedAt := Some(0))))
  {
  }

  /** Re-entering a handler whose effect committed returns the same entity and changes nothing. */
  lemma HandlersAreIdempotent(w: World, db: Db, op: Operation)
    ensures var first := Handle(w, db, op); first.Accept? ==> Handle(w, first.db, op) == first
  {
  }

  /** Handlers never look at the operation table, and never write it. */
  lemma HandlersIgnoreRecords(w: World, db: Db, op: Operation, ops: map<Uuid, Record>)
    ensures
      var r, r' := Handle(w, db, op), Handle(w, db.(ops := ops), op);
      && (r.Accept? ==> r.db.ops == db.ops && r' == Accept(r.entity, r.db.(ops := ops)))
      && (!r.Accept? ==> r' == r)
  {
  }
}

module SyncReceiver {
  import opened Outcomes
  import opened SyncHandlers

  /** What the device is told about one operation. */
  datatype Answer = Answer(key: Uuid, status: Status, entity: Entity, errorCode: string) | ServerError(key: Uuid)

  predicate Settled(db: Db, key: Uuid) { key in db.ops && db.ops[key].status != RECEIVED }

  function AnswerFrom(db: Db, key: Uuid, status: Status): Answer
    requires key in db.ops
  {
    Answer(key, status, db.ops[key].entity, db.ops[key].errorCode)
  }

  /** `_apply`: run the handler for a recorded operation and settle its row. */
  function Apply(w: World, db: Db, op: Operation): (r: (Db, Answer))
    requires op.key in db.ops
  {
    match Handle(w, db, op)
    case Accept(entity, db') =>
      var done := db'.(ops := db.ops[op.key := Record(ACCEPTED, entity, db.ops[op.key].errorCode, db.ops[op.key].payload)]);
      (done, AnswerFrom(done, op.key, ACCEPTED))
    case Refuse(code) =>
      var done := db.(ops := db.ops[op.key := Record(REJECTED, db.ops[op.key].entity, code, Some(op))]);
      (done, AnswerFrom(done, op.key, REJECTED))
    case Fault => (db, ServerError(op.key))
  }

  const Fresh := Record(RECEIVED, NoEntity, "", None)

  function Receipt(db: Db, op: Operation): Db { db.(ops := db.ops[op.key := Fresh]) }

  /** `_process_one`, uninterrupted. */
  function Process(w: World, db: Db, op: Operation): (Db, Answer) {
    if Settled(db, op.key) then (db, AnswerFrom(db, op.key, DUPLICATE))
    else Apply(w, if op.key in db.ops then db else Receipt(db, op), op)
  }

  type Server = (Db, Operation) -> (Db, Answer)

  /** A whole batch in array order; an unexpected fault ends the request. */
  function ServeAll(serve: Server, db: Db, batch: seq<Operation>): (Db, seq<Answer>)
    decreases |batch|
  {
    if |batch| == 0 then (db, [])
    else
      var (db1, answer) := serve(db, batch[0]);
      if answer.ServerError? then (db1, [answer])
      else
        var (db2, rest) := ServeAll(serve, db1, batch[1..]);
        (db2, [answer] + rest)
  }

  predicate Served(serve: Server, db: Db, batch: seq<Operation>) {
    forall a :: a in ServeAll(serve, db, batch).1 ==> !a.ServerError?
  }

  function Receiving(w: World): Server { (db: Db, op: Operation) => Process(w, db, op) }

  function Pass(w: World, db: Db, batch: seq<Operation>): (Db, seq<Answer>) { ServeAll(Receiving(w), db, batch) }

  predicate Completed(w: World, db: Db, batch: seq<Operation>) { Served(Receiving(w), db, batch) }

  // ------------------------------------------------------------------ interruptions

  /**
   `c` is a database an interruption of one operation can leave behind: nothing yet, the receipt
   alone, the receipt and the effect, or everything but the answer. A recovery is one transaction,
   so it leaves nothing or everything.
   */
  predicate Interrupted(w: World, db: Db, op: Operation, c: Db) {
    || c == db
    || c == Process(w, db, op).0
    || (op.key !in db.ops && c == Receipt(db, op))
    || (op.key !in db.ops && Handle(w, Receipt(db, op), op).Accept? && c == Handle(w, Receipt(db, op), op).db)
  }

  /** A request that served `k` operations and was interrupted inside the next one. */
  predicate CutShort(w: World, db: Db, batch: seq<Operation>, k: nat, c: Db) {
    && k < |batch|
    && Completed(w, db, batch[..k])
    && Interrupted(w, Pass(w, db, batch[..k]).0, batch[k], c)
  }

  ghost predicate InterruptedRequest(w: World, db: Db, batch: seq<Operation>, c: Db) {
    exists k: nat :: CutShort(w, db, batch, k, c)
  }

  /** Any number of interrupted requests, each starting where the last one left the database. */
  ghost predicate Interruptions(w: World, batch: seq<Operation>, states: seq<Db>) {
    && |states| > 0
    && forall i :: 0 <= i < |states| - 1 ==> InterruptedRequest(w, states[i], batch, states[i + 1])
  }

  // ------------------------------------------------------------------ refinement

  /** Serving an operation settles it, and leaves every other settled row exactly as it was. */
  lemma ProcessSettles(w: World, db: Db, op: Operation, key: Uuid)
    ensures var (db', a) := Process(w, db, op);
            && (!a.ServerError? ==> Settled(db', op.key) && Agrees(AnswerFrom(db', op.key, DUPLICATE), a))
            && (Settled(db, key) ==> key in db'.ops && db'.ops[key] == db.ops[key])
  {
    HandlersIgnoreRecords(w, db, op, db.ops);
    HandlersIgnoreRecords(w, Receipt(db, op), op, db.ops);
  }

  /** Serving an operation a second time changes nothing and tells the device the same. */
  lemma ProcessTwice(w: World, db: Db, op: Operation)
    ensures var (c, original) := Process(w, db, op);
            Process(w, c, op).0 == c && Agrees(Process(w, c, op).1, original)
  {
    ProcessSettles(w, db, op, op.key);
  }

  /** The receipt and the effect committed, the outcome did not: the handler re-enters and finds its own row. */
  lemma EffectThenReplay(w: World, db: Db, op: Operation)
    requires op.key !in db.ops && Handle(w, Receipt(db, op), op).Accept?
    ensures Process(w, Handle(w, Receipt(db, op), op).db, op) == Process(w, db, op)
  {
    HandlersAreIdempotent(w, Receipt(db, op), op);
    HandlersIgnoreRecords(w, Receipt(db, op), op, Receipt(db, op).ops);
  }

  /** Whatever an interruption left, serving the operation again ends where an uninterrupted one does. */
  lemma ReplayConverges(w: World, db: Db, op: Operation, c: Db)
    requires Interrupted(w, db, op, c)
    ensures Process(w, c, op).0 == Process(w, db, op).0
    ensures Agrees(Process(w, c, op).1, Process(w, db, op).1)
  {
    if c == db {
    } else if c == Process(w, db, op).0 {
      ProcessTwice(w, db, op);
    } else if c != Receipt(db, op) {
      EffectThenReplay(w, db, op);
    }
  }

  /** An interruption leaves every settled row alone. */
  lemma InterruptionsKeepVerdicts(w: World, db: Db, op: Operation, c: Db, key: Uuid)
    requires Interrupted(w, db, op, c) && Settled(db, key)
    ensures key in c.ops && c.ops[key] == db.ops[key]
  {
    ProcessSettles(w, db, op, key);
    HandlersIgnoreRecords(w, Receipt(db, op), op, db.ops);
  }

  /** The same entity and error, and either the same verdict or DUPLICATE. */
  predicate Agrees(replayed: Answer, original: Answer) {
    && replayed.key == original.key
    && (replayed.ServerError? <==> original.ServerError?)
    && (replayed.Answer? ==>
          && replayed.entity == original.entity && replayed.errorCode == original.errorCode
          && (replayed.status == original.status || replayed.status == DUPLICATE))
  }

  predicate AllAgree(replayed: seq<Answer>, original: seq<Answer>) {
    |replayed| == |original| && forall i :: 0 <= i < |original| ==> Agrees(replayed[i], original[i])
  }

  // ------------------------------------------------------------------ batches, whatever serves them

  /** What a server has to promise about one operation for batches of them to be replayable. */
  predicate Replayable(serve: Server, db: Db, op: Operation) {
    var (db', a) := serve(db, op);
    && (Settled(db, op.key) ==> db' == db && a == AnswerFrom(db, op.key, DUPLICATE))
    && (!a.ServerError? ==> Settled(db', op.key) && Agrees(AnswerFrom(db', op.key, DUPLICATE), a))
  }

  predicate KeepsVerdict(serve: Server, db: Db, op: Operation, key: Uuid) {
    Settled(db, key) ==> key in serve(db, op).0.ops && serve(db, op).0.ops[key] == db.ops[key]
  }

  ghost predicate Faithful(serve: Server) {
    && (forall db, op :: Replayable(serve, db, op))
    && (forall db, op, key :: KeepsVerdict(serve, db, op, key))
  }

  lemma ReceivingIsFaithful(w: World)
    ensures Faithful(Receiving(w))
  {
    forall db, op ensures Replayable(Receiving(w), db, op) { ProcessSettles(w, db, op, op.key); }
    forall db, op, key ensures KeepsVerdict(Receiving(w), db, op, key) { ProcessSettles(w, db, op, key); }
  }

  /** A settled prefix answers DUPLICATE throughout and changes nothing. */
  lemma {:induction false} SettledPrefix(serve: Server, c: Db, done: seq<Operation>, rest: seq<Operation>)
    requires Faithful(serve) && forall i :: 0 <= i < |done| ==> Settled(c, done[i].key)
    ensures ServeAll(serve, c, done + rest).0 == ServeAll(serve, c, rest).0
    ensures ServeAll(serve, c, done + rest).1 == Duplicates(c, done) + ServeAll(serve, c, rest).1
  {
    if |done| == 0 {
      assert done + rest == rest;
    } else {
      assert Replayable(serve, c, done[0]);
      assert (done + rest)[1..] == done[1..] + rest;
      SettledPrefix(serve, c, done[1..], rest);
      assert Duplicates(c, done) == [AnswerFrom(c, done[0].key, DUPLICATE)] + Duplicates(c, done[1..]);
    }
  }

  function Duplicates(c: Db, done: seq<Operation>): seq<Answer>
    requires forall i :: 0 <= i < |done| ==> Settled(c, done[i].key)
  {
    seq(|done|, i requires 0 <= i < |done| => assert Settled(c, done[i].key); AnswerFrom(c, done[i].key, DUPLICATE))
  }

  /** The rest of a served batch was served too. */
  lemma ServedTail(serve: Server, db: Db, batch: seq<Operation>)
    requires |batch| > 0 && Served(serve, db, batch)
    ensures !serve(db, batch[0]).1.ServerError? && Served(serve, serve(db, batch[0]).0, batch[1..])
  {
    var (db1, answer) := serve(db, batch[0]);
    assert ServeAll(serve, db, batch).1[0] == answer;
    forall a | a in ServeAll(serve, db1, batch[1..]).1 ensures !a.ServerError? {
      assert a in ServeAll(serve, db, batch).1;
    }
  }

  lemma {:induction false} BatchSplits(serve: Server, db: Db, done: seq<Operation>, rest: seq<Operation>)
    requires Served(serve, db, done)
    ensures ServeAll(serve, db, done + rest).0 == ServeAll(serve, ServeAll(serve, db, done).0, rest).0
    ensures ServeAll(serve, db, done + rest).1 == ServeAll(serve, db, done).1 + ServeAll(serve, ServeAll(serve, db, done).0, rest).1
    ensures |ServeAll(serve, db, done).1| == |done|
    decreases |done|
  {
    if |done| == 0 {
      assert done + rest == rest;
    } else {
      assert (done + rest)[1..] == done[1..] + rest;
      ServedTail(serve, db, done);
      BatchSplits(serve, serve(db, done[0]).0, done[1..], rest);
    }
  }

  /** Serving one operation more; a fault there is where the whole request ends. */
  lemma BatchStep(serve: Server, db: Db, batch: seq<Operation>, i: nat)
    requires i < |batch| && Served(serve, db, batch[..i])
    ensures
      var (mid, out) := ServeAll(serve, db, batch[..i]);
      var (next, answer) := serve(mid, batch[i]);
      && ServeAll(serve, db, batch[..i + 1]) == (next, out + [answer])
      && (answer.ServerError? ==> ServeAll(serve, db, batch) == (next, out + [answer]))
      && (!answer.ServerError? ==> Served(serve, db, batch[..i + 1]))
  {
    BatchSplits(serve, db, batch[..i], [batch[i]]);
    BatchSplits(serve, db, batch[..i], batch[i..]);
    assert batch[..i + 1] == batch[..i] + [batch[i]] && batch == batch[..i] + batch[i..];
    var mid := ServeAll(serve, db, batch[..i]).0;
    var (next, answer) := serve(mid, batch[i]);
    assert [batch[i]][1..] == [] && ServeAll(serve, next, []) == (next, []);
    assert [answer] + [] == [answer] && ServeAll(serve, mid, [batch[i]]) == (next, [answer]);
    assert batch[i..][0] == batch[i];
  }

  /** A served prefix is settled, its records are the ones its answers reported, and no earlier verdict moved. */
  lemma {:induction false} ServedIsSettled(serve: Server, db: Db, done: seq<Operation>, key: Uuid)
    requires Faithful(serve) && Served(serve, db, done)
    ensures var (db', out) := ServeAll(serve, db, done);
            && |out| == |done|
            && (forall i :: 0 <= i < |done| ==> Settled(db', done[i].key) && Agrees(AnswerFrom(db', done[i].key, DUPLICATE), out[i]))
            && (Settled(db, key) ==> key in db'.ops && db'.ops[key] == db.ops[key])
    decreases |done|
  {
    if |done| != 0 {
      var (db1, answer) := serve(db, done[0]);
      var (db', out) := ServeAll(serve, db, done);
      ServedTail(serve, db, done);
      assert Replayable(serve, db, done[0]) && KeepsVerdict(serve, db, done[0], key);
      ServedIsSettled(serve, db1, done[1..], key);
      ServedIsSettled(serve, db1, done[1..], done[0].key);
      forall i | 0 <= i < |done| ensures Settled(db', done[i].key) && Agrees(AnswerFrom(db', done[i].key, DUPLICATE), out[i]) {
        if i > 0 { assert done[i] == done[1..][i - 1]; }
      }
    }
  }

  /** Two databases the next operation takes to the same place serve the rest of the batch alike. */
  lemma RestAgrees(serve: Server, mid: Db, c: Db, batch: seq<Operation>)
    requires |batch| > 0 && serve(c, batch[0]).0 == serve(mid, batch[0]).0 && Agrees(serve(c, batch[0]).1, serve(mid, batch[0]).1)
    ensures ServeAll(serve, c, batch).0 == ServeAll(serve, mid, batch).0
    ensures AllAgree(ServeAll(serve, c, batch).1, ServeAll(serve, mid, batch).1)
  {
    var rest := ServeAll(serve, serve(mid, batch[0]).0, batch[1..]).1;
    forall i | 0 <= i < |rest| ensures Agrees(rest[i], rest[i]) {}
  }

  /** A served prefix whose rows are still in place is answered as it was the first time. */
  lemma PrefixAgrees(serve: Server, db: Db, done: seq<Operation>, c: Db)
    requires Faithful(serve) && Served(serve, db, done)
    requires forall key :: Settled(ServeAll(serve, db, done).0, key) ==> key in c.ops && c.ops[key] == ServeAll(serve, db, done).0.ops[key]
    ensures forall i :: 0 <= i < |done| ==> Settled(c, done[i].key)
    ensures AllAgree(Duplicates(c, done), ServeAll(serve, db, done).1)
  {
    ServedIsSettled(serve, db, done, 0);
    forall i | 0 <= i < |done| ensures Settled(c, done[i].key) {}
  }

  /** A batch cut short at operation `k`, and served again from what that left. */
  lemma ServedAgain(serve: Server, db: Db, batch: seq<Operation>, k: nat, c: Db)
    requires Faithful(serve) && k < |batch| && Served(serve, db, batch[..k])
    requires
      var mid := ServeAll(serve, db, batch[..k]).0;
      && serve(c, batch[k]).0 == serve(mid, batch[k]).0 && Agrees(serve(c, batch[k]).1, serve(mid, batch[k]).1)
      && forall key :: Settled(mid, key) ==> key in c.ops && c.ops[key] == mid.ops[key]
    ensures ServeAll(serve, c, batch).0 == ServeAll(serve, db, batch).0
    ensures AllAgree(ServeAll(serve, c, batch).1, ServeAll(serve, db, batch).1)
  {
    var done, rest := batch[..k], batch[k..];
    assert batch == done + rest;
    BatchSplits(serve, db, done, rest);
    RestAgrees(serve, ServeAll(serve, db, done).0, c, rest);
    PrefixAgrees(serve, db, done, c);
    SettledPrefix(serve, c, done, rest);
  }

  // ------------------------------------------------------------------ the theorem

  /** One interrupted request, anywhere in the batch, is invisible to the request that follows it. */
  lemma OneInterruption(w: World, db: Db, batch: seq<Operation>, k: nat, c: Db)
    requires CutShort(w, db, batch, k, c)
    ensures Pass(w, c, batch).0 == Pass(w, db, batch).0
    ensures AllAgree(Pass(w, c, batch).1, Pass(w, db, batch).1)
  {
    var mid := Pass(w, db, batch[..k]).0;
    ReceivingIsFaithful(w);
    ReplayConverges(w, mid, batch[k], c);
    forall key | Settled(mid, key) ensures key in c.ops && c.ops[key] == mid.ops[key] {
      InterruptionsKeepVerdicts(w, mid, batch[k], c, key);
    }
    ServedAgain(Receiving(w), db, batch, k, c);
  }

  /**
   Crash-replay refinement. However many requests are cut short, the next one leaves exactly the
   visits, deliveries, orders and operation rows that a single uninterrupted request would have
   left, and tells the device the same about every operation.
   */
  lemma {:induction false} CrashReplayRefinement(w: World, batch: seq<Operation>, states: seq<Db>)
    requires Interruptions(w, batch, states)
    ensures Pass(w, states[|states| - 1], batch).0 == Pass(w, states[0], batch).0
    ensures AllAgree(Pass(w, states[|states| - 1], batch).1, Pass(w, states[0], batch).1)
  {
    if |states| > 1 {
      var n := |states| - 1;
      CrashReplayRefinement(w, batch, states[..n]);
      assert InterruptedRequest(w, states[n - 1], batch, states[n]);
      var k: nat :| CutShort(w, states[n - 1], batch, k, states[n]);
      OneInterruption(w, states[n - 1], batch, k, states[n]);
    }
  }

  // ------------------------------------------------------------------ when the world has changed meanwhile

  /** What the replay of an interrupted operation still needs of the world: that its delivery is in scope. */
  predicate StillSeen(w: World, op: Operation) {
    op.kind.DELIVERY_COMPLETE? ==> op.deliveryId.Some? && op.deliveryId.value in w.visible
  }

  /** The receipt and the effect committed in world `w`, the outcome did not. */
  predicate EffectOnly(w: World, db: Db, op: Operation, c: Db) {
    op.key !in db.ops && Handle(w, Receipt(db, op), op).Accept? && c == Handle(w, Receipt(db, op), op).db
  }

  /** A handler whose effect committed finds it again in any world that still shows it the delivery, and in no other. */
  lemma ReentryInAnotherWorld(w: World, w': World, db: Db, op: Operation)
    requires Handle(w, db, op).Accept?
    ensures Handle(w', Handle(w, db, op).db, op)
            == if StillSeen(w', op) then Handle(w, db, op) else Refuse(VALIDATION_FAILED)
  {
  }

  /**
   Interrupted in one world, served again in another. With no effect committed the replay is simply the first
   attempt, in the new world; with the outcome committed it changes nothing. With the effect committed and
   the outcome not, it ends where the uninterrupted attempt would have exactly when the delivery is still in
   the actor's scope; otherwise the row turns REJECTED over an effect that stays.
   */
  lemma ReplayInAnotherWorld(w: World, w': World, db: Db, op: Operation, c: Db)
    requires Interrupted(w, db, op, c)
    ensures c == db || (op.key !in db.ops && c == Receipt(db, op)) ==> Process(w', c, op) == Process(w', db, op)
    ensures c == Process(w, db, op).0 && Settled(c, op.key) ==> Process(w', c, op).0 == c
    ensures EffectOnly(w, db, op, c) ==>
              && (Process(w', c, op).0 == Process(w, db, op).0 <==> StillSeen(w', op))
              && (!StillSeen(w', op) ==>
                    && Process(w', c, op).0.ops[op.key].status == REJECTED
                    && Process(w', c, op).0 == c.(ops := Process(w', c, op).0.ops))
  {
    if EffectOnly(w, db, op, c) {
      HandlersIgnoreRecords(w, Receipt(db, op), op, db.ops);
      ReentryInAnotherWorld(w, w', Receipt(db, op), op);
    }
  }

  /** Of a whole batch only the operation it was cut short in, and those after it, meet the new world. */
  lemma BatchInAnotherWorld(w: World, w': World, db: Db, batch: seq<Operation>, k: nat, c: Db)
    requires CutShort(w, db, batch, k, c)
    ensures Pass(w', c, batch).0 == Pass(w', c, batch[k..]).0
  {
    var mid := Pass(w, db, batch[..k]).0;
    ReceivingIsFaithful(w);
    ReceivingIsFaithful(w');
    forall key | Settled(mid, key) ensures key in c.ops && c.ops[key] == mid.ops[key] {
      InterruptionsKeepVerdicts(w, mid, batch[k], c, key);
    }
    PrefixAgrees(Receiving(w), db, batch[..k], c);
    assert batch == batch[..k] + batch[k..];
    SettledPrefix(Receiving(w'), c, batch[..k], batch[k..]);
  }

  const Handover := Operation(1, DELIVERY_COMPLETE, Some(5), None, None, BlankOutcome, "", Absent, Absent, Absent)

  const OnTheRoad := Db(map[], map[], map[5 := Delivery(9, true, PENDING)], map[], map[9 := DISPATCHED])

  /** A handover committed, its outcome not; the delivery is then given to somebody else. The replay is refused, and the goods stay delivered. */
  lemma ACommittedHandoverCanTurnRejected()
    ensures
      var c := Handle(World({}, {5}), Receipt(OnTheRoad, Handover), Handover).db;
      && EffectOnly(World({}, {5}), OnTheRoad, Handover, c)
      && var replayed := Process(World({}, {}), c, Handover).0;
         && 5 in replayed.deliveries && replayed.deliveries[5].status == DELIVERED
         && 1 in replayed.ops && replayed.ops[1].status == REJECTED
  {
    var w := World({}, {5});
    assert Handle(w, Receipt(OnTheRoad, Handover), Handover).Accept?;
    var c := Handle(w, Receipt(OnTheRoad, Handover), Handover).db;
    ReplayInAnotherWorld(w, World({}, {}), OnTheRoad, Handover, c);
  }

  // ------------------------------------------------------------------ what a settled row means

  /** What an accepted operation points at is there: a visit, or a delivery that has left PENDING. */
  predicate EntityExists(db: Db, entity: Entity) {
    match entity
    case VisitEntity(v) => v in db.visits
    case DeliveryEntity(d) => d in db.deliveries && db.deliveries[d].status != PENDING
    case NoEntity => false
  }

  /** A visit is nobody's but its own operation's. */
  predicate Owns(key: Uuid, entity: Entity) { entity.VisitEntity? ==> entity.key == key }

  /** An accepted row points at something that exists, and at no other operation's visit; a refused one carries its reason and its payload. */
  predicate Evidenced(db: Db, key: Uuid)
    requires key in db.ops
  {
    match db.ops[key].status
    case ACCEPTED => EntityExists(db, db.ops[key].entity) && Owns(key, db.ops[key].entity)
    case REJECTED => db.ops[key].errorCode != "" && db.ops[key].payload.Some? && db.ops[key].payload.value.key == key
    case _ => false
  }

  ghost predicate Sound(db: Db) {
    forall key :: Settled(db, key) ==> Evidenced(db, key)
  }

  /** Outcome keys belong to deliveries that have left PENDING. */
  ghost predicate OutcomesClaimed(db: Db) {
    forall key :: key in db.outcomes ==> db.outcomes[key] in db.deliveries && db.deliveries[db.outcomes[key]].status != PENDING
  }

  /** Effects only grow: visits stay, and a delivery that has left PENDING never returns. */
  lemma EffectsGrow(w: World, db: Db, op: Operation)
    requires OutcomesClaimed(db)
    ensures var r := Handle(w, db, op);
            r.Accept? ==>
              && r.db.ops == db.ops
              && OutcomesClaimed(r.db)
              && EntityExists(r.db, r.entity) && Owns(op.key, r.entity)
              && forall e :: EntityExists(db, e) ==> EntityExists(r.db, e)
  {
  }

  /** What accepting this very operation means: its own visit, or its delivery, or the one its key was recorded on before. */
  predicate AcceptedAs(db: Db, op: Operation, entity: Entity) {
    match op.kind
    case VISIT_CREATE => entity == VisitEntity(op.key) && op.key in db.visits
    case DELIVERY_COMPLETE =>
      && entity.DeliveryEntity? && EntityExists(db, entity)
      && (op.deliveryId == Some(entity.id) || (op.key in db.outcomes && db.outcomes[op.key] == entity.id))
    case UNSUPPORTED(_) => false
  }

  lemma AcceptedIsItsOwn(w: World, db: Db, op: Operation)
    requires OutcomesClaimed(db)
    ensures var a := Process(w, db, op).1; a.Answer? && a.status == ACCEPTED ==> AcceptedAs(Process(w, db, op).0, op, a.entity)
  {
    var start := if op.key in db.ops then db else Receipt(db, op);
    if !Settled(db, op.key) { EffectsGrow(w, start, op); }
  }

  /**
   A row takes its handler's verdict and nobody else's moves: accepted with the entity and the effect, refused with the
   handler's code and the operation as it came, or left RECEIVED over nothing when the handler faults. A type no handler
   knows is refused as unsupported.
   */
  lemma VerdictIsTheHandlers(w: World, db: Db, op: Operation)
    requires !Settled(db, op.key)
    ensures
      var (db', answer) := Process(w, db, op);
      && op.key in db'.ops && (forall key :: key in db.ops && key != op.key ==> key in db'.ops && db'.ops[key] == db.ops[key])
      && (op.kind.UNSUPPORTED? ==> Handle(w, db, op) == Refuse("SYNC_UNSUPPORTED_OPERATION"))
      && var row := db'.ops[op.key];
         match Handle(w, db, op)
         case Accept(entity, effect) => db' == effect.(ops := db'.ops) && row.status == ACCEPTED == answer.status && row.entity == entity == answer.entity
         case Refuse(code) =>
           && db' == db.(ops := db'.ops) && row.status == REJECTED == answer.status && row.errorCode == code == answer.errorCode
           && row.payload == Some(op)
         case Fault => db' == db.(ops := db'.ops) && row.status == RECEIVED && answer == ServerError(op.key)
  {
    HandlersIgnoreRecords(w, db, op, Receipt(db, op).ops);
  }

  /** It stays so, whatever is served next. */
  lemma AcceptedStays(w: World, db: Db, next: Operation, op: Operation, entity: Entity)
    requires OutcomesClaimed(db) && AcceptedAs(db, op, entity)
    ensures AcceptedAs(Process(w, db, next).0, op, entity)
  {
  }

  lemma {:induction false} AcceptedStaysThrough(w: World, db: Db, batch: seq<Operation>, op: Operation, entity: Entity)
    requires Sound(db) && OutcomesClaimed(db) && AcceptedAs(db, op, entity)
    ensures AcceptedAs(Pass(w, db, batch).0, op, entity)
    decreases |batch|
  {
    if |batch| != 0 {
      AcceptedStays(w, db, batch[0], op, entity);
      ProcessKeepsSound(w, db, batch[0]);
      if !Process(w, db, batch[0]).1.ServerError? { AcceptedStaysThrough(w, Process(w, db, batch[0]).0, batch[1..], op, entity); }
    }
  }

  lemma ApplyKeepsSound(w: World, db: Db, op: Operation)
    requires Sound(db) && OutcomesClaimed(db) && op.key in db.ops && db.ops[op.key].status == RECEIVED
    ensures Sound(Apply(w, db, op).0) && OutcomesClaimed(Apply(w, db, op).0)
  {
    EffectsGrow(w, db, op);
    var db' := Apply(w, db, op).0;
    forall key | Settled(db', key) ensures Evidenced(db', key) {
      if key != op.key {
        assert Settled(db, key) && Evidenced(db, key);
      }
    }
  }

  lemma ProcessKeepsSound(w: World, db: Db, op: Operation)
    requires Sound(db) && OutcomesClaimed(db)
    ensures Sound(Process(w, db, op).0) && OutcomesClaimed(Process(w, db, op).0)
  {
    if !Settled(db, op.key) {
      var start := if op.key in db.ops then db else Receipt(db, op);
      forall key | Settled(start, key) ensures Evidenced(start, key) {
        assert Settled(db, key) && Evidenced(db, key);
      }
      ApplyKeepsSound(w, start, op);
    }
  }

  /**
   Zero lost, zero duplicated: after a completed request every operation is accepted with its effect, or
   refused with its evidence; and whatever is answered ACCEPTED names the visit of its own key or its own delivery.
   */
  lemma {:induction false} NothingIsLost(w: World, db: Db, batch: seq<Operation>)
    requires Sound(db) && OutcomesClaimed(db) && Completed(w, db, batch)
    ensures Sound(Pass(w, db, batch).0) && OutcomesClaimed(Pass(w, db, batch).0) && |Pass(w, db, batch).1| == |batch|
    ensures forall i :: 0 <= i < |batch| ==> Settled(Pass(w, db, batch).0, batch[i].key)
    ensures forall i :: 0 <= i < |batch| && Pass(w, db, batch).1[i].status == ACCEPTED ==>
              AcceptedAs(Pass(w, db, batch).0, batch[i], Pass(w, db, batch).1[i].entity)
    decreases |batch|
  {
    ReceivingIsFaithful(w);
    ServedIsSettled(Receiving(w), db, batch, 0);
    if |batch| != 0 {
      var (db1, answer) := Process(w, db, batch[0]);
      ServedTail(Receiving(w), db, batch);
      ProcessKeepsSound(w, db, batch[0]);
      NothingIsLost(w, db1, batch[1..]);
      AcceptedIsItsOwn(w, db, batch[0]);
      if answer.status == ACCEPTED { AcceptedStaysThrough(w, db1, batch[1..], batch[0], answer.entity); }
      PassAnswers(w, db, batch);
    }
  }

  lemma PassAnswers(w: World, db: Db, batch: seq<Operation>)
    requires |batch| > 0 && !Process(w, db, batch[0]).1.ServerError?
    ensures Pass(w, db, batch).1 == [Process(w, db, batch[0]).1] + Pass(w, Process(w, db, batch[0]).0, batch[1..]).1
    ensures Pass(w, db, batch).0 == Pass(w, Process(w, db, batch[0]).0, batch[1..]).0
  {
  }

  // ------------------------------------------------------------------ the receiver itself

  class Receiver {
    const world: World
    var ops: map<Uuid, Record>
    var visits: map<Uuid, Visit>
    var deliveries: map<int, Delivery>
    var outcomes: map<Uuid, int>
    var orders: map<int, OrderStatus>

    function Tables(): Db
      reads this
    {
      Db(ops, visits, deliveries, outcomes, orders)
    }

    constructor (w: World, db: Db)
      ensures world == w && Tables() == db
    {
      world := w;
      ops, visits, deliveries, outcomes, orders := db.ops, db.visits, db.deliveries, db.outcomes, db.orders;
    }

    /** Serve the batch in array order, each operation in its own transactions. */
    method ProcessPush(batch: seq<Operation>) returns (answers: Outcome<seq<Answer>>)
      modifies this
      ensures |batch| > 200 ==> answers == Refused(VALIDATION_FAILED) && Tables() == old(Tables())
      ensures |batch| <= 200 ==>
                answers == Done(Pass(world, old(Tables()), batch).1) && Tables() == Pass(world, old(Tables()), batch).0
    {
      if |batch| > MAX_BATCH {
        return Refused(VALIDATION_FAILED);
      }
      var out: seq<Answer> := [];
      var i := 0;
      while i < |batch|
        invariant 0 <= i <= |batch|
        invariant Completed(world, old(Tables()), batch[..i])
        invariant Pass(world, old(Tables()), batch[..i]) == (Tables(), out)
      {
        BatchStep(Receiving(world), old(Tables()), batch, i);
        var answer := ProcessOne(batch[i]);
        out := out + [answer];
        if answer.ServerError? {
          return Done(out);
        }
        i := i + 1;
      }
      assert batch[..i] == batch;
      answers := Done(out);
    }

    method ProcessOne(op: Operation) returns (answer: Answer)
      modifies this
      ensures (Tables(), answer) == Process(world, old(Tables()), op)
    {
      if op.key in ops {
        answer := SettleExisting(op);
      } else {
        ops := ops[op.key := Fresh];
        answer := ApplyOne(op);
      }
    }

    /** RECEIVED is not a verdict: an unfinished row is finished, any other is a duplicate. */
    method SettleExisting(op: Operation) returns (answer: Answer)
      requires op.key in ops
      modifies this
      ensures (Tables(), answer) == Process(world, old(Tables()), op)
    {
      if ops[op.key].status != RECEIVED {
        answer := Answer(op.key, DUPLICATE, ops[op.key].entity, ops[op.key].errorCode);
      } else {
        answer := ApplyOne(op);
      }
    }

    method ApplyOne(op: Operation) returns (answer: Answer)
      requires op.key in ops
      modifies this
      ensures (Tables(), answer) == Apply(world, old(Tables()), op)
    {
      HandlersIgnoreRecords(world, Tables(), op, ops);
      match Handle(world, Tables(), op) {
        case Accept(entity, db') =>
          visits, deliveries, outcomes, orders := db'.visits, db'.deliveries, db'.outcomes, db'.orders;
          ops := ops[op.key := ops[op.key].(status := ACCEPTED, entity := entity)];
          answer := Answer(op.key, ACCEPTED, entity, ops[op.key].errorCode);
        case Refuse(code) =>
          ops := ops[op.key := ops[op.key].(status := REJECTED, errorCode := code, payload := Some(op))];
          answer := Answer(op.key, REJECTED, ops[op.key].entity, code);
        case Fault =>
          answer := ServerError(op.key);
      }
    }
  }
}
