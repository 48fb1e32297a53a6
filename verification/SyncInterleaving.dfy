/**
 The sync receiver under concurrency: any number of workers serve the same operations, step by
 committed step, while the rest of the system moves underneath and any worker may die at any point.

 A first attempt runs unlocked; a recovery holds the row lock from its re-read of the status to its
 single commit. The handlers check first and write later, so what makes them safe is the unique
 indexes consulted by the write, not the earlier look.
 */
module SyncInterleaving {
  import opened Outcomes
  import opened Querysets
  import opened SyncHandlers
  import opened SyncReceiver

  // ------------------------------------------------------------------ handlers, in two steps

  datatype Effect = Nothing | InsertVisit | HandOver(id: int)

  datatype Attempt = Commits(entity: Entity, effect: Effect) | Refuses(code: string) | Faults

  /** What a handler reads before it writes: `None` when the write is still to come. */
  function Look(w: World, db: Db, op: Operation): Option<Attempt> {
    match op.kind
    case UNSUPPORTED(_) => Some(Refuses(UNSUPPORTED_OPERATION))
    case VISIT_CREATE =>
      if op.latitude.Malformed? || op.longitude.Malformed? || op.accuracy.Malformed? then Some(Refuses(VALIDATION_FAILED))
      else if op.key in db.visits then Some(Commits(VisitEntity(op.key), Nothing))
      else if op.latitude.Absent? != op.longitude.Absent? || op.outcome.UnknownOutcome? then Some(Refuses(VALIDATION_FAILED))
      else if op.customerId.None? || op.customerId.value !in w.customers then Some(Refuses(VALIDATION_FAILED))
      else None
    case DELIVERY_COMPLETE =>
      if op.deliveryId.None? || op.deliveryId.value !in w.visible || op.deliveryId.value !in db.deliveries then Some(Refuses(VALIDATION_FAILED))
      else if op.latitude.Malformed? || op.longitude.Malformed? then Some(Refuses(VALIDATION_FAILED))
      else if op.key in db.outcomes then Some(Commits(DeliveryEntity(db.outcomes[op.key]), Nothing))
      else None
  }

  /**
   The write, against the tables as they are by then. A unique index turns a lost race into the
   original row; the delivery's row lock makes its status check and its update one step.
   */
  function Write(w: World, db: Db, op: Operation): Attempt {
    match op.kind
    case UNSUPPORTED(_) => Faults
    case VISIT_CREATE =>
      if op.key in db.visits then Commits(VisitEntity(op.key), Nothing)
      else if op.visitedAt.None? || op.customerId.None? || op.customerId.value !in w.customers then Faults
      else Commits(VisitEntity(op.key), InsertVisit)
    case DELIVERY_COMPLETE =>
      if op.deliveryId.None? || op.deliveryId.value !in db.deliveries then Faults
      else
        var d := db.deliveries[op.deliveryId.value];
        if !d.dispatched then Refuses(VALIDATION_FAILED)
        else if d.status != PENDING then Commits(DeliveryEntity(op.deliveryId.value), Nothing)
        else if op.key in db.outcomes then Commits(DeliveryEntity(db.outcomes[op.key]), Nothing)
        else if op.latitude.Absent? != op.longitude.Absent? then Faults
        else if d.orderId !in db.orders || db.orders[d.orderId] != DISPATCHED then Refuses(VALIDATION_FAILED)
        else Commits(DeliveryEntity(op.deliveryId.value), HandOver(op.deliveryId.value))
  }

  /** The rows an effect writes. */
  function Perform(db: Db, op: Operation, effect: Effect): Db {
    match effect
    case Nothing => db
    case InsertVisit =>
      if op.customerId.None? || op.visitedAt.None? then db
      else
        var visit := Visit(op.customerId.value, op.visitedAt.value, op.outcome, op.text, op.latitude, op.longitude);
        db.(visits := db.visits[op.key := visit])
    case HandOver(id) =>
      if id !in db.deliveries then db
      else
        db.(deliveries := db.deliveries[id := db.deliveries[id].(status := DELIVERED)],
            outcomes := db.outcomes[op.key := id],
            orders := db.orders[db.deliveries[id].orderId := ORDER_DELIVERED])
  }

  function ReplyOf(db: Db, op: Operation, a: Attempt): Reply {
    match a
    case Commits(entity, effect) => Accept(entity, Perform(db, op, effect))
    case Refuses(code) => Refuse(code)
    case Faults => Fault
  }

  /** With nothing in between, looking and then writing is the serial handler. */
  lemma LookThenWrite(w: World, db: Db, op: Operation)
    ensures
      var looked := Look(w, db, op);
      Handle(w, db, op) == ReplyOf(db, op, if looked.Some? then looked.value else Write(w, db, op))
  {
  }

  // ------------------------------------------------------------------ the system

  type Worker = nat

  datatype Phase =
    | Idle
    | Missing(key: Uuid)                   // looked, found no row
    | Receipted(key: Uuid)                 // the receipt committed
    | Writing(key: Uuid)                   // the handler has looked and not yet written
    | Effected(key: Uuid, entity: Entity)  // the effect committed, the outcome has not
    | Refusing(key: Uuid, code: string)
    | Unfinished(key: Uuid)                // found the row at RECEIVED
    | Holding(key: Uuid)                   // holds the row lock, re-read RECEIVED
    | HoldingWrite(key: Uuid)

  /**
   `visitLog` and `departures` record every row inserted and every delivery that left PENDING, in
   order, so that "at most once" can be said of them.
   */
  datatype System = System(
    world: World,
    db: Db,
    phases: map<Worker, Phase>,
    holders: map<Uuid, Worker>,
    answers: seq<Answer>,
    visitLog: seq<Uuid>,
    departures: seq<int>)

  datatype Action =
    | Begin(worker: Worker, key: Uuid)
    | Insert(worker: Worker)
    | LookFirst(worker: Worker)
    | WriteFirst(worker: Worker)
    | SettleFirst(worker: Worker)
    | Lock(worker: Worker)
    | LookHeld(worker: Worker)
    | WriteHeld(worker: Worker)
    | Crash(worker: Worker)
    | Depart(id: int, status: DeliveryStatus, claim: Option<Uuid>)
    | Elsewhere(world: World, deliveries: map<int, Delivery>, orders: map<int, OrderStatus>)

  function PhaseOf(s: System, worker: Worker): Phase {
    if worker in s.phases then s.phases[worker] else Idle
  }

  function Goto(s: System, worker: Worker, phase: Phase): System {
    s.(phases := s.phases[worker := phase])
  }

  function Tell(s: System, worker: Worker, answer: Answer): System {
    Goto(s, worker, Idle).(answers := s.answers + [answer])
  }

  /** The worker's transaction ends: it is idle and its row locks are free. */
  function Abandon(s: System, worker: Worker): System {
    Goto(s, worker, Idle).(holders := map k | k in s.holders && s.holders[k] != worker :: s.holders[k])
  }

  /** Settle an existing row: a verdict is a DUPLICATE, RECEIVED is unfinished work. */
  function Meet(s: System, worker: Worker, key: Uuid): System
    requires key in s.db.ops
  {
    if s.db.ops[key].status == RECEIVED then Goto(s, worker, Unfinished(key))
    else Tell(s, worker, AnswerFrom(s.db, key, DUPLICATE))
  }

  function Carry(s: System, op: Operation, effect: Effect): System {
    s.(db := Perform(s.db, op, effect),
       visitLog := if effect.InsertVisit? then s.visitLog + [op.key] else s.visitLog,
       departures := if effect.HandOver? then s.departures + [effect.id] else s.departures)
  }

  function SetRecord(s: System, key: Uuid, r: Record): System {
    s.(db := s.db.(ops := s.db.ops[key := r]))
  }

  /**
   The two outcomes write their own columns of the row as it now is, and answer from the worker's own copy of
   it: for a first attempt the receipt it inserted, for a recovery the row it re-read under the lock.
   */
  function AcceptRow(s: System, worker: Worker, key: Uuid, copy: Record, entity: Entity): System
    requires key in s.db.ops
  {
    var done := SetRecord(s, key, s.db.ops[key].(status := ACCEPTED, entity := entity));
    Tell(done, worker, Answer(key, ACCEPTED, entity, copy.errorCode))
  }

  function RejectRow(s: System, worker: Worker, op: Operation, copy: Record, code: string): System
    requires op.key in s.db.ops
  {
    var done := SetRecord(s, op.key, s.db.ops[op.key].(status := REJECTED, errorCode := code, payload := Some(op)));
    Tell(done, worker, Answer(op.key, REJECTED, copy.entity, code))
  }

  /** What a first attempt does with what its handler said: the effect commits, the outcome waits. */
  function AfterFirst(s: System, worker: Worker, op: Operation, a: Attempt): System {
    match a
    case Commits(entity, effect) => Goto(Carry(s, op, effect), worker, Effected(op.key, entity))
    case Refuses(code) => Goto(s, worker, Refusing(op.key, code))
    case Faults => Tell(s, worker, ServerError(op.key))
  }

  /** What a recovery does: effect, outcome and lock release in one commit, or nothing at all. */
  function AfterHeld(s: System, worker: Worker, op: Operation, a: Attempt): System
    requires op.key in s.db.ops
  {
    var free := Abandon(s, worker);
    match a
    case Commits(entity, effect) => AcceptRow(Carry(free, op, effect), worker, op.key, s.db.ops[op.key], entity)
    case Refuses(code) => RejectRow(free, worker, op, s.db.ops[op.key], code)
    case Faults => Tell(free, worker, ServerError(op.key))
  }

  /** Everything else the system does to these tables: it never touches a delivery's status here. */
  predicate Unrelated(db: Db, deliveries: map<int, Delivery>) {
    && (forall id :: id in db.deliveries ==> id in deliveries && deliveries[id].status == db.deliveries[id].status)
    && (forall id :: id in deliveries && id !in db.deliveries ==> deliveries[id].status == PENDING)
  }

  /** One step. An action that is not enabled changes nothing. */
  function Next(opOf: Uuid -> Operation, s: System, a: Action): System {
    match a
    case Begin(w, key) =>
      if !PhaseOf(s, w).Idle? then s
      else if key in s.db.ops then Meet(s, w, key)
      else Goto(s, w, Missing(key))
    case Insert(w) =>
      (match PhaseOf(s, w)
       case Missing(key) =>
         if key in s.db.ops then Meet(s, w, key) else Goto(SetRecord(s, key, Fresh), w, Receipted(key))
       case _ => s)
    case LookFirst(w) =>
      (match PhaseOf(s, w)
       case Receipted(key) =>
         var looked := Look(s.world, s.db, opOf(key));
         if looked.Some? then AfterFirst(s, w, opOf(key), looked.value) else Goto(s, w, Writing(key))
       case _ => s)
    case WriteFirst(w) =>
      (match PhaseOf(s, w)
       case Writing(key) => AfterFirst(s, w, opOf(key), Write(s.world, s.db, opOf(key)))
       case _ => s)
    case SettleFirst(w) =>
      (match PhaseOf(s, w)
       case Effected(key, entity) => if key in s.holders || key !in s.db.ops then s else AcceptRow(s, w, key, Fresh, entity)
       case Refusing(key, code) => if key in s.holders || opOf(key).key !in s.db.ops then s else RejectRow(s, w, opOf(key), Fresh, code)
       case _ => s)
    case Lock(w) =>
      (match PhaseOf(s, w)
       case Unfinished(key) =>
         if key in s.holders || key !in s.db.ops then s
         else if s.db.ops[key].status != RECEIVED then Tell(s, w, AnswerFrom(s.db, key, DUPLICATE))
         else Goto(s, w, Holding(key)).(holders := s.holders[key := w])
       case _ => s)
    case LookHeld(w) =>
      (match PhaseOf(s, w)
       case Holding(key) =>
         var looked := Look(s.world, s.db, opOf(key));
         if opOf(key).key !in s.db.ops then s
         else if looked.Some? then AfterHeld(s, w, opOf(key), looked.value)
         else Goto(s, w, HoldingWrite(key))
       case _ => s)
    case WriteHeld(w) =>
      (match PhaseOf(s, w)
       case HoldingWrite(key) =>
         if opOf(key).key !in s.db.ops then s else AfterHeld(s, w, opOf(key), Write(s.world, s.db, opOf(key)))
       case _ => s)
    case Crash(w) => Abandon(s, w)
    case Depart(id, status, claim) =>
      if id !in s.db.deliveries || s.db.deliveries[id].status != PENDING || status == PENDING then s
      else if claim.Some? && claim.value in s.db.outcomes then s
      else
        s.(db := s.db.(deliveries := s.db.deliveries[id := s.db.deliveries[id].(status := status)],
                       outcomes := if claim.Some? then s.db.outcomes[claim.value := id] else s.db.outcomes),
           departures := s.departures + [id])
    case Elsewhere(world, deliveries, orders) =>
      if Unrelated(s.db, deliveries) then s.(world := world, db := s.db.(deliveries := deliveries, orders := orders)) else s
  }

  function Run(opOf: Uuid -> Operation, s: System, actions: seq<Action>): System {
    if |actions| == 0 then s else Next(opOf, Run(opOf, s, actions[..|actions| - 1]), actions[|actions| - 1])
  }

  /** No workers, nothing logged yet: the receiver starting over any tables. */
  function Start(w: World, db: Db): System {
    System(w, db, map[], map[], [], [], [])
  }

  // ------------------------------------------------------------------ the invariant

  lemma DistinctSnoc<T>(s: seq<T>, x: T)
    requires Distinct(s) && x !in s
    ensures Distinct(s + [x])
  {
  }

  predicate Departed(db: Db, id: int) { id in db.deliveries && db.deliveries[id].status != PENDING }

  /** Every effect happened at most once. */
  ghost predicate Once(s: System) {
    && Distinct(s.visitLog) && (forall k :: k in s.visitLog ==> k in s.db.visits)
    && Distinct(s.departures) && (forall id :: id in s.departures ==> Departed(s.db, id))
  }

  ghost predicate Rows(db: Db) {
    && (forall key :: key in db.outcomes ==> Departed(db, db.outcomes[key]))
    && (forall key :: Settled(db, key) ==> Evidenced(db, key))
  }

  predicate FirstAttempt(p: Phase) { p.Receipted? || p.Writing? || p.Effected? || p.Refusing? }

  predicate Rivals(p: Phase, q: Phase) { FirstAttempt(p) && FirstAttempt(q) && p.key == q.key }

  predicate Held(p: Phase) { p.Holding? || p.HoldingWrite? }

  /** What each phase already knows about the tables. */
  predicate Knows(db: Db, p: Phase) {
    && (!p.Idle? && !p.Missing? ==> p.key in db.ops)
    && (p.Effected? ==> EntityExists(db, p.entity) && Owns(p.key, p.entity))
    && (p.Refusing? ==> p.code != "")
  }

  ghost predicate PhasesKnow(s: System) {
    forall w :: w in s.phases ==> Knows(s.db, s.phases[w])
  }

  /** The receipt's unique index lets one worker at most be the first attempt at a key. */
  ghost predicate OneFirst(s: System) {
    forall v, w :: v in s.phases && w in s.phases && v != w ==> !Rivals(s.phases[v], s.phases[w])
  }

  /** A row lock belongs to the one worker recovering that row, and the row is still RECEIVED. */
  ghost predicate Locks(s: System) {
    && (forall w :: w in s.phases && Held(s.phases[w]) ==> s.phases[w].key in s.holders && s.holders[s.phases[w].key] == w)
    && (forall k :: k in s.holders ==>
          && s.holders[k] in s.phases && Held(s.phases[s.holders[k]]) && s.phases[s.holders[k]].key == k
          && k in s.db.ops && s.db.ops[k].status == RECEIVED)
  }

  /** Nobody is ever given a verdict for a row that has none. */
  ghost predicate Truthful(s: System) {
    forall a :: a in s.answers && a.Answer? ==> Settled(s.db, a.key)
  }

  ghost predicate Safe(s: System) {
    Once(s) && Rows(s.db) && PhasesKnow(s) && OneFirst(s) && Locks(s) && Truthful(s)
  }

  ghost predicate SameKey(opOf: Uuid -> Operation) { forall k :: opOf(k).key == k }

  // ------------------------------------------------------------------ every step keeps it

  /** Nothing a step commits is ever taken back. */
  ghost predicate Grows(db: Db, later: Db) {
    && (forall k :: k in db.ops ==> k in later.ops)
    && (forall k :: Settled(db, k) ==> Settled(later, k))
    && (forall e :: EntityExists(db, e) ==> EntityExists(later, e))
    && (forall id :: Departed(db, id) ==> Departed(later, id))
    && (forall k :: k in db.visits ==> k in later.visits)
  }

  /** A step that moves one worker outside any lock. */
  lemma GotoSafe(s: System, w: Worker, p: Phase)
    requires Safe(s) && Knows(s.db, p) && !Held(PhaseOf(s, w)) && !Held(p)
    requires forall v :: v in s.phases && v != w ==> !Rivals(s.phases[v], p)
    ensures Safe(Goto(s, w, p))
  {
  }

  lemma TellSafe(s: System, w: Worker, a: Answer)
    requires Safe(s) && !Held(PhaseOf(s, w)) && (a.Answer? ==> Settled(s.db, a.key))
    ensures Safe(Tell(s, w, a))
  {
    GotoSafe(s, w, Idle);
  }

  lemma AbandonSafe(s: System, w: Worker)
    requires Safe(s)
    ensures Safe(Abandon(s, w))
    ensures !Held(PhaseOf(Abandon(s, w), w))
    ensures forall k :: k in s.holders && s.holders[k] == w ==> k !in Abandon(s, w).holders
  {
  }

  lemma MeetSafe(s: System, w: Worker, key: Uuid)
    requires Safe(s) && key in s.db.ops && !Held(PhaseOf(s, w))
    ensures Safe(Meet(s, w, key))
  {
    if s.db.ops[key].status == RECEIVED {
      GotoSafe(s, w, Unfinished(key));
    } else {
      TellSafe(s, w, AnswerFrom(s.db, key, DUPLICATE));
    }
  }

  /** Writing an unlocked row: a new receipt, or a verdict with its evidence. */
  lemma SetRecordSafe(s: System, key: Uuid, r: Record)
    requires Safe(s) && key !in s.holders
    requires r.status == RECEIVED ==> key !in s.db.ops
    requires r.status != RECEIVED ==> Evidenced(SetRecord(s, key, r).db, key)
    ensures Safe(SetRecord(s, key, r))
    ensures Grows(s.db, SetRecord(s, key, r).db)
  {
    var s' := SetRecord(s, key, r);
    forall k | Settled(s'.db, k) ensures Evidenced(s'.db, k) {
      if k != key { assert Settled(s.db, k) && Evidenced(s.db, k); }
    }
    assert Grows(s.db, s'.db);
  }

  /** An effect lands on a row the write has just seen free. */
  predicate Applicable(db: Db, op: Operation, effect: Effect) {
    match effect
    case Nothing => true
    case InsertVisit => op.key !in db.visits && op.customerId.Some? && op.visitedAt.Some?
    case HandOver(id) => id in db.deliveries && db.deliveries[id].status == PENDING
  }

  lemma AttemptsAreApplicable(w: World, db: Db, op: Operation)
    requires Rows(db)
    ensures Look(w, db, op).Some? ==> Good(db, op, Look(w, db, op).value)
    ensures Good(db, op, Write(w, db, op))
  {
  }

  /** A handler's answer names an entity that exists once its effect is performed. */
  predicate Good(db: Db, op: Operation, a: Attempt) {
    match a
    case Commits(entity, effect) => Applicable(db, op, effect) && EntityExists(Perform(db, op, effect), entity) && Owns(op.key, entity)
    case Refuses(code) => code != ""
    case Faults => true
  }

  lemma PerformGrows(db: Db, op: Operation, effect: Effect)
    requires Applicable(db, op, effect)
    ensures Grows(db, Perform(db, op, effect)) && Perform(db, op, effect).ops == db.ops
  {
  }

  lemma CarrySafe(s: System, op: Operation, effect: Effect)
    requires Safe(s) && Applicable(s.db, op, effect)
    ensures Safe(Carry(s, op, effect))
  {
    PerformGrows(s.db, op, effect);
    var s' := Carry(s, op, effect);
    if effect.InsertVisit? { DistinctSnoc(s.visitLog, op.key); }
    if effect.HandOver? { DistinctSnoc(s.departures, effect.id); }
    forall k | Settled(s'.db, k) ensures Evidenced(s'.db, k) {
      assert Settled(s.db, k) && Evidenced(s.db, k);
    }
  }

  lemma AcceptSafe(s: System, w: Worker, key: Uuid, copy: Record, entity: Entity)
    requires Safe(s) && key in s.db.ops && key !in s.holders && !Held(PhaseOf(s, w)) && EntityExists(s.db, entity) && Owns(key, entity)
    ensures Safe(AcceptRow(s, w, key, copy, entity))
  {
    var r := s.db.ops[key].(status := ACCEPTED, entity := entity);
    SetRecordSafe(s, key, r);
    TellSafe(SetRecord(s, key, r), w, Answer(key, ACCEPTED, entity, copy.errorCode));
  }

  lemma RejectSafe(s: System, w: Worker, op: Operation, copy: Record, code: string)
    requires Safe(s) && op.key in s.db.ops && op.key !in s.holders && !Held(PhaseOf(s, w)) && code != ""
    ensures Safe(RejectRow(s, w, op, copy, code))
  {
    var r := s.db.ops[op.key].(status := REJECTED, errorCode := code, payload := Some(op));
    SetRecordSafe(s, op.key, r);
    TellSafe(SetRecord(s, op.key, r), w, Answer(op.key, REJECTED, copy.entity, code));
  }

  lemma AfterFirstSafe(s: System, w: Worker, op: Operation, a: Attempt)
    requires Safe(s) && FirstAttempt(PhaseOf(s, w)) && PhaseOf(s, w).key == op.key && Good(s.db, op, a)
    ensures Safe(AfterFirst(s, w, op, a))
  {
    match a
    case Commits(entity, effect) =>
      CarrySafe(s, op, effect);
      PerformGrows(s.db, op, effect);
      GotoSafe(Carry(s, op, effect), w, Effected(op.key, entity));
    case Refuses(code) => GotoSafe(s, w, Refusing(op.key, code));
    case Faults => TellSafe(s, w, ServerError(op.key));
  }

  lemma AfterHeldSafe(s: System, w: Worker, op: Operation, a: Attempt)
    requires Safe(s) && Held(PhaseOf(s, w)) && PhaseOf(s, w).key == op.key && op.key in s.db.ops && Good(s.db, op, a)
    ensures Safe(AfterHeld(s, w, op, a))
  {
    AbandonSafe(s, w);
    var free := Abandon(s, w);
    match a
    case Commits(entity, effect) =>
      CarrySafe(free, op, effect);
      PerformGrows(free.db, op, effect);
      AcceptSafe(Carry(free, op, effect), w, op.key, s.db.ops[op.key], entity);
    case Refuses(code) => RejectSafe(free, w, op, s.db.ops[op.key], code);
    case Faults => TellSafe(free, w, ServerError(op.key));
  }

  lemma InsertSafe(opOf: Uuid -> Operation, s: System, w: Worker)
    requires Safe(s)
    ensures Safe(Next(opOf, s, Insert(w)))
  {
    if PhaseOf(s, w).Missing? {
      var key := PhaseOf(s, w).key;
      if key in s.db.ops {
        MeetSafe(s, w, key);
      } else {
        SetRecordSafe(s, key, Fresh);
        GotoSafe(SetRecord(s, key, Fresh), w, Receipted(key));
      }
    }
  }

  lemma OutsideSafe(opOf: Uuid -> Operation, s: System, a: Action)
    requires Safe(s) && (a.Depart? || a.Elsewhere?)
    ensures Safe(Next(opOf, s, a)) && Grows(s.db, Next(opOf, s, a).db)
  {
    var s' := Next(opOf, s, a);
    assert Grows(s.db, s'.db);
    if a.Depart? && s' != s { DistinctSnoc(s.departures, a.id); }
    forall k | Settled(s'.db, k) ensures Evidenced(s'.db, k) {
      assert Settled(s.db, k) && Evidenced(s.db, k);
    }
  }

  lemma LockSafe(opOf: Uuid -> Operation, s: System, w: Worker)
    requires Safe(s)
    ensures Safe(Next(opOf, s, Lock(w)))
  {
    if PhaseOf(s, w).Unfinished? {
      var key := PhaseOf(s, w).key;
      if key !in s.holders && s.db.ops[key].status != RECEIVED {
        TellSafe(s, w, AnswerFrom(s.db, key, DUPLICATE));
      }
    }
  }

  lemma LookHeldSafe(opOf: Uuid -> Operation, s: System, w: Worker)
    requires Safe(s) && SameKey(opOf)
    ensures Safe(Next(opOf, s, LookHeld(w)))
  {
    if PhaseOf(s, w).Holding? {
      var op := opOf(PhaseOf(s, w).key);
      AttemptsAreApplicable(s.world, s.db, op);
      if Look(s.world, s.db, op).Some? {
        AfterHeldSafe(s, w, op, Look(s.world, s.db, op).value);
      }
    }
  }

  lemma {:induction false} NextSafe(opOf: Uuid -> Operation, s: System, a: Action)
    requires Safe(s) && SameKey(opOf)
    ensures Safe(Next(opOf, s, a))
  {
    match a
    case Begin(w, key) =>
      if PhaseOf(s, w).Idle? {
        if key in s.db.ops { MeetSafe(s, w, key); } else { GotoSafe(s, w, Missing(key)); }
      }
    case Insert(w) => InsertSafe(opOf, s, w);
    case LookFirst(w) =>
      if PhaseOf(s, w).Receipted? {
        var op := opOf(PhaseOf(s, w).key);
        AttemptsAreApplicable(s.world, s.db, op);
        if Look(s.world, s.db, op).Some? {
          AfterFirstSafe(s, w, op, Look(s.world, s.db, op).value);
        } else {
          GotoSafe(s, w, Writing(PhaseOf(s, w).key));
        }
      }
    case WriteFirst(w) =>
      if PhaseOf(s, w).Writing? {
        var op := opOf(PhaseOf(s, w).key);
        AttemptsAreApplicable(s.world, s.db, op);
        AfterFirstSafe(s, w, op, Write(s.world, s.db, op));
      }
    case SettleFirst(w) =>
      if PhaseOf(s, w).Effected? && PhaseOf(s, w).key !in s.holders {
        AcceptSafe(s, w, PhaseOf(s, w).key, Fresh, PhaseOf(s, w).entity);
      } else if PhaseOf(s, w).Refusing? && PhaseOf(s, w).key !in s.holders {
        RejectSafe(s, w, opOf(PhaseOf(s, w).key), Fresh, PhaseOf(s, w).code);
      }
    case Lock(w) => LockSafe(opOf, s, w);
    case LookHeld(w) => LookHeldSafe(opOf, s, w);
    case WriteHeld(w) =>
      if PhaseOf(s, w).HoldingWrite? {
        var op := opOf(PhaseOf(s, w).key);
        AttemptsAreApplicable(s.world, s.db, op);
        AfterHeldSafe(s, w, op, Write(s.world, s.db, op));
      }
    case Crash(w) => AbandonSafe(s, w);
    case Depart(_, _, _) => OutsideSafe(opOf, s, a);
    case Elsewhere(_, _, _) => OutsideSafe(opOf, s, a);
  }

  /**
   Exactly once, under any interleaving. From any sound tables, whatever the workers, crashes,
   recoveries and unrelated traffic do: no `client_uuid` gains a second visit, no delivery leaves
   PENDING twice, an accepted row's visit exists or its delivery has left PENDING, and no device is
   given a verdict for a row that is still RECEIVED.
   */
  lemma {:induction false} ExactlyOnce(opOf: Uuid -> Operation, w: World, db: Db, actions: seq<Action>)
    requires SameKey(opOf) && Rows(db)
    ensures Safe(Run(opOf, Start(w, db), actions))
  {
    if |actions| != 0 {
      ExactlyOnce(opOf, w, db, actions[..|actions| - 1]);
      NextSafe(opOf, Run(opOf, Start(w, db), actions[..|actions| - 1]), actions[|actions| - 1]);
    }
  }

  // ------------------------------------------------------------------ one worker alone

  /** Receipt and handler, alone: the serial handler's reply, with the effect committed and the outcome still to write. */
  lemma HandlerAlone(opOf: Uuid -> Operation, s: System, w: Worker, key: Uuid)
    requires SameKey(opOf) && PhaseOf(s, w) == Receipted(key) && key in s.db.ops
    ensures
      var s' := Next(opOf, Next(opOf, s, LookFirst(w)), WriteFirst(w));
      match Handle(s.world, s.db, opOf(key))
      case Accept(entity, db) => s'.db == db && PhaseOf(s', w) == Effected(key, entity) && s'.answers == s.answers && s'.holders == s.holders
      case Refuse(code) => s'.db == s.db && PhaseOf(s', w) == Refusing(key, code) && s'.answers == s.answers && s'.holders == s.holders
      case Fault => s'.db == s.db && PhaseOf(s', w) == Idle && s'.answers == s.answers + [ServerError(key)]
  {
    LookThenWrite(s.world, s.db, opOf(key));
    if Look(s.world, s.db, opOf(key)).None? {
      assert Next(opOf, s, LookFirst(w)) == Goto(s, w, Writing(key));
    }
  }

  /** A first attempt nobody disturbs commits exactly what the serial receiver commits, and answers the same. */
  lemma FirstAttemptAlone(opOf: Uuid -> Operation, s: System, w: Worker, key: Uuid)
    requires SameKey(opOf) && PhaseOf(s, w).Idle? && key !in s.db.ops && key !in s.holders
    ensures
      var received := Next(opOf, Next(opOf, s, Begin(w, key)), Insert(w));
      var settled := Next(opOf, Next(opOf, Next(opOf, received, LookFirst(w)), WriteFirst(w)), SettleFirst(w));
      var (db, answer) := Process(s.world, s.db, opOf(key));
      settled.db == db && settled.answers == s.answers + [answer]
  {
    var received := Next(opOf, Next(opOf, s, Begin(w, key)), Insert(w));
    assert received.db == Receipt(s.db, opOf(key)) && PhaseOf(received, w) == Receipted(key);
    HandlerAlone(opOf, received, w, key);
    HandlersIgnoreRecords(s.world, received.db, opOf(key), received.db.ops);
  }

  // ------------------------------------------------------------------ verdicts, and what can change one

  lemma AttemptGrows(s: System, op: Operation, a: Attempt)
    requires Safe(s) && Good(s.db, op, a) && a.Commits?
    ensures Grows(s.db, Perform(s.db, op, a.effect)) && Perform(s.db, op, a.effect).ops == s.db.ops
  {
    PerformGrows(s.db, op, a.effect);
  }

  /** A recovery's commit: the effect, and a verdict on its own row only. */
  lemma AfterHeldGrows(s: System, w: Worker, op: Operation, a: Attempt)
    requires Safe(s) && Good(s.db, op, a) && Held(PhaseOf(s, w)) && PhaseOf(s, w).key == op.key && op.key in s.db.ops
    ensures var s' := AfterHeld(s, w, op, a);
            && Grows(s.db, s'.db)
            && forall k :: k in s.db.ops && k != op.key ==> s'.db.ops[k] == s.db.ops[k]
  {
    if a.Commits? { AttemptGrows(s, op, a); }
  }

  lemma AfterFirstGrows(s: System, w: Worker, op: Operation, a: Attempt)
    requires Safe(s) && Good(s.db, op, a)
    ensures Grows(s.db, AfterFirst(s, w, op, a).db) && AfterFirst(s, w, op, a).db.ops == s.db.ops
  {
    if a.Commits? { AttemptGrows(s, op, a); }
  }

  /** The two ways a step writes an existing row: a first attempt's outcome, or a recovery's commit. */
  predicate WritesRow(s: System, a: Action, key: Uuid) {
    || (a.SettleFirst? && FirstAttempt(PhaseOf(s, a.worker)) && PhaseOf(s, a.worker).key == key)
    || ((a.LookHeld? || a.WriteHeld?) && Held(PhaseOf(s, a.worker)) && PhaseOf(s, a.worker).key == key)
  }

  /** No step takes anything back: not a receipt, not a verdict, not a visit, not a departure. */
  lemma NextGrows(opOf: Uuid -> Operation, s: System, a: Action)
    requires Safe(s) && SameKey(opOf)
    ensures Grows(s.db, Next(opOf, s, a).db)
    ensures forall k :: k in s.db.ops && !WritesRow(s, a, k) ==> Next(opOf, s, a).db.ops[k] == s.db.ops[k]
  {
    if (a.LookFirst? || a.WriteFirst? || a.LookHeld? || a.WriteHeld?) && !PhaseOf(s, a.worker).Idle? {
      var op := opOf(PhaseOf(s, a.worker).key);
      AttemptsAreApplicable(s.world, s.db, op);
      var attempt := if a.LookFirst? || a.LookHeld? then Look(s.world, s.db, op) else Some(Write(s.world, s.db, op));
      if attempt.Some? {
        AfterFirstGrows(s, a.worker, op, attempt.value);
        if Held(PhaseOf(s, a.worker)) { AfterHeldGrows(s, a.worker, op, attempt.value); }
      }
    } else {
      RestGrows(opOf, s, a);
    }
  }

  /** The steps that run no handler. */
  lemma RestGrows(opOf: Uuid -> Operation, s: System, a: Action)
    requires Safe(s) && SameKey(opOf) && (a.LookFirst? || a.WriteFirst? || a.LookHeld? || a.WriteHeld? ==> PhaseOf(s, a.worker).Idle?)
    ensures Grows(s.db, Next(opOf, s, a).db)
    ensures forall k :: k in s.db.ops && !WritesRow(s, a, k) ==> Next(opOf, s, a).db.ops[k] == s.db.ops[k]
  {
    match a
    case Insert(w) =>
      if PhaseOf(s, w).Missing? && PhaseOf(s, w).key !in s.db.ops { SetRecordSafe(s, PhaseOf(s, w).key, Fresh); }
    case SettleFirst(w) => OutcomeGrows(opOf, s, w);
    case Depart(_, _, _) => OutsideSafe(opOf, s, a);
    case Elsewhere(_, _, _) => OutsideSafe(opOf, s, a);
    case _ => QuietStep(opOf, s, a);
  }

  lemma QuietStep(opOf: Uuid -> Operation, s: System, a: Action)
    requires a.Begin? || a.Lock? || a.Crash? || ((a.LookFirst? || a.WriteFirst? || a.LookHeld? || a.WriteHeld?) && PhaseOf(s, a.worker).Idle?)
    ensures Next(opOf, s, a).db == s.db
  {
  }

  lemma OutcomeGrows(opOf: Uuid -> Operation, s: System, w: Worker)
    requires Safe(s) && SameKey(opOf)
    ensures var s' := Next(opOf, s, SettleFirst(w));
            && Grows(s.db, s'.db)
            && forall k :: k in s.db.ops && !WritesRow(s, SettleFirst(w), k) ==> s'.db.ops[k] == s.db.ops[k]
  {
    var p := PhaseOf(s, w);
    if p.Effected? && p.key !in s.holders {
      SetRecordSafe(s, p.key, s.db.ops[p.key].(status := ACCEPTED, entity := p.entity));
    } else if p.Refusing? && p.key !in s.holders {
      SetRecordSafe(s, p.key, s.db.ops[p.key].(status := REJECTED, errorCode := p.code, payload := Some(opOf(p.key))));
    }
  }

  /** `worker` is a first attempt about to write, unlocked, a verdict other than the recorded one. */
  predicate Overwrites(s: System, a: Action, key: Uuid)
    requires key in s.db.ops
  {
    && a.SettleFirst?
    && (|| (PhaseOf(s, a.worker).Effected? && s.db.ops[key].status == REJECTED)
        || (PhaseOf(s, a.worker).Refusing? && s.db.ops[key].status == ACCEPTED))
    && PhaseOf(s, a.worker).key == key
  }

  /** A recorded verdict changes exactly when a first attempt, overtaken by a recovery, writes its own. */
  lemma VerdictChanges(opOf: Uuid -> Operation, s: System, a: Action, key: Uuid)
    requires Safe(s) && SameKey(opOf) && Settled(s.db, key)
    ensures key in Next(opOf, s, a).db.ops
    ensures Next(opOf, s, a).db.ops[key].status != s.db.ops[key].status <==> Overwrites(s, a, key)
  {
    assert Evidenced(s.db, key);
    assert key !in s.holders;
    NextGrows(opOf, s, a);
    if WritesRow(s, a, key) && a.SettleFirst? {
      assert opOf(key).key == key;
    }
  }

  /** Nobody is still on the unlocked path for `key`. */
  ghost predicate NoFirstAttempt(s: System, key: Uuid) {
    forall w :: w in s.phases && FirstAttempt(s.phases[w]) ==> s.phases[w].key != key
  }

  /** A key that has a row never gets another first attempt. */
  lemma NoNewFirst(opOf: Uuid -> Operation, s: System, a: Action, key: Uuid)
    requires Safe(s) && SameKey(opOf) && key in s.db.ops && NoFirstAttempt(s, key)
    ensures NoFirstAttempt(Next(opOf, s, a), key)
  {
    var s' := Next(opOf, s, a);
    forall w | w in s'.phases && FirstAttempt(s'.phases[w]) ensures s'.phases[w].key != key {
      if s'.phases[w].key == key { FirstAttemptsStay(opOf, s, a, w); }
    }
  }

  lemma FirstAttemptsStay(opOf: Uuid -> Operation, s: System, a: Action, w: Worker)
    requires SameKey(opOf) && FirstAttempt(PhaseOf(Next(opOf, s, a), w)) && PhaseOf(Next(opOf, s, a), w).key in s.db.ops
    ensures FirstAttempt(PhaseOf(s, w)) && PhaseOf(s, w).key == PhaseOf(Next(opOf, s, a), w).key
  {
    match a
    case LookFirst(v) => AttemptsKeepFirsts(opOf, s, v, w);
    case WriteFirst(v) => AttemptsKeepFirsts(opOf, s, v, w);
    case LookHeld(v) => RecoveriesStartNone(opOf, s, v, w);
    case WriteHeld(v) => CommitsStartNone(opOf, s, v, w);
    case _ =>
  }

  lemma AttemptsKeepFirsts(opOf: Uuid -> Operation, s: System, v: Worker, w: Worker)
    requires SameKey(opOf)
    ensures var p := PhaseOf(Next(opOf, s, LookFirst(v)), w);
            FirstAttempt(p) ==> FirstAttempt(PhaseOf(s, w)) && PhaseOf(s, w).key == p.key
    ensures var p := PhaseOf(Next(opOf, s, WriteFirst(v)), w);
            FirstAttempt(p) ==> FirstAttempt(PhaseOf(s, w)) && PhaseOf(s, w).key == p.key
  {
  }

  lemma RecoveriesStartNone(opOf: Uuid -> Operation, s: System, v: Worker, w: Worker)
    ensures var p := PhaseOf(Next(opOf, s, LookHeld(v)), w);
            FirstAttempt(p) ==> FirstAttempt(PhaseOf(s, w)) && PhaseOf(s, w).key == p.key
  {
    if PhaseOf(s, v).Holding? && opOf(PhaseOf(s, v).key).key in s.db.ops {
      var op := opOf(PhaseOf(s, v).key);
      var looked := Look(s.world, s.db, op);
      if looked.Some? { OutcomeEndsIdle(s, v, op, looked.value, w); }
    }
  }

  lemma CommitsStartNone(opOf: Uuid -> Operation, s: System, v: Worker, w: Worker)
    ensures var p := PhaseOf(Next(opOf, s, WriteHeld(v)), w);
            FirstAttempt(p) ==> FirstAttempt(PhaseOf(s, w)) && PhaseOf(s, w).key == p.key
  {
    if PhaseOf(s, v).HoldingWrite? && opOf(PhaseOf(s, v).key).key in s.db.ops {
      var op := opOf(PhaseOf(s, v).key);
      OutcomeEndsIdle(s, v, op, Write(s.world, s.db, op), w);
    }
  }

  /** A recovery's commit leaves its own worker idle and touches no other. */
  lemma OutcomeEndsIdle(s: System, v: Worker, op: Operation, a: Attempt, w: Worker)
    requires op.key in s.db.ops
    ensures PhaseOf(AfterHeld(s, v, op, a), w) == if w == v then Idle else PhaseOf(s, w)
  {
  }

  lemma SettledStays(opOf: Uuid -> Operation, s: System, a: Action, key: Uuid)
    requires Safe(s) && SameKey(opOf) && Settled(s.db, key) && NoFirstAttempt(s, key)
    ensures var s' := Next(opOf, s, a);
            Settled(s'.db, key) && s'.db.ops[key] == s.db.ops[key] && NoFirstAttempt(s', key)
  {
    NextGrows(opOf, s, a);
    assert key !in s.holders;
    NoNewFirst(opOf, s, a, key);
  }

  /** Once the first attempt has finished or died, a settled row is frozen: nothing ever writes it again. */
  lemma {:induction false} SettledForGood(opOf: Uuid -> Operation, s: System, actions: seq<Action>, key: Uuid)
    requires Safe(s) && SameKey(opOf) && Settled(s.db, key) && NoFirstAttempt(s, key)
    ensures var s' := Run(opOf, s, actions);
            Safe(s') && Settled(s'.db, key) && s'.db.ops[key] == s.db.ops[key] && NoFirstAttempt(s', key)
  {
    if |actions| != 0 {
      var front := actions[..|actions| - 1];
      SettledForGood(opOf, s, front, key);
      NextSafe(opOf, Run(opOf, s, front), actions[|actions| - 1]);
      SettledStays(opOf, Run(opOf, s, front), actions[|actions| - 1], key);
    }
  }

  /** Nothing observed is ever lost: receipts, verdicts, visits and departures survive every run. */
  lemma {:induction false} NothingGoesBack(opOf: Uuid -> Operation, s: System, actions: seq<Action>)
    requires Safe(s) && SameKey(opOf)
    ensures Safe(Run(opOf, s, actions)) && Grows(s.db, Run(opOf, s, actions).db)
  {
    if |actions| != 0 {
      var front := actions[..|actions| - 1];
      NothingGoesBack(opOf, s, front);
      NextSafe(opOf, Run(opOf, s, front), actions[|actions| - 1]);
      NextGrows(opOf, Run(opOf, s, front), actions[|actions| - 1]);
    }
  }

  const VisitToShop7 := Operation(1, VISIT_CREATE, None, Some(7), Some(0), BlankOutcome, "", Absent, Absent, Absent)

  function OnlyShop7(key: Uuid): Operation { VisitToShop7.(key := key) }

  const NewTables := Db(map[], map[], map[], map[], map[])

  const TheVisit := Visit(7, 0, BlankOutcome, "", Absent, Absent)

  /** Worker 0's handler has refused an unknown shop, and the shop has since been registered. */
  const Refused0 := System(
    World({7}, {}), NewTables.(ops := map[1 := Fresh]), map[0 := Refusing(1, VALIDATION_FAILED)], map[], [], [], [])

  /** Worker 1 has recovered the row, recorded the visit and answered ACCEPTED. */
  const Recovered1 := System(
    World({7}, {}),
    NewTables.(ops := map[1 := Record(ACCEPTED, VisitEntity(1), "", None)], visits := map[1 := TheVisit]),
    map[0 := Refusing(1, VALIDATION_FAILED), 1 := Idle], map[],
    [Answer(1, ACCEPTED, VisitEntity(1), "")], [1], [])

  const Refusal: seq<Action> := [Begin(0, 1), Insert(0), LookFirst(0), Elsewhere(World({7}, {}), map[], map[])]

  const Recovery: seq<Action> := [Begin(1, 1), Lock(1), LookHeld(1), WriteHeld(1)]

  /** One more step of a run. */
  lemma Then(opOf: Uuid -> Operation, s: System, actions: seq<Action>, a: Action)
    ensures Run(opOf, s, actions + [a]) == Next(opOf, Run(opOf, s, actions), a)
  {
    assert (actions + [a])[..|actions|] == actions;
  }

  lemma FourSteps(opOf: Uuid -> Operation, s: System, a: Action, b: Action, c: Action, d: Action)
    ensures Run(opOf, s, [a, b, c, d]) == Next(opOf, Next(opOf, Next(opOf, Next(opOf, s, a), b), c), d)
  {
    Then(opOf, s, [], a);
    Then(opOf, s, [a], b);
    Then(opOf, s, [a, b], c);
    Then(opOf, s, [a, b, c], d);
    assert [] + [a] == [a] && [a] + [b] == [a, b] && [a, b] + [c] == [a, b, c] && [a, b, c] + [d] == [a, b, c, d];
  }

  lemma RunSplits(opOf: Uuid -> Operation, s: System, a: seq<Action>, b: seq<Action>)
    ensures Run(opOf, s, a + b) == Run(opOf, Run(opOf, s, a), b)
  {
    if |b| == 0 {
      assert a + b == a;
    } else {
      RunSplits(opOf, s, a, b[..|b| - 1]);
      assert (a + b)[..|a + b| - 1] == a + b[..|b| - 1];
    }
  }

  lemma RefusedFirst()
    ensures Run(OnlyShop7, Start(World({}, {}), NewTables), Refusal) == Refused0
  {
    var s0 := Start(World({}, {}), NewTables);
    var s1 := s0.(phases := map[0 := Missing(1)]);
    var s2 := s0.(db := NewTables.(ops := map[1 := Fresh]), phases := map[0 := Receipted(1)]);
    var s3 := s2.(phases := map[0 := Refusing(1, VALIDATION_FAILED)]);
    assert Next(OnlyShop7, s0, Begin(0, 1)) == s1;
    assert Next(OnlyShop7, s1, Insert(0)) == s2;
    assert Next(OnlyShop7, s2, LookFirst(0)) == s3;
    assert Next(OnlyShop7, s3, Elsewhere(World({7}, {}), map[], map[])) == Refused0;
    FourSteps(OnlyShop7, s0, Begin(0, 1), Insert(0), LookFirst(0), Elsewhere(World({7}, {}), map[], map[]));
  }

  const Locked1 := Refused0.(phases := map[0 := Refusing(1, VALIDATION_FAILED), 1 := Holding(1)], holders := map[1 := 1])

  const Looked1 := Locked1.(phases := map[0 := Refusing(1, VALIDATION_FAILED), 1 := HoldingWrite(1)])

  lemma TakesTheLock()
    ensures Next(OnlyShop7, Next(OnlyShop7, Refused0, Begin(1, 1)), Lock(1)) == Locked1
  {
    var s1 := Refused0.(phases := map[0 := Refusing(1, VALIDATION_FAILED), 1 := Unfinished(1)]);
    assert Next(OnlyShop7, Refused0, Begin(1, 1)) == s1;
    assert Next(OnlyShop7, s1, Lock(1)) == Locked1;
  }

  lemma FindsTheShop()
    ensures Next(OnlyShop7, Locked1, LookHeld(1)) == Looked1
  {
    assert OnlyShop7(1) == VisitToShop7 && Look(Locked1.world, Locked1.db, VisitToShop7) == None;
  }

  const Effected1 := Commits(VisitEntity(1), InsertVisit)

  lemma WritesTheVisit()
    ensures Next(OnlyShop7, Looked1, WriteHeld(1)) == AfterHeld(Looked1, 1, VisitToShop7, Effected1)
  {
    assert OnlyShop7(1) == VisitToShop7 && Write(Looked1.world, Looked1.db, VisitToShop7) == Effected1;
  }

  lemma RecordsTheVisit()
    ensures Next(OnlyShop7, Looked1, WriteHeld(1)) == Recovered1
  {
    WritesTheVisit();
    assert Abandon(Looked1, 1) == Refused0.(phases := map[0 := Refusing(1, VALIDATION_FAILED), 1 := Idle]);
    assert Carry(Abandon(Looked1, 1), VisitToShop7, InsertVisit).db == Refused0.db.(visits := map[1 := TheVisit]);
  }

  lemma RecoveredSecond()
    ensures Run(OnlyShop7, Refused0, Recovery) == Recovered1
  {
    TakesTheLock();
    FindsTheShop();
    RecordsTheVisit();
    FourSteps(OnlyShop7, Refused0, Begin(1, 1), Lock(1), LookHeld(1), WriteHeld(1));
  }

  /**
   A verdict is not stable under concurrency. Worker 0's handler refuses an unknown shop; the shop is
   registered; worker 1 recovers the row and records the visit; then worker 0 writes its refusal,
   without the lock, over the acceptance. The visit stays, the row says REJECTED and still names it, and the
   device is told REJECTED with no entity: worker 0 answers from the receipt it once inserted.
   */
  lemma AnAcceptedRowCanTurnRejected()
    ensures
      var before := Run(OnlyShop7, Start(World({}, {}), NewTables), Refusal + Recovery);
      var after := Next(OnlyShop7, before, SettleFirst(0));
      && 1 in before.db.ops && before.db.ops[1].status == ACCEPTED
      && Answer(1, ACCEPTED, VisitEntity(1), "") in after.answers
      && 1 in after.db.ops && after.db.ops[1].status == REJECTED && 1 in after.db.visits
      && after.db.ops[1].entity == VisitEntity(1) && Answer(1, REJECTED, NoEntity, VALIDATION_FAILED) in after.answers
  {
    RunSplits(OnlyShop7, Start(World({}, {}), NewTables), Refusal, Recovery);
    RefusedFirst();
    RecoveredSecond();
  }
}
