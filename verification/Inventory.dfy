/** The inventory database as values: stock, reservations, the inventory outbox, and the
    two event handlers, each as one committed transaction. */
module Inventory {
  import opened Events
  import opened Outbox
  import opened Sums
  import Dedup

  datatype Product = Product(total: int, available: int)

  datatype ReservationStatus = Reserved | Released

  datatype Reservation = Reservation(sku: Sku, quantity: int, status: ReservationStatus)

  datatype Tables = Tables(
    products: map<Sku, Product>,
    reservations: map<OrderId, Reservation>,
    outbox: map<EventId, Row<InventoryEvent>>)

  type Db = Dedup.Store<Tables>

  /** What Reserve reports: one reservation written, too little stock, or a unique-key error. */
  datatype ReserveResult = Taken(tables: Tables) | Short | Duplicate

  /** The guarded update of `available` changes a row. MySQL counts changed rows, so a
      quantity of 0 changes none and reads as too little stock. */
  predicate CanTake(products: map<Sku, Product>, sku: Sku, qty: int) {
    sku in products && products[sku].available >= qty && qty != 0
  }

  function Adjust(products: map<Sku, Product>, sku: Sku, delta: int): map<Sku, Product>
    requires sku in products
  {
    products[sku := products[sku].(available := products[sku].available + delta)]
  }

  function Reserve(t: Tables, id: OrderId, sku: Sku, qty: int): ReserveResult {
    if !CanTake(t.products, sku, qty) then Short
    else if id in t.reservations then Duplicate
    else Taken(t.(products := Adjust(t.products, sku, -qty),
                  reservations := t.reservations[id := Reservation(sku, qty, Reserved)]))
  }

  /** Flip the reservation and give the quantity back; no reservation, or one already
      released, leaves everything alone. */
  function Release(t: Tables, id: OrderId): Tables {
    if id !in t.reservations || t.reservations[id].status == Released then t
    else
      var r := t.reservations[id];
      t.(products := if r.sku in t.products then Adjust(t.products, r.sku, r.quantity) else t.products,
         reservations := t.reservations[id := r.(status := Released)])
  }

  /** A second row under the same event id violates the unique index. */
  function InsertOutbox(t: Tables, eid: EventId, event: InventoryEvent): Option<Tables> {
    if eid in t.outbox then None else Some(t.(outbox := t.outbox[eid := Fresh(event)]))
  }

  /** The body of the order-event transaction; `newEid` is the id drawn for its outbox row. */
  function Handle(t: Tables, event: OrderEvent, newEid: EventId): Option<Tables> {
    match event
    case OrderCreated(id, _, sku, qty, _, _) =>
      (match Reserve(t, id, sku, qty)
       case Taken(t') => InsertOutbox(t', newEid, InventoryReserved(id))
       case Short => InsertOutbox(t, newEid, ReservationFailed(id, OutOfStock))
       case Duplicate => None)
    case OrderCancelled(id, _, _, _) => Some(Release(t, id))
    case OtherOrderEvent => Some(t)
  }

  function Process(db: Db, msg: Msg<OrderEvent>, newEid: EventId): Option<Db> {
    Dedup.Process(db, msg.eid, (t: Tables) => Handle(t, msg.event, newEid))
  }

  function Commit(db: Db, msg: Msg<OrderEvent>, newEid: EventId): Db {
    Dedup.After(db, msg.eid, (t: Tables) => Handle(t, msg.event, newEid))
  }

  /** The transaction, case by case. */
  lemma ProcessIs(db: Db, msg: Msg<OrderEvent>, newEid: EventId)
    ensures Process(db, msg, newEid) ==
      if msg.eid in db.processed then Some(db)
      else match Handle(db.data, msg.event, newEid)
           case None => None
           case Some(t) => Some(Dedup.Store(t, db.processed[msg.eid := |db.processed|]))
    ensures Commit(db, msg, newEid) == match Process(db, msg, newEid) case None => db case Some(d) => d
  {
  }

  // ---------------------------------------------------------------- conservation of stock

  /** The quantities that reservations currently hold against a product. */
  ghost function Held(reservations: map<OrderId, Reservation>, sku: Sku): map<OrderId, int> {
    map id | id in reservations && reservations[id].status == Reserved && reservations[id].sku == sku
      :: reservations[id].quantity
  }

  /** `available == total - SUM(active reservations)` for every product, and every
      reservation is for a product that exists. */
  ghost predicate Conserved(t: Tables) {
    && (forall sku :: sku in t.products ==>
         t.products[sku].available + Total(Held(t.reservations, sku)) == t.products[sku].total)
    && (forall id :: id in t.reservations ==> t.reservations[id].sku in t.products)
  }

  ghost predicate PositiveQuantities(t: Tables) {
    forall id :: id in t.reservations ==> t.reservations[id].quantity >= 1
  }

  lemma HeldAfterInsert(rs: map<OrderId, Reservation>, id: OrderId, r: Reservation, sku: Sku)
    requires id !in rs && r.status == Reserved
    ensures Total(Held(rs[id := r], sku)) == Total(Held(rs, sku)) + if r.sku == sku then r.quantity else 0
  {
    if r.sku == sku {
      TotalInsert(Held(rs, sku), id, r.quantity);
      assert Held(rs[id := r], sku) == Held(rs, sku)[id := r.quantity];
    } else {
      assert Held(rs[id := r], sku) == Held(rs, sku);
    }
  }

  lemma HeldAfterRelease(rs: map<OrderId, Reservation>, id: OrderId, sku: Sku)
    requires id in rs && rs[id].status == Reserved
    ensures Total(Held(rs[id := rs[id].(status := Released)], sku))
         == Total(Held(rs, sku)) - if rs[id].sku == sku then rs[id].quantity else 0
  {
    var after := rs[id := rs[id].(status := Released)];
    if rs[id].sku == sku {
      TotalRemove(Held(rs, sku), id);
      assert Held(after, sku) == Held(rs, sku) - {id};
    } else {
      assert Held(after, sku) == Held(rs, sku);
    }
  }

  /** Reserving moves `qty` from available to held: the sum is the product's total before and after. */
  lemma ReserveConserves(t: Tables, id: OrderId, sku: Sku, qty: int)
    requires Conserved(t)
    ensures Reserve(t, id, sku, qty).Taken? ==> Conserved(Reserve(t, id, sku, qty).tables)
  {
    if Reserve(t, id, sku, qty).Taken? {
      forall s | s in t.products {
        HeldAfterInsert(t.reservations, id, Reservation(sku, qty, Reserved), s);
      }
    }
  }

  lemma ReleaseConserves(t: Tables, id: OrderId)
    requires Conserved(t)
    ensures Conserved(Release(t, id))
  {
    if id in t.reservations && t.reservations[id].status == Reserved {
      forall s | s in t.products {
        HeldAfterRelease(t.reservations, id, s);
      }
    }
  }

  /** Every handling of every event, committed or rolled back, keeps stock conserved. */
  lemma CommitConserves(db: Db, msg: Msg<OrderEvent>, newEid: EventId)
    requires Conserved(db.data)
    ensures Conserved(Commit(db, msg, newEid).data)
  {
    match msg.event
    case OrderCreated(id, _, sku, qty, _, _) => ReserveConserves(db.data, id, sku, qty);
    case OrderCancelled(id, _, _, _) => ReleaseConserves(db.data, id);
    case OtherOrderEvent =>
  }

  /** With quantities of at least 1, conservation keeps what is held between 0 and the total. */
  lemma HeldWithinTotal(t: Tables, sku: Sku)
    requires Conserved(t) && PositiveQuantities(t) && sku in t.products
    ensures 0 <= Total(Held(t.reservations, sku))
    ensures t.products[sku].available <= t.products[sku].total
  {
    TotalMonotone(map[], Held(t.reservations, sku));
  }

  // ---------------------------------------------------------------- bounds of stock

  ghost predicate InBounds(products: map<Sku, Product>) {
    forall sku :: sku in products ==> 0 <= products[sku].available <= products[sku].total
  }

  /** Stock is conserved, none of it is negative, and every reservation is for at least 1. */
  ghost predicate Sound(t: Tables) {
    && Conserved(t) && PositiveQuantities(t)
    && (forall sku :: sku in t.products ==> t.products[sku].available >= 0)
  }

  lemma SoundIsInBounds(t: Tables)
    requires Sound(t)
    ensures InBounds(t.products)
  {
    forall sku | sku in t.products ensures 0 <= t.products[sku].available <= t.products[sku].total {
      HeldWithinTotal(t, sku);
    }
  }

  /** The same products, with the same totals. */
  ghost predicate SameTotals(before: map<Sku, Product>, after: map<Sku, Product>) {
    after.Keys == before.Keys && forall sku :: sku in before ==> after[sku].total == before[sku].total
  }

  /** A handler keeps the tables sound as long as no order for less than 1 reaches it. */
  lemma HandleKeepsSound(t: Tables, event: OrderEvent, newEid: EventId)
    requires Sound(t) && Handle(t, event, newEid).Some?
    requires event.OrderCreated? ==> event.quantity >= 1
    ensures Sound(Handle(t, event, newEid).value)
    ensures SameTotals(t.products, Handle(t, event, newEid).value.products)
  {
    match event
    case OrderCreated(id, _, sku, qty, _, _) =>
      if Reserve(t, id, sku, qty).Taken? {
        ReserveKeepsSound(t, id, sku, qty);
      }
    case OrderCancelled(id, _, _, _) => ReleaseKeepsSound(t, id);
    case OtherOrderEvent =>
  }

  lemma ReserveKeepsSound(t: Tables, id: OrderId, sku: Sku, qty: int)
    requires Sound(t) && qty >= 1 && Reserve(t, id, sku, qty).Taken?
    ensures Sound(Reserve(t, id, sku, qty).tables)
    ensures SameTotals(t.products, Reserve(t, id, sku, qty).tables.products)
  {
    ReserveConserves(t, id, sku, qty);
    ReserveMoves(t, id, sku, qty);
  }

  lemma ReserveMoves(t: Tables, id: OrderId, sku: Sku, qty: int)
    requires PositiveQuantities(t) && qty >= 1 && Reserve(t, id, sku, qty).Taken?
    ensures var t' := Reserve(t, id, sku, qty).tables;
      && PositiveQuantities(t') && SameTotals(t.products, t'.products)
      && forall s :: s in t.products ==> t'.products[s].available >= if s == sku then 0 else t.products[s].available
  {
  }

  lemma ReleaseKeepsSound(t: Tables, id: OrderId)
    requires Sound(t)
    ensures Sound(Release(t, id)) && SameTotals(t.products, Release(t, id).products)
  {
    ReleaseConserves(t, id);
  }

  /** Table by table: a grant keeps available within 0..total exactly when what is left is at
      most the total. It is never below 0, whatever the quantity. */
  lemma GrantStaysInBounds(t: Tables, id: OrderId, sku: Sku, qty: int)
    requires InBounds(t.products) && Reserve(t, id, sku, qty).Taken?
    ensures Reserve(t, id, sku, qty).tables.products[sku].available >= 0
    ensures InBounds(Reserve(t, id, sku, qty).tables.products)
      <==> t.products[sku].available - qty <= t.products[sku].total
  {
    var after := Reserve(t, id, sku, qty).tables.products;
    assert after[sku].available == t.products[sku].available - qty;
  }

  /** Every grant of this quantity keeps sound tables sound. */
  ghost predicate Harmless(qty: int) {
    forall t: Tables, id, sku :: Sound(t) && Reserve(t, id, sku, qty).Taken? ==> Sound(Reserve(t, id, sku, qty).tables)
  }

  /** Which quantities keep 0 <= available <= total on all tables: exactly those not below 0, of
      which 0 is never granted. The API rejects quantities below 1, so any other reaches the
      inventory only as a message from elsewhere; the inventory itself does not check. */
  lemma HarmlessIffNotNegative(qty: int)
    ensures Harmless(qty) <==> qty >= 0
    ensures qty == 0 ==> forall t: Tables, id, sku :: Reserve(t, id, sku, qty) == Short
  {
    if qty >= 0 {
      forall t: Tables, id, sku | Sound(t) && Reserve(t, id, sku, qty).Taken?
        ensures Sound(Reserve(t, id, sku, qty).tables)
      {
        ReserveConserves(t, id, sku, qty);
      }
    } else {
      NegativeQuantityHarms(qty);
    }
  }

  lemma NegativeQuantityHarms(qty: int)
    requires qty < 0
    ensures !Harmless(qty)
  {
    var t := Tables(map["SKU-003" := Product(10, 10)], map[], map[]);
    assert Held(t.reservations, "SKU-003") == map[];
    var t' := Reserve(t, 1, "SKU-003", qty).tables;
    assert t'.products["SKU-003"].available > 10;
    if Sound(t') {
      SoundIsInBounds(t');
      assert false;
    }
  }
}
