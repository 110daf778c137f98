/**
 The order endpoints (PedidoController) as atomic steps on a database value: each
 request either commits its whole effect or leaves the database exactly as it was.
 These functions specify the controller's methods; the lemmas state what the
 endpoints guarantee, alone and in sequence.
 */
module Orders {
  import opened Domain
  import opened Ledger
  import StoreRequest
  import UpdateRequest

  /** The actor's permissions that the endpoints consult. */
  datatype Permissions = Permissions(crear: bool, procesar: bool, cancelar: bool)

  datatype Denial =
    | MissingPermission(name: string)
    | CannotCancelDelivered
    | CannotModifyDelivered
    | CannotDeleteDelivered

  datatype Response =
    | Created(id: OrderId)
    | Updated(id: OrderId)
    | Cancelled(id: OrderId)
    | Deleted(id: OrderId)
    | OrderNotFound(id: OrderId)
    | ProductNotFound(product: ProductId)
    | InsufficientStock(product: ProductId, available: nat)
    | Forbidden(denial: Denial)

  /** The HTTP status each response is sent with. */
  function StatusCode(r: Response): int
  {
    match r
    case Created(_) => 201
    case Updated(_) => 200
    case Cancelled(_) => 200
    case Deleted(_) => 200
    case OrderNotFound(_) => 404
    case ProductNotFound(_) => 404
    case InsufficientStock(_, _) => 400
    case Forbidden(_) => 403
  }

  /** Product prices, stock records, orders with their lines, and the next order id. */
  datatype Db = Db(catalog: Catalog, stock: Stock, orders: map<OrderId, Order>, nextId: nat)

  /** Every stored order has an id below the next one, so a new order never overwrites. */
  predicate WellFormed(db: Db)
  {
    forall id :: id in db.orders ==> id < db.nextId
  }

  /** Every order's total is the sum of its lines' subtotals. */
  predicate TotalsConsistent(db: Db)
  {
    forall id :: id in db.orders ==> db.orders[id].total == LinesTotal(db.orders[id].lines)
  }

  datatype Outcome = Outcome(db: Db, resp: Response)

  /** The owner of a new order: the requested user, else the authenticated actor, else user 1. */
  function Owner(requested: Option<UserId>, actor: Option<UserId>): UserId
  {
    requested.GetOr(actor.GetOr(1))
  }

  /** POST: create an order from validated data, deducting stock line by line. */
  function StoreTx(db: Db, perms: Permissions, actor: Option<UserId>, data: StoreRequest.StoreData): Outcome
  {
    if !perms.crear then Outcome(db, Forbidden(MissingPermission("pedidos.crear")))
    else match Place(db.catalog, db.stock, data.lines)
      case Failed(NoProduct(p)) => Outcome(db, ProductNotFound(p))
      case Failed(Short(p, available)) => Outcome(db, InsufficientStock(p, available))
      case Placed(st) =>
        var o := Order(Owner(data.userId, actor), data.estado.GetOr(Pendiente), st.total, st.lines);
        Outcome(db.(stock := st.stock, orders := db.orders[db.nextId := o], nextId := db.nextId + 1),
                Created(db.nextId))
  }

  /** Whether an update request takes the cancellation path: it asks for cancelado and
      the order is not cancelado yet. */
  predicate AsksToCancel(o: Order, data: UpdateRequest.UpdateData)
  {
    data.estado == Some(Cancelado) && o.estado != Cancelado
  }

  /** PUT/PATCH: either cancel (give every line back to stock) or overwrite the
      validated fields. */
  function UpdateTx(db: Db, perms: Permissions, id: OrderId, data: UpdateRequest.UpdateData): Outcome
  {
    if !perms.procesar then Outcome(db, Forbidden(MissingPermission("pedidos.procesar")))
    else if id !in db.orders then Outcome(db, OrderNotFound(id))
    else
      var o := db.orders[id];
      if AsksToCancel(o, data) then
        if o.estado == Entregado then Outcome(db, Forbidden(CannotCancelDelivered))
        else if !perms.cancelar then Outcome(db, Forbidden(MissingPermission("pedidos.cancelar")))
        else Outcome(db.(stock := Restore(db.stock, o.lines), orders := db.orders[id := o.(estado := Cancelado)]),
                     Cancelled(id))
      else if o.estado == Entregado then Outcome(db, Forbidden(CannotModifyDelivered))
      else Outcome(db.(orders := db.orders[id := o.(estado := data.estado.GetOr(o.estado),
                                                     total := data.total.GetOr(o.total))]),
                   Updated(id))
  }

  /** DELETE: give every line back to stock and remove the order. */
  function DestroyTx(db: Db, perms: Permissions, id: OrderId): Outcome
  {
    if !perms.cancelar then Outcome(db, Forbidden(MissingPermission("pedidos.cancelar")))
    else if id !in db.orders then Outcome(db, OrderNotFound(id))
    else if db.orders[id].estado == Entregado then Outcome(db, Forbidden(CannotDeleteDelivered))
    else Outcome(db.(stock := Restore(db.stock, db.orders[id].lines), orders := db.orders - {id}), Deleted(id))
  }

  // ---------------------------------------------------------------------------
  // Order creation

  /** Creation is all or nothing: without pedidos.crear it is refused with 403; it
      succeeds exactly when the actor may create and
      every line can be placed; otherwise nothing changes, and the response is the
      first failing line's (404 for a missing product, 400 with the stock that line saw). */
  lemma StoreAllOrNothing(db: Db, perms: Permissions, actor: Option<UserId>, data: StoreRequest.StoreData)
    ensures !perms.crear ==> StoreTx(db, perms, actor, data) == Outcome(db, Forbidden(MissingPermission("pedidos.crear")))
    ensures var out := StoreTx(db, perms, actor, data);
            out.resp.Created? <==> perms.crear && Place(db.catalog, db.stock, data.lines).Placed?
    ensures var out := StoreTx(db, perms, actor, data);
            !out.resp.Created? ==> out.db == db
    ensures var out := StoreTx(db, perms, actor, data);
            perms.crear && Place(db.catalog, db.stock, data.lines).Failed? ==>
              match Place(db.catalog, db.stock, data.lines).failure
              case NoProduct(p) => out.resp == ProductNotFound(p) && StatusCode(out.resp) == 404
              case Short(p, d) => out.resp == InsufficientStock(p, d) && StatusCode(out.resp) == 400
  {
  }

  /** A successful creation adds one fresh order and nothing else: its owner is the
      requested user or the actor, its status the requested one or pendiente, its
      lines the requested products and quantities at catalog prices, its total their
      sum; each product's stock drops by exactly its requested quantity. */
  lemma StoreCommits(db: Db, perms: Permissions, actor: Option<UserId>, data: StoreRequest.StoreData)
    requires WellFormed(db)
    requires StoreTx(db, perms, actor, data).resp.Created?
    ensures var out := StoreTx(db, perms, actor, data);
            var id := out.resp.id;
            id == db.nextId && id !in db.orders && WellFormed(out.db) &&
            out.db.catalog == db.catalog &&
            out.db.orders.Keys == db.orders.Keys + {id} &&
            (forall j :: j in db.orders ==> out.db.orders[j] == db.orders[j]) &&
            out.db.orders[id].owner == Owner(data.userId, actor) &&
            out.db.orders[id].estado == data.estado.GetOr(Pendiente) &&
            Mirrors(out.db.orders[id].lines, data.lines) &&
            (forall i :: 0 <= i < |data.lines| ==>
               data.lines[i].product in db.catalog &&
               out.db.orders[id].lines[i].unitPrice == db.catalog[data.lines[i].product]) &&
            out.db.orders[id].total == LinesTotal(out.db.orders[id].lines) &&
            out.db.stock.Keys == db.stock.Keys &&
            (forall p :: p in db.stock ==> out.db.stock[p] + Demand(data.lines, p) == db.stock[p])
  {
    PlacedDeducts(db.catalog, db.stock, data.lines);
    PlacedLines(db.catalog, db.stock, data.lines);
  }

  /** The client's unit prices never influence creation. */
  lemma StoreIgnoresClientPrices(db: Db, perms: Permissions, actor: Option<UserId>,
                                 data: StoreRequest.StoreData, other: StoreRequest.StoreData)
    requires other.userId == data.userId && other.estado == data.estado
    requires |other.lines| == |data.lines|
    requires forall i :: 0 <= i < |data.lines| ==>
               other.lines[i].product == data.lines[i].product && other.lines[i].qty == data.lines[i].qty
    ensures StoreTx(db, perms, actor, other) == StoreTx(db, perms, actor, data)
  {
    PricesIgnored(db.catalog, db.stock, data.lines, other.lines);
  }

  lemma {:induction false} PricesIgnored(catalog: Catalog, stock: Stock, items: seq<Item>, others: seq<Item>)
    requires |others| == |items|
    requires forall i :: 0 <= i < |items| ==> others[i].product == items[i].product && others[i].qty == items[i].qty
    ensures Place(catalog, stock, others) == Place(catalog, stock, items)
  {
    if |items| > 0 {
      var n := |items| - 1;
      PricesIgnored(catalog, stock, items[..n], others[..n]);
    }
  }

  // ---------------------------------------------------------------------------
  // Update and cancellation

  /** An update never changes the catalog, the set of orders, any order's owner or
      lines, nor any other order; stock changes only on the cancellation path, which
      gives every line of the order back and sets cancelado. Every refusal (403 for a
      missing permission or a delivered order, 404 for an absent one) changes nothing. */
  lemma UpdateEffect(db: Db, perms: Permissions, id: OrderId, data: UpdateRequest.UpdateData)
    ensures var out := UpdateTx(db, perms, id, data);
            out.db.catalog == db.catalog && out.db.nextId == db.nextId &&
            out.db.orders.Keys == db.orders.Keys &&
            (forall j :: j in db.orders ==>
               out.db.orders[j].owner == db.orders[j].owner && out.db.orders[j].lines == db.orders[j].lines) &&
            (forall j :: j in db.orders && j != id ==> out.db.orders[j] == db.orders[j])
    ensures var out := UpdateTx(db, perms, id, data);
            out.resp.Cancelled? <==>
              perms.procesar && perms.cancelar && id in db.orders && AsksToCancel(db.orders[id], data) &&
              db.orders[id].estado != Entregado
    ensures var out := UpdateTx(db, perms, id, data);
            out.resp.Cancelled? ==>
              out.db.stock == Restore(db.stock, db.orders[id].lines) && out.db.orders[id].estado == Cancelado &&
              out.db.orders[id].total == db.orders[id].total
    ensures var out := UpdateTx(db, perms, id, data);
            !out.resp.Cancelled? ==> out.db.stock == db.stock
    ensures var out := UpdateTx(db, perms, id, data);
            out.resp.Cancelled? || out.resp.Updated? || out.db == db
    ensures var out := UpdateTx(db, perms, id, data);
            (!perms.procesar ==> out == Outcome(db, Forbidden(MissingPermission("pedidos.procesar")))) &&
            (perms.procesar && id !in db.orders ==> out == Outcome(db, OrderNotFound(id)))
    ensures var out := UpdateTx(db, perms, id, data);
            perms.procesar && id in db.orders && AsksToCancel(db.orders[id], data) ==>
              (db.orders[id].estado == Entregado ==> out == Outcome(db, Forbidden(CannotCancelDelivered))) &&
              (db.orders[id].estado != Entregado && !perms.cancelar ==>
                 out == Outcome(db, Forbidden(MissingPermission("pedidos.cancelar")))) &&
              (db.orders[id].estado != Entregado && perms.cancelar ==> out.resp == Cancelled(id))
  {
  }

  /** The plain path overwrites the status and total that were sent, nothing else; it
      refuses delivered orders. */
  lemma PlainUpdateOverwrites(db: Db, perms: Permissions, id: OrderId, data: UpdateRequest.UpdateData)
    requires perms.procesar && id in db.orders && !AsksToCancel(db.orders[id], data)
    ensures var out := UpdateTx(db, perms, id, data);
            if db.orders[id].estado == Entregado then out == Outcome(db, Forbidden(CannotModifyDelivered))
            else out.resp == Updated(id) && out.db.stock == db.stock &&
                 out.db.orders[id] == db.orders[id].(estado := data.estado.GetOr(db.orders[id].estado),
                                                      total := data.total.GetOr(db.orders[id].total))
  {
  }

  /** An empty update leaves the database as it was. */
  lemma EmptyUpdateChangesNothing(db: Db, perms: Permissions, id: OrderId)
    ensures UpdateTx(db, perms, id, UpdateRequest.UpdateData(None, None)).db == db
  {
    if perms.procesar && id in db.orders && db.orders[id].estado != Entregado {
      var o := db.orders[id];
      assert db.orders[id := o] == db.orders;
    }
  }

  /** A cancelled order asked to cancel again takes the plain path: no stock moves. */
  lemma RecancelMovesNoStock(db: Db, perms: Permissions, id: OrderId, data: UpdateRequest.UpdateData)
    requires id in db.orders && db.orders[id].estado == Cancelado
    ensures UpdateTx(db, perms, id, data).db.stock == db.stock
  {
  }

  // ---------------------------------------------------------------------------
  // Deletion

  /** Deletion of a present, undelivered order by an actor with pedidos.cancelar gives
      every line back to stock and removes only that order, whatever its status
      (cancelado included); in every other case nothing changes, with 403 for a missing
      permission or a delivered order and 404 for an absent one. A second deletion finds
      no order. */
  lemma DestroyEffect(db: Db, perms: Permissions, id: OrderId)
    ensures var out := DestroyTx(db, perms, id);
            out.resp.Deleted? <==> perms.cancelar && id in db.orders && db.orders[id].estado != Entregado
    ensures var out := DestroyTx(db, perms, id);
            (!perms.cancelar ==> out == Outcome(db, Forbidden(MissingPermission("pedidos.cancelar")))) &&
            (perms.cancelar && id !in db.orders ==> out == Outcome(db, OrderNotFound(id))) &&
            (perms.cancelar && id in db.orders && db.orders[id].estado == Entregado ==>
               out == Outcome(db, Forbidden(CannotDeleteDelivered)))
    ensures var out := DestroyTx(db, perms, id);
            out.resp.Deleted? ==>
              out.resp == Deleted(id) && out.db.catalog == db.catalog && out.db.nextId == db.nextId &&
              out.db.stock == Restore(db.stock, db.orders[id].lines) &&
              out.db.orders.Keys == db.orders.Keys - {id} &&
              (forall j :: j in out.db.orders ==> out.db.orders[j] == db.orders[j]) &&
              DestroyTx(out.db, perms, id) == Outcome(out.db, OrderNotFound(id))
    ensures var out := DestroyTx(db, perms, id);
            !out.resp.Deleted? ==> out.db == db
  {
  }

  /** Delivered orders are frozen: no update, cancellation or deletion changes anything. */
  lemma DeliveredIsFrozen(db: Db, perms: Permissions, id: OrderId, data: UpdateRequest.UpdateData)
    requires id in db.orders && db.orders[id].estado == Entregado
    ensures UpdateTx(db, perms, id, data).db == db && UpdateTx(db, perms, id, data).resp.Forbidden?
    ensures DestroyTx(db, perms, id).db == db && DestroyTx(db, perms, id).resp.Forbidden?
  {
  }

  // ---------------------------------------------------------------------------
  // Invariants kept by every endpoint

  /** Ids stay fresh under every endpoint. */
  lemma WellFormedKept(db: Db, perms: Permissions, actor: Option<UserId>, id: OrderId,
                       sd: StoreRequest.StoreData, ud: UpdateRequest.UpdateData)
    requires WellFormed(db)
    ensures WellFormed(StoreTx(db, perms, actor, sd).db)
    ensures WellFormed(UpdateTx(db, perms, id, ud).db)
    ensures WellFormed(DestroyTx(db, perms, id).db)
  {
  }

  /** Creation, cancellation and deletion keep every total equal to the sum of its
      lines, and so does a plain update that sends no total; an update that sends a
      total stores it as given. */
  lemma TotalsKept(db: Db, perms: Permissions, actor: Option<UserId>, id: OrderId,
                   sd: StoreRequest.StoreData, ud: UpdateRequest.UpdateData)
    requires TotalsConsistent(db)
    ensures TotalsConsistent(StoreTx(db, perms, actor, sd).db)
    ensures TotalsConsistent(DestroyTx(db, perms, id).db)
    ensures ud.total.None? || UpdateTx(db, perms, id, ud).resp.Cancelled? ==>
              TotalsConsistent(UpdateTx(db, perms, id, ud).db)
    ensures UpdateTx(db, perms, id, ud).resp.Updated? && ud.total.Some? ==>
              UpdateTx(db, perms, id, ud).db.orders[id].total == ud.total.value
  {
    if StoreTx(db, perms, actor, sd).resp.Created? {
      PlacedLines(db.catalog, db.stock, sd.lines);
    }
  }

  // ---------------------------------------------------------------------------
  // Sequences of requests

  /** Creating an order and then cancelling it gives every product its original stock. */
  lemma StoreThenCancelRestoresStock(db: Db, perms: Permissions, actor: Option<UserId>,
                                     data: StoreRequest.StoreData, total: Option<nat>)
    requires WellFormed(db)
    requires perms.procesar && perms.cancelar
    requires StoreTx(db, perms, actor, data).resp.Created?
    requires data.estado != Some(Cancelado) && data.estado != Some(Entregado)
    ensures var s1 := StoreTx(db, perms, actor, data);
            var s2 := UpdateTx(s1.db, perms, s1.resp.id, UpdateRequest.UpdateData(Some(Cancelado), total));
            s2.resp == Cancelled(s1.resp.id) && s2.db.stock == db.stock
  {
    PlaceRestoreRoundTrip(db.catalog, db.stock, data.lines);
  }

  /** Creating an order and then deleting it gives every product its original stock and
      leaves the orders as they were. */
  lemma StoreThenDestroyRestoresStock(db: Db, perms: Permissions, actor: Option<UserId>,
                                      data: StoreRequest.StoreData)
    requires WellFormed(db)
    requires StoreTx(db, perms, actor, data).resp.Created?
    requires perms.cancelar && data.estado != Some(Entregado)
    ensures var s1 := StoreTx(db, perms, actor, data);
            var s2 := DestroyTx(s1.db, perms, s1.resp.id);
            s2.resp == Deleted(s1.resp.id) && s2.db.stock == db.stock && s2.db.orders == db.orders
  {
    PlaceRestoreRoundTrip(db.catalog, db.stock, data.lines);
    var s1 := StoreTx(db, perms, actor, data);
    assert s1.db.orders - {s1.resp.id} == db.orders;
  }

  /** Deletion does not check for cancelado: cancelling and then deleting an order gives
      its quantities back twice, raising each product's stock by the order's quantity. */
  lemma CancelThenDestroyRestoresTwice(db: Db, perms: Permissions, id: OrderId, total: Option<nat>)
    requires perms.procesar && perms.cancelar
    requires id in db.orders && db.orders[id].estado != Cancelado && db.orders[id].estado != Entregado
    ensures var s1 := UpdateTx(db, perms, id, UpdateRequest.UpdateData(Some(Cancelado), total));
            var s2 := DestroyTx(s1.db, perms, id);
            s1.resp == Cancelled(id) && s2.resp == Deleted(id) &&
            s2.db.stock.Keys == db.stock.Keys &&
            forall p :: p in db.stock ==>
              s2.db.stock[p] == db.stock[p] + 2 * LineDemand(db.orders[id].lines, p)
  {
    var lines := db.orders[id].lines;
    RestoreCredits(db.stock, lines);
    RestoreCredits(Restore(db.stock, lines), lines);
  }

  /** A plain update may move a cancelled order back to another status without taking
      stock again; cancelling it once more gives its quantities back a second time. */
  lemma ReviveThenCancelRestoresAgain(db: Db, perms: Permissions, id: OrderId)
    requires perms.procesar && perms.cancelar
    requires id in db.orders && db.orders[id].estado == Cancelado
    ensures var s1 := UpdateTx(db, perms, id, UpdateRequest.UpdateData(Some(Pendiente), None));
            var s2 := UpdateTx(s1.db, perms, id, UpdateRequest.UpdateData(Some(Cancelado), None));
            s1.resp == Updated(id) && s1.db.stock == db.stock &&
            s2.resp == Cancelled(id) && s2.db.stock == Restore(db.stock, db.orders[id].lines)
  {
  }
}
