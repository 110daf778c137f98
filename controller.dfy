/**
 The order controller (PedidoController) as an object holding the database tables it
 works on. Each endpoint is a method that updates the tables in place, step by step as
 the controller does, and is proved to have exactly the effect of the corresponding
 atomic step in module Orders.
 */
module Controller {
  import opened Domain
  import opened Ledger
  import opened Orders
  import StoreRequest
  import UpdateRequest

  class OrderEngine {
    /** Product prices in cents (read, never written, by these endpoints). */
    var catalog: Catalog
    /** Quantity of each product's first stock record. */
    var stock: Stock
    /** Orders with their lines, by id. */
    var orders: map<OrderId, Order>
    /** The id the next created order receives. */
    var nextId: nat

    function Snapshot(): Db
      reads this
    {
      Db(catalog, stock, orders, nextId)
    }

    predicate Valid()
      reads this
    {
      WellFormed(Snapshot())
    }

    constructor (catalog: Catalog, stock: Stock)
      ensures Valid()
      ensures Snapshot() == Db(catalog, stock, map[], 1)
    {
      this.catalog := catalog;
      this.stock := stock;
      this.orders := map[];
      this.nextId := 1;
    }

    /** Order creation. The order header is written first, then the lines are walked
        in order (DeductLines); the first missing product or short stock rolls the whole
        transaction back, otherwise the lines and the total are written and committed. */
    method Store(perms: Permissions, actor: Option<UserId>, data: StoreRequest.StoreData) returns (resp: Response)
      requires Valid()
      modifies this
      ensures Valid()
      ensures Outcome(Snapshot(), resp) == StoreTx(old(Snapshot()), perms, actor, data)
      ensures !resp.Created? ==> Snapshot() == old(Snapshot())
    {
      if !perms.crear {
        resp := Forbidden(MissingPermission("pedidos.crear"));
        return;
      }
      // begin transaction
      var savedStock, savedOrders, savedNextId := stock, orders, nextId;
      var owner := Owner(data.userId, actor);
      var estado := if data.estado.Some? then data.estado.value else Pendiente;
      var id := nextId;
      orders := orders[id := Order(owner, estado, 0, [])];
      nextId := nextId + 1;

      var failure, detalles, total := DeductLines(data.lines);
      if failure.Some? {
        stock, orders, nextId := savedStock, savedOrders, savedNextId;  // roll back
        match failure.value {
          case NoProduct(p) => resp := ProductNotFound(p);
          case Short(p, disponible) => resp := InsufficientStock(p, disponible);
        }
        return;
      }
      orders := orders[id := Order(owner, estado, total, detalles)];
      // commit
      resp := Created(id);
    }

    /** The loop of order creation: each line's product must exist, and its quantity is
        deducted from the stock left by the earlier lines only when the product has a
        stock record holding at least that much; the running total accumulates quantity
        times catalog price. Stops at the first line that cannot be placed. */
    method DeductLines(items: seq<Item>) returns (failure: Option<Failure>, detalles: seq<Line>, total: nat)
      modifies this`stock
      ensures failure.None? ==> Place(catalog, old(stock), items) == Placed(Staged(stock, detalles, total))
      ensures failure.Some? ==> Place(catalog, old(stock), items) == Failed(failure.value)
    {
      total := 0;
      detalles := [];
      var i := 0;
      while i < |items|
        invariant 0 <= i <= |items|
        invariant Place(catalog, old(stock), items[..i]) == Placed(Staged(stock, detalles, total))
      {
        var item := items[i];
        assert items[..i + 1][..i] == items[..i];
        if item.product !in catalog {
          failure := Some(NoProduct(item.product));
          FailurePersists(catalog, old(stock), items, i + 1);
          return;
        }
        var precio := catalog[item.product];
        var subtotal := item.qty * precio;
        if item.product in stock && stock[item.product] >= item.qty {
          stock := stock[item.product := stock[item.product] - item.qty];
          total := total + subtotal;
          detalles := detalles + [Line(item.product, item.qty, precio)];
        } else {
          var disponible := if item.product in stock then stock[item.product] else 0;
          failure := Some(Short(item.product, disponible));
          FailurePersists(catalog, old(stock), items, i + 1);
          return;
        }
        i := i + 1;
      }
      assert items[..i] == items;
      failure := None;
    }

    /** Give each line's quantity back to its product's stock record, skipping products
        that have none. */
    method Revert(lines: seq<Line>)
      modifies this`stock
      ensures stock == Restore(old(stock), lines)
    {
      var j := 0;
      while j < |lines|
        invariant 0 <= j <= |lines|
        invariant stock == Restore(old(stock), lines[..j])
      {
        var detalle := lines[j];
        assert lines[..j + 1][..j] == lines[..j];
        if detalle.product in stock {
          stock := stock[detalle.product := stock[detalle.product] + detalle.qty];
        }
        j := j + 1;
      }
      assert lines[..j] == lines;
    }

    /** Order update: a request for cancelado on an order not yet cancelado takes the
        cancellation path (refused for delivered orders and for actors without
        pedidos.cancelar); any other request overwrites the validated fields unless the
        order is delivered. */
    method Update(perms: Permissions, id: OrderId, data: UpdateRequest.UpdateData) returns (resp: Response)
      requires Valid()
      modifies this
      ensures Valid()
      ensures Outcome(Snapshot(), resp) == UpdateTx(old(Snapshot()), perms, id, data)
    {
      if !perms.procesar {
        resp := Forbidden(MissingPermission("pedidos.procesar"));
        return;
      }
      if id !in orders {
        resp := OrderNotFound(id);
        return;
      }
      var pedido := orders[id];
      if data.estado.Some? && data.estado.value == Cancelado && pedido.estado != Cancelado {
        if pedido.estado == Entregado {
          resp := Forbidden(CannotCancelDelivered);
          return;
        }
        if !perms.cancelar {
          resp := Forbidden(MissingPermission("pedidos.cancelar"));
          return;
        }
        Revert(pedido.lines);
        orders := orders[id := pedido.(estado := Cancelado)];
        resp := Cancelled(id);
        return;
      }
      if pedido.estado == Entregado {
        resp := Forbidden(CannotModifyDelivered);
        return;
      }
      var estado := if data.estado.Some? then data.estado.value else pedido.estado;
      var total := if data.total.Some? then data.total.value else pedido.total;
      orders := orders[id := pedido.(estado := estado, total := total)];
      resp := Updated(id);
    }

    /** Order deletion: refused for absent and delivered orders; otherwise every line is
        given back to stock and the order removed. */
    method Destroy(perms: Permissions, id: OrderId) returns (resp: Response)
      requires Valid()
      modifies this
      ensures Valid()
      ensures Outcome(Snapshot(), resp) == DestroyTx(old(Snapshot()), perms, id)
    {
      if !perms.cancelar {
        resp := Forbidden(MissingPermission("pedidos.cancelar"));
        return;
      }
      if id !in orders {
        resp := OrderNotFound(id);
        return;
      }
      var pedido := orders[id];
      if pedido.estado == Entregado {
        resp := Forbidden(CannotDeleteDelivered);
        return;
      }
      Revert(pedido.lines);
      orders := orders - {id};
      resp := Deleted(id);
    }
  }
}
