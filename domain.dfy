/**
 Entities of the order-management API: products are identified by id and priced
 in integer cents, stock is the quantity of a product's first stock record, and
 an order (pedido) owns an ordered list of lines (detalles de pedido).
 */
module Domain {

  type ProductId = int
  type UserId = int
  type OrderId = nat

  datatype Option<+T> = None | Some(value: T) {
    function GetOr(default: T): T {
      if Some? then value else default
    }
  }

  /** Order status. The request validation accepts pendiente, enviado,
      cancelado and entregado; the table's enum lists pendiente, procesando,
      enviado and entregado. The model keeps all five. */
  datatype Estado = Pendiente | Procesando | Enviado | Entregado | Cancelado

  /** A request field: left out, sent as null, or sent with a value. */
  datatype Field<+T> = Absent | Null | Present(value: T)

  /** The wire name of each status. */
  function EstadoName(e: Estado): string
  {
    match e
    case Pendiente => "pendiente"
    case Procesando => "procesando"
    case Enviado => "enviado"
    case Entregado => "entregado"
    case Cancelado => "cancelado"
  }

  /** The `in:pendiente,enviado,cancelado,entregado` rule shared by both order requests:
      the four listed names are accepted, anything else (procesando included) is not. */
  function ParseEstado(s: string): Option<Estado>
  {
    if s == "pendiente" then Some(Pendiente)
    else if s == "enviado" then Some(Enviado)
    else if s == "cancelado" then Some(Cancelado)
    else if s == "entregado" then Some(Entregado)
    else None
  }

  /** Parsing inverts naming on the four statuses a request may carry, and accepts
      nothing else: procesando can never come from a request. */
  lemma ParseEstadoRoundTrip(e: Estado, s: string)
    ensures e != Procesando ==> ParseEstado(EstadoName(e)) == Some(e)
    ensures ParseEstado(s) == Some(e) ==> e != Procesando && EstadoName(e) == s
    ensures ParseEstado(s).Some? <==> s in ["pendiente", "enviado", "cancelado", "entregado"]
  {
  }

  /** A stored order line: product, quantity and the unit price (cents)
      captured when the order was placed. */
  datatype Line = Line(product: ProductId, qty: nat, unitPrice: nat)

  /** A requested line after validation: product, quantity and the unit price
      the client may have sent (which the controller never uses). */
  datatype Item = Item(product: ProductId, qty: nat, clientPrice: Option<int>)

  /** An order header with its lines. `total` is in cents. */
  datatype Order = Order(owner: UserId, estado: Estado, total: nat, lines: seq<Line>)

  /** The order total recomputed from its lines: the sum of quantity times unit price. */
  function LinesTotal(lines: seq<Line>): nat
  {
    if |lines| == 0 then 0
    else LinesTotal(lines[..|lines| - 1]) + lines[|lines| - 1].qty * lines[|lines| - 1].unitPrice
  }

  /** Total quantity of product `p` requested over a list of items. */
  function Demand(items: seq<Item>, p: ProductId): nat
  {
    if |items| == 0 then 0
    else Demand(items[..|items| - 1], p) + (if items[|items| - 1].product == p then items[|items| - 1].qty else 0)
  }

  /** Total quantity of product `p` held by a list of order lines. */
  function LineDemand(lines: seq<Line>, p: ProductId): nat
  {
    if |lines| == 0 then 0
    else LineDemand(lines[..|lines| - 1], p) + (if lines[|lines| - 1].product == p then lines[|lines| - 1].qty else 0)
  }

  /** Lines that record exactly the requested products and quantities, in order. */
  predicate Mirrors(lines: seq<Line>, items: seq<Item>)
  {
    |lines| == |items| &&
    forall i :: 0 <= i < |lines| ==> lines[i].product == items[i].product && lines[i].qty == items[i].qty
  }

  /** Lines that mirror a request hold, product by product, the quantity requested. */
  lemma {:induction false} MirroredDemand(lines: seq<Line>, items: seq<Item>, p: ProductId)
    requires Mirrors(lines, items)
    ensures LineDemand(lines, p) == Demand(items, p)
  {
    if |lines| > 0 {
      var n := |lines| - 1;
      assert Mirrors(lines[..n], items[..n]);
      MirroredDemand(lines[..n], items[..n], p);
    }
  }

  /** A prefix never requests more of a product than the whole list. */
  lemma {:induction false} DemandPrefix(items: seq<Item>, k: nat, p: ProductId)
    requires k <= |items|
    ensures Demand(items[..k], p) <= Demand(items, p)
  {
    if k < |items| {
      var n := |items| - 1;
      assert items[..n][..k] == items[..k];
      DemandPrefix(items[..n], k, p);
    } else {
      assert items[..k] == items;
    }
  }

  /** Each requested line's quantity is part of its product's total demand. */
  lemma {:induction false} DemandCoversLine(items: seq<Item>, k: nat)
    requires k < |items|
    ensures items[k].qty <= Demand(items, items[k].product)
  {
    var p := items[k].product;
    assert items[..k + 1][..k] == items[..k];
    assert Demand(items[..k + 1], p) == Demand(items[..k], p) + items[k].qty;
    DemandPrefix(items, k + 1, p);
  }
}
