/**
 The stock side of an order transaction, as pure specifications: `Place` is the
 line-by-line deduction that order creation performs, `Restore` the reversal that
 cancellation and deletion perform. The controller's loops are proved against them.
 */
module Ledger {
  import opened Domain

  /** Quantity of each product's first stock record; a product without a record has no key. */
  type Stock = map<ProductId, nat>
  /** Unit price in cents of each existing product. */
  type Catalog = map<ProductId, nat>

  /** Stock a check sees for a product: its record's quantity, or 0 when it has no record. */
  function Available(stock: Stock, p: ProductId): nat
  {
    if p in stock then stock[p] else 0
  }

  /** Why a placement stops: the product does not exist, or its stock is short. */
  datatype Failure = NoProduct(product: ProductId) | Short(product: ProductId, available: nat)

  /** The work of a transaction so far: current stock, staged lines, running total. */
  datatype Staged = Staged(stock: Stock, lines: seq<Line>, total: nat)

  datatype Placement = Placed(staged: Staged) | Failed(failure: Failure)

  /** One loop iteration of order creation on the staged state. */
  function Deduct(catalog: Catalog, st: Staged, it: Item): Placement
  {
    if it.product !in catalog then Failed(NoProduct(it.product))
    else if it.product in st.stock && st.stock[it.product] >= it.qty then
      Placed(Staged(st.stock[it.product := st.stock[it.product] - it.qty],
                    st.lines + [Line(it.product, it.qty, catalog[it.product])],
                    st.total + it.qty * catalog[it.product]))
    else Failed(Short(it.product, Available(st.stock, it.product)))
  }

  /** All requested lines processed in order, starting from `stock`; the first failure wins. */
  function Place(catalog: Catalog, stock: Stock, items: seq<Item>): Placement
  {
    if |items| == 0 then Placed(Staged(stock, [], 0))
    else match Place(catalog, stock, items[..|items| - 1])
      case Failed(f) => Failed(f)
      case Placed(st) => Deduct(catalog, st, items[|items| - 1])
  }

  /** One reversal step: give a line's quantity back, skipping products without a stock record. */
  function Credit(stock: Stock, l: Line): Stock
  {
    if l.product in stock then stock[l.product := stock[l.product] + l.qty] else stock
  }

  /** The reversal of every line of an order, in order. */
  function Restore(stock: Stock, lines: seq<Line>): Stock
  {
    if |lines| == 0 then stock
    else Credit(Restore(stock, lines[..|lines| - 1]), lines[|lines| - 1])
  }

  /** Once a prefix of the request has failed, the whole request fails the same way. */
  lemma {:induction false} FailurePersists(catalog: Catalog, stock: Stock, items: seq<Item>, k: nat)
    requires k <= |items|
    requires Place(catalog, stock, items[..k]).Failed?
    ensures Place(catalog, stock, items) == Place(catalog, stock, items[..k])
  {
    if k < |items| {
      var n := |items| - 1;
      assert items[..n][..k] == items[..k];
      FailurePersists(catalog, stock, items[..n], k);
    } else {
      assert items[..k] == items;
    }
  }

  /** A successful placement keeps the set of stock records and lowers each product's
      stock by exactly the quantity requested for it over all lines (so every product
      not requested keeps its stock), which never exceeds what was on hand. */
  lemma {:induction false} PlacedDeducts(catalog: Catalog, stock: Stock, items: seq<Item>)
    requires Place(catalog, stock, items).Placed?
    ensures Place(catalog, stock, items).staged.stock.Keys == stock.Keys
    ensures forall p :: p in stock ==>
              Demand(items, p) <= stock[p] &&
              Place(catalog, stock, items).staged.stock[p] == stock[p] - Demand(items, p)
  {
    if |items| > 0 {
      var n := |items| - 1;
      PlacedDeducts(catalog, stock, items[..n]);
    }
  }

  /** A successful placement stages one line per requested line, with the same product
      and quantity, the product's catalog price (never the client's), and a total equal
      to the sum of the staged lines' subtotals. */
  lemma {:induction false} PlacedLines(catalog: Catalog, stock: Stock, items: seq<Item>)
    requires Place(catalog, stock, items).Placed?
    ensures Mirrors(Place(catalog, stock, items).staged.lines, items)
    ensures forall i :: 0 <= i < |items| ==>
              items[i].product in catalog &&
              Place(catalog, stock, items).staged.lines[i].unitPrice == catalog[items[i].product]
    ensures Place(catalog, stock, items).staged.total == LinesTotal(Place(catalog, stock, items).staged.lines)
  {
    if |items| > 0 {
      var n := |items| - 1;
      PlacedLines(catalog, stock, items[..n]);
      var st := Place(catalog, stock, items[..n]).staged;
      var lines := Place(catalog, stock, items).staged.lines;
      assert lines[..n] == st.lines;
    }
  }

  /** A request succeeds exactly when every product exists and has a stock record, and
      no product's cumulative demand exceeds its stock. Repeated lines for one product
      are therefore checked against the sum of their quantities. */
  lemma {:induction false} PlaceSucceedsIff(catalog: Catalog, stock: Stock, items: seq<Item>)
    ensures Place(catalog, stock, items).Placed? <==>
            (forall i :: 0 <= i < |items| ==> items[i].product in catalog && items[i].product in stock) &&
            (forall p :: p in stock ==> Demand(items, p) <= stock[p])
  {
    if |items| > 0 {
      var n := |items| - 1;
      var it := items[n];
      var pre := items[..n];
      assert forall i :: 0 <= i < |pre| ==> pre[i] == items[i];
      PlaceSucceedsIff(catalog, stock, pre);
      if (forall i :: 0 <= i < |items| ==> items[i].product in catalog && items[i].product in stock) &&
         (forall p :: p in stock ==> Demand(items, p) <= stock[p]) {
        forall p | p in stock ensures Demand(pre, p) <= stock[p] {
          DemandPrefix(items, n, p);
        }
        PlacedDeducts(catalog, stock, pre);
        assert Demand(items, it.product) == Demand(pre, it.product) + it.qty;
      }
      if Place(catalog, stock, items).Placed? {
        PlacedDeducts(catalog, stock, pre);
        PlacedDeducts(catalog, stock, items);
        forall i | 0 <= i < |items|
          ensures items[i].product in catalog && items[i].product in stock
        {
          if i < n { assert items[i] == pre[i]; }
        }
      }
    }
  }

  /** When the first `k` lines went through and line `k` cannot, the request fails at
      line `k`: NoProduct for a missing product, otherwise Short reporting the stock
      seen at that line, which already reflects the earlier lines' deductions, or 0
      when the product has no stock record. */
  lemma {:induction false} PlaceFailsAt(catalog: Catalog, stock: Stock, items: seq<Item>, k: nat)
    requires k < |items|
    requires Place(catalog, stock, items[..k]).Placed?
    requires items[k].product !in catalog || items[k].product !in stock ||
             stock[items[k].product] < Demand(items[..k + 1], items[k].product)
    ensures items[k].product !in catalog ==> Place(catalog, stock, items) == Failed(NoProduct(items[k].product))
    ensures items[k].product in catalog ==>
              Place(catalog, stock, items).Failed? &&
              Place(catalog, stock, items).failure.Short? &&
              Place(catalog, stock, items).failure.product == items[k].product
    ensures items[k].product in catalog && items[k].product !in stock ==>
              Place(catalog, stock, items) == Failed(Short(items[k].product, 0))
    ensures items[k].product in catalog && items[k].product in stock ==>
              Place(catalog, stock, items).Failed? && Place(catalog, stock, items).failure.Short? &&
              Place(catalog, stock, items).failure.available + Demand(items[..k], items[k].product) == stock[items[k].product]
  {
    var p := items[k].product;
    PlacedDeducts(catalog, stock, items[..k]);
    assert items[..k + 1][..k] == items[..k];
    assert items[..k + 1][k] == items[k];
    assert Demand(items[..k + 1], p) == Demand(items[..k], p) + items[k].qty;
    FailurePersists(catalog, stock, items, k + 1);
  }

  /** Reversal keeps the set of stock records and raises each product's stock by the
      quantity the lines hold for it. */
  lemma {:induction false} RestoreCredits(stock: Stock, lines: seq<Line>)
    ensures Restore(stock, lines).Keys == stock.Keys
    ensures forall p :: p in stock ==> Restore(stock, lines)[p] == stock[p] + LineDemand(lines, p)
  {
    if |lines| > 0 {
      RestoreCredits(stock, lines[..|lines| - 1]);
    }
  }

  /** Reversal undoes any deduction of exactly the quantities that the lines mirror. */
  lemma {:induction false} RestoreUndoes(before: Stock, after: Stock, lines: seq<Line>, items: seq<Item>)
    requires Mirrors(lines, items)
    requires after.Keys == before.Keys
    requires forall p :: p in before ==> Demand(items, p) <= before[p] && after[p] == before[p] - Demand(items, p)
    ensures Restore(after, lines) == before
  {
    RestoreCredits(after, lines);
    var back := Restore(after, lines);
    forall p | p in before ensures back[p] == before[p] {
      MirroredDemand(lines, items, p);
    }
  }

  /** Reversing the lines a successful placement staged gives back the original stock. */
  lemma PlaceRestoreRoundTrip(catalog: Catalog, stock: Stock, items: seq<Item>)
    requires Place(catalog, stock, items).Placed?
    ensures Restore(Place(catalog, stock, items).staged.stock, Place(catalog, stock, items).staged.lines) == stock
  {
    PlacedDeducts(catalog, stock, items);
    PlacedLines(catalog, stock, items);
    var st := Place(catalog, stock, items).staged;
    RestoreUndoes(stock, st.stock, st.lines, items);
  }
}
