/**
 Validation of an order-creation request (StorePedidoRequest), which runs before the
 controller sees the request. Each field is checked against its rules; a failing
 request is answered with HTTP 422 and the list of violations, a passing one is
 handed to the controller as StoreData.
 */
module StoreRequest {
  import opened Domain
  import opened Ledger
  import opened Input

  /** One requested line as sent: product id, quantity and an optional unit price in cents. */
  datatype RawLine = RawLine(productoId: Field<int>, cantidad: Field<int>, precioUnitario: Field<int>)

  /** The request body as sent; `total` is in cents. */
  datatype RawStore = RawStore(userId: Field<UserId>, estado: Field<string>, total: Field<int>,
                               detalles: Field<seq<RawLine>>)

  /** One failing field, named after the rule that rejects it. */
  datatype Violation =
    | UserIdUnknown
    | EstadoNotAllowed
    | TotalNegative
    | DetallesRequired
    | ProductoRequired(line: nat)
    | ProductoUnknown(line: nat)
    | CantidadRequired(line: nat)
    | CantidadBelowOne(line: nat)
    | StockShort(line: nat, available: nat)
    | PrecioBelowMinimum(line: nat)

  /** What the controller receives after validation (the client's `total` is validated
      and then never read, so it is not carried). */
  datatype StoreData = StoreData(userId: Option<UserId>, estado: Option<Estado>, lines: seq<Item>)

  datatype Validation = Validated(data: StoreData) | Rejected(errors: seq<Violation>)

  /** Status code of a rejected request. */
  const UnprocessableEntity: int := 422

  /** Stock the per-line closure compares against: the first stock record of the line's
      product, or 0 when the product id is missing or the product has no record. */
  function ClosureStock(stock: Stock, productoId: Field<int>): nat
  {
    if productoId.Present? then Available(stock, productoId.value) else 0
  }

  /** Rules of one line `i`: producto_id required and existing; cantidad required, at
      least 1 and within the stock closure; precio_unitario, when sent, at least 0.01. */
  function LineViolations(catalog: Catalog, stock: Stock, l: RawLine, i: nat): seq<Violation>
  {
    (if !l.productoId.Present? then [ProductoRequired(i)]
     else if l.productoId.value !in catalog then [ProductoUnknown(i)]
     else []) +
    (if !l.cantidad.Present? then [CantidadRequired(i)]
     else if l.cantidad.value < 1 then [CantidadBelowOne(i)]
     else if l.cantidad.value > ClosureStock(stock, l.productoId)
     then [StockShort(i, ClosureStock(stock, l.productoId))]
     else []) +
    (if l.precioUnitario.Present? && l.precioUnitario.value < 1 then [PrecioBelowMinimum(i)] else [])
  }

  function LinesViolations(catalog: Catalog, stock: Stock, lines: seq<RawLine>): seq<Violation>
  {
    if |lines| == 0 then []
    else LinesViolations(catalog, stock, lines[..|lines| - 1]) +
         LineViolations(catalog, stock, lines[|lines| - 1], |lines| - 1)
  }

  /** Every rule of the request, field by field. An empty `detalles` array fails
      `required` just like a missing one. */
  function Violations(users: set<UserId>, catalog: Catalog, stock: Stock, r: RawStore): seq<Violation>
  {
    (if r.userId.Present? && r.userId.value !in users then [UserIdUnknown] else []) +
    (if r.estado.Present? && ParseEstado(r.estado.value).None? then [EstadoNotAllowed] else []) +
    (if r.total.Present? && r.total.value < 0 then [TotalNegative] else []) +
    (if r.detalles.Present? && |r.detalles.value| > 0
     then LinesViolations(catalog, stock, r.detalles.value)
     else [DetallesRequired])
  }

  /** A line that passes all its rules. */
  predicate LineAccepted(catalog: Catalog, stock: Stock, l: RawLine)
  {
    l.productoId.Present? && l.productoId.value in catalog &&
    l.cantidad.Present? && 1 <= l.cantidad.value <= Available(stock, l.productoId.value) &&
    (l.precioUnitario.Present? ==> l.precioUnitario.value >= 1)
  }

  /** A request that passes all rules, stated rule by rule. */
  predicate Accepted(users: set<UserId>, catalog: Catalog, stock: Stock, r: RawStore)
  {
    (r.userId.Present? ==> r.userId.value in users) &&
    (r.estado.Present? ==> ParseEstado(r.estado.value).Some?) &&
    (r.total.Present? ==> r.total.value >= 0) &&
    r.detalles.Present? && |r.detalles.value| > 0 &&
    forall i :: 0 <= i < |r.detalles.value| ==> LineAccepted(catalog, stock, r.detalles.value[i])
  }

  lemma {:induction false} LineViolationsIff(catalog: Catalog, stock: Stock, l: RawLine, i: nat)
    ensures LineViolations(catalog, stock, l, i) == [] <==> LineAccepted(catalog, stock, l)
  {
  }

  /** The lines produce no violation exactly when each of them passes its rules. */
  lemma {:induction false} LinesViolationsIff(catalog: Catalog, stock: Stock, lines: seq<RawLine>)
    ensures LinesViolations(catalog, stock, lines) == [] <==>
            forall i :: 0 <= i < |lines| ==> LineAccepted(catalog, stock, lines[i])
  {
    if |lines| > 0 {
      var n := |lines| - 1;
      LinesViolationsIff(catalog, stock, lines[..n]);
      LineViolationsIff(catalog, stock, lines[n], n);
      assert forall i :: 0 <= i < n ==> lines[..n][i] == lines[i];
    }
  }

  /** The request produces no violation exactly when it passes every rule. */
  lemma ViolationsIff(users: set<UserId>, catalog: Catalog, stock: Stock, r: RawStore)
    ensures Violations(users, catalog, stock, r) == [] <==> Accepted(users, catalog, stock, r)
  {
    if r.detalles.Present? && |r.detalles.value| > 0 {
      LinesViolationsIff(catalog, stock, r.detalles.value);
    }
  }

  function ToItem(l: RawLine): Item
    requires l.productoId.Present? && l.cantidad.Present? && l.cantidad.value >= 0
  {
    Item(l.productoId.value, l.cantidad.value,
         if l.precioUnitario.Present? then Some(l.precioUnitario.value) else None)
  }

  /** The request as the rules see it, after the global input normalisation (`estado`
      is its only string field). */
  function Normalized(r: RawStore): RawStore
  {
    r.(estado := Normalize(r.estado))
  }

  /** The validation step on the normalised request: every violation, or the validated data. */
  function ValidateStore(users: set<UserId>, catalog: Catalog, stock: Stock, r: RawStore): Validation
  {
    var n := Normalized(r);
    var errors := Violations(users, catalog, stock, n);
    if errors != [] then Rejected(errors)
    else
      ViolationsIff(users, catalog, stock, n);
      var lines := n.detalles.value;
      Validated(StoreData(
        if n.userId.Present? then Some(n.userId.value) else None,
        if n.estado.Present? then ParseEstado(n.estado.value) else None,
        seq(|lines|, i requires 0 <= i < |lines| => ToItem(lines[i]))))
  }

  /** The status a validation outcome is answered with: 422 for a rejection, none for a
      request handed on to the controller. */
  function ValidationStatus(v: Validation): Option<int>
  {
    if v.Rejected? then Some(UnprocessableEntity) else None
  }

  /** A request is answered with 422 and a non-empty list exactly when its normalised
      form fails some rule; otherwise it reaches the controller. */
  lemma RejectedIffSomeRuleFails(users: set<UserId>, catalog: Catalog, stock: Stock, r: RawStore)
    ensures ValidateStore(users, catalog, stock, r).Rejected? <==> !Accepted(users, catalog, stock, Normalized(r))
    ensures ValidationStatus(ValidateStore(users, catalog, stock, r)) == Some(422) <==>
            !Accepted(users, catalog, stock, Normalized(r))
    ensures ValidateStore(users, catalog, stock, r).Rejected? ==> |ValidateStore(users, catalog, stock, r).errors| > 0
  {
    ViolationsIff(users, catalog, stock, Normalized(r));
  }

  /** The status is taken trimmed, and one that is empty or blank counts as not sent, so
      the controller's pendiente default applies to it. */
  lemma EstadoTakenTrimmed(users: set<UserId>, catalog: Catalog, stock: Stock, r: RawStore)
    ensures ValidateStore(users, catalog, stock, r) == ValidateStore(users, catalog, stock, Normalized(r))
    ensures r.estado.Present? && (forall k :: 0 <= k < |r.estado.value| ==> IsBlank(r.estado.value[k])) ==>
            ValidateStore(users, catalog, stock, r) == ValidateStore(users, catalog, stock, r.(estado := Absent))
  {
    NormalizeIdempotent(r.estado);
    if r.estado.Present? {
      AllBlankIffEmpty(r.estado.value);
    }
  }

  /** A request whose `detalles` is missing, null or empty is rejected for that reason. */
  lemma DetallesRequiredAndNonEmpty(users: set<UserId>, catalog: Catalog, stock: Stock, r: RawStore)
    requires !r.detalles.Present? || r.detalles.value == []
    ensures ValidateStore(users, catalog, stock, r).Rejected?
    ensures DetallesRequired in ValidateStore(users, catalog, stock, r).errors
  {
  }

  /** What the controller may rely on: at least one line; each line's product exists, its
      quantity is at least 1 and within the product's stock on its own; the status, when
      given, is one of the four accepted ones (never procesando); the owner, when given,
      is a known user. Lines keep the order and values they were sent with. */
  lemma ValidatedShape(users: set<UserId>, catalog: Catalog, stock: Stock, r: RawStore)
    requires ValidateStore(users, catalog, stock, r).Validated?
    ensures var d := ValidateStore(users, catalog, stock, r).data;
            r.detalles.Present? && |d.lines| == |r.detalles.value| >= 1 &&
            (forall i :: 0 <= i < |d.lines| ==>
               d.lines[i].product in catalog && 1 <= d.lines[i].qty <= Available(stock, d.lines[i].product) &&
               r.detalles.value[i].productoId == Present(d.lines[i].product) &&
               r.detalles.value[i].cantidad == Present(d.lines[i].qty as int)) &&
            (d.estado.Some? ==> d.estado.value != Procesando &&
                                r.estado.Present? && EstadoName(d.estado.value) == Trim(r.estado.value)) &&
            (r.estado.Present? && Trim(r.estado.value) != "" ==> d.estado.Some?) &&
            (d.userId.Some? ==> d.userId.value in users)
  {
    ViolationsIff(users, catalog, stock, Normalized(r));
    var e := Normalize(r.estado);
    if e.Present? && ParseEstado(e.value).Some? {
      ParseEstadoRoundTrip(ParseEstado(e.value).value, e.value);
    }
  }

  /** Every product of a validated request exists, so on the same state the transaction
      can only stop for stock, never for a missing product. */
  lemma ValidatedNeverMissingProduct(users: set<UserId>, catalog: Catalog, stock: Stock, r: RawStore)
    requires ValidateStore(users, catalog, stock, r).Validated?
    ensures var items := ValidateStore(users, catalog, stock, r).data.lines;
            !Place(catalog, stock, items).Failed? || Place(catalog, stock, items).failure.Short?
  {
    ValidatedShape(users, catalog, stock, r);
    var items := ValidateStore(users, catalog, stock, r).data.lines;
    CatalogedNeverMissing(catalog, stock, items);
  }

  lemma {:induction false} CatalogedNeverMissing(catalog: Catalog, stock: Stock, items: seq<Item>)
    requires forall i :: 0 <= i < |items| ==> items[i].product in catalog
    ensures !Place(catalog, stock, items).Failed? || Place(catalog, stock, items).failure.Short?
  {
    if |items| > 0 {
      var n := |items| - 1;
      assert forall i :: 0 <= i < n ==> items[..n][i] == items[i];
      CatalogedNeverMissing(catalog, stock, items[..n]);
    }
  }

  /** Conversely, every line of a request the transaction accepts also passes the
      per-line stock rule: its own quantity is within its product's stock. */
  lemma PlacedPassesStockRule(catalog: Catalog, stock: Stock, items: seq<Item>)
    requires Place(catalog, stock, items).Placed?
    ensures forall i :: 0 <= i < |items| ==> items[i].qty <= Available(stock, items[i].product)
  {
    PlaceSucceedsIff(catalog, stock, items);
    forall i | 0 <= i < |items| ensures items[i].qty <= Available(stock, items[i].product) {
      DemandCoversLine(items, i);
    }
  }

  /** The stock rule is per line, not cumulative: two lines of 3 for a product with 5 in
      stock each pass validation, and the transaction then rejects the request, reporting
      the 2 units left after the first line. */
  lemma PerLineStockCheckIsNotCumulative()
    ensures var catalog: Catalog := map[1 := 250];
            var stock: Stock := map[1 := 5];
            var r := RawStore(Absent, Absent, Absent,
                              Present([RawLine(Present(1), Present(3), Absent), RawLine(Present(1), Present(3), Absent)]));
            ValidateStore({}, catalog, stock, r).Validated? &&
            Place(catalog, stock, ValidateStore({}, catalog, stock, r).data.lines) == Failed(Short(1, 2))
  {
    var catalog: Catalog := map[1 := 250];
    var stock: Stock := map[1 := 5];
    var l := RawLine(Present(1), Present(3), Absent);
    var r := RawStore(Absent, Absent, Absent, Present([l, l]));
    assert [l, l][..1] == [l];
    assert [l][..0] == [];
    assert LineViolations(catalog, stock, l, 0) == [] && LineViolations(catalog, stock, l, 1) == [];
    assert LinesViolations(catalog, stock, [l]) == [];
    assert LinesViolations(catalog, stock, [l, l]) == [];
    assert Violations({}, catalog, stock, r) == [];
    var items := ValidateStore({}, catalog, stock, r).data.lines;
    var it := Item(1, 3, None);
    assert items == [it, it];
    assert items[..1] == [it];
    assert items[..1][..0] == [];
    assert Place(catalog, stock, items[..1]) == Placed(Staged(map[1 := 2], [Line(1, 3, 250)], 750));
  }
}
