# Order transactions of the gummy-shop API

A model of the order (pedido) endpoints of a Laravel REST API for a small confectionery
shop: creating an order deducts each requested product's stock line by line and records
the lines at catalog price; cancelling an order through an update, or deleting it, gives
every line's quantity back to stock. Around these sit the two request validators that run
before the controller and the order policy.

Modules:

- `Domain` (`domain.dfy`): ids, order status (`Estado`), request fields that may be
  absent, null or present, order lines and orders, and the sums over them (`LinesTotal`,
  `Demand`, `LineDemand`).
- `Ledger` (`ledger.dfy`): the stock side as pure specifications. `Place` is the
  line-by-line deduction of order creation (first failure wins), `Restore` the reversal
  used by cancellation and deletion (app/Http/Controllers/Api/PedidoController.php:72-105,
  177-186 and 244-251).
- `Input` (`input.dfy`): the framework's global input normalisation, which runs before
  validation. Each string is trimmed, and a string left empty becomes null. These are
  Laravel's default global middleware `TrimStrings` and `ConvertEmptyStringsToNull`; the
  application configuration (bootstrap/app.php:14-36) adds API middleware and leaves the
  default global stack in place, so the `Input` rows cite that block.
- `Policy` (`policy.dfy`): the order policy (administrator by e-mail, owner by user id);
  `Can` follows app/Policies/PedidoPolicy.php:14-78.
- `StoreRequest` (`store_request.dfy`) and `UpdateRequest` (`update_request.dfy`): the
  validation rules of the two requests; a rejected creation request is answered with 422.
  `ValidateStore` follows app/Http/Requests/StorePedidoRequest.php:28-97, `ValidateUpdate`
  app/Http/Requests/UpdatePedidoRequest.php:27-43.
- `Orders` (`orders.dfy`): each endpoint as one atomic step on a database value
  (`StoreTx`, `UpdateTx`, `DestroyTx`, following
  app/Http/Controllers/Api/PedidoController.php:55-124, 148-222 and 227-267, with the
  permission gates of lines 23-36). A step either commits its whole effect or leaves
  the database unchanged, as the controller's transactions do. The lemmas state what the
  endpoints guarantee, alone and in sequence.
- `Controller` (`controller.dfy`): class `OrderEngine`, whose fields are the tables the
  controller touches. `Store`, `Update` and `Destroy` update them in place the way the
  controller does: they write the header, walk the lines, and roll back by restoring the
  saved tables. Each method is proved to have exactly the effect of the matching step in
  `Orders`. The loops `DeductLines` and `Revert` are proved against `Place` and `Restore`.

Conventions:

- Money is in integer cents. A product's stock is the quantity of its first stock record.
  A product with no record has no key in the stock map.
- Each endpoint receives the output of its request's validation, because Laravel
  validates a form request before the controller method runs.
- The `can:` gates that the controller's constructor registers (`pedidos.crear`,
  `pedidos.procesar`, `pedidos.cancelar`) are taken to be in force. Each is the first
  branch of its endpoint. The actor's permissions and the authenticated user's id are
  parameters.
- Validation sees each request after the input normalisation. A padded status is
  judged trimmed. An empty or blank status counts as null, so on creation it leaves the
  pendiente default in place, and on update it fails `required`.

Behaviour of the code worth knowing:

- A cancelled order is not terminal. A plain update may move it back to another status.
  Deleting a cancelled order gives its stock back a second time.
- Asking to cancel an already cancelled order takes the plain-update path. It answers
  200 and moves no stock.
- Cancelling through an update needs the `pedidos.cancelar` permission. Being the
  order's owner is not enough, and the policy is not consulted by the controller.
- A new order's status is the requested one, when given, not always pendiente.
- A plain update may overwrite the total with any value of at least one cent. After that,
  the total no longer equals the sum of the lines.

## Model

| member | source | states |
|---|---|---|
| Domain.ParseEstadoRoundTrip | app/Http/Requests/StorePedidoRequest.php:35 | the `in:` rule accepts exactly pendiente, enviado, cancelado and entregado; parsing inverts naming on those four and never yields procesando |
| Input.TrimShape | bootstrap/app.php:14-36 | the trimmed string is the slice between the leading and trailing runs of blanks: everything cut is blank, and a non-empty result starts and ends with a non-blank character |
| Input.AllBlankIffEmpty | bootstrap/app.php:14-36 | a string trims to nothing exactly when all its characters are blank |
| Input.TrimIdempotent | bootstrap/app.php:14-36 | trimming twice is trimming once |
| Input.NormalizeIdempotent | bootstrap/app.php:14-36 | normalising twice is normalising once; a normalised field is never an empty or padded string, and only ever turns a sent string into null |
| Ledger.FailurePersists | app/Http/Controllers/Api/PedidoController.php:76-79 | once a prefix of the lines fails, the whole creation fails with that same failure; later lines are never examined |
| Ledger.PlacedDeducts | app/Http/Controllers/Api/PedidoController.php:72-105 | a successful pass keeps the set of stock records, never takes more of a product than it had, and lowers each product's stock by exactly the total quantity requested for it; unrequested products keep their stock |
| Ledger.PlacedLines | app/Http/Controllers/Api/PedidoController.php:81-96 | the staged lines mirror the requested products and quantities in order, each unit price is the catalog price, and the total is the sum of quantity times unit price |
| Ledger.PlaceSucceedsIff | app/Http/Controllers/Api/PedidoController.php:72-105 | the pass succeeds exactly when every product exists, has a stock record, and its summed requested quantity is within that record |
| Ledger.PlaceFailsAt | app/Http/Controllers/Api/PedidoController.php:97-104 | when line k is the first that cannot go through, creation fails there: product not found, or short stock reporting what was left after the earlier lines, or 0 without a record |
| Ledger.RestoreCredits | app/Http/Controllers/Api/PedidoController.php:177-186 | reversal keeps the set of stock records and raises each product's stock by the quantity its lines hold; products without a record are skipped |
| Ledger.RestoreUndoes | app/Http/Controllers/Api/PedidoController.php:244-251 | reversing lines that mirror a request undoes any deduction of exactly the requested quantities |
| Ledger.PlaceRestoreRoundTrip | app/Http/Controllers/Api/PedidoController.php:87-89 | reversing the lines a successful creation staged gives back the original stock |
| Policy.OnlyOwnerMatters | app/Policies/PedidoPolicy.php:26-78 | the policy sees an order only through its owner: two orders with the same owner get the same answer for every user and ability, whatever their status, total or lines |
| Policy.StrangerMayOnlyCreate | app/Policies/PedidoPolicy.php:26-78 | a user who is neither the administrator nor the order's owner is allowed exactly the create ability |
| Policy.AdminDominates | app/Policies/PedidoPolicy.php:26-78 | whatever any user may do with an order, the administrator may do too |
| Policy.CancelIsStrictest | app/Policies/PedidoPolicy.php:53-78 | whoever may cancel may update and delete; a non-admin owner may update and delete but not cancel |
| StoreRequest.LinesViolationsIff | app/Http/Requests/StorePedidoRequest.php:41-69 | the lines produce no violation exactly when each line has an existing product, a quantity from 1 up to its product's stock, and a price of at least one cent when one is sent |
| StoreRequest.ViolationsIff | app/Http/Requests/StorePedidoRequest.php:28-71 | the request produces no violation exactly when it passes every field rule |
| StoreRequest.RejectedIffSomeRuleFails | app/Http/Requests/StorePedidoRequest.php:91-97 | a request is answered with 422 and a non-empty error list exactly when its normalised form fails some rule; otherwise it reaches the controller |
| StoreRequest.EstadoTakenTrimmed | app/Http/Requests/StorePedidoRequest.php:35 | validation gives the same answer on a request and on its normalised form; an empty or blank status is treated exactly like a status that was not sent |
| StoreRequest.DetallesRequiredAndNonEmpty | app/Http/Requests/StorePedidoRequest.php:39 | a missing, null or empty `detalles` is always rejected, for that reason |
| StoreRequest.ValidatedShape | app/Http/Requests/StorePedidoRequest.php:33-69 | what passes has at least one line; each line keeps its sent product and quantity, the product exists, and the quantity is between 1 and that product's stock; the status, when present, is the sent one trimmed and never procesando, and a non-blank sent status is always present; a given owner is a known user |
| StoreRequest.ValidatedNeverMissingProduct | app/Http/Requests/StorePedidoRequest.php:41 | on the state it was validated against, a validated request can fail in the transaction only for stock, never for a missing product |
| StoreRequest.PlacedPassesStockRule | app/Http/Requests/StorePedidoRequest.php:49-66 | every line of a request that the transaction accepts is within its product's stock on its own |
| StoreRequest.PerLineStockCheckIsNotCumulative | app/Http/Requests/StorePedidoRequest.php:57-64 | the stock rule checks each line alone: two lines of 3 against a stock of 5 pass validation, and the transaction then rejects them with 2 available |
| UpdateRequest.ValidateUpdateIff | app/Http/Requests/UpdatePedidoRequest.php:33-42 | an update passes exactly when each of estado and total is absent or valid, the status judged after trimming; what passes carries the sent values, with a status other than procesando and a total of at least one cent |
| UpdateRequest.EstadoNormalisedFirst | app/Http/Requests/UpdatePedidoRequest.php:35 | a status sent as " enviado " is accepted as enviado, and one sent as an empty string fails `required` |
| UpdateRequest.EmptyUpdateIsValid | app/Http/Requests/UpdatePedidoRequest.php:33-42 | a request with no fields is valid and asks for no change |
| UpdateRequest.UnvalidatedKeysDropped | app/Http/Requests/UpdatePedidoRequest.php:40-41 | keys without a rule, such as an owner change, neither affect validation nor reach the controller |
| Orders.StoreAllOrNothing | app/Http/Controllers/Api/PedidoController.php:61-112 | without pedidos.crear creation is refused with 403 and changes nothing; it succeeds exactly when pedidos.crear is held and every line can be placed; otherwise nothing changes and the answer is the first failing line's 404 or 400 |
| Orders.StoreCommits | app/Http/Controllers/Api/PedidoController.php:65-112 | a successful creation adds one order under a fresh id with the requested or default owner and status, catalog-priced lines and their summed total, deducts exactly the placed stock, and changes nothing else |
| Orders.StoreIgnoresClientPrices | app/Http/Controllers/Api/PedidoController.php:83-95 | the unit prices a client sends have no effect on the outcome of creation |
| Orders.UpdateEffect | app/Http/Controllers/Api/PedidoController.php:148-222 | an update never changes the catalog, the next id, the set of orders, any owner or lines, or any other order; it cancels exactly when the actor holds both permissions and asks to cancel a present order that is neither cancelado nor delivered; cancelling credits exactly the order's lines to stock and keeps its total; otherwise stock is untouched; each refusal changes nothing and answers 403 for a missing pedidos.procesar, 404 for an absent order, 403 for cancelling a delivered order, 403 for a missing pedidos.cancelar |
| Orders.PlainUpdateOverwrites | app/Http/Controllers/Api/PedidoController.php:205-211 | outside the cancellation path, an undelivered order takes exactly the validated status and total, and stock is untouched |
| Orders.EmptyUpdateChangesNothing | app/Http/Controllers/Api/PedidoController.php:211 | an update with no validated fields leaves the database as it was |
| Orders.RecancelMovesNoStock | app/Http/Controllers/Api/PedidoController.php:159 | asking to cancel an already cancelled order moves no stock |
| Orders.DestroyEffect | app/Http/Controllers/Api/PedidoController.php:227-258 | deletion happens exactly when pedidos.cancelar is held and the order is present and not delivered; it gives the order's lines back to stock, removes exactly that order and keeps the catalog and next id; each refusal changes nothing and answers 403 for a missing pedidos.cancelar, 404 for an absent order, 403 for a delivered one; a second deletion finds no order |
| Orders.DeliveredIsFrozen | app/Http/Controllers/Api/PedidoController.php:236-238 | a delivered order can be neither updated, cancelled nor deleted: each attempt is refused with 403 and changes nothing |
| Orders.WellFormedKept | app/Http/Controllers/Api/PedidoController.php:65-69 | every endpoint keeps all order ids below the next id, so creation never overwrites an order |
| Orders.TotalsKept | app/Http/Controllers/Api/PedidoController.php:107-110 | creation, cancellation and deletion keep each total equal to the sum of its lines; a plain update that sends a total stores that total as given |
| Orders.StoreThenCancelRestoresStock | app/Http/Controllers/Api/PedidoController.php:177-189 | creating an order and then cancelling it gives every product its original stock |
| Orders.StoreThenDestroyRestoresStock | app/Http/Controllers/Api/PedidoController.php:244-254 | creating an order and then deleting it gives every product its original stock and leaves the orders as they were |
| Orders.CancelThenDestroyRestoresTwice | app/Http/Controllers/Api/PedidoController.php:231-251 | deletion does not check for cancelado, so cancelling and then deleting an order credits its lines to stock twice |
| Orders.ReviveThenCancelRestoresAgain | app/Http/Controllers/Api/PedidoController.php:159-211 | a cancelled order moved back to pendiente by a plain update and cancelled again credits its lines to stock a second time |
| Controller.OrderEngine.Store | app/Http/Controllers/Api/PedidoController.php:55-124 | the in-place creation, with header, line loop and rollback, has exactly the effect of the atomic creation step, and a failed creation leaves every table as it was |
| Controller.OrderEngine.DeductLines | app/Http/Controllers/Api/PedidoController.php:72-105 | the line loop ends with exactly the stock, lines and total of the specification `Place`, or with its first failure |
| Controller.OrderEngine.Revert | app/Http/Controllers/Api/PedidoController.php:177-186 | the reversal loop leaves the stock equal to `Restore` of the lines |
| Controller.OrderEngine.Update | app/Http/Controllers/Api/PedidoController.php:148-222 | the in-place update has exactly the effect of the atomic update step and keeps ids fresh |
| Controller.OrderEngine.Destroy | app/Http/Controllers/Api/PedidoController.php:227-267 | the in-place deletion has exactly the effect of the atomic deletion step and keeps ids fresh |

## Left out

- The controller's constructor registers its `can:` gates through a `middleware` method that the base class at app/Http/Controllers/Controller.php:30-33 does not provide, because it extends no framework controller. The model takes the gates to be in force and does not model the failure to construct the controller.
- Input trimming removes ASCII whitespace and U+FEFF, U+200B, U+200E only; other Unicode space characters that the framework's trim may also remove are not modelled.
- Row locking and concurrency: `lockForUpdate` and the gap between validation and the transaction are not modelled. Each request runs alone on one state.
- The 404 "product not found" inside creation can only happen when a product disappears between validation and the transaction. The model keeps the branch but runs each request alone.
- Exceptions raised by the database and the generic 500 answers are not modelled.
- Money is decimal in the tables and floating point in the controller. The model uses exact integer cents, and column widths such as decimal(10,2) are not bounded.
- Stock quantities are unsigned integers in the table. The model has no 32-bit upper bound on stock raised by reversal.
- The order status enum in the orders table has no `cancelado`, so a real database would refuse to store it. The model stores every status the validators accept.
- Only a product's first stock record is read or written. Further records of the same product are not modelled.
- Laravel's type rules (`integer`, `string`, `numeric`, `array`) are not modelled: fields are typed values. The order and wording of the error messages are not modelled either, and each failing field yields one violation.
- Listing and showing orders, response resources and bodies, timestamps, and other controllers, models, routes and seeders are not part of this model.
- The policy is modelled on its own: the controller never consults it, and the model does the same.
- The permission lookup (roles behind `pedidos.*`) and the authenticated user are inputs, not modelled.
- The order id counter is restored on rollback, whereas a database auto-increment may skip ids. This does not affect any stated property.
