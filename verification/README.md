# Order-book HTTP handlers: session-index model

This project models the request handlers of an order-book trading service and
the in-memory cache they share. The cache has two maps:

- `OrderBooks`: order-book id → order-book handle.
- `OrdersToBook`: order id → the id of the book that owns the order.

Around them sit the field validators (`parseSide`, `parseFloat`), the method
check (`checkHttpPost`), the two cache lookups, the two index updates
(`removeOrderEntry`, `updateOrderToOrderBookMap`), the response normaliser
(`marshalProcessedOrder`) and the seven HTTP handlers.

Layout:

- `wrappers.dfy`, module `Wrappers`: `Option` (a Go pointer that may be nil),
  `Result` (a lookup's value or error message), and `Parsed` (Go's
  `(value, error)` pair).
- `engine.dfy`, module `Engine`: the types exchanged with the matching engine
  and the decimal library. These are an opaque `BookHandle`, `Decimal`
  (coefficient × 10^exponent, so `decimal.New(0, 0)` is `Zero`), `Side`,
  `Order`, and the result records of `ProcessLimitOrder` and
  `ProcessMarketOrder`.
- `http.dfy`, module `Http`: a request (method, URL path, form fields),
  `FormValue`, and the status codes used.
- `handlers_utils.dfy`, module `HandlersUtils`: the helpers of
  `handlers/handlers_utils.go`. The lookups only read the maps, so they are
  functions of the maps. The loop of `updateOrderToOrderBookMap` is specified
  by the function `Associate`. The lemmas show that `Associate` overrides
  exactly the written keys with the book id, is idempotent, and keeps
  referential integrity.
- `handlers.dfy`, module `Handlers`: class `Cache` holds both maps as fields.
  Its methods are the two in-place index updates and the seven handlers. Each
  handler takes the request, plus the engine's answer, the generated id and
  whether JSON encoding fails. It returns `(status, body)` and updates the
  maps. `Cache.Valid()` says that every value of the order index is a key of
  the book cache. Every handler keeps it: `old(Valid()) ==> Valid()`.

Two behaviours of the code worth stating:

- Limit and market orders write every non-nil order's id into the index, even
  an empty one. Only the explicitly passed order id is skipped when empty.
- The market-view handler answers a serialization failure with the
  "Order is placed…" message copied from the order handlers.

## Model

| member | source | states |
|---|---|---|
| `HandlersUtils.ParseFloat` | handlers/handlers_utils.go:24-33 | succeeds iff the text is non-empty and the decimal parser accepts it, and then returns the parsed value unchanged; "" fails with `field + "  can not be empty"` even when the parser would accept it; text the parser rejects fails with `"Invalid " + field`; every failure carries the zero decimal |
| `HandlersUtils.ParseSide` | handlers/handlers_utils.go:36-44 | succeeds iff the text is exactly "0" (Buy) or exactly "1" (Sell); any other text, "" and "10" included, fails with "Side should be either 0 or 1" and side value -1 |
| `HandlersUtils.CheckHttpPost` | handlers/handlers_utils.go:47-53 | lets the request through iff the method is "POST"; otherwise the response is 405 "Invalid request method. Post Method is required" |
| `HandlersUtils.BookFromId` | handlers/handlers_utils.go:56-65 | succeeds iff the id is non-empty and a key of the book cache, returning exactly the stored handle; "" gives "Missing orderbook_id", an unknown id "orderbook_id is invalid" |
| `HandlersUtils.BookFromOrderId` | handlers/handlers_utils.go:68-77 | "" gives "Missing order_id", an unindexed id "order_id is invalid"; an indexed id gives whatever the book lookup gives for its book id, so a stale mapping surfaces as the book lookup's error; success iff both lookups hit, returning the owning book's handle |
| `Handlers.Cache.RemoveOrderEntry` | handlers/handlers_utils.go:80-82 | the index afterwards is the old one without the order id (a no-op when absent), the book cache is untouched by frame, the order id no longer resolves, and integrity is kept |
| `HandlersUtils.MarshalProcessedOrder` | handlers/handlers_utils.go:85-97 | the record's done list is the engine's done list in the same order and length, its partial order is the engine's partial or the zero order when nil, and both quantities are copied verbatim |
| `Handlers.Cache.UpdateOrderToOrderBookMap` | handlers/handlers_utils.go:100-109 | the loop leaves the index equal to `Associate(old index, bookId, orderId, orders)`, and only the index may change |
| `HandlersUtils.IdsMember` | handlers/handlers_utils.go:104-108 | an id is among those the loop writes exactly when some non-nil entry of `orders` carries it; nil entries contribute nothing |
| `HandlersUtils.AssociateAllOverrides` | handlers/handlers_utils.go:104-108 | the loop over `orders` yields the old map overridden by (every non-nil order's id → bookId), whatever the order of the entries and any repetitions |
| `HandlersUtils.AssociateOverrides` | handlers/handlers_utils.go:100-109 | the whole update yields the old map overridden by (orderId if non-empty, and every non-nil order's id → bookId); all other keys keep their values and no key is removed |
| `HandlersUtils.AssociateIdempotent` | handlers/handlers_utils.go:100-109 | a second identical update changes nothing |
| `HandlersUtils.AssociateKeepsIntegrity` | handlers/handlers.go:133-143 | when the written book id is a key of the book cache, an index whose values were all book-cache keys still has only book-cache keys as values |
| `HandlersUtils.LookupAfterAssociate` | handlers/handlers_utils.go:68-77 | after an update for a cached book, every written id resolves through the order index to that book's handle |
| `HandlersUtils.LookupOutsideAssociate` | handlers/handlers_utils.go:68-77 | an id the update did not write, and that was not indexed before, still fails with "order_id is invalid" |
| `HandlersUtils.AssociateCoversOrders` | handlers/handlers.go:191 | after the update a handler makes, every done order, the non-nil partial order and the non-empty new order id are indexed to the book |
| `Handlers.PathSuffix` | handlers/handlers.go:77 | the identifier is the path after the fixed prefix: prefix + id is the path when the path starts with the prefix, and its length is the path's minus the prefix's |
| `Handlers.Cache.constructor` | handlers/handlers.go:30-33 | both maps start empty, which satisfies the integrity invariant |
| `Handlers.Cache.HandleCreateOrderBook` | handlers/handlers.go:36-52 | non-POST: 405 and the book cache is unchanged; POST: the book cache becomes the old one with the generated id mapped to the new handle, and the reply is 201 with that id, or 500 "Inernal server error." if encoding fails; the book cache only grows, and it grows by exactly one entry when the generated id was unused; the order index is untouched by frame |
| `Handlers.Cache.HandleCancelOrder` | handlers/handlers.go:55-73 | non-POST: 405; a failed lookup of `order_id`: 400 with the lookup's message; engine returns nil: 500 "Failed to cancel order"; engine returns an order: 200 and exactly `order_id` is removed from the index; every non-200 reply leaves the index unchanged; the book cache is untouched by frame; integrity is kept |
| `Handlers.Cache.HandleOrderBookDetails` | handlers/handlers.go:76-92 | the id is the path after "/orderbook/"; a failed book lookup gives 400 with its message ("" gives "Missing orderbook_id"); otherwise 200 with the book's JSON, or 500 when it fails to serialize; modifies nothing |
| `Handlers.Cache.HandleOrderDetails` | handlers/handlers.go:95-111 | the id is the path after "/order/"; a failed order lookup gives 400 with its message; otherwise 200 with the order's JSON, or 500 when it fails to serialize; modifies nothing; while the cache keeps its integrity invariant, the reply is never "orderbook_id is invalid" (a stale index entry cannot arise) |
| `Handlers.Cache.HandleMarketOrder` | handlers/handlers.go:114-153 | checks in fixed order: method (405), side, quantity, non-empty `orderbook_id`, book lookup (400 with the first failure's message); each rejection and an engine error (500 with the engine's message) leave the index unchanged; on success the index becomes `Associate(old, bookId, "", done + [partial])`, so every done order and the non-nil partial are indexed to the book and no generated id is added; the reply is 200 with the engine's done, partial and quantities, including the engine's quantity left; an encoding failure still replies 500 after the index update; integrity is kept |
| `Handlers.Cache.HandleLimitOrder` | handlers/handlers.go:156-201 | checks in fixed order: method (405), side, quantity, price, non-empty `orderbook_id`, book lookup (400 with the first failure's message); each rejection and an engine error (500) leave the index unchanged; on success the index becomes `Associate(old, bookId, generated id, done + [partial])`, so the generated id, every done order and the non-nil partial are indexed to the book; the reply is 200 with quantity left zero; an encoding failure still replies 500 after the index update; integrity is kept |
| `Handlers.Cache.HandleMarketView` | handlers/handlers.go:204-225 | the id is the path after "/orderbook/marketview/"; "" gives 400 "Missing orderbook_id"; an unknown id gives 400 "orderbook_id is invalid"; otherwise 200 with the market overview's JSON, or 500 when it fails to serialize; modifies nothing |

## Left out

- Process startup, route registration and `http.ListenAndServe` (main.go) are I/O plumbing. So is the router's choice of handler for a path. The prefix handlers require the path to be at least as long as their prefix; the router guarantees this, and Go's slice would panic otherwise.
- The matching engine is not modelled: book creation, order processing, cancelling, order lookup, snapshots and market overview. Its answer to the one call a handler makes is a parameter of that handler. The model does not relate that answer to the side, quantity, price or book, and the engine's own state is not tracked.
- `generateId` (a UUID) is a parameter. The code never checks it against existing keys. `Handlers.Cache.HandleCreateOrderBook` therefore states that the cache grows by one entry only under the hypothesis that the id was unused; a colliding id would overwrite the old book.
- Decimal parsing and arithmetic belong to the decimal library. Its parser is the function parameter `dec`; no decimal arithmetic is modelled.
- JSON encoding and response writing are left out. The bytes, headers and the trailing newline `http.Error` adds are not modelled. A reply is a status and a body value, and a failing encoder is a boolean or `None` parameter. A Go `nil` done slice encodes as `null`, while an empty one would encode as `[]`; the model does not distinguish the two.
- `HandlersUtils.MarshalProcessedOrder` takes the engine's done orders as non-nil orders. The Go code dereferences each entry, so a nil entry would panic; the model assumes the engine never returns one. Nil is modelled only where the code tests for it: the partial order, and the entries of `updateOrderToOrderBookMap`.
- `Handlers.Cache.HandleOrderDetails` does not model the case where the engine's order lookup returns nil for an indexed id (for instance an order that was fully matched keeps its index entry). The code then calls the encoder on a nil order without a check, and what happens depends on the engine, which is not part of this model. The `details` parameter covers only an order that encodes or fails to encode.
- `Engine.ZeroOrder`: its side is an assumption. How the engine numbers `Buy` and `Sell` is not part of this model, so the zero order's side is written `Undefined(0)`; if the engine gives `Buy` or `Sell` the value 0, the zero order reported for a missing partial has that side instead.
- `Order` keeps only id, side, quantity and price, the fields this layer reads or reports. The rest of the engine's order record is not modelled.
- `r.FormValue` merges the URL query and the request body and takes the first value; the model reads one map of decoded fields.
- Concurrency is left out. The maps are unsynchronised globals shared by concurrent request goroutines; the handlers are modelled as sequential operations, and races are not modelled.
