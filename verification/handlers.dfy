/**
 * The request handlers and the in-memory cache they share: the book cache
 * (book id -> book) and the order index (order id -> book id).
 *
 * Each handler is a fixed sequence of early-return checks, then one call into
 * the matching engine, then an update of the cache. The engine's answer to
 * that one call, the generated identifiers and whether JSON encoding fails
 * are parameters; they are consulted only when the handler reaches the call
 * that produces them.
 */
module Handlers {
  import opened Wrappers
  import opened Engine
  import opened Http
  import opened HandlersUtils

  const SideField := "side"
  const QuantityField := "quantity"
  const PriceField := "price"
  const BookIdField := "orderbook_id"
  const OrderIdField := "order_id"

  const BookPathPrefix := "/orderbook/"
  const OrderPathPrefix := "/order/"
  const MarketViewPathPrefix := "/orderbook/marketview/"

  const CreateEncodeError := "Inernal server error."
  const BookEncodeError := "Inernal server erro."
  const OrderEncodeError := "Inernal server error."
  const CancelDone := "Order Cancel request is successful."
  const CancelFailed := "Failed to cancel order"
  const MarketEngineError := "Encountered error in placing market order:"
  const LimitEngineError := "Encountered error in placing limit order:"
  const MarketEncodeError := "Order is place. Internal server error in returning the details."
  const LimitEncodeError := "Order is placed. Internal server error in returning the details."
  const MarketViewEncodeError := "Order is placed. Internal server error in returning the details."

  /** The identifier a prefix route takes from the URL: everything after the prefix. */
  function PathSuffix(prefix: string, path: string): (id: string)
    requires |prefix| <= |path|
    ensures |id| == |path| - |prefix|
    ensures prefix <= path ==> path == prefix + id
  {
    path[|prefix|..]
  }

  function BadRequest(message: string): Response
  {
    Response(StatusBadRequest, Text(message))
  }

  /** The validated form fields of a market order, once every early check has passed. */
  predicate MarketAccepted(req: Request, dec: string -> Option<Decimal>, books: map<string, BookHandle>)
  {
    && req.verb == MethodPost
    && ParseSide(FormValue(req.form, SideField)).err.None?
    && ParseFloat(QuantityField, FormValue(req.form, QuantityField), dec).err.None?
    && FormValue(req.form, BookIdField) != ""
    && FormValue(req.form, BookIdField) in books
  }

  /** The same for a limit order, which also carries a price. */
  predicate LimitAccepted(req: Request, dec: string -> Option<Decimal>, books: map<string, BookHandle>)
  {
    && req.verb == MethodPost
    && ParseSide(FormValue(req.form, SideField)).err.None?
    && ParseFloat(QuantityField, FormValue(req.form, QuantityField), dec).err.None?
    && ParseFloat(PriceField, FormValue(req.form, PriceField), dec).err.None?
    && FormValue(req.form, BookIdField) != ""
    && FormValue(req.form, BookIdField) in books
  }

  /** The response record a processed order is reported with. */
  function StatusOf(done: seq<Order>, partial: Option<Order>, processed: Decimal, left: Decimal): OrderStatus
  {
    OrderStatus(done, if partial.Some? then partial.value else ZeroOrder, processed, left)
  }

  /** The process-wide cache of books and of the book each order belongs to. */
  class Cache {
    var orderBooks: map<string, BookHandle>
    var ordersToBook: map<string, string>

    /** Every order is indexed to a book the cache holds. */
    ghost predicate Valid()
      reads this
    {
      ordersToBook.Values <= orderBooks.Keys
    }

    /** Both maps start empty. */
    constructor ()
      ensures orderBooks == map[] && ordersToBook == map[]
      ensures Valid()
    {
      orderBooks := map[];
      ordersToBook := map[];
    }

    /** Drops an order from the index; an absent order is a no-op. */
    method RemoveOrderEntry(orderId: string)
      modifies this`ordersToBook
      ensures ordersToBook == old(ordersToBook) - {orderId}
      ensures BookFromOrderId(orderBooks, ordersToBook, orderId).Err?
      ensures old(Valid()) ==> Valid()
    {
      ordersToBook := ordersToBook - {orderId};
    }

    /** Indexes `orderId` (when non-empty) and every non-nil order of `orders` to `bookId`. */
    method UpdateOrderToOrderBookMap(bookId: string, orderId: string, orders: seq<Option<Order>>)
      modifies this`ordersToBook
      ensures ordersToBook == Associate(old(ordersToBook), bookId, orderId, orders)
    {
      if orderId != "" {
        ordersToBook := ordersToBook[orderId := bookId];
      }
      ghost var start := ordersToBook;
      for i := 0 to |orders|
        invariant ordersToBook == AssociateAll(start, bookId, orders[..i])
      {
        assert orders[..i + 1][..i] == orders[..i];
        if orders[i].Some? {
          ordersToBook := ordersToBook[orders[i].value.id := bookId];
        }
      }
      assert orders[..|orders|] == orders;
    }

    /**
     * POST /orderbook/create: stores the new book under the generated id.
     * Nothing checks that `freshId` is unused; when it is, the cache grows by
     * exactly one entry.
     */
    method HandleCreateOrderBook(req: Request, newBook: BookHandle, freshId: string, encodeFails: bool)
      returns (resp: Response)
      modifies this`orderBooks
      ensures req.verb != MethodPost ==> resp == CheckHttpPost(req.verb).value && orderBooks == old(orderBooks)
      ensures req.verb == MethodPost ==> orderBooks == old(orderBooks)[freshId := newBook]
      ensures req.verb == MethodPost && !encodeFails ==> resp == Response(StatusCreated, BookCreated(freshId))
      ensures req.verb == MethodPost && encodeFails ==> resp == Response(StatusInternalServerError, Text(CreateEncodeError))
      ensures req.verb == MethodPost && freshId !in old(orderBooks) ==> |orderBooks| == |old(orderBooks)| + 1
      ensures old(orderBooks).Keys <= orderBooks.Keys
      ensures old(Valid()) ==> Valid()
    {
      var rejection := CheckHttpPost(req.verb);
      if rejection.Some? {
        return rejection.value;
      }
      orderBooks := orderBooks[freshId := newBook];
      if encodeFails {
        return Response(StatusInternalServerError, Text(CreateEncodeError));
      }
      resp := Response(StatusCreated, BookCreated(freshId));
    }

    /**
     * POST /order/cancel: finds the order's book and asks the engine to
     * cancel; `cancelled` is the engine's answer (None for nil). Only a
     * successful cancel removes the order from the index.
     */
    method HandleCancelOrder(req: Request, cancelled: Option<Order>) returns (resp: Response)
      modifies this`ordersToBook
      ensures req.verb != MethodPost ==> resp == CheckHttpPost(req.verb).value
      ensures var lookup := BookFromOrderId(orderBooks, old(ordersToBook), FormValue(req.form, OrderIdField));
              req.verb == MethodPost && lookup.Err? ==> resp == BadRequest(lookup.message)
      ensures var lookup := BookFromOrderId(orderBooks, old(ordersToBook), FormValue(req.form, OrderIdField));
              req.verb == MethodPost && lookup.Ok? && cancelled.None? ==>
                    resp == Response(StatusInternalServerError, Text(CancelFailed))
      ensures var lookup := BookFromOrderId(orderBooks, old(ordersToBook), FormValue(req.form, OrderIdField));
              req.verb == MethodPost && lookup.Ok? && cancelled.Some? ==>
                    resp == Response(StatusOK, Text(CancelDone))
                    && ordersToBook == old(ordersToBook) - {FormValue(req.form, OrderIdField)}
      ensures resp.status != StatusOK ==> ordersToBook == old(ordersToBook)
      ensures old(Valid()) ==> Valid()
    {
      var rejection := CheckHttpPost(req.verb);
      if rejection.Some? {
        return rejection.value;
      }
      var orderId := FormValue(req.form, OrderIdField);
      var book := BookFromOrderId(orderBooks, ordersToBook, orderId);
      if book.Err? {
        return BadRequest(book.message);
      }
      if cancelled.Some? {
        RemoveOrderEntry(orderId);
        resp := Response(StatusOK, Text(CancelDone));
      } else {
        resp := Response(StatusInternalServerError, Text(CancelFailed));
      }
    }

    /**
     * GET /orderbook/<id>: the book's serialized state, `snapshot` (None when
     * the book fails to serialize).
     */
    method HandleOrderBookDetails(req: Request, snapshot: Option<Json>) returns (resp: Response)
      requires |BookPathPrefix| <= |req.path|
      ensures var lookup := BookFromId(orderBooks, PathSuffix(BookPathPrefix, req.path));
              lookup.Err? ==> resp == BadRequest(lookup.message)
      ensures var lookup := BookFromId(orderBooks, PathSuffix(BookPathPrefix, req.path));
              lookup.Ok? && snapshot.None? ==> resp == Response(StatusInternalServerError, Text(BookEncodeError))
      ensures var lookup := BookFromId(orderBooks, PathSuffix(BookPathPrefix, req.path));
              lookup.Ok? && snapshot.Some? ==> resp == Response(StatusOK, Document(snapshot.value))
    {
      var id := PathSuffix(BookPathPrefix, req.path);
      var book := BookFromId(orderBooks, id);
      if book.Err? {
        return BadRequest(book.message);
      }
      if snapshot.None? {
        return Response(StatusInternalServerError, Text(BookEncodeError));
      }
      resp := Response(StatusOK, Document(snapshot.value));
    }

    /**
     * GET /order/<id>: the order's serialized details as the owning book
     * reports them, `details` (None when they fail to serialize).
     */
    method HandleOrderDetails(req: Request, details: Option<Json>) returns (resp: Response)
      requires |OrderPathPrefix| <= |req.path|
      ensures var lookup := BookFromOrderId(orderBooks, ordersToBook, PathSuffix(OrderPathPrefix, req.path));
              lookup.Err? ==> resp == BadRequest(lookup.message)
      ensures var lookup := BookFromOrderId(orderBooks, ordersToBook, PathSuffix(OrderPathPrefix, req.path));
              lookup.Ok? && details.None? ==> resp == Response(StatusInternalServerError, Text(OrderEncodeError))
      ensures var lookup := BookFromOrderId(orderBooks, ordersToBook, PathSuffix(OrderPathPrefix, req.path));
              lookup.Ok? && details.Some? ==> resp == Response(StatusOK, Document(details.value))
      ensures Valid() ==> resp != BadRequest(InvalidBookId)
    {
      var orderId := PathSuffix(OrderPathPrefix, req.path);
      var book := BookFromOrderId(orderBooks, ordersToBook, orderId);
      if book.Err? {
        return BadRequest(book.message);
      }
      if details.None? {
        return Response(StatusInternalServerError, Text(OrderEncodeError));
      }
      resp := Response(StatusOK, Document(details.value));
    }

    /**
     * POST /order/market: validates side, quantity and book id in that order,
     * then records the engine's `outcome` in the index and reports it.
     */
    method HandleMarketOrder(req: Request, dec: string -> Option<Decimal>, outcome: MarketOutcome, encodeFails: bool)
      returns (resp: Response)
      modifies this`ordersToBook
      ensures req.verb != MethodPost ==> resp == CheckHttpPost(req.verb).value
      ensures var side := ParseSide(FormValue(req.form, SideField));
              req.verb == MethodPost && side.err.Some? ==> resp == BadRequest(side.err.value)
      ensures var side := ParseSide(FormValue(req.form, SideField));
              var quantity := ParseFloat(QuantityField, FormValue(req.form, QuantityField), dec);
              req.verb == MethodPost && side.err.None? && quantity.err.Some? ==> resp == BadRequest(quantity.err.value)
      ensures var side := ParseSide(FormValue(req.form, SideField));
              var quantity := ParseFloat(QuantityField, FormValue(req.form, QuantityField), dec);
              var lookup := BookFromId(orderBooks, FormValue(req.form, BookIdField));
              req.verb == MethodPost && side.err.None? && quantity.err.None? && lookup.Err? ==>
                    resp == BadRequest(lookup.message)
      ensures !MarketAccepted(req, dec, orderBooks) ==> ordersToBook == old(ordersToBook)
      ensures MarketAccepted(req, dec, orderBooks) && outcome.err.Some? ==>
                    resp == Response(StatusInternalServerError, Text(MarketEngineError + outcome.err.value))
                    && ordersToBook == old(ordersToBook)
      ensures var bookId := FormValue(req.form, BookIdField);
              MarketAccepted(req, dec, orderBooks) && outcome.err.None? ==>
                    && ordersToBook == Associate(old(ordersToBook), bookId, "", Pointers(outcome.done) + [outcome.partial])
                    && (forall o :: o in outcome.done ==> o.id in ordersToBook && ordersToBook[o.id] == bookId)
                    && (outcome.partial.Some? ==> ordersToBook[outcome.partial.value.id] == bookId)
      ensures MarketAccepted(req, dec, orderBooks) && outcome.err.None? && !encodeFails ==>
                    resp == Response(StatusOK, Processed(StatusOf(outcome.done, outcome.partial,
                                                                  outcome.partialQuantityProcessed, outcome.quantityLeft)))
      ensures MarketAccepted(req, dec, orderBooks) && outcome.err.None? && encodeFails ==>
                    resp == Response(StatusInternalServerError, Text(MarketEncodeError))
      ensures old(Valid()) ==> Valid()
    {
      var rejection := CheckHttpPost(req.verb);
      if rejection.Some? {
        return rejection.value;
      }
      var side := ParseSide(FormValue(req.form, SideField));
      if side.err.Some? {
        return BadRequest(side.err.value);
      }
      var quantity := ParseFloat(QuantityField, FormValue(req.form, QuantityField), dec);
      if quantity.err.Some? {
        return BadRequest(quantity.err.value);
      }
      var bookId := FormValue(req.form, BookIdField);
      if bookId == "" {
        return BadRequest(MissingBookId);
      }
      var book := BookFromId(orderBooks, bookId);
      if book.Err? {
        return BadRequest(book.message);
      }
      // `outcome` is the engine's answer to a market order of side.value and quantity.value on book.value.
      if outcome.err.Some? {
        return Response(StatusInternalServerError, Text(MarketEngineError + outcome.err.value));
      }
      ghost var before := ordersToBook;
      UpdateOrderToOrderBookMap(bookId, "", Pointers(outcome.done) + [outcome.partial]);
      AssociateCoversOrders(before, bookId, "", outcome.done, outcome.partial);
      if before.Values <= orderBooks.Keys {
        AssociateKeepsIntegrity(orderBooks, before, bookId, "", Pointers(outcome.done) + [outcome.partial]);
      }
      var status := MarshalProcessedOrder(outcome.done, outcome.partial,
                                          outcome.partialQuantityProcessed, outcome.quantityLeft);
      if encodeFails {
        return Response(StatusInternalServerError, Text(MarketEncodeError));
      }
      resp := Response(StatusOK, Processed(status));
    }

    /**
     * POST /order/limit: validates side, quantity, price and book id in that
     * order, submits the order under the generated `freshOrderId`, then
     * records that id and the engine's `outcome` in the index and reports it
     * with nothing left over.
     */
    method HandleLimitOrder(req: Request, dec: string -> Option<Decimal>, freshOrderId: string,
                            outcome: LimitOutcome, encodeFails: bool)
      returns (resp: Response)
      modifies this`ordersToBook
      ensures req.verb != MethodPost ==> resp == CheckHttpPost(req.verb).value
      ensures var side := ParseSide(FormValue(req.form, SideField));
              req.verb == MethodPost && side.err.Some? ==> resp == BadRequest(side.err.value)
      ensures var side := ParseSide(FormValue(req.form, SideField));
              var quantity := ParseFloat(QuantityField, FormValue(req.form, QuantityField), dec);
              req.verb == MethodPost && side.err.None? && quantity.err.Some? ==> resp == BadRequest(quantity.err.value)
      ensures var side := ParseSide(FormValue(req.form, SideField));
              var quantity := ParseFloat(QuantityField, FormValue(req.form, QuantityField), dec);
              var price := ParseFloat(PriceField, FormValue(req.form, PriceField), dec);
              req.verb == MethodPost && side.err.None? && quantity.err.None? && price.err.Some? ==>
                    resp == BadRequest(price.err.value)
      ensures var side := ParseSide(FormValue(req.form, SideField));
              var quantity := ParseFloat(QuantityField, FormValue(req.form, QuantityField), dec);
              var price := ParseFloat(PriceField, FormValue(req.form, PriceField), dec);
              var lookup := BookFromId(orderBooks, FormValue(req.form, BookIdField));
              req.verb == MethodPost && side.err.None? && quantity.err.None? && price.err.None? && lookup.Err? ==>
                    resp == BadRequest(lookup.message)
      ensures !LimitAccepted(req, dec, orderBooks) ==> ordersToBook == old(ordersToBook)
      ensures LimitAccepted(req, dec, orderBooks) && outcome.err.Some? ==>
                    resp == Response(StatusInternalServerError, Text(LimitEngineError + outcome.err.value))
                    && ordersToBook == old(ordersToBook)
      ensures var bookId := FormValue(req.form, BookIdField);
              LimitAccepted(req, dec, orderBooks) && outcome.err.None? ==>
                    && ordersToBook == Associate(old(ordersToBook), bookId, freshOrderId,
                                                 Pointers(outcome.done) + [outcome.partial])
                    && (freshOrderId != "" ==> freshOrderId in ordersToBook && ordersToBook[freshOrderId] == bookId)
                    && (forall o :: o in outcome.done ==> o.id in ordersToBook && ordersToBook[o.id] == bookId)
                    && (outcome.partial.Some? ==> ordersToBook[outcome.partial.value.id] == bookId)
      ensures LimitAccepted(req, dec, orderBooks) && outcome.err.None? && !encodeFails ==>
                    resp == Response(StatusOK, Processed(StatusOf(outcome.done, outcome.partial,
                                                                  outcome.partialQuantityProcessed, Zero)))
      ensures LimitAccepted(req, dec, orderBooks) && outcome.err.None? && encodeFails ==>
                    resp == Response(StatusInternalServerError, Text(LimitEncodeError))
      ensures old(Valid()) ==> Valid()
    {
      var rejection := CheckHttpPost(req.verb);
      if rejection.Some? {
        return rejection.value;
      }
      var side := ParseSide(FormValue(req.form, SideField));
      if side.err.Some? {
        return BadRequest(side.err.value);
      }
      var quantity := ParseFloat(QuantityField, FormValue(req.form, QuantityField), dec);
      if quantity.err.Some? {
        return BadRequest(quantity.err.value);
      }
      var price := ParseFloat(PriceField, FormValue(req.form, PriceField), dec);
      if price.err.Some? {
        return BadRequest(price.err.value);
      }
      var bookId := FormValue(req.form, BookIdField);
      if bookId == "" {
        return BadRequest(MissingBookId);
      }
      var book := BookFromId(orderBooks, bookId);
      if book.Err? {
        return BadRequest(book.message);
      }
      var orderId := freshOrderId;
      // `outcome` is the engine's answer to a limit order orderId of side.value,
      // quantity.value and price.value on book.value.
      if outcome.err.Some? {
        return Response(StatusInternalServerError, Text(LimitEngineError + outcome.err.value));
      }
      ghost var before := ordersToBook;
      UpdateOrderToOrderBookMap(bookId, orderId, Pointers(outcome.done) + [outcome.partial]);
      AssociateCoversOrders(before, bookId, orderId, outcome.done, outcome.partial);
      if before.Values <= orderBooks.Keys {
        AssociateKeepsIntegrity(orderBooks, before, bookId, orderId, Pointers(outcome.done) + [outcome.partial]);
      }
      var status := MarshalProcessedOrder(outcome.done, outcome.partial, outcome.partialQuantityProcessed, Zero);
      if encodeFails {
        return Response(StatusInternalServerError, Text(LimitEncodeError));
      }
      resp := Response(StatusOK, Processed(status));
    }

    /**
     * GET /orderbook/marketview/<id>: the book's market depth, `overview`
     * (None when it fails to serialize).
     */
    method HandleMarketView(req: Request, overview: Option<Json>) returns (resp: Response)
      requires |MarketViewPathPrefix| <= |req.path|
      ensures var bookId := PathSuffix(MarketViewPathPrefix, req.path);
              bookId == "" ==> resp == BadRequest(MissingBookId)
      ensures var lookup := BookFromId(orderBooks, PathSuffix(MarketViewPathPrefix, req.path));
              lookup.Err? ==> resp == BadRequest(lookup.message)
      ensures var lookup := BookFromId(orderBooks, PathSuffix(MarketViewPathPrefix, req.path));
              lookup.Ok? && overview.None? ==> resp == Response(StatusInternalServerError, Text(MarketViewEncodeError))
      ensures var lookup := BookFromId(orderBooks, PathSuffix(MarketViewPathPrefix, req.path));
              lookup.Ok? && overview.Some? ==> resp == Response(StatusOK, Document(overview.value))
    {
      var bookId := PathSuffix(MarketViewPathPrefix, req.path);
      if bookId == "" {
        return BadRequest(MissingBookId);
      }
      var book := BookFromId(orderBooks, bookId);
      if book.Err? {
        return BadRequest(book.message);
      }
      if overview.None? {
        return Response(StatusInternalServerError, Text(MarketViewEncodeError));
      }
      resp := Response(StatusOK, Document(overview.value));
    }
  }
}
