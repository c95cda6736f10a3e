/**
 * The helpers of the handlers package: field validators, the two cache
 * lookups, the bookkeeping that associates order ids with a book, and the
 * response record that normalises limit and market results.
 *
 * The lookups only read the two cache maps, so they are functions of those
 * maps; the class in module Handlers passes its fields to them.
 */
module HandlersUtils {
  import opened Wrappers
  import opened Engine
  import opened Http

  const SideError := "Side should be either 0 or 1"
  const MissingBookId := "Missing orderbook_id"
  const InvalidBookId := "orderbook_id is invalid"
  const MissingOrderId := "Missing order_id"
  const InvalidOrderId := "order_id is invalid"
  const PostRequired := "Invalid request method. Post Method is required"

  /** The record returned for a processed limit or market order. */
  datatype OrderStatus = OrderStatus(
    done: seq<Order>,
    partial: Order,
    partialQuantityProcessed: Decimal,
    quantityLeft: Decimal)

  /** What a handler writes back: a plain message or one of its JSON payloads. */
  datatype Body =
    | Text(message: string)
    | BookCreated(orderbookId: string)
    | Processed(status: OrderStatus)
    | Document(json: Json)

  datatype Response = Response(status: int, body: Body)

  /**
   * Parses a decimal request field. `dec` is the decimal library's parser
   * (None when it rejects the text). The empty string is rejected before the
   * parser is consulted, and every rejection carries the zero decimal.
   */
  function ParseFloat(field: string, val: string, dec: string -> Option<Decimal>): (r: Parsed<Decimal>)
    ensures r.err.None? <==> val != "" && dec(val).Some?
    ensures r.err.None? ==> r.value == dec(val).value
    ensures r.err.Some? ==> r.value == Zero
    ensures val == "" ==> r.err == Some(field + "  can not be empty")
    ensures val != "" && dec(val).None? ==> r.err == Some("Invalid " + field)
  {
    if val == "" then Parsed(Zero, Some(field + "  can not be empty"))
    else match dec(val)
      case None => Parsed(Zero, Some("Invalid " + field))
      case Some(v) => Parsed(v, None)
  }

  /** Parses the `side` field: exactly "0" is Buy and exactly "1" is Sell. */
  function ParseSide(side: string): (r: Parsed<Side>)
    ensures r.err.None? <==> side == "0" || side == "1"
    ensures side == "0" ==> r.value == Buy
    ensures side == "1" ==> r.value == Sell
    ensures r.err.Some? ==> r == Parsed(Undefined(-1), Some(SideError))
  {
    if side == "0" then Parsed(Buy, None)
    else if side == "1" then Parsed(Sell, None)
    else Parsed(Undefined(-1), Some(SideError))
  }

  /** The method check of the mutating handlers: None lets the request through. */
  function CheckHttpPost(verb: string): (rejection: Option<Response>)
    ensures rejection.None? <==> verb == MethodPost
    ensures rejection.Some? ==> rejection.value == Response(StatusMethodNotAllowed, Text(PostRequired))
  {
    if verb != MethodPost then Some(Response(StatusMethodNotAllowed, Text(PostRequired))) else None
  }

  /** Looks a book up by its id in the book cache. */
  function BookFromId(books: map<string, BookHandle>, bookId: string): (r: Result<BookHandle>)
    ensures r.Ok? <==> bookId != "" && bookId in books
    ensures r.Ok? ==> r.value == books[bookId]
    ensures bookId == "" ==> r == Err(MissingBookId)
    ensures bookId != "" && bookId !in books ==> r == Err(InvalidBookId)
  {
    if bookId == "" then Err(MissingBookId)
    else if bookId !in books then Err(InvalidBookId)
    else Ok(books[bookId])
  }

  /**
   * Looks up the book that owns an order: first the order index, then the
   * book cache. A mapping to a book the cache does not hold surfaces as the
   * book lookup's error.
   */
  function BookFromOrderId(books: map<string, BookHandle>, orders: map<string, string>, orderId: string)
    : (r: Result<BookHandle>)
    ensures r.Ok? <==> orderId != "" && orderId in orders && orders[orderId] != "" && orders[orderId] in books
    ensures r.Ok? ==> r.value == books[orders[orderId]]
    ensures orderId == "" ==> r == Err(MissingOrderId)
    ensures orderId != "" && orderId !in orders ==> r == Err(InvalidOrderId)
    ensures orderId != "" && orderId in orders ==> r == BookFromId(books, orders[orderId])
  {
    if orderId == "" then Err(MissingOrderId)
    else if orderId !in orders then Err(InvalidOrderId)
    else BookFromId(books, orders[orderId])
  }

  /** `append(done, partial)` seen as a slice of pointers. */
  function Pointers(done: seq<Order>): seq<Option<Order>>
  {
    seq(|done|, i requires 0 <= i < |done| => Some(done[i]))
  }

  /** The id of a non-nil order; nothing for nil. */
  function IdOf(o: Option<Order>): set<string>
  {
    if o.Some? then {o.value.id} else {}
  }

  /** The ids of the non-nil entries of `orders`. */
  function Ids(orders: seq<Option<Order>>): set<string>
  {
    if orders == [] then {} else Ids(orders[..|orders| - 1]) + IdOf(orders[|orders| - 1])
  }

  /** The keys an association writes: the given order id when non-empty, and every non-nil order's id. */
  function Targets(orderId: string, orders: seq<Option<Order>>): set<string>
  {
    (if orderId != "" then {orderId} else {}) + Ids(orders)
  }

  /** The map that sends every key of `keys` to `v`. */
  function ConstMap(keys: set<string>, v: string): map<string, string>
  {
    map k | k in keys :: v
  }

  /** The effect of the loop over `orders`: each non-nil order's id is mapped to `bookId`, in order. */
  function AssociateAll(m: map<string, string>, bookId: string, orders: seq<Option<Order>>): map<string, string>
  {
    if orders == [] then m
    else
      var before := AssociateAll(m, bookId, orders[..|orders| - 1]);
      match orders[|orders| - 1]
      case None => before
      case Some(o) => before[o.id := bookId]
  }

  /** The whole effect of updating the order index for `bookId`, `orderId` and `orders`. */
  function Associate(m: map<string, string>, bookId: string, orderId: string, orders: seq<Option<Order>>)
    : map<string, string>
  {
    AssociateAll(if orderId != "" then m[orderId := bookId] else m, bookId, orders)
  }

  /** A key is an id of `orders` exactly when some non-nil entry carries it. */
  lemma {:induction false} IdsMember(orders: seq<Option<Order>>, k: string)
    ensures k in Ids(orders) <==> exists i :: 0 <= i < |orders| && orders[i].Some? && orders[i].value.id == k
  {
    if orders != [] {
      var n := |orders| - 1;
      var init := orders[..n];
      IdsMember(init, k);
      if k in Ids(orders) {
        if k in Ids(init) {
          var i :| 0 <= i < |init| && init[i].Some? && init[i].value.id == k;
          assert orders[i] == init[i];
        } else {
          assert orders[n].Some? && orders[n].value.id == k;
        }
      }
      if exists i :: 0 <= i < |orders| && orders[i].Some? && orders[i].value.id == k {
        var i :| 0 <= i < |orders| && orders[i].Some? && orders[i].value.id == k;
        if i < n {
          assert init[i] == orders[i];
        }
      }
    }
  }

  /** The loop leaves `m` overridden by `ids(orders) -> bookId`, whatever the order and repetitions. */
  lemma {:induction false} AssociateAllOverrides(m: map<string, string>, bookId: string, orders: seq<Option<Order>>)
    ensures AssociateAll(m, bookId, orders) == m + ConstMap(Ids(orders), bookId)
  {
    if orders == [] {
      assert ConstMap(Ids(orders), bookId) == map[];
    } else {
      var init := orders[..|orders| - 1];
      AssociateAllOverrides(m, bookId, init);
      var last := orders[|orders| - 1];
      assert Ids(orders) == Ids(init) + IdOf(last);
      match last
      case None =>
        assert ConstMap(Ids(orders), bookId) == ConstMap(Ids(init), bookId);
      case Some(o) =>
        assert (m + ConstMap(Ids(init), bookId))[o.id := bookId] == m + ConstMap(Ids(orders), bookId);
    }
  }

  /**
   * Updating the order index maps every target key to `bookId` and leaves
   * every other entry as it was: the result is `m` overridden by
   * `Targets(orderId, orders) -> bookId`.
   */
  lemma AssociateOverrides(m: map<string, string>, bookId: string, orderId: string, orders: seq<Option<Order>>)
    ensures Associate(m, bookId, orderId, orders) == m + ConstMap(Targets(orderId, orders), bookId)
  {
    var start := if orderId != "" then m[orderId := bookId] else m;
    AssociateAllOverrides(start, bookId, orders);
  }

  /** A second identical update changes nothing. */
  lemma AssociateIdempotent(m: map<string, string>, bookId: string, orderId: string, orders: seq<Option<Order>>)
    ensures Associate(Associate(m, bookId, orderId, orders), bookId, orderId, orders)
         == Associate(m, bookId, orderId, orders)
  {
    var once := Associate(m, bookId, orderId, orders);
    AssociateOverrides(m, bookId, orderId, orders);
    AssociateOverrides(once, bookId, orderId, orders);
    var c := ConstMap(Targets(orderId, orders), bookId);
    assert once + c == once;
  }

  /**
   * Referential integrity survives an update that writes a book id found in
   * the book cache: every value of the order index stays a key of the cache.
   */
  lemma AssociateKeepsIntegrity(books: map<string, BookHandle>, m: map<string, string>, bookId: string,
                                orderId: string, orders: seq<Option<Order>>)
    requires m.Values <= books.Keys
    requires bookId in books
    ensures Associate(m, bookId, orderId, orders).Values <= books.Keys
  {
    AssociateOverrides(m, bookId, orderId, orders);
    var r := Associate(m, bookId, orderId, orders);
    var c := ConstMap(Targets(orderId, orders), bookId);
    forall v | v in r.Values ensures v in books.Keys {
      var k :| k in r && r[k] == v;
      if k in c {
        assert v == bookId;
      } else {
        assert k in m && m[k] == v;
      }
    }
  }

  /**
   * After an update for a book held in the cache, every id it wrote resolves
   * through the order index to that book.
   */
  lemma LookupAfterAssociate(books: map<string, BookHandle>, m: map<string, string>, bookId: string,
                             orderId: string, orders: seq<Option<Order>>, k: string)
    requires bookId != "" && bookId in books
    requires k != "" && k in Targets(orderId, orders)
    ensures BookFromOrderId(books, Associate(m, bookId, orderId, orders), k) == Ok(books[bookId])
  {
    AssociateOverrides(m, bookId, orderId, orders);
    assert Associate(m, bookId, orderId, orders)[k] == bookId;
  }

  /** An id the update did not write, and that was not indexed before, still fails to resolve. */
  lemma LookupOutsideAssociate(books: map<string, BookHandle>, m: map<string, string>, bookId: string,
                               orderId: string, orders: seq<Option<Order>>, k: string)
    requires k != "" && k !in Targets(orderId, orders) && k !in m
    ensures BookFromOrderId(books, Associate(m, bookId, orderId, orders), k) == Err(InvalidOrderId)
  {
    AssociateOverrides(m, bookId, orderId, orders);
  }

  /**
   * After the update a handler makes for a processed order, every order the
   * engine reported (done or partial) and the new order's id, if any, are
   * indexed to the book.
   */
  lemma AssociateCoversOrders(m: map<string, string>, bookId: string, orderId: string,
                              done: seq<Order>, partial: Option<Order>)
    ensures var r := Associate(m, bookId, orderId, Pointers(done) + [partial]);
            && (forall o :: o in done ==> o.id in r && r[o.id] == bookId)
            && (partial.Some? ==> partial.value.id in r && r[partial.value.id] == bookId)
            && (orderId != "" ==> orderId in r && r[orderId] == bookId)
  {
    var orders := Pointers(done) + [partial];
    AssociateOverrides(m, bookId, orderId, orders);
    forall o | o in done ensures o.id in Ids(orders) {
      var i :| 0 <= i < |done| && done[i] == o;
      assert orders[i] == Some(o);
      IdsMember(orders, o.id);
    }
    if partial.Some? {
      assert orders[|done|] == partial;
      IdsMember(orders, partial.value.id);
    }
  }

  /**
   * Builds the response record: the done orders in their order, the partial
   * order or the zero order when there is none, and both quantities as given.
   */
  method MarshalProcessedOrder(done: seq<Order>, partial: Option<Order>,
                               partialQuantityProcessed: Decimal, quantityLeft: Decimal)
    returns (s: OrderStatus)
    ensures s.done == done
    ensures s.partial == (if partial.Some? then partial.value else ZeroOrder)
    ensures s.partialQuantityProcessed == partialQuantityProcessed
    ensures s.quantityLeft == quantityLeft
  {
    s := OrderStatus([], ZeroOrder, partialQuantityProcessed, quantityLeft);
    for i := 0 to |done|
      invariant s.done == done[..i]
      invariant s.partial == ZeroOrder
      invariant s.partialQuantityProcessed == partialQuantityProcessed
      invariant s.quantityLeft == quantityLeft
    {
      s := s.(done := s.done + [done[i]]);
    }
    if partial.Some? {
      s := s.(partial := partial.value);
    }
  }
}
