/** Order placement (`createOrder`): the session's user checks out a list
    of products; the order stores those products, a tax of 0 and their
    total. */
module OrderRules {
  import opened Entities
  import opened Tables
  import opened ProductRules

  const UserMissing := Error(UserInputError, "could not find user")
  const ProductsMissing := Error(UserInputError, "could not find products")
  const DiscontinuedProduct := Error(UserInputError, "cannot create order for discontinued product")

  /** The OR of one `{ id }` filter per requested id. */
  function RequestedBy(ids: seq<Id>): Product -> bool {
    (p: Product) => p.id in ids
  }

  /** The products the lookup yields: each stored product whose id was
      requested, once. An empty list of filters is no condition at all, so
      requesting no id yields every stored product. */
  function ResolveProducts(products: seq<Product>, ids: seq<Id>): seq<Product> {
    if ids == [] then products else Where(products, RequestedBy(ids))
  }

  /** The length check can pass: every requested id is stored, none is
      requested twice, and an empty request meets an empty product table. */
  predicate Resolvable(products: seq<Product>, ids: seq<Id>) {
    AllResolve(products, ids) && Distinct(ids) && (ids == [] ==> products == [])
  }

  /** The `reduce` that adds up the prices, left to right. */
  function PriceSum(ps: seq<Product>): int {
    if ps == [] then 0 else PriceSum(ps[..|ps| - 1]) + ps[|ps| - 1].price
  }

  /** The `some` test for a discontinued product. */
  predicate AnyDiscontinued(ps: seq<Product>) {
    exists p :: p in ps && p.status == Discontinued
  }

  /** What `createOrder` returns for the session's user id and the requested ids. */
  function PlaceOrder(users: seq<User>, products: seq<Product>, sessionUserId: Id, productIds: seq<Id>, newId: Id): Result<Order> {
    match FindFirst(users, UserWithId(sessionUserId))
    case None => Failure(UserMissing)
    case Some(user) =>
      var found := ResolveProducts(products, productIds);
      if |found| != |productIds| then Failure(ProductsMissing)
      else if AnyDiscontinued(found) then Failure(DiscontinuedProduct)
      else
        var tax := 0;
        Success(Order(newId, user.id, found, tax, PriceSum(found) + tax))
  }

  /** Every requested id names a stored product. */
  predicate AllResolve(products: seq<Product>, ids: seq<Id>) {
    forall id :: id in ids ==> exists p :: p in products && p.id == id
  }

  /** Some requested id names a discontinued product. */
  predicate RequestsDiscontinued(products: seq<Product>, ids: seq<Id>) {
    exists p :: p in products && p.id in ids && p.status == Discontinued
  }

  /** Store invariant: every order's total is its tax plus its products' prices. */
  predicate TotalsConsistent(orders: seq<Order>) {
    forall i :: 0 <= i < |orders| ==> orders[i].total == orders[i].tax + PriceSum(orders[i].products)
  }

  /** The ids of the products the OR of `{ id }` filters matches were all
      requested, and none repeats. */
  lemma ResolvedKeys(products: seq<Product>, ids: seq<Id>)
    requires WellKeyed(products, ProductKey)
    ensures var ks := Keys(Where(products, RequestedBy(ids)), ProductKey);
      Elements(ks) <= Elements(ids) && |Elements(ks)| == |ks|
  {
    var w := Where(products, RequestedBy(ids));
    WhereKeepsWellKeyed(products, RequestedBy(ids), ProductKey);
    var ks := Keys(w, ProductKey);
    DistinctCard(ks);
    forall k | k in Elements(ks) ensures k in Elements(ids) {
      var i :| 0 <= i < |ks| && ks[i] == k;
      assert w[i] in w;
    }
  }

  /** The length check passes exactly when every requested id is stored and
      no id is requested twice: the lookup yields each matching product once,
      so a repeated id makes the lengths differ. An empty request passes only
      against an empty product table. */
  lemma {:induction false} ResolvedCountMatches(products: seq<Product>, ids: seq<Id>)
    requires WellKeyed(products, ProductKey)
    ensures |ResolveProducts(products, ids)| == |ids| <==> Resolvable(products, ids)
  {
    if ids != [] {
      if |Where(products, RequestedBy(ids))| == |ids| {
        CountMatchResolves(products, ids);
      }
      if AllResolve(products, ids) && Distinct(ids) {
        ResolvesCountMatch(products, ids);
      }
    }
  }

  lemma CountMatchResolves(products: seq<Product>, ids: seq<Id>)
    requires WellKeyed(products, ProductKey)
    requires |Where(products, RequestedBy(ids))| == |ids|
    ensures AllResolve(products, ids) && Distinct(ids)
  {
    var w := Where(products, RequestedBy(ids));
    var ks := Keys(w, ProductKey);
    ResolvedKeys(products, ids);
    DistinctCard(ids);
    SubsetCard(Elements(ks), Elements(ids));
    SubsetSameSize(Elements(ks), Elements(ids));
    forall id | id in ids ensures exists p :: p in products && p.id == id {
      assert id in Elements(ids);
      var i :| 0 <= i < |ks| && ks[i] == id;
      assert w[i] in w;
    }
  }

  lemma ResolvesCountMatch(products: seq<Product>, ids: seq<Id>)
    requires WellKeyed(products, ProductKey)
    requires AllResolve(products, ids) && Distinct(ids)
    ensures |Where(products, RequestedBy(ids))| == |ids|
  {
    var w := Where(products, RequestedBy(ids));
    var ks := Keys(w, ProductKey);
    ResolvedKeys(products, ids);
    DistinctCard(ids);
    forall id | id in Elements(ids) ensures id in Elements(ks) {
      var p :| p in products && p.id == id;
      assert p in w;
      var i :| 0 <= i < |w| && w[i] == p;
      assert ks[i] == id;
    }
    assert Elements(ks) == Elements(ids);
  }

  /** Which error `createOrder` reports, in the order the checks run: the
      user first, then the product lookup, then the discontinued test. */
  lemma PlaceOrderOutcome(users: seq<User>, products: seq<Product>, uid: Id, ids: seq<Id>, newId: Id)
    requires WellKeyed(products, ProductKey)
    ensures var r := PlaceOrder(users, products, uid, ids, newId);
      var known := FindFirst(users, UserWithId(uid)).Some?;
      && (r == Failure(UserMissing) <==> !known)
      && (r == Failure(ProductsMissing) <==> known && !Resolvable(products, ids))
      && (r == Failure(DiscontinuedProduct) <==>
            known && Resolvable(products, ids) && RequestsDiscontinued(products, ids))
      && (r.Success? <==>
            known && Resolvable(products, ids) && !RequestsDiscontinued(products, ids))
  {
    ResolvedCountMatches(products, ids);
    var found := ResolveProducts(products, ids);
    assert Resolvable(products, ids) ==> (AnyDiscontinued(found) <==> RequestsDiscontinued(products, ids)) by {
      if Resolvable(products, ids) && RequestsDiscontinued(products, ids) {
        var p :| p in products && p.id in ids && p.status == Discontinued;
        assert p in found;
      }
    }
  }

  /** An empty request is refused with "could not find products" whenever
      any product is stored, and otherwise places an empty order of total 0. */
  lemma EmptyRequest(users: seq<User>, products: seq<Product>, uid: Id, newId: Id)
    requires FindFirst(users, UserWithId(uid)).Some?
    ensures PlaceOrder(users, products, uid, [], newId) ==
      if products == [] then Success(Order(newId, uid, [], 0, 0)) else Failure(ProductsMissing)
  {
  }

  /** A placed order belongs to the session's user, holds every requested
      product exactly once and nothing else, has tax 0, and its total is the
      tax plus the sum of its products' prices, never negative when the
      stored prices are valid. */
  lemma PlacedOrderContents(users: seq<User>, products: seq<Product>, uid: Id, ids: seq<Id>, newId: Id)
    requires WellKeyed(products, ProductKey)
    requires PlaceOrder(users, products, uid, ids, newId).Success?
    ensures var o := PlaceOrder(users, products, uid, ids, newId).value;
      && o.id == newId && o.userId == uid
      && o.tax == 0 && o.total == o.tax + PriceSum(o.products)
      && |o.products| == |ids|
      && Distinct(Keys(o.products, ProductKey))
      && (forall p :: p in o.products ==> p in products && p.id in ids && p.status == Active)
      && (forall id :: id in ids ==> exists p :: p in o.products && p.id == id)
      && (ProductsValid(products) ==> o.total >= 0)
  {
    var o := PlaceOrder(users, products, uid, ids, newId).value;
    ResolvedCountMatches(products, ids);
    WhereKeepsWellKeyed(products, RequestedBy(ids), ProductKey);
    forall id | id in ids ensures exists p :: p in o.products && p.id == id {
      var p :| p in products && p.id == id;
      assert p in o.products;
    }
    if ProductsValid(products) {
      forall p | p in o.products ensures p.price >= 0 {
        var i :| 0 <= i < |products| && products[i] == p;
      }
      PriceSumNonNegative(o.products);
    }
  }

  /** Placing an order reads no order: the same input placed again yields the same order under a new key. */
  lemma RepeatOrderSucceeds(users: seq<User>, products: seq<Product>, uid: Id, ids: seq<Id>, firstId: Id, secondId: Id)
    requires PlaceOrder(users, products, uid, ids, firstId).Success?
    ensures PlaceOrder(users, products, uid, ids, secondId)
         == Success(PlaceOrder(users, products, uid, ids, firstId).value.(id := secondId))
  {
  }

  /** With non-negative prices, as product input validation guarantees, a total is never negative. */
  lemma {:induction false} PriceSumNonNegative(ps: seq<Product>)
    requires forall p :: p in ps ==> p.price >= 0
    ensures PriceSum(ps) >= 0
    decreases |ps|
  {
    if ps != [] {
      assert ps[|ps| - 1] in ps;
      PriceSumNonNegative(ps[..|ps| - 1]);
    }
  }
}

/** `createOrder` over the store: the checks, then one appended order. */
module OrderResolver {
  import opened Entities
  import opened Tables
  import opened OrderRules
  import opened Store
  import PaymentRules

  /** Places an order for the session's user. A failed call stores nothing;
      a successful one appends exactly the placed order. `newId` is the key
      the database generates. */
  method CreateOrder(db: Database, sessionUserId: Id, productIds: seq<Id>, newId: Id) returns (r: Result<Order>)
    requires db.Valid() && KeyFree(db.orders, OrderKey, newId)
    modifies db`orders
    ensures db.Valid()
    ensures r == PlaceOrder(db.users, db.products, sessionUserId, productIds, newId)
    ensures r.Success? ==> r.value.total >= 0
    ensures db.orders == if r.Success? then old(db.orders) + [r.value] else old(db.orders)
  {
    var user := FindFirst(db.users, UserWithId(sessionUserId));
    if user.None? {
      return Failure(UserMissing);
    }
    var found := ResolveProducts(db.products, productIds);
    if |found| != |productIds| {
      return Failure(ProductsMissing);
    }
    if AnyDiscontinued(found) {
      return Failure(DiscontinuedProduct);
    }
    var tax := 0;
    var order := Order(newId, user.value.id, found, tax, PriceSum(found) + tax);
    PlacedOrderContents(db.users, db.products, sessionUserId, productIds, newId);
    AppendKeepsWellKeyed(db.orders, order, OrderKey);
    PaymentRules.OrderKeepsOwned(db.payments, db.orders, order);
    db.orders := db.orders + [order];
    r := Success(order);
  }
}
