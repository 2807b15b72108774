/** Product creation (`createProduct`): a product is owned by the user the
    input names, or else by the session's user, and only an owner holding
    the CREATEPRODUCT permission may create one. */
module ProductRules {
  import opened Entities
  import opened Tables

  const OwnerMissing := Error(UserInputError, "could not find user")
  const MissingCreateProduct := Error(ForbiddenError, "missing permission: CREATEPRODUCT")

  /** `userId`, `categories` and `maxRegistrationsPerOrder` are optional fields of the input. */
  datatype ProductInput = ProductInput(
    name: string,
    price: int,
    status: ProductStatus,
    maxRegistrationsPerOrder: Option<int>,
    userId: Option<Id>,
    categories: Option<seq<ProductCategory>>)

  /** The input validation that runs before the mutation: a price of at
      least 0 and, when given, a maximum of at least 1. */
  predicate InputValid(data: ProductInput) {
    data.price >= 0 && (data.maxRegistrationsPerOrder.Some? ==> data.maxRegistrationsPerOrder.value >= 1)
  }

  /** A stored product's price and maximum are as input validation allows. */
  predicate ProductValid(p: Product) {
    p.price >= 0 && (p.maxRegistrationsPerOrder.Some? ==> p.maxRegistrationsPerOrder.value >= 1)
  }

  predicate ProductsValid(products: seq<Product>) {
    forall i :: 0 <= i < |products| ==> ProductValid(products[i])
  }

  /** `userId || session.userId`: an absent or empty input id falls back to the session's user. */
  function OwnerId(data: ProductInput, sessionUserId: Id): Id {
    if data.userId.Some? && data.userId.value != "" then data.userId.value else sessionUserId
  }

  /** What `createProduct` returns. */
  function AddProduct(users: seq<User>, data: ProductInput, sessionUserId: Id, newId: Id): Result<Product> {
    match FindFirst(users, UserWithId(OwnerId(data, sessionUserId)))
    case None => Failure(OwnerMissing)
    case Some(user) =>
      if CreateProduct !in user.permissions then Failure(MissingCreateProduct)
      else Success(Product(newId, data.name, data.price, user.id, data.status, data.categories, data.maxRegistrationsPerOrder))
  }

  /** The owner is the input's user when one is named, otherwise the session's user. */
  lemma OwnerChoice(data: ProductInput, sessionUserId: Id)
    ensures data.userId.Some? && data.userId.value != "" ==> OwnerId(data, sessionUserId) == data.userId.value
    ensures data.userId.None? || data.userId == Some("") ==> OwnerId(data, sessionUserId) == sessionUserId
  {
  }

  /** An unknown owner is reported before a missing permission, and the
      call succeeds exactly when the owner exists and holds CREATEPRODUCT. */
  lemma AddProductOutcome(users: seq<User>, data: ProductInput, sessionUserId: Id, newId: Id)
    requires WellKeyed(users, UserKey)
    ensures var r := AddProduct(users, data, sessionUserId, newId);
      var owner := OwnerId(data, sessionUserId);
      && (r == Failure(OwnerMissing) <==> !exists u :: u in users && u.id == owner)
      && (r == Failure(MissingCreateProduct) <==>
            exists u :: u in users && u.id == owner && CreateProduct !in u.permissions)
      && (r.Success? <==> exists u :: u in users && u.id == owner && CreateProduct in u.permissions)
  {
    var owner := OwnerId(data, sessionUserId);
    var found := FindFirst(users, UserWithId(owner));
    if found.Some? {
      forall u | u in users && u.id == owner ensures u == found.value {
        KeyedUnique(users, UserKey, u, found.value);
      }
    }
  }

  /** A created product carries the input fields, the new key and the chosen owner,
      and a valid input yields a valid product. */
  lemma AddedProduct(users: seq<User>, data: ProductInput, sessionUserId: Id, newId: Id)
    requires AddProduct(users, data, sessionUserId, newId).Success?
    ensures var p := AddProduct(users, data, sessionUserId, newId).value;
      && p == Product(newId, data.name, data.price, OwnerId(data, sessionUserId), data.status, data.categories, data.maxRegistrationsPerOrder)
      && (InputValid(data) ==> ProductValid(p))
  {
  }
}

/** `createProduct` over the store. */
module ProductResolver {
  import opened Entities
  import opened Tables
  import opened ProductRules
  import opened Store
  import RegistrationRules

  /** Creates a product owned by the chosen user. A failed call stores
      nothing; a successful one appends exactly the new product. The input
      has passed validation; `newId` is the key the database generates. */
  method CreateProduct(db: Database, data: ProductInput, sessionUserId: Id, newId: Id) returns (r: Result<Product>)
    requires InputValid(data)
    requires db.Valid() && KeyFree(db.products, ProductKey, newId)
    modifies db`products
    ensures db.Valid()
    ensures r == AddProduct(db.users, data, sessionUserId, newId)
    ensures db.products == if r.Success? then old(db.products) + [r.value] else old(db.products)
  {
    var user := FindFirst(db.users, UserWithId(OwnerId(data, sessionUserId)));
    if user.None? {
      return Failure(OwnerMissing);
    }
    if Permission.CreateProduct !in user.value.permissions {
      return Failure(MissingCreateProduct);
    }
    var rec := Product(newId, data.name, data.price, user.value.id, data.status, data.categories, data.maxRegistrationsPerOrder);
    NewProductKeepsConsistent(db.users, db.products, db.orders, db.payments, db.registrations, db.assets, rec);
    db.products := db.products + [rec];
    r := Success(rec);
  }

  /** A valid product under a fresh key keeps the store consistent: no
      registration can name the new key, so quotas and references are unaffected. */
  lemma NewProductKeepsConsistent(users: seq<User>, products: seq<Product>, orders: seq<Order>, payments: seq<Payment>,
                                  registrations: seq<Registration>, assets: seq<Asset>, p: Product)
    requires Consistent(users, products, orders, payments, registrations, assets)
    requires KeyFree(products, ProductKey, p.id) && ProductValid(p)
    ensures Consistent(users, products + [p], orders, payments, registrations, assets)
  {
    var ps := products + [p];
    AppendKeepsWellKeyed(products, p, ProductKey);
    forall i | 0 <= i < |registrations|
      ensures exists j :: 0 <= j < |ps| && ps[j].id == registrations[i].productId
    {
      var j :| 0 <= j < |products| && products[j].id == registrations[i].productId;
      assert ps[j] == products[j];
    }
    forall r, q | r in registrations && q in ps && q.id == r.productId
      ensures q.maxRegistrationsPerOrder.Some?
      ensures Count(registrations, RegistrationRules.OfTriple(r.userId, r.productId, r.orderId)) <= q.maxRegistrationsPerOrder.value
    {
      var i :| 0 <= i < |registrations| && registrations[i] == r;
      var j :| 0 <= j < |products| && products[j].id == registrations[i].productId;
      assert q != p;
    }
  }
}
