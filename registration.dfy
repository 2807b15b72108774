/** Registration (`createRegistration`): a user registers a product bought
    with an order at the domain the request comes from. A domain is
    registered once per (user, product, order), and the product caps how
    many registrations one order may hold. */
module RegistrationRules {
  import opened Entities
  import opened Tables

  const OriginMissing := Error(TypeError, "Cannot read property 'replace' of undefined")
  const UserInvalid := Error(UserInputError, "invalid user id")
  const ProductInvalid := Error(UserInputError, "invalid product id")
  const OrderInvalid := Error(UserInputError, "invalid order id")
  const DomainTaken := Error(ApolloError, "already registered at this domain")
  const QuotaExceeded := Error(ApolloError, "max registrations exceeded")

  datatype RegistrationInput = RegistrationInput(userId: Id, productId: Id, orderId: Id)

  const HttpScheme := "http://"
  const HttpsScheme := "https://"

  /** The `Origin` header with one leading `http://` or `https://` removed. */
  function StripScheme(origin: string): (domain: string)
    ensures domain == origin || HttpScheme + domain == origin || HttpsScheme + domain == origin
    ensures domain == origin <==> !(HttpScheme <= origin || HttpsScheme <= origin)
  {
    if HttpScheme <= origin then origin[|HttpScheme|..]
    else if HttpsScheme <= origin then origin[|HttpsScheme|..]
    else origin
  }

  /** The `where` on user, product and order ids of the existing-registrations lookup. */
  function OfTriple(userId: Id, productId: Id, orderId: Id): Registration -> bool {
    (r: Registration) => r.userId == userId && r.productId == productId && r.orderId == orderId
  }

  function AtDomain(domain: string): Registration -> bool {
    (r: Registration) => r.domain == domain
  }

  /** The quota test `max === 0 || count >= max`: a null maximum is coerced
      to 0 by the comparison, so it is reached by every count. */
  predicate QuotaReached(count: nat, max: Option<int>) {
    max == Some(0) || count >= max.GetOr(0)
  }

  /** What `createRegistration` returns for the request's origin header and the input ids. */
  function Register(users: seq<User>, products: seq<Product>, orders: seq<Order>, registrations: seq<Registration>,
                    origin: Option<string>, data: RegistrationInput, newId: Id): Result<Registration>
  {
    match origin
    case None => Failure(OriginMissing)
    case Some(o) =>
      var domain := StripScheme(o);
      match FindFirst(users, UserWithId(data.userId))
      case None => Failure(UserInvalid)
      case Some(user) =>
        match FindFirst(products, ProductWithId(data.productId))
        case None => Failure(ProductInvalid)
        case Some(product) =>
          match FindFirst(orders, OrderWithId(data.orderId))
          case None => Failure(OrderInvalid)
          case Some(order) =>
            var existing := Where(registrations, OfTriple(data.userId, data.productId, data.orderId));
            if |existing| != 0 && |Where(existing, AtDomain(domain))| != 0 then Failure(DomainTaken)
            else if QuotaReached(|existing|, product.maxRegistrationsPerOrder) then Failure(QuotaExceeded)
            else Success(Registration(newId, user.id, product.id, order.id, domain))
  }

  /** Every registration names a stored product. */
  predicate ProductsReferenced(registrations: seq<Registration>, products: seq<Product>) {
    forall i :: 0 <= i < |registrations| ==> exists j :: 0 <= j < |products| && products[j].id == registrations[i].productId
  }

  /** Store invariant: no (user, product, order) holds more registrations than its product allows. */
  predicate WithinQuota(registrations: seq<Registration>, products: seq<Product>) {
    forall r, p :: r in registrations && p in products && p.id == r.productId ==>
      p.maxRegistrationsPerOrder.Some? &&
      Count(registrations, OfTriple(r.userId, r.productId, r.orderId)) <= p.maxRegistrationsPerOrder.value
  }

  /** Store invariant: a (user, product, order) is registered at a domain at most once. */
  predicate DomainsDistinct(registrations: seq<Registration>) {
    forall i, j ::
      (0 <= i < j < |registrations| &&
       OfTriple(registrations[i].userId, registrations[i].productId, registrations[i].orderId)(registrations[j])) ==>
      registrations[i].domain != registrations[j].domain
  }

  /** Exactly one leading scheme is removed: `http://lol.com` becomes `lol.com`,
      a second scheme stays, and a bare host is unchanged. */
  lemma StripSchemeExamples()
    ensures StripScheme("http://lol.com") == "lol.com"
    ensures StripScheme("https://lol.com") == "lol.com"
    ensures StripScheme("https://http://lol.com") == "http://lol.com"
    ensures StripScheme("lol.com") == "lol.com"
    ensures StripScheme("ftp://lol.com") == "ftp://lol.com"
  {
    assert HttpScheme <= "http://lol.com";
    assert "https://lol.com"[4] != HttpScheme[4] && HttpsScheme <= "https://lol.com";
    assert "https://http://lol.com"[4] != HttpScheme[4] && HttpsScheme <= "https://http://lol.com";
    assert "lol.com"[0] != HttpScheme[0] && "lol.com"[0] != HttpsScheme[0];
    assert "ftp://lol.com"[0] != HttpScheme[0] && "ftp://lol.com"[0] != HttpsScheme[0];
  }

  /** Whatever follows a scheme is exactly the domain recorded. */
  lemma StripSchemeInverse(host: string)
    ensures StripScheme(HttpScheme + host) == host
    ensures StripScheme(HttpsScheme + host) == host
  {
    assert (HttpsScheme + host)[4] != HttpScheme[4];
  }

  /** The quota is not reached exactly when the product sets a maximum above the current count. */
  lemma QuotaReachedMeaning(count: nat, max: Option<int>)
    ensures !QuotaReached(count, max) <==> max.Some? && count < max.value
  {
  }

  /** Which error the call reports, in the order the code tests for it. */
  lemma RegisterErrors(users: seq<User>, products: seq<Product>, orders: seq<Order>, registrations: seq<Registration>,
                       origin: Option<string>, data: RegistrationInput, newId: Id)
    ensures var r := Register(users, products, orders, registrations, origin, data, newId);
      var user := FindFirst(users, UserWithId(data.userId));
      var product := FindFirst(products, ProductWithId(data.productId));
      var order := FindFirst(orders, OrderWithId(data.orderId));
      var found := origin.Some? && user.Some? && product.Some? && order.Some?;
      var existing := Where(registrations, OfTriple(data.userId, data.productId, data.orderId));
      var taken := found && exists x :: x in existing && x.domain == StripScheme(origin.value);
      && (r == Failure(OriginMissing) <==> origin.None?)
      && (r == Failure(UserInvalid) <==> origin.Some? && user.None?)
      && (r == Failure(ProductInvalid) <==> origin.Some? && user.Some? && product.None?)
      && (r == Failure(OrderInvalid) <==> origin.Some? && user.Some? && product.Some? && order.None?)
      && (r == Failure(DomainTaken) <==> taken)
      && (r == Failure(QuotaExceeded) <==>
            found && !taken && QuotaReached(|existing|, product.value.maxRegistrationsPerOrder))
      && (r.Success? <==> found && !taken && !QuotaReached(|existing|, product.value.maxRegistrationsPerOrder))
  {
    if origin.Some? {
      var existing := Where(registrations, OfTriple(data.userId, data.productId, data.orderId));
      var matches := Where(existing, AtDomain(StripScheme(origin.value)));
      if matches != [] {
        assert matches[0] in matches;
      }
    }
  }

  /** A registration at an already registered domain is refused as such,
      whatever the product's quota: the domain test comes first. */
  lemma DomainCheckedBeforeQuota(users: seq<User>, products: seq<Product>, orders: seq<Order>, registrations: seq<Registration>,
                                 origin: string, data: RegistrationInput, newId: Id, prior: Registration)
    requires FindFirst(users, UserWithId(data.userId)).Some?
    requires FindFirst(products, ProductWithId(data.productId)).Some?
    requires FindFirst(orders, OrderWithId(data.orderId)).Some?
    requires prior in registrations && OfTriple(data.userId, data.productId, data.orderId)(prior)
    requires prior.domain == StripScheme(origin)
    ensures Register(users, products, orders, registrations, Some(origin), data, newId) == Failure(DomainTaken)
  {
    var existing := Where(registrations, OfTriple(data.userId, data.productId, data.orderId));
    assert prior in existing;
    assert prior in Where(existing, AtDomain(StripScheme(origin)));
  }

  /** A product without a maximum, or with a maximum of 0, accepts no registration. */
  lemma NoQuotaRefusesAll(users: seq<User>, products: seq<Product>, orders: seq<Order>, registrations: seq<Registration>,
                          origin: Option<string>, data: RegistrationInput, newId: Id)
    requires FindFirst(products, ProductWithId(data.productId)).Some?
    requires FindFirst(products, ProductWithId(data.productId)).value.maxRegistrationsPerOrder in {None, Some(0)}
    ensures Register(users, products, orders, registrations, origin, data, newId).Failure?
  {
  }

  /** A new registration holds the input ids, the stripped origin and the new key. */
  lemma RegisteredRecord(users: seq<User>, products: seq<Product>, orders: seq<Order>, registrations: seq<Registration>,
                         origin: Option<string>, data: RegistrationInput, newId: Id)
    requires Register(users, products, orders, registrations, origin, data, newId).Success?
    ensures var r := Register(users, products, orders, registrations, origin, data, newId).value;
      && r == Registration(newId, data.userId, data.productId, data.orderId, StripScheme(origin.value))
      && (exists p :: p in products && p.id == r.productId)
  {
  }

  /** Storing a new registration keeps every (user, product, order) within its product's quota. */
  lemma {:induction false} RegisterKeepsWithinQuota(users: seq<User>, products: seq<Product>, orders: seq<Order>,
                                                    registrations: seq<Registration>, origin: Option<string>, data: RegistrationInput, newId: Id)
    requires WellKeyed(products, ProductKey)
    requires WithinQuota(registrations, products)
    requires Register(users, products, orders, registrations, origin, data, newId).Success?
    ensures WithinQuota(registrations + [Register(users, products, orders, registrations, origin, data, newId).value], products)
  {
    var rec := Register(users, products, orders, registrations, origin, data, newId).value;
    var product := FindFirst(products, ProductWithId(data.productId)).value;
    var regs := registrations + [rec];
    forall r, p | r in regs && p in products && p.id == r.productId
      ensures p.maxRegistrationsPerOrder.Some?
      ensures Count(regs, OfTriple(r.userId, r.productId, r.orderId)) <= p.maxRegistrationsPerOrder.value
    {
      var f := OfTriple(r.userId, r.productId, r.orderId);
      CountAppend(registrations, rec, f);
      if f(rec) {
        KeyedUnique(products, ProductKey, p, product);
        assert Where(registrations, OfTriple(data.userId, data.productId, data.orderId)) == Where(registrations, f);
      } else {
        assert r in registrations;
      }
    }
  }

  /** Storing a new registration keeps each (user, product, order) at distinct domains. */
  lemma {:induction false} RegisterKeepsDomainsDistinct(users: seq<User>, products: seq<Product>, orders: seq<Order>,
                                                        registrations: seq<Registration>, origin: Option<string>, data: RegistrationInput, newId: Id)
    requires DomainsDistinct(registrations)
    requires Register(users, products, orders, registrations, origin, data, newId).Success?
    ensures DomainsDistinct(registrations + [Register(users, products, orders, registrations, origin, data, newId).value])
  {
    var rec := Register(users, products, orders, registrations, origin, data, newId).value;
    var regs := registrations + [rec];
    var existing := Where(registrations, OfTriple(data.userId, data.productId, data.orderId));
    assert forall x :: x in existing ==> x.domain != rec.domain by {
      if existing != [] {
        assert Where(existing, AtDomain(rec.domain)) == [];
      }
    }
    forall i, j | 0 <= i < j < |regs| && OfTriple(regs[i].userId, regs[i].productId, regs[i].orderId)(regs[j])
      ensures regs[i].domain != regs[j].domain
    {
      if j == |registrations| {
        assert regs[i] == registrations[i] && regs[i] in existing;
      } else {
        assert regs[i] == registrations[i] && regs[j] == registrations[j];
      }
    }
  }

  /** A new registration names a stored product. */
  lemma RegisterKeepsProductsReferenced(users: seq<User>, products: seq<Product>, orders: seq<Order>,
                                        registrations: seq<Registration>, origin: Option<string>, data: RegistrationInput, newId: Id)
    requires ProductsReferenced(registrations, products)
    requires Register(users, products, orders, registrations, origin, data, newId).Success?
    ensures ProductsReferenced(registrations + [Register(users, products, orders, registrations, origin, data, newId).value], products)
  {
    var rec := Register(users, products, orders, registrations, origin, data, newId).value;
    var regs := registrations + [rec];
    var p := FindFirst(products, ProductWithId(data.productId)).value;
    var j :| 0 <= j < |products| && products[j] == p;
    forall i | 0 <= i < |regs| ensures exists k :: 0 <= k < |products| && products[k].id == regs[i].productId {
      if i == |registrations| {
        assert products[j].id == regs[i].productId;
      } else {
        assert regs[i] == registrations[i];
      }
    }
  }
}

/** `createRegistration` over the store. */
module RegistrationResolver {
  import opened Entities
  import opened Tables
  import opened RegistrationRules
  import opened Store

  /** The checks `createRegistration` makes before it writes, in its order:
      the origin header, the three lookups, the domain and the quota. On
      success the result is the registration to store. */
  method CheckRegistration(db: Database, origin: Option<string>, data: RegistrationInput, newId: Id)
    returns (r: Result<Registration>)
    ensures r == Register(db.users, db.products, db.orders, db.registrations, origin, data, newId)
  {
    if origin.None? {
      return Failure(OriginMissing);
    }
    var domain := StripScheme(origin.value);
    var user := FindFirst(db.users, UserWithId(data.userId));
    var product := FindFirst(db.products, ProductWithId(data.productId));
    var order := FindFirst(db.orders, OrderWithId(data.orderId));
    if user.None? {
      return Failure(UserInvalid);
    }
    if product.None? {
      return Failure(ProductInvalid);
    }
    if order.None? {
      return Failure(OrderInvalid);
    }
    var existing := Where(db.registrations, OfTriple(data.userId, data.productId, data.orderId));
    if |existing| != 0 {
      var matches := Where(existing, AtDomain(domain));
      if |matches| != 0 {
        return Failure(DomainTaken);
      }
    }
    if QuotaReached(|existing|, product.value.maxRegistrationsPerOrder) {
      return Failure(QuotaExceeded);
    }
    r := Success(Registration(newId, user.value.id, product.value.id, order.value.id, domain));
  }

  /** Registers a product of an order at the request's origin. A failed call
      stores nothing; a successful one appends exactly the new registration.
      `origin` is the request's `Origin` header; `newId` is the key the
      database generates. */
  method CreateRegistration(db: Database, origin: Option<string>, data: RegistrationInput, newId: Id)
    returns (r: Result<Registration>)
    requires db.Valid() && KeyFree(db.registrations, RegistrationKey, newId)
    modifies db`registrations
    ensures db.Valid()
    ensures r == Register(db.users, db.products, db.orders, old(db.registrations), origin, data, newId)
    ensures db.registrations == if r.Success? then old(db.registrations) + [r.value] else old(db.registrations)
  {
    r := CheckRegistration(db, origin, data, newId);
    if r.Success? {
      RegisterKeepsConsistent(db.users, db.products, db.orders, db.payments, db.registrations, db.assets, origin, data, newId);
      db.registrations := db.registrations + [r.value];
    }
  }

  lemma RegisterKeepsConsistent(users: seq<User>, products: seq<Product>, orders: seq<Order>, payments: seq<Payment>,
                                registrations: seq<Registration>, assets: seq<Asset>,
                                origin: Option<string>, data: RegistrationInput, newId: Id)
    requires Consistent(users, products, orders, payments, registrations, assets)
    requires KeyFree(registrations, RegistrationKey, newId)
    requires Register(users, products, orders, registrations, origin, data, newId).Success?
    ensures Consistent(users, products, orders, payments,
                       registrations + [Register(users, products, orders, registrations, origin, data, newId).value], assets)
  {
    var rec := Register(users, products, orders, registrations, origin, data, newId).value;
    assert rec.id == newId by {
      RegisteredRecord(users, products, orders, registrations, origin, data, newId);
    }
    AppendKeepsWellKeyed(registrations, rec, RegistrationKey);
    RegisterKeepsWithinQuota(users, products, orders, registrations, origin, data, newId);
    RegisterKeepsDomainsDistinct(users, products, orders, registrations, origin, data, newId);
    RegisterKeepsProductsReferenced(users, products, orders, registrations, origin, data, newId);
  }
}
