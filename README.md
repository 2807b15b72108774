# gql-api core in Dafny

This project models the business rules of the gql-api e-commerce backend, a
GraphQL server over a relational store. It covers:

- the mutations that write the store: `createOrder`, `createPayment`,
  `createRegistration`, `createAsset`, `createProduct`, `createUser` and
  `startSession`, plus the read-only `authenticate`;
- the query helpers `prepareQuery` and `searchSet`;
- pagination (`paginate`);
- the login `Session`;
- the session-cookie middleware.

**The store.** `Store.Database` is a class with one table per entity
(users, products, orders, payments, registrations, assets). Each table is a
sequence of rows in storage order. Every mutation is a method that works the
way its resolver does:

1. look up;
2. check;
3. then either append one row or fail with a typed error (`Result`).

A failed call leaves its table unchanged. `createPayment` is the one
exception: when the charge is declined, it stores a DECLINED row and then
fails.

**The invariant.** `Store.Consistent` is the invariant every mutation keeps.
It requires:

- unique, non-empty primary keys;
- stored products that passed input validation;
- order totals that add up;
- every payment made by the owner of the order it pays;
- at most one PAID or PROCESSING payment per order and user, and hence
  per order (`PaymentRules.OneLivePerOrder`);
- registrations that name a stored product, stay within the product's
  quota and use distinct domains per (user, product, order);
- unique asset keys.

**How each domain is laid out.** Each domain has a `…Rules` module and a
`…Resolver` module.

- The `…Rules` module holds a function that states what the mutation
  returns, plus the lemmas about it.
- The `…Resolver` module holds the method. The method runs the checks in
  the source's order and is proved to return exactly what that function
  returns.

**Parameters in place of outside code.**

- Generated keys (`newId`, `paymentId`) are values given to the method, and
  the method requires them to be unused.
- The random transaction id is a parameter.
- The card gateway is a class whose answer to a sale is a fixed oracle
  `approves`.
- bcrypt's hash (a function from password to hash) and compare, and the
  password policy, are parameters.
- The clock is an integer `now`.
- The outcome of loading or saving a session in Redis is a parameter.

**Behaviour worth noting:**

- **Repeated product ids in `createOrder`.** The lookup is an OR of id
  filters, so each stored product comes back once. A request that names a
  product twice therefore fails the length check
  (`OrderRules.ResolvedCountMatches`).
- **An empty list of product ids in `createOrder`.** An empty OR of filters
  is no condition, so the lookup returns every stored product. The request
  fails with "could not find products" whenever any product is stored, and
  places an empty order of total 0 only when none is
  (`OrderRules.EmptyRequest`).
- **A repeated `createPayment` with a different amount.** The amount check
  runs before the existing-payment check, so a repeat payment of a paid
  order at a different amount fails with the amount mismatch, not with
  "payment already exists" (`PaymentRules.PaidOrderRefusesRepeat`).

## Model

| member | source | states |
|---|---|---|
| OrderResolver.CreateOrder | src/domains/Order/OrderResolver.ts:18-50 | returns exactly `PlaceOrder` of the stored users and products, with a non-negative total; a failure stores nothing, a success appends exactly the placed order; the store stays consistent |
| OrderRules.PlaceOrderOutcome | src/domains/Order/OrderResolver.ts:22-38 | the unknown user is reported first, then unresolved or repeated ids (or an empty request against a non-empty product table), then a discontinued product; the call succeeds exactly when the user exists, the request is resolvable and no requested product is discontinued |
| OrderRules.ResolvedCountMatches | src/domains/Order/OrderResolver.ts:27-33 | the length check passes if and only if every requested id is stored, no id repeats, and an empty request meets an empty product table |
| OrderRules.ResolvedKeys | src/domains/Order/OrderResolver.ts:27-29 | the products an OR of id filters matches are requested ones, each at most once |
| OrderRules.EmptyRequest | src/domains/Order/OrderResolver.ts:27-33 | with no ids the lookup has no condition: the call fails with "could not find products" if any product is stored, and otherwise places an empty order of total 0 |
| OrderRules.PlacedOrderContents | src/domains/Order/OrderResolver.ts:40-49 | a placed order belongs to the session's user, holds every requested product exactly once and only requested active products, has tax 0 and total = tax + sum of prices, which is non-negative when stored prices are valid |
| OrderRules.RepeatOrderSucceeds | src/domains/Order/__tests__/OrderResolver.spec.ts:82-88 | no idempotency: the same input placed again yields the same order under a new key |
| OrderRules.PriceSumNonNegative | src/domains/Order/OrderResolver.ts:42 | with non-negative prices the total is non-negative |
| PaymentResolver.CheckPaymentRequest | src/domains/Payment/PaymentResolver.ts:31-66 | the user, owned-order, amount and existing-payment checks, run in order, return exactly `CheckPayment` |
| PaymentResolver.Gateway.Sale | src/domains/Payment/PaymentResolver.ts:68-75 | one sale is submitted and logged; its success is the gateway's answer for that amount and nonce |
| PaymentResolver.CreatePayment | src/domains/Payment/PaymentResolver.ts:27-107 | a failed check returns its error, charges nothing and stores nothing; otherwise exactly one sale of the order total is submitted, exactly one row (PAID if approved, else DECLINED, amount = total) is appended, and the call returns the PAID row or fails with "transaction failed"; the store stays consistent |
| PaymentRules.CheckPaymentPasses | src/domains/Payment/PaymentResolver.ts:32-66 | the checks pass if and only if the user exists, owns an order with that id and the expected total, and has no PAID or PROCESSING payment for it |
| PaymentRules.CheckPayment | src/domains/Payment/PaymentResolver.ts:39-66 | the order that passes the intended checks is the requested one, owned by the caller, with the expected total and no PAID or PROCESSING payment of it by the caller |
| PaymentRules.CheckPaymentErrors | src/domains/Payment/PaymentResolver.ts:32-66 | each error (unknown user, missing order, amount mismatch, existing payment) is reported exactly in its case, in the order the checks run |
| PaymentRules.SettlementRecord | src/domains/Payment/PaymentResolver.ts:78-106 | the saved row charges the order total; it is PAID if and only if the gateway approved, and the call succeeds exactly then |
| PaymentRules.SettlementKeepsAtMostOneLive | src/domains/Payment/PaymentResolver.ts:54-106 | saving the settlement of a checked order keeps at most one PAID or PROCESSING payment per order and user |
| PaymentRules.OneLivePerOrder | src/domains/Payment/PaymentResolver.ts:39-63 | since the order lookup requires the caller to own the order, payments belong to their order's owner, and at most one PAID or PROCESSING payment per order and user is at most one per order |
| PaymentRules.SettlementKeepsOwned | src/domains/Payment/PaymentResolver.ts:39-106 | saving a payment of an owned, stored order keeps every payment made by its order's owner |
| PaymentRules.OrderKeepsOwned | src/domains/Order/OrderResolver.ts:44-49 | storing a new order keeps every payment made by its order's owner |
| PaymentRules.PaidOrderRefusesRepeat | src/domains/Payment/PaymentResolver.ts:50-66 | after a PAID payment, a repeat payment of the same order fails before any charge: amount mismatch, or else "payment already exists" |
| PaymentRules.SaveWithUniqueOrder | src/domains/Payment/PaymentEntity.ts:37-40 | under the unique order column a payment row is refused exactly when a stored payment names the same order; otherwise it is appended |
| PaymentRules.RetryAfterDeclineChargedThenRefused | src/domains/Payment/PaymentResolver.ts:39-106 | with the unique order column, a retry after a DECLINED payment passes every check (so it is charged) and its PAID row is then refused |
| PaymentRules.RetryAfterDeclineSettles | src/domains/Payment/PaymentResolver.ts:54-106 | as the model stores payments, the approved retry after a DECLINED payment is stored and returned PAID, keeps at most one live payment, and a further attempt is refused with "payment already exists" |
| PaymentRules.RawGuardOverreaches | src/domains/Payment/PaymentResolver.ts:55-63 | with the guard as written, another user's PROCESSING payment blocks a first payment that the intended guard accepts |
| RegistrationRules.StripScheme | src/domains/Registration/RegistrationResolver.ts:25 | the domain is the origin with at most one leading `http://` or `https://` removed, and it is unchanged exactly when the origin has neither prefix |
| RegistrationRules.StripSchemeExamples | src/domains/Registration/RegistrationResolver.ts:25 | `http://lol.com` and `https://lol.com` become `lol.com`; only one scheme is removed; other origins are unchanged |
| RegistrationRules.StripSchemeInverse | src/domains/Registration/RegistrationResolver.ts:25 | a host behind either scheme is recovered exactly |
| RegistrationRules.QuotaReachedMeaning | src/domains/Registration/RegistrationResolver.ts:59 | the quota is open exactly when a maximum is set and exceeds the existing count; an unset maximum is always reached |
| RegistrationRules.RegisterErrors | src/domains/Registration/RegistrationResolver.ts:25-62 | each error (missing origin, user, product, order; domain taken; quota) is reported exactly in its case, in the order the code tests them, and success holds exactly when none applies |
| RegistrationRules.DomainCheckedBeforeQuota | src/domains/Registration/RegistrationResolver.ts:51-62 | an existing registration of the triple at the same domain yields "already registered" whatever the quota |
| RegistrationRules.NoQuotaRefusesAll | src/domains/Registration/RegistrationResolver.ts:59-62 | a maximum of 0 or no maximum refuses every registration |
| RegistrationRules.RegisteredRecord | src/domains/Registration/RegistrationResolver.ts:64-69 | a new registration holds the input ids, the stripped origin and the new key, and names a stored product |
| RegistrationRules.RegisterKeepsWithinQuota | src/domains/Registration/RegistrationResolver.ts:43-69 | appending the new registration keeps every triple's count within its product's maximum |
| RegistrationRules.RegisterKeepsDomainsDistinct | src/domains/Registration/RegistrationResolver.ts:51-69 | appending the new registration keeps each triple's domains distinct |
| RegistrationRules.RegisterKeepsProductsReferenced | src/domains/Registration/RegistrationResolver.ts:64-69 | appending the new registration keeps every registration naming a stored product |
| RegistrationResolver.CheckRegistration | src/domains/Registration/RegistrationResolver.ts:24-62 | the origin, lookup, domain and quota checks, run in order, return exactly `Register` |
| RegistrationResolver.CreateRegistration | src/domains/Registration/RegistrationResolver.ts:19-70 | returns exactly `Register`; a failure stores nothing, a success appends exactly the new registration; the store stays consistent |
| RegistrationResolver.RegisterKeepsConsistent | src/domains/Registration/RegistrationResolver.ts:59-69 | a successful registration with a fresh key keeps the whole store consistent |
| AssetRules.AddAssetOutcome | src/domains/Asset/AssetResolver.ts:27-45 | unknown product fails; an asset with the same product, file name, version and location fails whatever the clearance; otherwise the stored asset holds exactly the input fields |
| AssetRules.AddAssetKeepsUnique | src/domains/Asset/AssetResolver.ts:32-45 | storing the new asset keeps (product, file name, version, location) unique |
| AssetRules.RepeatAssetFails | src/domains/Asset/AssetResolver.ts:32-37 | repeating a stored asset's key fails with "asset already exists", even under another clearance |
| AssetResolver.CreateAsset | src/domains/Asset/AssetResolver.ts:16-46 | returns exactly `AddAsset`; a failure stores nothing, a success appends exactly the new asset; the store stays consistent |
| ProductRules.OwnerChoice | src/domains/Product/ProductResolver.ts:34 | the owner is the input user when one is named (non-empty), otherwise the session's user |
| ProductRules.AddProductOutcome | src/domains/Product/ProductResolver.ts:34-42 | an unknown owner is reported before a missing permission; success holds exactly when the owner exists and holds CREATEPRODUCT |
| ProductRules.AddedProduct | src/domains/Product/ProductResolver.ts:44-51 | the stored product carries the input fields, the new key and the chosen owner; a validated input yields a valid product |
| ProductResolver.CreateProduct | src/domains/Product/ProductResolver.ts:22-52 | returns exactly `AddProduct`; a failure stores nothing, a success appends exactly the new product; the store stays consistent |
| ProductResolver.NewProductKeepsConsistent | src/domains/Product/ProductResolver.ts:44-51 | a valid product under a fresh key keeps every table and registration quota consistent |
| UserRules.TrimStart | src/domains/User/UserResolver.ts:37 | removes exactly the leading white space |
| UserRules.TrimEnd | src/domains/User/UserResolver.ts:37 | removes exactly the trailing white space |
| UserRules.Lower | src/domains/User/UserResolver.ts:37 | keeps the length and the white space positions, leaves no upper-case letter, and leaves a string without upper-case letters unchanged |
| UserRules.TrimMeaning | src/domains/User/UserResolver.ts:37 | the trimmed email is the input's middle part, with only white space cut from either end |
| UserRules.NormalizedShape | src/domains/User/UserResolver.ts:37 | a stored email has no surrounding white space and no upper-case letter |
| UserRules.NormalizeIdempotent | src/domains/User/UserResolver.ts:37 | normalising a stored email again changes nothing |
| UserRules.NewUserOutcome | src/domains/User/UserResolver.ts:29-44 | sign-up fails exactly when a given password fails the policy; otherwise the user holds the normalised email, `hash` of the given password, or no password when none is given, the permissions, and `verified` defaulting to false |
| UserRules.SignUpThenAuthenticate | src/domains/User/UserResolver.ts:26-70 | when `compare` accepts a password against its own hash, a user who signed up with a password, under an email no other user holds, authenticates with the normalised email and that password and gets exactly the stored user |
| UserRules.SessionShortCircuits | src/domains/User/UserResolver.ts:54-56 | a session naming a user returns that user's lookup without looking at the credentials |
| UserRules.AuthenticateOutcome | src/domains/User/UserResolver.ts:60-70 | without a session: unknown email fails, a non-matching password fails, and success returns exactly the stored user with that email whose hash matches |
| UserRules.StartSessionOutcome | src/domains/User/UserResolver.ts:78-92 | a started session belongs to a stored user and only when the session store accepts it; with a session user, it starts exactly when that user is stored, and otherwise fails with "could not get user" |
| UserResolver.CreateUser | src/domains/User/UserResolver.ts:26-45 | returns exactly `NewUser`, storing the hash of the given password; a failure stores nothing, a success appends exactly the new user; the store stays consistent |
| UserResolver.Authenticate | src/domains/User/UserResolver.ts:48-71 | returns exactly `Authenticate` of the stored users and the context's session user |
| UserResolver.StartSession | src/domains/User/UserResolver.ts:74-93 | returns exactly `StartSession`; on failure the context keeps its session; on success the context holds a new session of the authenticated user, expiring one day from now, valid now |
| Query.FilterEntries | src/data/utils/index.ts:14-17 | keeps exactly the entries whose key is not `size` or `page` |
| Query.EmptyInputUnchanged | src/data/utils/index.ts:13 | an empty input returns the builder unchanged |
| Query.PrepareFailsOnUnknownKey | src/data/utils/index.ts:13-19 | the fold fails, with the missing-handler error, if and only if some non-pagination key has no handler |
| Query.PrepareAppliesEachOnce | src/data/utils/index.ts:13-20 | when every key is handled, the result is the builder followed by the handlers' conditions of the non-pagination entries, each once, in entry order |
| Query.PaginationKeysIgnored | src/data/utils/index.ts:14-17 | dropping the pagination entries does not change the result |
| Query.SearchTermsInOrder | src/data/utils/index.ts:37 | a list of terms appends one condition per term, in order, after the existing ones |
| Query.SearchSetCount | src/data/utils/index.ts:36-39 | one term adds exactly one condition; a list adds one per term |
| Query.FindInSetShape | src/data/utils/index.ts:35 | the condition is `FIND_IN_SET('<term>', <where>)`, prefixed with `!` exactly when excluding |
| Pagination.Window | src/data/pagination/index.ts:35-37 | skip and take yield at most `take` rows |
| Pagination.Paginate | src/data/pagination/index.ts:26-47 | an absent query becomes the whole table and is stored back; the response is `Respond` of the query's rows |
| Pagination.EffectiveSizeDefault | src/data/pagination/index.ts:34 | an absent or zero size becomes 25, any other size is kept, and a validated size is at least 1 |
| Pagination.PageContents | src/data/pagination/index.ts:34-46 | a page holds at most `size` rows, exactly the matched rows from `size * page` on, in order; it echoes the page and reports the effective size and the full count |
| Pagination.TotalIndependentOfPage | src/data/pagination/index.ts:39-46 | the total is the number of matched rows, whatever the page and size |
| Pagination.RowOnItsPage | src/data/pagination/index.ts:35-37 | row `i` is at position `i % size` of page `i / size` |
| Pagination.AdjacentPages | src/data/pagination/index.ts:35-37 | two consecutive pages together are the window of twice the size |
| Sessions.Session.constructor | src/domains/User/session/Session.ts:37-49 | each field is the input's when given, otherwise a fresh id, one day from now, no user, no token |
| Sessions.Session.Token | src/domains/User/session/Session.ts:66-71 | an empty token is replaced by the minted one and kept; a set token is returned unchanged |
| Sessions.ValidMeaning | src/domains/User/session/Session.ts:84-94 | valid exactly when the user id is non-empty and now is before the expiry; an expired session is never valid |
| Sessions.DefaultsAndValidity | src/domains/User/session/Session.ts:37-90 | a default session is never valid; a session made for a user is valid for exactly one day |
| Sessions.ValidityRunsOut | src/domains/User/session/Session.ts:84-94 | a session valid at some instant was valid at every earlier one; expiry is permanent |
| Middleware.GetSessionCookie | src/middleware/session.ts:4-12 | installs the stored session the cookie names, with the cookie as its token, or else a fresh session that is not valid |
| Middleware.SetSessionCookie | src/middleware/session.ts:14-29 | the response cookie becomes the session's (cached) token exactly when the session is valid and the request had no cookie; otherwise nothing changes |
| Middleware.ExpireSessionCookie | src/middleware/session.ts:31-38 | the response cookie is cleared to '' exactly when the request had a cookie and the session is not valid |
| Middleware.CookieDecisionsExclusive | src/middleware/session.ts:18-35 | setting and clearing never both happen, and one happens exactly when cookie presence and validity disagree |

## Left out

- Database uniqueness constraints are not modelled in the store: the unique product name, the unique user email, the unique payment `transactionId`, and the one-to-one link between a payment and its order (src/domains/Payment/PaymentEntity.ts:37-40), whose join column carries a unique index. The store accepts any row with a fresh primary key.
- PaymentResolver.CreatePayment: stores the settlement row whenever the checks pass, as if several payments could name one order. Under the declared one-to-one link, once any payment row names an order, a retry that passes the guard (for example after a DECLINED attempt) is charged by the gateway and only then refused by the database, so the call fails after the charge. `PaymentRules.SaveWithUniqueOrder` and `PaymentRules.RetryAfterDeclineChargedThenRefused` model that; see "## Findings".
- Concurrency is not modelled. Each resolver is a read-then-write sequence with no transaction; the model runs calls one after another and claims no atomicity.
- The lookups that filter on a relation's foreign key by the column name `userId`, `orderId` or `productId` are assumed to filter on that column: the owned-order lookup and the existing-payment count (src/domains/Payment/PaymentResolver.ts:39-44 and 55-63), and the registration lookup behind the domain and quota checks (src/domains/Registration/RegistrationResolver.ts:43-49). No entity declares a property of those names, only the relations `user`, `order` and `product`; depending on the TypeORM version such a key may filter on the join column, raise an error, or be dropped. The model takes the first reading throughout.
- TypeORM lookups are modelled as exact matches in table order. `findOne(undefined)` and MySQL's case-insensitive string collation are not modelled (for example, email lookup is exact).
- Prices, totals and amounts are integers; JavaScript floating point is not modelled.
- UserRules.NormalizeEmail: lowercases ASCII letters only; Unicode case mapping is not modelled.
- Object.assign with an explicit `undefined` field (it overrides the default) is not modelled; an absent field takes the default.
- Token minting and parsing (`token.ts`, AES) are not part of this model; a minted token is a parameter.
- Redis I/O (`Session.fromCookie`, `Session.store`) is a parameter: the loaded session or its absence, and whether the store accepted a new session. The `Date` parsing of a stored expiry is not modelled.
- The middleware's `await next()` is not modelled; each method acts on the context as the downstream handlers left it.
- PaymentResolver.Gateway.Sale: the gateway's answer is a fixed function of amount and nonce; the Braintree protocol, its errors and timeouts are not modelled, and neither is `createPaymentToken`.
- bcrypt's hash and compare and the password policy are parameters; bcrypt's random salt is not modelled (the hash is one function of the password), and neither are the policy's own rules.
- PaymentResolver.CreatePayment: runs the intended existing-payment guard (payments of this order by this user that are PAID or PROCESSING); the guard as written, whose unparenthesised OR also counts any PROCESSING payment, is PaymentRules.CheckPaymentAsWritten, and the Findings table shows where the two differ.
- Query.PrepareQuery: a handler is modelled as the list of `andWhere` conditions it appends. The order list's `productId` handler (src/domains/Order/OrderResolver.ts:72) is a `leftJoinAndSelect` instead: it joins the order-to-product table and, being a LEFT join, removes no order. That handler, and any handler that changes other parts of the builder, is not captured.
- The read-only `@Query` resolvers and field resolvers are not part of this model.

## Findings

| source | as written | input that shows it | evidently intended | confidence | as-written member | corrected member |
|---|---|---|---|---|---|---|
| src/domains/Payment/PaymentResolver.ts:55-63 | the status condition is a raw fragment `'PAID' OR status = 'PROCESSING'`; composed with the order and user conditions by AND, the unparenthesised OR lets any PROCESSING payment of any order and user count as existing (this presumes the `orderId` and `userId` keys are rendered as conditions on the foreign-key columns, as "## Left out" assumes) | user u1 pays order o1 (total 400) while another user's order o2 has a PROCESSING payment: the call fails with "payment already exists" | count only payments of this order by this user that are PAID or PROCESSING | not executed | PaymentRules.RawGuardOverreaches | PaymentRules.CheckPayment |
| src/domains/Payment/PaymentEntity.ts:37-40 | the payment-to-order link is one-to-one, so its join column is unique, while the guard before the charge counts only PAID and PROCESSING payments | user u1's order o1 (total 400) has a DECLINED payment; a retry for 400 passes every check, the gateway charges it, and saving its PAID row violates the unique order column, so the call fails after the charge | a retry after a declined charge is either refused before the charge or stored; the model stores it, as with a many-to-one link | not executed; depends on the unique index the one-to-one join column receives | PaymentRules.RetryAfterDeclineChargedThenRefused | PaymentRules.RetryAfterDeclineSettles |
