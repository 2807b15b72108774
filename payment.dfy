/** Payment (`createPayment`): the session's user pays one of their own
    orders through the card gateway. All checks run before the gateway is
    charged; the charge's answer decides whether a PAID row is stored and
    returned, or a DECLINED row is stored and the call throws. */
module PaymentRules {
  import opened Entities
  import opened Tables

  const UserMissing := Error(ApolloError, "could not find user")
  const OrderMissing := Error(UserInputError, "could not find order")
  const AmountMismatch := Error(UserInputError, "order total and charge amount do not match")
  const PaymentExists := Error(ApolloError, "payment already exists")
  const TransactionFailed := Error(ApolloError, "transaction failed")
  /** MySQL's refusal of a second row under a unique index. */
  const DuplicateOrderLink := Error(QueryFailedError, "ER_DUP_ENTRY")

  /** `nonce` is the client's payment-method handle passed to the gateway. */
  datatype PaymentInput = PaymentInput(orderId: Id, nonce: string, expectedAmount: int)

  /** The order lookup matches the order id and the caller's user id together. */
  function OwnedOrder(orderId: Id, userId: Id): Order -> bool {
    (o: Order) => o.id == orderId && o.userId == userId
  }

  /** A payment that settles its order: PAID, or PROCESSING at the gateway. */
  predicate IsLive(s: PaymentStatus) {
    s == Paid || s == Processing
  }

  /** The existing-payment guard as intended: a live payment of this order by this user. */
  function LivePayment(orderId: Id, userId: Id): Payment -> bool {
    (p: Payment) => p.orderId == orderId && p.userId == userId && IsLive(p.status)
  }

  /** The guard as the raw SQL fragment composes with the other conditions:
      AND binds tighter than OR, so the PROCESSING test stands alone. */
  function LiveAsWritten(orderId: Id, userId: Id): Payment -> bool {
    (p: Payment) => (p.orderId == orderId && p.userId == userId && p.status == Paid) || p.status == Processing
  }

  /** The checks before the charge: the user, the owned order, the amount,
      then the existing-payment lookup `guard`. On success, the order to charge. */
  function CheckPaymentGuarded(users: seq<User>, orders: seq<Order>, payments: seq<Payment>, sessionUserId: Id,
                               data: PaymentInput, guard: Payment -> bool): Result<Order>
  {
    match FindFirst(users, UserWithId(sessionUserId))
    case None => Failure(UserMissing)
    case Some(user) =>
      match FindFirst(orders, OwnedOrder(data.orderId, user.id))
      case None => Failure(OrderMissing)
      case Some(order) =>
        if order.total != data.expectedAmount then Failure(AmountMismatch)
        else if Count(payments, guard) != 0 then Failure(PaymentExists)
        else Success(order)
  }

  /** The checks with the intended guard: a live payment of this order by
      this user. Checks that pass describe the order to charge: the
      requested order, owned by the caller, with the expected total and no
      live payment. */
  function CheckPayment(users: seq<User>, orders: seq<Order>, payments: seq<Payment>, sessionUserId: Id, data: PaymentInput): (r: Result<Order>)
    ensures r.Success? ==>
      && r.value in orders && r.value.id == data.orderId && r.value.userId == sessionUserId
      && r.value.total == data.expectedAmount
      && Count(payments, LivePayment(r.value.id, r.value.userId)) == 0
  {
    CheckPaymentGuarded(users, orders, payments, sessionUserId, data, LivePayment(data.orderId, sessionUserId))
  }

  /** The checks with the guard the raw SQL fragment produces. */
  function CheckPaymentAsWritten(users: seq<User>, orders: seq<Order>, payments: seq<Payment>, sessionUserId: Id, data: PaymentInput): Result<Order> {
    CheckPaymentGuarded(users, orders, payments, sessionUserId, data, LiveAsWritten(data.orderId, sessionUserId))
  }

  /** The row saved once the gateway has answered. */
  function Settlement(order: Order, paymentId: Id, transactionId: string, approved: bool): Payment {
    Payment(paymentId, transactionId, order.userId, order.id, order.total, if approved then Paid else Declined)
  }

  /** What the call returns for the saved row: the PAID row, or the throw that follows a DECLINED save. */
  function Outcome(record: Payment): Result<Payment> {
    if record.status == Paid then Success(record) else Failure(TransactionFailed)
  }

  /** Store invariant (the idempotency guarantee): no two live payments for the same order and user. */
  predicate AtMostOneLive(payments: seq<Payment>) {
    forall i, j :: 0 <= i < j < |payments| && IsLive(payments[i].status) && IsLive(payments[j].status) ==>
      payments[i].orderId != payments[j].orderId || payments[i].userId != payments[j].userId
  }

  /** Store invariant: every payment was made by the owner of the order it pays. */
  predicate PaymentsOwned(payments: seq<Payment>, orders: seq<Order>) {
    forall i :: 0 <= i < |payments| ==>
      exists o :: o in orders && o.id == payments[i].orderId && o.userId == payments[i].userId
  }

  /** Since a payment's user is its order's owner and order keys are unique,
      at most one live payment per order and user is at most one live
      payment per order. */
  lemma OneLivePerOrder(payments: seq<Payment>, orders: seq<Order>)
    requires WellKeyed(orders, OrderKey) && PaymentsOwned(payments, orders) && AtMostOneLive(payments)
    ensures forall i, j :: 0 <= i < j < |payments| && IsLive(payments[i].status) && IsLive(payments[j].status) ==>
      payments[i].orderId != payments[j].orderId
  {
    forall i, j | 0 <= i < j < |payments| && IsLive(payments[i].status) && IsLive(payments[j].status)
      ensures payments[i].orderId != payments[j].orderId
    {
      var a :| a in orders && a.id == payments[i].orderId && a.userId == payments[i].userId;
      var b :| b in orders && b.id == payments[j].orderId && b.userId == payments[j].userId;
      assert a.id == b.id ==> a == b by {
        if a.id == b.id {
          KeyedUnique(orders, OrderKey, a, b);
        }
      }
    }
  }

  /** Saving a payment made by the owner of a stored order keeps every payment owned. */
  lemma SettlementKeepsOwned(payments: seq<Payment>, orders: seq<Order>, order: Order, rec: Payment)
    requires PaymentsOwned(payments, orders)
    requires order in orders && rec.orderId == order.id && rec.userId == order.userId
    ensures PaymentsOwned(payments + [rec], orders)
  {
    forall i | 0 <= i < |payments + [rec]|
      ensures exists o :: o in orders && o.id == (payments + [rec])[i].orderId && o.userId == (payments + [rec])[i].userId
    {
      if i == |payments| {
        assert (payments + [rec])[i] == rec;
      } else {
        assert (payments + [rec])[i] == payments[i];
      }
    }
  }

  /** Storing a new order keeps every payment owned. */
  lemma OrderKeepsOwned(payments: seq<Payment>, orders: seq<Order>, order: Order)
    requires PaymentsOwned(payments, orders)
    ensures PaymentsOwned(payments, orders + [order])
  {
    forall i | 0 <= i < |payments|
      ensures exists o :: o in orders + [order] && o.id == payments[i].orderId && o.userId == payments[i].userId
    {
      var p := payments[i];
      assert exists o :: o in orders && o.id == p.orderId && o.userId == p.userId;
      var o :| o in orders && o.id == p.orderId && o.userId == p.userId;
      assert o in orders + [order];
    }
  }

  /** The checks pass exactly when the user exists, owns an order with that
      id whose total is the expected amount, and has no live payment for it. */
  lemma CheckPaymentPasses(users: seq<User>, orders: seq<Order>, payments: seq<Payment>, uid: Id, data: PaymentInput)
    requires WellKeyed(orders, OrderKey)
    ensures var r := CheckPayment(users, orders, payments, uid, data);
      r.Success? <==>
        && FindFirst(users, UserWithId(uid)).Some?
        && (exists o :: o in orders && o.id == data.orderId && o.userId == uid && o.total == data.expectedAmount)
        && (forall p :: p in payments ==> !(p.orderId == data.orderId && p.userId == uid && IsLive(p.status)))
  {
    var r := CheckPayment(users, orders, payments, uid, data);
    var found := FindFirst(orders, OwnedOrder(data.orderId, uid));
    if exists o :: o in orders && o.id == data.orderId && o.userId == uid && o.total == data.expectedAmount {
      var o :| o in orders && o.id == data.orderId && o.userId == uid && o.total == data.expectedAmount;
      assert found.Some?;
      var i :| 0 <= i < |orders| && orders[i] == o;
      var j :| 0 <= j < |orders| && orders[j] == found.value;
      assert found.value == o;
    }
    var live := Where(payments, LivePayment(data.orderId, uid));
    if live != [] {
      assert live[0] in live;
    }
  }

  /** Which error the checks report, in the order they run. */
  lemma CheckPaymentErrors(users: seq<User>, orders: seq<Order>, payments: seq<Payment>, uid: Id, data: PaymentInput)
    ensures var r := CheckPayment(users, orders, payments, uid, data);
      var known := FindFirst(users, UserWithId(uid)).Some?;
      var owned := FindFirst(orders, OwnedOrder(data.orderId, uid));
      && (r == Failure(UserMissing) <==> !known)
      && (r == Failure(OrderMissing) <==> known && owned.None?)
      && (r == Failure(AmountMismatch) <==> known && owned.Some? && owned.value.total != data.expectedAmount)
      && (r == Failure(PaymentExists) <==>
            known && owned.Some? && owned.value.total == data.expectedAmount
            && exists p :: p in payments && p.orderId == data.orderId && p.userId == uid && IsLive(p.status))
  {
    var live := Where(payments, LivePayment(data.orderId, uid));
    if live != [] {
      assert live[0] in live;
    }
    if exists p :: p in payments && p.orderId == data.orderId && p.userId == uid && IsLive(p.status) {
      var p :| p in payments && p.orderId == data.orderId && p.userId == uid && IsLive(p.status);
      assert p in live;
    }
  }

  /** The saved row charges the order's total; it is PAID exactly when the
      gateway approved, and the call succeeds exactly then. */
  lemma SettlementRecord(order: Order, paymentId: Id, transactionId: string, approved: bool)
    ensures var rec := Settlement(order, paymentId, transactionId, approved);
      && rec.amount == order.total && rec.orderId == order.id && rec.userId == order.userId
      && (rec.status == Paid <==> approved) && (rec.status == Declined <==> !approved)
      && (Outcome(rec) == Success(rec) <==> approved)
      && (Outcome(rec) == Failure(TransactionFailed) <==> !approved)
  {
  }

  /** Saving the settlement of a checked order keeps at most one live payment per order and user. */
  lemma {:induction false} SettlementKeepsAtMostOneLive(payments: seq<Payment>, rec: Payment)
    requires AtMostOneLive(payments)
    requires IsLive(rec.status) ==> Count(payments, LivePayment(rec.orderId, rec.userId)) == 0
    ensures AtMostOneLive(payments + [rec])
  {
    var s := payments + [rec];
    if IsLive(rec.status) {
      assert Where(payments, LivePayment(rec.orderId, rec.userId)) == [];
      assert forall x :: x in payments ==> !LivePayment(rec.orderId, rec.userId)(x);
    }
    forall i, j | 0 <= i < j < |s| && IsLive(s[i].status) && IsLive(s[j].status)
      ensures s[i].orderId != s[j].orderId || s[i].userId != s[j].userId
    {
      if j == |payments| {
        assert s[i] == payments[i] && s[i] in payments;
      } else {
        assert s[i] == payments[i] && s[j] == payments[j];
      }
    }
  }

  /** Once a payment of an order is PAID, a repeated payment of that order
      by the same user fails before any charge: the amount check if the
      amount differs, otherwise the existing-payment guard. */
  lemma {:induction false} PaidOrderRefusesRepeat(users: seq<User>, orders: seq<Order>, payments: seq<Payment>,
                                                  uid: Id, data: PaymentInput, paymentId: Id, transactionId: string, again: PaymentInput)
    requires CheckPayment(users, orders, payments, uid, data).Success?
    requires again.orderId == data.orderId
    ensures var order := CheckPayment(users, orders, payments, uid, data).value;
      var after := payments + [Settlement(order, paymentId, transactionId, true)];
      CheckPayment(users, orders, after, uid, again)
        == Failure(if again.expectedAmount == order.total then PaymentExists else AmountMismatch)
  {
    var order := CheckPayment(users, orders, payments, uid, data).value;
    var rec := Settlement(order, paymentId, transactionId, true);
    CountAppend(payments, rec, LivePayment(again.orderId, uid));
  }

  /** The guard as written refuses a first payment of an order because some
      other user's order has a PROCESSING payment; the intended guard lets it through. */
  lemma RawGuardOverreaches()
    ensures var users := [User("u1", "a@b.c", None, true, [])];
      var orders := [Order("o1", "u1", [], 0, 400)];
      var payments := [Payment("p1", "t1", "u2", "o2", 400, Processing)];
      var data := PaymentInput("o1", "nonce", 400);
      && CheckPaymentAsWritten(users, orders, payments, "u1", data) == Failure(PaymentExists)
      && CheckPayment(users, orders, payments, "u1", data) == Success(orders[0])
  {
    var users := [User("u1", "a@b.c", None, true, [])];
    var orders := [Order("o1", "u1", [], 0, 400)];
    var payments := [Payment("p1", "t1", "u2", "o2", 400, Processing)];
    assert FindFirst(users, UserWithId("u1")) == Some(users[0]) by {
      WhereSingleton(users[0], UserWithId("u1"));
    }
    assert FindFirst(orders, OwnedOrder("o1", "u1")) == Some(orders[0]) by {
      WhereSingleton(orders[0], OwnedOrder("o1", "u1"));
    }
    assert Count(payments, LiveAsWritten("o1", "u1")) == 1 by {
      WhereSingleton(payments[0], LiveAsWritten("o1", "u1"));
    }
    assert Count(payments, LivePayment("o1", "u1")) == 0 by {
      WhereSingleton(payments[0], LivePayment("o1", "u1"));
    }
  }

  /** The payments that name an order. */
  function PaysOrder(orderId: Id): Payment -> bool {
    (p: Payment) => p.orderId == orderId
  }

  /** Saving a payment row under the one-to-one payment-to-order link as
      declared, whose join column carries a unique index: the row is refused
      when a stored payment already names its order. */
  function SaveWithUniqueOrder(payments: seq<Payment>, rec: Payment): (r: Result<seq<Payment>>)
    ensures r.Failure? <==> exists p :: p in payments && p.orderId == rec.orderId
    ensures r.Failure? ==> r.error == DuplicateOrderLink
    ensures r.Success? ==> r.value == payments + [rec]
  {
    if FindFirst(payments, PaysOrder(rec.orderId)).Some? then Failure(DuplicateOrderLink)
    else Success(payments + [rec])
  }

  /** Under the unique order column, a retry after a DECLINED attempt passes
      every check, so the gateway charges it, and then its PAID row is refused. */
  lemma RetryAfterDeclineChargedThenRefused()
    ensures var users := [User("u1", "a@b.c", None, true, [])];
      var orders := [Order("o1", "u1", [], 0, 400)];
      var payments := [Payment("p1", "t1", "u1", "o1", 400, Declined)];
      var data := PaymentInput("o1", "nonce", 400);
      && CheckPayment(users, orders, payments, "u1", data) == Success(orders[0])
      && SaveWithUniqueOrder(payments, Settlement(orders[0], "p2", "t2", true)) == Failure(DuplicateOrderLink)
  {
    var users := [User("u1", "a@b.c", None, true, [])];
    var orders := [Order("o1", "u1", [], 0, 400)];
    var payments := [Payment("p1", "t1", "u1", "o1", 400, Declined)];
    assert FindFirst(users, UserWithId("u1")) == Some(users[0]) by {
      WhereSingleton(users[0], UserWithId("u1"));
    }
    assert FindFirst(orders, OwnedOrder("o1", "u1")) == Some(orders[0]) by {
      WhereSingleton(orders[0], OwnedOrder("o1", "u1"));
    }
    assert Count(payments, LivePayment("o1", "u1")) == 0 by {
      WhereSingleton(payments[0], LivePayment("o1", "u1"));
    }
    assert payments[0] in payments;
  }

  /** With several payments allowed per order, which the guard's counting of
      only PAID and PROCESSING payments presumes, the approved retry after a
      DECLINED attempt is stored and returned PAID, and a further attempt is
      then refused before any charge. */
  lemma RetryAfterDeclineSettles()
    ensures var users := [User("u1", "a@b.c", None, true, [])];
      var orders := [Order("o1", "u1", [], 0, 400)];
      var payments := [Payment("p1", "t1", "u1", "o1", 400, Declined)];
      var data := PaymentInput("o1", "nonce", 400);
      var rec := Settlement(orders[0], "p2", "t2", true);
      && CheckPayment(users, orders, payments, "u1", data) == Success(orders[0])
      && Outcome(rec) == Success(rec) && rec.status == Paid
      && AtMostOneLive(payments + [rec])
      && CheckPayment(users, orders, payments + [rec], "u1", data) == Failure(PaymentExists)
  {
    var users := [User("u1", "a@b.c", None, true, [])];
    var orders := [Order("o1", "u1", [], 0, 400)];
    var payments := [Payment("p1", "t1", "u1", "o1", 400, Declined)];
    var rec := Settlement(orders[0], "p2", "t2", true);
    assert FindFirst(users, UserWithId("u1")) == Some(users[0]) by {
      WhereSingleton(users[0], UserWithId("u1"));
    }
    assert FindFirst(orders, OwnedOrder("o1", "u1")) == Some(orders[0]) by {
      WhereSingleton(orders[0], OwnedOrder("o1", "u1"));
    }
    assert Count(payments, LivePayment("o1", "u1")) == 0 by {
      WhereSingleton(payments[0], LivePayment("o1", "u1"));
    }
    SettlementKeepsAtMostOneLive(payments, rec);
    CountAppend(payments, rec, LivePayment("o1", "u1"));
  }
}

/** `createPayment` over the store and the card gateway. */
module PaymentResolver {
  import opened Entities
  import opened Tables
  import opened PaymentRules
  import opened Store

  /** The card gateway: `approves` is the processor's answer to a sale of an
      amount against a payment-method nonce, and `sales` records every sale
      submitted, in order. */
  class Gateway {
    const approves: (int, string) -> bool
    var sales: seq<(int, string)>

    constructor(approves: (int, string) -> bool)
      ensures this.approves == approves && sales == []
    {
      this.approves := approves;
      sales := [];
    }

    /** `transaction.sale`: submits one charge and reports whether it succeeded. */
    method Sale(amount: int, nonce: string) returns (success: bool)
      modifies this`sales
      ensures sales == old(sales) + [(amount, nonce)]
      ensures success == approves(amount, nonce)
    {
      sales := sales + [(amount, nonce)];
      success := approves(amount, nonce);
    }
  }

  /** The checks `createPayment` makes before charging, in its order: the
      session's user, the order owned by that user, the expected amount, and
      no live payment of the order by the user. */
  method CheckPaymentRequest(db: Database, sessionUserId: Id, data: PaymentInput) returns (r: Result<Order>)
    ensures r == CheckPayment(db.users, db.orders, db.payments, sessionUserId, data)
  {
    var user := FindFirst(db.users, UserWithId(sessionUserId));
    if user.None? {
      return Failure(UserMissing);
    }
    var order := FindFirst(db.orders, OwnedOrder(data.orderId, user.value.id));
    if order.None? {
      return Failure(OrderMissing);
    }
    if order.value.total != data.expectedAmount {
      return Failure(AmountMismatch);
    }
    var existing := Count(db.payments, LivePayment(data.orderId, user.value.id));
    if existing != 0 {
      return Failure(PaymentExists);
    }
    r := Success(order.value);
  }

  /** Pays an order of the session's user. A failed check charges nothing
      and stores nothing. Otherwise the order's total is charged once and a
      row is stored whatever the answer: PAID and returned, or DECLINED and
      the call fails. `paymentId` is the key the database generates and
      `transactionId` the id the resolver draws for the transaction. */
  method CreatePayment(db: Database, gateway: Gateway, sessionUserId: Id, data: PaymentInput,
                       paymentId: Id, transactionId: string) returns (r: Result<Payment>)
    requires db.Valid() && KeyFree(db.payments, PaymentKey, paymentId)
    modifies db`payments, gateway`sales
    ensures db.Valid()
    ensures var check := CheckPayment(db.users, db.orders, old(db.payments), sessionUserId, data);
      if check.Failure? then
        && r == Failure(check.error)
        && db.payments == old(db.payments) && gateway.sales == old(gateway.sales)
      else
        var rec := Settlement(check.value, paymentId, transactionId, gateway.approves(check.value.total, data.nonce));
        && gateway.sales == old(gateway.sales) + [(check.value.total, data.nonce)]
        && db.payments == old(db.payments) + [rec]
        && r == Outcome(rec)
  {
    var check := CheckPaymentRequest(db, sessionUserId, data);
    if check.Failure? {
      return Failure(check.error);
    }
    var order := check.value;
    var success := gateway.Sale(order.total, data.nonce);
    var rec := Settlement(order, paymentId, transactionId, success);
    SettlementKeepsAtMostOneLive(db.payments, rec);
    SettlementKeepsOwned(db.payments, db.orders, order, rec);
    AppendKeepsWellKeyed(db.payments, rec, PaymentKey);
    db.payments := db.payments + [rec];
    r := Outcome(rec);
  }
}
