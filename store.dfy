/** The relational store: one table per entity, each a sequence of rows in
    storage order, and the integrity the mutations keep between them. */
module Store {
  import opened Entities
  import opened Tables
  import OrderRules
  import PaymentRules
  import RegistrationRules
  import AssetRules
  import ProductRules

  /** Primary keys are unique in every table, and the business invariants
      the mutations maintain hold: stored products passed input validation,
      order totals add up, every payment made by its order's owner, at most
      one live payment per order and user,
      registrations within quota at distinct domains, unique asset keys. */
  ghost predicate Consistent(users: seq<User>, products: seq<Product>, orders: seq<Order>, payments: seq<Payment>,
                             registrations: seq<Registration>, assets: seq<Asset>)
  {
    && WellKeyed(users, UserKey)
    && WellKeyed(products, ProductKey)
    && WellKeyed(orders, OrderKey)
    && WellKeyed(payments, PaymentKey)
    && WellKeyed(registrations, RegistrationKey)
    && WellKeyed(assets, AssetKey)
    && ProductRules.ProductsValid(products)
    && OrderRules.TotalsConsistent(orders)
    && PaymentRules.PaymentsOwned(payments, orders)
    && PaymentRules.AtMostOneLive(payments)
    && RegistrationRules.ProductsReferenced(registrations, products)
    && RegistrationRules.WithinQuota(registrations, products)
    && RegistrationRules.DomainsDistinct(registrations)
    && AssetRules.AssetKeysUnique(assets)
  }

  class Database {
    var users: seq<User>
    var products: seq<Product>
    var orders: seq<Order>
    var payments: seq<Payment>
    var registrations: seq<Registration>
    var assets: seq<Asset>

    ghost predicate Valid()
      reads this
    {
      Consistent(users, products, orders, payments, registrations, assets)
    }

    constructor()
      ensures Valid()
      ensures users == [] && products == [] && orders == [] && payments == [] && registrations == [] && assets == []
    {
      users, products, orders, payments, registrations, assets := [], [], [], [], [], [];
    }
  }
}
