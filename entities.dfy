/** Records, enums and errors shared by every domain of the GraphQL API.

    Each entity is the shape of one table row. Relations that the ORM
    resolves to objects (`order.user`, `payment.order`, ...) are kept as the
    foreign key they are stored as, except an order's products, which are
    stored as the product rows the order was placed with. */
module Entities {

  /** Primary and foreign keys (uuid strings in the database). */
  type Id = string

  datatype Option<T> = None | Some(value: T) {
    /** The value, or `default` when absent. */
    function GetOr(default: T): T {
      if Some? then value else default
    }
  }

  datatype ProductStatus = Active | Discontinued

  datatype ProductCategory = WordPress | Plugin | Theme

  datatype PaymentStatus = Paid | Refunded | Cancelled | Declined | Processing

  datatype AssetClearance = Public | Private | Protected | Tech

  datatype AssetLocation = GCloudStorage | Internal

  datatype Permission =
    | CreateOrder | ReadOrder | UpdateOrder | DeleteOrder
    | CreatePayment | ReadPayment | UpdatePayment | DeletePayment | CancelPayment
    | CreateProduct | ReadProduct | UpdateProduct | DeleteProduct
    | CreateAsset | ReadAsset | UpdateAsset | DeleteAsset
    | UpdateUserPermission

  /** `password` is the stored bcrypt hash; None is the SQL NULL of a user created without one. */
  datatype User = User(id: Id, email: string, password: Option<string>, verified: bool, permissions: seq<Permission>)

  /** `maxRegistrationsPerOrder` and `categories` are nullable columns. */
  datatype Product = Product(
    id: Id,
    name: string,
    price: int,
    ownerId: Id,
    status: ProductStatus,
    categories: Option<seq<ProductCategory>>,
    maxRegistrationsPerOrder: Option<int>)

  datatype Order = Order(id: Id, userId: Id, products: seq<Product>, tax: int, total: int)

  datatype Payment = Payment(id: Id, transactionId: string, userId: Id, orderId: Id, amount: int, status: PaymentStatus)

  datatype Registration = Registration(id: Id, userId: Id, productId: Id, orderId: Id, domain: string)

  datatype Asset = Asset(
    id: Id,
    productId: Id,
    fileName: string,
    version: string,
    clearance: AssetClearance,
    location: AssetLocation)

  /** The class of the thrown error: the Apollo error classes, a JavaScript
      TypeError, and the errors thrown by the password libraries. */
  datatype ErrorKind = UserInputError | ApolloError | ForbiddenError | TypeError | PolicyError | HashError | QueryFailedError

  datatype Error = Error(kind: ErrorKind, message: string)

  /** Every mutation either returns a value or throws one error. */
  datatype Result<T> = Success(value: T) | Failure(error: Error)

  // Primary-key selectors, used as first-class functions by the table helpers.

  function UserKey(u: User): Id { u.id }
  function ProductKey(p: Product): Id { p.id }
  function OrderKey(o: Order): Id { o.id }
  function PaymentKey(p: Payment): Id { p.id }
  function RegistrationKey(r: Registration): Id { r.id }
  function AssetKey(a: Asset): Id { a.id }

  // `findOne(id)` filters.

  function UserWithId(id: Id): User -> bool { (u: User) => u.id == id }
  function ProductWithId(id: Id): Product -> bool { (p: Product) => p.id == id }
  function OrderWithId(id: Id): Order -> bool { (o: Order) => o.id == id }
}
