/** The persisted record shapes of apps/api/src/db.js and the in-memory stand-in for the MongoDB
    collections that the routes and the stream endpoint read and write. */
module Records {
  import opened Wrappers

  /** A point in time, in milliseconds since the Unix epoch (what `Date.now()` returns). */
  type Date = nat

  const PENDING := "PENDING"
  const PROCESSING := "PROCESSING"
  const SHIPPED := "SHIPPED"
  const DELIVERED := "DELIVERED"

  /** The schema's status enumeration, in lifecycle order. */
  const Lifecycle: seq<string> := [PENDING, PROCESSING, SHIPPED, DELIVERED]

  /** JavaScript truthiness of an optional string field: present and not empty. */
  predicate Truthy(o: Option<string>) { o.Some? && o.value != "" }

  datatype OrderLine = OrderLine(productId: string, name: string, price: int, quantity: int)

  /** An order document. `status` is kept as the stored string: the stream's tick has a branch for
      values outside the enumeration. */
  datatype Order = Order(
    customerId: string,
    items: seq<OrderLine>,
    total: int,
    status: string,
    carrier: Option<string>,
    trackingNumber: Option<string>,
    estimatedDelivery: Option<Date>,
    createdAt: Date,
    updatedAt: Date)

  datatype Product = Product(
    name: string,
    description: Option<string>,
    price: int,
    category: Option<string>,
    tags: seq<string>,
    imageUrl: Option<string>,
    stock: int,
    createdAt: Date)

  datatype Address = Address(
    street: Option<string>, city: Option<string>, state: Option<string>,
    zipCode: Option<string>, country: Option<string>)

  datatype Customer = Customer(
    name: string,
    email: string,
    phone: Option<string>,
    address: Option<Address>,
    createdAt: Date)

  /** An HTTP reply: a success status with a body, or an error status with `{ error: message }`. */
  datatype Reply<+T> = Ok(status: nat, value: T) | Err(status: nat, message: string)

  /** The unique index on `email`: no two stored customers share an email address. */
  ghost predicate EmailsUnique(customers: map<string, Customer>) {
    forall a, b :: a in customers && b in customers && customers[a].email == customers[b].email ==> a == b
  }

  /** The three collections, keyed by document id. */
  class Database {
    var customers: map<string, Customer>
    var products: map<string, Product>
    var orders: map<string, Order>

    ghost predicate Valid()
      reads this
    {
      EmailsUnique(customers)
    }

    constructor (customers: map<string, Customer>, products: map<string, Product>, orders: map<string, Order>)
      requires EmailsUnique(customers)
      ensures Valid()
      ensures this.customers == customers && this.products == products && this.orders == orders
    {
      this.customers := customers;
      this.products := products;
      this.orders := orders;
    }
  }
}
