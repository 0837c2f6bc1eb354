/** The customer routes (apps/api/src/routes/customers.js): lookup by email or id, and creation,
    which keeps stored email addresses unique. */
module CustomerRoutes {
  import opened Wrappers
  import opened Records

  /** Some stored customer has this email address. */
  predicate EmailTaken(customers: map<string, Customer>, email: string) {
    exists id :: id in customers && customers[id].email == email
  }

  /** GET /api/customers?email= (lines 6-25): 400 without an email, 404 when no customer has it,
      otherwise a customer with that email (the only one, as the email index is unique). */
  method FindCustomerByEmail(db: Database, email: Option<string>) returns (r: Reply<(string, Customer)>)
    ensures !Truthy(email) ==> r == Err(400, "Email parameter is required")
    ensures Truthy(email) && !EmailTaken(db.customers, email.value) ==> r == Err(404, "Customer not found")
    ensures Truthy(email) && EmailTaken(db.customers, email.value) ==> r.Ok? && r.value.1.email == email.value
    ensures r.Ok? ==>
      && r.status == 200 && r.value.0 in db.customers && db.customers[r.value.0] == r.value.1
      && r.value.1.email == email.value
    ensures r.Ok? && db.Valid() ==>
      forall id :: id in db.customers && db.customers[id].email == email.value ==> id == r.value.0
  {
    if !Truthy(email) {
      return Err(400, "Email parameter is required");
    }
    if !EmailTaken(db.customers, email.value) {
      return Err(404, "Customer not found");
    }
    var id :| id in db.customers && db.customers[id].email == email.value;
    r := Ok(200, (id, db.customers[id]));
  }

  /** GET /api/customers/:id (lines 27-41). */
  function GetCustomer(customers: map<string, Customer>, id: string): (r: Reply<Customer>)
    ensures id in customers <==> r.Ok?
    ensures r.Ok? ==> r.status == 200 && r.value == customers[id]
    ensures r.Err? ==> r == Err(404, "Customer not found")
  {
    if id in customers then Ok(200, customers[id]) else Err(404, "Customer not found")
  }

  /** The body of POST /api/customers. */
  datatype CustomerBody = CustomerBody(name: Option<string>, email: Option<string>, phone: Option<string>, address: Option<Address>)

  /** POST /api/customers (lines 44-71): 400 without a name or email, 409 when the email is already
      stored (nothing is inserted), otherwise exactly one customer is inserted, with the given
      fields, under the fresh id, and answered 201. Stored emails stay unique. */
  method CreateCustomer(db: Database, b: CustomerBody, newId: string, now: Date) returns (r: Reply<Customer>)
    requires db.Valid() && newId !in db.customers
    modifies db`customers
    ensures db.Valid()
    ensures !Truthy(b.name) || !Truthy(b.email) ==>
      r == Err(400, "Name and email are required") && db.customers == old(db.customers)
    ensures Truthy(b.name) && Truthy(b.email) && EmailTaken(old(db.customers), b.email.value) ==>
      r == Err(409, "Customer with this email already exists") && db.customers == old(db.customers)
    ensures Truthy(b.name) && Truthy(b.email) && !EmailTaken(old(db.customers), b.email.value) ==>
      && r == Ok(201, Customer(b.name.value, b.email.value, b.phone, b.address, now))
      && db.customers == old(db.customers)[newId := r.value]
  {
    if !Truthy(b.name) || !Truthy(b.email) {
      return Err(400, "Name and email are required");
    }
    if EmailTaken(db.customers, b.email.value) {
      return Err(409, "Customer with this email already exists");
    }
    var c := Customer(b.name.value, b.email.value, b.phone, b.address, now);
    db.customers := db.customers[newId := c];
    r := Ok(201, c);
  }

  /** Inserting a customer whose email is not taken under a new id keeps emails unique. */
  lemma InsertKeepsEmailsUnique(customers: map<string, Customer>, id: string, c: Customer)
    requires EmailsUnique(customers) && id !in customers && !EmailTaken(customers, c.email)
    ensures EmailsUnique(customers[id := c])
  {}
}
