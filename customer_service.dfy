/**
 * The customer table: registration under a unique e-mail address, lookups
 * by id and by e-mail, a partial update of the contact fields, and removal
 * of a customer who owns no account. Customer ids, normally generated by
 * the database, are parameters.
 */
module CustomerService {
  import opened Wrappers
  import opened Model
  import opened Ledger
  import AccountService

  /** Some stored customer already uses `email`. */
  predicate EmailTaken(customers: map<int, Customer>, email: string) {
    exists c :: c in customers && customers[c].email == email
  }

  method CreateCustomer(store: Store, id: int, name: string, email: string, phone: string, address: string)
    returns (r: Result<Customer, Error>)
    requires store.Valid()
    requires id !in store.customers
    modifies store
    ensures store.Valid()
    ensures store.accounts == old(store.accounts) && store.log == old(store.log)
    ensures store.balances == old(store.balances)
    ensures r.Success? <==> forall c :: c in old(store.customers) ==> old(store.customers)[c].email != email
    ensures r.Failure? ==> r.error == DuplicateEmail(email) && store.customers == old(store.customers)
    ensures r.Success? ==>
              && r.value == Customer(id, name, email, phone, address)
              && store.customers == old(store.customers)[id := r.value]
  {
    if EmailTaken(store.customers, email) {
      return Failure(DuplicateEmail(email));
    }
    var customer := Customer(id, name, email, phone, address);
    AddCustomer(store.customers, store.accounts, customer);
    store.customers := store.customers[id := customer];
    r := Success(customer);
  }

  function GetCustomerById(store: Store, id: int): (r: Result<Customer, Error>)
    reads store, store.accounts.Values
    requires store.Valid()
    ensures r.Success? <==> id in store.customers
    ensures r.Success? ==> r.value == store.customers[id] && r.value.id == id
    ensures r.Failure? ==> r.error == CustomerNotFound(id)
  {
    if id in store.customers then Success(store.customers[id]) else Failure(CustomerNotFound(id))
  }

  function GetCustomerByEmail(store: Store, email: string): (r: Result<Customer, Error>)
    reads store, store.accounts.Values
    requires store.Valid()
    ensures r.Success? <==> EmailTaken(store.customers, email)
    ensures r.Success? ==>
              && r.value.email == email && r.value.id in store.customers
              && store.customers[r.value.id] == r.value
    ensures r.Failure? ==> r.error == CustomerEmailNotFound(email)
  {
    if EmailTaken(store.customers, email) then
      EmailsUnique(store.customers);
      var c :| c in store.customers && store.customers[c].email == email;
      Success(store.customers[c])
    else
      Failure(CustomerEmailNotFound(email))
  }

  /** A field after a partial update: the given value when there is one and it is not empty. */
  function Overwrite(current: string, given: Option<string>): string {
    if given.Some? && given.value != "" then given.value else current
  }

  /** The customer row after a partial update of name, phone and address. */
  function Updated(c: Customer, name: Option<string>, phone: Option<string>, address: Option<string>): (u: Customer)
    ensures u.id == c.id && u.email == c.email
  {
    c.(name := Overwrite(c.name, name), phone := Overwrite(c.phone, phone), address := Overwrite(c.address, address))
  }

  /** An update without any non-empty value leaves the row as it was. */
  lemma UpdatedNothing(c: Customer, name: Option<string>, phone: Option<string>, address: Option<string>)
    requires name == None || name == Some("")
    requires phone == None || phone == Some("")
    requires address == None || address == Some("")
    ensures Updated(c, name, phone, address) == c
  {
  }

  /** Repeating an update changes nothing more. */
  lemma UpdatedIdempotent(c: Customer, name: Option<string>, phone: Option<string>, address: Option<string>)
    ensures Updated(Updated(c, name, phone, address), name, phone, address) == Updated(c, name, phone, address)
  {
  }

  method UpdateCustomer(store: Store, id: int, name: Option<string>, phone: Option<string>, address: Option<string>)
    returns (r: Result<Customer, Error>)
    requires store.Valid()
    modifies store
    ensures store.Valid()
    ensures store.accounts == old(store.accounts) && store.log == old(store.log)
    ensures store.balances == old(store.balances)
    ensures r.Success? <==> id in old(store.customers)
    ensures r.Failure? ==> r.error == CustomerNotFound(id) && store.customers == old(store.customers)
    ensures r.Success? ==>
              var before := old(store.customers)[id];
              && r.value.id == id && r.value.email == before.email
              && r.value.name == (if name.Some? && name.value != "" then name.value else before.name)
              && r.value.phone == (if phone.Some? && phone.value != "" then phone.value else before.phone)
              && r.value.address == (if address.Some? && address.value != "" then address.value else before.address)
              && store.customers == old(store.customers)[id := r.value]
  {
    if id !in store.customers {
      return Failure(CustomerNotFound(id));
    }
    var customer := Updated(store.customers[id], name, phone, address);
    ReplaceCustomer(store.customers, store.accounts, customer);
    store.customers := store.customers[id := customer];
    r := Success(customer);
  }

  /** Refuses while the customer owns any account, whatever its status. */
  method DeleteCustomer(store: Store, id: int) returns (r: Result<bool, Error>)
    requires store.Valid()
    modifies store
    ensures store.Valid()
    ensures store.accounts == old(store.accounts) && store.log == old(store.log)
    ensures store.balances == old(store.balances)
    ensures r.Success? <==>
              id in old(store.customers) && forall n :: n in store.accounts ==> store.accounts[n].customerId != id
    ensures id !in old(store.customers) ==> r == Failure(CustomerNotFound(id))
    ensures id in old(store.customers) && (exists n :: n in store.accounts && store.accounts[n].customerId == id) ==>
              r == Failure(HasAccounts(id))
    ensures r.Failure? ==> store.customers == old(store.customers)
    ensures r.Success? ==> r.value && store.customers == old(store.customers) - {id}
  {
    if id !in store.customers {
      return Failure(CustomerNotFound(id));
    }
    if AccountService.GetAccountsByCustomerId(store, id) != {} {
      return Failure(HasAccounts(id));
    }
    RemoveCustomer(store.customers, store.accounts, id);
    store.customers := store.customers - {id};
    r := Success(true);
  }
}
