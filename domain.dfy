/** The frontend's shared records (Product, User, Contract) and the
    first-match lookup `Array.prototype.find` that every page uses to
    join a contract to its product and renter. */
module Domain {
  import opened Wrappers

  /** A rentable item. `status` is absent until a page derives it. */
  datatype Product = Product(
    id: string,
    objectName: string,
    brand: string,
    model: string,
    quantity: int,
    description: string,
    pricePerDay: real,
    pricePerWeek: real,
    cautionDeposit: real,
    status: Option<string>)

  /** A renter. */
  datatype User = User(
    id: string,
    firstName: string,
    lastName: string,
    email: string,
    postalAddress: string,
    city: string,
    birthDate: Option<string>,
    phoneNumber: string)

  /** A rental agreement. Dates are instants in milliseconds since the
      epoch; `product` and `user` are the references a page attaches. */
  datatype Contract = Contract(
    id: string,
    productId: string,
    userId: string,
    startDate: int,
    endDate: int,
    totalPrice: real,
    status: string,
    product: Option<Product>,
    user: Option<User>)

  const Active: string := "Active"
  const Pending: string := "Pending"
  const Completed: string := "Completed"
  const Cancelled: string := "Cancelled"

  /** The index of the first element whose id is `id`, as `find` scans. */
  function IndexOfId<T>(s: seq<T>, idOf: T -> string, id: string): (r: Option<nat>)
    ensures r.Some? ==> r.value < |s| && idOf(s[r.value]) == id
    ensures r.Some? ==> forall j :: 0 <= j < r.value ==> idOf(s[j]) != id
    ensures r.None? <==> forall j :: 0 <= j < |s| ==> idOf(s[j]) != id
  {
    if |s| == 0 then None
    else if idOf(s[0]) == id then Some(0)
    else match IndexOfId(s[1..], idOf, id)
      case None => None
      case Some(k) => Some(k + 1)
  }

  /** `products.find(p => p.id === id)`: the first product with that id. */
  function FindProduct(products: seq<Product>, id: string): (r: Option<Product>)
    ensures r.Some? ==> r.value in products && r.value.id == id
    ensures r.None? <==> forall j :: 0 <= j < |products| ==> products[j].id != id
    ensures forall i | 0 <= i < |products| && products[i].id == id ::
              (forall j :: 0 <= j < i ==> products[j].id != id) ==> r == Some(products[i])
  {
    match IndexOfId(products, (p: Product) => p.id, id)
    case None => None
    case Some(k) => Some(products[k])
  }

  /** `users.find(u => u.id === id)`: the first user with that id. */
  function FindUser(users: seq<User>, id: string): (r: Option<User>)
    ensures r.Some? ==> r.value in users && r.value.id == id
    ensures r.None? <==> forall j :: 0 <= j < |users| ==> users[j].id != id
    ensures forall i | 0 <= i < |users| && users[i].id == id ::
              (forall j :: 0 <= j < i ==> users[j].id != id) ==> r == Some(users[i])
  {
    match IndexOfId(users, (u: User) => u.id, id)
    case None => None
    case Some(k) => Some(users[k])
  }
}
