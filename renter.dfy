/** The renter page: product availability derived from active contracts,
    the current user's rentals joined to their product, and the
    available-products view. */
module Renter {
  import opened Wrappers
  import opened Domain
  import opened Badges

  /** The placeholder for the signed-in user. */
  const CurrentUserId: string := "user123"

  /** `rentedProductIds`: the product id of every `Active` contract. */
  function RentedIds(contracts: seq<Contract>): (ids: seq<string>)
    ensures forall id :: id in ids <==> exists i :: 0 <= i < |contracts| && contracts[i].status == Active && contracts[i].productId == id
  {
    if contracts == [] then []
    else
      var rest := RentedIds(contracts[1..]);
      assert forall i :: 0 < i < |contracts| ==> contracts[1..][i - 1] == contracts[i];
      if contracts[0].status == Active then [contracts[0].productId] + rest else rest
  }

  /** The status the page gives one product. */
  function DerivedStatus(p: Product, rented: seq<string>): (status: string)
    ensures status == Rented <==> p.id in rented
    ensures status == Available <==> p.id !in rented
  {
    if p.id in rented then Rented else Available
  }

  /** `enhancedProducts`: each product with its derived status, all other
      fields, the count and the order kept. */
  function EnhanceProducts(products: seq<Product>, contracts: seq<Contract>): (r: seq<Product>)
    ensures |r| == |products|
    ensures forall i :: 0 <= i < |products| ==> r[i].(status := products[i].status) == products[i]
    ensures forall i :: 0 <= i < |products| ==> r[i].status.Some?
  {
    var rented := RentedIds(contracts);
    seq(|products|, i requires 0 <= i < |products| => products[i].(status := Some(DerivedStatus(products[i], rented))))
  }

  /** A product is `Rented` exactly when some contract whose status is
      exactly `Active` names it; otherwise it is `Available`. */
  lemma RentedIffActiveContract(products: seq<Product>, contracts: seq<Contract>, i: nat)
    requires i < |products|
    ensures EnhanceProducts(products, contracts)[i].status == Some(Rented)
        <==> exists j :: 0 <= j < |contracts| && contracts[j].status == Active && contracts[j].productId == products[i].id
    ensures EnhanceProducts(products, contracts)[i].status == Some(Available)
        <==> !exists j :: 0 <= j < |contracts| && contracts[j].status == Active && contracts[j].productId == products[i].id
  {
  }

  /** A pending, completed or cancelled contract never changes any
      product's status. */
  lemma InactiveContractChangesNothing(products: seq<Product>, contracts: seq<Contract>, c: Contract)
    requires c.status != Active
    ensures EnhanceProducts(products, contracts + [c]) == EnhanceProducts(products, contracts)
  {
    var a, b := RentedIds(contracts + [c]), RentedIds(contracts);
    forall id ensures id in a <==> id in b {
      if id in a {
        var j :| 0 <= j < |contracts + [c]| && (contracts + [c])[j].status == Active && (contracts + [c])[j].productId == id;
        assert contracts[j].productId == id;
      }
      if id in b {
        var j :| 0 <= j < |contracts| && contracts[j].status == Active && contracts[j].productId == id;
        assert (contracts + [c])[j] == contracts[j];
      }
    }
  }

  /** `{ ...contract, product }` with the first product of that id. */
  function AttachProduct(c: Contract, products: seq<Product>): (r: Contract)
    ensures r.product == FindProduct(products, c.productId)
    ensures r.(product := c.product) == c
  {
    c.(product := FindProduct(products, c.productId))
  }

  /** `userRentals`: the user's contracts, in order, each with its product. */
  function UserRentals(contracts: seq<Contract>, products: seq<Product>, userId: string): (r: seq<Contract>)
    ensures |r| <= |contracts|
    ensures forall x :: x in r ==> x.userId == userId
    ensures forall c :: c in contracts && c.userId == userId ==> AttachProduct(c, products) in r
    ensures forall x :: x in r ==> exists c :: c in contracts && c.userId == userId && x == AttachProduct(c, products)
  {
    if contracts == [] then []
    else
      var rest := UserRentals(contracts[1..], products, userId);
      if contracts[0].userId == userId then [AttachProduct(contracts[0], products)] + rest else rest
  }

  /** The "my rentals" view: the rentals of the signed-in placeholder user. */
  function MyRentals(contracts: seq<Contract>, products: seq<Product>): (r: seq<Contract>)
    ensures forall x :: x in r ==> x.userId == CurrentUserId
    ensures forall c :: c in contracts && c.userId == CurrentUserId ==> AttachProduct(c, products) in r
    ensures forall c :: c in contracts && c.userId != CurrentUserId ==> AttachProduct(c, products) !in r
  {
    UserRentals(contracts, products, CurrentUserId)
  }

  /** Filtering keeps input order: the rentals of a concatenation are the
      concatenation of the rentals. */
  lemma {:induction false} UserRentalsAppend(a: seq<Contract>, b: seq<Contract>, products: seq<Product>, userId: string)
    ensures UserRentals(a + b, products, userId) == UserRentals(a, products, userId) + UserRentals(b, products, userId)
  {
    if a == [] {
      assert a + b == b;
    } else {
      assert (a + b)[1..] == a[1..] + b;
      UserRentalsAppend(a[1..], b, products, userId);
    }
  }

  /** The products the "available" view lists. */
  function AvailableProducts(products: seq<Product>): (r: seq<Product>)
    ensures |r| <= |products|
    ensures forall p :: p in r <==> p in products && p.status == Some(Available)
  {
    if products == [] then []
    else
      var rest := AvailableProducts(products[1..]);
      assert forall p :: p in products <==> p == products[0] || p in products[1..];
      if products[0].status == Some(Available) then [products[0]] + rest else rest
  }

  /** The "No available products found" card shows exactly when every
      product is named by some active contract. */
  lemma EmptyMessageIffAllRented(products: seq<Product>, contracts: seq<Contract>)
    ensures |AvailableProducts(EnhanceProducts(products, contracts))| == 0
        <==> forall i :: 0 <= i < |products| ==> products[i].id in RentedIds(contracts)
  {
    var e := EnhanceProducts(products, contracts);
    if exists i :: 0 <= i < |products| && products[i].id !in RentedIds(contracts) {
      var i :| 0 <= i < |products| && products[i].id !in RentedIds(contracts);
      assert e[i] in e && e[i].status == Some(Available);
    } else {
      if |AvailableProducts(e)| != 0 {
        var p := AvailableProducts(e)[0];
        assert p in e;
      }
    }
  }
}
