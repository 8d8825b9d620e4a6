/** The calendar page: contracts turned into calendar events under the
    product filter, the event colour, and the statistics cards (status
    counts, revenue, mean rounded-up duration, most-rented product). */
module Calendar {
  import opened Wrappers
  import opened Domain
  import opened Pricing

  /** The filter value that shows every contract. */
  const AllProducts: string := "all"

  datatype CalendarEvent = CalendarEvent(id: string, title: string, start: int, end: int, contract: Contract)

  /** `contract.user?.firstName || 'Unknown'` */
  function RenterName(user: Option<User>): (name: string)
    ensures name != ""
    ensures user.Some? && user.value.firstName != "" ==> name == user.value.firstName
    ensures user.None? || user.value.firstName == "" ==> name == "Unknown"
  {
    if user.Some? && user.value.firstName != "" then user.value.firstName else "Unknown"
  }

  function EventTitle(c: Contract): (title: string)
    ensures c.product.Some? ==> title == c.product.value.objectName + " (" + RenterName(c.user) + ")"
    ensures c.product.None? ==> title == "Contract #" + c.id
  {
    match c.product
    case Some(p) => p.objectName + " (" + RenterName(c.user) + ")"
    case None => "Contract #" + c.id
  }

  /** The event spans the contract's own dates and carries its id. */
  function ToEvent(c: Contract): (e: CalendarEvent)
    ensures e.id == c.id && e.contract == c
    ensures e.start == c.startDate && e.end == c.endDate
    ensures e.title == EventTitle(c)
  {
    CalendarEvent(c.id, EventTitle(c), c.startDate, c.endDate, c)
  }

  /** `'all'` shows every contract; any other value only that product's. */
  predicate Shown(c: Contract, selectedProduct: string)
    ensures selectedProduct == AllProducts ==> Shown(c, selectedProduct)
    ensures selectedProduct != AllProducts ==> (Shown(c, selectedProduct) <==> c.productId == selectedProduct)
  {
    selectedProduct == AllProducts || c.productId == selectedProduct
  }

  /** `contracts.filter(...).map(...)`. */
  function Events(contracts: seq<Contract>, selectedProduct: string): (events: seq<CalendarEvent>)
    ensures |events| <= |contracts|
  {
    if contracts == [] then []
    else
      (if Shown(contracts[0], selectedProduct) then [ToEvent(contracts[0])] else [])
      + Events(contracts[1..], selectedProduct)
  }

  /** The events are exactly those of the contracts the filter shows. */
  lemma {:induction false} EventsMembership(contracts: seq<Contract>, selectedProduct: string)
    ensures forall e :: e in Events(contracts, selectedProduct)
              ==> e.contract in contracts && Shown(e.contract, selectedProduct) && e == ToEvent(e.contract)
    ensures forall c :: c in contracts && Shown(c, selectedProduct) ==> ToEvent(c) in Events(contracts, selectedProduct)
  {
    if contracts != [] {
      var tail := contracts[1..];
      EventsMembership(tail, selectedProduct);
      assert forall c :: c in contracts <==> c == contracts[0] || c in tail;
    }
  }

  /** Filtering keeps input order: the events of a concatenation are the
      concatenation of the events. */
  lemma {:induction false} EventsAppend(a: seq<Contract>, b: seq<Contract>, selectedProduct: string)
    ensures Events(a + b, selectedProduct) == Events(a, selectedProduct) + Events(b, selectedProduct)
  {
    if a == [] {
      assert a + b == b;
    } else {
      var head := if Shown(a[0], selectedProduct) then [ToEvent(a[0])] else [];
      assert (a + b)[0] == a[0];
      assert (a + b)[1..] == a[1..] + b;
      EventsAppend(a[1..], b, selectedProduct);
      assert Events(a + b, selectedProduct) == head + Events(a[1..] + b, selectedProduct);
    }
  }

  /** With the `'all'` filter there is one event per contract, in order. */
  lemma {:induction false} EventsUnfiltered(contracts: seq<Contract>)
    ensures |Events(contracts, AllProducts)| == |contracts|
    ensures forall i :: 0 <= i < |contracts| ==> Events(contracts, AllProducts)[i] == ToEvent(contracts[i])
  {
    if contracts != [] {
      var tail := contracts[1..];
      EventsUnfiltered(tail);
      var events := Events(contracts, AllProducts);
      assert events == [ToEvent(contracts[0])] + Events(tail, AllProducts);
      forall i | 0 < i < |contracts|
        ensures events[i] == ToEvent(contracts[i])
      {
        assert tail[i - 1] == contracts[i];
      }
    }
  }

  /** `eventStyleGetter`'s background colour. */
  function EventBackground(status: string): (color: string)
    ensures color == "#9E9E9E" <==> status !in {Active, Pending, Completed, Cancelled}
    ensures status == Active <==> color == "#4CAF50"
    ensures status == Pending <==> color == "#FFC107"
    ensures status == Completed <==> color == "#2196F3"
    ensures status == Cancelled <==> color == "#F44336"
  {
    if status == Active then "#4CAF50"
    else if status == Pending then "#FFC107"
    else if status == Completed then "#2196F3"
    else if status == Cancelled then "#F44336"
    else "#9E9E9E"
  }

  // ---------------------------------------------------------------------
  // Statistics

  datatype RentalStats = RentalStats(
    activeContracts: nat,
    pendingContracts: nat,
    completedContracts: nat,
    cancelledContracts: nat,
    totalRevenue: real,
    averageDuration: real,
    topProduct: string)

  /** `contracts.filter(c => c.status === status).length` */
  function CountStatus(contracts: seq<Contract>, status: string): (n: nat)
    ensures n <= |contracts|
    ensures n == 0 <==> forall i :: 0 <= i < |contracts| ==> contracts[i].status != status
    ensures n == |contracts| <==> forall i :: 0 <= i < |contracts| ==> contracts[i].status == status
  {
    if contracts == [] then 0
    else
      assert forall i :: 0 < i < |contracts| ==> contracts[1..][i - 1] == contracts[i];
      (if contracts[0].status == status then 1 else 0) + CountStatus(contracts[1..], status)
  }

  predicate KnownStatus(status: string)
  {
    status in {Active, Pending, Completed, Cancelled}
  }

  /** Contracts whose status is none of the four; they are tallied nowhere. */
  function CountUnknown(contracts: seq<Contract>): nat
  {
    if contracts == [] then 0
    else (if KnownStatus(contracts[0].status) then 0 else 1) + CountUnknown(contracts[1..])
  }

  /** The four status counts and the unknown-status contracts partition
      the input, so the four counts sum to at most its length. */
  lemma {:induction false} StatusCountsPartition(contracts: seq<Contract>)
    ensures CountStatus(contracts, Active) + CountStatus(contracts, Pending)
          + CountStatus(contracts, Completed) + CountStatus(contracts, Cancelled)
          + CountUnknown(contracts) == |contracts|
    ensures CountStatus(contracts, Active) + CountStatus(contracts, Pending)
          + CountStatus(contracts, Completed) + CountStatus(contracts, Cancelled) <= |contracts|
  {
    if contracts != [] {
      StatusCountsPartition(contracts[1..]);
    }
  }

  /** Statuses Active, Active, Pending, Cancelled count 2, 1, 0, 1. */
  lemma StatusCountExample(a: Contract, b: Contract, c: Contract, d: Contract)
    requires a.status == Active && b.status == Active && c.status == Pending && d.status == Cancelled
    ensures CountStatus([a, b, c, d], Active) == 2
    ensures CountStatus([a, b, c, d], Pending) == 1
    ensures CountStatus([a, b, c, d], Completed) == 0
    ensures CountStatus([a, b, c, d], Cancelled) == 1
  {
    assert [a, b, c, d][1..] == [b, c, d];
    assert [b, c, d][1..] == [c, d];
    assert [c, d][1..] == [d];
    assert [d][1..] == [];
    forall s
      ensures CountStatus([a, b, c, d], s)
           == (if a.status == s then 1 else 0) + (if b.status == s then 1 else 0)
            + (if c.status == s then 1 else 0) + (if d.status == s then 1 else 0)
    {
      assert CountStatus([d], s) == (if d.status == s then 1 else 0) + CountStatus([], s);
      assert CountStatus([c, d], s) == (if c.status == s then 1 else 0) + CountStatus([d], s);
      assert CountStatus([b, c, d], s) == (if b.status == s then 1 else 0) + CountStatus([c, d], s);
    }
    assert Completed[1] != Cancelled[1];
  }

  /** `contracts.reduce((sum, c) => sum + c.totalPrice, 0)` */
  function TotalRevenue(contracts: seq<Contract>): (total: real)
    ensures (forall i :: 0 <= i < |contracts| ==> contracts[i].totalPrice >= 0.0) ==> total >= 0.0
  {
    if contracts == [] then 0.0
    else
      assert forall i :: 0 < i < |contracts| ==> contracts[1..][i - 1] == contracts[i];
      contracts[0].totalPrice + TotalRevenue(contracts[1..])
  }

  /** Revenue is additive; in particular a cancelled contract appended to
      the set adds its whole price. */
  lemma {:induction false} RevenueAppend(a: seq<Contract>, b: seq<Contract>)
    ensures TotalRevenue(a + b) == TotalRevenue(a) + TotalRevenue(b)
  {
    if a == [] {
      assert a + b == b;
    } else {
      assert (a + b)[1..] == a[1..] + b;
      RevenueAppend(a[1..], b);
    }
  }

  /** Rounded-up length of a contract in days. */
  function Duration(c: Contract): (days: int)
    ensures (days - 1) * MsPerDay < c.endDate - c.startDate <= days * MsPerDay
    ensures c.startDate <= c.endDate ==> days >= 0
    ensures c.startDate < c.endDate ==> days >= 1
  {
    CeilDays(c.endDate - c.startDate)
  }

  /** Sum of the rounded-up durations. */
  function TotalDuration(contracts: seq<Contract>): (total: int)
    ensures (forall i :: 0 <= i < |contracts| ==> contracts[i].startDate <= contracts[i].endDate) ==> total >= 0
  {
    if contracts == [] then 0
    else
      assert forall i :: 0 < i < |contracts| ==> contracts[1..][i - 1] == contracts[i];
      Duration(contracts[0]) + TotalDuration(contracts[1..])
  }

  /** Mean rounded-up duration; 0 for no contracts. */
  function AverageDuration(contracts: seq<Contract>): (avg: real)
    ensures contracts == [] ==> avg == 0.0
    ensures contracts != [] ==> avg * |contracts| as real == TotalDuration(contracts) as real
  {
    if |contracts| > 0 then TotalDuration(contracts) as real / |contracts| as real else 0.0
  }

  lemma {:induction false} TotalDurationBounds(contracts: seq<Contract>, lo: int, hi: int)
    requires forall i :: 0 <= i < |contracts| ==> lo <= Duration(contracts[i]) <= hi
    ensures lo * |contracts| <= TotalDuration(contracts) <= hi * |contracts|
  {
    if contracts != [] {
      var tail := contracts[1..];
      assert forall i :: 0 <= i < |tail| ==> tail[i] == contracts[i + 1];
      TotalDurationBounds(tail, lo, hi);
      StepBounds(lo, hi, |tail|, Duration(contracts[0]), TotalDuration(tail));
    }
  }

  lemma StepBounds(lo: int, hi: int, n: int, d: int, t: int)
    requires lo <= d <= hi && lo * n <= t <= hi * n
    ensures lo * (n + 1) <= d + t <= hi * (n + 1)
  {
    assert lo * (n + 1) == lo * n + lo;
    assert hi * (n + 1) == hi * n + hi;
  }

  /** The mean lies between the shortest and the longest duration. */
  lemma AverageWithinBounds(contracts: seq<Contract>, lo: int, hi: int)
    requires contracts != []
    requires forall i :: 0 <= i < |contracts| ==> lo <= Duration(contracts[i]) <= hi
    ensures lo as real <= AverageDuration(contracts) <= hi as real
  {
    TotalDurationBounds(contracts, lo, hi);
    MeanBounds(TotalDuration(contracts), |contracts|, lo, hi);
  }

  lemma MeanBounds(total: int, n: int, lo: int, hi: int)
    requires n > 0 && lo * n <= total <= hi * n
    ensures lo as real <= total as real / n as real <= hi as real
  {
    ProductAsReal(lo, n);
    ProductAsReal(hi, n);
    QuotientBounds(total as real, n as real, lo as real, hi as real);
  }

  lemma ProductAsReal(a: int, b: int)
    ensures (a * b) as real == a as real * b as real
  {
  }

  lemma QuotientBounds(total: real, n: real, lo: real, hi: real)
    requires n > 0.0 && lo * n <= total <= hi * n
    ensures lo <= total / n <= hi
  {
    var q := total / n;
    assert q * n == total;
  }

  // ---------------------------------------------------------------------
  // Most-rented product

  /** Number of contracts for product `id` (counted from the back, as a
      left-to-right `reduce` builds it). */
  function ProductCount(contracts: seq<Contract>, id: string): (n: nat)
    ensures n <= |contracts|
  {
    if contracts == [] then 0
    else
      var last := if contracts[|contracts| - 1].productId == id then 1 else 0;
      ProductCount(contracts[..|contracts| - 1], id) + last
  }

  /** The keys of the counts dictionary in insertion order: each product
      id once, at its first occurrence. */
  function FirstSeenIds(contracts: seq<Contract>): (ids: seq<string>)
    ensures forall i, j :: 0 <= i < j < |ids| ==> ids[i] != ids[j]
    ensures forall k :: k in ids <==> ProductCount(contracts, k) > 0
  {
    if contracts == [] then []
    else
      var prev := FirstSeenIds(contracts[..|contracts| - 1]);
      var k := contracts[|contracts| - 1].productId;
      if k in prev then prev else prev + [k]
  }

  lemma {:induction false} ProductCountOfMember(contracts: seq<Contract>, i: nat)
    requires i < |contracts|
    ensures ProductCount(contracts, contracts[i].productId) > 0
  {
    var n := |contracts| - 1;
    if i < n {
      assert contracts[..n][i] == contracts[i];
      ProductCountOfMember(contracts[..n], i);
    }
  }

  /** An id has a positive count exactly when some contract names it. */
  lemma {:induction false} ProductCountPositiveIff(contracts: seq<Contract>, id: string)
    ensures ProductCount(contracts, id) > 0 <==> exists i :: 0 <= i < |contracts| && contracts[i].productId == id
  {
    if exists i :: 0 <= i < |contracts| && contracts[i].productId == id {
      var i :| 0 <= i < |contracts| && contracts[i].productId == id;
      ProductCountOfMember(contracts, i);
    } else if contracts != [] {
      var n := |contracts| - 1;
      ProductCountPositiveIff(contracts[..n], id);
      assert forall i :: 0 <= i < n ==> contracts[..n][i] == contracts[i];
    }
  }

  /** The `productCounts` reduce: a dictionary from product id to its
      number of contracts, with its keys in insertion order. */
  method CountByProduct(contracts: seq<Contract>) returns (counts: map<string, nat>, keys: seq<string>)
    ensures keys == FirstSeenIds(contracts)
    ensures forall k :: k in counts <==> k in keys
    ensures forall k :: k in counts ==> counts[k] == ProductCount(contracts, k)
  {
    counts, keys := map[], [];
    for i := 0 to |contracts|
      invariant keys == FirstSeenIds(contracts[..i])
      invariant forall k :: k in counts <==> k in keys
      invariant forall k :: k in counts ==> counts[k] == ProductCount(contracts[..i], k)
    {
      var productId := contracts[i].productId;
      assert contracts[..i + 1][..i] == contracts[..i];
      if productId !in counts {
        counts := counts[productId := 0];
        keys := keys + [productId];
      }
      counts := counts[productId := counts[productId] + 1];
    }
    assert contracts[..|contracts|] == contracts;
  }

  /** The `for ... of Object.entries(productCounts)` loop: a strict `>`
      keeps the first key with the largest count. */
  method MostRented(counts: map<string, nat>, keys: seq<string>) returns (topId: string, maxCount: nat)
    requires forall k :: k in keys ==> k in counts
    ensures forall k :: k in keys ==> counts[k] <= maxCount
    ensures maxCount == 0 ==> topId == ""
    ensures maxCount > 0 ==> exists i :: 0 <= i < |keys| && keys[i] == topId && counts[topId] == maxCount
                                        && forall j :: 0 <= j < i ==> counts[keys[j]] < maxCount
  {
    topId, maxCount := "", 0;
    ghost var at := 0;
    for i := 0 to |keys|
      invariant forall j :: 0 <= j < i ==> counts[keys[j]] <= maxCount
      invariant maxCount == 0 ==> topId == ""
      invariant maxCount > 0 ==> at < i && keys[at] == topId && counts[topId] == maxCount
      invariant maxCount > 0 ==> forall j :: 0 <= j < at ==> counts[keys[j]] < maxCount
    {
      if counts[keys[i]] > maxCount {
        maxCount := counts[keys[i]];
        topId := keys[i];
        at := i;
      }
    }
  }

  /** `id` has the largest contract count of all ids, and no id seen
      before it in insertion order ties with it. */
  ghost predicate IsFirstMostRented(contracts: seq<Contract>, id: string)
  {
    var ids := FirstSeenIds(contracts);
    && (forall k :: ProductCount(contracts, k) <= ProductCount(contracts, id))
    && exists i :: 0 <= i < |ids| && ids[i] == id
                && forall j :: 0 <= j < i ==> ProductCount(contracts, ids[j]) < ProductCount(contracts, id)
  }

  /** At most one id is the first most-rented one. */
  lemma FirstMostRentedUnique(contracts: seq<Contract>, a: string, b: string)
    requires IsFirstMostRented(contracts, a) && IsFirstMostRented(contracts, b)
    ensures a == b
  {
  }

  /** `${object} ${brand}` of the product with that id, or `'None'`. */
  function TopProductName(products: seq<Product>, id: string): (name: string)
    ensures name == "None" <==> FindProduct(products, id).None?
    ensures FindProduct(products, id).Some? ==>
      name == FindProduct(products, id).value.objectName + " " + FindProduct(products, id).value.brand
  {
    match FindProduct(products, id)
    case Some(p) =>
      var name := p.objectName + " " + p.brand;
      assert name[|p.objectName|] == ' ';
      assert forall k :: 0 <= k < 4 ==> "None"[k] != ' ';
      name
    case None => "None"
  }

  /** The `rentalStats` memo. It reads only `contracts` and `products`,
      never the product filter. */
  method ComputeRentalStats(contracts: seq<Contract>, products: seq<Product>)
    returns (stats: RentalStats, topProductId: string)
    ensures stats.activeContracts == CountStatus(contracts, Active)
    ensures stats.pendingContracts == CountStatus(contracts, Pending)
    ensures stats.completedContracts == CountStatus(contracts, Completed)
    ensures stats.cancelledContracts == CountStatus(contracts, Cancelled)
    ensures stats.totalRevenue == TotalRevenue(contracts)
    ensures stats.averageDuration == AverageDuration(contracts)
    ensures contracts == [] ==> topProductId == ""
    ensures contracts != [] ==> IsFirstMostRented(contracts, topProductId)
    ensures stats.topProduct == TopProductName(products, topProductId)
  {
    var counts, keys := CountByProduct(contracts);
    var maxCount;
    topProductId, maxCount := MostRented(counts, keys);
    if contracts != [] {
      ProductCountOfMember(contracts, 0);
      assert contracts[0].productId in keys;
      assert maxCount > 0;
      forall k
        ensures ProductCount(contracts, k) <= ProductCount(contracts, topProductId)
      {
        if k in counts {
          assert counts[k] <= maxCount;
        }
      }
    } else {
      assert keys == [];
    }
    stats := RentalStats(
      CountStatus(contracts, Active),
      CountStatus(contracts, Pending),
      CountStatus(contracts, Completed),
      CountStatus(contracts, Cancelled),
      TotalRevenue(contracts),
      AverageDuration(contracts),
      TopProductName(products, topProductId));
  }
}
