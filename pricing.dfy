/** Rental pricing: `calculateTotalPrice` of the contract page. A span in
    milliseconds is rounded UP to whole days; every full week is charged
    the week rate and the remaining days the day rate. */
module Pricing {
  import opened Wrappers
  import opened Domain

  /** 1000 * 60 * 60 * 24 */
  const MsPerDay: int := 86_400_000

  /** `Math.ceil(span / MsPerDay)` on an integer span of milliseconds. */
  function CeilDays(span: int): (days: int)
    ensures (days - 1) * MsPerDay < span <= days * MsPerDay
  {
    -((-span) / MsPerDay)
  }

  /** The rounded-up day count is the only integer in its window. */
  lemma CeilDaysIs(span: int, days: int)
    requires (days - 1) * MsPerDay < span <= days * MsPerDay
    ensures CeilDays(span) == days
  {
  }

  /** The rate schedule applied to a whole number of days. */
  function PriceForDays(days: int, pricePerDay: real, pricePerWeek: real): (price: real)
    ensures days <= 0 ==> price == 0.0
    ensures 0 < days < 7 ==> price == days as real * pricePerDay
    ensures days > 0 && days % 7 == 0 ==> price == (days / 7) as real * pricePerWeek
  {
    if days <= 0 then 0.0
    else
      var weeks, rest := days / 7, days % 7;
      assert rest == 0 ==> rest as real * pricePerDay == 0.0;
      assert days < 7 ==> weeks == 0 && rest == days;
      weeks as real * pricePerWeek + rest as real * pricePerDay
  }

  function CalculateTotalPrice(products: seq<Product>, productId: string, start: int, end: int): (price: real)
    ensures FindProduct(products, productId).None? ==> price == 0.0
    ensures CeilDays(end - start) <= 0 ==> price == 0.0
  {
    match FindProduct(products, productId)
    case None => 0.0
    case Some(p) => PriceForDays(CeilDays(end - start), p.pricePerDay, p.pricePerWeek)
  }

  /** `days = 7w + r` with `0 <= r < 7` costs `w` weeks and `r` days. */
  lemma WeeksThenDays(days: int, weeks: int, rest: int, pricePerDay: real, pricePerWeek: real)
    requires days > 0 && 0 <= rest < 7 && days == 7 * weeks + rest
    ensures PriceForDays(days, pricePerDay, pricePerWeek)
         == weeks as real * pricePerWeek + rest as real * pricePerDay
  {
    assert days / 7 == weeks && days % 7 == rest;
  }

  /** One to six days cost the day rate per day; seven days cost exactly
      the week rate, whatever the day rate (no cheaper-of comparison). */
  lemma ShortRentals(days: int, pricePerDay: real, pricePerWeek: real)
    requires 1 <= days <= 7
    ensures days < 7 ==> PriceForDays(days, pricePerDay, pricePerWeek) == days as real * pricePerDay
    ensures days == 7 ==> PriceForDays(days, pricePerDay, pricePerWeek) == pricePerWeek
  {
    if days < 7 {
      WeeksThenDays(days, 0, days, pricePerDay, pricePerWeek);
    } else {
      WeeksThenDays(days, 1, 0, pricePerDay, pricePerWeek);
    }
  }

  /** Non-negative rates give a non-negative price. */
  lemma PriceNonNegative(products: seq<Product>, productId: string, start: int, end: int)
    requires forall i :: 0 <= i < |products| ==> products[i].pricePerDay >= 0.0 && products[i].pricePerWeek >= 0.0
    ensures CalculateTotalPrice(products, productId, start, end) >= 0.0
  {
    match FindProduct(products, productId)
    case None =>
    case Some(p) =>
      var days := CeilDays(end - start);
      if days > 0 {
        var k :| 0 <= k < |products| && products[k] == p;
        ProductOfNonNegatives((days / 7) as real, p.pricePerWeek);
        ProductOfNonNegatives((days % 7) as real, p.pricePerDay);
      }
  }

  lemma ProductOfNonNegatives(a: real, b: real)
    requires a >= 0.0 && b >= 0.0
    ensures a * b >= 0.0
  {
  }

  /** The whole quote: a span of `7w + r` rounded-up days, for the first
      product with the requested id, costs `w` week rates and `r` day rates. */
  lemma QuoteForSpan(products: seq<Product>, productId: string, start: int, end: int, i: nat, weeks: nat, rest: nat)
    requires i < |products| && products[i].id == productId
    requires forall j :: 0 <= j < i ==> products[j].id != productId
    requires rest < 7 && 7 * weeks + rest > 0
    requires (7 * weeks + rest - 1) * MsPerDay < end - start <= (7 * weeks + rest) * MsPerDay
    ensures CalculateTotalPrice(products, productId, start, end)
         == weeks as real * products[i].pricePerWeek + rest as real * products[i].pricePerDay
  {
    CeilDaysIs(end - start, 7 * weeks + rest);
    WeeksThenDays(7 * weeks + rest, weeks, rest, products[i].pricePerDay, products[i].pricePerWeek);
  }

  /** A span one millisecond longer than `n` whole days is charged `n + 1`
      days: 86 400 001 ms counts as 2 days. */
  lemma PartialDayRoundsUp(n: int, extra: int)
    requires 0 < extra <= MsPerDay
    ensures CeilDays(n * MsPerDay + extra) == n + 1
  {
    CeilDaysIs(n * MsPerDay + extra, n + 1);
  }

  /** Nine days at 20 per day and 100 per week cost 140. */
  lemma NineDayExample(p: Product, start: int)
    requires p.pricePerDay == 20.0 && p.pricePerWeek == 100.0
    ensures CalculateTotalPrice([p], p.id, start, start + 9 * MsPerDay) == 140.0
  {
    QuoteForSpan([p], p.id, start, start + 9 * MsPerDay, 0, 1, 2);
  }
}
