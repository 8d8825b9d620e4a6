# Rental contract manager — verified model of its decision logic

The application lets administrators keep a catalogue of rentable products,
links renters to products through contracts over date ranges, and shows the
contracts on a calendar with summary statistics. Almost all of it is
CRUD-over-REST glue; this project models the small deterministic computations
that decide something:

- **Pricing** (`pricing.dfy`): a millisecond span is rounded up to whole days;
  the first product with the requested id is charged its week rate for every
  full 7-day block and its day rate for the remaining days. An unknown product
  or a span of zero or fewer days costs 0.
- **Contract page** (`contract_page.dfy`): the fetch-time join of contracts to
  their product and renter, the required-field gate of `handleSubmit` and the
  price it hands to `createContract`, the form reset, and the shortened id of
  the table. The page is a class whose fields are the page's state.
- **Calendar page** (`calendar.dfy`): contracts become calendar events under
  the product filter; the statistics cards count statuses, sum revenue
  (cancelled contracts included), average the rounded-up durations, and pick
  the most-rented product with a counts dictionary and a strict-`>` max loop.
  The statistics read only the contracts and the products, never the filter:
  `ComputeRentalStats` has no filter parameter.
- **Renter page** (`renter.dfy`): a product is `Rented` iff some contract
  whose status is exactly `Active` names it; the current user's rentals are
  filtered and joined to their product; the available view lists the
  `Available` products.
- **Badges** (`badges.dfy`): the contract-status colour switch, written out
  three times in the source (contract, calendar and renter pages), is defined
  once; the renter page's product badge.
- **Validators** (`validators.dfy`): the user and product validators build an
  error record field by field; `isValid` holds iff the record is empty.
- **Backend contract model** (`contract_store.dfy`): the three-clause SQL
  `WHERE` of the date-range query, proved to select exactly the contracts that
  overlap the closed range when both intervals are well formed; the nil and
  zero-id guards and the error mapping around the database calls.
- **Navigation** (`navigation.dfy`): the active tab chosen by path prefix and
  the route chosen by tab, with the round trip between them.

Shared records (`domain.dfy`) follow the frontend's `Product`, `User` and
`Contract` types. Product's `object` field is called `objectName`, because
`object` is a Dafny keyword. Contract dates are instants in milliseconds,
already parsed. The form draft of the contract page keeps strings, because its
gate tests them for emptiness. Date parsing and ISO formatting are supplied to
`HandleSubmit` as the function parameters `parse` and `toIso`, and the clock
as the `today` and `weekLater` strings. Money is `real`. Quantities are `int`.
Each database call is replaced by the error or row it reports. `isEmail` is a
parameter, and `isEmpty` is "has length 0".

Two behaviours of the code are worth stating outright, because a reader
might expect otherwise:

- The overlap query's `BETWEEN` bounds are inclusive, so a contract ending
  exactly at the range start is selected (`QueryReturnsOverlapping`).
- With no contracts the top product is `"None"` only when no product has the
  empty id. The max loop leaves the id `''` and still looks it up.
  `ComputeRentalStats` states this as written.

## Model

| member | source | states |
|---|---|---|
| Domain.FindProduct | frontend/src/pages/contract/ContractPage.tsx:53 | `find` by id: absent iff no product has the id; otherwise the first product with that id |
| Domain.FindUser | frontend/src/pages/contract/ContractPage.tsx:54 | the same first-match lookup over users |
| Domain.IndexOfId | frontend/src/pages/renter/RenterPage.tsx:59 | the index `find` stops at: it matches, every earlier element does not, and absent iff nothing matches |
| Badges.StatusBadgeColor | frontend/src/pages/calendar/CalendarPage.tsx:148-156 | Active/Pending/Completed/Cancelled map to green/yellow/blue/red, each iff; every other string maps to gray (identical switches at ContractPage.tsx:225-233 and RenterPage.tsx:85-93) |
| Badges.ProductBadgeColor | frontend/src/pages/renter/RenterPage.tsx:77-83 | green iff `Available`, amber iff `Rented`, gray otherwise |
| Badges.ProductCardColor | frontend/src/pages/renter/RenterPage.tsx:137 | green iff the status is absent, empty or `Available` (the fallback to `Available`, and the only case the available-products view at lines 123-124 renders); amber iff `Rented`; gray iff any other non-empty status |
| Pricing.CeilDays | frontend/src/pages/contract/ContractPage.tsx:112 | the day count is the ceiling: `(days-1)*86400000 < span <= days*86400000` |
| Pricing.CeilDaysIs | frontend/src/pages/contract/ContractPage.tsx:112 | the ceiling is the only integer in that window |
| Pricing.PartialDayRoundsUp | frontend/src/pages/contract/ContractPage.tsx:112 | one millisecond to one day past `n` whole days counts as `n+1` days (86 400 001 ms is 2 days) |
| Pricing.PriceForDays | frontend/src/pages/contract/ContractPage.tsx:114-119 | no charge for a non-positive day count; 1–6 days cost the day rate per day; a whole number of weeks costs that many week rates |
| Pricing.CalculateTotalPrice | frontend/src/pages/contract/ContractPage.tsx:106-120 | 0 when no product has the id; 0 when the rounded-up day count is at most 0 |
| Pricing.WeeksThenDays | frontend/src/pages/contract/ContractPage.tsx:116-119 | `days = 7w + r` with `0 <= r < 7` costs `w*pricePerWeek + r*pricePerDay` |
| Pricing.ShortRentals | frontend/src/pages/contract/ContractPage.tsx:114-119 | 1–6 days cost `days*pricePerDay`; 7 days cost exactly `pricePerWeek`, with no comparison against the daily total |
| Pricing.PriceNonNegative | frontend/src/pages/contract/ContractPage.tsx:106-120 | non-negative rates give a non-negative price |
| Pricing.QuoteForSpan | frontend/src/pages/contract/ContractPage.tsx:106-120 | for the first product with the id and a span of `7w + r > 0` rounded-up days, the quote is `w` week rates plus `r` day rates |
| Pricing.NineDayExample | frontend/src/pages/contract/ContractPage.tsx:116-119 | nine days at 20/day and 100/week cost 140 |
| ContractPage.JoinContract | frontend/src/pages/contract/ContractPage.tsx:53-55 | the contract gets the first product and first user with its ids; nothing else changes |
| ContractPage.JoinContracts | frontend/src/pages/contract/ContractPage.tsx:52-56 | one joined contract per fetched contract, same count and order |
| ContractPage.FormatId | frontend/src/pages/contract/ContractPage.tsx:235-239 | `N/A` for an empty id; ids up to 8 long unchanged; longer ids become their first 8 characters plus `...`; never longer than 11 |
| ContractPage.DefaultDraft | frontend/src/pages/contract/ContractPage.tsx:30-36 | empty product and user, the clock's two dates, status `Pending`; with both dates set, exactly product and user fail the required-field gate (the same defaults as `resetForm` at lines 167-173) |
| ContractPage.CheckRequiredFields | frontend/src/pages/contract/ContractPage.tsx:124-128 | the error map has exactly one entry, with its message, per empty required field, and no other key |
| ContractPage.GatePassesIffComplete | frontend/src/pages/contract/ContractPage.tsx:124-133 | the gate lets a draft through iff productId, userId, startDate and endDate are all non-empty |
| ContractPage.Page.constructor | frontend/src/pages/contract/ContractPage.tsx:23-37 | empty lists, the default draft (status Pending, the clock's two dates), no errors |
| ContractPage.Page.FetchData | frontend/src/pages/contract/ContractPage.tsx:43-60 | stores the fetched products and users and the joined contracts; the form is untouched |
| ContractPage.Page.ResetForm | frontend/src/pages/contract/ContractPage.tsx:166-175 | the draft returns to its defaults and the errors are cleared |
| ContractPage.Page.HandleSubmit | frontend/src/pages/contract/ContractPage.tsx:122-164 | with a missing field nothing is sent, the errors are exactly the missing fields and nothing else changes; otherwise the sent `totalPrice` is `CalculateTotalPrice` of the form's product and dates, the form's dates are overwritten with their ISO form, and on success the joined answer is appended and the form reset |
| Calendar.RenterName | frontend/src/pages/calendar/CalendarPage.tsx:139 | the user's first name when joined and non-empty, otherwise `Unknown`; never empty |
| Calendar.EventTitle | frontend/src/pages/calendar/CalendarPage.tsx:138-140 | `object (firstName or 'Unknown')` when the product is joined, else `Contract #id` |
| Calendar.ToEvent | frontend/src/pages/calendar/CalendarPage.tsx:136-143 | the event carries the contract's id, its title, the contract's start and end dates, and the contract itself |
| Calendar.Shown | frontend/src/pages/calendar/CalendarPage.tsx:135 | `'all'` shows every contract; any other value shows exactly the contracts with that product id |
| Calendar.Events | frontend/src/pages/calendar/CalendarPage.tsx:133-145 | filtering never yields more events than contracts |
| Calendar.EventsMembership | frontend/src/pages/calendar/CalendarPage.tsx:133-145 | every event is the event of a contract passing the filter, and every contract passing the filter has its event |
| Calendar.EventsAppend | frontend/src/pages/calendar/CalendarPage.tsx:134-136 | filtering keeps input order: events of a concatenation are the concatenated events |
| Calendar.EventsUnfiltered | frontend/src/pages/calendar/CalendarPage.tsx:135-143 | with filter `'all'` there is one event per contract, the i-th carrying the i-th contract's id, title, start and end |
| Calendar.EventBackground | frontend/src/pages/calendar/CalendarPage.tsx:167-171 | four distinct colours for the four known statuses, each iff; `#9E9E9E` for every other string |
| Calendar.CountStatus | frontend/src/pages/calendar/CalendarPage.tsx:183-186 | at most the number of contracts; 0 iff no contract has that exact status; the full count iff every contract has it |
| Calendar.StatusCountExample | frontend/src/pages/calendar/CalendarPage.tsx:183-186 | statuses Active, Active, Pending, Cancelled give counts 2, 1, 0, 1 |
| Calendar.StatusCountsPartition | frontend/src/pages/calendar/CalendarPage.tsx:183-186 | the four counts plus the unknown-status contracts make up all contracts, so the counts sum to at most their number |
| Calendar.TotalRevenue | frontend/src/pages/calendar/CalendarPage.tsx:188 | non-negative prices give non-negative revenue |
| Calendar.RevenueAppend | frontend/src/pages/calendar/CalendarPage.tsx:188 | revenue is additive over any contracts, so a cancelled contract adds its full price |
| Calendar.Duration | frontend/src/pages/calendar/CalendarPage.tsx:191-194 | the duration is the rounded-up day count of the span: `(days-1)*86400000 < end - start <= days*86400000`; a contract ending no earlier than it starts lasts at least 0 days, and one ending later at least 1 day |
| Calendar.TotalDuration | frontend/src/pages/calendar/CalendarPage.tsx:197 | the summed durations of contracts that each end no earlier than they start are non-negative |
| Calendar.AverageDuration | frontend/src/pages/calendar/CalendarPage.tsx:191-198 | 0 for no contracts; otherwise times the count it gives the total of the rounded-up durations |
| Calendar.AverageWithinBounds | frontend/src/pages/calendar/CalendarPage.tsx:191-198 | the mean lies between the shortest and the longest duration |
| Calendar.ProductCount | frontend/src/pages/calendar/CalendarPage.tsx:201-206 | an id's count never exceeds the number of contracts |
| Calendar.ProductCountPositiveIff | frontend/src/pages/calendar/CalendarPage.tsx:201-206 | an id's count is positive iff some contract names that product |
| Calendar.FirstSeenIds | frontend/src/pages/calendar/CalendarPage.tsx:201-206 | the dictionary's keys: no duplicates, and an id is a key iff some contract names it |
| Calendar.CountByProduct | frontend/src/pages/calendar/CalendarPage.tsx:201-206 | the dictionary maps each product id to its number of contracts, keys in insertion order |
| Calendar.MostRented | frontend/src/pages/calendar/CalendarPage.tsx:208-216 | the chosen count bounds every key's count; with a positive maximum the chosen key has it and every earlier key has less; with none the id stays `''` |
| Calendar.FirstMostRentedUnique | frontend/src/pages/calendar/CalendarPage.tsx:211-216 | "largest count, no earlier key tying" picks at most one id |
| Calendar.TopProductName | frontend/src/pages/calendar/CalendarPage.tsx:218-221 | `None` iff no product has the id; otherwise the first such product's `object`, a space, and its `brand` |
| Calendar.ComputeRentalStats | frontend/src/pages/calendar/CalendarPage.tsx:182-232 | counts are the exact-status counts, revenue the sum of all prices, the average the mean duration; with contracts the top id is the first most-rented id; with none it is `''`; the name is looked up from it |
| Renter.RentedIds | frontend/src/pages/renter/RenterPage.tsx:45-47 | an id is listed iff some contract with status exactly `Active` names it |
| Renter.DerivedStatus | frontend/src/pages/renter/RenterPage.tsx:51 | `Rented` iff the product's id is among the rented ids, `Available` iff it is not |
| Renter.EnhanceProducts | frontend/src/pages/renter/RenterPage.tsx:49-52 | same count and order; only the status changes, and it is always set |
| Renter.RentedIffActiveContract | frontend/src/pages/renter/RenterPage.tsx:45-52 | status `Rented` iff an `Active` contract names the product, `Available` otherwise |
| Renter.InactiveContractChangesNothing | frontend/src/pages/renter/RenterPage.tsx:45-47 | adding a Pending, Completed or Cancelled contract changes no product's status |
| Renter.AttachProduct | frontend/src/pages/renter/RenterPage.tsx:57-60 | the rental gets the first product with its id, or none; every other field is unchanged |
| Renter.UserRentals | frontend/src/pages/renter/RenterPage.tsx:55-61 | every rental is a joined contract of that user, every contract of that user appears joined |
| Renter.MyRentals | frontend/src/pages/renter/RenterPage.tsx:55-61 | the rentals shown use the hard-coded user id `user123` (line 30): every contract of that user appears joined to its product, and no other user's contract does |
| Renter.UserRentalsAppend | frontend/src/pages/renter/RenterPage.tsx:55-56 | filtering keeps input order |
| Renter.AvailableProducts | frontend/src/pages/renter/RenterPage.tsx:123-124 | exactly the products whose status is `Available` |
| Renter.EmptyMessageIffAllRented | frontend/src/pages/renter/RenterPage.tsx:159 | after status derivation the empty-list message shows iff every product is named by an active contract |
| Validators.ValidateUserInput | frontend/src/utils/validators.ts:45-80 | each text field errs iff empty, email errs iff `isEmail` rejects it, each error depends on its own field only; `isValid` iff no error iff the input is acceptable |
| Validators.ValidateProductInput | frontend/src/utils/validators.ts:82-121 | text fields err iff empty, quantity iff at most 0, each price iff at most 0, deposit iff negative (zero accepted); `isValid` iff no error iff the input is acceptable |
| ContractStore.SaveContract | backend/models/contract.go:33-40 | nil gives `ErrInvalidContract` whatever the database would report; otherwise the create call's error |
| ContractStore.UpdateContract | backend/models/contract.go:76-83 | `ErrInvalidContract` iff nil or id 0; otherwise no error iff the save succeeds, and a failed save's own error |
| ContractStore.GetContractByID | backend/models/contract.go:66-73 | any lookup failure becomes `ErrContractNotFound`; a found row is returned |
| ContractStore.Between | backend/models/contract.go:59 | SQL `BETWEEN` includes both bounds, and an inverted range holds nothing |
| ContractStore.InDateRange | backend/models/contract.go:59-60 | a contract enclosing the range is selected; for a non-empty range a well-formed contract ending before it or starting after it is not |
| ContractStore.InDateRangeIsOverlap | backend/models/contract.go:49-60 | for well-formed intervals the three clauses hold iff `start <= rangeEnd && end >= rangeStart` |
| ContractStore.EnclosingContractSelected | backend/models/contract.go:58-60 | a contract strictly enclosing the range is selected by the third clause alone |
| ContractStore.GetContractsByDateRange | backend/models/contract.go:51-63 | the result holds exactly the table rows satisfying the clauses |
| ContractStore.QueryReturnsOverlapping | backend/models/contract.go:59-60 | a well-formed row is returned iff it overlaps the range; one ending exactly at the range start is returned; one wholly before or after is not |
| Navigation.ActiveTab | frontend/src/components/ui/NavigationMenu.tsx:11-17 | the result is always one of the five tab names |
| Navigation.Route | frontend/src/components/ui/NavigationMenu.tsx:23-41 | an unknown tab value routes to `/` |
| Navigation.PrefixesExclusive | frontend/src/components/ui/NavigationMenu.tsx:12-15 | no path starts with two of the four prefixes |
| Navigation.ActiveTabIff | frontend/src/components/ui/NavigationMenu.tsx:11-17 | each tab is chosen iff the path starts with its prefix; `home` iff none does |
| Navigation.RouteRoundTrip | frontend/src/components/ui/NavigationMenu.tsx:23-38 | for each of the five tabs the active tab of its route is the tab itself |
| Navigation.PrefixExamples | frontend/src/components/ui/NavigationMenu.tsx:12-16 | `/admin/x` and `/administrator` are `admin`; `/` is `home` |

## Left out

- React rendering, dialogs, loading flags, view toggles, the form's change handlers and the PDF button: presentation only. Asynchronous `setState` is modelled as an immediate field update.
- The calendar's one-month query buffer (`addMonths`): its month arithmetic belongs to date-fns, which is not part of this model.
- JavaScript `Date` parsing and `toISOString`: given to `HandleSubmit` as the parameters `parse` and `toIso`. An unparsable date (NaN, or a thrown `RangeError`) is not modelled. Go's `time.Parse` in the controllers is not part of this model.
- Floating point: prices, revenue and the average are exact `real`s; quantities are `int`, so a fractional quantity is not modelled.
- Calendar.MostRented: keys are enumerated in insertion order, whereas JavaScript's `Object.entries` lists integer-like keys first in ascending order. The max-loop properties hold for whatever key order is given.
- Calendar.CountByProduct: product ids that name `Object.prototype` members (`constructor`, `__proto__`) behave differently on a plain JavaScript object; not modelled.
- ContractPage.FormatId: ids are strings; a numeric id (where `0` would be falsy) is not modelled.
- ContractPage.FormatId: lengths and the 8-character cut count Unicode scalar values, whereas JavaScript's `length` and `substring` count UTF-16 code units; ids with characters outside the Basic Multilingual Plane would be cut at a different place. Not modelled.
- The network and persistence: the API client, controllers, routes, middlewares, database connection, configuration and seeding. The GORM calls are replaced by what they report.
- PDF generation (frontend and backend): layout and templating only.
- The `validator` library's `isEmail` is a parameter. Its `isEmpty` is taken as "has length 0".
- The backend's `Contract` schema (a total amount and no status) is modelled only in the repository guards and the range query. The pages use the frontend shape.
- The calendar page takes contracts as the range query returns them. Their `product` and `user` references are taken as given.
