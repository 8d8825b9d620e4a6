/** The backend's contract model: the guards around the database calls,
    the mapping of their failures to the model's errors, and the
    date-range query's overlap predicate. Each database call is replaced
    by what it reports; the table is a sequence of rows. */
module ContractStore {
  import opened Wrappers

  /** A stored contract row. Instants are milliseconds since the epoch. */
  datatype StoredContract = StoredContract(
    id: nat,
    productId: nat,
    userId: nat,
    quantity: int,
    rentalDuration: int,
    totalAmount: real,
    stateBefore: string,
    stateAfter: string,
    usageDate: int,
    retrievalDate: int,
    startDate: int,
    endDate: int)

  datatype StoreError =
    | ErrInvalidContract
    | ErrContractNotFound
    | DatabaseError(message: string)

  /** `SaveContract`: a nil contract is refused before the database is
      reached; otherwise the create call's error, if any, is returned.
      `createError` is what `DB.Create` would report. */
  function SaveContract(contract: Option<StoredContract>, createError: Option<string>): (r: Option<StoreError>)
    ensures contract.None? ==> r == Some(ErrInvalidContract)
    ensures contract.Some? ==> (r.None? <==> createError.None?)
    ensures contract.Some? && createError.Some? ==> r == Some(DatabaseError(createError.value))
  {
    if contract.None? then Some(ErrInvalidContract)
    else if createError.Some? then Some(DatabaseError(createError.value))
    else None
  }

  /** `UpdateContract`: nil or a zero id is refused before the database is
      reached. `saveError` is what `DB.Save` would report. */
  function UpdateContract(contract: Option<StoredContract>, saveError: Option<string>): (r: Option<StoreError>)
    ensures (contract.None? || contract.value.id == 0) <==> r == Some(ErrInvalidContract)
    ensures contract.Some? && contract.value.id != 0 ==> (r.None? <==> saveError.None?)
    ensures contract.Some? && contract.value.id != 0 && saveError.Some? ==> r == Some(DatabaseError(saveError.value))
  {
    if contract.None? || contract.value.id == 0 then Some(ErrInvalidContract)
    else if saveError.Some? then Some(DatabaseError(saveError.value))
    else None
  }

  /** `GetContractByID`: whatever the lookup's failure, it reads as "not
      found". `lookup` is what `DB.First` reports. */
  function GetContractByID(lookup: Result<StoredContract, string>): (r: Result<StoredContract, StoreError>)
    ensures lookup.Failure? <==> r == Failure(ErrContractNotFound)
    ensures lookup.Success? ==> r == Success(lookup.value)
  {
    match lookup
    case Success(c) => Success(c)
    case Failure(_) => Failure(ErrContractNotFound)
  }

  /** SQL `x BETWEEN lo AND hi`, bounds included. */
  predicate Between(x: int, lo: int, hi: int)
    ensures x == lo || x == hi ==> (Between(x, lo, hi) <==> lo <= hi)
    ensures lo > hi ==> !Between(x, lo, hi)
  {
    lo <= x <= hi
  }

  /** The query's three-clause `WHERE`. */
  predicate InDateRange(c: StoredContract, startDate: int, endDate: int)
    ensures c.startDate <= startDate && endDate <= c.endDate ==> InDateRange(c, startDate, endDate)
    ensures c.startDate <= c.endDate < startDate <= endDate ==> !InDateRange(c, startDate, endDate)
    ensures startDate <= endDate < c.startDate <= c.endDate ==> !InDateRange(c, startDate, endDate)
  {
    || Between(c.startDate, startDate, endDate)
    || Between(c.endDate, startDate, endDate)
    || (c.startDate <= startDate && c.endDate >= endDate)
  }

  /** For well-formed intervals the `WHERE` selects exactly the contracts
      that overlap the closed range, as its doc comment claims. */
  lemma InDateRangeIsOverlap(c: StoredContract, startDate: int, endDate: int)
    requires c.startDate <= c.endDate && startDate <= endDate
    ensures InDateRange(c, startDate, endDate) <==> c.startDate <= endDate && c.endDate >= startDate
  {
  }

  /** A contract that strictly encloses the range is selected, and only
      through the third clause. */
  lemma EnclosingContractSelected(c: StoredContract, startDate: int, endDate: int)
    requires c.startDate < startDate <= endDate < c.endDate
    ensures !Between(c.startDate, startDate, endDate) && !Between(c.endDate, startDate, endDate)
    ensures InDateRange(c, startDate, endDate)
  {
  }

  /** `GetContractsByDateRange` over a table: the rows the `WHERE` keeps,
      in table order. */
  function GetContractsByDateRange(table: seq<StoredContract>, startDate: int, endDate: int): (r: seq<StoredContract>)
    ensures |r| <= |table|
    ensures forall c :: c in r <==> c in table && InDateRange(c, startDate, endDate)
  {
    if table == [] then []
    else
      var rest := GetContractsByDateRange(table[1..], startDate, endDate);
      assert forall c :: c in table <==> c == table[0] || c in table[1..];
      if InDateRange(table[0], startDate, endDate) then [table[0]] + rest else rest
  }

  /** Over a table of well-formed rows the query returns exactly the rows
      overlapping the range: one inside it, or touching its start with its
      end, is returned; one ending before it or starting after it is not. */
  lemma QueryReturnsOverlapping(table: seq<StoredContract>, startDate: int, endDate: int, c: StoredContract)
    requires c in table && c.startDate <= c.endDate && startDate <= endDate
    ensures c in GetContractsByDateRange(table, startDate, endDate)
        <==> c.startDate <= endDate && c.endDate >= startDate
    ensures c.endDate == startDate ==> c in GetContractsByDateRange(table, startDate, endDate)
    ensures c.endDate < startDate || c.startDate > endDate ==> c !in GetContractsByDateRange(table, startDate, endDate)
  {
    InDateRangeIsOverlap(c, startDate, endDate);
  }
}
