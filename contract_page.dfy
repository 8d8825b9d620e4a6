/** The contract page: the join done when data is fetched, the
    required-field gate and price hand-off of `handleSubmit`, the form
    reset, and the short id shown in the table. */
module ContractPage {
  import opened Wrappers
  import opened Domain
  import opened Pricing

  /** `{ ...contract, product, user }` with both found by id. */
  function JoinContract(c: Contract, products: seq<Product>, users: seq<User>): (r: Contract)
    ensures r.product == FindProduct(products, c.productId)
    ensures r.user == FindUser(users, c.userId)
    ensures r.(product := c.product, user := c.user) == c
  {
    c.(product := FindProduct(products, c.productId), user := FindUser(users, c.userId))
  }

  /** `contractsData.map(...)` at fetch time: one joined contract per
      fetched contract, in order. */
  function JoinContracts(cs: seq<Contract>, products: seq<Product>, users: seq<User>): (r: seq<Contract>)
    ensures |r| == |cs|
    ensures forall i :: 0 <= i < |cs| ==> r[i] == JoinContract(cs[i], products, users)
  {
    seq(|cs|, i requires 0 <= i < |cs| => JoinContract(cs[i], products, users))
  }

  /** The id column: `'N/A'` for an empty id, else at most eight
      characters followed by `...` when the id was cut. */
  function FormatId(id: string): (r: string)
    ensures id == "" ==> r == "N/A"
    ensures 0 < |id| <= 8 ==> r == id
    ensures |id| > 8 ==> |r| == 11 && r[..8] == id[..8] && r[8..] == "..."
    ensures |r| <= 11
  {
    if id == "" then "N/A"
    else if |id| > 8 then id[..8] + "..."
    else id
  }

  /** The contract form (`Partial<Contract>`): every field is the string
      the form holds, `""` when unset. */
  datatype ContractDraft = ContractDraft(
    productId: string,
    userId: string,
    startDate: string,
    endDate: string,
    status: string)

  /** What `createContract` is called with: the form plus `totalPrice`. */
  datatype ContractSubmission = ContractSubmission(draft: ContractDraft, totalPrice: real)

  // The message shown next to each empty field.
  const ProductRequired: string := "Product is required"
  const UserRequired: string := "User is required"
  const StartDateRequired: string := "Start date is required"
  const EndDateRequired: string := "End date is required"

  const ProductField: string := "productId"
  const UserField: string := "userId"
  const StartField: string := "startDate"
  const EndField: string := "endDate"

  const RequiredFields: set<string> := {ProductField, UserField, StartField, EndField}

  function FieldValue(d: ContractDraft, field: string): string
    requires field in RequiredFields
  {
    if field == ProductField then d.productId
    else if field == UserField then d.userId
    else if field == StartField then d.startDate
    else d.endDate
  }

  function RequiredMessage(field: string): string
    requires field in RequiredFields
  {
    if field == ProductField then ProductRequired
    else if field == UserField then UserRequired
    else if field == StartField then StartDateRequired
    else EndDateRequired
  }

  /** The error map the gate should produce: one entry per empty required
      field, carrying that field's message. */
  function MissingFieldErrors(d: ContractDraft): map<string, string>
  {
    map f | f in RequiredFields && FieldValue(d, f) == "" :: RequiredMessage(f)
  }

  /** The field-by-field checks at the top of `handleSubmit`. */
  method CheckRequiredFields(d: ContractDraft) returns (errors: map<string, string>)
    ensures errors == MissingFieldErrors(d)
    ensures ProductField in errors <==> d.productId == ""
    ensures UserField in errors <==> d.userId == ""
    ensures StartField in errors <==> d.startDate == ""
    ensures EndField in errors <==> d.endDate == ""
    ensures errors.Keys <= RequiredFields
  {
    errors := map[];
    if d.productId == "" { errors := errors[ProductField := ProductRequired]; }
    if d.userId == "" { errors := errors[UserField := UserRequired]; }
    if d.startDate == "" { errors := errors[StartField := StartDateRequired]; }
    if d.endDate == "" { errors := errors[EndField := EndDateRequired]; }
    assert forall f :: f in errors <==> f in MissingFieldErrors(d);
  }

  /** The gate lets a draft through exactly when all four fields are set. */
  lemma GatePassesIffComplete(d: ContractDraft)
    ensures |MissingFieldErrors(d)| == 0
        <==> d.productId != "" && d.userId != "" && d.startDate != "" && d.endDate != ""
  {
    var m := MissingFieldErrors(d);
    if d.productId == "" {
      assert ProductField in m;
    } else if d.userId == "" {
      assert UserField in m;
    } else if d.startDate == "" {
      assert StartField in m;
    } else if d.endDate == "" {
      assert EndField in m;
    } else {
      assert m.Keys == {};
    }
  }

  /** The form a fresh page, or `resetForm`, starts with; the two dates
      are today and a week later, supplied by the caller's clock. */
  function DefaultDraft(today: string, weekLater: string): (d: ContractDraft)
    ensures d.productId == "" && d.userId == ""
    ensures d.startDate == today && d.endDate == weekLater && d.status == Pending
    ensures today != "" && weekLater != "" ==> MissingFieldErrors(d).Keys == {ProductField, UserField}
  {
    ContractDraft("", "", today, weekLater, Pending)
  }

  /** The page's state. `parse` stands for `new Date(s).getTime()` and
      `toIso` for `toISOString()`. */
  class Page {
    var contracts: seq<Contract>
    var products: seq<Product>
    var users: seq<User>
    var newContract: ContractDraft
    var errors: map<string, string>

    constructor (today: string, weekLater: string)
      ensures contracts == [] && products == [] && users == []
      ensures newContract == DefaultDraft(today, weekLater) && errors == map[]
    {
      contracts, products, users := [], [], [];
      newContract := DefaultDraft(today, weekLater);
      errors := map[];
    }

    /** `fetchData`: store the fetched lists, contracts joined. */
    method FetchData(contractsData: seq<Contract>, productsData: seq<Product>, usersData: seq<User>)
      modifies this
      ensures contracts == JoinContracts(contractsData, productsData, usersData)
      ensures products == productsData && users == usersData
      ensures newContract == old(newContract) && errors == old(errors)
    {
      contracts := JoinContracts(contractsData, productsData, usersData);
      products := productsData;
      users := usersData;
    }

    /** `resetForm`. */
    method ResetForm(today: string, weekLater: string)
      modifies this`newContract, this`errors
      ensures newContract == DefaultDraft(today, weekLater) && errors == map[]
    {
      newContract := DefaultDraft(today, weekLater);
      errors := map[];
    }

    /** `handleSubmit`. `response` is what `createContract` answers, `None`
        when the call throws. On a missing field nothing is sent and the
        errors are shown; otherwise the price is computed from the form's
        dates, the form's dates are overwritten with their ISO form, the
        contract is sent, and on success the joined answer is appended and
        the form is reset. */
    method HandleSubmit(parse: string -> int, toIso: int -> string, response: Option<Contract>,
                        today: string, weekLater: string)
      returns (sent: Option<ContractSubmission>)
      modifies this
      ensures products == old(products) && users == old(users)
      ensures MissingFieldErrors(old(newContract)) != map[] ==>
        && sent == None
        && errors == MissingFieldErrors(old(newContract))
        && contracts == old(contracts)
        && newContract == old(newContract)
      ensures MissingFieldErrors(old(newContract)) == map[] ==>
        var d := old(newContract);
        var stamped := d.(startDate := toIso(parse(d.startDate)), endDate := toIso(parse(d.endDate)));
        && sent == Some(ContractSubmission(stamped,
             CalculateTotalPrice(products, d.productId, parse(d.startDate), parse(d.endDate))))
        && errors == map[]
        && contracts == old(contracts) + (if response.Some? then [JoinContract(response.value, products, users)] else [])
        && newContract == (if response.Some? then DefaultDraft(today, weekLater) else stamped)
    {
      var missing := CheckRequiredFields(newContract);
      if |missing| > 0 {
        errors := missing;
        return None;
      }
      var totalPrice := CalculateTotalPrice(products, newContract.productId,
                                            parse(newContract.startDate), parse(newContract.endDate));
      var startDate := parse(newContract.startDate);
      var endDate := parse(newContract.endDate);
      newContract := newContract.(startDate := toIso(startDate));
      newContract := newContract.(endDate := toIso(endDate));
      sent := Some(ContractSubmission(newContract, totalPrice));
      errors := map[];
      if response.Some? {
        contracts := contracts + [JoinContract(response.value, products, users)];
        ResetForm(today, weekLater);
      }
    }
  }
}
