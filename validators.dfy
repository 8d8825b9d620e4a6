/** Form validation before a user or product is created: each validator
    sets one error message per failing field, then reports whether the
    error record stayed empty. `isEmpty` is "has length 0"; `isEmail` is
    the validator library's check, taken as a parameter. */
module Validators {
  import opened Wrappers

  datatype UserData = UserData(
    firstName: string,
    lastName: string,
    postalAddress: string,
    city: string,
    birthDate: string,
    phoneNumber: string,
    email: string)

  /** An absent field is a key missing from the TypeScript record. */
  datatype UserErrors = UserErrors(
    firstName: Option<string>,
    lastName: Option<string>,
    postalAddress: Option<string>,
    city: Option<string>,
    birthDate: Option<string>,
    phoneNumber: Option<string>,
    email: Option<string>)

  datatype ProductData = ProductData(
    objectName: string,
    brand: string,
    model: string,
    quantity: int,
    description: string,
    pricePerDay: real,
    pricePerWeek: real,
    cautionDeposit: real)

  datatype ProductErrors = ProductErrors(
    objectName: Option<string>,
    brand: Option<string>,
    model: Option<string>,
    quantity: Option<string>,
    description: Option<string>,
    pricePerDay: Option<string>,
    pricePerWeek: Option<string>,
    cautionDeposit: Option<string>)

  // The messages shown next to each field.
  const FirstNameRequired: string := "First name is required"
  const LastNameRequired: string := "Last name is required"
  const PostalAddressRequired: string := "Postal address is required"
  const CityRequired: string := "City is required"
  const BirthDateRequired: string := "Birth date is required"
  const PhoneNumberRequired: string := "Phone number is required"
  const EmailInvalid: string := "Email is invalid"
  const ObjectRequired: string := "Object is required"
  const BrandRequired: string := "Brand is required"
  const ModelRequired: string := "Model is required"
  const QuantityNotPositive: string := "Quantity must be greater than zero"
  const DescriptionRequired: string := "Description is required"
  const DayPriceNotPositive: string := "Price for 1-day rent must be greater than zero"
  const WeekPriceNotPositive: string := "Price for 1-week rent must be greater than zero"
  const DepositNegative: string := "Caution/deposit cannot be negative"

  function Present(field: Option<string>): nat
  {
    if field.Some? then 1 else 0
  }

  /** `Object.keys(errors).length` */
  function UserErrorCount(e: UserErrors): nat
  {
    Present(e.firstName) + Present(e.lastName) + Present(e.postalAddress) + Present(e.city)
    + Present(e.birthDate) + Present(e.phoneNumber) + Present(e.email)
  }

  function ProductErrorCount(e: ProductErrors): nat
  {
    Present(e.objectName) + Present(e.brand) + Present(e.model) + Present(e.quantity)
    + Present(e.description) + Present(e.pricePerDay) + Present(e.pricePerWeek) + Present(e.cautionDeposit)
  }

  /** What an acceptable user looks like: the six text fields filled in
      and an e-mail address the library accepts. */
  predicate UserInputAcceptable(data: UserData, isEmail: string -> bool)
  {
    && data.firstName != "" && data.lastName != "" && data.postalAddress != ""
    && data.city != "" && data.birthDate != "" && data.phoneNumber != ""
    && isEmail(data.email)
  }

  /** What an acceptable product looks like: the four text fields filled
      in, a positive quantity and positive rates, a deposit that is not
      negative (zero is accepted). */
  predicate ProductInputAcceptable(data: ProductData)
  {
    && data.objectName != "" && data.brand != "" && data.model != "" && data.description != ""
    && data.quantity > 0
    && data.pricePerDay > 0.0 && data.pricePerWeek > 0.0
    && data.cautionDeposit >= 0.0
  }

  /** `validateUserInput`. Each error depends on its own field only. */
  method ValidateUserInput(data: UserData, isEmail: string -> bool) returns (errors: UserErrors, isValid: bool)
    ensures errors.firstName.Some? <==> data.firstName == ""
    ensures errors.lastName.Some? <==> data.lastName == ""
    ensures errors.postalAddress.Some? <==> data.postalAddress == ""
    ensures errors.city.Some? <==> data.city == ""
    ensures errors.birthDate.Some? <==> data.birthDate == ""
    ensures errors.phoneNumber.Some? <==> data.phoneNumber == ""
    ensures errors.email.Some? <==> !isEmail(data.email)
    ensures errors.email.Some? ==> errors.email.value == EmailInvalid
    ensures isValid <==> UserInputAcceptable(data, isEmail)
    ensures isValid <==> errors == UserErrors(None, None, None, None, None, None, None)
  {
    var firstName: Option<string> := None;
    var lastName: Option<string> := None;
    var postalAddress: Option<string> := None;
    var city: Option<string> := None;
    var birthDate: Option<string> := None;
    var phoneNumber: Option<string> := None;
    var email: Option<string> := None;
    if |data.firstName| == 0 {
      firstName := Some(FirstNameRequired);
    }
    if |data.lastName| == 0 {
      lastName := Some(LastNameRequired);
    }
    if |data.postalAddress| == 0 {
      postalAddress := Some(PostalAddressRequired);
    }
    if |data.city| == 0 {
      city := Some(CityRequired);
    }
    if |data.birthDate| == 0 {
      birthDate := Some(BirthDateRequired);
    }
    if |data.phoneNumber| == 0 {
      phoneNumber := Some(PhoneNumberRequired);
    }
    if !isEmail(data.email) {
      email := Some(EmailInvalid);
    }
    errors := UserErrors(firstName, lastName, postalAddress, city, birthDate, phoneNumber, email);
    isValid := UserErrorCount(errors) == 0;
  }

  /** `validateProductInput`. Each error depends on its own field only. */
  method ValidateProductInput(data: ProductData) returns (errors: ProductErrors, isValid: bool)
    ensures errors.objectName.Some? <==> data.objectName == ""
    ensures errors.brand.Some? <==> data.brand == ""
    ensures errors.model.Some? <==> data.model == ""
    ensures errors.quantity.Some? <==> data.quantity <= 0
    ensures errors.description.Some? <==> data.description == ""
    ensures errors.pricePerDay.Some? <==> data.pricePerDay <= 0.0
    ensures errors.pricePerWeek.Some? <==> data.pricePerWeek <= 0.0
    ensures errors.cautionDeposit.Some? <==> data.cautionDeposit < 0.0
    ensures errors.cautionDeposit.Some? ==> errors.cautionDeposit.value == DepositNegative
    ensures isValid <==> ProductInputAcceptable(data)
    ensures isValid <==> errors == ProductErrors(None, None, None, None, None, None, None, None)
  {
    var objectName: Option<string> := None;
    var brand: Option<string> := None;
    var model: Option<string> := None;
    var quantity: Option<string> := None;
    var description: Option<string> := None;
    var pricePerDay: Option<string> := None;
    var pricePerWeek: Option<string> := None;
    var cautionDeposit: Option<string> := None;
    if |data.objectName| == 0 {
      objectName := Some(ObjectRequired);
    }
    if |data.brand| == 0 {
      brand := Some(BrandRequired);
    }
    if |data.model| == 0 {
      model := Some(ModelRequired);
    }
    if data.quantity <= 0 {
      quantity := Some(QuantityNotPositive);
    }
    if |data.description| == 0 {
      description := Some(DescriptionRequired);
    }
    if data.pricePerDay <= 0.0 {
      pricePerDay := Some(DayPriceNotPositive);
    }
    if data.pricePerWeek <= 0.0 {
      pricePerWeek := Some(WeekPriceNotPositive);
    }
    if data.cautionDeposit < 0.0 {
      cautionDeposit := Some(DepositNegative);
    }
    errors := ProductErrors(objectName, brand, model, quantity, description, pricePerDay, pricePerWeek, cautionDeposit);
    isValid := ProductErrorCount(errors) == 0;
  }
}
