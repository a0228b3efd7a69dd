/**
 * Request validation of the expenses controller
 * (services/bill-service/src/expenses_controller.cpp): the create and update
 * validators and the split-type and amount predicates they use.
 */
module ExpensesController {
  import opened Wrappers
  import opened Utils
  import opened Validation

  /** The largest amount an expense may have. */
  const MaxExpenseAmount: real := 999999.99

  /** `isValidSplitType`: membership in the fixed set of split policies. */
  predicate IsValidSplitType(t: string) {
    t in {"equal", "percentage", "custom"}
  }

  /** `isValidAmount` of this controller: strictly positive, at most `MaxExpenseAmount`. */
  predicate IsValidAmount(a: real) {
    0.0 < a <= MaxExpenseAmount
  }

  /** The description bound of the update path; emptiness is allowed there. */
  predicate FitsDescription(d: string) {
    |d| <= 255
  }

  const PayerIdRequired := "Payer ID is required and must be a string"
  const AmountRequired := "Amount is required and must be a number"
  const DescriptionRequired := "Description is required and must be a string"
  const InvalidPayerId := "Invalid payer ID format"
  const AmountNotPositive := "Amount must be positive"
  const DescriptionLength := "Description must be between 1 and 255 characters"
  const SplitTypeNotString := "Split type must be a string"
  const InvalidSplitType := "Invalid split type"
  const ExpenseDateNotString := "Expense date must be a string"
  const InvalidExpenseDate := "Invalid expense date format (use ISO 8601)"
  const AmountNotNumber := "Amount must be a number"
  const DescriptionNotString := "Description must be a string"

  datatype CreateExpenseRequest = CreateExpenseRequest(
    payerId: string, amount: real, description: string, splitType: string, expenseDate: string)

  /** Fields of an update; `amount` is `None` when the body has none (the C++ field stays unset). */
  datatype UpdateExpenseRequest = UpdateExpenseRequest(
    amount: Option<real>, description: string, splitType: string, expenseDate: string)

  /** The three required members of a create body, with their JSON types. */
  predicate RequiredPresent(body: Body) {
    HasString(body, "payer_id") && HasNumber(body, "amount") && HasString(body, "description")
  }

  /** The checks of the required members: types, payer id format, amount range, description length. */
  predicate RequiredAccepted(body: Body) {
    && RequiredPresent(body)
    && IsValidUUID(Trim(body["payer_id"].str))
    && IsValidAmount(body["amount"].num)
    && 1 <= |Trim(body["description"].str)| <= 255
  }

  /** Every check of the create path, order aside. */
  predicate CreateAccepts(body: Body) {
    && RequiredAccepted(body)
    && OptionalStringOk(body, "split_type", IsValidSplitType)
    && OptionalStringOk(body, "expense_date", IsValidDateFormat)
  }

  /**
   * `validateCreateExpenseRequest`: the three required members are
   * type-checked first, in order, then the payer id format, the amount range,
   * the description length, and the two optional members.
   */
  function ValidateCreateExpenseRequest(body: Body): (r: Result<CreateExpenseRequest>)
    ensures r.Ok? <==> CreateAccepts(body)
    ensures !HasString(body, "payer_id") ==> r == Err(PayerIdRequired)
    ensures HasString(body, "payer_id") && !HasNumber(body, "amount") ==> r == Err(AmountRequired)
    ensures HasString(body, "payer_id") && HasNumber(body, "amount") && !HasString(body, "description") ==>
      r == Err(DescriptionRequired)
    ensures RequiredPresent(body) && !IsValidUUID(Trim(body["payer_id"].str)) ==> r == Err(InvalidPayerId)
    ensures (RequiredPresent(body) && IsValidUUID(Trim(body["payer_id"].str))
             && !IsValidAmount(body["amount"].num)) ==> r == Err(AmountNotPositive)
    ensures (RequiredPresent(body) && IsValidUUID(Trim(body["payer_id"].str)) && IsValidAmount(body["amount"].num)
             && !(1 <= |Trim(body["description"].str)| <= 255)) ==> r == Err(DescriptionLength)
    ensures RequiredAccepted(body) && NotString(body, "split_type") ==> r == Err(SplitTypeNotString)
    ensures RequiredAccepted(body) && RefusedText(body, "split_type", IsValidSplitType) ==> r == Err(InvalidSplitType)
    ensures (RequiredAccepted(body) && OptionalStringOk(body, "split_type", IsValidSplitType)
             && NotString(body, "expense_date")) ==> r == Err(ExpenseDateNotString)
    ensures (RequiredAccepted(body) && OptionalStringOk(body, "split_type", IsValidSplitType)
             && RefusedText(body, "expense_date", IsValidDateFormat)) ==> r == Err(InvalidExpenseDate)
    ensures r.Ok? ==>
      && r.value.payerId == Trim(body["payer_id"].str) && IsValidUUID(r.value.payerId)
      && r.value.amount == body["amount"].num && 0.0 < r.value.amount <= MaxExpenseAmount
      && r.value.description == Trim(body["description"].str) && 1 <= |r.value.description| <= 255
      && ("split_type" !in body ==> r.value.splitType == "equal")
      && ("split_type" in body ==> r.value.splitType == Trim(body["split_type"].str))
      && (r.value.splitType == "" || IsValidSplitType(r.value.splitType))
      && r.value.expenseDate == MemberText(body, "expense_date")
      && (r.value.expenseDate == "" || IsValidDateFormat(r.value.expenseDate))
  {
    if !HasString(body, "payer_id") then Err(PayerIdRequired)
    else if !HasNumber(body, "amount") then Err(AmountRequired)
    else if !HasString(body, "description") then Err(DescriptionRequired)
    else
      var payerId := Trim(body["payer_id"].str);
      var amount := body["amount"].num;
      var description := Trim(body["description"].str);
      if !IsValidUUID(payerId) then Err(InvalidPayerId)
      else if !IsValidAmount(amount) then Err(AmountNotPositive)
      else if description == "" || |description| > 255 then Err(DescriptionLength)
      else
        var splitType :- OptionalString(body, "split_type", "equal", SplitTypeNotString,
                                        IsValidSplitType, InvalidSplitType);
        var expenseDate :- OptionalString(body, "expense_date", "", ExpenseDateNotString,
                                          IsValidDateFormat, InvalidExpenseDate);
        Ok(CreateExpenseRequest(payerId, amount, description, splitType, expenseDate))
  }

  /** Every check of the update path, order aside. */
  predicate UpdateAccepts(body: Body) {
    && OptionalNumberOk(body, "amount", IsValidAmount)
    && OptionalStringOk(body, "description", FitsDescription)
    && OptionalStringOk(body, "split_type", IsValidSplitType)
    && OptionalStringOk(body, "expense_date", IsValidDateFormat)
  }

  /**
   * `validateUpdateExpenseRequest`: every member is optional; a present one
   * is checked as on the create path, except that an empty description passes.
   */
  function ValidateUpdateExpenseRequest(body: Body): (r: Result<UpdateExpenseRequest>)
    ensures r.Ok? <==> UpdateAccepts(body)
    ensures body == map[] ==> r == Ok(UpdateExpenseRequest(None, "", "", ""))
    ensures "amount" in body && !body["amount"].JNum? ==> r == Err(AmountNotNumber)
    ensures HasNumber(body, "amount") && !IsValidAmount(body["amount"].num) ==> r == Err(AmountNotPositive)
    ensures OptionalNumberOk(body, "amount", IsValidAmount) && NotString(body, "description") ==> r == Err(DescriptionNotString)
    ensures (OptionalNumberOk(body, "amount", IsValidAmount)
             && RefusedText(body, "description", FitsDescription)) ==> r == Err(DescriptionLength)
    ensures (OptionalNumberOk(body, "amount", IsValidAmount) && OptionalStringOk(body, "description", FitsDescription)
             && NotString(body, "split_type")) ==> r == Err(SplitTypeNotString)
    ensures (OptionalNumberOk(body, "amount", IsValidAmount) && OptionalStringOk(body, "description", FitsDescription)
             && RefusedText(body, "split_type", IsValidSplitType)) ==> r == Err(InvalidSplitType)
    ensures (OptionalNumberOk(body, "amount", IsValidAmount) && OptionalStringOk(body, "description", FitsDescription)
             && OptionalStringOk(body, "split_type", IsValidSplitType)
             && NotString(body, "expense_date")) ==> r == Err(ExpenseDateNotString)
    ensures (OptionalNumberOk(body, "amount", IsValidAmount) && OptionalStringOk(body, "description", FitsDescription)
             && OptionalStringOk(body, "split_type", IsValidSplitType)
             && RefusedText(body, "expense_date", IsValidDateFormat)) ==> r == Err(InvalidExpenseDate)
    ensures r.Ok? ==>
      && (r.value.amount.Some? <==> "amount" in body)
      && (r.value.amount.Some? ==> r.value.amount.value == body["amount"].num && 0.0 < r.value.amount.value <= MaxExpenseAmount)
      && r.value.description == MemberText(body, "description")
      && r.value.splitType == MemberText(body, "split_type")
      && r.value.expenseDate == MemberText(body, "expense_date")
      && |r.value.description| <= 255
      && (r.value.splitType == "" || IsValidSplitType(r.value.splitType))
      && (r.value.expenseDate == "" || IsValidDateFormat(r.value.expenseDate))
  {
    var amount :- OptionalNumber(body, "amount", AmountNotNumber, IsValidAmount, AmountNotPositive);
    var description :- OptionalString(body, "description", "", DescriptionNotString,
                                      FitsDescription, DescriptionLength);
    var splitType :- OptionalString(body, "split_type", "", SplitTypeNotString,
                                    IsValidSplitType, InvalidSplitType);
    var expenseDate :- OptionalString(body, "expense_date", "", ExpenseDateNotString,
                                      IsValidDateFormat, InvalidExpenseDate);
    Ok(UpdateExpenseRequest(amount, description, splitType, expenseDate))
  }

  /** A body the create path accepts is accepted by the update path with the same field values. */
  lemma CreateAcceptedIsUpdateAccepted(body: Body)
    requires ValidateCreateExpenseRequest(body).Ok?
    ensures ValidateUpdateExpenseRequest(body).Ok?
    ensures var c, u := ValidateCreateExpenseRequest(body).value, ValidateUpdateExpenseRequest(body).value;
      && u.amount == Some(c.amount)
      && u.description == c.description
      && u.expenseDate == c.expenseDate
      && ("split_type" in body ==> u.splitType == c.splitType)
  {
  }

  /**
   * The converse fails: blanking the description of a body the create path
   * accepts makes the create path refuse it for its description length, while
   * the update path still accepts it and clears the description.
   */
  lemma BlankDescriptionOnlyOnUpdate(body: Body)
    requires ValidateCreateExpenseRequest(body).Ok?
    ensures ValidateCreateExpenseRequest(body["description" := JStr(" ")]) == Err(DescriptionLength)
    ensures ValidateUpdateExpenseRequest(body["description" := JStr(" ")]).Ok?
    ensures ValidateUpdateExpenseRequest(body["description" := JStr(" ")]).value.description == ""
  {
    BlankRefusedOnCreate(body);
    BlankAcceptedOnUpdate(body);
  }

  lemma BlankRefusedOnCreate(body: Body)
    requires CreateAccepts(body)
    ensures ValidateCreateExpenseRequest(body["description" := JStr(" ")]) == Err(DescriptionLength)
  {
    assert Trim(" ") == "" by { assert AllSpace(" "); }
    var b := body["description" := JStr(" ")];
    assert b["payer_id"] == body["payer_id"] && b["amount"] == body["amount"];
  }

  lemma BlankAcceptedOnUpdate(body: Body)
    requires CreateAccepts(body)
    ensures ValidateUpdateExpenseRequest(body["description" := JStr(" ")]).Ok?
    ensures ValidateUpdateExpenseRequest(body["description" := JStr(" ")]).value.description == ""
  {
    assert Trim(" ") == "" by { assert AllSpace(" "); }
    var b := body["description" := JStr(" ")];
    assert b["amount"] == body["amount"];
    assert "split_type" in b ==> b["split_type"] == body["split_type"];
    assert "expense_date" in b ==> b["expense_date"] == body["expense_date"];
    assert UpdateAccepts(b);
  }
}
