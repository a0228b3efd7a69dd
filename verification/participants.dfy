/**
 * Request validation of the participants controller
 * (services/bill-service/src/participants_controller.cpp): the add and update
 * validators and the percentage and amount predicates they use.
 */
module ParticipantsController {
  import opened Wrappers
  import opened Utils
  import opened Validation

  /** `isValidPercentage`: between 0 and 100, both ends included. */
  predicate IsValidPercentage(p: real) {
    0.0 <= p <= 100.0
  }

  /** `isValidAmount` of this controller: zero is allowed, unlike the expense amount check. */
  predicate IsValidAmount(a: real) {
    0.0 <= a <= 999999.99
  }

  const UserIdRequired := "User ID is required and must be a string"
  const InvalidUserId := "Invalid user ID format"
  const PercentageNotNumber := "Share percentage must be a number"
  const PercentageOutOfRange := "Share percentage must be between 0 and 100"
  const CustomAmountNotNumber := "Custom amount must be a number"
  const CustomAmountOutOfRange := "Custom amount must be positive"
  const NothingToUpdate := "At least one of share_percentage or custom_amount must be provided"

  datatype AddParticipantRequest = AddParticipantRequest(userId: string, sharePercentage: real, customAmount: real)

  datatype UpdateParticipantRequest = UpdateParticipantRequest(sharePercentage: real, customAmount: real)

  /** The two optional numeric members, defaulting to 0.0, as both validators read them. */
  function ShareFields(body: Body): Result<(real, real)>
  {
    var percentage :- OptionalNumber(body, "share_percentage", PercentageNotNumber,
                                     IsValidPercentage, PercentageOutOfRange);
    var amount :- OptionalNumber(body, "custom_amount", CustomAmountNotNumber,
                                 IsValidAmount, CustomAmountOutOfRange);
    Ok((percentage.GetOr(0.0), amount.GetOr(0.0)))
  }

  /** The value a share member ends up with: its number when present, 0.0 when absent. */
  function MemberOrZero(body: Body, key: string): real {
    if HasNumber(body, key) then body[key].num else 0.0
  }

  /** The user id checks of the add path pass: a string member that is a UUID once trimmed. */
  predicate UserIdAccepted(body: Body) {
    HasString(body, "user_id") && IsValidUUID(Trim(body["user_id"].str))
  }

  /** The share percentage check passes: absent, or a number from 0 to 100. */
  predicate PercentageOk(body: Body) {
    OptionalNumberOk(body, "share_percentage", IsValidPercentage)
  }

  /**
   * `validateAddParticipantRequest`: `user_id` must be a string that is a
   * UUID once trimmed; `share_percentage` and `custom_amount` are optional,
   * default to 0.0, and when present must be numbers within their ranges.
   */
  function ValidateAddParticipantRequest(body: Body): (r: Result<AddParticipantRequest>)
    ensures !HasString(body, "user_id") ==> r == Err(UserIdRequired)
    ensures HasString(body, "user_id") && !IsValidUUID(Trim(body["user_id"].str)) ==> r == Err(InvalidUserId)
    ensures UserIdAccepted(body) && NotNumber(body, "share_percentage") ==> r == Err(PercentageNotNumber)
    ensures UserIdAccepted(body) && RefusedNumber(body, "share_percentage", IsValidPercentage) ==> r == Err(PercentageOutOfRange)
    ensures UserIdAccepted(body) && PercentageOk(body) && NotNumber(body, "custom_amount") ==> r == Err(CustomAmountNotNumber)
    ensures (UserIdAccepted(body) && PercentageOk(body)
             && RefusedNumber(body, "custom_amount", IsValidAmount)) ==> r == Err(CustomAmountOutOfRange)
    ensures r.Ok? <==>
      && UserIdAccepted(body)
      && OptionalNumberOk(body, "share_percentage", IsValidPercentage)
      && OptionalNumberOk(body, "custom_amount", IsValidAmount)
    ensures r.Ok? ==>
      && r.value.userId == Trim(body["user_id"].str)
      && r.value.sharePercentage == MemberOrZero(body, "share_percentage")
      && r.value.customAmount == MemberOrZero(body, "custom_amount")
      && 0.0 <= r.value.sharePercentage <= 100.0
      && 0.0 <= r.value.customAmount <= 999999.99
  {
    if !HasString(body, "user_id") then Err(UserIdRequired)
    else
      var userId := Trim(body["user_id"].str);
      if !IsValidUUID(userId) then Err(InvalidUserId)
      else
        var fields :- ShareFields(body);
        Ok(AddParticipantRequest(userId, fields.0, fields.1))
  }

  /**
   * `validateUpdateParticipantRequest`: the same member checks as the add
   * path, and then a refusal whenever both values end up 0.0 — which covers
   * an empty body as well as explicit zeros.
   */
  function ValidateUpdateParticipantRequest(body: Body): (r: Result<UpdateParticipantRequest>)
    ensures NotNumber(body, "share_percentage") ==> r == Err(PercentageNotNumber)
    ensures RefusedNumber(body, "share_percentage", IsValidPercentage) ==> r == Err(PercentageOutOfRange)
    ensures PercentageOk(body) && NotNumber(body, "custom_amount") ==> r == Err(CustomAmountNotNumber)
    ensures PercentageOk(body) && RefusedNumber(body, "custom_amount", IsValidAmount) ==> r == Err(CustomAmountOutOfRange)
    ensures (PercentageOk(body) && OptionalNumberOk(body, "custom_amount", IsValidAmount)
             && MemberOrZero(body, "share_percentage") == 0.0 && MemberOrZero(body, "custom_amount") == 0.0)
            ==> r == Err(NothingToUpdate)
    ensures body == map[] ==> r == Err(NothingToUpdate)
    ensures r.Ok? <==>
      && OptionalNumberOk(body, "share_percentage", IsValidPercentage)
      && OptionalNumberOk(body, "custom_amount", IsValidAmount)
      && (MemberOrZero(body, "share_percentage") != 0.0 || MemberOrZero(body, "custom_amount") != 0.0)
    ensures r.Ok? ==>
      && r.value.sharePercentage == MemberOrZero(body, "share_percentage")
      && r.value.customAmount == MemberOrZero(body, "custom_amount")
      && (r.value.sharePercentage != 0.0 || r.value.customAmount != 0.0)
  {
    var fields :- ShareFields(body);
    if fields.0 == 0.0 && fields.1 == 0.0 then Err(NothingToUpdate)
    else Ok(UpdateParticipantRequest(fields.0, fields.1))
  }

  /**
   * The update path applies the add path's member checks: with any valid
   * `user_id` supplied, the add path accepts exactly what the update path
   * accepts plus the bodies whose two values are both 0.0, and reads the same
   * values.
   */
  lemma UpdateChecksAsAdd(body: Body, userId: string)
    requires IsValidUUID(Trim(userId))
    ensures var add := ValidateAddParticipantRequest(body["user_id" := JStr(userId)]);
      var upd := ValidateUpdateParticipantRequest(body);
      && (upd.Ok? <==> add.Ok? && (add.value.sharePercentage != 0.0 || add.value.customAmount != 0.0))
      && (upd.Ok? ==> (upd.value.sharePercentage == add.value.sharePercentage
                       && upd.value.customAmount == add.value.customAmount))
  {
    var b := body["user_id" := JStr(userId)];
    assert OptionalNumberOk(b, "share_percentage", IsValidPercentage) <==> OptionalNumberOk(body, "share_percentage", IsValidPercentage);
    assert OptionalNumberOk(b, "custom_amount", IsValidAmount) <==> OptionalNumberOk(body, "custom_amount", IsValidAmount);
    assert MemberOrZero(b, "share_percentage") == MemberOrZero(body, "share_percentage");
    assert MemberOrZero(b, "custom_amount") == MemberOrZero(body, "custom_amount");
  }
}
