/**
 * Request validation of the events controller
 * (services/bill-service/src/events_controller.cpp): the create and update
 * validators, the event type and status whitelists, and the `updates`
 * object that `updateEvent` builds from a validated update.
 */
module EventsController {
  import opened Wrappers
  import opened Utils
  import opened Validation

  /** `isValidEventType`: membership in the fixed set of seven event kinds. */
  predicate IsValidEventType(t: string) {
    t in {"restaurant", "travel", "shared_house", "shopping", "entertainment", "utilities", "other"}
  }

  /** `isValidEventStatus`: membership in the fixed set of three statuses. */
  predicate IsValidEventStatus(s: string) {
    s in {"active", "completed", "cancelled"}
  }

  /** The name bound of the update path; emptiness is allowed there. */
  predicate FitsName(n: string) {
    |n| <= 100
  }

  /** The description is never checked beyond its type. */
  predicate AnyText(d: string) {
    true
  }

  const NameRequired := "Name is required and must be a string"
  const DescriptionRequired := "Description is required and must be a string"
  const EventTypeRequired := "Event type is required and must be a string"
  const NameLength := "Name must be between 1 and 100 characters"
  const InvalidEventType := "Invalid event type"
  const StartDateNotString := "Start date must be a string"
  const InvalidStartDate := "Invalid start date format (use ISO 8601)"
  const EndDateNotString := "End date must be a string"
  const InvalidEndDate := "Invalid end date format (use ISO 8601)"
  const NameNotString := "Name must be a string"
  const DescriptionNotString := "Description must be a string"
  const EventTypeNotString := "Event type must be a string"
  const StatusNotString := "Status must be a string"
  const InvalidEventStatus := "Invalid event status"

  datatype CreateEventRequest = CreateEventRequest(
    name: string, description: string, eventType: string, startDate: string, endDate: string)

  /** Fields of an update; a member the body lacks leaves its field "" (a default `std::string`). */
  datatype UpdateEventRequest = UpdateEventRequest(
    name: string, description: string, eventType: string, status: string, startDate: string, endDate: string)

  /** The three required members of a create body, all strings. */
  predicate RequiredPresent(body: Body) {
    HasString(body, "name") && HasString(body, "description") && HasString(body, "event_type")
  }

  /** The checks of the required members: types, trimmed name length, event type. */
  predicate RequiredAccepted(body: Body) {
    && RequiredPresent(body)
    && 1 <= |Trim(body["name"].str)| <= 100
    && IsValidEventType(Trim(body["event_type"].str))
  }

  /**
   * `validateCreateEventRequest`: name, description and event_type must be
   * strings, checked in that order; then the trimmed name length and the
   * trimmed event type; start_date and end_date are optional dates.
   */
  function ValidateCreateEventRequest(body: Body): (r: Result<CreateEventRequest>)
    ensures !HasString(body, "name") ==> r == Err(NameRequired)
    ensures HasString(body, "name") && !HasString(body, "description") ==> r == Err(DescriptionRequired)
    ensures (HasString(body, "name") && HasString(body, "description") && !HasString(body, "event_type"))
      ==> r == Err(EventTypeRequired)
    ensures RequiredPresent(body) && !(1 <= |Trim(body["name"].str)| <= 100) ==> r == Err(NameLength)
    ensures (RequiredPresent(body) && 1 <= |Trim(body["name"].str)| <= 100
             && !IsValidEventType(Trim(body["event_type"].str))) ==> r == Err(InvalidEventType)
    ensures RequiredAccepted(body) && NotString(body, "start_date") ==> r == Err(StartDateNotString)
    ensures RequiredAccepted(body) && RefusedText(body, "start_date", IsValidDateFormat) ==> r == Err(InvalidStartDate)
    ensures (RequiredAccepted(body) && OptionalStringOk(body, "start_date", IsValidDateFormat)
             && NotString(body, "end_date")) ==> r == Err(EndDateNotString)
    ensures (RequiredAccepted(body) && OptionalStringOk(body, "start_date", IsValidDateFormat)
             && RefusedText(body, "end_date", IsValidDateFormat)) ==> r == Err(InvalidEndDate)
    ensures r.Ok? <==>
      && RequiredAccepted(body)
      && OptionalStringOk(body, "start_date", IsValidDateFormat)
      && OptionalStringOk(body, "end_date", IsValidDateFormat)
    ensures r.Ok? ==>
      && r.value.name == Trim(body["name"].str) && 1 <= |r.value.name| <= 100
      && r.value.description == Trim(body["description"].str)
      && r.value.eventType == Trim(body["event_type"].str) && IsValidEventType(r.value.eventType)
      && r.value.startDate == MemberText(body, "start_date")
      && r.value.endDate == MemberText(body, "end_date")
      && (r.value.startDate == "" || IsValidDateFormat(r.value.startDate))
      && (r.value.endDate == "" || IsValidDateFormat(r.value.endDate))
  {
    if !HasString(body, "name") then Err(NameRequired)
    else if !HasString(body, "description") then Err(DescriptionRequired)
    else if !HasString(body, "event_type") then Err(EventTypeRequired)
    else
      var name := Trim(body["name"].str);
      var description := Trim(body["description"].str);
      var eventType := Trim(body["event_type"].str);
      if name == "" || |name| > 100 then Err(NameLength)
      else if !IsValidEventType(eventType) then Err(InvalidEventType)
      else
        var startDate :- OptionalString(body, "start_date", "", StartDateNotString,
                                        IsValidDateFormat, InvalidStartDate);
        var endDate :- OptionalString(body, "end_date", "", EndDateNotString,
                                      IsValidDateFormat, InvalidEndDate);
        Ok(CreateEventRequest(name, description, eventType, startDate, endDate))
  }

  /**
   * `validateUpdateEventRequest`: every member is optional; a present member
   * must be a string, and its trimmed value is accepted when empty and
   * otherwise bound- or whitelist-checked (the description is not checked).
   */
  function ValidateUpdateEventRequest(body: Body): (r: Result<UpdateEventRequest>)
    ensures body == map[] ==> r == Ok(UpdateEventRequest("", "", "", "", "", ""))
    ensures NotString(body, "name") ==> r == Err(NameNotString)
    ensures RefusedText(body, "name", FitsName) ==> r == Err(NameLength)
    ensures OptionalStringOk(body, "name", FitsName) && NotString(body, "description") ==> r == Err(DescriptionNotString)
    ensures (OptionalStringOk(body, "name", FitsName) && OptionalStringOk(body, "description", AnyText)
             && NotString(body, "event_type")) ==> r == Err(EventTypeNotString)
    ensures (OptionalStringOk(body, "name", FitsName) && OptionalStringOk(body, "description", AnyText)
             && RefusedText(body, "event_type", IsValidEventType)) ==> r == Err(InvalidEventType)
    ensures (OptionalStringOk(body, "name", FitsName) && OptionalStringOk(body, "description", AnyText)
             && OptionalStringOk(body, "event_type", IsValidEventType)
             && NotString(body, "status")) ==> r == Err(StatusNotString)
    ensures (OptionalStringOk(body, "name", FitsName) && OptionalStringOk(body, "description", AnyText)
             && OptionalStringOk(body, "event_type", IsValidEventType)
             && RefusedText(body, "status", IsValidEventStatus)) ==> r == Err(InvalidEventStatus)
    ensures (OptionalStringOk(body, "name", FitsName) && OptionalStringOk(body, "description", AnyText)
             && OptionalStringOk(body, "event_type", IsValidEventType)
             && OptionalStringOk(body, "status", IsValidEventStatus)
             && NotString(body, "start_date")) ==> r == Err(StartDateNotString)
    ensures (OptionalStringOk(body, "name", FitsName) && OptionalStringOk(body, "description", AnyText)
             && OptionalStringOk(body, "event_type", IsValidEventType)
             && OptionalStringOk(body, "status", IsValidEventStatus)
             && RefusedText(body, "start_date", IsValidDateFormat)) ==> r == Err(InvalidStartDate)
    ensures (OptionalStringOk(body, "name", FitsName) && OptionalStringOk(body, "description", AnyText)
             && OptionalStringOk(body, "event_type", IsValidEventType)
             && OptionalStringOk(body, "status", IsValidEventStatus)
             && OptionalStringOk(body, "start_date", IsValidDateFormat)
             && NotString(body, "end_date")) ==> r == Err(EndDateNotString)
    ensures (OptionalStringOk(body, "name", FitsName) && OptionalStringOk(body, "description", AnyText)
             && OptionalStringOk(body, "event_type", IsValidEventType)
             && OptionalStringOk(body, "status", IsValidEventStatus)
             && OptionalStringOk(body, "start_date", IsValidDateFormat)
             && RefusedText(body, "end_date", IsValidDateFormat)) ==> r == Err(InvalidEndDate)
    ensures r.Ok? <==>
      && OptionalStringOk(body, "name", FitsName)
      && OptionalStringOk(body, "description", AnyText)
      && OptionalStringOk(body, "event_type", IsValidEventType)
      && OptionalStringOk(body, "status", IsValidEventStatus)
      && OptionalStringOk(body, "start_date", IsValidDateFormat)
      && OptionalStringOk(body, "end_date", IsValidDateFormat)
    ensures r.Ok? ==> r.value == UpdateEventRequest(
      MemberText(body, "name"), MemberText(body, "description"), MemberText(body, "event_type"),
      MemberText(body, "status"), MemberText(body, "start_date"), MemberText(body, "end_date"))
    ensures r.Ok? ==>
      && |r.value.name| <= 100
      && (r.value.eventType == "" || IsValidEventType(r.value.eventType))
      && (r.value.status == "" || IsValidEventStatus(r.value.status))
      && (r.value.startDate == "" || IsValidDateFormat(r.value.startDate))
      && (r.value.endDate == "" || IsValidDateFormat(r.value.endDate))
  {
    var name :- OptionalString(body, "name", "", NameNotString, FitsName, NameLength);
    var description :- OptionalString(body, "description", "", DescriptionNotString, AnyText, "");
    var eventType :- OptionalString(body, "event_type", "", EventTypeNotString, IsValidEventType, InvalidEventType);
    var status :- OptionalString(body, "status", "", StatusNotString, IsValidEventStatus, InvalidEventStatus);
    var startDate :- OptionalString(body, "start_date", "", StartDateNotString, IsValidDateFormat, InvalidStartDate);
    var endDate :- OptionalString(body, "end_date", "", EndDateNotString, IsValidDateFormat, InvalidEndDate);
    Ok(UpdateEventRequest(name, description, eventType, status, startDate, endDate))
  }

  /** The member names of an update, each naming one field of `UpdateEventRequest`. */
  const UpdateKeys: set<string> := {"name", "description", "event_type", "status", "start_date", "end_date"}

  /** The field of `u` that member `key` fills. */
  function FieldOf(u: UpdateEventRequest, key: string): string {
    match key
    case "name" => u.name
    case "description" => u.description
    case "event_type" => u.eventType
    case "status" => u.status
    case "start_date" => u.startDate
    case "end_date" => u.endDate
    case _ => ""
  }

  function PutIfNonEmpty(m: map<string, string>, key: string, value: string): map<string, string> {
    if value != "" then m[key := value] else m
  }

  /** The `updates` object of `updateEvent`: one member per non-empty field. */
  function BuildUpdates(u: UpdateEventRequest): map<string, string> {
    var m := PutIfNonEmpty(map[], "name", u.name);
    var m := PutIfNonEmpty(m, "description", u.description);
    var m := PutIfNonEmpty(m, "event_type", u.eventType);
    var m := PutIfNonEmpty(m, "status", u.status);
    var m := PutIfNonEmpty(m, "start_date", u.startDate);
    PutIfNonEmpty(m, "end_date", u.endDate)
  }

  /** The updates hold exactly the fields that are non-empty, each under its member name. */
  lemma BuildUpdatesContents(u: UpdateEventRequest)
    ensures forall k :: k in BuildUpdates(u) <==> k in UpdateKeys && FieldOf(u, k) != ""
    ensures forall k :: k in BuildUpdates(u) ==> BuildUpdates(u)[k] == FieldOf(u, k)
  {
    var m := BuildUpdates(u);
    forall k
      ensures (k in m <==> k in UpdateKeys && FieldOf(u, k) != "") && (k in m ==> m[k] == FieldOf(u, k))
    {
      if k == "name" {
      } else if k == "description" {
      } else if k == "event_type" {
      } else if k == "status" {
      } else if k == "start_date" {
      } else if k == "end_date" {
      } else {
        assert k !in UpdateKeys;
      }
    }
  }

  /**
   * The updates built from an accepted body hold exactly the members the
   * body carries with a non-blank value, each trimmed, and each within the
   * bound or whitelist of its field.
   */
  lemma UpdatesFromAcceptedBody(body: Body)
    requires ValidateUpdateEventRequest(body).Ok?
    ensures var m := BuildUpdates(ValidateUpdateEventRequest(body).value);
      && (forall k :: k in m <==> k in UpdateKeys && HasString(body, k) && Trim(body[k].str) != "")
      && (forall k :: k in m ==> m[k] == Trim(body[k].str))
      && ("name" in m ==> 1 <= |m["name"]| <= 100)
      && ("event_type" in m ==> IsValidEventType(m["event_type"]))
      && ("status" in m ==> IsValidEventStatus(m["status"]))
      && ("start_date" in m ==> IsValidDateFormat(m["start_date"]))
      && ("end_date" in m ==> IsValidDateFormat(m["end_date"]))
  {
    var u := ValidateUpdateEventRequest(body).value;
    UpdatesFromFields(body, u);
  }

  lemma UpdatesFromFields(body: Body, u: UpdateEventRequest)
    requires u == UpdateEventRequest(
      MemberText(body, "name"), MemberText(body, "description"), MemberText(body, "event_type"),
      MemberText(body, "status"), MemberText(body, "start_date"), MemberText(body, "end_date"))
    requires |u.name| <= 100
    requires u.eventType == "" || IsValidEventType(u.eventType)
    requires u.status == "" || IsValidEventStatus(u.status)
    requires u.startDate == "" || IsValidDateFormat(u.startDate)
    requires u.endDate == "" || IsValidDateFormat(u.endDate)
    ensures var m := BuildUpdates(u);
      && (forall k :: k in m <==> k in UpdateKeys && HasString(body, k) && Trim(body[k].str) != "")
      && (forall k :: k in m ==> m[k] == Trim(body[k].str))
      && ("name" in m ==> 1 <= |m["name"]| <= 100)
      && ("event_type" in m ==> IsValidEventType(m["event_type"]))
      && ("status" in m ==> IsValidEventStatus(m["status"]))
      && ("start_date" in m ==> IsValidDateFormat(m["start_date"]))
      && ("end_date" in m ==> IsValidDateFormat(m["end_date"]))
  {
    BuildUpdatesContents(u);
    forall k | k in UpdateKeys
      ensures FieldOf(u, k) == MemberText(body, k)
    {
      if k == "name" {
      } else if k == "description" {
      } else if k == "event_type" {
      } else if k == "status" {
      } else if k == "start_date" {
      } else {
        assert k == "end_date";
      }
    }
  }
}
