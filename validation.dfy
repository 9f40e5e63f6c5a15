/**
 * The presence check of the user-creation route: the fields email,
 * password and name are tested in that order, and the first one that is
 * absent or falsy is reported.
 */
module Validation {
  import opened Wrappers
  import opened JsonValues

  const RequiredFields: seq<string> := ["email", "password", "name"]

  /** The field is in the payload and its value is truthy. */
  function Present(data: map<string, Json>, field: string): (r: bool)
    ensures r <==> field in data && data[field] !in FalsyValues
  {
    field in data && Truthy(data[field])
  }

  /** The position of the first field of `fields` that is not present, or |fields| if all are. */
  function FirstFailing(data: map<string, Json>, fields: seq<string>): (k: nat)
    ensures k <= |fields|
    ensures forall j :: 0 <= j < k ==> Present(data, fields[j])
    ensures k < |fields| ==> !Present(data, fields[k])
  {
    if fields == [] then 0
    else if !Present(data, fields[0]) then 0
    else 1 + FirstFailing(data, fields[1..])
  }

  /** The field the route names in its 400 response, or None when the payload passes. */
  function FirstMissing(data: map<string, Json>): (r: Option<string>)
    ensures r == (if !Present(data, "email") then Some("email")
                  else if !Present(data, "password") then Some("password")
                  else if !Present(data, "name") then Some("name")
                  else None)
  {
    var k := FirstFailing(data, RequiredFields);
    assert RequiredFields[0] == "email" && RequiredFields[1] == "password" && RequiredFields[2] == "name";
    if k < |RequiredFields| then Some(RequiredFields[k]) else None
  }

  function MissingFieldMessage(field: string): string {
    "Missing required field: " + field
  }

  /** The 400 message for each required field. */
  lemma MissingFieldTexts()
    ensures MissingFieldMessage("email") == "Missing required field: email"
    ensures MissingFieldMessage("password") == "Missing required field: password"
    ensures MissingFieldMessage("name") == "Missing required field: name"
  {
  }
}
