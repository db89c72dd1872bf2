/**
  The request bodies the two forms submit: the transport fields the
  registration handler appends to its form data, and the JSON object the
  contact handler builds.
 */
module Payload {
  import opened JsText
  import Transport

  /** The two fields appended to the registration form data for a qualifying city. */
  datatype TransportFields = TransportFields(needTransport: string, transportFrom: string)

  /**
    The transport fields appended for the submitted city (`None` when there
    is no city select), the submitted `needTransport` radio value and the
    submitted `transportFrom` input value (`None` when absent from the form).
   */
  function TransportPayload(city: Option<string>, needTransport: Option<string>, transportFrom: Option<string>)
    : (r: Option<TransportFields>)
    ensures r.Some? <==> city.Some? && Transport.Qualifies(city.value)
    ensures r.Some? ==> r.value.needTransport != ""
    ensures r.Some? && needTransport.Some? && needTransport.value != "" ==> r.value.needTransport == needTransport.value
    ensures r.Some? && (needTransport.None? || needTransport.value == "") ==> r.value.needTransport == "no"
    ensures r.Some? && r.value.transportFrom != "" ==>
      needTransport == Some("yes") && transportFrom == Some(r.value.transportFrom)
    ensures r.Some? && needTransport == Some("yes") && transportFrom.Some? ==>
      r.value.transportFrom == transportFrom.value
  {
    if city.Some? && Transport.Qualifies(city.value) then
      Some(TransportFields(
        OrElseOpt(needTransport, "no"),
        if needTransport == Some("yes") then OrElseOpt(transportFrom, "") else ""))
    else None
  }

  /**
    What the registration form data holds for the transport sub-form: the
    checked radio's value (nothing when neither is checked) and the location
    input's value, which is submitted even while hidden.
   */
  function SubmittedChoice(s: Transport.TransportState): Option<string>
  {
    if s.yesChecked then Some("yes") else if s.noChecked then Some("no") else None
  }

  /**
    No stale location reaches a request: from a consistent sub-form, a
    location is sent only when it is shown, and then with `need_transport`
    set to "yes"; a chosen "no" is sent as "no", and no choice as "no" too.
   */
  lemma NoStaleLocationSent(s: Transport.TransportState, city: string)
    requires Transport.Consistent(s)
    ensures var r := TransportPayload(Some(city), SubmittedChoice(s), Some(s.locationValue));
      && (r.Some? <==> Transport.Qualifies(city))
      && (r.Some? && r.value.transportFrom != "" ==> s.locationVisible && r.value.needTransport == "yes")
      && (r.Some? && !s.locationVisible ==> r.value.transportFrom == "" && r.value.needTransport == "no")
      && (r.Some? && s.locationVisible ==> r.value == TransportFields("yes", s.locationValue))
  {
  }

  /** The JSON body of the contact form; a missing or empty phone is sent as `null`. */
  datatype ContactBody = ContactBody(name: Option<string>, email: Option<string>, phone: Option<string>, message: Option<string>)

  function ContactPayload(name: Option<string>, email: Option<string>, phone: Option<string>, message: Option<string>)
    : (r: ContactBody)
    ensures r.name == name && r.email == email && r.message == message
    ensures r.phone.Some? <==> phone.Some? && phone.value != ""
    ensures r.phone.Some? ==> r.phone == phone
  {
    ContactBody(name, email, if phone.Some? && phone.value != "" then phone else None, message)
  }
}
