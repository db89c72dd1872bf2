/**
  The two `submit` handlers, each as one sequential step that receives the
  outcome of its request. The handler disables its button and shows a busy
  label, then runs a `try` block (whose early `return` on a non-JSON response
  is written as a `break` out of the labelled block) with a `catch` for a
  rejected request or unreadable JSON, and finally re-enables the button with
  its original label.
 */
module Submit {
  import opened JsText
  import opened Outcome
  import Transport
  import Payload

  /** The submit button: whether it is disabled, and its text. */
  datatype Button = Button(disabled: bool, text: string)

  const RegistrationBusyLabel: string := "Submitting..."
  const ContactBusyLabel: string := "Sending..."

  /**
    The registration `submit` handler. It derives the transport fields from
    the city and the submitted radio and location values, shows the busy
    button while awaiting, shows one notification, hides and clears the
    transport sub-form on success (leaving its `required` flags as they
    were), and leaves the button enabled with its original
    label on every exit path.
   */
  method SubmitRegistration(
    button: Button, city: Option<string>, needTransport: Option<string>, transportFrom: Option<string>,
    transport: Transport.TransportState, fetch: Fetch)
    returns (fields: Option<Payload.TransportFields>, busy: Button, toast: Toast, done: Button,
             transport': Transport.TransportState)
    ensures fields == Payload.TransportPayload(city, needTransport, transportFrom)
    ensures busy == Button(true, RegistrationBusyLabel)
    ensures toast == Notify(Registration, fetch)
    ensures done == Button(false, button.text)
    ensures FaultOf(fetch) == NoFault ==>
      && !transport'.sectionVisible && !transport'.locationVisible
      && !transport'.yesChecked && !transport'.noChecked && transport'.locationValue == ""
      && transport'.yesRequired == transport.yesRequired && transport'.noRequired == transport.noRequired
      && transport'.locationRequired == transport.locationRequired
    ensures FaultOf(fetch) != NoFault ==> transport' == transport
  {
    fields := Payload.TransportPayload(city, needTransport, transportFrom);
    var original := button.text;
    var b := button.(disabled := true, text := RegistrationBusyLabel);
    busy := b;
    transport' := transport;
    label attempt: {
      match fetch
      case Rejected(thrown) =>
        toast := Toast(Error, CaughtText(Registration, thrown));
      case Responded(response) =>
        if !IsJson(response.contentType) {
          toast := Toast(Error, ServerErrorPrefix + OrElse(response.body, InvalidResponseText));
          break attempt;
        }
        match response.json
        case Unparsable(thrown) =>
          toast := Toast(Error, CaughtText(Registration, thrown));
        case Object(msg, err) =>
          if response.ok {
            transport' := Transport.SuccessResetAsWritten(transport);
            toast := Toast(Success, SuccessText(Registration));
          } else {
            toast := Toast(Error, FailurePrefix(Registration) + FailureReason(msg, err));
          }
    }
    // finally
    b := b.(disabled := false, text := original);
    done := b;
  }

  /**
    The contact `submit` handler: the same shape, with its own labels and
    texts, the phone sent as `null` when empty, and nothing to reset but the
    form itself.
   */
  method SubmitContact(
    button: Button, name: Option<string>, email: Option<string>, phone: Option<string>, message: Option<string>,
    fetch: Fetch)
    returns (body: Payload.ContactBody, busy: Button, toast: Toast, done: Button)
    ensures body == Payload.ContactPayload(name, email, phone, message)
    ensures busy == Button(true, ContactBusyLabel)
    ensures toast == Notify(Contact, fetch)
    ensures done == Button(false, button.text)
  {
    body := Payload.ContactPayload(name, email, phone, message);
    var original := button.text;
    var b := button.(disabled := true, text := ContactBusyLabel);
    busy := b;
    label attempt: {
      match fetch
      case Rejected(_) =>
        toast := Toast(Error, GenericText);
      case Responded(response) =>
        if !IsJson(response.contentType) {
          toast := Toast(Error, ServerErrorPrefix + OrElse(response.body, InvalidResponseText));
          break attempt;
        }
        match response.json
        case Unparsable(_) =>
          toast := Toast(Error, GenericText);
        case Object(msg, err) =>
          if response.ok {
            toast := Toast(Success, SuccessText(Contact));
          } else {
            toast := Toast(Error, FailurePrefix(Contact) + FailureReason(msg, err));
          }
    }
    // finally
    b := b.(disabled := false, text := original);
    done := b;
  }
}
