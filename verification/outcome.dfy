/**
  How a submission's outcome becomes the one notification the user sees.
  The network exchange is an input: either the request was rejected with an
  error message, or a response arrived with an optional content type, its
  body text, its `ok` status and what parsing the body as JSON gives.
 */
module Outcome {
  import opened JsText

  datatype Form = Registration | Contact

  datatype Severity = Success | Error

  /** A notification: its severity and its text. */
  datatype Toast = Toast(severity: Severity, text: string)

  /**
    The result of `response.json()`: an object with its `message` and `error`
    properties (`None` when absent or `null`), or a rejection with its message.
   */
  datatype Json = Object(message: Option<string>, error: Option<string>) | Unparsable(thrown: string)

  datatype Response = Response(contentType: Option<string>, body: string, ok: bool, json: Json)

  /** What `await fetch(...)` does: resolve with a response, or throw an error with a message. */
  datatype Fetch = Responded(response: Response) | Rejected(thrown: string)

  const JsonType: string := "application/json"
  const ServerErrorPrefix: string := "Server error: "
  const InvalidResponseText: string := "Invalid response from server"
  const FallbackReason: string := "Please try again."
  const ErrorPrefix: string := "Error: "
  // The longer texts are split for the verifier.
  const ConnectText: string := "Could not connect to server. " + "Make sure the backend server is running."
  const NetworkText: string := "Network error. " + "Please check your internet connection and try again."
  const GenericText: string := "An error occurred. " + "Please try again later."
  const FetchWord: string := "fetch"
  const FailedToFetch: string := "Failed to fetch"

  function SuccessText(form: Form): string
  {
    match form
    case Registration => "Registration successful! " + "We'll contact you soon."
    case Contact => "Message sent successfully! " + "We'll get back to you soon."
  }

  function FailurePrefix(form: Form): string
  {
    match form
    case Registration => "Registration failed: "
    case Contact => "Message failed to send: "
  }

  /** The response is treated as JSON when its content type mentions `application/json`. */
  predicate IsJson(contentType: Option<string>)
  {
    contentType.Some? && Includes(contentType.value, JsonType)
  }

  /** `data.message || data.error || "Please try again."` */
  function FailureReason(message: Option<string>, error: Option<string>): (r: string)
    ensures r != ""
    ensures message.Some? && message.value != "" ==> r == message.value
    ensures (message.None? || message.value == "") && error.Some? && error.value != "" ==> r == error.value
    ensures (message.None? || message.value == "") && (error.None? || error.value == "") ==> r == FallbackReason
  {
    OrElseOpt(message, OrElseOpt(error, FallbackReason))
  }

  /** Any message that mentions "Failed to fetch" mentions "fetch". */
  lemma FailedToFetchMentionsFetch(thrown: string)
    requires Includes(thrown, FailedToFetch)
    ensures Includes(thrown, FetchWord)
  {
    assert FailedToFetch == "Failed to " + FetchWord;
    assert StartsWith(FailedToFetch[10..], FetchWord);
    IncludesTransitive(thrown, FailedToFetch, FetchWord);
  }

  /**
    The text of the `catch` block's notification, branch for branch. In the
    registration handler the "Failed to fetch" test comes after the "fetch"
    test, so the network-error text can never be chosen; the contact
    handler always shows one generic text.
   */
  function CaughtText(form: Form, thrown: string): (r: string)
    ensures form == Registration ==> (r == ConnectText <==> Includes(thrown, FetchWord))
    ensures form == Registration && !Includes(thrown, FetchWord) ==> r == ErrorPrefix + thrown
    ensures form == Contact ==> r == GenericText
    ensures r != NetworkText
  {
    match form
    case Registration =>
      if Includes(thrown, FetchWord) then ConnectText
      else if Includes(thrown, FailedToFetch) then
        FailedToFetchMentionsFetch(thrown);
        NetworkText
      else
        assert (ErrorPrefix + thrown)[0] == 'E' != ConnectText[0];
        assert NetworkText[0] == 'N';
        ErrorPrefix + thrown
    case Contact => GenericText
  }

  /** The notification shown for a submission. */
  function Notify(form: Form, fetch: Fetch): (t: Toast)
    ensures t.severity == Success <==>
      fetch.Responded? && IsJson(fetch.response.contentType) && fetch.response.json.Object? && fetch.response.ok
    ensures t.severity == Success ==> t.text == SuccessText(form)
    ensures fetch.Responded? && !IsJson(fetch.response.contentType) ==>
      StartsWith(t.text, ServerErrorPrefix) &&
      (fetch.response.body != "" ==> t.text == ServerErrorPrefix + fetch.response.body) &&
      (fetch.response.body == "" ==> t.text == ServerErrorPrefix + InvalidResponseText)
    ensures fetch.Responded? && !IsJson(fetch.response.contentType) ==> t.severity == Error
    ensures fetch.Responded? && IsJson(fetch.response.contentType) && fetch.response.json.Object? && !fetch.response.ok ==>
      t == Toast(Error, FailurePrefix(form) + FailureReason(fetch.response.json.message, fetch.response.json.error))
    ensures fetch.Responded? && IsJson(fetch.response.contentType) && fetch.response.json.Unparsable? ==>
      t == Toast(Error, CaughtText(form, fetch.response.json.thrown))
    ensures fetch.Rejected? ==> t == Toast(Error, CaughtText(form, fetch.thrown))
  {
    match fetch
    case Rejected(thrown) => Toast(Error, CaughtText(form, thrown))
    case Responded(response) =>
      if !IsJson(response.contentType) then
        assert (ServerErrorPrefix + OrElse(response.body, InvalidResponseText))[..|ServerErrorPrefix|] == ServerErrorPrefix;
        Toast(Error, ServerErrorPrefix + OrElse(response.body, InvalidResponseText))
      else
        match response.json
        case Unparsable(thrown) => Toast(Error, CaughtText(form, thrown))
        case Object(message, error) =>
          if response.ok then Toast(Success, SuccessText(form))
          else Toast(Error, FailurePrefix(form) + FailureReason(message, error))
  }

  /** The error classes of a submission, read off the exchange itself. */
  datatype Fault = NoFault | ServerFault | ApplicationFault | CaughtFault

  function FaultOf(fetch: Fetch): Fault
  {
    match fetch
    case Rejected(_) => CaughtFault
    case Responded(response) =>
      if !IsJson(response.contentType) then ServerFault
      else if response.json.Unparsable? then CaughtFault
      else if response.ok then NoFault
      else ApplicationFault
  }

  /** The error class a user can read off a notification. */
  function FaultShown(form: Form, t: Toast): Fault
  {
    if t.severity == Success then NoFault
    else if StartsWith(t.text, ServerErrorPrefix) then ServerFault
    else if StartsWith(t.text, FailurePrefix(form)) then ApplicationFault
    else CaughtFault
  }

  lemma PrefixStartsWith(p: string, x: string)
    ensures StartsWith(p + x, p)
  {
  }

  /** The notification tells the four error classes apart, for both forms. */
  lemma {:induction false} NotifyShowsFault(form: Form, fetch: Fetch)
    ensures FaultShown(form, Notify(form, fetch)) == FaultOf(fetch)
  {
    var t := Notify(form, fetch);
    match FaultOf(fetch)
    case NoFault =>
    case ServerFault =>
    case ApplicationFault =>
      var reason := FailureReason(fetch.response.json.message, fetch.response.json.error);
      PrefixStartsWith(FailurePrefix(form), reason);
      DistinctHeads(t.text, FailurePrefix(form), ServerErrorPrefix);
    case CaughtFault =>
      var thrown := if fetch.Rejected? then fetch.thrown else fetch.response.json.thrown;
      CaughtTextUnprefixed(form, thrown);
  }

  /** A `catch` text starts neither with the server-error prefix nor with the form's failure prefix. */
  lemma CaughtTextUnprefixed(form: Form, thrown: string)
    ensures !StartsWith(CaughtText(form, thrown), ServerErrorPrefix)
    ensures !StartsWith(CaughtText(form, thrown), FailurePrefix(form))
  {
    var r := CaughtText(form, thrown);
    assert ServerErrorPrefix[0] == 'S';
    assert FailurePrefix(form)[0] in {'R', 'M'};
    if form == Contact {
      assert r[0] == GenericText[0] == 'A';
    } else if Includes(thrown, FetchWord) {
      assert r[0] == ConnectText[0] == 'C';
    } else {
      assert r[0] == (ErrorPrefix + thrown)[0] == 'E';
    }
    var head := r[..1];
    PrefixStartsWith(head, r[1..]);
    assert r == head + r[1..];
    DistinctHeads(r, head, ServerErrorPrefix);
    DistinctHeads(r, head, FailurePrefix(form));
  }

  /** A non-JSON response is never parsed: its status and JSON reading do not change the notification. */
  lemma NonJsonIgnoresStatusAndJson(form: Form, response: Response, ok: bool, json: Json)
    requires !IsJson(response.contentType)
    ensures Notify(form, Responded(response.(ok := ok, json := json))) == Notify(form, Responded(response))
    ensures FaultOf(Responded(response)) == ServerFault
  {
  }

  /** The network-error text of the registration handler is never shown. */
  lemma NetworkTextNeverShown(form: Form, fetch: Fetch)
    ensures Notify(form, fetch).text != NetworkText
  {
    match fetch
    case Rejected(_) =>
    case Responded(response) =>
      if !IsJson(response.contentType) {
        var t := Notify(form, fetch).text;
        assert t[0] == ServerErrorPrefix[0] == 'S' != NetworkText[0];
      } else if response.json.Object? && !response.ok {
        var t := Notify(form, fetch).text;
        assert t[0] == FailurePrefix(form)[0] != NetworkText[0];
      }
  }
}
