# ESL website form controller — a Dafny model

The website's page script (`script.js`) does four things. It highlights the
navigation link of the current page. It shows or hides a transport sub-form
depending on the chosen city. It submits the event registration form and the
contact form to a remote API. It tells the user how each submission went.

This project takes the decision logic out of the event handlers and writes it
as pure Dafny. The DOM, `fetch` and the notification banner become values
passed in and returned.

- `JsText` (`js_text.dfy`): the JavaScript string behaviour the script relies on.
  `a || b` on strings treats `""` as falsy. `includes` and `startsWith` search for
  a string; `split` and `join` take a one-character separator. Split and join are
  proved to be inverses.
- `Navigation` (`navigation.dfy`): the current page is the last `/`-separated
  segment of the path. A link is active when its `href` equals that segment, or
  the segment is empty and the link points to `index.html`.
- `Transport` (`transport.dfy`): the transport sub-form as an immutable state of
  eight view properties. The city, "yes" and "no" `change` handlers are pure
  transitions, and user actions run through them. The three handlers keep a
  hidden location input empty and not required. With the corrected success
  reset (see Findings), every reachable state is consistent.
- `Payload` (`payload.dfy`): the `need_transport` and `transport_from` fields the
  registration handler appends, and the contact form's JSON body.
- `Outcome` (`outcome.dfy`): how a response or a thrown error becomes the one
  notification shown (severity and text). The notification is proved to tell
  the four fault classes apart. The registration handler's "Network error"
  branch is proved unreachable: any message containing "Failed to fetch" also
  contains "fetch", and that test comes first.
- `Submit` (`submit.dfy`): the two `submit` handlers as methods. The
  `try`/`finally` is a labelled block followed by the restoring code, and the
  early `return` inside `try` is a `break` out of that block. So the button
  comes out enabled with its original text on every path.

Picking a different qualifying city does not reset the yes/no choice:
`script.js:65-68` only shows the section and requires the radios, so the
choice and the typed location survive. `Transport.RequalifyingKeepsChoice`
states this.

A JSON-typed response whose body does not parse makes `response.json()` throw.
That error lands in the same `catch` block as a failed request, so the model
sends it through the same classification (`Json.Unparsable`).

## Model

| member | source | states |
|---|---|---|
| JsText.JoinSplit | script.js:39 | joining the parts of `path.split("/")` with `/` gives the path back |
| JsText.SplitJoin | script.js:39 | splitting a `/`-join of separator-free segments gives those segments back, so the last segment is the one `pop()` returns |
| JsText.IncludesTransitive | script.js:175-177 | whatever occurs inside an occurrence in a message occurs in the message |
| Navigation.FindCurrentPage | script.js:39 | scanning back to the last `/` yields exactly the last element of the split path; it contains no `/` and ends the path |
| Navigation.MarkActive | script.js:40-47 | a link ends up with `active` iff it had it or its `href` equals the page (or the page is empty and the `href` is `index.html`); hrefs and other classes are unchanged |
| Navigation.MarkActiveIdempotent | script.js:42-46 | highlighting twice gives the same links as highlighting once |
| Navigation.RootHighlightsIndex | script.js:44 | on the root path `/` the `index.html` link becomes active |
| Navigation.SegmentHighlightsLink | script.js:39-46 | for any path whose last segment is `file`, a link with `href` `file` becomes active |
| Transport.OnCityChange | script.js:61-82 | a qualifying city shows the section and requires both radios, leaving choice and location untouched; any other city resets the sub-form to Hidden; no stale location is preserved |
| Transport.OnCityChangeIdempotent | script.js:69-81 | applying the city handler twice with the same city equals applying it once |
| Transport.OnYesChange | script.js:87-92 | when "yes" is checked the location is shown and required and its value kept; otherwise nothing changes; no stale location is preserved |
| Transport.OnNoChange | script.js:97-102 | when "no" is checked the location is hidden, emptied and not required; otherwise nothing changes; no stale location is preserved |
| Transport.ChooseYes | script.js:86-93 | clicking "yes" in a shown section checks it, unchecks "no", and shows and requires the location; the section, the radios' `required` flags and the location value are unchanged; a hidden section or an already checked "yes" leaves the state as it was |
| Transport.ChooseNo | script.js:96-103 | clicking "no" in a shown section checks it, unchecks "yes", and hides, empties and un-requires the location; the section and the radios' `required` flags are unchanged; a hidden section or an already checked "no" leaves the state as it was |
| Transport.SuccessResetAsWritten | script.js:158-161 | the success path hides section and location and clears choice and value, but keeps all three `required` flags |
| Transport.SuccessResetAsWrittenLeavesRequiredHidden | script.js:158-161 | after city Alexandria, "yes" and a typed location, the as-written success path leaves a hidden yet required location, breaking both invariants |
| Transport.SuccessReset | script.js:158-161 | the corrected success path returns the sub-form to Hidden: nothing shown, checked, filled or required |
| Transport.SuccessResetConsistent | script.js:158-161 | the corrected success path yields a consistent state in the Hidden phase |
| Transport.StepConsistent | script.js:61-104 | every user action (city change, yes, no, typing, successful registration) keeps the sub-form consistent, with the corrected success reset |
| Transport.RunConsistent | script.js:59-104 | any sequence of user actions from a consistent state, the initial Hidden state included, stays consistent, with the corrected success reset, so no stale location is ever visible to the form |
| Transport.PhaseDeterminesView | script.js:61-104 | in a consistent state, Hidden phase iff the Hidden state; location shown iff "yes" is confirmed; radios required iff the section is not hidden |
| Transport.RequalifyingKeepsChoice | script.js:65-68 | changing to another qualifying city leaves a shown sub-form exactly as it was |
| Payload.TransportPayload | script.js:117-125 | fields are appended iff the city exists and qualifies; `need_transport` is the submitted value or "no" when absent or empty; `transport_from` is non-empty only when `need_transport` is "yes" and then is the submitted location |
| Payload.NoStaleLocationSent | script.js:117-125 | from a consistent sub-form a location is sent only while it is shown, with `need_transport` "yes"; a hidden location sends "" with "no" |
| Payload.ContactPayload | script.js:204-209 | name, email and message pass through; the phone is `null` exactly when missing or empty |
| Outcome.FailureReason | script.js:167 | the reason is `message` when non-empty, else `error` when non-empty, else "Please try again."; never empty |
| Outcome.FailedToFetchMentionsFetch | script.js:175-178 | a message containing "Failed to fetch" contains "fetch" |
| Outcome.CaughtText | script.js:172-183 | in registration the connect text appears iff the message contains "fetch", otherwise "Error: " plus the message; contact always gives the generic text; the network-error text is never produced |
| Outcome.Notify | script.js:141-183 | success iff a JSON-typed, parseable, `ok` response; a non-JSON response is an error reading "Server error: " followed by the body, or by "Invalid response from server" when the body is empty; a failing JSON response is an error reading the form's failure prefix followed by `message`, else `error`, else "Please try again."; unparsable JSON and a rejected request give the catch text |
| Outcome.NotifyShowsFault | script.js:141-183 | the notification identifies the fault class (none, server, application, caught) of every exchange, for both forms |
| Outcome.CaughtTextUnprefixed | script.js:172-183 | a catch text never looks like a server-error or application-failure text |
| Outcome.NonJsonIgnoresStatusAndJson | script.js:141-147 | for a non-JSON response neither the status nor the JSON reading affects the notification |
| Outcome.NetworkTextNeverShown | script.js:175-178 | no exchange makes either form show the network-error text |
| Submit.SubmitRegistration | script.js:110-189 | the transport fields follow the city rule; the button is disabled with "Submitting..." while awaiting; one notification is shown; on success the section and location are hidden and the choice and value cleared while the three `required` flags keep their values, otherwise the sub-form is unchanged; the button ends enabled with its original text on every path, the non-JSON early return included |
| Submit.SubmitContact | script.js:198-252 | the body is built by the contact rule; the button is disabled with "Sending..." while awaiting; one notification is shown; the button ends enabled with its original text on every path |

## Left out

- Network and parsing: `fetch`, `response.text()`, `response.json()`, the request encodings (multipart form data, `JSON.stringify`), the endpoint paths and the `API_BASE_URL` constant are not modelled. The exchange is the abstract `Fetch` value.
- The form's own `needTransport` and `transportFrom` entries also go into the registration form data. The model only describes the two appended fields.
- Missing DOM elements: the script throws a `TypeError` when, say, the city select exists but the transport section does not. The model assumes every element it touches exists, except the city select, whose absence the payload rule handles.
- `showToast`: the banner markup, removing earlier banners, and the five-second timer are UI and timer behaviour. The model returns the one notification each handler shows.
- The Bootstrap modal hiding, `form.reset()` of the fields outside the transport sub-form, and the `console.error` logging are not modelled.
- `Transport.SuccessResetAsWritten`: the model treats `form.reset()` as restoring the radios to unchecked and the location to "". That assumes the page markup has no default value or checked state there. The markup is not part of this model.
- Transport.StepConsistent: the successful-registration event uses the corrected reset. With the as-written reset the `required` flags stay set, and consistency fails (see Findings).
- Transport.RunConsistent: for the same reason, it holds for the corrected success reset, not for the script as written.
- Outcome.FailureReason: JSON `message`/`error` values that are not strings (numbers, booleans, objects) are not modelled. Neither is their JavaScript truthiness.
- Outcome.Notify: a JSON body of `null` with a failing status makes the script throw a `TypeError` whose text depends on the engine. The model has no case for it. A thrown value without a string `message` is not modelled either.
- Navigation: the model takes the path as given, with no URL decoding, and takes a missing `href` as never matching.
- The async suspension is not modelled. Each handler is one sequential step that receives its outcome, so a request that never settles is outside the model.

## Findings

| source | as written | input that shows it | evidently intended | confidence | as-written member | corrected member |
|---|---|---|---|---|---|---|
| script.js:158-161 | after a successful registration the section and the location are hidden and the form is reset, but the `required` flags on both radios and on the location input stay set | city "Alexandria", click "yes", type "Smouha", then a JSON `ok` response | the transport sub-form returns to its Hidden state, with nothing required, as a non-qualifying city leaves it | medium, not executed | Transport.SuccessResetAsWritten | Transport.SuccessReset |

`Transport.SuccessResetAsWrittenLeavesRequiredHidden` shows the as-written
state breaking the "hidden location is empty and not required" invariant.
`Transport.SuccessResetConsistent` and `Transport.RunConsistent` prove that
the corrected reset keeps it. `Submit.SubmitRegistration` models the code as
written and uses `Transport.SuccessResetAsWritten`. The event model behind
`Transport.Step` uses the corrected `Transport.SuccessReset`.
