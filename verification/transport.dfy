/**
  The transport sub-form of the registration page: a section with a yes/no
  radio pair, and inside it a location input that applies only when "yes" is
  chosen. Its visibility and `required` flags follow the selected city: every
  city other than Cairo and Giza qualifies for transport.

  The handlers of the script are modelled as pure transitions of a
  `TransportState`; the browser's part of a user action (a radio becoming
  checked and unchecking its sibling, typing into a visible input) is
  modelled by the `Choose*` and `EnterLocation` functions, which then run the
  script's handler.
 */
module Transport {

  /** The view state the handlers read and write (the DOM elements' properties). */
  datatype TransportState = TransportState(
    sectionVisible: bool,
    locationVisible: bool,
    yesChecked: bool,
    noChecked: bool,
    yesRequired: bool,
    noRequired: bool,
    locationValue: string,
    locationRequired: bool)

  /** Everything hidden, cleared and optional: the state a non-qualifying city resets to. */
  const Hidden: TransportState :=
    TransportState(false, false, false, false, false, false, "", false)

  /** A city qualifies for transport when one is selected and it is neither Cairo nor Giza. */
  predicate Qualifies(city: string)
  {
    city != "" && city != "Cairo" && city != "Giza"
  }

  /** No stale transport location: a hidden location input is empty and not required. */
  predicate NoStaleLocation(s: TransportState)
  {
    !s.locationVisible ==> s.locationValue == "" && !s.locationRequired
  }

  /** The radio choice and the location input are the same in both states. */
  predicate SameChoice(a: TransportState, b: TransportState)
  {
    && a.yesChecked == b.yesChecked
    && a.noChecked == b.noChecked
    && a.locationVisible == b.locationVisible
    && a.locationValue == b.locationValue
    && a.locationRequired == b.locationRequired
  }

  /** The city `change` handler. */
  function OnCityChange(s: TransportState, city: string): (r: TransportState)
    ensures Qualifies(city) ==> r.sectionVisible && r.yesRequired && r.noRequired && SameChoice(r, s)
    ensures !Qualifies(city) ==> r == Hidden
    ensures NoStaleLocation(s) ==> NoStaleLocation(r)
  {
    if Qualifies(city) then
      s.(sectionVisible := true, yesRequired := true, noRequired := true)
    else
      s.(sectionVisible := false, locationVisible := false,
         yesChecked := false, noChecked := false,
         yesRequired := false, noRequired := false,
         locationValue := "", locationRequired := false)
  }

  /** The "yes" radio's `change` handler: when it is checked, the location is shown and required. */
  function OnYesChange(s: TransportState): (r: TransportState)
    ensures s.yesChecked ==> r.locationVisible && r.locationRequired
    ensures r.locationValue == s.locationValue
    ensures r.sectionVisible == s.sectionVisible && r.yesChecked == s.yesChecked && r.noChecked == s.noChecked
    ensures r.yesRequired == s.yesRequired && r.noRequired == s.noRequired
    ensures !s.yesChecked ==> r == s
    ensures NoStaleLocation(s) ==> NoStaleLocation(r)
  {
    if s.yesChecked then s.(locationVisible := true, locationRequired := true) else s
  }

  /** The "no" radio's `change` handler: when it is checked, the location is hidden, emptied and optional. */
  function OnNoChange(s: TransportState): (r: TransportState)
    ensures s.noChecked ==> !r.locationVisible && r.locationValue == "" && !r.locationRequired
    ensures r.sectionVisible == s.sectionVisible && r.yesChecked == s.yesChecked && r.noChecked == s.noChecked
    ensures r.yesRequired == s.yesRequired && r.noRequired == s.noRequired
    ensures !s.noChecked ==> r == s
    ensures NoStaleLocation(s) ==> NoStaleLocation(r)
  {
    if s.noChecked then s.(locationVisible := false, locationValue := "", locationRequired := false) else s
  }

  /** Applying the city handler twice with the same city is the same as applying it once. */
  lemma OnCityChangeIdempotent(s: TransportState, city: string)
    ensures OnCityChange(OnCityChange(s, city), city) == OnCityChange(s, city)
  {
  }

  /**
    The user clicks "yes". The radio sits in the transport section, so it can
    only be clicked while the section is shown; clicking an already checked
    radio fires no `change` event. Otherwise the browser checks it, unchecks
    its sibling, and the handler runs.
   */
  function ChooseYes(s: TransportState): (r: TransportState)
    ensures s.sectionVisible && !s.yesChecked ==>
      r.yesChecked && !r.noChecked && r.locationVisible && r.locationRequired
    ensures r.locationValue == s.locationValue
    ensures r.sectionVisible == s.sectionVisible && r.yesRequired == s.yesRequired && r.noRequired == s.noRequired
    ensures !s.sectionVisible || s.yesChecked ==> r == s
  {
    if !s.sectionVisible || s.yesChecked then s
    else OnYesChange(s.(yesChecked := true, noChecked := false))
  }

  /** The user clicks "no"; the counterpart of `ChooseYes`. */
  function ChooseNo(s: TransportState): (r: TransportState)
    ensures s.sectionVisible && !s.noChecked ==>
      r.noChecked && !r.yesChecked && !r.locationVisible && r.locationValue == "" && !r.locationRequired
    ensures r.sectionVisible == s.sectionVisible && r.yesRequired == s.yesRequired && r.noRequired == s.noRequired
    ensures !s.sectionVisible || s.noChecked ==> r == s
  {
    if !s.sectionVisible || s.noChecked then s
    else OnNoChange(s.(yesChecked := false, noChecked := true))
  }

  /** The user types into the location input, which is possible only while it is shown. */
  function EnterLocation(s: TransportState, v: string): (r: TransportState)
    ensures s.locationVisible ==> r.locationValue == v
    ensures !s.locationVisible ==> r == s
    ensures NoStaleLocation(s) ==> NoStaleLocation(r)
  {
    if s.locationVisible then s.(locationValue := v) else s
  }

  /**
    What a successful registration leaves behind, as the script is written:
    the section and the location are hidden, and `form.reset()` unchecks the
    radios and empties the input (their markup defaults), but nothing resets
    the `required` flags.
   */
  function SuccessResetAsWritten(s: TransportState): (r: TransportState)
    ensures !r.sectionVisible && !r.locationVisible && !r.yesChecked && !r.noChecked && r.locationValue == ""
    ensures r.yesRequired == s.yesRequired && r.noRequired == s.noRequired && r.locationRequired == s.locationRequired
  {
    s.(sectionVisible := false, locationVisible := false,
       yesChecked := false, noChecked := false, locationValue := "")
  }

  /** What a successful registration is meant to leave behind: the sub-form back in its Hidden state. */
  function SuccessReset(s: TransportState): (r: TransportState)
    ensures r == Hidden
    ensures NoStaleLocation(r) && !r.yesRequired && !r.noRequired
  {
    SuccessResetAsWritten(s).(yesRequired := false, noRequired := false, locationRequired := false)
  }

  /**
    The states a user can reach: the radios' `required` flags follow the
    section, a choice is only made inside a shown section, the location is
    shown exactly when "yes" is chosen and then required, and a hidden
    location holds no stale value.
   */
  predicate Consistent(s: TransportState)
  {
    && s.yesRequired == s.sectionVisible
    && s.noRequired == s.sectionVisible
    && (s.yesChecked || s.noChecked ==> s.sectionVisible)
    && !(s.yesChecked && s.noChecked)
    && s.locationVisible == s.yesChecked
    && s.locationRequired == s.locationVisible
    && NoStaleLocation(s)
  }

  /** The user actions on the registration page that touch the transport sub-form. */
  datatype Event =
    | CityChanged(city: string)
    | ClickedYes
    | ClickedNo
    | TypedLocation(text: string)
    | RegisteredOk

  function Step(s: TransportState, e: Event): TransportState
  {
    match e
    case CityChanged(city) => OnCityChange(s, city)
    case ClickedYes => ChooseYes(s)
    case ClickedNo => ChooseNo(s)
    case TypedLocation(text) => EnterLocation(s, text)
    case RegisteredOk => SuccessReset(s)
  }

  /** Every user action keeps a consistent state consistent. */
  lemma StepConsistent(s: TransportState, e: Event)
    requires Consistent(s)
    ensures Consistent(Step(s, e))
  {
  }

  /** The state after a sequence of user actions. */
  function Run(s: TransportState, es: seq<Event>): TransportState
    requires Consistent(s)
    decreases |es|
  {
    if es == [] then s
    else
      StepConsistent(s, es[0]);
      Run(Step(s, es[0]), es[1..])
  }

  /** From a consistent state, in particular the initial Hidden state, every sequence of actions stays consistent. */
  lemma {:induction false} RunConsistent(s: TransportState, es: seq<Event>)
    requires Consistent(s)
    ensures Consistent(Run(s, es))
    decreases |es|
  {
    if es != [] {
      StepConsistent(s, es[0]);
      RunConsistent(Step(s, es[0]), es[1..]);
    }
  }

  /** The four phases of the sub-form. */
  datatype Phase = HiddenPhase | Pending | Confirmed | Declined

  function PhaseOf(s: TransportState): Phase
  {
    if !s.sectionVisible then HiddenPhase
    else if s.yesChecked then Confirmed
    else if s.noChecked then Declined
    else Pending
  }

  /** In a consistent state the phase decides the whole view except the typed location. */
  lemma PhaseDeterminesView(s: TransportState)
    requires Consistent(s)
    ensures PhaseOf(s) == HiddenPhase <==> s == Hidden
    ensures s.locationVisible <==> PhaseOf(s) == Confirmed
    ensures s.yesRequired && s.noRequired <==> PhaseOf(s) != HiddenPhase
  {
  }

  /**
    Switching from one qualifying city to another keeps the radio choice and
    the typed location: the city handler only resets them when the city does
    not qualify.
   */
  lemma RequalifyingKeepsChoice(s: TransportState, city: string)
    requires Consistent(s) && s.sectionVisible && Qualifies(city)
    ensures PhaseOf(OnCityChange(s, city)) == PhaseOf(s)
    ensures OnCityChange(s, city) == s
  {
  }

  /**
    After registering with transport to a location, the as-written success
    path leaves a hidden location input that is still required, and hidden
    radios that are still required.
   */
  lemma SuccessResetAsWrittenLeavesRequiredHidden()
    ensures var s := Run(Hidden, [CityChanged("Alexandria"), ClickedYes, TypedLocation("Smouha")]);
      && Consistent(s)
      && !NoStaleLocation(SuccessResetAsWritten(s))
      && !Consistent(SuccessResetAsWritten(s))
  {
  }

  /** The corrected success path keeps every consistent state consistent. */
  lemma SuccessResetConsistent(s: TransportState)
    ensures Consistent(SuccessReset(s))
    ensures PhaseOf(SuccessReset(s)) == HiddenPhase
  {
  }
}
