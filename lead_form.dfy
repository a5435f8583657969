/**
 * The web-to-lead form: the required-field check in front of the native
 * submission, the custom-validity messages set while typing, the clearing of
 * validation styles, and the state selector rebuilt from the chosen country.
 *
 * Each form control carries the `error` class and the custom-validity
 * message the script sets on it; the state selector's option list and its
 * `disabled` flag are fields of the controller. `form.submit()` is counted,
 * not performed.
 */
module LeadForm {

  import opened Wrappers
  import opened Text
  import opened Controls
  import Patterns

  const EmailInvalid := "Please enter a valid email address"
  const PhoneInvalid := "Please enter a valid phone number"

  /** An `input`, `select` or `textarea` of the form with the state the script gives it. */
  datatype LeadField = LeadField(control: Control, error: bool, customValidity: string)

  function ControlsOf(fs: seq<LeadField>): (r: seq<Control>)
    ensures |r| == |fs| && forall k | 0 <= k < |fs| :: r[k] == fs[k].control
  {
    seq(|fs|, k requires 0 <= k < |fs| => fs[k].control)
  }

  /** Every required field has non-whitespace content. */
  predicate RequiredFilled(fs: seq<LeadField>) {
    forall k | 0 <= k < |fs| :: fs[k].control.required ==> !IsBlank(fs[k].control.value)
  }

  /** The fields after `validateForm`: each required field is marked `error`
      exactly when it is blank; nothing else changes. */
  function MarkRequired(fs: seq<LeadField>): seq<LeadField> {
    seq(|fs|, k requires 0 <= k < |fs| =>
      if fs[k].control.required then fs[k].(error := IsBlank(fs[k].control.value)) else fs[k])
  }

  /** The required fields before position `n` have content. */
  predicate FilledBefore(fs: seq<LeadField>, n: nat)
    requires n <= |fs|
  {
    forall k | 0 <= k < n :: fs[k].control.required ==> !IsBlank(fs[k].control.value)
  }

  /** The fields once those before position `n` are marked. */
  function MarkedBefore(fs: seq<LeadField>, n: nat): (r: seq<LeadField>)
    requires n <= |fs|
    ensures n == |fs| ==> r == MarkRequired(fs)
  {
    seq(|fs|, k requires 0 <= k < |fs| =>
      if k < n && fs[k].control.required then fs[k].(error := IsBlank(fs[k].control.value)) else fs[k])
  }

  lemma MarkedStep(fs: seq<LeadField>, n: nat)
    requires n < |fs|
    ensures MarkedBefore(fs, n)[n] == fs[n]
    ensures MarkedBefore(fs, n + 1) ==
      if fs[n].control.required then MarkedBefore(fs, n)[n := fs[n].(error := IsBlank(fs[n].control.value))]
      else MarkedBefore(fs, n)
    ensures FilledBefore(fs, n + 1) ==
      (FilledBefore(fs, n) && (fs[n].control.required ==> !IsBlank(fs[n].control.value)))
  {
  }

  /** After marking, the check passed exactly when no required field shows `error`. */
  lemma FilledIffNoRequiredError(fs: seq<LeadField>)
    ensures RequiredFilled(fs) <==>
      forall k | 0 <= k < |fs| :: MarkRequired(fs)[k].control.required ==> !MarkRequired(fs)[k].error
  {
    if !RequiredFilled(fs) {
      var k :| 0 <= k < |fs| && fs[k].control.required && IsBlank(fs[k].control.value);
      assert MarkRequired(fs)[k].error;
    }
  }

  /** Validating twice shows the same as validating once. */
  lemma MarkRequiredIdempotent(fs: seq<LeadField>)
    ensures MarkRequired(MarkRequired(fs)) == MarkRequired(fs)
  {
  }

  /** The custom-validity message after an input event: a non-empty email value
      gets the email verdict, a non-empty tel value the phone verdict, and
      anything else keeps the message it had. */
  function InputValidity(inputType: InputType, value: string, current: string): (r: string)
    ensures value == "" || inputType == OtherType ==> r == current
    ensures inputType == Email && value != "" ==>
      (r == "" <==> Patterns.ValidateEmailFormat(value)) && (r != "" ==> r == EmailInvalid)
    ensures inputType == Tel && value != "" ==>
      (r == "" <==> Patterns.ValidatePhone(value)) && (r != "" ==> r == PhoneInvalid)
  {
    if inputType == Email && value != "" then
      (if Patterns.ValidateEmailFormat(value) then "" else EmailInvalid)
    else if inputType == Tel && value != "" then
      (if Patterns.ValidatePhone(value) then "" else PhoneInvalid)
    else current
  }

  /** The message a non-empty tel value ends up with is decided by the phone
      pattern: it is cleared exactly when the value matches it. */
  lemma TelValidityFollowsPattern(value: string, current: string)
    requires value != ""
    ensures InputValidity(Tel, value, current) == "" <==> Patterns.PhonePatternMatches(value)
  {
    Patterns.PhoneIsPattern(value);
  }

  /** And a non-empty email value's message by the email pattern. */
  lemma EmailValidityFollowsPattern(value: string, current: string)
    requires value != ""
    ensures InputValidity(Email, value, current) == "" <==> Patterns.EmailPatternMatches(value)
  {
    Patterns.EmailFormatIsPattern(value);
  }

  /** An option of the state selector. */
  datatype StateOption = StateOption(value: string, text: string)

  const StatePlaceholder := StateOption("", "Select state")

  /** The `stateOptions` table, in table order. */
  const StateTable: map<string, seq<StateOption>> := map[
    "ID" := [
      StateOption("AC", "Aceh"), StateOption("SU", "Sumatera Utara"),
      StateOption("SB", "Sumatera Barat"), StateOption("RI", "Riau"),
      StateOption("KR", "Kepulauan Riau"), StateOption("JB", "Jambi"),
      StateOption("SS", "Sumatera Selatan"), StateOption("BB", "Bangka Belitung"),
      StateOption("BE", "Bengkulu"), StateOption("LA", "Lampung"),
      StateOption("JK", "DKI Jakarta"), StateOption("JB", "Jawa Barat"),
      StateOption("BT", "Banten"), StateOption("JT", "Jawa Tengah"),
      StateOption("YO", "DI Yogyakarta"), StateOption("JI", "Jawa Timur"),
      StateOption("BA", "Bali"), StateOption("NB", "Nusa Tenggara Barat"),
      StateOption("NT", "Nusa Tenggara Timur"), StateOption("KB", "Kalimantan Barat"),
      StateOption("KT", "Kalimantan Tengah"), StateOption("KS", "Kalimantan Selatan"),
      StateOption("KI", "Kalimantan Timur"), StateOption("KU", "Kalimantan Utara"),
      StateOption("SA", "Sulawesi Utara"), StateOption("SR", "Sulawesi Barat"),
      StateOption("ST", "Sulawesi Tengah"), StateOption("SN", "Sulawesi Selatan"),
      StateOption("SG", "Sulawesi Tenggara"), StateOption("GO", "Gorontalo"),
      StateOption("MA", "Maluku"), StateOption("MU", "Maluku Utara"),
      StateOption("PA", "Papua"), StateOption("PB", "Papua Barat"),
      StateOption("PS", "Papua Selatan"), StateOption("PT", "Papua Tengah"),
      StateOption("PP", "Papua Pegunungan"), StateOption("PW", "Papua Barat Daya")],
    "MY" := [
      StateOption("KL", "Kuala Lumpur"), StateOption("SL", "Selangor"),
      StateOption("JH", "Johor"), StateOption("PG", "Penang")],
    "SG" := [StateOption("SG", "Singapore")],
    "TH" := [
      StateOption("BK", "Bangkok"), StateOption("CM", "Chiang Mai"),
      StateOption("PK", "Phuket")]
  ]

  /** `stateOptions[countryCode] || []`. */
  function StateOptions(countryCode: string): (r: seq<StateOption>)
    ensures r != [] <==> countryCode in StateTable
  {
    if countryCode in StateTable then StateTable[countryCode] else []
  }

  /** The table covers Indonesia, Malaysia, Singapore and Thailand, and no other code. */
  lemma TableCountries(countryCode: string)
    ensures countryCode in StateTable <==>
      countryCode == "ID" || countryCode == "MY" || countryCode == "SG" || countryCode == "TH"
  {
  }

  /** The option list the country handler builds: the placeholder, then the
      country's entries in table order. */
  function StateSelector(countryCode: string): seq<StateOption> {
    [StatePlaceholder] + StateOptions(countryCode)
  }

  /** Singapore has exactly one state, itself. */
  lemma SingaporeSelector()
    ensures StateSelector("SG") == [StatePlaceholder, StateOption("SG", "Singapore")]
  {
  }

  /** A code the table does not know gives the placeholder alone. */
  lemma UnknownCountrySelector(countryCode: string)
    requires countryCode != "ID" && countryCode != "MY" && countryCode != "SG" && countryCode != "TH"
    ensures StateSelector(countryCode) == [StatePlaceholder]
  {
  }

  /** Jambi and Jawa Barat share the code `JB`; both are offered. */
  lemma IndonesiaKeepsDuplicateCode()
    ensures |StateSelector("ID")| == 39
    ensures StateSelector("ID")[6] == StateOption("JB", "Jambi")
    ensures StateSelector("ID")[12] == StateOption("JB", "Jawa Barat")
  {
  }

  /** No table entry has the placeholder's empty value. */
  lemma {:induction false} EntriesHaveValues(countryCode: string, k: nat)
    requires k < |StateOptions(countryCode)|
    ensures StateOptions(countryCode)[k].value != ""
  {
    TableCountries(countryCode);
  }

  class LeadFormController {
    var fields: seq<LeadField>
    /** The options of the `state_code` selector. */
    var stateSelectOptions: seq<StateOption>
    var stateSelectDisabled: bool
    var submitDisabled: bool
    /** How many times `form.submit()` has been invoked. */
    var submitCalls: nat

    /** Binding to a loaded page. The final `clearValidationStyles()` runs only
        when the page has a `country_code` element: without one, registering
        its change listener fails first. */
    constructor (page: seq<LeadField>, stateOptions: seq<StateOption>, stateDisabled: bool)
      ensures ControlsOf(fields) == ControlsOf(page)
      ensures FirstWithId(ControlsOf(page), "country_code").Some? ==>
        forall k | 0 <= k < |fields| :: !fields[k].error && fields[k].customValidity == ""
      ensures FirstWithId(ControlsOf(page), "country_code").None? ==> fields == page
      ensures stateSelectOptions == stateOptions && stateSelectDisabled == stateDisabled
      ensures !submitDisabled && submitCalls == 0
    {
      fields := page;
      stateSelectOptions := stateOptions;
      stateSelectDisabled := stateDisabled;
      submitDisabled := false;
      submitCalls := 0;
      new;
      if FirstWithId(ControlsOf(page), "country_code").Some? {
        ClearValidationStyles();
      }
    }

    /** `validateForm`: every required field is visited and marked, and the
        result is whether all of them have content. */
    method ValidateForm() returns (isValid: bool)
      modifies this`fields
      ensures fields == MarkRequired(old(fields))
      ensures isValid <==> RequiredFilled(old(fields))
    {
      ghost var start := fields;
      isValid := true;
      var i := 0;
      while i < |fields|
        invariant 0 <= i <= |fields| == |start|
        invariant isValid == FilledBefore(start, i)
        invariant fields == MarkedBefore(start, i)
      {
        MarkedStep(start, i);
        var field := fields[i];
        if field.control.required {
          TrimEmptyIffBlank(field.control.value);
          if Trim(field.control.value) == "" {
            isValid := false;
            fields := fields[i := field.(error := true)];
          } else {
            fields := fields[i := field.(error := false)];
          }
        }
        i := i + 1;
      }
    }

    /** The input listener: the new value, then its custom-validity message. */
    method Input(i: nat, v: string)
      requires i < |fields|
      modifies this`fields
      ensures fields == old(fields)[i := LeadField(
        old(fields)[i].control.(value := v), old(fields)[i].error,
        InputValidity(old(fields)[i].control.inputType, v, old(fields)[i].customValidity))]
    {
      fields := fields[i := fields[i].(control := fields[i].control.(value := v))];
      var field := fields[i];
      if field.control.inputType == Email && field.control.value != "" {
        if !Patterns.ValidateEmailFormat(field.control.value) {
          fields := fields[i := field.(customValidity := EmailInvalid)];
        } else {
          fields := fields[i := field.(customValidity := "")];
        }
      }
      if field.control.inputType == Tel && field.control.value != "" {
        if !Patterns.ValidatePhone(field.control.value) {
          fields := fields[i := field.(customValidity := PhoneInvalid)];
        } else {
          fields := fields[i := field.(customValidity := "")];
        }
      }
    }

    /** `clearValidationStyles`: no field keeps `error` or a custom-validity
        message; values stay as they are. */
    method ClearValidationStyles()
      modifies this`fields
      ensures |fields| == |old(fields)|
      ensures forall k | 0 <= k < |fields| ::
        fields[k] == LeadField(old(fields)[k].control, false, "")
    {
      var i := 0;
      while i < |fields|
        invariant 0 <= i <= |fields| == |old(fields)|
        invariant forall k | 0 <= k < |fields| ::
          fields[k] == if k < i then LeadField(old(fields)[k].control, false, "") else old(fields)[k]
      {
        fields := fields[i := fields[i].(error := false, customValidity := "")];
        i := i + 1;
      }
    }

    /** The submit listener: a failing check returns before anything is
        submitted; otherwise the button is disabled and the form submitted. */
    method Submit()
      modifies this`fields, this`submitDisabled, this`submitCalls
      ensures fields == MarkRequired(old(fields))
      ensures RequiredFilled(old(fields)) ==> submitDisabled && submitCalls == old(submitCalls) + 1
      ensures !RequiredFilled(old(fields)) ==>
        submitDisabled == old(submitDisabled) && submitCalls == old(submitCalls)
    {
      var ok := ValidateForm();
      if !ok {
        return;
      }
      submitDisabled := true;
      submitCalls := submitCalls + 1;
    }

    /** The reset button: after the user confirms, `form.reset()` restores the
        defaults and the validation styles are cleared. */
    method Reset(confirmed: bool)
      modifies this`fields
      ensures confirmed ==>
        ControlsOf(fields) == ResetValues(ControlsOf(old(fields)))
        && forall k | 0 <= k < |fields| :: !fields[k].error && fields[k].customValidity == ""
      ensures !confirmed ==> fields == old(fields)
    {
      if confirmed {
        var before, reset := fields, ResetValues(ControlsOf(fields));
        fields := seq(|before|, k requires 0 <= k < |before| => before[k].(control := reset[k]));
        ClearValidationStyles();
      }
    }

    /** The `country_code` change listener: the state selector's options become
        the placeholder and the country's entries, which leaves the placeholder
        selected, and the selector is disabled exactly when there are no
        entries. Without both elements nothing changes. */
    method CountryChange()
      modifies this`fields, this`stateSelectOptions, this`stateSelectDisabled
      ensures var cs := ControlsOf(old(fields));
        var country := FirstWithId(cs, "country_code");
        var state := FirstWithId(cs, "state_code");
        if country.Some? && state.Some? then
          var code := cs[country.value].value;
          && stateSelectOptions == StateSelector(code)
          && stateSelectDisabled == (StateOptions(code) == [])
          && fields == old(fields)[state.value := old(fields)[state.value].(control := cs[state.value].(value := ""))]
        else
          fields == old(fields) && stateSelectOptions == old(stateSelectOptions)
          && stateSelectDisabled == old(stateSelectDisabled)
    {
      var cs := ControlsOf(fields);
      var country := FirstWithId(cs, "country_code");
      var state := FirstWithId(cs, "state_code");
      if country.Some? && state.Some? {
        var states := StateOptions(cs[country.value].value);
        fields := fields[state.value := fields[state.value].(control := cs[state.value].(value := ""))];
        FillStateSelector(states);
        stateSelectDisabled := |states| == 0;
      }
    }

    /** The selector's options are replaced by the placeholder, and then the
        given entries are appended one by one. */
    method FillStateSelector(states: seq<StateOption>)
      modifies this`stateSelectOptions
      ensures stateSelectOptions == [StatePlaceholder] + states
    {
      stateSelectOptions := [StatePlaceholder];
      var i := 0;
      while i < |states|
        invariant 0 <= i <= |states|
        invariant stateSelectOptions == [StatePlaceholder] + states[..i]
      {
        stateSelectOptions := stateSelectOptions + [states[i]];
        i := i + 1;
      }
      assert states[..|states|] == states;
    }
  }

  /** Choosing Singapore on a page with both selectors offers one state and
      keeps the selector enabled. */
  method SingaporeScenario() returns (options: seq<StateOption>, disabled: bool)
    ensures options == [StatePlaceholder, StateOption("SG", "Singapore")] && !disabled
  {
    var page := [
      LeadField(Control("country_code", "country_code", OtherType, true, "", ""), false, ""),
      LeadField(Control("state_code", "state_code", OtherType, false, "", ""), false, "")];
    var form := new LeadFormController(page, [StatePlaceholder], true);
    form.Input(0, "SG");
    form.CountryChange();
    options, disabled := form.stateSelectOptions, form.stateSelectDisabled;
  }
}
