/**
 * The support-case form: per-field validation and the `.form-group` state it
 * shows, the whole-form gate in front of the native submission, the draft
 * kept in local storage, and the priority and case-type reactions.
 *
 * The page is a sequence of form controls, each with its own group; local
 * storage is one slot for the draft key; the buttons' `disabled` flags, the
 * priority border colour and the description prompt are fields of the
 * controller. `form.submit()` is counted, not performed.
 */
module CaseForm {

  import opened Wrappers
  import opened Text
  import opened Controls
  import Patterns
  import PhoneFormat
  import CaseTables

  const RequiredMessage := "This field is required"
  const EmailMessage := "Please enter a valid email address"

  /** What `validateField` decides: whether the field is valid, and the message to show. */
  datatype Verdict = Verdict(valid: bool, message: string)

  /** A `.form-group`: its `error` and `success` classes and its
      `.error-message` children, in document order. */
  datatype FormGroup = FormGroup(error: bool, success: bool, messages: seq<string>)

  const PlainGroup := FormGroup(false, false, [])

  /** The states this script can leave a group in: at most one message, shown
      only together with `error`, and never both classes at once. */
  predicate WellFormed(g: FormGroup) {
    |g.messages| <= 1 && (g.messages != [] ==> g.error) && !(g.error && g.success)
  }

  /** The email rule looks only at email-type fields that hold something. */
  predicate EmailRuleApplies(c: Control) {
    c.inputType == Email && c.value != ""
  }

  /** The decision of `validateField`: the required rule, overridden by the
      email rule wherever the email rule applies. */
  function FieldVerdict(c: Control): Verdict {
    if EmailRuleApplies(c) then
      if Patterns.ValidateEmailFormat(c.value) then Verdict(true, "") else Verdict(false, EmailMessage)
    else if c.required && Trim(c.value) == "" then Verdict(false, RequiredMessage)
    else Verdict(true, "")
  }

  /** What the verdict means: valid iff the required rule and, where it
      applies, the email rule both pass; the message is empty iff valid, and
      otherwise it names the rule that failed. */
  lemma FieldVerdictMeaning(c: Control)
    ensures FieldVerdict(c).valid <==>
      !(c.required && IsBlank(c.value))
      && (EmailRuleApplies(c) ==> Patterns.ValidateEmailFormat(c.value))
    ensures FieldVerdict(c).valid <==> FieldVerdict(c).message == ""
    ensures !FieldVerdict(c).valid ==>
      FieldVerdict(c).message == if EmailRuleApplies(c) then EmailMessage else RequiredMessage
  {
    TrimEmptyIffBlank(c.value);
    Patterns.EmailAcceptedNotBlank(c.value);
  }

  /** `validateField` without its DOM update: the two locals are set rule by rule. */
  method ValidateField(c: Control) returns (isValid: bool, errorMessage: string)
    ensures Verdict(isValid, errorMessage) == FieldVerdict(c)
  {
    isValid := true;
    errorMessage := "";
    if c.required && Trim(c.value) == "" {
      isValid := false;
      errorMessage := RequiredMessage;
    }
    if c.inputType == Email && c.value != "" {
      isValid := Patterns.ValidateEmailFormat(c.value);
      if !isValid {
        errorMessage := EmailMessage;
      }
    }
  }

  /** A required field holding only whitespace is refused; its message is the
      required message unless the email rule applies, whose message wins. */
  lemma RequiredBlankRefused(c: Control)
    requires c.required && Trim(c.value) == ""
    ensures !FieldVerdict(c).valid
    ensures FieldVerdict(c).message == if EmailRuleApplies(c) then EmailMessage else RequiredMessage
  {
    TrimEmptyIffBlank(c.value);
  }

  /** For a non-empty email field validity is exactly the email test; an empty
      email field is judged by the required rule alone. */
  lemma EmailRule(c: Control)
    requires c.inputType == Email
    ensures c.value != "" ==> FieldVerdict(c).valid == Patterns.ValidateEmailFormat(c.value)
    ensures c.value == "" ==> FieldVerdict(c).valid == !c.required
  {
  }

  /** `updateFieldState`: both classes are replaced by the one the verdict
      calls for, the first existing message is removed, and a new message is
      added when the field is invalid and the message is not empty. */
  function UpdateFieldState(g: FormGroup, isValid: bool, errorMessage: string): (r: FormGroup)
    ensures r.error == !isValid && r.success == isValid
    ensures |g.messages| <= 1 ==>
      r.messages == if !isValid && errorMessage != "" then [errorMessage] else []
    ensures |g.messages| <= 1 ==> WellFormed(r)
  {
    var kept := if g.messages == [] then [] else g.messages[1..];
    FormGroup(!isValid, isValid, kept + if !isValid && errorMessage != "" then [errorMessage] else [])
  }

  /** `clearFieldError`: the `error` class goes, `success` stays as it was, and
      the first message is removed. */
  function ClearFieldError(g: FormGroup): (r: FormGroup)
    ensures !r.error && r.success == g.success
    ensures |g.messages| <= 1 ==> r.messages == []
    ensures WellFormed(g) ==> WellFormed(r)
  {
    g.(error := false, messages := if g.messages == [] then [] else g.messages[1..])
  }

  /** The reset loop's step: both classes go and the first message is removed. */
  function ClearGroup(g: FormGroup): (r: FormGroup)
    ensures |g.messages| <= 1 ==> r == PlainGroup
  {
    FormGroup(false, false, if g.messages == [] then [] else g.messages[1..])
  }

  /** The group of a field after `validateField`. */
  function GroupAfterValidation(c: Control, g: FormGroup): FormGroup {
    var v := FieldVerdict(c);
    UpdateFieldState(g, v.valid, v.message)
  }

  /** The group of a field after its blur event: `validateField` if the field is
      required, then `validateEmail` if it is the `email` field. */
  function GroupAfterBlur(c: Control, g: FormGroup, isEmailField: bool): FormGroup {
    var checked := if c.required then GroupAfterValidation(c, g) else g;
    if isEmailField && !Patterns.ValidateEmailFormat(c.value) && c.value != ""
    then UpdateFieldState(checked, false, EmailMessage)
    else checked
  }

  /** On a required email field, the second email check the blur event runs
      shows exactly what `validateField` already showed. */
  lemma RequiredEmailBlurIsValidation(c: Control, g: FormGroup)
    requires WellFormed(g) && c.required && c.inputType == Email
    ensures GroupAfterBlur(c, g, true) == GroupAfterValidation(c, g)
  {
  }

  /** Every required field passes. */
  predicate AllRequiredValid(cs: seq<Control>) {
    forall k | 0 <= k < |cs| :: cs[k].required ==> FieldVerdict(cs[k]).valid
  }

  /** The groups after `validateForm`: every required field validated, the other groups untouched. */
  function ValidatedGroups(cs: seq<Control>, gs: seq<FormGroup>): seq<FormGroup>
    requires |cs| == |gs|
  {
    seq(|gs|, k requires 0 <= k < |gs| =>
      if cs[k].required then GroupAfterValidation(cs[k], gs[k]) else gs[k])
  }

  /** The required fields before position `n` all pass. */
  predicate RequiredValidBefore(cs: seq<Control>, n: nat)
    requires n <= |cs|
  {
    forall k | 0 <= k < n :: cs[k].required ==> FieldVerdict(cs[k]).valid
  }

  /** The groups once the required fields before position `n` are validated. */
  function ValidatedBefore(cs: seq<Control>, gs: seq<FormGroup>, n: nat): (r: seq<FormGroup>)
    requires |cs| == |gs| && n <= |cs|
    ensures n == |cs| ==> r == ValidatedGroups(cs, gs)
  {
    seq(|gs|, k requires 0 <= k < |gs| =>
      if k < n && cs[k].required then GroupAfterValidation(cs[k], gs[k]) else gs[k])
  }

  lemma RequiredValidStep(cs: seq<Control>, n: nat)
    requires n < |cs|
    ensures RequiredValidBefore(cs, n + 1) ==
      (RequiredValidBefore(cs, n) && (cs[n].required ==> FieldVerdict(cs[n]).valid))
  {
  }

  lemma ValidatedStep(cs: seq<Control>, gs: seq<FormGroup>, n: nat)
    requires |cs| == |gs| && n < |cs|
    ensures ValidatedBefore(cs, gs, n)[n] == gs[n]
    ensures ValidatedBefore(cs, gs, n + 1) ==
      if cs[n].required then ValidatedBefore(cs, gs, n)[n := GroupAfterValidation(cs[n], gs[n])]
      else ValidatedBefore(cs, gs, n)
  {
  }

  /** No short-circuit: after validation each required field shows `error`
      exactly when it fails, and `success` exactly when it passes. */
  lemma ValidationMarksEveryRequiredField(cs: seq<Control>, gs: seq<FormGroup>, k: nat)
    requires |cs| == |gs| && k < |cs| && cs[k].required
    ensures ValidatedGroups(cs, gs)[k].error == !FieldVerdict(cs[k]).valid
    ensures ValidatedGroups(cs, gs)[k].success == FieldVerdict(cs[k]).valid
  {
  }

  /** One failing required field among passing ones: the gate is closed and
      that field's group is the only required one showing `error`. */
  lemma OneFailingFieldOneError(cs: seq<Control>, gs: seq<FormGroup>, bad: nat)
    requires |cs| == |gs| && bad < |cs| && cs[bad].required && !FieldVerdict(cs[bad]).valid
    requires forall k | 0 <= k < |cs| && k != bad && cs[k].required :: FieldVerdict(cs[k]).valid
    ensures !AllRequiredValid(cs)
    ensures forall k | 0 <= k < |cs| && cs[k].required :: ValidatedGroups(cs, gs)[k].error <==> k == bad
  {
    forall k | 0 <= k < |cs| && cs[k].required
      ensures ValidatedGroups(cs, gs)[k].error <==> k == bad
    {
      ValidationMarksEveryRequiredField(cs, gs, k);
    }
  }

  /** What local storage holds under the draft key: nothing, text that does not
      parse as a mapping of names to values, or such a mapping. */
  datatype DraftSlot = NoDraft | Malformed | Saved(entries: map<string, string>)

  /** `loadSavedData` fills control `i`: it is the first control with a saved
      name, and it is empty. */
  predicate Restorable(cs: seq<Control>, entries: map<string, string>, i: nat)
    requires i < |cs|
  {
    cs[i].value == "" && cs[i].name in entries && FirstNamed(cs, cs[i].name) == Some(i)
  }

  /** The page after a parsed draft is applied. */
  function RestoreDraft(cs: seq<Control>, entries: map<string, string>): (r: seq<Control>)
    ensures |r| == |cs|
    ensures forall i | 0 <= i < |cs| :: r[i].(value := cs[i].value) == cs[i]
    ensures forall i | 0 <= i < |cs| && cs[i].value != "" :: r[i] == cs[i]
    ensures forall i | 0 <= i < |cs| && Restorable(cs, entries, i) :: r[i].value == entries[cs[i].name]
    ensures forall i | 0 <= i < |cs| && !Restorable(cs, entries, i) :: r[i] == cs[i]
  {
    seq(|cs|, i requires 0 <= i < |cs| =>
      if Restorable(cs, entries, i) then cs[i].(value := entries[cs[i].name]) else cs[i])
  }

  /** The page after loading whatever the slot holds: only a parsed draft changes anything. */
  function LoadDraft(cs: seq<Control>, slot: DraftSlot): (r: seq<Control>)
    ensures !slot.Saved? ==> r == cs
  {
    if slot.Saved? then RestoreDraft(cs, slot.entries) else cs
  }

  /** The value control `i` shows after `v` is typed into it: reformatted if
      it is the `phone` field, as typed otherwise. */
  function PhoneInput(cs: seq<Control>, i: nat, v: string): string {
    if FirstWithId(cs, "phone") == Some(i) then PhoneFormat.FormatPhone(v) else v
  }

  class CaseFormController {
    var controls: seq<Control>
    var groups: seq<FormGroup>
    /** The script's in-memory `formData` object. */
    var formData: map<string, string>
    /** The local-storage entry `newCaseForm_draft`. */
    var storage: DraftSlot
    /** The submit button's `loading` class and `disabled` flag, and the reset button's `disabled` flag. */
    var submitLoading: bool
    var submitDisabled: bool
    var resetDisabled: bool
    /** How many times `form.submit()` has been invoked. */
    var submitCalls: nat
    /** The priority select's inline border colour. */
    var priorityBorder: Option<string>
    /** The description field's placeholder. */
    var descriptionPlaceholder: string

    /** One group per control, every group in a state the script produces, and
        the three button flags moving together as one submitting flag. */
    ghost predicate Valid()
      reads this`controls, this`groups, this`submitLoading, this`submitDisabled, this`resetDisabled
    {
      |groups| == |controls|
      && (forall k | 0 <= k < |groups| :: WellFormed(groups[k]))
      && submitDisabled == submitLoading && resetDisabled == submitLoading
    }

    /** Binding to a freshly loaded page: no group styled, the draft applied. */
    constructor (page: seq<Control>, stored: DraftSlot, placeholder: string)
      ensures Valid()
      ensures controls == LoadDraft(page, stored)
      ensures groups == seq(|page|, _ => PlainGroup)
      ensures formData == map[] && storage == stored
      ensures !submitLoading && submitCalls == 0
      ensures priorityBorder == None && descriptionPlaceholder == placeholder
    {
      controls := page;
      groups := seq(|page|, _ => PlainGroup);
      formData := map[];
      storage := stored;
      submitLoading, submitDisabled, resetDisabled := false, false, false;
      submitCalls := 0;
      priorityBorder := None;
      descriptionPlaceholder := placeholder;
      new;
      LoadSavedData();
    }

    /** Binding as evidently intended: the in-memory draft starts from the
        stored one, so that saving a field extends the stored draft instead of
        replacing it. */
    constructor WithSeededDraft(page: seq<Control>, stored: DraftSlot, placeholder: string)
      ensures Valid()
      ensures controls == LoadDraft(page, stored)
      ensures groups == seq(|page|, _ => PlainGroup)
      ensures formData == (if stored.Saved? then stored.entries else map[]) && storage == stored
      ensures !submitLoading && submitCalls == 0
      ensures priorityBorder == None && descriptionPlaceholder == placeholder
    {
      controls := page;
      groups := seq(|page|, _ => PlainGroup);
      formData := if stored.Saved? then stored.entries else map[];
      storage := stored;
      submitLoading, submitDisabled, resetDisabled := false, false, false;
      submitCalls := 0;
      priorityBorder := None;
      descriptionPlaceholder := placeholder;
      new;
      LoadSavedData();
    }

    /** `loadSavedData`: each saved name fills the first control of that name
        if it is empty. A missing or malformed draft changes nothing. */
    method LoadSavedData()
      modifies this`controls
      ensures controls == LoadDraft(old(controls), storage)
    {
      if storage.Saved? {
        var entries := storage.entries;
        ghost var page := controls;
        var pending := entries.Keys;
        while pending != {}
          invariant pending <= entries.Keys
          invariant |controls| == |page|
          invariant forall k | 0 <= k < |page| ::
            controls[k] == if page[k].name !in pending && Restorable(page, entries, k)
                           then page[k].(value := entries[page[k].name]) else page[k]
          decreases pending
        {
          var name :| name in pending;
          FirstNamedSeesNames(controls, page, name);
          var target := FirstNamed(controls, name);
          if target.Some? && controls[target.value].value == "" {
            var i := target.value;
            controls := controls[i := controls[i].(value := entries[name])];
          }
          pending := pending - {name};
        }
      }
    }

    /** `validateField(field)`: the verdict is shown on the field's group and returned. */
    method ValidateFieldAt(i: nat) returns (isValid: bool)
      requires Valid() && i < |controls|
      modifies this`groups
      ensures Valid()
      ensures isValid == FieldVerdict(controls[i]).valid
      ensures groups == old(groups)[i := GroupAfterValidation(controls[i], old(groups)[i])]
    {
      var errorMessage;
      isValid, errorMessage := ValidateField(controls[i]);
      groups := groups[i := UpdateFieldState(groups[i], isValid, errorMessage)];
    }

    /** `validateEmail(field)`: a failing, non-empty value is marked with the
        email message; anything else leaves the group as it is. */
    method ValidateEmailOnBlur(i: nat) returns (isValid: bool)
      requires Valid() && i < |controls|
      modifies this`groups
      ensures Valid()
      ensures isValid == Patterns.ValidateEmailFormat(controls[i].value)
      ensures groups == if !isValid && controls[i].value != ""
                        then old(groups)[i := UpdateFieldState(old(groups)[i], false, EmailMessage)]
                        else old(groups)
    {
      isValid := Patterns.ValidateEmailFormat(controls[i].value);
      if !isValid && controls[i].value != "" {
        groups := groups[i := UpdateFieldState(groups[i], false, EmailMessage)];
      }
    }

    /** The blur listeners, in the order they were registered. */
    method Blur(i: nat)
      requires Valid() && i < |controls|
      modifies this`groups
      ensures Valid()
      ensures groups == old(groups)[i := GroupAfterBlur(controls[i], old(groups)[i],
                                                        FirstWithId(controls, "email") == Some(i))]
    {
      if controls[i].required {
        var _ := ValidateFieldAt(i);
      }
      if FirstWithId(controls, "email") == Some(i) {
        var _ := ValidateEmailOnBlur(i);
      }
    }

    /** `saveFieldData`: a control with a name and a value is merged into the
        draft, which is then written; otherwise nothing happens, so emptying a
        field keeps its saved entry. */
    method SaveFieldData(i: nat)
      requires i < |controls|
      modifies this`formData, this`storage
      ensures var c := controls[i];
        if c.name != "" && c.value != ""
        then formData == old(formData)[c.name := c.value] && storage == Saved(formData)
        else formData == old(formData) && storage == old(storage)
    {
      var c := controls[i];
      if c.name != "" && c.value != "" {
        formData := formData[c.name := c.value];
        storage := Saved(formData);
      }
    }

    /** An input event: the new value, then the listeners in registration order:
        the error of a required field is cleared, the `phone` field is
        reformatted, and the (reformatted) value is saved. */
    method Input(i: nat, v: string)
      requires Valid() && i < |controls|
      modifies this`controls, this`groups, this`formData, this`storage
      ensures Valid()
      ensures controls == old(controls)[i := old(controls)[i].(value := PhoneInput(old(controls), i, v))]
      ensures groups == if old(controls)[i].required then old(groups)[i := ClearFieldError(old(groups)[i])] else old(groups)
      ensures var c, shown := old(controls)[i], PhoneInput(old(controls), i, v);
        if c.name != "" && shown != ""
        then formData == old(formData)[c.name := shown] && storage == Saved(formData)
        else formData == old(formData) && storage == old(storage)
    {
      ghost var before := controls;
      // The `phone` listener is bound once, to the control found by id; ids never change.
      var isPhoneField := FirstWithId(controls, "phone") == Some(i);
      controls := controls[i := controls[i].(value := v)];
      if controls[i].required {
        groups := groups[i := ClearFieldError(groups[i])];
      }
      if isPhoneField {
        var formatted := PhoneFormat.FormatPhoneNumber(controls[i].value);
        controls := controls[i := controls[i].(value := formatted)];
      }
      assert controls[i] == before[i].(value := PhoneInput(before, i, v));
      SaveFieldData(i);
    }

    /** `validateForm`: every required field is validated, none skipped, and the
        form passes exactly when all of them do. */
    method ValidateForm() returns (isFormValid: bool)
      requires Valid()
      modifies this`groups
      ensures Valid()
      ensures isFormValid == AllRequiredValid(controls)
      ensures groups == ValidatedGroups(controls, old(groups))
    {
      ghost var start := groups;
      isFormValid := true;
      var i := 0;
      while i < |controls|
        invariant 0 <= i <= |controls| == |groups| == |start|
        invariant Valid()
        invariant isFormValid == RequiredValidBefore(controls, i)
        invariant groups == ValidatedBefore(controls, start, i)
      {
        RequiredValidStep(controls, i);
        ValidatedStep(controls, start, i);
        if controls[i].required {
          var ok := ValidateFieldAt(i);
          isFormValid := isFormValid && ok;
        }
        assert groups == ValidatedBefore(controls, start, i + 1);
        i := i + 1;
      }
    }

    /** `setSubmissionState`: both buttons follow the one flag. */
    method SetSubmissionState(isSubmitting: bool)
      requires Valid()
      modifies this`submitLoading, this`submitDisabled, this`resetDisabled
      ensures Valid()
      ensures submitLoading == isSubmitting && submitDisabled == isSubmitting && resetDisabled == isSubmitting
    {
      if isSubmitting {
        submitLoading := true;
        submitDisabled := true;
        resetDisabled := true;
      } else {
        submitLoading := false;
        submitDisabled := false;
        resetDisabled := false;
      }
    }

    /** `submitForm`: buttons disabled, draft key removed, native submission invoked. */
    method SubmitForm()
      requires Valid()
      modifies this`submitLoading, this`submitDisabled, this`resetDisabled, this`storage, this`submitCalls
      ensures Valid()
      ensures submitLoading && submitDisabled && resetDisabled
      ensures storage == NoDraft && submitCalls == old(submitCalls) + 1
    {
      SetSubmissionState(true);
      storage := NoDraft;
      submitCalls := submitCalls + 1;
    }

    /** The submit event and the Ctrl/Cmd+Enter shortcut: validate, then submit
        only if the whole form passed. */
    method Submit()
      requires Valid()
      modifies this`groups, this`submitLoading, this`submitDisabled, this`resetDisabled,
               this`storage, this`submitCalls
      ensures Valid()
      ensures groups == ValidatedGroups(controls, old(groups))
      ensures AllRequiredValid(controls) ==>
        submitLoading && storage == NoDraft && submitCalls == old(submitCalls) + 1
      ensures !AllRequiredValid(controls) ==>
        submitLoading == old(submitLoading) && storage == old(storage) && submitCalls == old(submitCalls)
    {
      var ok := ValidateForm();
      if ok {
        SubmitForm();
      }
    }

    /** The keydown listener: Ctrl or Cmd with Enter triggers the submit path. */
    method KeyDown(commandHeld: bool, key: string)
      requires Valid()
      modifies this`groups, this`submitLoading, this`submitDisabled, this`resetDisabled,
               this`storage, this`submitCalls
      ensures Valid()
      ensures commandHeld && key == "Enter" ==>
        groups == ValidatedGroups(controls, old(groups))
      ensures commandHeld && key == "Enter" && AllRequiredValid(controls) ==>
        submitLoading && storage == NoDraft && submitCalls == old(submitCalls) + 1
      ensures commandHeld && key == "Enter" && !AllRequiredValid(controls) ==>
        submitLoading == old(submitLoading) && storage == old(storage) && submitCalls == old(submitCalls)
      ensures !(commandHeld && key == "Enter") ==>
        groups == old(groups) && submitCalls == old(submitCalls) && storage == old(storage)
        && submitLoading == old(submitLoading)
    {
      if commandHeld && key == "Enter" {
        Submit();
      }
    }

    /** The pageshow listener: coming back to the page from history re-enables the buttons. */
    method PageShow(fromHistory: bool)
      requires Valid()
      modifies this`submitLoading, this`submitDisabled, this`resetDisabled
      ensures Valid()
      ensures submitLoading == (old(submitLoading) && !fromHistory)
    {
      if fromHistory {
        SetSubmissionState(false);
      }
    }

    /** The reset loop over every group. */
    method ClearAllGroups()
      requires Valid()
      modifies this`groups
      ensures Valid()
      ensures groups == seq(|old(groups)|, _ => PlainGroup)
    {
      var i := 0;
      while i < |groups|
        invariant 0 <= i <= |groups| == |old(groups)|
        invariant forall k | 0 <= k < |groups| :: groups[k] == if k < i then PlainGroup else old(groups)[k]
      {
        groups := groups[i := ClearGroup(groups[i])];
        i := i + 1;
      }
    }

    /** The reset button: after the user confirms, `resetForm` restores the
        defaults, strips every group, removes the draft key and the priority
        colour. The in-memory `formData` is kept. */
    method Reset(confirmed: bool)
      requires Valid()
      modifies this`controls, this`groups, this`storage, this`priorityBorder
      ensures Valid()
      ensures formData == old(formData)
      ensures confirmed ==>
        controls == ResetValues(old(controls)) && groups == seq(|old(groups)|, _ => PlainGroup)
        && storage == NoDraft && priorityBorder == None
      ensures !confirmed ==>
        controls == old(controls) && groups == old(groups) && storage == old(storage)
        && priorityBorder == old(priorityBorder)
    {
      if confirmed {
        controls := ResetValues(controls);
        ClearAllGroups();
        storage := NoDraft;
        priorityBorder := None;
      }
    }

    /** Reset as evidently intended: the in-memory draft is discarded too, so
        that no later input can write pre-reset values back to storage. */
    method ResetDiscardingDraft(confirmed: bool)
      requires Valid()
      modifies this`controls, this`groups, this`storage, this`priorityBorder, this`formData
      ensures Valid()
      ensures confirmed ==>
        controls == ResetValues(old(controls)) && groups == seq(|old(groups)|, _ => PlainGroup)
        && storage == NoDraft && priorityBorder == None && formData == map[]
      ensures !confirmed ==>
        controls == old(controls) && groups == old(groups) && storage == old(storage)
        && priorityBorder == old(priorityBorder) && formData == old(formData)
    {
      Reset(confirmed);
      if confirmed {
        formData := map[];
      }
    }

    /** The change listeners: the `priority` select recolours its border; the
        `type` select replaces the prompt of an empty `description` field. */
    method Change(i: nat)
      requires Valid() && i < |controls|
      modifies this`priorityBorder, this`descriptionPlaceholder
      ensures Valid()
      ensures priorityBorder ==
        if FirstWithId(controls, "priority") == Some(i)
        then CaseTables.PriorityBorderColor(controls[i].value) else old(priorityBorder)
      ensures var d := FirstWithId(controls, "description");
        descriptionPlaceholder ==
          if FirstWithId(controls, "type") == Some(i) && d.Some? && controls[d.value].value == ""
          then CaseTables.CaseTypePlaceholder(controls[i].value) else old(descriptionPlaceholder)
    {
      if FirstWithId(controls, "priority") == Some(i) {
        priorityBorder := None;
        priorityBorder := CaseTables.PriorityBorderColor(controls[i].value);
      }
      if FirstWithId(controls, "type") == Some(i) {
        var d := FirstWithId(controls, "description");
        if d.Some? && controls[d.value].value == "" {
          descriptionPlaceholder := CaseTables.CaseTypePlaceholder(controls[i].value);
        }
      }
    }
  }

  /** A blank page with a required `subject` field and a required `name` field. */
  function SamplePage(): (r: seq<Control>)
    ensures |r| == 2 && FirstWithId(r, "phone") == None
  {
    [Control("subject", "subject", OtherType, true, "", ""),
     Control("name", "name", OtherType, true, "", "")]
  }

  /** A typed value is saved and comes back when the page is loaded again. */
  method DraftSurvivesReload() returns (restored: string)
    ensures restored == "Printer jam"
  {
    var form := new CaseFormController(SamplePage(), NoDraft, "");
    form.Input(0, "Printer jam");
    assert form.storage == Saved(map["subject" := "Printer jam"]);
    var again := new CaseFormController(SamplePage(), form.storage, "");
    assert Restorable(SamplePage(), map["subject" := "Printer jam"], 0);
    restored := again.controls[0].value;
  }

  /** After a confirmed reset, the next saved field writes the pre-reset subject
      back into storage together with the new value. */
  method StaleDraftAfterReset() returns (slot: DraftSlot)
    ensures slot == Saved(map["subject" := "Printer jam", "name" := "Ana"])
  {
    var form := new CaseFormController(SamplePage(), NoDraft, "");
    form.Input(0, "Printer jam");
    form.Reset(true);
    assert form.storage == NoDraft;
    form.Input(1, "Ana");
    slot := form.storage;
  }

  /** With the in-memory draft discarded on reset, only what was typed after
      the reset is saved. */
  method NoStaleDraftAfterCorrectedReset() returns (slot: DraftSlot)
    ensures slot == Saved(map["name" := "Ana"])
  {
    var form := new CaseFormController(SamplePage(), NoDraft, "");
    form.Input(0, "Printer jam");
    form.ResetDiscardingDraft(true);
    form.Input(1, "Ana");
    slot := form.storage;
  }
  /** After a reload restores the subject, saving the next field replaces the
      stored draft with that field alone: a second reload loses the subject. */
  method StoredDraftLostAfterReload() returns (slot: DraftSlot)
    ensures slot == Saved(map["name" := "Ana"])
  {
    var form := new CaseFormController(SamplePage(), Saved(map["subject" := "Printer jam"]), "");
    form.Input(1, "Ana");
    slot := form.storage;
  }

  /** With the in-memory draft seeded from storage, the stored draft keeps the
      subject and gains the name. */
  method StoredDraftKeptAfterReload() returns (slot: DraftSlot)
    ensures slot == Saved(map["subject" := "Printer jam", "name" := "Ana"])
  {
    var form := new CaseFormController.WithSeededDraft(SamplePage(), Saved(map["subject" := "Printer jam"]), "");
    form.Input(1, "Ana");
    slot := form.storage;
  }
}
