# Case and lead form validation core

A Dafny model of the logic behind two browser forms of a web-to-lead site.

**The support-case form** (`newCaseForm.js`) does five things:
- It validates each required field on blur with a required/trim rule and an email rule.
- It shows the verdict on the field's `.form-group` as `error`/`success` classes and an error message.
- It reformats the phone field into `+62 ` form while the user types.
- It keeps a draft of the typed values in local storage and restores it into empty fields on load.
- It gates the native submission, from the submit button or Ctrl/Cmd+Enter, on every required field passing. It also colours the priority selector and picks a description prompt per case type.

**The lead form** (`newLeadForm.js`) does four things:
- It marks blank required fields with `error` and refuses to submit while any exists.
- It sets custom-validity messages on email and tel fields while the user types.
- It clears those styles on load and on reset.
- It rebuilds the state selector from a country → states table when the country changes.

**How the page is represented.**
- A page is a sequence of `Control` records: name, id, type, `required`, value and default value.
- `getElementById` and `querySelector('[name=…]')` are the first match in document order.
- Each case-form control has its own `FormGroup` record.
- Each lead-form control carries its `error` class and custom-validity message.
- Local storage is one `DraftSlot`. It is either absent, text that `JSON.parse` rejects, or a parsed map of names to values.
- The user's answer to `confirm()` is a boolean parameter.
- `form.submit()` is a counter.

**How the two regular expressions are modelled.** Each is given twice:
- as a ghost definition of what a match of the pattern is;
- as the predicate the forms evaluate;
- with a lemma that the two agree on every string.

**How the event handlers are modelled.** Handlers that update state step by step are methods of the classes `CaseForm.CaseFormController` and `LeadForm.LeadFormController`. Each method's ensures gives the new state in terms of the old one, through a specification function where the update is more than a field assignment.

**Behaviour worth knowing:**
- The comment at newCaseForm.js:205 says the `+62` prefix is added only if not present. Lines 213-215 nevertheless rewrite every value whose digits start with `62`. So an already prefixed `"+6281234567"` becomes `"+62 81234567"` (`AlreadyPrefixedExample` shows this on `+62812`).
- The state selector is rebuilt with the `Select state` placeholder first (newLeadForm.js:263) and then one option per entry (newLeadForm.js:266-271). Singapore's entry list holds one state (newLeadForm.js:248-250), so its selector holds two options.
- The Ctrl/Cmd+Enter listener (newCaseForm.js:400-407) runs the validation gate and `submitForm` without checking whether a submission is already in progress.
- `formData` starts as `{}` on every load (newCaseForm.js:93). Each saved field is written into it, and the whole of it replaces the stored draft (newCaseForm.js:106-111). A draft restored by `loadSavedData` is never copied into it (see Findings).

## Model

| member | source | states |
|---|---|---|
| Text.TrimEmptyIffBlank | newCaseForm.js:161 | a value trims to the empty string exactly when it is made only of JavaScript whitespace |
| Text.DigitsAreDigits | newCaseForm.js:203 | stripping non-digits leaves only digits and never lengthens the value |
| Text.DigitsOfDigits | newCaseForm.js:203 | stripping non-digits from a digit string leaves it unchanged |
| Text.DigitsOfNonDigits | newCaseForm.js:203 | a value without digits is stripped to the empty string |
| Controls.FirstWithId | newCaseForm.js:49 | the lookup by id returns a control with that id and no earlier control has it; no result means no control has it |
| Controls.FirstNamed | newCaseForm.js:119 | the lookup by name returns the first control carrying that non-empty name, or none when no control carries it |
| Patterns.EmailFormatMatches | newCaseForm.js:195 | every string the email test accepts matches `^[^\s@]+@[^\s@]+\.[^\s@]+$` |
| Patterns.EmailMatchAccepted | newCaseForm.js:195 | every string matching the email pattern passes the email test |
| Patterns.EmailFormatIsPattern | newCaseForm.js:195 | the email test accepts exactly the strings matching `^[^\s@]+@[^\s@]+\.[^\s@]+$` |
| Patterns.EmailAcceptedIff | newCaseForm.js:195 | accepted iff there is no whitespace, exactly one `@` that is not first, and a `.` after it with a character on each side |
| Patterns.EmailAcceptedNotBlank | newCaseForm.js:161-169 | an accepted address is never blank, so the email rule cannot accept what the required rule refused |
| Patterns.EmailAcceptedAt | newCaseForm.js:195 | a string without whitespace, with a single `@` not in first position and a `.` after it with a character on each side, is accepted |
| Patterns.EmailAccepted | newCaseForm.js:195 | `user@example.com` is accepted |
| Patterns.EmailRejected | newCaseForm.js:195 | `user@@example` and the empty string are rejected |
| Patterns.PhoneIsPattern | newLeadForm.js:33 | the phone test accepts exactly the strings matching `^[\+]?[0-9\s\-\(\)]{10,}$` |
| Patterns.PhoneAccepted | newLeadForm.js:33 | `+6281234567` and `(021) 555-01` are accepted |
| Patterns.PhoneRefused | newLeadForm.js:33 | `0812345` (too short) and `++6281234567` (second `+`) are refused |
| Patterns.PhoneAcceptsSpaces | newLeadForm.js:33 | ten spaces pass the phone test, since the class includes all of `\s` |
| PhoneFormat.FormatPhoneNumber | newCaseForm.js:202-218 | the stepwise rewrite of the local value ends in the formatter's value by case |
| PhoneFormat.FormatShape | newCaseForm.js:203-217 | the field ends up holding either digits only or `+62 ` followed by digits only |
| PhoneFormat.NationalZeroBecomesCountryCode | newCaseForm.js:206-215 | typed without `+`, digits starting with `0` become `+62 ` and the digits after that `0` |
| PhoneFormat.PlusKeepsDigits | newCaseForm.js:206-215 | typed with a leading `+`, digits not starting with 62 are kept as they are, a leading `0` included |
| PhoneFormat.CountryCodeGetsPrefix | newCaseForm.js:213-215 | digits starting with 62 are shown as `+62 ` and the rest, whether or not a `+` was typed |
| PhoneFormat.NoDoublePrefix | newCaseForm.js:205-215 | a value `+62 ` followed by digits is left unchanged by a second pass |
| PhoneFormat.ReformatStableIff | newCaseForm.js:202-218 | a second pass changes the field exactly when the first left a bare digit string starting with `0` |
| PhoneFormat.LeadingZeroOnlyAfterPlus | newCaseForm.js:206-210 | the result starts with `0` exactly when the input started with `+` and its digits with `0` |
| PhoneFormat.PlusBeforeNationalKeepsZero | newCaseForm.js:203-210 | digits starting with `0` typed after a `+` come back as the bare digits, the `0` kept |
| PhoneFormat.NationalExample | newCaseForm.js:203-215 | `0812-34` becomes `+62 81234` |
| PhoneFormat.AlreadyPrefixedExample | newCaseForm.js:213-215 | `+62812` becomes `+62 812`: a typed `+62` is not left as it was |
| PhoneFormat.PlusZeroExample | newCaseForm.js:202-218 | `+0812` becomes `0812`, which the next input event turns into `+62 812` |
| CaseTables.PriorityBorderColor | newCaseForm.js:349-367 | High, Medium and Low get a `#rrggbb` border colour; every other value leaves it unset |
| CaseTables.PriorityColorsDistinct | newCaseForm.js:356-366 | the three priorities get three different colours |
| CaseTables.CaseTypePlaceholder | newCaseForm.js:372-395 | each value gets a non-empty prompt; it is the general prompt exactly for values other than the four known case types |
| CaseTables.CaseTypePlaceholdersDistinct | newCaseForm.js:378-390 | the four known case types get four different prompts |
| CaseForm.FieldVerdictMeaning | newCaseForm.js:155-175 | valid iff not (required and blank) and, for a non-empty email field, the email test passes; the message is empty iff valid and otherwise names the rule that failed, the email rule taking precedence |
| CaseForm.ValidateField | newCaseForm.js:157-170 | the two locals, set rule by rule, end as the field's verdict |
| CaseForm.RequiredBlankRefused | newCaseForm.js:161-164 | a required field that trims to empty is invalid, with the required message unless the email rule applies |
| CaseForm.EmailRule | newCaseForm.js:167-170 | a non-empty email field is valid exactly when the email test passes; an empty one only by the required rule |
| CaseForm.UpdateFieldState | newCaseForm.js:223-244 | exactly one of `error`/`success` is set; from a group with at most one message, a message is present iff invalid with a non-empty message, and the group stays well formed |
| CaseForm.ClearFieldError | newCaseForm.js:249-257 | `error` is removed, `success` kept, and no message is left; a well-formed group stays well formed |
| CaseForm.ClearGroup | newCaseForm.js:322-328 | a group the script produced loses both classes and its message |
| CaseForm.RequiredEmailBlurIsValidation | newCaseForm.js:36-54 | on a required email field, the second email check after blur shows exactly what the field validation showed |
| CaseForm.ValidationMarksEveryRequiredField | newCaseForm.js:262-270 | after form validation every required field shows `error` iff it fails and `success` iff it passes |
| CaseForm.OneFailingFieldOneError | newCaseForm.js:262-270 | with one failing required field, the form fails and that is the only required field showing `error` |
| CaseForm.RestoreDraft | newCaseForm.js:113-123 | only values change; a non-empty value is never overwritten; the first control carrying each saved name gets the saved value when that control is empty, and a later control of the same name is never filled; every other control is unchanged |
| CaseForm.LoadDraft | newCaseForm.js:114-127 | no draft, and a draft that fails to parse, leave the page unchanged |
| CaseForm.CaseFormController.constructor | newCaseForm.js:92-97 | a fresh page has plain groups and idle buttons, holds the draft applied, and starts with an empty in-memory draft |
| CaseForm.CaseFormController.LoadSavedData | newCaseForm.js:113-128 | the loop over the saved names ends with the page the draft specifies |
| CaseForm.CaseFormController.ValidateFieldAt | newCaseForm.js:155-175 | returns the field's verdict and updates only that field's group |
| CaseForm.CaseFormController.ValidateEmailOnBlur | newCaseForm.js:180-189 | returns the email test; a failing non-empty value marks the group with the email message, otherwise nothing changes |
| CaseForm.CaseFormController.Blur | newCaseForm.js:36-54 | a required field's group is validated, and then the `email` field is email-checked |
| CaseForm.CaseFormController.SaveFieldData | newCaseForm.js:106-111 | a named, non-empty value is merged into the in-memory draft, which is stored; otherwise storage and draft are unchanged |
| CaseForm.CaseFormController.Input | newCaseForm.js:42-62 | the new value is stored (reformatted for the `phone` field), a required field's error is cleared, and the draft saves the shown value |
| CaseForm.CaseFormController.ValidateForm | newCaseForm.js:262-284 | every required field is validated, none skipped, and the result is whether all pass |
| CaseForm.CaseFormController.SetSubmissionState | newCaseForm.js:303-313 | the loading class and both buttons' disabled flags follow the one submitting flag |
| CaseForm.CaseFormController.SubmitForm | newCaseForm.js:289-298 | the buttons are disabled, the draft key is removed and the form is submitted once |
| CaseForm.CaseFormController.Submit | newCaseForm.js:69-75 | submission happens exactly when every required field passes; otherwise only the groups change |
| CaseForm.CaseFormController.KeyDown | newCaseForm.js:400-407 | Ctrl/Cmd+Enter validates every required field; if all pass, both buttons are disabled, the draft key is removed and the form is submitted once; otherwise the buttons, storage and submission count stay as they were; any other key changes nothing |
| CaseForm.CaseFormController.PageShow | newCaseForm.js:421-426 | returning from history re-enables the form; any other page show leaves the flag as it was |
| CaseForm.CaseFormController.ClearAllGroups | newCaseForm.js:322-328 | every group ends plain |
| CaseForm.CaseFormController.Reset | newCaseForm.js:318-344 | after confirmation: values back to defaults, all groups plain, draft key removed, priority colour unset, in-memory draft kept; without confirmation nothing changes |
| CaseForm.CaseFormController.ResetDiscardingDraft | newCaseForm.js:318-344 | the reset as intended: the in-memory draft is emptied as well |
| CaseForm.CaseFormController.WithSeededDraft | newCaseForm.js:92-97 | binding as intended: the in-memory draft starts from the stored one |
| CaseForm.CaseFormController.Change | newCaseForm.js:136-149 | a `priority` change sets the border colour from its value; a `type` change sets the prompt of an empty `description` field; nothing else changes |
| CaseForm.DraftSurvivesReload | newCaseForm.js:106-123 | a typed subject is stored and restored into the empty field on the next load |
| CaseForm.StaleDraftAfterReset | newCaseForm.js:318-331 | after typing a subject, resetting and typing a name, storage holds both the pre-reset subject and the name |
| CaseForm.NoStaleDraftAfterCorrectedReset | newCaseForm.js:318-331 | with the corrected reset, storage holds only the name |
| CaseForm.StoredDraftLostAfterReload | newCaseForm.js:93-111 | after a reload restores a subject, typing a name leaves storage holding the name alone |
| CaseForm.StoredDraftKeptAfterReload | newCaseForm.js:93-111 | with the in-memory draft seeded from storage, storage keeps the subject and gains the name |
| LeadForm.FilledIffNoRequiredError | newLeadForm.js:13-22 | after marking, the check passed exactly when no required field shows `error` |
| LeadForm.MarkRequiredIdempotent | newLeadForm.js:13-20 | validating twice marks the fields as validating once |
| LeadForm.InputValidity | newLeadForm.js:41-55 | a non-empty email value's message is empty iff the email test passes, and otherwise the email message; the same for tel with the phone test; any other value keeps its message |
| LeadForm.TelValidityFollowsPattern | newLeadForm.js:49-55 | a non-empty tel value's message is cleared exactly when it matches the phone pattern |
| LeadForm.EmailValidityFollowsPattern | newLeadForm.js:41-47 | a non-empty email value's message is cleared exactly when it matches the email pattern |
| LeadForm.StateOptions | newLeadForm.js:260 | a country gets entries exactly when the table has it |
| LeadForm.TableCountries | newLeadForm.js:201-256 | the table covers ID, MY, SG and TH and no other code |
| LeadForm.SingaporeSelector | newLeadForm.js:248-250 | SG gives the placeholder followed by exactly one option, SG Singapore |
| LeadForm.UnknownCountrySelector | newLeadForm.js:260-263 | a code missing from the table gives the placeholder alone |
| LeadForm.IndonesiaKeepsDuplicateCode | newLeadForm.js:208-214 | ID gives 39 options, and both Jambi and Jawa Barat are offered with code `JB` |
| LeadForm.EntriesHaveValues | newLeadForm.js:201-256 | no table entry has the placeholder's empty value |
| LeadForm.LeadFormController.constructor | newLeadForm.js:276-277 | with a `country_code` element, every field starts without `error` or message; without one the fields are as found |
| LeadForm.LeadFormController.ValidateForm | newLeadForm.js:9-23 | every required field is marked `error` iff blank, and the result is whether none is blank |
| LeadForm.LeadFormController.Input | newLeadForm.js:38-56 | the field takes the new value and its custom-validity message as the input rule gives it; nothing else changes |
| LeadForm.LeadFormController.ClearValidationStyles | newLeadForm.js:100-106 | every field loses `error` and its message and keeps its value |
| LeadForm.LeadFormController.Submit | newLeadForm.js:59-89 | a failing check returns before any submission; a passing one disables the button and submits once |
| LeadForm.LeadFormController.Reset | newLeadForm.js:92-97 | after confirmation: values back to defaults and validation styles cleared; without confirmation nothing changes |
| LeadForm.LeadFormController.CountryChange | newLeadForm.js:258-274 | the state selector becomes the placeholder and the country's entries in table order, the placeholder selected, disabled iff no entries |
| LeadForm.LeadFormController.FillStateSelector | newLeadForm.js:263-271 | the option list ends as the placeholder followed by the given entries, in order |
| LeadForm.SingaporeScenario | newLeadForm.js:258-274 | choosing SG on a page with both selectors offers one state and enables the selector |

## Left out

- The DOM itself is not modelled: `closest`, class lists, element creation, `scrollIntoView`, `focus` and the loading/text spans of the buttons. Controls, groups and flags are records and fields instead.
- Every case-form control has its own `.form-group`. Groups shared by several controls or holding none are not modelled.
- A `.form-group` holds at most one message here. A group holding several messages is stated only for what the code removes, the first one.
- `localStorage`, `JSON.stringify` and `JSON.parse` are foreign calls. Storage is one slot, and anything that does not parse to a map of names to strings is `Malformed`. Drafts holding non-string values are not modelled.
- JavaScript object-property quirks are not modelled: names such as `__proto__` and inherited keys of the draft object and of the `stateOptions` table.
- Selector syntax errors from names containing quotes are not modelled either.
- `confirm()` answers are inputs.
- `showNotification` is pure presentation and timers: markup, inline styles, keyframes and auto-dismiss.
- The lead form's `setTimeout` success path runs after two seconds. It resets the form and re-enables the button. It is asynchronous and is not modelled.
- Native behaviour of `form.submit()` and `form.reset()` is not modelled: the network, select elements resetting to a selected option, and reset not firing change events.
- Native constraint validation is not modelled: custom validity blocking a native submission, and `required` styling by the browser.
- Escape blurring the active element is covered only as a call to `Blur`.
- How `pageshow` detects history navigation is a boolean input.
- The duplicate `validateEmailFormat` in the export block at newCaseForm.js:430-437 is the same predicate, `Patterns.ValidateEmailFormat`.
- Both forms' email tests use that one predicate.
- The lead form's `validateEmail`/`validatePhone` and the case form's `validateEmailFormat` have no rows of their own, because each is a single pattern test. `Patterns.ValidateEmailFormat` and `Patterns.ValidatePhone` model them, and the rows above state what they accept.
- CaseForm.CaseFormController.constructor: binds to a page that has the form and both buttons. In the source a page without `resetBtn` throws at newCaseForm.js:82. `initializeForm` then stops before `addAutoSave` and `addDynamicInteractions`, and the keydown and pageshow listeners (newCaseForm.js:400, 421) are never registered. A page that is missing an element is not modelled.
- LeadForm.LeadFormController.CountryChange: the user's choice of country is an earlier `Input` on the `country_code` control. A page missing either selector gets no state rebuild; in the source such a page throws at the listener registration or in the handler.

## Findings

| source | as written | input that shows it | evidently intended | confidence | as-written member | corrected member |
|---|---|---|---|---|---|---|
| newCaseForm.js:318-331 | reset removes the stored draft but keeps the in-memory `formData`, so the next saved field writes the pre-reset values back to storage | type subject "Printer jam", reset and confirm, type name "Ana": storage holds both subject and name | reset discards the draft entirely; only values typed after it are stored | medium, not executed | CaseForm.StaleDraftAfterReset | CaseForm.CaseFormController.ResetDiscardingDraft |
| newCaseForm.js:93-111 | the in-memory `formData` starts empty on every load, so the first saved field replaces the stored draft instead of extending it | load with a stored subject "Printer jam", type name "Ana": storage holds only the name, and a second reload loses the subject | saving extends the stored draft: `loadSavedData` (newCaseForm.js:113-123) restores the draft so that it survives a reload, and dropping the restored values on the next keystroke defeats that | medium, not executed | CaseForm.StoredDraftLostAfterReload | CaseForm.CaseFormController.WithSeededDraft |
