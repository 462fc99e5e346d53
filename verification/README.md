# Mobile top-up wizard: a Dafny model

The page `script.js` drives a four-step wizard for requesting a mobile
balance transfer in Cuba. The user picks an amount, then a provider, then
types their own phone number. A button then opens a WhatsApp chat with the
provider, pre-filled with a Spanish request message.

This project models the wizard's core:

- the state object (`amount`, `provider`, `userPhone`, `step`) and the
  sections the handlers show and hide;
- the five event handlers: preset amount, custom-amount toggle,
  custom-amount input, provider click and phone input;
- `updateUI`, which recomputes the summary box, the button and the step;
- `updateStep`, which switches the progress indicator's steps on and off;
- the phone helpers `sanitizePhone` and `validateCubanPhone`;
- the submit handler's message and link;
- the rule by which `loadState` restores the saved record at start-up.

The modules are:

- `JsText`: JavaScript string values and their truthiness, a character
  filter (what `replace(/[^…]/g, '')` computes), `trim` with ECMAScript's
  white space.
- `Phone`: `sanitizePhone` and `validateCubanPhone`. The pattern
  `^(53)?5\d{7}$` is written as a predicate.
- `Amount`: the amount a preset click or the custom box produces.
- `UriComponent`: `encodeURIComponent` as UTF-8 percent-encoding over its
  unreserved set (section 2.1 of RFC 3986, UTF-8 per RFC 3629). Its inverse
  is the decoder, and `decode(encode(s)) == s` is proved.
- `DeepLink`: the message template, the link, and the three outcomes of a
  click on the button. Parsers read the provider digits, the phone and the
  amount back out of a link.
- `Wizard`: the state machine as values. `Form` is one state of the page.
  There is one transition function per handler, `updateUI`, and the
  start-up rule. `Consistent` is the invariant every handler keeps.
- `WizardController`: the class `TopUpWizard`. Its fields are the state,
  and a `progress` array holds the indicator's active flags. Its methods are
  the handlers, `updateUI`, `updateStep` (a loop over the array) and
  `loadState`. Each handler is proved to produce exactly the state of the
  matching `Wizard` function, and to keep `Consistent` and the indicator in
  step with `step`.

JavaScript's `null` and strings are the datatype `JsStr`. `Truthy` is
JavaScript truthiness, so `null` and `''` are both falsy. The quirks of the
source are kept as written:

- opening the custom box sets the amount to `''` with step 2;
- `updateUI` never moves the step to 1;
- a change of amount keeps the provider and the phone;
- `+` survives sanitising anywhere in the text;
- a provider click makes no availability check;
- `init` runs `updateUI` and then sets step 1, so a restored amount does
  not show in the indicator (`Wizard.StartupNotSettled`).

## Model

| member | source | states |
|---|---|---|
| Phone.SanitizePhone | script.js:49 | the result holds only digits and `+` |
| Phone.SanitizePhoneSpec | script.js:49 | the sanitised phone holds only digits and `+`; it is the input with characters deleted (order kept); every digit and `+` of the input is kept as often as it occurs, nothing else is; sanitising twice equals sanitising once |
| Phone.SanitizePhoneFixpoint | script.js:49 | a text is unchanged by sanitising exactly when it consists of digits and `+` |
| Phone.SanitizeKeepsInnerPlus | script.js:49 | a `+` in the middle is kept: "53+5 123" becomes "53+5123" |
| Phone.ValidateCubanPhone | script.js:52-55 | `validateCubanPhone`: the pattern `^(53)?5\d{7}$` tested on the phone's digits; a valid phone has 8 or 10 digits. Its full meaning is Phone.ValidateCubanPhoneSpec |
| Phone.ValidateCubanPhoneSpec | script.js:52-55 | a phone is valid exactly when its digits are 8 starting with 5, or 10 starting with 535 |
| Phone.ValidateIgnoresNonDigit | script.js:52-55 | inserting a non-digit anywhere never changes the verdict |
| Phone.ValidateAfterSanitize | script.js:49-55 | validating the sanitised text gives the same verdict as validating the raw text |
| Phone.ValidPhoneIsLong | script.js:52-55 | a valid phone has at least 8 characters, so it is never empty |
| Phone.AcceptsSubscriberNumber | script.js:52-55 | "51234567" is accepted |
| Phone.AcceptsCountryCode | script.js:52-55 | "5351234567", with the country code, is accepted |
| Phone.AcceptsSpacedNumber | script.js:52-55 | "53 51234567" is accepted: the space is dropped before matching |
| Phone.RejectsWrongLeadingDigit | script.js:52-55 | "41234567" is rejected |
| Phone.RejectsShortNumber | script.js:52-55 | "5123456", seven digits, is rejected |
| Phone.RejectsWrongDigitAfterCode | script.js:52-55 | "5341234567" is rejected |
| Phone.SanitizeIgnoresOther | script.js:49 | inserting a character other than a digit or `+` anywhere never changes the sanitised phone |
| Phone.SanitizeSpacedNumber | script.js:49 | "53 5 1234567" becomes "5351234567" |
| JsText.Trim | script.js:195 | `trim`: neither end of the result is white space; the result is empty exactly when the text is all white space; a text without white space is returned unchanged |
| JsText.TrimIsInfix | script.js:195 | `trim` returns a contiguous piece of the text, and everything before and after that piece is white space |
| JsText.DigitsOnly | script.js:53 | `replace(/\D/g, '')`: the result holds only digits; KeepIsSubsequence, KeepCounts and KeepFixpoint say it is exactly the input's digits in order |
| JsText.KeepIsSubsequence | script.js:49 | a global `replace` of a character class by `''` only deletes characters, keeping the order of the rest |
| JsText.KeepCounts | script.js:49 | a kept character occurs in the result as often as in the input; a dropped one never occurs |
| JsText.KeepFixpoint | script.js:49 | the replacement changes nothing exactly when every character is kept |
| JsText.KeepIdempotent | script.js:49 | applying the replacement twice equals applying it once |
| JsText.KeepNarrower | script.js:49-53 | deleting non-digits after deleting everything but digits and `+` equals deleting non-digits directly |
| Amount.PresetAmount | script.js:160 | a preset click's amount is always truthy |
| Amount.CustomAmountRule | script.js:195-196 | the custom amount is set exactly when the trimmed text is a decimal literal, not negative, with a non-zero digit; it is then that text plus " CUP", and otherwise `null` |
| Amount.IsPositiveNumber | script.js:196 | `!isNaN(val) && Number(val) > 0` on a decimal literal: true exactly when the text is a decimal literal, not negative, with a non-zero digit |
| Amount.DigitsValuePositive | script.js:196 | a digit string denotes a number above zero exactly when one of its digits is not 0 |
| Amount.CustomAmount | script.js:195-196 | the custom amount is `null` or a truthy string, never `''` |
| Amount.TrimPadded | script.js:195 | `trim` of " 250 " is the three inner characters |
| Amount.CustomAmountTrims | script.js:195-196 | " 250 " gives "250 CUP" |
| Amount.CustomAmountRefusesZero | script.js:196 | "0.00" gives `null` |
| Amount.CustomAmountRefusesNegative | script.js:196 | "-5" gives `null` |
| Amount.CustomAmountRefusesText | script.js:196 | "12abc" gives `null` |
| UriComponent.EncodeURIComponent | script.js:252 | the encoded text is at least as long as the input and holds only `%` and unreserved characters |
| UriComponent.Utf8RoundTrip | script.js:252 | the UTF-8 bytes of every scalar value decode back to it, and the lead byte announces their number |
| UriComponent.DecodeEncode | script.js:252 | decoding the encoded message gives back the message |
| UriComponent.EncodeInjective | script.js:252 | two different messages never encode to the same text |
| DeepLink.Message | script.js:250 | the message's length is the template's plus the phone's and the amount's |
| DeepLink.WhatsAppUrl | script.js:251-252 | the link starts with `https://wa.me/` followed by the provider's digits; DeepLink.ParseWhatsAppUrl reads its parts back |
| DeepLink.Submit | script.js:240-252 | the submit handler: a link opens only with amount, provider and a valid phone, and an invalid phone is reported only when the phone is non-empty; DeepLink.SubmitOutcomes gives each outcome as an if-and-only-if |
| DeepLink.ParseUrlParts | script.js:252 | a link whose path has no `?` reads back as that path and the decoded `text` parameter, and as nothing when the parameter does not decode |
| DeepLink.ParseWhatsAppUrl | script.js:251-252 | the link is `https://wa.me/` + the provider's digits + `?text=` + the encoded message; reading it back gives exactly the provider's digits and the message |
| DeepLink.ParseBuiltMessage | script.js:250 | the message built from a phone of digits and `+` gives back that phone and the amount |
| DeepLink.SubmitOutcomes | script.js:241-252 | a click does nothing exactly when amount, provider or phone is empty; it reports an invalid phone exactly when all three are set and the phone fails the pattern; it opens a link exactly when amount and provider are set and the phone is valid |
| DeepLink.SubmitLinkContents | script.js:241-252 | for a phone made of digits and `+`, as every phone the phone handler stores, an opened link leads to the provider's digits and its message gives back the phone and the amount. A phone restored unsanitised by `loadState` (such as "53 51234567") is outside this lemma |
| DeepLink.ProviderPathExample | script.js:251 | the provider "+5355551234" becomes the path "5355551234" |
| Wizard.LeadingTrue | script.js:128-134 | the count `n` of leading filled fields: the first `n` fields are filled and, when there is one, field `n` is not |
| Wizard.RefreshedStepRule | script.js:128-134 | with an amount, `updateUI` sets the step to one more than the number of leading filled fields, so 2 to 4; without one it keeps the step the handler set |
| Wizard.AfterUpdateUI | script.js:114-134 | `updateUI` changes only the summary, the button and the step; the summary and the button then follow the fields, and the step either stays or becomes 2, 3 or 4. Wizard.RefreshedStepRule gives the step |
| Wizard.AfterPreset | script.js:156-165 | a preset click sets a truthy amount, shows the provider section, and keeps the provider, the phone and the custom box. Wizard.PresetRule gives the exact values |
| Wizard.AfterCustomToggle | script.js:177-191 | the custom option flips the custom box, hides the provider section, and keeps the provider and the phone. Wizard.CustomToggleRule gives both cases |
| Wizard.AfterCustomInput | script.js:194-200 | the amount becomes the custom amount of the text, the provider section follows it, and the provider, the phone and the custom box are kept. Wizard.CustomInputRule gives the values |
| Wizard.AfterProvider | script.js:203-213 | a provider click stores the value, shows the phone section, and keeps the amount and the phone. Wizard.ProviderRule gives the step |
| Wizard.AfterPhoneInput | script.js:225-237 | the phone becomes the sanitised text, and the amount, the provider and the custom box are kept. Wizard.PhoneInputRule gives the button |
| Wizard.Rehydrate | script.js:92-110 | `loadState` sets the amount to the saved amount when that is truthy and the phone to the saved phone when that is truthy; a missing, unreadable or falsy value leaves the field as it was; nothing else changes |
| Wizard.SavedRecord | script.js:80-89 | the record `saveState` writes holds the amount and the phone as they are, never the provider |
| Wizard.SaveThenLoad | script.js:80-110 | loading a saved record into any state restores the saved amount when truthy and the saved phone when non-empty, and changes nothing else |
| Wizard.Startup | script.js:314-316 | after `init` the step is 1, no provider is chosen, the button is disabled, and the provider, phone and custom sections are hidden. Wizard.StartupConsistent gives the invariant |
| Wizard.UpdateUIKeepsConsistent | script.js:114-134 | `updateUI` turns any state a handler leaves before calling it (step in 1..4, step 4 and a shown provider section only with an amount, `''` only with the custom box open) into a consistent one with the step settled |
| Wizard.ApplyKeepsConsistent | script.js:114-237 | every handler keeps the invariant: step in 1..4; summary shown iff amount and provider are set; button enabled iff amount, provider and a valid phone; step 4 iff all three are filled; provider section shown only with an amount; the amount `''` only while the custom box is open. The step is then settled |
| Wizard.RunKeepsConsistent | script.js:114-237 | any sequence of user actions keeps the invariant, and after at least one the step is settled |
| Wizard.StartupConsistent | script.js:314-316 | the page starts on step 1 in a consistent state, whatever the saved record holds |
| Wizard.StartupAfterSave | script.js:92-110 | reloading after a save restores a truthy amount and the phone, never the provider; the step is 1 and the button is disabled |
| Wizard.StartupNotSettled | script.js:314-316 | after a restored amount the indicator still shows step 1, not 2 |
| Wizard.AmountEventsKeepSelection | script.js:156-200 | choosing, opening or typing an amount never changes the provider or the phone |
| Wizard.PresetRule | script.js:156-165 | a preset click sets the amount to the value plus " CUP", shows the provider section, keeps provider and phone, and settles the step |
| Wizard.CustomToggleRule | script.js:177-191 | closing the custom box gives amount `null` and step 1; opening it gives amount `''` and step 2; both hide the provider section and keep provider and phone |
| Wizard.CustomInputRule | script.js:194-200 | a trimmed positive number becomes the amount plus " CUP" with the step settled, anything else gives `null` and step 1; the provider section follows the amount; provider and phone are kept |
| Wizard.ProviderRule | script.js:203-213 | a provider click stores the option's value unchecked and shows the phone section; with an amount the step settles, without one it is 3 |
| Wizard.PhoneInputRule | script.js:225-237 | the phone is stored sanitised; the button is then enabled iff amount and provider are set and the raw text is valid |
| Wizard.SubmitEnabledAtLastStep | script.js:121-134 | an enabled button is only seen on step 4 |
| Wizard.ButtonMatchesSubmit | script.js:121-125 | the button is enabled exactly when a click on it opens a link |
| Wizard.CompleteSession | script.js:156-237 | a preset, a provider and a valid phone from a fresh page give step 4, an enabled button, the amount plus " CUP" and the sanitised phone |
| Wizard.SessionLink | script.js:240-252 | the click ending such a session opens the link to the provider's digits, carrying the sanitised phone and the amount |
| Wizard.WalkThrough | script.js:156-252 | preset 100, provider "+5355551234" and phone "53 5 1234567" give step 4, an enabled button and the phone "5351234567" |
| WizardController.TopUpWizard.constructor | script.js:141-316 | start-up ends in the state `Startup` describes, with the invariant and the indicator on step 1 |
| WizardController.TopUpWizard.LoadState | script.js:92-110 | a saved amount or phone is restored only when truthy; the provider never is |
| WizardController.TopUpWizard.UpdateStep | script.js:68-77 | the step becomes `s` and indicator `i` (from 0) is active iff `i + 1 <= s`; no other field changes |
| WizardController.TopUpWizard.UpdateUI | script.js:114-138 | the new state is `updateUI`'s; with an amount the indicator shows the new step, without one it is untouched |
| WizardController.TopUpWizard.OnPresetClick | script.js:156-165 | the new state is `AfterPreset` of the old; the invariant and the indicator are kept |
| WizardController.TopUpWizard.OnCustomToggle | script.js:177-191 | the new state is `AfterCustomToggle` of the old; the invariant and the indicator are kept |
| WizardController.TopUpWizard.OnCustomInput | script.js:194-200 | the new state is `AfterCustomInput` of the old; the invariant and the indicator are kept |
| WizardController.TopUpWizard.OnProviderClick | script.js:203-213 | the new state is `AfterProvider` of the old; the invariant and the indicator are kept |
| WizardController.TopUpWizard.OnPhoneInput | script.js:225-237 | the new state is `AfterPhoneInput` of the old; the error border is shown exactly for a non-empty phone that fails the pattern |
| WizardController.TopUpWizard.OnSubmit | script.js:240-252 | the click's outcome is `Submit` of the fields, and a link opens exactly when the form allows submitting |

## Left out

- Notifications, focus, CSS classes other than the indicator's and the summary's, and the `selected` marks on options: display only.
- Keyboard forwarding of Enter and Space to a click: it runs the same click handler.
- The promotion banner, its timer and its `Math.random` gating: timers, randomness and display only.
- The storage and JSON I/O of `saveState` and `loadState`. What the storage held is a parameter (`Stored`). Values other than strings and `null` in a tampered record are not modelled.
- `window.open`, the modals, the global error handler and the `beforeunload` guard: browser plumbing.
- The summary texts, including the provider label built by `split(' ')[2]`: display only.
- Amount.IsPositiveNumber: `!isNaN(val) && Number(val) > 0` is modelled only for decimal literals with an optional sign and fraction, read as exact rationals. Exponent, hexadecimal, binary and octal forms and `Infinity` give `null` in the model, even where the page would accept them. A decimal literal so small that `Number` underflows to 0 (such as `0.` followed by 400 zeros and a `1`) gives a truthy amount in the model, where the page gives `null`.
- UriComponent.EncodeURIComponent: lone surrogates, on which the function throws, cannot occur because Dafny characters are Unicode scalar values.
- Provider availability and fetched provider lists: they are not part of `script.js`, so they are not part of this model.
- The initial visibility of the sections comes from the page's markup, which is not part of this model; the model starts with every section hidden and the custom box closed.
- Wizard.WalkThrough: states the step, the button and the phone of the sample session. Its amount and link follow from Wizard.CompleteSession, Wizard.SessionLink and DeepLink.ProviderPathExample rather than being restated on the literal values.
