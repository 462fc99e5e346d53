/**
 * The top-up wizard's state machine as values: the state object (`amount`,
 * `provider`, `userPhone`, `step`) with the visibility flags the handlers
 * set, what `updateUI` recomputes, what each event handler does, the
 * start-up rehydration from the saved record, and the invariants every
 * handler keeps. The class in module WizardController runs the same
 * handlers in place and is proved against these functions.
 */
module Wizard {
  import opened JsText
  import opened Phone
  import opened Amount
  import DeepLink

  /** The wizard's state and the part of the page the handlers switch on and off. */
  datatype Form = Form(
    amount: JsStr,          // null, '' (custom box just opened) or "<n> CUP"
    provider: JsStr,        // the chosen provider option's data-provider value
    userPhone: string,      // the sanitised phone text
    step: int,              // the progress indicator's step
    customOpen: bool,       // the custom-amount box is displayed
    providerShown: bool,    // the provider section is displayed
    phoneShown: bool,       // the phone section is displayed
    summaryShown: bool,     // the summary box has its 'show' class
    submitEnabled: bool)    // the WhatsApp button is not disabled

  /** The state at page load, before the saved record is read: every section hidden. */
  const Initial := Form(Null, Null, "", 1, false, false, false, false, false)

  /** Which of amount, provider and phone are filled, in the wizard's order. */
  function Filled(f: Form): seq<bool> {
    [f.amount.Truthy(), f.provider.Truthy(), f.userPhone != ""]
  }

  /** How many flags are true before the first false one. */
  function LeadingTrue(flags: seq<bool>): (n: nat)
    ensures n <= |flags|
    ensures forall i :: 0 <= i < n ==> flags[i]
    ensures n < |flags| ==> !flags[n]
  {
    if flags == [] || !flags[0] then 0 else 1 + LeadingTrue(flags[1..])
  }

  lemma LeadingTrueOfThree(a: bool, b: bool, c: bool)
    ensures LeadingTrue([a, b, c]) == if !a then 0 else if !b then 1 else if !c then 2 else 3
  {
    var flags := [a, b, c];
    assert flags[1..] == [b, c];
    assert flags[1..][1..] == [c];
    assert flags[1..][1..][1..] == [];
    assert LeadingTrue([c]) == if c then 1 else 0;
    assert LeadingTrue([b, c]) == if !b then 0 else 1 + LeadingTrue([c]);
  }

  /** The step `updateUI` moves to; when no branch applies, the step the handler set stays. */
  function RefreshedStep(f: Form): int {
    if f.amount.Truthy() && !f.provider.Truthy() then 2
    else if f.amount.Truthy() && f.provider.Truthy() && f.userPhone == "" then 3
    else if f.amount.Truthy() && f.provider.Truthy() && f.userPhone != "" then 4
    else f.step
  }

  /** The button is enabled when amount and provider are set and the phone passes the pattern. */
  predicate CanSubmit(f: Form) {
    f.amount.Truthy() && f.provider.Truthy() && ValidateCubanPhone(f.userPhone)
  }

  /** `updateUI`: the summary box, the button and the step (saving to storage is not modelled). */
  function AfterUpdateUI(f: Form): (g: Form)
    ensures g == f.(summaryShown := g.summaryShown, submitEnabled := g.submitEnabled, step := g.step)
    ensures g.summaryShown == (g.amount.Truthy() && g.provider.Truthy()) && g.submitEnabled == CanSubmit(g)
    ensures g.step == f.step || 2 <= g.step <= 4
  {
    f.(summaryShown := f.amount.Truthy() && f.provider.Truthy(),
       submitEnabled := CanSubmit(f),
       step := RefreshedStep(f))
  }

  /** A click on a preset amount option. */
  function AfterPreset(f: Form, value: string): (g: Form)
    ensures g.amount.Truthy() && g.providerShown
    ensures g == f.(amount := g.amount, providerShown := true,
                    step := g.step, summaryShown := g.summaryShown, submitEnabled := g.submitEnabled)
  {
    AfterUpdateUI(f.(amount := PresetAmount(value), providerShown := true, step := 2))
  }

  /** A click on the custom-amount option: it opens the box when closed and closes it when open. */
  function AfterCustomToggle(f: Form): (g: Form)
    ensures g.customOpen == !f.customOpen && !g.providerShown
    ensures g == f.(customOpen := g.customOpen, amount := g.amount, providerShown := false,
                    step := g.step, summaryShown := g.summaryShown, submitEnabled := g.submitEnabled)
  {
    var isActive := f.customOpen;
    AfterUpdateUI(f.(customOpen := !isActive,
                     amount := if isActive then Null else Str(""),
                     providerShown := false,
                     step := if isActive then 1 else 2))
  }

  /** An input event on the custom-amount box holding `text`. */
  function AfterCustomInput(f: Form, text: string): (g: Form)
    ensures g.amount == CustomAmount(text) && g.providerShown == g.amount.Truthy()
    ensures g == f.(amount := g.amount, providerShown := g.providerShown,
                    step := g.step, summaryShown := g.summaryShown, submitEnabled := g.submitEnabled)
  {
    var a := CustomAmount(text);
    AfterUpdateUI(f.(amount := a, providerShown := a.Truthy(), step := if a.Truthy() then 2 else 1))
  }

  /** A click on a provider option whose data-provider value is `provider`. */
  function AfterProvider(f: Form, provider: JsStr): (g: Form)
    ensures g.provider == provider && g.phoneShown
    ensures g == f.(provider := provider, phoneShown := true,
                    step := g.step, summaryShown := g.summaryShown, submitEnabled := g.submitEnabled)
  {
    AfterUpdateUI(f.(provider := provider, phoneShown := true, step := 3))
  }

  /** An input event on the phone box holding `text`. */
  function AfterPhoneInput(f: Form, text: string): (g: Form)
    ensures g.userPhone == SanitizePhone(text)
    ensures g == f.(userPhone := g.userPhone,
                    step := g.step, summaryShown := g.summaryShown, submitEnabled := g.submitEnabled)
  {
    AfterUpdateUI(f.(userPhone := SanitizePhone(text)))
  }

  /** The user's actions the handlers respond to. */
  datatype Event =
    | PresetClick(value: string)
    | CustomToggle
    | CustomInput(text: string)
    | ProviderClick(provider: JsStr)
    | PhoneInput(text: string)

  function Apply(f: Form, e: Event): Form {
    match e
    case PresetClick(v) => AfterPreset(f, v)
    case CustomToggle => AfterCustomToggle(f)
    case CustomInput(t) => AfterCustomInput(f, t)
    case ProviderClick(p) => AfterProvider(f, p)
    case PhoneInput(t) => AfterPhoneInput(f, t)
  }

  function Run(f: Form, es: seq<Event>): Form
    decreases |es|
  {
    if es == [] then f else Run(Apply(f, es[0]), es[1..])
  }

  /**
   * The saved record as `loadState` sees it: none (no item, or an empty
   * one), text that does not parse, or the parsed `amount` and `userPhone`
   * (Null for null or a missing key).
   */
  datatype Stored = NoRecord | Unreadable | Record(amount: JsStr, userPhone: JsStr)

  /** `loadState`: each saved value is restored only when truthy; the provider never is. */
  function Rehydrate(f: Form, stored: Stored): (r: Form)
    ensures r == f.(amount := r.amount, userPhone := r.userPhone)
    ensures r.amount == (if stored.Record? && stored.amount.Truthy() then stored.amount else f.amount)
    ensures r.userPhone == (if stored.Record? && stored.userPhone.Truthy() then stored.userPhone.s else f.userPhone)
  {
    match stored
    case Record(a, p) =>
      f.(amount := if a.Truthy() then a else f.amount,
         userPhone := if p.Truthy() then p.s else f.userPhone)
    case _ => f
  }

  /** `init`: read the saved record, run `updateUI`, then put the indicator on step 1. */
  function Startup(stored: Stored): (r: Form)
    ensures r.step == 1 && r.provider == Null && !r.submitEnabled
    ensures !r.providerShown && !r.phoneShown && !r.customOpen
  {
    AfterUpdateUI(Rehydrate(Initial, stored)).(step := 1)
  }

  /** The record `saveState` writes after every `updateUI`: the amount and the phone, never the provider. */
  function SavedRecord(f: Form): (s: Stored)
    ensures s.Record? && s.amount == f.amount && s.userPhone.Str? && s.userPhone.s == f.userPhone
  {
    Record(f.amount, Str(f.userPhone))
  }

  /**
   * Loading a saved record into any state restores the saved amount when it
   * is truthy and the saved phone when it is non-empty, and changes nothing else.
   */
  lemma SaveThenLoad(saved: Form, g: Form)
    ensures Rehydrate(g, SavedRecord(saved))
      == g.(amount := if saved.amount.Truthy() then saved.amount else g.amount,
            userPhone := if saved.userPhone != "" then saved.userPhone else g.userPhone)
  {
  }

  /**
   * What holds in every state the wizard reaches: the step is 1 to 4; the
   * summary and the button follow the fields; step 4 is shown exactly when
   * amount, provider and phone are all filled; the provider section is only
   * shown with an amount; the empty amount only exists while the custom box
   * is open, and is the only falsy amount step 2 is shown with.
   */
  predicate Consistent(f: Form) {
    && 1 <= f.step <= 4
    && f.summaryShown == (f.amount.Truthy() && f.provider.Truthy())
    && f.submitEnabled == CanSubmit(f)
    && (f.step == 4 <==> LeadingTrue(Filled(f)) == 3)
    && (f.providerShown ==> f.amount.Truthy())
    && (f.amount == Str("") ==> f.customOpen)
    && (f.step == 2 && !f.amount.Truthy() ==> f.amount == Str(""))
  }

  /** With an amount set, the step counts the filled fields from the first one on. */
  predicate Settled(f: Form) {
    f.amount.Truthy() ==> f.step == 1 + LeadingTrue(Filled(f))
  }

  /**
   * `updateUI`'s step: with an amount it becomes one more than the number of
   * leading filled fields (2, 3 or 4); without one it stays what the handler
   * set, so `updateUI` never moves the step to 1 itself.
   */
  lemma RefreshedStepRule(f: Form)
    ensures f.amount.Truthy() ==> AfterUpdateUI(f).step == 1 + LeadingTrue(Filled(f))
    ensures f.amount.Truthy() ==> 2 <= AfterUpdateUI(f).step <= 4
    ensures !f.amount.Truthy() ==> AfterUpdateUI(f).step == f.step
  {
    LeadingTrueOfThree(f.amount.Truthy(), f.provider.Truthy(), f.userPhone != "");
  }

  /**
   * What a handler leaves for `updateUI`: a step from 1 to 4, and 4 only
   * with an amount; the provider section only with an amount; the empty
   * amount only with the custom box open, and as the only falsy amount on
   * step 2.
   */
  predicate Prepared(g: Form) {
    && 1 <= g.step <= 4
    && (g.step == 4 ==> g.amount.Truthy())
    && (g.providerShown ==> g.amount.Truthy())
    && (g.amount == Str("") ==> g.customOpen)
    && (g.step == 2 && !g.amount.Truthy() ==> g.amount == Str(""))
  }

  /** `updateUI` turns a prepared form into a consistent, settled one. */
  lemma UpdateUIKeepsConsistent(g: Form)
    requires Prepared(g)
    ensures Consistent(AfterUpdateUI(g)) && Settled(AfterUpdateUI(g))
  {
    LeadingTrueOfThree(g.amount.Truthy(), g.provider.Truthy(), g.userPhone != "");
  }

  /** Every handler keeps the invariants and leaves the step settled. */
  lemma ApplyKeepsConsistent(f: Form, e: Event)
    requires Consistent(f)
    ensures Consistent(Apply(f, e)) && Settled(Apply(f, e))
  {
    match e
    case PresetClick(v) =>
      UpdateUIKeepsConsistent(f.(amount := PresetAmount(v), providerShown := true, step := 2));
    case CustomToggle =>
      UpdateUIKeepsConsistent(
        f.(customOpen := !f.customOpen, amount := if f.customOpen then Null else Str(""),
           providerShown := false, step := if f.customOpen then 1 else 2));
    case CustomInput(t) =>
      var a := CustomAmount(t);
      UpdateUIKeepsConsistent(f.(amount := a, providerShown := a.Truthy(), step := if a.Truthy() then 2 else 1));
    case ProviderClick(p) =>
      UpdateUIKeepsConsistent(f.(provider := p, phoneShown := true, step := 3));
    case PhoneInput(t) =>
      LeadingTrueOfThree(f.amount.Truthy(), f.provider.Truthy(), f.userPhone != "");
      UpdateUIKeepsConsistent(f.(userPhone := SanitizePhone(t)));
  }

  /** Any sequence of user actions keeps the invariants, and after at least one the step is settled. */
  lemma {:induction false} RunKeepsConsistent(f: Form, es: seq<Event>)
    requires Consistent(f)
    ensures Consistent(Run(f, es))
    ensures es != [] ==> Settled(Run(f, es))
    decreases |es|
  {
    if es != [] {
      ApplyKeepsConsistent(f, es[0]);
      RunKeepsConsistent(Apply(f, es[0]), es[1..]);
    }
  }

  /** The page starts in a consistent state on step 1, whatever the saved record holds. */
  lemma StartupConsistent(stored: Stored)
    ensures Consistent(Startup(stored)) && Startup(stored).step == 1
  {
    var r := Rehydrate(Initial, stored);
    LeadingTrueOfThree(r.amount.Truthy(), false, r.userPhone != "");
  }

  /**
   * Reloading after `saveState` gives back a truthy amount and the phone,
   * never the provider; the step starts at 1 even when the amount comes back.
   */
  lemma StartupAfterSave(f: Form)
    ensures var g := Startup(SavedRecord(f));
      && g.amount == (if f.amount.Truthy() then f.amount else Null)
      && g.userPhone == f.userPhone
      && g.provider == Null
      && g.step == 1
      && !g.submitEnabled
  {
  }

  /** A restored amount is not reflected in the step at start-up: the state is not settled. */
  lemma StartupNotSettled()
    ensures Startup(Record(Str("100 CUP"), Null)).amount.Truthy()
    ensures !Settled(Startup(Record(Str("100 CUP"), Null)))
  {
    LeadingTrueOfThree(true, false, false);
  }

  /** Choosing or clearing an amount never touches the provider or the phone. */
  lemma AmountEventsKeepSelection(f: Form, e: Event)
    requires e.PresetClick? || e.CustomToggle? || e.CustomInput?
    ensures Apply(f, e).provider == f.provider
    ensures Apply(f, e).userPhone == f.userPhone
  {
  }

  /** A preset click sets the amount to the value with the unit and shows the provider section. */
  lemma PresetRule(f: Form, value: string)
    ensures var g := AfterPreset(f, value);
      && g.amount == Str(value + " CUP")
      && g.provider == f.provider && g.userPhone == f.userPhone
      && g.providerShown
      && g.step == 1 + LeadingTrue(Filled(g))
  {
    RefreshedStepRule(f.(amount := PresetAmount(value), providerShown := true, step := 2));
  }

  /**
   * The custom option: closing the box clears the amount to `null` with step
   * 1; opening it sets the amount to `''` with step 2. Both hide the provider
   * section.
   */
  lemma CustomToggleRule(f: Form)
    ensures var g := AfterCustomToggle(f);
      && g.customOpen == !f.customOpen
      && !g.providerShown
      && (f.customOpen ==> g.amount == Null && g.step == 1)
      && (!f.customOpen ==> g.amount == Str("") && g.step == 2)
      && g.provider == f.provider && g.userPhone == f.userPhone
  {
  }

  /**
   * Typing in the custom box: a trimmed text that is a number above zero
   * becomes the amount with the unit and the step follows the filled fields;
   * anything else clears the amount to `null` with step 1. Provider and
   * phone are left as they were.
   */
  lemma CustomInputRule(f: Form, text: string)
    ensures var g := AfterCustomInput(f, text); var val := Trim(text);
      && (g.amount.Truthy() <==> IsDecimalLiteral(val) && val[0] != '-' && HasNonZeroDigit(val))
      && (g.amount.Truthy() ==> g.amount == Str(val + " CUP") && g.step == 1 + LeadingTrue(Filled(g)))
      && (!g.amount.Truthy() ==> g.amount == Null && g.step == 1)
      && g.providerShown == g.amount.Truthy()
      && g.provider == f.provider && g.userPhone == f.userPhone
  {
    CustomAmountRule(text);
    var a := CustomAmount(text);
    RefreshedStepRule(f.(amount := a, providerShown := a.Truthy(), step := if a.Truthy() then 2 else 1));
  }

  /**
   * A provider click stores the option's value as it is (this handler makes
   * no availability check) and shows the phone section; with an amount the
   * step then follows the filled fields, without one it is 3.
   */
  lemma ProviderRule(f: Form, provider: JsStr)
    ensures var g := AfterProvider(f, provider);
      && g.provider == provider && g.phoneShown
      && g.amount == f.amount && g.userPhone == f.userPhone
      && (f.amount.Truthy() ==> g.step == 1 + LeadingTrue(Filled(g)))
      && (!f.amount.Truthy() ==> g.step == 3)
  {
    RefreshedStepRule(f.(provider := provider, phoneShown := true, step := 3));
  }

  /** Typing a phone stores its sanitised form; the button then judges the typed text exactly as the raw text. */
  lemma PhoneInputRule(f: Form, text: string)
    ensures var g := AfterPhoneInput(f, text);
      && g.userPhone == SanitizePhone(text)
      && g.amount == f.amount && g.provider == f.provider
      && (g.submitEnabled <==> f.amount.Truthy() && f.provider.Truthy() && ValidateCubanPhone(text))
  {
    ValidateAfterSanitize(text);
  }

  /** An enabled button is only ever seen on step 4. */
  lemma SubmitEnabledAtLastStep(f: Form)
    requires Consistent(f) && f.submitEnabled
    ensures f.step == 4
  {
    ValidPhoneIsLong(f.userPhone);
    LeadingTrueOfThree(true, true, true);
  }

  /** The button is enabled exactly when a click on it opens a link. */
  lemma ButtonMatchesSubmit(f: Form)
    requires Consistent(f)
    ensures f.submitEnabled <==> DeepLink.Submit(f.amount, f.provider, f.userPhone).Open?
  {
    DeepLink.SubmitOutcomes(f.amount, f.provider, f.userPhone);
  }

  /**
   * A whole session from a fresh page: a preset click, a provider click and
   * a typed phone that passes the pattern leave the wizard on step 4 with
   * the button enabled, holding the amount with its unit, the provider and
   * the sanitised phone.
   */
  lemma CompleteSession(preset: string, provider: string, typed: string)
    requires provider != "" && ValidateCubanPhone(typed)
    ensures var f := Run(Startup(NoRecord), [PresetClick(preset), ProviderClick(Str(provider)), PhoneInput(typed)]);
      && f.amount == Str(preset + " CUP") && f.provider == Str(provider) && f.userPhone == SanitizePhone(typed)
      && f.step == 4 && f.submitEnabled
  {
    var es := [PresetClick(preset), ProviderClick(Str(provider)), PhoneInput(typed)];
    var f0 := Startup(NoRecord);
    StartupConsistent(NoRecord);
    var f1 := AfterPreset(f0, preset);
    var f2 := AfterProvider(f1, Str(provider));
    var f3 := AfterPhoneInput(f2, typed);
    assert es[0] == PresetClick(preset) && es[1..] == [ProviderClick(Str(provider)), PhoneInput(typed)];
    assert es[1..][1..] == [PhoneInput(typed)] && es[1..][1..][1..] == [];
    assert Run(f2, es[1..][1..]) == f3;
    assert Run(f0, es) == f3;
    PhoneInputRule(f2, typed);
    RunKeepsConsistent(f0, es);
    SubmitEnabledAtLastStep(f3);
  }

  /**
   * The click that ends such a session opens the link to the provider's
   * digits, and the message read back out of it names the sanitised phone
   * and the amount with its unit.
   */
  lemma SessionLink(preset: string, provider: string, typed: string)
    requires provider != "" && ValidateCubanPhone(typed)
    ensures var f := Run(Startup(NoRecord), [PresetClick(preset), ProviderClick(Str(provider)), PhoneInput(typed)]);
      var r := DeepLink.Submit(f.amount, f.provider, f.userPhone);
      && r == DeepLink.Open(DeepLink.WhatsAppUrl(provider, DeepLink.Message(SanitizePhone(typed), preset + " CUP")))
      && match DeepLink.ParseUrl(r.url)
         case None => false
         case Some(parts) =>
           parts.0 == DigitsOnly(provider) && DeepLink.ParseMessage(parts.1) == Some((SanitizePhone(typed), preset + " CUP"))
  {
    CompleteSession(preset, provider, typed);
    var f := Run(Startup(NoRecord), [PresetClick(preset), ProviderClick(Str(provider)), PhoneInput(typed)]);
    ValidateAfterSanitize(typed);
    SanitizePhoneSpec(typed);
    DeepLink.SubmitLinkContents(f.amount, f.provider, f.userPhone);
  }

  /**
   * The sample session, preset 100, the provider's contact +5355551234 and
   * the phone typed as "53 5 1234567", ends on step 4 with the button
   * enabled and the phone 5351234567; by CompleteSession its amount is
   * "100 CUP", and by SessionLink and DeepLink.ProviderPathExample its link
   * goes to 5355551234.
   */
  lemma WalkThrough(preset: string, provider: string, typed: string)
    requires preset == "100" && provider == "+5355551234" && typed == "53 5 1234567"
    ensures var f := Run(Startup(NoRecord), [PresetClick(preset), ProviderClick(Str(provider)), PhoneInput(typed)]);
      && f.step == 4 && f.submitEnabled && f.userPhone == "5351234567"
  {
    SanitizeSpacedNumber(typed);
    AcceptsCountryCode(SanitizePhone(typed));
    ValidateAfterSanitize(typed);
    CompleteSession(preset, provider, typed);
  }
}
