/**
 * The wizard as the page runs it: one object whose fields the event
 * handlers assign step by step, and the progress indicator whose steps
 * `updateStep` switches on and off in place. Each handler is proved to
 * produce exactly the state the matching function of module Wizard
 * describes, and to keep that module's invariants.
 */
module WizardController {
  import opened JsText
  import opened Phone
  import opened Amount
  import opened Wizard
  import UriComponent
  import DeepLink

  class TopUpWizard {
    var amount: JsStr
    var provider: JsStr
    var userPhone: string
    var step: int
    var customOpen: bool
    var providerShown: bool
    var phoneShown: bool
    var summaryShown: bool
    var submitEnabled: bool
    /** The 'active' flags of the progress indicator's steps, in page order. */
    const progress: array<bool>

    function Snapshot(): Form
      reads this
    {
      Form(amount, provider, userPhone, step, customOpen, providerShown, phoneShown, summaryShown, submitEnabled)
    }

    /** Indicator step `i` (counted from 0) is active exactly when `i + 1 <= s`. */
    predicate ProgressShows(s: int)
      reads progress
    {
      forall i :: 0 <= i < progress.Length ==> progress[i] == (i + 1 <= s)
    }

    ghost predicate Valid()
      reads this, progress
    {
      Consistent(Snapshot()) && ProgressShows(step)
    }

    /** `init` on a page with `stepCount` indicator steps, given what the saved record holds. */
    constructor (stepCount: nat, stored: Stored)
      ensures Valid()
      ensures fresh(progress) && progress.Length == stepCount
      ensures Snapshot() == Startup(stored)
    {
      amount, provider, userPhone, step := Null, Null, "", 1;
      customOpen, providerShown, phoneShown, summaryShown, submitEnabled := false, false, false, false, false;
      progress := new bool[stepCount];
      new;
      LoadState(stored);
      UpdateUI();
      UpdateStep(1);
      StartupConsistent(stored);
    }

    /** `utils.loadState`: a saved amount or phone is restored only when it is truthy. */
    method LoadState(stored: Stored)
      modifies this
      ensures Snapshot() == Rehydrate(old(Snapshot()), stored)
    {
      match stored {
        case Record(a, p) =>
          if a.Truthy() {
            amount := a;
          }
          if p.Truthy() {
            userPhone := p.s;
          }
        case NoRecord =>
        case Unreadable =>
      }
    }

    /** `utils.updateStep`: records the step and marks the first `s` indicator steps active. */
    method UpdateStep(s: int)
      modifies this`step, progress
      ensures step == s && ProgressShows(s)
    {
      step := s;
      for i := 0 to progress.Length
        invariant step == s
        invariant forall k :: 0 <= k < i ==> progress[k] == (k + 1 <= s)
      {
        progress[i] := i + 1 <= s;
      }
    }

    /** `updateUI`: the summary box, the button, and the step when an amount is set. */
    method UpdateUI()
      modifies this, progress
      ensures Snapshot() == AfterUpdateUI(old(Snapshot()))
      ensures old(amount.Truthy()) ==> ProgressShows(step)
      ensures !old(amount.Truthy()) ==> unchanged(progress)
    {
      summaryShown := amount.Truthy() && provider.Truthy();
      var isPhoneValid := ValidateCubanPhone(userPhone);
      submitEnabled := amount.Truthy() && provider.Truthy() && isPhoneValid;
      if amount.Truthy() && !provider.Truthy() {
        UpdateStep(2);
      } else if amount.Truthy() && provider.Truthy() && userPhone == "" {
        UpdateStep(3);
      } else if amount.Truthy() && provider.Truthy() && userPhone != "" {
        UpdateStep(4);
      }
    }

    /** A click on the preset amount option whose data-amount is `value`. */
    method OnPresetClick(value: string)
      requires Valid()
      modifies this, progress
      ensures Valid()
      ensures Snapshot() == AfterPreset(old(Snapshot()), value)
    {
      ghost var before := Snapshot();
      amount := Str(value + Unit);
      providerShown := true;
      UpdateStep(2);
      assert Snapshot() == before.(amount := PresetAmount(value), providerShown := true, step := 2);
      UpdateUIKeepsConsistent(Snapshot());
      UpdateUI();
    }

    /** A click on the custom-amount option. */
    method OnCustomToggle()
      requires Valid()
      modifies this, progress
      ensures Valid()
      ensures Snapshot() == AfterCustomToggle(old(Snapshot()))
    {
      ghost var before := Snapshot();
      var isActive := customOpen;
      customOpen := !isActive;
      amount := if isActive then Null else Str("");
      providerShown := false;
      UpdateStep(if isActive then 1 else 2);
      assert Snapshot() == before.(customOpen := !isActive, amount := if isActive then Null else Str(""),
                                   providerShown := false, step := if isActive then 1 else 2);
      UpdateUIKeepsConsistent(Snapshot());
      UpdateUI();
    }

    /** An input event on the custom-amount box, whose text is now `text`. */
    method OnCustomInput(text: string)
      requires Valid()
      modifies this, progress
      ensures Valid()
      ensures Snapshot() == AfterCustomInput(old(Snapshot()), text)
    {
      ghost var before := Snapshot();
      var a := CustomAmount(text);
      amount := a;
      providerShown := a.Truthy();
      UpdateStep(if a.Truthy() then 2 else 1);
      assert Snapshot() == before.(amount := a, providerShown := a.Truthy(), step := if a.Truthy() then 2 else 1);
      ghost var mid := Snapshot();
      UpdateUIKeepsConsistent(mid);
      assert AfterCustomInput(before, text) == AfterUpdateUI(mid);
      UpdateUI();
    }

    /** A click on the provider option whose data-provider is `value`. */
    method OnProviderClick(value: JsStr)
      requires Valid()
      modifies this, progress
      ensures Valid()
      ensures Snapshot() == AfterProvider(old(Snapshot()), value)
    {
      ghost var before := Snapshot();
      provider := value;
      phoneShown := true;
      UpdateStep(3);
      assert Snapshot() == before.(provider := value, phoneShown := true, step := 3);
      UpdateUIKeepsConsistent(Snapshot());
      UpdateUI();
    }

    /**
     * An input event on the phone box, whose text is now `text`. The result
     * says whether the box is drawn with the error border: a non-empty phone
     * that fails the pattern.
     */
    method OnPhoneInput(text: string) returns (flagged: bool)
      requires Valid()
      modifies this, progress
      ensures Valid()
      ensures Snapshot() == AfterPhoneInput(old(Snapshot()), text)
      ensures flagged <==> userPhone != "" && !ValidateCubanPhone(userPhone)
    {
      ghost var before := Snapshot();
      userPhone := SanitizePhone(text);
      flagged := userPhone != "" && !ValidateCubanPhone(userPhone);
      assert Snapshot() == before.(userPhone := SanitizePhone(text));
      LeadingTrueOfThree(amount.Truthy(), provider.Truthy(), userPhone != "");
      ghost var mid := Snapshot();
      UpdateUIKeepsConsistent(mid);
      assert AfterPhoneInput(before, text) == AfterUpdateUI(mid);
      UpdateUI();
    }

    /** A click on the WhatsApp button. It opens a link exactly when the form allows submitting. */
    method OnSubmit() returns (outcome: DeepLink.SubmitOutcome)
      ensures outcome == DeepLink.Submit(amount, provider, userPhone)
      ensures outcome.Open? <==> CanSubmit(Snapshot())
    {
      DeepLink.SubmitOutcomes(amount, provider, userPhone);
      if !amount.Truthy() || !provider.Truthy() || userPhone == "" {
        return DeepLink.Ignored;
      }
      if !ValidateCubanPhone(userPhone) {
        return DeepLink.InvalidPhone;
      }
      var msg := DeepLink.Message(userPhone, amount.s);
      var providerNumber := DigitsOnly(provider.s);
      var url := DeepLink.Base + providerNumber + DeepLink.Query + UriComponent.EncodeURIComponent(msg);
      outcome := DeepLink.Open(url);
    }
  }
}
