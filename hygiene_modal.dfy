/** The hygiene-rules confirmation dialog (`HygieneRulesModal`): six rule
    acknowledgements and one confirmation box, reset whenever the dialog
    opens, and a confirm button gated on all of them. */
module HygieneModal {
  import opened Common
  import opened Toggles

  /** The English titles of `RULES`, in order. */
  const RuleTitles: seq<string> := [
    "WEAR COMPANY HAIR & BEARD COVERS", "WASH AND SANITIZE HANDS AT ENTRANCE",
    "REMOVE ALL JEWELRY AND WATCHES", "NO DRINKING OR EATING (INCLUDING CHEWING GUM)",
    "NO SMOKING", "ALL CUTS TO BE COVERED WITH A SUITABLE PLASTER"]

  const ConfirmLabel := "Confirm & Submit"
  const SubmittingLabel := "Submitting..."

  /** What an open dialog shows: the rule boxes, the confirmation box and
      the confirm button. */
  datatype ModalView = ModalView(ruleChecks: seq<bool>, checked: bool, confirmEnabled: bool, confirmLabel: string)

  class Modal {
    /** The `open` and `isSubmitting` props. */
    var open: bool
    var isSubmitting: bool
    /** The confirmation box. */
    var checked: bool
    var ruleChecks: seq<bool>
    /** `document.body.style.overflow`, and the value saved when the dialog opened. */
    var bodyOverflow: string
    var savedOverflow: string
    /** How many times `onClose` and `onConfirm` were called. */
    var closeCalls: nat
    var confirmCalls: nat

    /** One check per rule; an open dialog locks the page scroll, a closed one
        has restored it. */
    predicate Valid()
      reads this
    {
      |ruleChecks| == |RuleTitles| &&
      (open ==> bodyOverflow == "hidden") &&
      (!open ==> bodyOverflow == savedOverflow)
    }

    /** `allRulesChecked` */
    function AllRulesChecked(): bool
      reads this
    {
      Every(ruleChecks)
    }

    /** The confirm button's `disabled={!checked || !allRulesChecked || isSubmitting}`, negated. */
    function ConfirmEnabled(): bool
      reads this
    {
      checked && AllRulesChecked() && !isSubmitting
    }

    /** The rendered dialog; `None` is `return null`. */
    function View(): (v: Option<ModalView>)
      reads this
      ensures v.None? <==> !open
      ensures v.Some? ==> v.value.confirmEnabled == ConfirmEnabled() && v.value.ruleChecks == ruleChecks
      ensures v.Some? ==> v.value.confirmLabel == (if isSubmitting then SubmittingLabel else ConfirmLabel)
    {
      if !open then None
      else Some(ModalView(ruleChecks, checked, ConfirmEnabled(),
                          if isSubmitting then SubmittingLabel else ConfirmLabel))
    }

    /** Mounting with the given props; `overflow` is the page's scroll style. */
    constructor(isOpen: bool, submitting: bool, overflow: string)
      ensures Valid()
      ensures open == isOpen && isSubmitting == submitting
      ensures !checked && ruleChecks == AllFalse(|RuleTitles|)
      ensures savedOverflow == overflow
      ensures closeCalls == 0 && confirmCalls == 0
    {
      open := isOpen;
      isSubmitting := submitting;
      checked := false;
      ruleChecks := AllFalse(|RuleTitles|);
      savedOverflow := overflow;
      bodyOverflow := if isOpen then "hidden" else overflow;
      closeCalls := 0;
      confirmCalls := 0;
    }

    /** A new `open` prop and the effects keyed on it: opening resets every
        box and locks the scroll; closing runs the cleanup that restores the
        saved scroll style. */
    method SetOpen(value: bool)
      requires Valid()
      modifies this
      ensures Valid()
      ensures open == value && isSubmitting == old(isSubmitting)
      ensures value && !old(open) ==> !checked && ruleChecks == AllFalse(|RuleTitles|) && savedOverflow == old(bodyOverflow)
      ensures !(value && !old(open)) ==> checked == old(checked) && ruleChecks == old(ruleChecks) && savedOverflow == old(savedOverflow)
      ensures !value && old(open) ==> bodyOverflow == old(savedOverflow)
      ensures closeCalls == old(closeCalls) && confirmCalls == old(confirmCalls)
    {
      if value == open {
        return;
      }
      open := value;
      if value {
        checked := false;
        ruleChecks := AllFalse(|RuleTitles|);
        savedOverflow := bodyOverflow;
        bodyOverflow := "hidden";
      } else {
        bodyOverflow := savedOverflow;
      }
    }

    /** Unmounting: an open dialog's cleanups remove the Escape listener and
        restore the saved scroll style; a closed one registered neither. */
    method Unmount()
      requires Valid()
      modifies this
      ensures bodyOverflow == old(savedOverflow)
      ensures open == old(open) && isSubmitting == old(isSubmitting) && checked == old(checked)
      ensures ruleChecks == old(ruleChecks) && savedOverflow == old(savedOverflow)
      ensures closeCalls == old(closeCalls) && confirmCalls == old(confirmCalls)
    {
      if open {
        bodyOverflow := savedOverflow;
      }
    }

    method SetSubmitting(value: bool)
      requires Valid()
      modifies this
      ensures Valid()
      ensures isSubmitting == value
      ensures open == old(open) && checked == old(checked) && ruleChecks == old(ruleChecks)
      ensures bodyOverflow == old(bodyOverflow) && savedOverflow == old(savedOverflow)
      ensures closeCalls == old(closeCalls) && confirmCalls == old(confirmCalls)
    {
      isSubmitting := value;
    }

    /** `toggleRule(index)` */
    method ToggleRule(index: int)
      requires Valid()
      modifies this
      ensures Valid()
      ensures ruleChecks == Toggle(old(ruleChecks), index)
      ensures open == old(open) && isSubmitting == old(isSubmitting) && checked == old(checked)
      ensures bodyOverflow == old(bodyOverflow) && savedOverflow == old(savedOverflow)
      ensures closeCalls == old(closeCalls) && confirmCalls == old(confirmCalls)
    {
      ruleChecks := Toggle(ruleChecks, index);
    }

    /** A key pressed on rule `index`: Enter and Space toggle it, every other
        key leaves the dialog as it is. */
    method RuleKeyDown(index: int, key: string)
      requires Valid()
      modifies this
      ensures Valid()
      ensures key == "Enter" || key == " " ==> ruleChecks == Toggle(old(ruleChecks), index)
      ensures key != "Enter" && key != " " ==> ruleChecks == old(ruleChecks)
      ensures open == old(open) && isSubmitting == old(isSubmitting) && checked == old(checked)
      ensures bodyOverflow == old(bodyOverflow) && savedOverflow == old(savedOverflow)
      ensures closeCalls == old(closeCalls) && confirmCalls == old(confirmCalls)
    {
      if key == "Enter" || key == " " {
        ToggleRule(index);
      }
    }

    /** The confirmation box's `onChange`. */
    method SetChecked(value: bool)
      requires Valid()
      modifies this
      ensures Valid()
      ensures checked == value
      ensures open == old(open) && isSubmitting == old(isSubmitting) && ruleChecks == old(ruleChecks)
      ensures bodyOverflow == old(bodyOverflow) && savedOverflow == old(savedOverflow)
      ensures closeCalls == old(closeCalls) && confirmCalls == old(confirmCalls)
    {
      checked := value;
    }

    /** A `keydown` on the document: the listener exists only while the
        dialog is open, and only Escape closes. */
    method DocumentKeyDown(key: string)
      requires Valid()
      modifies this
      ensures Valid()
      ensures closeCalls == if open && key == "Escape" then old(closeCalls) + 1 else old(closeCalls)
      ensures open == old(open) && isSubmitting == old(isSubmitting) && checked == old(checked)
      ensures ruleChecks == old(ruleChecks) && confirmCalls == old(confirmCalls)
      ensures bodyOverflow == old(bodyOverflow) && savedOverflow == old(savedOverflow)
    {
      if open && key == "Escape" {
        closeCalls := closeCalls + 1;
      }
    }

    /** A click on the backdrop or on Cancel; a closed dialog has neither. */
    method ClickClose()
      requires Valid()
      modifies this
      ensures Valid()
      ensures closeCalls == if open then old(closeCalls) + 1 else old(closeCalls)
      ensures open == old(open) && isSubmitting == old(isSubmitting) && checked == old(checked)
      ensures ruleChecks == old(ruleChecks) && confirmCalls == old(confirmCalls)
      ensures bodyOverflow == old(bodyOverflow) && savedOverflow == old(savedOverflow)
    {
      if open {
        closeCalls := closeCalls + 1;
      }
    }

    /** A click on the confirm button: a disabled or absent button does
        nothing. */
    method ClickConfirm()
      requires Valid()
      modifies this
      ensures Valid()
      ensures confirmCalls == if open && ConfirmEnabled() then old(confirmCalls) + 1 else old(confirmCalls)
      ensures open == old(open) && isSubmitting == old(isSubmitting) && checked == old(checked)
      ensures ruleChecks == old(ruleChecks) && closeCalls == old(closeCalls)
      ensures bodyOverflow == old(bodyOverflow) && savedOverflow == old(savedOverflow)
    {
      if open && ConfirmEnabled() {
        confirmCalls := confirmCalls + 1;
      }
    }
  }

  /** Confirm is enabled exactly when the box is checked, all six rules are
      checked and nothing is being submitted. */
  lemma ConfirmEnabledIff(m: Modal)
    requires m.Valid()
    ensures m.ConfirmEnabled() <==>
            m.checked && !m.isSubmitting && forall i :: 0 <= i < |RuleTitles| ==> m.ruleChecks[i]
  {
    EveryIffAll(m.ruleChecks);
  }

  /** Checking the six rules one by one after opening enables the
      confirmation, once the box is checked too. */
  lemma {:induction false} TogglingEachRuleChecksAll(n: nat)
    ensures Every(ToggleAll(AllFalse(n), n))
  {
    var flags := ToggleAll(AllFalse(n), n);
    ToggleAllSpec(AllFalse(n), n);
    EveryIffAll(flags);
  }

  /** The flags after toggling entries `0` .. `k - 1` in turn. */
  function ToggleAll(flags: seq<bool>, k: nat): (r: seq<bool>)
    ensures |r| == |flags|
  {
    if k == 0 then flags else Toggle(ToggleAll(flags, k - 1), k - 1)
  }

  lemma {:induction false} ToggleAllSpec(flags: seq<bool>, k: nat)
    ensures forall i :: 0 <= i < |flags| ==> ToggleAll(flags, k)[i] == (if i < k then !flags[i] else flags[i])
  {
    if k > 0 {
      ToggleAllSpec(flags, k - 1);
    }
  }
}
