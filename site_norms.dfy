/** The site-norms checklist of the check-in wizard (`SiteNormsChecklist`):
    six acknowledgement boxes and the `allAccepted` value reported to the
    parent page. */
module SiteNorms {
  import opened Toggles

  /** The ids of `SITE_NORMS`, in order. */
  const NormIds: seq<string> := ["hair", "hands", "jewelry", "drink", "smoking", "cuts"]

  class Checklist {
    /** The `checked` state, one entry per norm. */
    var checked: seq<bool>
    /** The values passed to `onAllAcceptedChange`, oldest first. */
    var reported: seq<bool>

    /** `allAccepted = checked.every(Boolean)` */
    function AllAccepted(): bool
      reads this
    {
      Every(checked)
    }

    /** The notification effect has delivered the current value. */
    predicate Valid()
      reads this
    {
      |checked| == |NormIds| && |reported| > 0 && reported[|reported| - 1] == AllAccepted()
    }

    /** Mounting: every norm unchecked, and the effect reports `false` once. */
    constructor()
      ensures Valid()
      ensures checked == AllFalse(|NormIds|)
      ensures reported == [false]
      ensures !AllAccepted()
    {
      checked := AllFalse(|NormIds|);
      reported := [false];
      EveryOfAllFalse(|NormIds|);
    }

    /** `toggle(index)` followed by the effect on `[allAccepted]`, which
        calls the parent only when the value changed. */
    method Toggle(index: int)
      requires Valid()
      modifies this
      ensures Valid()
      ensures checked == Toggles.Toggle(old(checked), index)
      ensures AllAccepted() == old(AllAccepted()) ==> reported == old(reported)
      ensures AllAccepted() != old(AllAccepted()) ==> reported == old(reported) + [AllAccepted()]
    {
      var before := Every(checked);
      checked := Toggles.Toggle(checked, index);
      var after := Every(checked);
      if after != before {
        reported := reported + [after];
      }
    }
  }

  /** The parent always holds the value the checklist last reported, which
      is `true` exactly when all six norms are checked. */
  lemma ReportedMeansAllChecked(c: Checklist)
    requires c.Valid()
    ensures c.reported[|c.reported| - 1] <==> forall i :: 0 <= i < |c.checked| ==> c.checked[i]
  {
    EveryIffAll(c.checked);
  }
}
