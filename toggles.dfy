/** Arrays of checkbox flags as the checklists keep them: a toggle that
    rebuilds the array with one entry flipped (`prev.map((v, idx) => idx ===
    index ? !v : v)`) and `every(Boolean)`. */
module Toggles {

  /** The flags with the entry at `index` flipped; an index outside the
      array matches no entry. */
  function Toggle(flags: seq<bool>, index: int): (r: seq<bool>)
    ensures |r| == |flags|
    ensures 0 <= index < |flags| ==> r[index] == !flags[index]
    ensures forall i :: 0 <= i < |flags| && i != index ==> r[i] == flags[i]
  {
    seq(|flags|, i requires 0 <= i < |flags| => if i == index then !flags[i] else flags[i])
  }

  /** Toggling the same entry twice restores the flags. */
  lemma ToggleTwice(flags: seq<bool>, index: int)
    ensures Toggle(Toggle(flags, index), index) == flags
  {
  }

  /** An out-of-range index leaves the flags as they are. */
  lemma ToggleOutOfRange(flags: seq<bool>, index: int)
    requires index < 0 || index >= |flags|
    ensures Toggle(flags, index) == flags
  {
  }

  /** `flags.every(Boolean)`, scanning from the left. */
  function Every(flags: seq<bool>): bool {
    flags == [] || (flags[0] && Every(flags[1..]))
  }

  /** `every` holds exactly when no entry is false. */
  lemma {:induction false} EveryIffAll(flags: seq<bool>)
    ensures Every(flags) <==> forall i :: 0 <= i < |flags| ==> flags[i]
  {
    if flags != [] {
      EveryIffAll(flags[1..]);
      assert forall i :: 1 <= i < |flags| ==> flags[i] == flags[1..][i - 1];
    }
  }

  function AllFalse(n: nat): (r: seq<bool>)
    ensures |r| == n && forall i :: 0 <= i < n ==> !r[i]
  {
    seq(n, _ => false)
  }

  /** A non-empty list of unchecked flags is not all checked. */
  lemma EveryOfAllFalse(n: nat)
    requires n > 0
    ensures !Every(AllFalse(n))
  {
  }

  /** Toggling an entry that is checked leaves the list not all checked. */
  lemma ToggleCheckedBreaksEvery(flags: seq<bool>, index: int)
    requires 0 <= index < |flags| && flags[index]
    ensures !Every(Toggle(flags, index))
  {
    EveryIffAll(Toggle(flags, index));
  }

  /** One toggle completes the list only when it checks the last unchecked entry. */
  lemma ToggleCompletes(flags: seq<bool>, index: int)
    requires 0 <= index < |flags|
    ensures Every(Toggle(flags, index)) <==>
            !flags[index] && forall i :: 0 <= i < |flags| && i != index ==> flags[i]
  {
    EveryIffAll(Toggle(flags, index));
  }
}
