/** The status canonicaliser of `lib/status.ts`: a closed set of four
    canonical visit statuses, the alias table every raw status string is
    matched against, the storage form, and the badge variant table. */
module Status {
  import opened Common
  import opened Text

  datatype CanonicalStatus = Approved | Blocked | Review | CheckedIn

  /** The keys of `STATUS_ALIASES` in their iteration order. */
  const CanonicalOrder: seq<CanonicalStatus> := [Approved, Blocked, Review, CheckedIn]

  /** The string value of the `CanonicalStatus` union member. */
  function Label(s: CanonicalStatus): string {
    match s
    case Approved => "Approved"
    case Blocked => "Blocked"
    case Review => "Review"
    case CheckedIn => "Checked-in"
  }

  /** `STATUS_ALIASES[s]` */
  function Aliases(s: CanonicalStatus): (a: seq<string>)
    ensures |a| >= 3
    ensures forall i, j :: 0 <= i < j < |a| ==> a[i] != a[j]
  {
    match s
    case Approved => ["approved", "allow", "allowed", "approved-in"]
    case Blocked => ["blocked", "denied", "rejected"]
    case Review => ["review", "pending", "needs review", "awaiting", "queued"]
    case CheckedIn => ["checked-in", "checked in", "arrived", "arrival", "present"]
  }

  /** What `normalizeStatus` compares against the alias table. */
  function RawKey(value: Option<string>): string {
    ToLower(Trim(value.GetOr("")))
  }

  /** The first status of `order` that lists `raw` among its aliases, or
      `Review` when none does. */
  function FirstMatch(raw: string, order: seq<CanonicalStatus>): (r: CanonicalStatus)
    ensures (r in order && raw in Aliases(r)) || (r == Review && forall k :: 0 <= k < |order| ==> raw !in Aliases(order[k]))
  {
    if order == [] then Review
    else if raw in Aliases(order[0]) then order[0]
    else FirstMatch(raw, order[1..])
  }

  /** No status lists `raw` among its aliases. */
  predicate Unmatched(raw: string) {
    raw !in Aliases(Approved) && raw !in Aliases(Blocked) &&
    raw !in Aliases(Review) && raw !in Aliases(CheckedIn)
  }

  /** The alias lookup of `normalizeStatus` on an already normalised key. */
  function MatchKey(raw: string): (r: CanonicalStatus)
    ensures raw in Aliases(r) || (r == Review && Unmatched(raw))
  {
    var r := FirstMatch(raw, CanonicalOrder);
    assert CanonicalOrder[0] == Approved && CanonicalOrder[1] == Blocked;
    assert CanonicalOrder[2] == Review && CanonicalOrder[3] == CheckedIn;
    r
  }

  /** `normalizeStatus(value)`; `None` stands for `null` and `undefined`. */
  function NormalizeStatus(value: Option<string>): (r: CanonicalStatus)
    ensures RawKey(value) in Aliases(r) || (r == Review && Unmatched(RawKey(value)))
  {
    MatchKey(RawKey(value))
  }

  /** The loop of `normalizeStatus`: the table's entries in order, returning
      at the first whose aliases hold the key, and `Review` after the last. */
  method FindStatus(value: Option<string>) returns (r: CanonicalStatus)
    ensures r == NormalizeStatus(value)
  {
    var raw := RawKey(value);
    var i := 0;
    while i < |CanonicalOrder|
      invariant 0 <= i <= |CanonicalOrder|
      invariant FirstMatch(raw, CanonicalOrder[i..]) == FirstMatch(raw, CanonicalOrder)
    {
      var status := CanonicalOrder[i];
      if raw in Aliases(status) {
        return status;
      }
      assert CanonicalOrder[i..][1..] == CanonicalOrder[i + 1..];
      i := i + 1;
    }
    assert CanonicalOrder[i..] == [];
    return Review;
  }

  /** `toDbStatus(status)`: the storage form, which is the label lower-cased
      and is the first alias of the status. */
  function ToDbStatus(s: CanonicalStatus): (r: string)
    ensures r == ToLower(Label(s))
  {
    if s == CheckedIn then "checked-in" else ToLower(Label(s))
  }

  lemma AliasesDisjointApprovedBlocked() ensures forall a :: a in Aliases(Approved) ==> a !in Aliases(Blocked) {}
  lemma AliasesDisjointApprovedReview() ensures forall a :: a in Aliases(Approved) ==> a !in Aliases(Review) {}
  lemma AliasesDisjointApprovedCheckedIn() ensures forall a :: a in Aliases(Approved) ==> a !in Aliases(CheckedIn) {}
  lemma AliasesDisjointBlockedReview() ensures forall a :: a in Aliases(Blocked) ==> a !in Aliases(Review) {}
  lemma AliasesDisjointBlockedCheckedIn() ensures forall a :: a in Aliases(Blocked) ==> a !in Aliases(CheckedIn) {}
  lemma AliasesDisjointReviewCheckedIn() ensures forall a :: a in Aliases(Review) ==> a !in Aliases(CheckedIn) {}

  /** The four alias lists are pairwise disjoint, so the first-match order of
      `normalizeStatus` never decides anything. */
  lemma AliasesDisjoint(s: CanonicalStatus, t: CanonicalStatus, a: string)
    requires s != t && a in Aliases(s)
    ensures a !in Aliases(t)
  {
    match (s, t)
    case (Approved, Blocked) => AliasesDisjointApprovedBlocked();
    case (Approved, Review) => AliasesDisjointApprovedReview();
    case (Approved, CheckedIn) => AliasesDisjointApprovedCheckedIn();
    case (Blocked, Approved) => AliasesDisjointApprovedBlocked();
    case (Blocked, Review) => AliasesDisjointBlockedReview();
    case (Blocked, CheckedIn) => AliasesDisjointBlockedCheckedIn();
    case (Review, Approved) => AliasesDisjointApprovedReview();
    case (Review, Blocked) => AliasesDisjointBlockedReview();
    case (Review, CheckedIn) => AliasesDisjointReviewCheckedIn();
    case (CheckedIn, Approved) => AliasesDisjointApprovedCheckedIn();
    case (CheckedIn, Blocked) => AliasesDisjointBlockedCheckedIn();
    case (CheckedIn, Review) => AliasesDisjointReviewCheckedIn();
    case _ =>
  }

  /** An alias is a normal key with no comma and is not empty. */
  predicate CleanAlias(a: string) {
    a != "" && IsNormalKey(a) && ',' !in a
  }

  lemma ApprovedAliasesClean() ensures forall a :: a in Aliases(Approved) ==> CleanAlias(a) {}
  lemma BlockedAliasesClean() ensures forall a :: a in Aliases(Blocked) ==> CleanAlias(a) {}
  lemma ReviewAliasesClean() ensures forall a :: a in Aliases(Review) ==> CleanAlias(a) {}
  lemma CheckedInAliasesClean() ensures forall a :: a in Aliases(CheckedIn) ==> CleanAlias(a) {}

  lemma AliasesAreClean(s: CanonicalStatus, a: string)
    requires a in Aliases(s)
    ensures CleanAlias(a)
  {
    match s
    case Approved => ApprovedAliasesClean();
    case Blocked => BlockedAliasesClean();
    case Review => ReviewAliasesClean();
    case CheckedIn => CheckedInAliasesClean();
  }

  /** Every alias is already trimmed and lower-case. */
  lemma AliasesAreNormal(s: CanonicalStatus, a: string)
    requires a in Aliases(s)
    ensures ToLower(Trim(a)) == a
  {
    AliasesAreClean(s, a);
    NormalKeyFixpoint(a);
  }

  /** Every alias of a status normalises to that status. */
  lemma AliasNormalizes(s: CanonicalStatus, a: string)
    requires a in Aliases(s)
    ensures NormalizeStatus(Some(a)) == s
  {
    AliasesAreNormal(s, a);
    var r := NormalizeStatus(Some(a));
    if r != s {
      AliasesDisjoint(s, r, a);
    }
  }

  /** Characterisation of `normalizeStatus`: the result is the unique status
      whose alias list holds the trimmed, lower-cased input, and `Review` when
      there is none (null, blank and unknown values included). */
  lemma NormalizeStatusSpec(value: Option<string>, s: CanonicalStatus)
    ensures NormalizeStatus(value) == s <==>
            (RawKey(value) in Aliases(s) || (s == Review && Unmatched(RawKey(value))))
  {
    var r := NormalizeStatus(value);
    if RawKey(value) in Aliases(s) && r != s {
      AliasesDisjoint(s, r, RawKey(value));
    }
  }

  /** The empty key matches no alias. */
  lemma EmptyUnmatched()
    ensures Unmatched("")
  {
  }

  /** Null, undefined and blank input fall back to `Review`. */
  lemma NormalizeBlankIsReview(value: Option<string>)
    requires value.None? || IsBlank(value.value)
    ensures NormalizeStatus(value) == Review
  {
    assert Trim(value.GetOr("")) == "";
    assert RawKey(value) == "";
    EmptyUnmatched();
  }

  /** Normalisation ignores case and surrounding whitespace. */
  lemma NormalizeIgnoresCaseAndSpace(s: string)
    ensures NormalizeStatus(Some(s)) == NormalizeStatus(Some(ToLower(Trim(s))))
  {
    TrimLowerIdempotent(s);
  }

  /** The storage form of a status is the first entry of its alias list. */
  lemma ToDbStatusIsFirstAlias(s: CanonicalStatus)
    ensures ToDbStatus(s) == Aliases(s)[0]
  {
    match s
    case Approved =>
      assert NoUpper("pproved");
      ToLowerOfCapitalised('A', "pproved");
      assert "Approved" == ['A'] + "pproved";
    case Blocked =>
      assert NoUpper("locked");
      ToLowerOfCapitalised('B', "locked");
      assert "Blocked" == ['B'] + "locked";
    case Review =>
      assert NoUpper("eview");
      ToLowerOfCapitalised('R', "eview");
      assert "Review" == ['R'] + "eview";
    case CheckedIn =>
  }

  /** Storing a status and reading it back gives the same status. */
  lemma StorageRoundTrip(s: CanonicalStatus)
    ensures NormalizeStatus(Some(ToDbStatus(s))) == s
  {
    ToDbStatusIsFirstAlias(s);
    AliasNormalizes(s, ToDbStatus(s));
  }

  /** The alias lookup on a key that is the alias of `s` gives `s`. */
  lemma MatchKeyOfAlias(s: CanonicalStatus, a: string)
    requires a in Aliases(s)
    ensures MatchKey(a) == s
  {
    var r := MatchKey(a);
    if r != s {
      AliasesDisjoint(s, r, a);
    }
  }

  /** On a value without whitespace, normalising is lower-casing and the
      alias lookup. */
  lemma NormalizeOfNoSpace(v: string)
    requires NoSpace(v)
    ensures NormalizeStatus(Some(v)) == MatchKey(ToLower(v))
  {
    TrimOfNoSpace(v);
  }

  lemma LabelHasNoSpace(s: CanonicalStatus)
    ensures NoSpace(Label(s))
  {
    match s
    case Approved =>
    case Blocked =>
    case Review =>
    case CheckedIn =>
  }

  /** A displayed label reads back as its own status, so the capitalised
      labels of the dashboard survive another normalisation. */
  lemma LabelNormalizes(s: CanonicalStatus)
    ensures NormalizeStatus(Some(Label(s))) == s
  {
    LabelHasNoSpace(s);
    NormalizeOfNoSpace(Label(s));
    ToDbStatusIsFirstAlias(s);
    MatchKeyOfAlias(s, ToDbStatus(s));
  }

  /** A status name outside the table falls back to `Review`. */
  lemma NormalizeUnknownIsReview()
    ensures NormalizeStatus(Some("archived")) == Review
  {
    var k := "archived";
    assert NoSpace(k);
    TrimOfNoSpace(k);
    assert NoUpper(k);
    ToLowerOfNoUpper(k);
    assert Unmatched(k);
  }

  /** One PostgREST `column.ilike.value` clause per value, in order. */
  function IlikeClauses(column: string, values: seq<string>): (r: seq<string>)
    ensures |r| == |values|
    ensures forall k :: 0 <= k < |values| ==> r[k] == column + ".ilike." + values[k]
  {
    seq(|values|, k requires 0 <= k < |values| => column + ".ilike." + values[k])
  }

  predicate NoComma(values: seq<string>) {
    forall k :: 0 <= k < |values| ==> ',' !in values[k]
  }

  lemma ClausesHaveNoComma(s: CanonicalStatus, clauses: seq<string>)
    requires clauses == IlikeClauses("status", Aliases(s))
    ensures NoComma(clauses)
  {
    forall k | 0 <= k < |clauses|
      ensures ',' !in clauses[k]
    {
      var a := Aliases(s)[k];
      AliasesAreClean(s, a);
      assert clauses[k] == "status.ilike." + a;
      assert ',' !in "status.ilike.";
    }
  }

  /** `buildStatusOrFilter(status)`: never null; splitting it at the commas
      gives exactly one `status.ilike.<alias>` clause per alias, in table order. */
  function BuildStatusOrFilter(s: CanonicalStatus): (r: Option<string>)
    ensures r.Some?
    ensures Split(r.value, ',') == IlikeClauses("status", Aliases(s))
  {
    var aliases := Aliases(s);
    if |aliases| == 0 then None
    else
      var clauses := IlikeClauses("status", aliases);
      ClausesHaveNoComma(s, clauses);
      SplitJoin(clauses, ',');
      Some(Join(clauses, ','))
  }

  datatype BadgeVariant = SuccessBadge | DangerBadge | WarningBadge | NeutralBadge

  /** `STATUS_BADGE_VARIANT` */
  function StatusBadgeVariant(s: CanonicalStatus): (v: BadgeVariant)
    ensures v == SuccessBadge <==> s == Approved
    ensures v == DangerBadge <==> s == Blocked
    ensures v == WarningBadge <==> s == Review
  {
    match s
    case Approved => SuccessBadge
    case Blocked => DangerBadge
    case Review => WarningBadge
    case CheckedIn => NeutralBadge
  }

  /** The badge table gives the four statuses four different variants. */
  lemma BadgeVariantInjective(s: CanonicalStatus, t: CanonicalStatus)
    ensures StatusBadgeVariant(s) == StatusBadgeVariant(t) ==> s == t
  {
  }

  /** `displayStatusLabel()`: the same label whatever the status. */
  function DisplayStatusLabel(): (r: string)
    ensures r == "Complete"
  {
    "Complete"
  }
}
