/** The pure decisions of the check-in wizard (`app/visitor/checkin/page.tsx`):
    the email pattern, the per-section completeness rules, the completion
    percentage, the first incomplete section and the smart hint. */
module CheckinRules {
  import opened Common
  import opened Text
  import opened VisitorFlow

  /** Neither whitespace nor `@`: the class `[^\s@]` of the email pattern. */
  predicate PlainChars(s: string) {
    forall i :: 0 <= i < |s| ==> !IsSpace(s[i]) && s[i] != '@'
  }

  /** The regular expression `^[^\s@]+@[^\s@]+\.[^\s@]+$` as a property: a
      non-empty local part, `@`, a non-empty label, `.`, a non-empty rest,
      none of them holding whitespace or `@`. */
  ghost predicate MatchesEmailPattern(v: string) {
    exists i, j :: 0 < i && i + 1 < j && j + 1 < |v| && v[i] == '@' && v[j] == '.' &&
      PlainChars(v[..i]) && PlainChars(v[i + 1..j]) && PlainChars(v[j + 1..])
  }

  /** The email shape checked directly: no whitespace, exactly one `@`, not
      first, and a `.` in the domain that is neither its first nor its last
      character. */
  predicate EmailShape(v: string) {
    NoSpace(v) && '@' in v &&
    var at := IndexOf(v, '@');
    var domain := v[at + 1..];
    at > 0 && '@' !in domain && |domain| >= 3 && '.' in domain[1..|domain| - 1]
  }

  /** `isEmailValid` */
  predicate IsEmailValid(email: string)
    ensures IsEmailValid(email) ==> NoSpace(Trim(email)) && '@' in Trim(email)
  {
    var v := Trim(email);
    |v| > 0 && EmailShape(v)
  }

  /** A slice of a whitespace-free string that avoids every `@` is plain. */
  lemma PlainOfSlice(v: string, a: int, b: int)
    requires 0 <= a <= b <= |v| && NoSpace(v)
    requires forall t :: a <= t < b ==> v[t] != '@'
    ensures PlainChars(v[a..b])
  {
    forall t | 0 <= t < b - a
      ensures !IsSpace(v[a..b][t]) && v[a..b][t] != '@'
    {
      assert v[a..b][t] == v[a + t];
    }
  }

  lemma ShapeGivesPattern(v: string)
    requires EmailShape(v)
    ensures MatchesEmailPattern(v)
  {
    var i := IndexOf(v, '@');
    var domain := v[i + 1..];
    var mid := domain[1..|domain| - 1];
    var k := IndexOf(mid, '.');
    var j := i + 2 + k;
    assert v[j] == '.' by { assert v[j] == domain[k + 1] == mid[k]; }
    forall t | 0 <= t < |v| && t != i
      ensures v[t] != '@'
    {
      if t < i {
        assert v[t] == v[..i][t];
      } else {
        assert v[t] == domain[t - i - 1];
      }
    }
    PlainOfSlice(v, 0, i);
    PlainOfSlice(v, i + 1, j);
    PlainOfSlice(v, j + 1, |v|);
    assert v[..i] == v[0..i];
    assert v[j + 1..] == v[j + 1..|v|];
  }

  lemma PatternGivesShape(v: string, i: int, j: int)
    requires 0 < i && i + 1 < j && j + 1 < |v| && v[i] == '@' && v[j] == '.'
    requires PlainChars(v[..i]) && PlainChars(v[i + 1..j]) && PlainChars(v[j + 1..])
    ensures EmailShape(v)
  {
    forall t | 0 <= t < |v| && t != i
      ensures !IsSpace(v[t]) && v[t] != '@'
    {
      if t < i {
        assert v[t] == v[..i][t];
      } else if t < j {
        assert v[t] == v[i + 1..j][t - i - 1];
      } else if t > j {
        assert v[t] == v[j + 1..][t - j - 1];
      }
    }
    assert NoSpace(v);
    var domain := v[i + 1..];
    assert '@' !in domain by {
      forall t | 0 <= t < |domain| ensures domain[t] != '@' {
        assert domain[t] == v[i + 1 + t];
      }
    }
    assert IndexOf(v, '@') == i;
    var mid := domain[1..|domain| - 1];
    assert mid[j - i - 2] == '.';
  }

  /** The direct check accepts exactly the strings the regular expression matches. */
  lemma EmailShapeIffPattern(v: string)
    ensures EmailShape(v) <==> MatchesEmailPattern(v)
  {
    if EmailShape(v) {
      ShapeGivesPattern(v);
    }
    if MatchesEmailPattern(v) {
      var i, j :| 0 < i && i + 1 < j && j + 1 < |v| && v[i] == '@' && v[j] == '.' &&
        PlainChars(v[..i]) && PlainChars(v[i + 1..j]) && PlainChars(v[j + 1..]);
      PatternGivesShape(v, i, j);
    }
  }

  /** `isEmailValid` holds exactly when the trimmed value is non-empty and
      matches the pattern. */
  lemma EmailValidIff(email: string)
    ensures IsEmailValid(email) <==> |Trim(email)| > 0 && MatchesEmailPattern(Trim(email))
  {
    EmailShapeIffPattern(Trim(email));
  }

  /** A concrete accepted address. */
  lemma EmailAccepted()
    ensures IsEmailValid("a@b.co")
  {
    var v := "a@b.co";
    TrimOfNoSpace(v);
    assert IndexOf(v, '@') == 1;
    assert v[2..] == "b.co";
    assert "b.co"[1..3] == ".c";
  }

  /** An address without a dot in its domain is rejected. */
  lemma EmailWithoutDotRejected()
    ensures !IsEmailValid("a@b")
  {
    var v := "a@b";
    TrimOfNoSpace(v);
    assert IndexOf(v, '@') == 1;
  }

  /** An address with an empty local part is rejected. */
  lemma EmailWithoutLocalPartRejected()
    ensures !IsEmailValid("@b.co")
  {
    var v := "@b.co";
    TrimOfNoSpace(v);
    assert IndexOf(v, '@') == 0;
  }

  /** `identityComplete` */
  predicate IdentityComplete(id: Identity)
    ensures IdentityComplete(id) ==> !AllSpace(id.fullName) && !AllSpace(id.mobile)
    ensures IdentityComplete(id) ==> NoSpace(Trim(id.email)) && '@' in Trim(id.email)
  {
    BlankIffAllSpace(id.fullName);
    BlankIffAllSpace(id.mobile);
    !IsBlank(id.fullName) && !IsBlank(id.mobile) && IsEmailValid(id.email)
  }

  /** `visitDetailsComplete` */
  predicate VisitDetailsComplete(d: VisitDetails)
    ensures VisitDetailsComplete(d) ==> !AllSpace(d.meetingWith)
    ensures VisitDetailsComplete(d) && d.purpose == "Other" ==> !AllSpace(d.otherPurpose)
    ensures d.purpose != "Other" && !AllSpace(d.meetingWith) ==> VisitDetailsComplete(d)
  {
    BlankIffAllSpace(d.meetingWith);
    BlankIffAllSpace(d.otherPurpose);
    !IsBlank(d.meetingWith) && !(d.purpose == "Other" && IsBlank(d.otherPurpose))
  }

  /** The five flags of `completionPercent` and `isAllComplete`. */
  datatype Flags = Flags(identity: bool, visitDetails: bool, selfie: bool, siteNorms: bool, consent: bool)

  /** `Boolean(selfie.snapshot)`: present and non-empty. */
  predicate SelfieComplete(snapshot: Option<string>)
    ensures SelfieComplete(snapshot) ==> snapshot.Some? && |snapshot.value| > 0
    ensures snapshot == Some("") ==> !SelfieComplete(snapshot)
  {
    snapshot.Some? && snapshot.value != ""
  }

  /** The flags of the wizard's current state. */
  function FlagsOf(id: Identity, d: VisitDetails, snapshot: Option<string>, normsAccepted: bool, consent: bool): (f: Flags)
    ensures f.identity == IdentityComplete(id) && f.visitDetails == VisitDetailsComplete(d)
    ensures f.selfie == SelfieComplete(snapshot) && f.siteNorms == normsAccepted && f.consent == consent
  {
    Flags(IdentityComplete(id), VisitDetailsComplete(d), SelfieComplete(snapshot), normsAccepted, consent)
  }

  /** `isAllComplete`: all five flags; the health section takes no part. */
  predicate IsAllComplete(f: Flags)
    ensures IsAllComplete(f) <==> IsSectionComplete(f, 0) && IsSectionComplete(f, 1) && IsSectionComplete(f, 3) &&
                                  IsSectionComplete(f, 4) && IsSectionComplete(f, 5)
  {
    f.identity && f.visitDetails && f.selfie && f.siteNorms && f.consent
  }

  /** `isSectionComplete(index)` */
  predicate IsSectionComplete(f: Flags, index: int)
    ensures index == 2 ==> IsSectionComplete(f, index)
    ensures !(0 <= index <= 5) ==> !IsSectionComplete(f, index)
  {
    if index == 0 then f.identity
    else if index == 1 then f.visitDetails
    else if index == 2 then true
    else if index == 3 then f.selfie
    else if index == 4 then f.siteNorms
    else if index == 5 then f.consent
    else false
  }

  /** Every section is complete exactly when all five flags hold. */
  lemma AllSectionsIffAllComplete(f: Flags)
    ensures (forall k :: 0 <= k <= 5 ==> IsSectionComplete(f, k)) <==> IsAllComplete(f)
  {
    if forall k :: 0 <= k <= 5 ==> IsSectionComplete(f, k) {
      assert IsSectionComplete(f, 0) && IsSectionComplete(f, 1) && IsSectionComplete(f, 3);
      assert IsSectionComplete(f, 4) && IsSectionComplete(f, 5);
    }
  }

  /** `[0, 1, 2, 3, 4, 5].find(index => !isSectionComplete(index))` restricted
      to the indices from `k` on. */
  function FirstIncompleteFrom(f: Flags, k: int): (r: Option<int>)
    requires 0 <= k <= 6
    ensures r.Some? ==> k <= r.value <= 5 && !IsSectionComplete(f, r.value)
    ensures r.Some? ==> forall m :: k <= m < r.value ==> IsSectionComplete(f, m)
    ensures r.None? ==> forall m :: k <= m <= 5 ==> IsSectionComplete(f, m)
    decreases 6 - k
  {
    if k == 6 then None
    else if !IsSectionComplete(f, k) then Some(k)
    else FirstIncompleteFrom(f, k + 1)
  }

  /** `firstIncompleteSection`: the least incomplete index of 0..5, if any. */
  function FirstIncompleteSection(f: Flags): (r: Option<int>)
    ensures r.Some? ==> 0 <= r.value <= 5 && !IsSectionComplete(f, r.value)
    ensures r.Some? ==> forall m :: 0 <= m < r.value ==> IsSectionComplete(f, m)
    ensures r.None? ==> forall m :: 0 <= m <= 5 ==> IsSectionComplete(f, m)
  {
    FirstIncompleteFrom(f, 0)
  }

  /** There is no incomplete section exactly when everything is complete,
      and the health section is never the one reported. */
  lemma FirstIncompleteSpec(f: Flags)
    ensures FirstIncompleteSection(f).None? <==> IsAllComplete(f)
    ensures FirstIncompleteSection(f) != Some(2)
  {
    AllSectionsIffAllComplete(f);
    if FirstIncompleteSection(f).None? {
      assert forall m :: 0 <= m <= 5 ==> IsSectionComplete(f, m);
    } else if !IsAllComplete(f) {
      var r := FirstIncompleteSection(f).value;
      assert !IsSectionComplete(f, r);
    }
  }

  /** The number of true flags among `identity, visitDetails, selfie,
      siteNorms, consent`. */
  function CountTrue(f: Flags): (n: nat)
    ensures n <= 5
    ensures n == 5 <==> IsAllComplete(f)
  {
    (if f.identity then 1 else 0) + (if f.visitDetails then 1 else 0) + (if f.selfie then 1 else 0) +
    (if f.siteNorms then 1 else 0) + (if f.consent then 1 else 0)
  }

  /** `Math.round(n / d)` for a non-negative rational `n / d` (halves round up). */
  function RoundDiv(n: nat, d: nat): (r: nat)
    requires d > 0
    ensures r * d * 2 <= 2 * n + d < (r + 1) * d * 2
  {
    (2 * n + d) / (2 * d)
  }

  /** `completionPercent`: `Math.round(count / 5 * 100)`. */
  function CompletionPercent(f: Flags): (p: nat)
    ensures p == 20 * CountTrue(f)
    ensures p <= 100
    ensures p == 100 <==> IsAllComplete(f)
  {
    var n := CountTrue(f);
    var p := RoundDiv(n * 100, 5);
    assert p == 20 * n by {
      assert (2 * (n * 100) + 5) / 10 == 20 * n;
    }
    p
  }

  datatype Tone = Info | Warning | SuccessTone

  datatype Hint = Hint(title: string, detail: string, sectionIndex: int, tone: Tone, buttonLabel: string)

  const ReadyTitle := "Ready for the gate"

  /** `healthAlert`: some answer is "yes". */
  predicate HealthAlert(health: map<string, bool>)
    ensures health == DefaultHealth() ==> !HealthAlert(health)
  {
    exists q :: q in health && health[q]
  }

  /** The six hints `smartHint` can show. */
  datatype HintKind = IdentityHint | VisitHint | HealthHint | SelfieHint | ConsentHint | ReadyHint

  /** Which hint shows: the first failing check in the order identity, visit
      details, health alert, selfie, consent. */
  function HintFor(f: Flags, healthAlert: bool): (k: HintKind)
    ensures k == ReadyHint <==> f.identity && f.visitDetails && !healthAlert && f.selfie && f.consent
  {
    if !f.identity then IdentityHint
    else if !f.visitDetails then VisitHint
    else if healthAlert then HealthHint
    else if !f.selfie then SelfieHint
    else if !f.consent then ConsentHint
    else ReadyHint
  }

  /** The section each hint scrolls to; the ready hint points at consent. */
  function HintSection(k: HintKind): (i: int)
    ensures i in {0, 1, 2, 3, 5}
  {
    match k
    case IdentityHint => 0
    case VisitHint => 1
    case HealthHint => 2
    case SelfieHint => 3
    case ConsentHint => 5
    case ReadyHint => 5
  }

  function HintTone(k: HintKind): (t: Tone)
    ensures t == SuccessTone <==> k == ReadyHint
  {
    match k
    case IdentityHint => Warning
    case VisitHint => Warning
    case HealthHint => Warning
    case SelfieHint => Info
    case ConsentHint => Info
    case ReadyHint => SuccessTone
  }

  function HintTitle(k: HintKind): (t: string)
    ensures t != ""
    ensures t == "Health flags detected" <==> k == HealthHint
  {
    match k
    case IdentityHint => "Identity incomplete"
    case VisitHint => "Visit details in review"
    case HealthHint => "Health flags detected"
    case SelfieHint => "Selfie missing"
    case ConsentHint => "Consent required"
    case ReadyHint => ReadyTitle
  }

  function HintDetail(k: HintKind): (d: string)
    ensures d != ""
    ensures d == "All sections are aligned. Hit submit when ready." <==> k == ReadyHint
  {
    match k
    case IdentityHint => "Add your full name and mobile so the gate team can issue a badge instantly."
    case VisitHint => "Select a host, purpose, and entry lane before moving forward."
    case HealthHint => "An alert was raised. HACCP may review before granting access."
    case SelfieHint => "Capture your photo so the security team can confirm your identity."
    case ConsentHint => "Authorize data usage to unlock the submit control."
    case ReadyHint => "All sections are aligned. Hit submit when ready."
  }

  function HintButton(k: HintKind): (b: string)
    ensures b != ""
    ensures b == "Submit now" <==> k == ReadyHint
  {
    match k
    case IdentityHint => "Finish identity"
    case VisitHint => "Describe visit"
    case HealthHint => "Review health"
    case SelfieHint => "Grab selfie"
    case ConsentHint => "Grant consent"
    case ReadyHint => "Submit now"
  }

  /** Only the ready hint carries the ready title. */
  lemma ReadyTitleOnlyWhenReady(k: HintKind)
    ensures HintTitle(k) == ReadyTitle <==> k == ReadyHint
  {
  }

  /** `smartHint` */
  function SmartHint(f: Flags, healthAlert: bool): (h: Hint)
    ensures h.sectionIndex in {0, 1, 2, 3, 5}
    ensures h.tone == SuccessTone <==> f.identity && f.visitDetails && !healthAlert && f.selfie && f.consent
  {
    var k := HintFor(f, healthAlert);
    Hint(HintTitle(k), HintDetail(k), HintSection(k), HintTone(k), HintButton(k))
  }

  /** The ready title shows exactly when every check the hint reads passes. */
  lemma SmartHintReadyTitle(f: Flags, healthAlert: bool)
    ensures SmartHint(f, healthAlert).title == ReadyTitle <==>
            f.identity && f.visitDetails && !healthAlert && f.selfie && f.consent
  {
    ReadyTitleOnlyWhenReady(HintFor(f, healthAlert));
  }

  /** The hint never reads the site-norms flag. */
  lemma SmartHintIgnoresSiteNorms(f: Flags, healthAlert: bool, norms: bool)
    ensures SmartHint(f.(siteNorms := norms), healthAlert) == SmartHint(f, healthAlert)
  {
  }

  /** So the "ready" hint shows while the site norms are unchecked and the
      wizard is not complete. */
  lemma ReadyWithNormsUnchecked()
    ensures var f := Flags(true, true, true, false, true);
            SmartHint(f, false).title == ReadyTitle && !IsAllComplete(f)
  {
    SmartHintReadyTitle(Flags(true, true, true, false, true), false);
  }

  /** A warning or info hint that is not the health alert points at a
      section that is incomplete. */
  lemma SmartHintTargetsIncomplete(f: Flags, healthAlert: bool)
    requires SmartHint(f, healthAlert).tone != SuccessTone
    requires SmartHint(f, healthAlert).sectionIndex != 2
    ensures !IsSectionComplete(f, SmartHint(f, healthAlert).sectionIndex)
  {
    HintTargetsIncomplete(f, healthAlert);
  }

  /** The same on the hint's kind: a warning or info hint other than the
      health alert points at an incomplete section. */
  lemma HintTargetsIncomplete(f: Flags, healthAlert: bool)
    requires HintTone(HintFor(f, healthAlert)) != SuccessTone
    requires HintSection(HintFor(f, healthAlert)) != 2
    ensures !IsSectionComplete(f, HintSection(HintFor(f, healthAlert)))
  {
  }

  /** When the identity is incomplete the hint is the identity one; when only
      later checks fail, it targets the earliest of them. */
  lemma SmartHintPrecedence(f: Flags, healthAlert: bool)
    ensures !f.identity ==> SmartHint(f, healthAlert).sectionIndex == 0
    ensures f.identity && !f.visitDetails ==> SmartHint(f, healthAlert).sectionIndex == 1
    ensures f.identity && f.visitDetails && healthAlert ==> SmartHint(f, healthAlert).sectionIndex == 2
    ensures f.identity && f.visitDetails && !healthAlert && !f.selfie ==> SmartHint(f, healthAlert).sectionIndex == 3
  {
  }
}
