/** The session store of the check-in wizard (`VisitorFlowProvider`): six
    state cells, merge-style updaters and a one-way `submitted` flag. */
module VisitorFlow {
  import opened Common

  datatype Identity = Identity(
    fullName: string, mobile: string, email: string, company: string,
    escortRequired: bool, alertsOptIn: bool)

  datatype VisitDetails = VisitDetails(
    purpose: string, otherPurpose: string, meetingWith: string,
    date: string, priority: int, entryLane: string)

  /** `Partial<Identity>`: `None` marks a field the payload leaves out. */
  datatype IdentityPatch = IdentityPatch(
    fullName: Option<string>, mobile: Option<string>, email: Option<string>,
    company: Option<string>, escortRequired: Option<bool>, alertsOptIn: Option<bool>)

  /** `Partial<VisitDetails>` */
  datatype VisitDetailsPatch = VisitDetailsPatch(
    purpose: Option<string>, otherPurpose: Option<string>, meetingWith: Option<string>,
    date: Option<string>, priority: Option<int>, entryLane: Option<string>)

  /** The keys of `healthQuestionItems`, in order. */
  const HealthQuestions: seq<string> := [
    "Diarrhea", "Vomiting", "Influenza", "Ear, Nose, Throat infections",
    "Skin rashes", "Recurring boils"]

  /** `defaultHealthState`: every question answered "no". */
  function DefaultHealth(): (h: map<string, bool>)
    ensures h.Keys == set q | q in HealthQuestions
    ensures forall q :: q in h ==> !h[q]
  {
    map q | q in HealthQuestions :: false
  }

  lemma HealthQuestionsDistinct()
    ensures forall i, j :: 0 <= i < j < |HealthQuestions| ==> HealthQuestions[i] != HealthQuestions[j]
  {
  }

  const DefaultIdentity: Identity := Identity("", "", "", "", false, true)

  /** `defaultVisitDetails`, with the clock reading `now` as its date. */
  function DefaultVisitDetails(now: string): (d: VisitDetails)
    ensures d.purpose == "Meeting" && d.priority == 48 && d.entryLane == ""
    ensures d.otherPurpose == "" && d.meetingWith == "" && d.date == now
  {
    VisitDetails("Meeting", "", "", now, 48, "")
  }

  /** `{ ...prev, ...payload }` on an identity. */
  function MergeIdentity(prev: Identity, p: IdentityPatch): (r: Identity)
    ensures p.fullName.Some? ==> r.fullName == p.fullName.value
    ensures p.fullName.None? ==> r.fullName == prev.fullName
    ensures p.mobile.Some? ==> r.mobile == p.mobile.value
    ensures p.mobile.None? ==> r.mobile == prev.mobile
    ensures p.email.Some? ==> r.email == p.email.value
    ensures p.email.None? ==> r.email == prev.email
    ensures p.company.Some? ==> r.company == p.company.value
    ensures p.company.None? ==> r.company == prev.company
    ensures p.escortRequired.Some? ==> r.escortRequired == p.escortRequired.value
    ensures p.escortRequired.None? ==> r.escortRequired == prev.escortRequired
    ensures p.alertsOptIn.Some? ==> r.alertsOptIn == p.alertsOptIn.value
    ensures p.alertsOptIn.None? ==> r.alertsOptIn == prev.alertsOptIn
  {
    Identity(
      p.fullName.GetOr(prev.fullName), p.mobile.GetOr(prev.mobile),
      p.email.GetOr(prev.email), p.company.GetOr(prev.company),
      p.escortRequired.GetOr(prev.escortRequired), p.alertsOptIn.GetOr(prev.alertsOptIn))
  }

  /** `{ ...prev, ...payload }` on the visit details. */
  function MergeVisitDetails(prev: VisitDetails, p: VisitDetailsPatch): (r: VisitDetails)
    ensures p.purpose.Some? ==> r.purpose == p.purpose.value
    ensures p.purpose.None? ==> r.purpose == prev.purpose
    ensures p.otherPurpose.Some? ==> r.otherPurpose == p.otherPurpose.value
    ensures p.otherPurpose.None? ==> r.otherPurpose == prev.otherPurpose
    ensures p.meetingWith.Some? ==> r.meetingWith == p.meetingWith.value
    ensures p.meetingWith.None? ==> r.meetingWith == prev.meetingWith
    ensures p.date.Some? ==> r.date == p.date.value
    ensures p.date.None? ==> r.date == prev.date
    ensures p.priority.Some? ==> r.priority == p.priority.value
    ensures p.priority.None? ==> r.priority == prev.priority
    ensures p.entryLane.Some? ==> r.entryLane == p.entryLane.value
    ensures p.entryLane.None? ==> r.entryLane == prev.entryLane
  {
    VisitDetails(
      p.purpose.GetOr(prev.purpose), p.otherPurpose.GetOr(prev.otherPurpose),
      p.meetingWith.GetOr(prev.meetingWith), p.date.GetOr(prev.date),
      p.priority.GetOr(prev.priority), p.entryLane.GetOr(prev.entryLane))
  }

  /** Merging the same payload twice is merging it once. */
  lemma MergeIdentityIdempotent(prev: Identity, p: IdentityPatch)
    ensures MergeIdentity(MergeIdentity(prev, p), p) == MergeIdentity(prev, p)
  {
  }

  /** The empty payload changes nothing. */
  lemma MergeIdentityEmpty(prev: Identity)
    ensures MergeIdentity(prev, IdentityPatch(None, None, None, None, None, None)) == prev
  {
  }

  lemma MergeVisitDetailsIdempotent(prev: VisitDetails, p: VisitDetailsPatch)
    ensures MergeVisitDetails(MergeVisitDetails(prev, p), p) == MergeVisitDetails(prev, p)
  {
  }

  /** The store behind `VisitorFlowContext`. */
  class FlowStore {
    var identity: Identity
    var visitDetails: VisitDetails
    var health: map<string, bool>
    var snapshot: Option<string>
    var consent: bool
    var submitted: bool

    /** The health answers always cover exactly the six questions. */
    predicate Valid()
      reads this
    {
      health.Keys == set q | q in HealthQuestions
    }

    /** The provider's initial state; `now` is `new Date().toISOString()`. */
    constructor(now: string)
      ensures Valid()
      ensures identity == DefaultIdentity
      ensures visitDetails == DefaultVisitDetails(now)
      ensures health == DefaultHealth()
      ensures snapshot.None? && !consent && !submitted
    {
      identity := DefaultIdentity;
      visitDetails := DefaultVisitDetails(now);
      health := DefaultHealth();
      snapshot := None;
      consent := false;
      submitted := false;
    }

    method UpdateIdentity(p: IdentityPatch)
      requires Valid()
      modifies this
      ensures Valid()
      ensures identity == MergeIdentity(old(identity), p)
      ensures visitDetails == old(visitDetails) && health == old(health)
      ensures snapshot == old(snapshot) && consent == old(consent) && submitted == old(submitted)
    {
      identity := MergeIdentity(identity, p);
    }

    method UpdateVisitDetails(p: VisitDetailsPatch)
      requires Valid()
      modifies this
      ensures Valid()
      ensures visitDetails == MergeVisitDetails(old(visitDetails), p)
      ensures identity == old(identity) && health == old(health)
      ensures snapshot == old(snapshot) && consent == old(consent) && submitted == old(submitted)
    {
      visitDetails := MergeVisitDetails(visitDetails, p);
    }

    /** `updateHealth(question, value)`; the question is a key of
        `HealthState` by its type. */
    method UpdateHealth(question: string, value: bool)
      requires Valid() && question in HealthQuestions
      modifies this
      ensures Valid()
      ensures health == old(health)[question := value]
      ensures identity == old(identity) && visitDetails == old(visitDetails)
      ensures snapshot == old(snapshot) && consent == old(consent) && submitted == old(submitted)
    {
      health := health[question := value];
    }

    /** `updateSelfie(snapshot)` replaces the selfie state; `None` clears it. */
    method UpdateSelfie(s: Option<string>)
      requires Valid()
      modifies this
      ensures Valid()
      ensures snapshot == s
      ensures identity == old(identity) && visitDetails == old(visitDetails) && health == old(health)
      ensures consent == old(consent) && submitted == old(submitted)
    {
      snapshot := s;
    }

    method UpdateConsent(value: bool)
      requires Valid()
      modifies this
      ensures Valid()
      ensures consent == value
      ensures identity == old(identity) && visitDetails == old(visitDetails) && health == old(health)
      ensures snapshot == old(snapshot) && submitted == old(submitted)
    {
      consent := value;
    }

    /** `markSubmitted()`: the flag only ever becomes true; no method of the
        store sets it back. */
    method MarkSubmitted()
      requires Valid()
      modifies this
      ensures Valid()
      ensures submitted
      ensures identity == old(identity) && visitDetails == old(visitDetails) && health == old(health)
      ensures snapshot == old(snapshot) && consent == old(consent)
    {
      submitted := true;
    }
  }

  /** Updating one health answer leaves the six-key shape and every other
      answer as they were. */
  lemma UpdateHealthKeepsOthers(h: map<string, bool>, q: string, v: bool, other: string)
    requires h.Keys == (set k | k in HealthQuestions) && q in HealthQuestions
    requires other in h && other != q
    ensures (h[q := v]).Keys == h.Keys
    ensures h[q := v][other] == h[other] && h[q := v][q] == v
  {
  }

  const OutsideProviderMessage := "useVisitorFlow must be used within VisitorFlowProvider"

  /** `useVisitorFlow()`: the nearest provider's store, or the error it throws
      when there is none. */
  function UseVisitorFlow(context: Option<FlowStore>): (r: Result<FlowStore, string>)
    ensures context.None? ==> r == Failure(OutsideProviderMessage)
    ensures context.Some? ==> r == Success(context.value)
  {
    match context
    case None => Failure(OutsideProviderMessage)
    case Some(store) => Success(store)
  }
}
