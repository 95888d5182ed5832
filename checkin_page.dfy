/** The stateful part of the check-in wizard (`app/visitor/checkin/page.tsx`):
    navigation between the six sections, the camera state machine and the
    submission pipeline (upload, insert, best-effort email, route). */
module CheckinPage {
  import opened Common
  import opened Text
  import opened Base64
  import opened VisitorFlow
  import opened CheckinRules
  import opened Selfie
  import Status

  const SectionCount := 6
  const ValidationText := "Please fill the highlighted section before moving on."
  /** `entryLaneOptions[0].value`, spaces included. */
  const DefaultEntryLane := " BAKEMATE FACTORY JEDDAH "
  const SelfieBucket := "visitor-selfies"
  const VisitsTable := "visits"
  const SaveFallback := "Unable to save visit."

  // ---------------------------------------------------------------------
  // Focus

  /** The inputs `focusSectionInput` can focus. */
  datatype FocusTarget = FullNameInput | EmailInput | MobileInput | MeetingInput | OtherPurposeInput | ConsentCheckbox

  /** The section each input belongs to. */
  function SectionOfTarget(t: FocusTarget): (i: int)
    ensures 0 <= i < SectionCount
  {
    match t
    case FullNameInput => 0
    case EmailInput => 0
    case MobileInput => 0
    case MeetingInput => 1
    case OtherPurposeInput => 1
    case ConsentCheckbox => 5
  }

  /** The input of an identity or visit-details section to focus. */
  function FieldFocus(id: Identity, d: VisitDetails, index: int): (r: Option<FocusTarget>)
  {
    if index == 0 then
      if IsBlank(id.fullName) then Some(FullNameInput)
      else if !IsEmailValid(id.email) then Some(EmailInput)
      else Some(MobileInput)
    else if index == 1 then
      if IsBlank(d.meetingWith) then Some(MeetingInput)
      else if d.purpose == "Other" && IsBlank(d.otherPurpose) then Some(OtherPurposeInput)
      else None
    else None
  }

  /** `focusSectionInput(index)` as written: the consent checkbox is focused
      for index 4, the site-norms section. */
  function FocusTargetAsWritten(id: Identity, d: VisitDetails, index: int): (r: Option<FocusTarget>)
    ensures index == 4 ==> r == Some(ConsentCheckbox)
    ensures index == 5 ==> r == None
  {
    if index == 4 then Some(ConsentCheckbox) else FieldFocus(id, d, index)
  }

  /** As written, the checkbox focused for the site-norms section lies in
      another section, and the consent section focuses nothing. */
  lemma FocusAsWrittenLeavesItsSection(id: Identity, d: VisitDetails)
    ensures FocusTargetAsWritten(id, d, 4).Some?
    ensures SectionOfTarget(FocusTargetAsWritten(id, d, 4).value) != 4
    ensures FocusTargetAsWritten(id, d, 5).None?
  {
  }

  /** `focusSectionInput(index)` with the consent checkbox focused for the
      consent section, index 5. */
  function FocusTargetFor(id: Identity, d: VisitDetails, index: int): (r: Option<FocusTarget>)
    ensures index == 5 ==> r == Some(ConsentCheckbox)
    ensures index != 5 ==> r == FieldFocus(id, d, index)
  {
    if index == 5 then Some(ConsentCheckbox) else FieldFocus(id, d, index)
  }

  /** The focused input always lies in the section being fixed, and an
      incomplete identity, visit-details or consent section always gets one;
      for the identity the first failing field is chosen. */
  lemma FocusTargetInSection(id: Identity, d: VisitDetails, index: int)
    ensures FocusTargetFor(id, d, index).Some? ==> SectionOfTarget(FocusTargetFor(id, d, index).value) == index
    ensures index == 0 || index == 5 ==> FocusTargetFor(id, d, index).Some?
    ensures index == 1 && !VisitDetailsComplete(d) ==> FocusTargetFor(id, d, index).Some?
    ensures index == 0 && !IsBlank(id.fullName) && !IsEmailValid(id.email) ==> FocusTargetFor(id, d, 0) == Some(EmailInput)
  {
  }

  /** The input focused after `focusSectionInput(index)`, as written: the
      previous one when the call focuses nothing. */
  function FocusAfter(prev: Option<FocusTarget>, id: Identity, d: VisitDetails, index: int): Option<FocusTarget>
  {
    var t := FocusTargetAsWritten(id, d, index);
    if t.Some? then t else prev
  }

  // ---------------------------------------------------------------------
  // Scroll targets

  /** The refs the page declares for its six section elements. */
  datatype SectionRef = IdentityRef | VisitDetailsRef | HealthRef | SelfieRef | SiteNormsRef | ConsentRef

  /** `targets[index]` in `scrollToSection`: the ref looked up for a section. */
  function TargetRef(index: int): (r: Option<SectionRef>)
    ensures r.Some? <==> 0 <= index < SectionCount
  {
    if index == 0 then Some(IdentityRef)
    else if index == 1 then Some(VisitDetailsRef)
    else if index == 2 then Some(HealthRef)
    else if index == 3 then Some(SelfieRef)
    else if index == 4 then Some(SiteNormsRef)
    else if index == 5 then Some(ConsentRef)
    else None
  }

  /** The ref the section element of each index is rendered with, as
      written: every index from 4 on receives `consentRef`. */
  function RenderedRef(index: int): (r: SectionRef)
    requires 0 <= index < SectionCount
    ensures index != 4 ==> TargetRef(index) == Some(r)
    ensures index == 4 ==> r == ConsentRef && TargetRef(index) != Some(r)
    ensures r != SiteNormsRef
  {
    if index == 0 then IdentityRef
    else if index == 1 then VisitDetailsRef
    else if index == 2 then HealthRef
    else if index == 3 then SelfieRef
    else ConsentRef
  }

  /** A ref holds an element exactly when some rendered section receives it. */
  predicate Attached(r: SectionRef)
  {
    exists j :: 0 <= j < SectionCount && RenderedRef(j) == r
  }

  /** `targets[index]?.current` is set: the scroll container is always
      rendered, so this alone decides whether `scrollToSection` scrolls. */
  predicate HasScrollTarget(index: int)
  {
    TargetRef(index).Some? && Attached(TargetRef(index).value)
  }

  /** As written, every section but the site norms (index 4) has a scroll
      target: `siteNormsRef` is declared but never attached. */
  lemma ScrollTargetsAsWritten(index: int)
    ensures HasScrollTarget(index) <==> 0 <= index < SectionCount && index != 4
  {
    assert RenderedRef(0) == IdentityRef && RenderedRef(1) == VisitDetailsRef;
    assert RenderedRef(2) == HealthRef && RenderedRef(3) == SelfieRef && RenderedRef(5) == ConsentRef;
    if index == 4 {
      forall j | 0 <= j < SectionCount
        ensures RenderedRef(j) != SiteNormsRef
      {
      }
    }
  }

  /** The active section after `scrollToSection(index)`. */
  function ScrolledTo(active: int, index: int): int
  {
    if HasScrollTarget(index) then index else active
  }

  /** As written, scrolling to the site norms leaves the active section as it
      was, while scrolling to any other section makes it active. */
  lemma ScrollToSiteNormsIsNoOp(active: int, index: int)
    ensures ScrolledTo(active, 4) == active
    ensures 0 <= index < SectionCount && index != 4 ==> ScrolledTo(active, index) == index
  {
    ScrollTargetsAsWritten(4);
    ScrollTargetsAsWritten(index);
  }

  /** The ref each section would receive if the site-norms section were
      given its own: the one `scrollToSection` looks up for it. */
  function IntendedRef(index: int): SectionRef
    requires 0 <= index < SectionCount
  {
    TargetRef(index).value
  }

  /** A ref holds an element under the intended rendering. */
  predicate AttachedIntended(r: SectionRef)
  {
    exists j :: 0 <= j < SectionCount && IntendedRef(j) == r
  }

  /** `scrollToSection` finds its target under the intended rendering. */
  predicate HasScrollTargetIntended(index: int)
  {
    TargetRef(index).Some? && AttachedIntended(TargetRef(index).value)
  }

  /** Corrected: with each section rendered with its own ref, every one of
      the six sections has a scroll target, and no other index does. */
  lemma EverySectionScrollable(index: int)
    ensures HasScrollTargetIntended(index) <==> 0 <= index < SectionCount
  {
    if 0 <= index < SectionCount {
      assert IntendedRef(index) == TargetRef(index).value;
    }
  }

  // ---------------------------------------------------------------------
  // Camera

  datatype CameraState = Idle | Starting | Active | Failed

  /** How `getUserMedia` settles: a stream, a `DOMException` with its name,
      or any other thrown value. */
  datatype CameraOutcome = Granted(stream: nat) | DomException(name: string) | OtherFailure

  const NotSupportedMessage := "Camera access is not supported on this device."
  const InsecureMessage := "Camera requires a secure (HTTPS) context. Please switch to a secure connection."
  const PermissionMessage := "Camera permission was denied. Click 'Enable camera' to retry."
  const NoDeviceMessage := "No camera devices detected."
  const CameraUnavailableMessage := "Unable to start the camera at this time."
  const StreamFailedMessage := "Camera stream failed to load."

  /** The message of the `catch` block of `startCamera`. */
  function CameraFailureMessage(o: CameraOutcome): (m: string)
    requires !o.Granted?
    ensures m == PermissionMessage <==> o.DomException? && (o.name == "NotAllowedError" || o.name == "SecurityError")
    ensures m == NoDeviceMessage <==> o == DomException("NotFoundError")
    ensures m == CameraUnavailableMessage <==>
            o.DomException? && o.name != "NotAllowedError" && o.name != "SecurityError" && o.name != "NotFoundError"
    ensures m == StreamFailedMessage <==> o.OtherFailure?
  {
    match o
    case DomException(name) =>
      if name == "NotAllowedError" || name == "SecurityError" then PermissionMessage
      else if name == "NotFoundError" then NoDeviceMessage
      else CameraUnavailableMessage
    case OtherFailure => StreamFailedMessage
  }

  // ---------------------------------------------------------------------
  // Submission

  /** How the row insert settles: the error's message, if any, and the
      returned id (`None` when `data` or its id is missing). */
  datatype InsertOutcome = InsertOutcome(error: Option<string>, id: Option<string>)

  /** How the `send-email` request settles. */
  datatype FetchOutcome = Responded(ok: bool) | FetchThrew

  /** Everything the pipeline awaits or reads from outside the component.
      `client` is what `getSupabaseClient` throws, if it throws; `atobError`
      is what `atob` throws on a malformed payload; `upload` is the error of
      the storage upload; `supabaseUrl` and `anonKey` are the public
      environment variables, `""` when unset; `origin` is
      `window.location.origin`, `""` when absent; `visitDateIso` is the
      stored date. */
  datatype SubmitEnv = SubmitEnv(
    client: Option<Thrown>, uuid: string, atobError: Thrown, upload: Option<Thrown>,
    visitDateIso: string, insert: InsertOutcome,
    supabaseUrl: string, anonKey: string, fetch: FetchOutcome, origin: string)

  datatype UploadRequest = UploadRequest(bucket: string, path: string, contentType: string, bytes: seq<byte>)

  /** The row inserted into `visits`. */
  datatype VisitRecord = VisitRecord(
    fullName: string, mobile: string, visitorEmail: string, company: Option<string>,
    visitType: string, hostName: string, purpose: string, purposeNotes: Option<string>,
    entryLane: string, priority: int, escortRequired: bool, smsUpdates: bool,
    healthAnswers: map<string, bool>, selfieUrl: Option<string>, consentGiven: bool,
    status: string, visitDate: string)

  datatype EmailRequest = EmailRequest(url: string, apiKey: string, email: string, name: string, formLink: string)

  /** The effects the pipeline has on the outside world, in order. */
  datatype Request =
    | Upload(upload: UploadRequest)
    | Insert(table: string, record: VisitRecord)
    | SendEmail(email: EmailRequest)
    | Navigate(route: string)

  /** `selfies/<uuid>.<extension>` */
  function SelfiePath(uuid: string, extension: string): (p: string)
    ensures StartsWith(p, "selfies/") && p[8..] == uuid + "." + extension
  {
    "selfies/" + uuid + "." + extension
  }

  /** `parseSelfieDataUrl(snapshot)` when the snapshot is truthy; the
      pipeline does not parse an empty one. */
  function SnapshotParse(snapshot: Option<string>): (r: Option<Result<ParsedSelfie, SelfieError>>)
    ensures r.None? <==> !SelfieComplete(snapshot)
    ensures r.Some? ==> r.value == SelfieSpec(snapshot.value)
  {
    if SelfieComplete(snapshot) then Some(SelfieSpec(snapshot.value)) else None
  }

  /** The upload request for a parsed selfie: `selfies/<uuid>.<extension>` in
      the selfie bucket, with the parsed content type and bytes. */
  function UploadFor(p: ParsedSelfie, uuid: string): (u: UploadRequest)
    ensures u.bucket == SelfieBucket && u.path == SelfiePath(uuid, p.extension)
    ensures u.contentType == p.contentType && u.bytes == p.bytes
  {
    UploadRequest(SelfieBucket, SelfiePath(uuid, p.extension), p.contentType, p.bytes)
  }

  /** The message a failed parse throws: the data-URL `Error`, or whatever
      `atob` throws. */
  function ParseFailureMessage(e: SelfieError, env: SubmitEnv): (m: string)
    ensures e == InvalidDataUrl ==> m == InvalidDataUrlMessage
    ensures e == InvalidBase64 ==> m == MessageOr(env.atobError, SaveFallback)
  {
    match e
    case InvalidDataUrl => InvalidDataUrlMessage
    case InvalidBase64 => MessageOr(env.atobError, SaveFallback)
  }

  /** `VisitPayload`: the trimmed copy of the form the pipeline works from.
      `None` stands for `undefined`. */
  datatype VisitPayload = VisitPayload(
    fullName: string, mobile: string, email: string, company: Option<string>,
    visitType: string, hostName: string, purpose: string, purposeNotes: Option<string>,
    entryLane: string, priority: int, escortRequired: bool, smsUpdates: bool,
    healthAnswers: map<string, bool>, consentGiven: bool, date: string, status: string)

  /** `payload`, built from the wizard state. */
  function BuildPayload(id: Identity, d: VisitDetails, health: map<string, bool>, consent: bool): (p: VisitPayload)
    ensures p.status == ReviewStatus
    ensures p.entryLane != ""
  {
    var other := Trim(d.otherPurpose);
    var company := Trim(id.company);
    VisitPayload(
      Trim(id.fullName), Trim(id.mobile), Trim(id.email),
      if company == "" then None else Some(company),
      d.purpose, Trim(d.meetingWith),
      if d.purpose == "Other" && other != "" then other else d.purpose,
      if d.purpose == "Other" then Some(other) else None,
      if d.entryLane != "" then d.entryLane else DefaultEntryLane,
      d.priority, id.escortRequired, id.alertsOptIn, health, consent, d.date, ReviewStatus)
  }

  /** The payload carries the trimmed text; a blank company is left out; the
      free text replaces the purpose "Other" unless it is blank; an empty
      entry lane falls back to the first lane option. */
  lemma BuildPayloadSpec(id: Identity, d: VisitDetails, health: map<string, bool>, consent: bool)
    ensures var p := BuildPayload(id, d, health, consent);
            p.fullName == Trim(id.fullName) && p.mobile == Trim(id.mobile) && p.email == Trim(id.email) &&
            (p.company.None? <==> Trim(id.company) == "") &&
            (p.company.Some? ==> p.company.value == Trim(id.company)) &&
            p.purpose == (if d.purpose == "Other" && Trim(d.otherPurpose) != "" then Trim(d.otherPurpose) else d.purpose) &&
            (p.purposeNotes.Some? <==> d.purpose == "Other") &&
            p.visitType == d.purpose && p.hostName == Trim(d.meetingWith) &&
            p.entryLane == (if d.entryLane == "" then DefaultEntryLane else d.entryLane) &&
            p.smsUpdates == id.alertsOptIn && p.consentGiven == consent && p.healthAnswers == health
  {
  }

  /** `visitRecord`, from the payload, the uploaded path and the date. */
  function RecordOf(p: VisitPayload, selfieUrl: Option<string>, visitDateIso: string): (r: VisitRecord)
    ensures r.selfieUrl == selfieUrl && r.status == p.status && r.visitDate == visitDateIso
    ensures r.purposeNotes.None? <==> p.purposeNotes.None? || p.purposeNotes == Some("")
  {
    VisitRecord(
      p.fullName, p.mobile, p.email, p.company, p.visitType, p.hostName, p.purpose,
      if p.purposeNotes.Some? && p.purposeNotes.value != "" then p.purposeNotes else None,
      p.entryLane, p.priority, p.escortRequired, p.smsUpdates, p.healthAnswers, selfieUrl,
      p.consentGiven, p.status, visitDateIso)
  }

  /** The status every new visit is stored with. */
  const ReviewStatus := "review"

  /** The stored status is `toDbStatus("Review")`, and it reads back as
      `Review`. */
  lemma ReviewStatusStored()
    ensures ReviewStatus == Status.ToDbStatus(Status.Review)
    ensures Status.NormalizeStatus(Some(ReviewStatus)) == Status.Review
  {
    Status.ToDbStatusIsFirstAlias(Status.Review);
    Status.StorageRoundTrip(Status.Review);
  }

  /** The path of the email function under the project URL. */
  const SendEmailPath := "/functions/v1/send-email"

  /** `supabaseUrl.replace(/\/$/, "")` followed by the function path. */
  function FunctionUrl(supabaseUrl: string): (u: string)
    ensures |u| >= |SendEmailPath| && u[|u| - |SendEmailPath|..] == SendEmailPath
    ensures var base := u[..|u| - |SendEmailPath|];
            StartsWith(supabaseUrl, base) && |supabaseUrl| - |base| <= 1 &&
            (base == supabaseUrl <==> supabaseUrl == "" || supabaseUrl[|supabaseUrl| - 1] != '/')
  {
    var base := if supabaseUrl != "" && supabaseUrl[|supabaseUrl| - 1] == '/' then supabaseUrl[..|supabaseUrl| - 1] else supabaseUrl;
    base + SendEmailPath
  }

  /** `buildTestimonialLink(visitId)` */
  function TestimonialLink(origin: string, visitId: string): (link: string)
    ensures |link| == |origin| + |"/testimonial?visitId="| + |visitId|
    ensures link[..|origin|] == origin && link[|link| - |visitId|..] == visitId
    ensures link[|origin|..|link| - |visitId|] == "/testimonial?visitId="
  {
    origin + "/testimonial?visitId=" + visitId
  }

  /** The email request, if one is sent, and whether the email failed. */
  function EmailStep(env: SubmitEnv, email: string, name: string, visitId: string): (r: (Option<EmailRequest>, bool))
    ensures r.0.None? <==> env.supabaseUrl == "" || env.anonKey == ""
    ensures r.1 <==> r.0.None? || env.fetch != Responded(true)
    ensures r.0.Some? ==> r.0.value.email == email && r.0.value.name == name &&
                          r.0.value.formLink == TestimonialLink(env.origin, visitId)
  {
    if env.supabaseUrl == "" || env.anonKey == "" then (None, true)
    else
      var request := EmailRequest(FunctionUrl(env.supabaseUrl), env.anonKey, email, name, TestimonialLink(env.origin, visitId));
      (Some(request), env.fetch != Responded(true))
  }

  /** `/visitor/thanks?visitId=<id>`, with `&email=failed` when the email failed. */
  function ThanksRoute(visitId: string, emailFailed: bool): (route: string)
    ensures StartsWith(route, "/visitor/thanks?visitId=" + visitId)
    ensures emailFailed <==> |route| > |"/visitor/thanks?visitId=" + visitId|
    ensures emailFailed ==> route[|"/visitor/thanks?visitId=" + visitId|..] == "&email=failed"
  {
    "/visitor/thanks?visitId=" + visitId + (if emailFailed then "&email=failed" else "")
  }

  /** What a submission of a complete form does: its requests in order, the
      error shown, and whether the flow is marked submitted. */
  datatype SubmitOutcome = SubmitOutcome(requests: seq<Request>, error: Option<string>, submitted: bool)

  /** The steps after the row insert was requested with `sent` so far: a
      failed insert aborts, a successful one marks the flow submitted, tries
      the email and navigates. */
  function AfterInsert(sent: seq<Request>, record: VisitRecord, env: SubmitEnv): (o: SubmitOutcome)
    ensures |o.requests| >= |sent| && o.requests[..|sent|] == sent
  {
    if env.insert.error.Some? then SubmitOutcome(sent, Some(env.insert.error.value), false)
    else if env.insert.id.None? || env.insert.id.value == "" then SubmitOutcome(sent, Some(SaveFallback), false)
    else
      var visitId := env.insert.id.value;
      var email := EmailStep(env, record.visitorEmail, record.fullName, visitId);
      var emails := if email.0.Some? then [SendEmail(email.0.value)] else [];
      SubmitOutcome(sent + emails + [Navigate(ThanksRoute(visitId, email.1))], None, true)
  }

  /** The `try` block of `handleSubmit` and its `catch`, given the parse
      of the snapshot. */
  function SubmitPipeline(payload: VisitPayload, parsed: Option<Result<ParsedSelfie, SelfieError>>,
                          env: SubmitEnv): (o: SubmitOutcome)
    ensures o.submitted <==> o.error.None?
    ensures o.submitted ==> |o.requests| > 0 && o.requests[|o.requests| - 1].Navigate?
  {
    if env.client.Some? then SubmitOutcome([], Some(MessageOr(env.client.value, SaveFallback)), false)
    else if parsed.Some? && parsed.value.Failure? then
      SubmitOutcome([], Some(ParseFailureMessage(parsed.value.error, env)), false)
    else if parsed.Some? then
      var upload := UploadFor(parsed.value.value, env.uuid);
      if env.upload.Some? then SubmitOutcome([Upload(upload)], Some(MessageOr(env.upload.value, SaveFallback)), false)
      else
        var record := RecordOf(payload, Some(upload.path), env.visitDateIso);
        AfterInsert([Upload(upload), Insert(VisitsTable, record)], record, env)
    else
      var record := RecordOf(payload, None, env.visitDateIso);
      AfterInsert([Insert(VisitsTable, record)], record, env)
  }

  /** Every step up to the insert succeeded. */
  predicate InsertSucceeds(parsed: Option<Result<ParsedSelfie, SelfieError>>, env: SubmitEnv) {
    env.client.None? && (parsed.Some? ==> parsed.value.Success? && env.upload.None?) &&
    env.insert.error.None? && env.insert.id.Some? && env.insert.id.value != ""
  }

  /** Exactly one of the two endings: a successful insert marks the flow
      submitted and shows no error; every earlier failure shows an error and
      leaves the flow unsubmitted. */
  lemma SubmittedIffInsertSucceeds(payload: VisitPayload, parsed: Option<Result<ParsedSelfie, SelfieError>>, env: SubmitEnv)
    ensures SubmitPipeline(payload, parsed, env).submitted <==> InsertSucceeds(parsed, env)
    ensures SubmitPipeline(payload, parsed, env).error.None? <==> InsertSucceeds(parsed, env)
  {
  }

  /** A client or parse failure aborts before any request, with the thrown
      message. */
  lemma EarlyFailureSendsNothing(payload: VisitPayload, parsed: Option<Result<ParsedSelfie, SelfieError>>, env: SubmitEnv)
    requires env.client.Some? || (parsed.Some? && parsed.value.Failure?)
    ensures var o := SubmitPipeline(payload, parsed, env);
            o.requests == [] && !o.submitted &&
            o.error == Some(if env.client.Some? then MessageOr(env.client.value, SaveFallback)
                            else ParseFailureMessage(parsed.value.error, env))
  {
  }

  /** A failed upload aborts the pipeline: only the upload was requested and
      its message is shown. */
  lemma UploadFailureAborts(payload: VisitPayload, p: ParsedSelfie, env: SubmitEnv)
    requires env.client.None? && env.upload.Some?
    ensures var o := SubmitPipeline(payload, Some(Success(p)), env);
            o.requests == [Upload(UploadFor(p, env.uuid))] && !o.submitted &&
            o.error == Some(MessageOr(env.upload.value, SaveFallback))
  {
  }

  /** A failed insert aborts before any email or navigation; its own message,
      or the fallback when no id came back, is shown. */
  lemma InsertFailureAborts(payload: VisitPayload, parsed: Option<Result<ParsedSelfie, SelfieError>>, env: SubmitEnv)
    requires env.client.None? && (parsed.Some? ==> parsed.value.Success? && env.upload.None?)
    requires env.insert.error.Some? || env.insert.id.None? || env.insert.id == Some("")
    ensures var o := SubmitPipeline(payload, parsed, env);
            !o.submitted && |o.requests| >= 1 && o.requests[|o.requests| - 1].Insert? &&
            o.error == Some(if env.insert.error.Some? then env.insert.error.value else SaveFallback)
  {
  }

  /** The selfie is uploaded before the insert, and the inserted row stores
      its storage path and the status `review`. */
  lemma UploadThenInsertWithPath(payload: VisitPayload, p: ParsedSelfie, env: SubmitEnv)
    requires env.client.None? && env.upload.None?
    ensures var o := SubmitPipeline(payload, Some(Success(p)), env);
            var path := SelfiePath(env.uuid, p.extension);
            |o.requests| >= 2 && o.requests[0] == Upload(UploadFor(p, env.uuid)) &&
            o.requests[1] == Insert(VisitsTable, RecordOf(payload, Some(path), env.visitDateIso))
  {
  }

  /** The email never decides the outcome: after a successful insert the
      flow is submitted and the last request navigates to the thanks page,
      with `&email=failed` exactly when the email was not sent or not
      acknowledged. */
  lemma EmailIsBestEffort(payload: VisitPayload, parsed: Option<Result<ParsedSelfie, SelfieError>>, env: SubmitEnv)
    requires InsertSucceeds(parsed, env)
    ensures var o := SubmitPipeline(payload, parsed, env);
            var failed := env.supabaseUrl == "" || env.anonKey == "" || env.fetch != Responded(true);
            o.submitted && o.error.None? &&
            o.requests[|o.requests| - 1] == Navigate(ThanksRoute(env.insert.id.value, failed))
  {
  }

  /** Changing only the email environment or the email's fate changes
      neither whether the flow is submitted nor the error shown, and an
      aborted pipeline sends the same requests. */
  lemma EmailDoesNotAffectInsert(payload: VisitPayload, parsed: Option<Result<ParsedSelfie, SelfieError>>, env: SubmitEnv,
                                 url: string, key: string, fetch: FetchOutcome)
    ensures var env' := env.(supabaseUrl := url, anonKey := key, fetch := fetch);
            var o := SubmitPipeline(payload, parsed, env);
            var o' := SubmitPipeline(payload, parsed, env');
            o.submitted == o'.submitted && o.error == o'.error &&
            (!o.submitted ==> o.requests == o'.requests)
  {
  }

  // ---------------------------------------------------------------------
  // The page component

  /** The state cells of the page component, apart from the store. */
  datatype PageCells = PageCells(
    cameraState: CameraState, cameraError: Option<string>, highlightedSection: Option<int>,
    activeSection: int, validationMessage: Option<string>, submitError: Option<string>,
    isSaving: bool, allNormsAccepted: bool, focused: Option<FocusTarget>,
    stream: Option<nat>, stopped: seq<nat>, requests: seq<Request>)

  class CheckinPage {
    var flow: FlowStore
    var cameraState: CameraState
    var cameraError: Option<string>
    var highlightedSection: Option<int>
    var activeSection: int
    var validationMessage: Option<string>
    var submitError: Option<string>
    var isSaving: bool
    var allNormsAccepted: bool
    /** The input that last received focus. */
    var focused: Option<FocusTarget>
    /** `streamRef.current` */
    var stream: Option<nat>
    /** The streams whose tracks were stopped, oldest first. */
    var stopped: seq<nat>
    /** The requests sent to storage, the database, the email function and
        the router, oldest first. */
    var requests: seq<Request>

    /** The active section is one of the six; an active camera has a stream
        and no error; a failed camera shows a message. */
    predicate Valid()
      reads this, flow
    {
      flow.Valid() && 0 <= activeSection < SectionCount &&
      (cameraState == Active ==> stream.Some? && cameraError.None?) &&
      (cameraState == Failed ==> cameraError.Some?)
    }

    function Flags(): (f: CheckinRules.Flags)
      reads this, flow
    {
      FlagsOf(flow.identity, flow.visitDetails, flow.snapshot, allNormsAccepted, flow.consent)
    }

    /** The page's own state cells, as one value. */
    function Cells(): PageCells
      reads this
    {
      PageCells(cameraState, cameraError, highlightedSection, activeSection, validationMessage, submitError,
                isSaving, allNormsAccepted, focused, stream, stopped, requests)
    }

    constructor(store: FlowStore)
      requires store.Valid()
      ensures Valid() && flow == store
      ensures cameraState == Idle && cameraError.None? && highlightedSection.None? && activeSection == 0
      ensures validationMessage.None? && submitError.None? && !isSaving && !allNormsAccepted
      ensures focused.None? && stream.None? && stopped == [] && requests == []
    {
      flow := store;
      cameraState := Idle;
      cameraError := None;
      highlightedSection := None;
      activeSection := 0;
      validationMessage := None;
      submitError := None;
      isSaving := false;
      allNormsAccepted := false;
      focused := None;
      stream := None;
      stopped := [];
      requests := [];
    }

    /** `scrollToSection(index)`: the section becomes active exactly when its
        ref holds an element; otherwise the function returns early. */
    method ScrollToSection(index: int)
      requires Valid()
      modifies this
      ensures Valid() && flow == old(flow)
      ensures HasScrollTarget(index) ==> Cells() == old(Cells()).(activeSection := index)
      ensures !HasScrollTarget(index) ==> Cells() == old(Cells())
    {
      ScrollTargetsAsWritten(index);
      if HasScrollTarget(index) {
        activeSection := index;
      }
    }

    /** `highlightSection(index)`; the timer that clears it is `HighlightExpired`. */
    method HighlightSection(index: int)
      requires Valid()
      modifies this
      ensures Valid() && flow == old(flow)
      ensures Cells() == old(Cells()).(highlightedSection := Some(index))
    {
      highlightedSection := Some(index);
    }

    method HighlightExpired()
      requires Valid()
      modifies this
      ensures Valid() && flow == old(flow)
      ensures Cells() == old(Cells()).(highlightedSection := None)
    {
      highlightedSection := None;
    }

    /** `handleInvalidSection(index)`: scroll to and highlight the section,
        focus its input as `focusSectionInput` does, and show the validation
        message. */
    method HandleInvalidSection(index: int)
      requires Valid()
      modifies this
      ensures Valid() && flow == old(flow)
      ensures Cells() == old(Cells()).(activeSection := ScrolledTo(old(activeSection), index),
                                      highlightedSection := Some(index),
                                      focused := FocusAfter(old(focused), flow.identity, flow.visitDetails, index),
                                      validationMessage := Some(ValidationText))
    {
      ScrollToSection(index);
      HighlightSection(index);
      var target := FocusTargetAsWritten(flow.identity, flow.visitDetails, index);
      if target.Some? {
        focused := target;
      }
      validationMessage := Some(ValidationText);
    }

    /** The first half of `handleSubmit()`: an incomplete form is sent to its
        first incomplete section. */
    method RejectIncomplete()
      requires Valid() && !IsAllComplete(Flags())
      modifies this
      ensures Valid() && flow == old(flow)
      ensures var first := FirstIncompleteSection(old(Flags())).value;
              Cells() == old(Cells()).(activeSection := ScrolledTo(old(activeSection), first),
                                      highlightedSection := Some(first),
                                      focused := FocusAfter(old(focused), flow.identity, flow.visitDetails, first),
                                      validationMessage := Some(ValidationText))
    {
      var f := Flags();
      FirstIncompleteSpec(f);
      var first := FirstIncompleteSection(f);
      HandleInvalidSection(first.value);
    }

    /** The rest of `handleSubmit()` for a complete form, once the pipeline
        settled with `o`: its requests are recorded, its error shown, a
        successful insert marks the flow submitted, and `isSaving` ends
        false. */
    method SubmitComplete(o: SubmitOutcome)
      requires Valid()
      modifies this, flow
      ensures Valid() && flow == old(flow)
      ensures flow.identity == old(flow.identity) && flow.visitDetails == old(flow.visitDetails)
      ensures flow.health == old(flow.health) && flow.snapshot == old(flow.snapshot) && flow.consent == old(flow.consent)
      ensures flow.submitted == (old(flow.submitted) || o.submitted)
      ensures Cells() == old(Cells()).(requests := old(requests) + o.requests, submitError := o.error,
                                      validationMessage := None, isSaving := false)
    {
      // `isSaving` is raised while the pipeline is awaited and the error
      // cleared; only the settled state is modelled.
      var sent := requests + o.requests;
      if o.submitted {
        flow.MarkSubmitted();
      }
      requests, submitError, validationMessage, isSaving := sent, o.error, None, false;
    }

    /** `handleSubmit()`. An incomplete form is only sent to its first
        incomplete section; a complete one runs the pipeline and always ends
        with `isSaving` false. */
    method HandleSubmit(env: SubmitEnv)
      requires Valid()
      modifies this, flow
      ensures Valid() && flow == old(flow)
      ensures flow.identity == old(flow.identity) && flow.visitDetails == old(flow.visitDetails)
      ensures flow.health == old(flow.health) && flow.snapshot == old(flow.snapshot) && flow.consent == old(flow.consent)
      ensures !IsAllComplete(old(Flags())) ==>
                flow.submitted == old(flow.submitted) &&
                var first := FirstIncompleteSection(old(Flags())).value;
                Cells() == old(Cells()).(activeSection := ScrolledTo(old(activeSection), first),
                                        highlightedSection := Some(first),
                                        focused := FocusAfter(old(focused), flow.identity, flow.visitDetails, first),
                                        validationMessage := Some(ValidationText))
      ensures IsAllComplete(old(Flags())) ==>
                var o := SubmitPipeline(BuildPayload(old(flow.identity), old(flow.visitDetails), old(flow.health), old(flow.consent)),
                                        SnapshotParse(old(flow.snapshot)), env);
                flow.submitted == (old(flow.submitted) || o.submitted) &&
                Cells() == old(Cells()).(requests := old(requests) + o.requests, submitError := o.error,
                                        validationMessage := None, isSaving := false)
    {
      if !IsAllComplete(Flags()) {
        RejectIncomplete();
      } else {
        var parsed: Option<Result<ParsedSelfie, SelfieError>> := None;
        if SelfieComplete(flow.snapshot) {
          var r := ParseSelfieDataUrl(flow.snapshot.value);
          parsed := Some(r);
        }
        var o := SubmitPipeline(BuildPayload(flow.identity, flow.visitDetails, flow.health, flow.consent), parsed, env);
        SubmitComplete(o);
      }
    }

    /** `handleNext()`. The advance to the next section after these two
        branches is unreachable: a form that is not complete always has an
        incomplete section, so the method ends in one of the branches. */
    method HandleNext(env: SubmitEnv)
      requires Valid()
      modifies this, flow
      ensures Valid() && flow == old(flow)
      ensures flow.identity == old(flow.identity) && flow.visitDetails == old(flow.visitDetails)
      ensures flow.health == old(flow.health) && flow.snapshot == old(flow.snapshot) && flow.consent == old(flow.consent)
      ensures old(isSaving) ==> flow.submitted == old(flow.submitted) &&
                                Cells() == old(Cells()).(validationMessage := None)
      ensures !old(isSaving) && !IsAllComplete(old(Flags())) ==>
                flow.submitted == old(flow.submitted) &&
                var first := FirstIncompleteSection(old(Flags())).value;
                Cells() == old(Cells()).(activeSection := ScrolledTo(old(activeSection), first),
                                        highlightedSection := Some(first),
                                        focused := FocusAfter(old(focused), flow.identity, flow.visitDetails, first),
                                        validationMessage := Some(ValidationText))
      ensures !old(isSaving) && IsAllComplete(old(Flags())) ==>
                var o := SubmitPipeline(BuildPayload(old(flow.identity), old(flow.visitDetails), old(flow.health), old(flow.consent)),
                                        SnapshotParse(old(flow.snapshot)), env);
                flow.submitted == (old(flow.submitted) || o.submitted) &&
                Cells() == old(Cells()).(requests := old(requests) + o.requests, submitError := o.error,
                                        validationMessage := None, isSaving := false)
    {
      validationMessage := None;
      if isSaving {
        return;
      }
      var f := Flags();
      FirstIncompleteSpec(f);
      if !IsAllComplete(f) {
        var first := FirstIncompleteSection(f);
        if first.Some? {
          HandleInvalidSection(first.value);
          return;
        }
      }
      if IsAllComplete(f) {
        HandleSubmit(env);
        return;
      }
      assert false;
    }

    /** `handleBack()`: scrolls one section up, never above the first. */
    method HandleBack()
      requires Valid()
      modifies this
      ensures Valid() && flow == old(flow)
      ensures var prev := if old(activeSection) > 0 then old(activeSection) - 1 else 0;
              Cells() == old(Cells()).(activeSection := ScrolledTo(old(activeSection), prev))
    {
      var prev := if activeSection - 1 > 0 then activeSection - 1 else 0;
      ScrollToSection(prev);
    }

    /** `nextButtonDisabled` */
    predicate NextButtonDisabled()
      reads this, flow
      ensures activeSection < SectionCount - 1 ==> (NextButtonDisabled() <==> isSaving)
      ensures !isSaving && IsAllComplete(Flags()) ==> !NextButtonDisabled()
    {
      isSaving || (activeSection == SectionCount - 1 && !IsAllComplete(Flags()))
    }

    /** The Back button is disabled on the first section. */
    predicate BackButtonDisabled()
      reads this
      ensures BackButtonDisabled() ==> ScrolledTo(activeSection, 0) == activeSection
    {
      ScrollTargetsAsWritten(0);
      activeSection == 0
    }

    /** The Capture button is enabled only with an active camera. */
    predicate CaptureEnabled()
      reads this
      ensures Valid() && CaptureEnabled() ==> stream.Some? && cameraError.None?
    {
      cameraState == Active
    }

    /** The synchronous part of `startCamera()`, up to the awaited
        `getUserMedia`. `supported` is whether `getUserMedia` exists; `secure`
        is `window.isSecureContext`. Returns whether a request is pending. */
    method StartCamera(supported: bool, secure: bool) returns (pending: bool)
      requires Valid()
      modifies this
      ensures Valid() && flow == old(flow)
      ensures pending <==> supported && secure
      ensures !supported ==> Cells() == old(Cells()).(cameraState := Failed, cameraError := Some(NotSupportedMessage))
      ensures supported && !secure ==> Cells() == old(Cells()).(cameraState := Failed, cameraError := Some(InsecureMessage))
      ensures pending ==> Cells() == old(Cells()).(cameraState := Starting,
                                                  stopped := old(stopped) + (if old(stream).Some? then [old(stream).value] else []))
    {
      if !supported {
        cameraState := Failed;
        cameraError := Some(NotSupportedMessage);
        return false;
      }
      if !secure {
        cameraState := Failed;
        cameraError := Some(InsecureMessage);
        return false;
      }
      if stream.Some? {
        stopped := stopped + [stream.value];
      }
      cameraState := Starting;
      return true;
    }

    /** The awaited `getUserMedia` settling: the stream becomes current, or
        the failure's message is shown and the old stream reference stays. */
    method CameraSettled(outcome: CameraOutcome)
      requires Valid()
      modifies this
      ensures Valid() && flow == old(flow)
      ensures outcome.Granted? ==>
                Cells() == old(Cells()).(cameraState := Active, stream := Some(outcome.stream), cameraError := None)
      ensures !outcome.Granted? ==>
                Cells() == old(Cells()).(cameraState := Failed, cameraError := Some(CameraFailureMessage(outcome)))
    {
      if outcome.Granted? {
        stream := Some(outcome.stream);
        cameraState := Active;
        cameraError := None;
      } else {
        cameraState := Failed;
        cameraError := Some(CameraFailureMessage(outcome));
      }
    }

    /** `handleCapture()`: stores the captured data URL when the video and a
        drawing context exist. */
    method HandleCapture(hasVideo: bool, hasContext: bool, dataUrl: string)
      requires Valid()
      modifies flow
      ensures Valid()
      ensures hasVideo && hasContext ==> flow.snapshot == Some(dataUrl)
      ensures !(hasVideo && hasContext) ==> flow.snapshot == old(flow.snapshot)
      ensures flow.identity == old(flow.identity) && flow.visitDetails == old(flow.visitDetails) && flow.health == old(flow.health)
      ensures flow.consent == old(flow.consent) && flow.submitted == old(flow.submitted)
    {
      if !hasVideo || !hasContext {
        return;
      }
      flow.UpdateSelfie(Some(dataUrl));
    }

    /** `handleRetake()`: clears the selfie and restarts the camera. */
    method HandleRetake(supported: bool, secure: bool) returns (pending: bool)
      requires Valid()
      modifies this, flow
      ensures Valid() && flow == old(flow)
      ensures flow.snapshot.None?
      ensures flow.identity == old(flow.identity) && flow.visitDetails == old(flow.visitDetails) && flow.health == old(flow.health)
      ensures flow.consent == old(flow.consent) && flow.submitted == old(flow.submitted)
      ensures pending <==> supported && secure
      ensures !supported ==> Cells() == old(Cells()).(cameraState := Failed, cameraError := Some(NotSupportedMessage))
      ensures supported && !secure ==> Cells() == old(Cells()).(cameraState := Failed, cameraError := Some(InsecureMessage))
      ensures pending ==> Cells() == old(Cells()).(cameraState := Starting,
                                                  stopped := old(stopped) + (if old(stream).Some? then [old(stream).value] else []))
    {
      flow.UpdateSelfie(None);
      pending := StartCamera(supported, secure);
    }

    /** The effect that fills an empty entry lane with the first lane option. */
    method DefaultLaneEffect()
      requires Valid()
      modifies flow
      ensures Valid()
      ensures flow.visitDetails == old(flow.visitDetails).(entryLane := if old(flow.visitDetails.entryLane) == "" then DefaultEntryLane
                                                                        else old(flow.visitDetails.entryLane))
      ensures flow.visitDetails.entryLane != ""
      ensures flow.identity == old(flow.identity) && flow.health == old(flow.health) && flow.snapshot == old(flow.snapshot)
      ensures flow.consent == old(flow.consent) && flow.submitted == old(flow.submitted)
    {
      if flow.visitDetails.entryLane == "" {
        flow.UpdateVisitDetails(VisitDetailsPatch(None, None, None, None, None, Some(DefaultEntryLane)));
      }
    }

    /** `onAllAcceptedChange` of the site-norms checklist. */
    method SetAllNormsAccepted(value: bool)
      requires Valid()
      modifies this
      ensures Valid() && flow == old(flow)
      ensures Cells() == old(Cells()).(allNormsAccepted := value)
    {
      allNormsAccepted := value;
    }

    /** The camera effect's cleanup on unmount: the current stream's tracks
        are stopped and the reference is cleared. */
    method Unmount()
      requires Valid()
      modifies this
      ensures flow == old(flow)
      ensures Cells() == old(Cells()).(stream := None,
                                      stopped := old(stopped) + (if old(stream).Some? then [old(stream).value] else []))
    {
      if stream.Some? {
        stopped := stopped + [stream.value];
      }
      stream := None;
    }
  }
}
