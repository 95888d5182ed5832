/** The confirmation page (`ThanksClient`): it shows the visit just
    submitted from the session store or, when the store is empty, loads it
    by id from `visits` (falling back to `visitors`) and merges the row
    into the store's values. */
module Thanks {
  import opened Common
  import opened Json
  import opened Text
  import opened VisitorFlow
  import opened SelfieStorage

  /** `isVisitRow`: a non-null object whose `id` is a string. */
  predicate IsVisitRow(value: Json)
    ensures IsVisitRow(value) ==> value.JObj? && "id" in value.fields
  {
    value.JObj? && StringField(value, "id").Some?
  }

  lemma IsVisitRowIff(value: Json)
    ensures IsVisitRow(value) <==> value.JObj? && "id" in value.fields && value.fields["id"].JStr?
  {
  }

  // ---------------------------------------------------------------------
  // Health answers

  /** The merge `normalizeHealthAnswers(incoming, base)` computes: the keys
      of `base`, each taking the truthiness of the incoming value when the
      incoming object has that key. */
  function MergedHealth(incoming: Json, base: map<string, bool>): (h: map<string, bool>)
    ensures h.Keys == base.Keys
    ensures forall k :: k in base && k in Entries(incoming) ==> h[k] == Truthy(Entries(incoming)[k])
    ensures forall k :: k in base && k !in Entries(incoming) ==> h[k] == base[k]
  {
    map k | k in base :: if k in Entries(incoming) then Truthy(Entries(incoming)[k]) else base[k]
  }

  /** `normalizeHealthAnswers(incoming, base)`: a copy of `base` overwritten
      entry by entry while walking the incoming object. */
  method NormalizeHealthAnswers(incoming: Json, base: map<string, bool>) returns (normalized: map<string, bool>)
    ensures normalized == MergedHealth(incoming, base)
  {
    normalized := base;
    var entries := Entries(incoming);
    var pending := entries.Keys;
    while pending != {}
      invariant pending <= entries.Keys
      invariant normalized.Keys == base.Keys
      invariant forall k :: k in base ==>
                  normalized[k] == if k in entries && k !in pending then Truthy(entries[k]) else base[k]
      decreases |pending|
    {
      var key :| key in pending;
      if key in normalized {
        normalized := normalized[key := Truthy(entries[key])];
      }
      pending := pending - {key};
    }
  }

  /** Without incoming answers the base comes back unchanged. */
  lemma MergedHealthOfNothing(incoming: Json, base: map<string, bool>)
    requires !incoming.JObj?
    ensures MergedHealth(incoming, base) == base
  {
  }

  /** Merging the merged answers again with the same row changes nothing. */
  lemma MergedHealthIdempotent(incoming: Json, base: map<string, bool>)
    ensures MergedHealth(incoming, MergedHealth(incoming, base)) == MergedHealth(incoming, base)
  {
  }

  /** Merging into the six-question state keeps exactly the six questions. */
  lemma MergedHealthKeepsQuestions(incoming: Json, base: map<string, bool>)
    requires base.Keys == set q | q in HealthQuestions
    ensures MergedHealth(incoming, base).Keys == set q | q in HealthQuestions
  {
  }

  // ---------------------------------------------------------------------
  // Location labels

  /** A `find` candidate: a string with something besides whitespace. */
  predicate Usable(candidate: Option<string>) {
    candidate.Some? && !IsBlank(candidate.value)
  }

  /** The position `find` stops at when it starts at `k`: the first usable
      candidate from there, or the length when there is none. */
  function FirstUsableFrom(candidates: seq<Option<string>>, k: nat): (i: nat)
    requires k <= |candidates|
    ensures k <= i <= |candidates|
    ensures forall j :: k <= j < i ==> !Usable(candidates[j])
    ensures i < |candidates| ==> Usable(candidates[i])
    decreases |candidates| - k
  {
    if k == |candidates| || Usable(candidates[k]) then k
    else FirstUsableFrom(candidates, k + 1)
  }

  /** The first usable candidate, trimmed. */
  function FirstNonBlank(candidates: seq<Option<string>>): (r: Option<string>)
    ensures r.None? <==> forall j :: 0 <= j < |candidates| ==> !Usable(candidates[j])
    ensures r.Some? ==> r.value != ""
    ensures r.Some? ==> r.value == Trim(candidates[FirstUsableFrom(candidates, 0)].value)
  {
    var i := FirstUsableFrom(candidates, 0);
    if i < |candidates| then Some(Trim(candidates[i].value)) else None
  }

  /** `deriveLocationLabel(row, fallback)` */
  function DeriveLocationLabel(row: Json, fallback: string): (shown: string)
    ensures shown != "" || fallback == ""
  {
    var selected := FirstNonBlank([StringField(row, "preferred_location"), StringField(row, "facility"),
                                   StringField(row, "location"), StringField(row, "entry_lane"), Some(fallback)]);
    if selected.Some? then selected.value else fallback
  }

  /** The location label computed inline by the fetch: the entry lane comes
      first here, and the fallback is the dash. */
  function InlineLocationLabel(row: Json): (shown: string)
    ensures shown != ""
  {
    var selected := FirstNonBlank([StringField(row, "entry_lane"), StringField(row, "preferred_location"),
                                   StringField(row, "facility"), StringField(row, "location")]);
    if selected.Some? && selected.value != "" then selected.value else "—"
  }

  /** The derived label is the trimmed preferred location when that is
      usable, the trimmed fallback when no column is, and the fallback itself
      when that is blank too. */
  lemma DeriveLocationLabelSpec(row: Json, fallback: string)
    ensures Usable(StringField(row, "preferred_location")) ==>
            DeriveLocationLabel(row, fallback) == Trim(StringField(row, "preferred_location").value)
    ensures !Usable(StringField(row, "preferred_location")) && !Usable(StringField(row, "facility")) &&
            !Usable(StringField(row, "location")) && !Usable(StringField(row, "entry_lane")) ==>
            DeriveLocationLabel(row, fallback) == (if IsBlank(fallback) then fallback else Trim(fallback))
  {
    var c := [StringField(row, "preferred_location"), StringField(row, "facility"),
              StringField(row, "location"), StringField(row, "entry_lane"), Some(fallback)];
    if !Usable(c[0]) && !Usable(c[1]) && !Usable(c[2]) && !Usable(c[3]) {
      assert FirstUsableFrom(c, 0) == FirstUsableFrom(c, 1) == FirstUsableFrom(c, 2)
          == FirstUsableFrom(c, 3) == FirstUsableFrom(c, 4);
    }
  }

  /** The inline label: the trimmed entry lane when that is usable, the dash
      when no column is, and never empty. */
  lemma InlineLocationLabelSpec(row: Json)
    ensures Usable(StringField(row, "entry_lane")) ==>
            InlineLocationLabel(row) == Trim(StringField(row, "entry_lane").value)
    ensures !Usable(StringField(row, "entry_lane")) && !Usable(StringField(row, "preferred_location")) &&
            !Usable(StringField(row, "facility")) && !Usable(StringField(row, "location")) ==>
            InlineLocationLabel(row) == "—"
    ensures InlineLocationLabel(row) != ""
  {
    var c := [StringField(row, "entry_lane"), StringField(row, "preferred_location"),
              StringField(row, "facility"), StringField(row, "location")];
    if !Usable(c[0]) && !Usable(c[1]) && !Usable(c[2]) && !Usable(c[3]) {
      assert FirstUsableFrom(c, 0) == FirstUsableFrom(c, 1) == FirstUsableFrom(c, 2)
          == FirstUsableFrom(c, 3) == FirstUsableFrom(c, 4);
    }
  }

  // ---------------------------------------------------------------------
  // Selfie

  /** `resolveSelfieUrl` of this page: blank values name no selfie; HTTP(S)
      and `data:` URLs pass through trimmed; anything else is a bucket path,
      normalised and then looked up; `storage` is what the bucket answers
      for a path. */
  function ResolveSelfieUrl(value: Option<string>, storage: string -> StorageAnswer): (r: Option<string>)
    ensures NoSelfieValue(value) ==> r.None?
    ensures !NoSelfieValue(value) && (IsHttpUrl(Trim(value.value)) || StartsWith(Trim(value.value), "data:")) ==>
            r == Some(Trim(value.value))
    ensures !NoSelfieValue(value) && !IsHttpUrl(Trim(value.value)) && !StartsWith(Trim(value.value), "data:") ==>
            r == LookupUrl(storage(StoragePath(Trim(value.value))))
  {
    if value.None? || value.value == "" then None
    else
      var raw := Trim(value.value);
      if raw == "" then None
      else if IsHttpUrl(raw) || StartsWith(raw, "data:") then Some(raw)
      else LookupUrl(storage(StoragePath(raw)))
  }

  // ---------------------------------------------------------------------
  // Query string and gating

  /** `searchParams.get("id") ?? searchParams.get("visitId")`; a parameter
      present with an empty value is the empty string. */
  function VisitIdOf(query: map<string, string>): (id: Option<string>)
    ensures "id" in query ==> id == Some(query["id"])
    ensures "id" !in query ==> id == (if "visitId" in query then Some(query["visitId"]) else None)
  {
    if "id" in query then Some(query["id"])
    else if "visitId" in query then Some(query["visitId"])
    else None
  }

  /** `emailFailed` */
  predicate EmailFailed(query: map<string, string>)
    ensures EmailFailed(query) ==> "email" in query && query["email"] != ""
  {
    "email" in query && query["email"] == "failed"
  }

  /** The store's values as the page reads them. */
  datatype FlowView = FlowView(
    identity: Identity, visitDetails: VisitDetails, health: map<string, bool>,
    snapshot: Option<string>, consent: bool, submitted: bool)

  /** `hasContextVisit`: the store holds a visit of this session. */
  predicate HasContextVisit(ctx: FlowView) {
    ctx.submitted || ctx.identity.fullName != "" || ctx.visitDetails.meetingWith != "" ||
    (ctx.snapshot.Some? && ctx.snapshot.value != "")
  }

  /** The visit merged from a fetched row. */
  datatype HydratedVisit = HydratedVisit(
    identity: Identity, visitDetails: VisitDetails, health: map<string, bool>,
    snapshot: Option<string>, consent: bool)

  /** The fetch effect runs only for a non-empty id, without a visit in the
      store, before anything was hydrated. */
  predicate ShouldFetch(query: map<string, string>, ctx: FlowView, hydrated: Option<HydratedVisit>)
    ensures ShouldFetch(query, ctx, hydrated) ==>
              ("id" in query || "visitId" in query) && !ctx.submitted && hydrated.None?
  {
    var id := VisitIdOf(query);
    id.Some? && id.value != "" && !HasContextVisit(ctx) && hydrated.None?
  }

  // ---------------------------------------------------------------------
  // The fetch

  /** How a `maybeSingle()` query settles. */
  datatype QueryAnswer = QueryAnswer(data: Json, error: Option<string>)

  const LoadRecordMessage := "Unable to load visit record."

  /** The row the fetch works from, or the message it throws; the second
      component lists the tables queried. */
  function FetchRow(visits: QueryAnswer, visitors: QueryAnswer): (r: (Result<Json, string>, seq<string>))
    ensures IsVisitRow(visits.data) ==> r.1 == ["visits"]
    ensures !IsVisitRow(visits.data) ==> r.1 == ["visits", "visitors"]
    ensures r.0.Success? ==> IsVisitRow(r.0.value)
    ensures IsVisitRow(visits.data) && visits.error.None? ==> r.0 == Success(visits.data)
    ensures !IsVisitRow(visits.data) ==>
              r.0 == (if visitors.error.Some? then Failure(visitors.error.value)
                      else if IsVisitRow(visitors.data) then Success(visitors.data)
                      else Failure(LoadRecordMessage))
  {
    if IsVisitRow(visits.data) then
      (if visits.error.Some? then Failure(visits.error.value) else Success(visits.data), ["visits"])
    else
      var result := if visitors.error.Some? then Failure(visitors.error.value)
                    else if IsVisitRow(visitors.data) then Success(visitors.data)
                    else Failure(LoadRecordMessage);
      (result, ["visits", "visitors"])
  }

  /** `row[key] ?? fallback` for a column typed `string | null`. */
  function StringOr(row: Json, key: string, fallback: string): (s: string)
    ensures StringField(row, key).Some? ==> s == StringField(row, key).value
    ensures StringField(row, key).None? ==> s == fallback
  {
    StringField(row, key).GetOr(fallback)
  }

  /** `typeof row[key] === "boolean" ? row[key] : fallback` */
  function BoolOr(row: Json, key: string, fallback: bool): (b: bool)
    ensures BoolField(row, key).Some? ==> b == BoolField(row, key).value
    ensures BoolField(row, key).None? ==> b == fallback
  {
    BoolField(row, key).GetOr(fallback)
  }

  /** `row[key]`, `null` when the key is missing. */
  function FieldOrNull(row: Json, key: string): Json {
    Field(row, key).GetOr(JNull)
  }

  /** The identity of the `setHydratedVisit` argument: a row value
      overrides the store's only where it has the field's type. */
  function HydratedIdentity(row: Json, id: Identity): (r: Identity)
    ensures StringField(row, "full_name").Some? ==> r.fullName == StringField(row, "full_name").value
    ensures StringField(row, "full_name").None? ==> r.fullName == id.fullName
    ensures StringField(row, "mobile").Some? ==> r.mobile == StringField(row, "mobile").value
    ensures StringField(row, "mobile").None? ==> r.mobile == id.mobile
    ensures StringField(row, "visitor_email").Some? ==> r.email == StringField(row, "visitor_email").value
    ensures StringField(row, "visitor_email").None? ==> r.email == id.email
    ensures StringField(row, "company").Some? ==> r.company == StringField(row, "company").value
    ensures StringField(row, "company").None? ==> r.company == id.company
    ensures BoolField(row, "escort_required").Some? ==> r.escortRequired == BoolField(row, "escort_required").value
    ensures BoolField(row, "escort_required").None? ==> r.escortRequired == id.escortRequired
    ensures BoolField(row, "sms_updates").Some? ==> r.alertsOptIn == BoolField(row, "sms_updates").value
    ensures BoolField(row, "sms_updates").None? ==> r.alertsOptIn == id.alertsOptIn
  {
    Identity(StringOr(row, "full_name", id.fullName), StringOr(row, "mobile", id.mobile),
             StringOr(row, "visitor_email", id.email), StringOr(row, "company", id.company),
             BoolOr(row, "escort_required", id.escortRequired), BoolOr(row, "sms_updates", id.alertsOptIn))
  }

  /** The visit details of the `setHydratedVisit` argument; the location is
      the inline label, whatever the store held. */
  function HydratedDetails(row: Json, d: VisitDetails): (r: VisitDetails)
    ensures StringField(row, "visit_type").Some? ==> r.purpose == StringField(row, "visit_type").value
    ensures StringField(row, "visit_type").None? && StringField(row, "purpose").Some? ==>
              r.purpose == StringField(row, "purpose").value
    ensures StringField(row, "visit_type").None? && StringField(row, "purpose").None? ==> r.purpose == d.purpose
    ensures StringField(row, "purpose_notes").Some? ==> r.otherPurpose == StringField(row, "purpose_notes").value
    ensures StringField(row, "purpose_notes").None? ==> r.otherPurpose == d.otherPurpose
    ensures StringField(row, "host_name").Some? ==> r.meetingWith == StringField(row, "host_name").value
    ensures StringField(row, "host_name").None? ==> r.meetingWith == d.meetingWith
    ensures StringField(row, "visit_date").Some? ==> r.date == StringField(row, "visit_date").value
    ensures StringField(row, "visit_date").None? && StringField(row, "created_at").Some? ==>
              r.date == StringField(row, "created_at").value
    ensures StringField(row, "visit_date").None? && StringField(row, "created_at").None? ==> r.date == d.date
    ensures NumField(row, "priority").Some? ==> r.priority == NumField(row, "priority").value
    ensures NumField(row, "priority").None? ==> r.priority == d.priority
    ensures r.entryLane == InlineLocationLabel(row) && r.entryLane != ""
  {
    VisitDetails(StringOr(row, "visit_type", StringOr(row, "purpose", d.purpose)),
                 StringOr(row, "purpose_notes", d.otherPurpose), StringOr(row, "host_name", d.meetingWith),
                 StringOr(row, "visit_date", StringOr(row, "created_at", d.date)),
                 NumField(row, "priority").GetOr(d.priority), InlineLocationLabel(row))
  }

  /** The `setHydratedVisit` argument; the selfie is the resolved URL. */
  function Hydrate(row: Json, ctx: FlowView, selfieUrl: Option<string>): (h: HydratedVisit)
    ensures h.snapshot == selfieUrl && h.health.Keys == ctx.health.Keys
    ensures h.visitDetails.entryLane == InlineLocationLabel(row) && h.visitDetails.entryLane != ""
  {
    HydratedVisit(HydratedIdentity(row, ctx.identity), HydratedDetails(row, ctx.visitDetails),
                  MergedHealth(FieldOrNull(row, "health_answers"), ctx.health), selfieUrl,
                  BoolOr(row, "consent_given", ctx.consent))
  }

  /** The row holds none of the columns `setHydratedVisit` reads. */
  predicate BareRow(row: Json) {
    Field(row, "full_name").None? && Field(row, "mobile").None? && Field(row, "visitor_email").None? &&
    Field(row, "company").None? && Field(row, "escort_required").None? && Field(row, "sms_updates").None? &&
    Field(row, "visit_type").None? && Field(row, "purpose").None? && Field(row, "purpose_notes").None? &&
    Field(row, "host_name").None? && Field(row, "visit_date").None? && Field(row, "created_at").None? &&
    Field(row, "priority").None? && Field(row, "entry_lane").None? && Field(row, "preferred_location").None? &&
    Field(row, "facility").None? && Field(row, "location").None? && Field(row, "health_answers").None? &&
    Field(row, "consent_given").None?
  }

  lemma IdentityOfBareRow(row: Json, id: Identity)
    requires BareRow(row)
    ensures HydratedIdentity(row, id) == id
  {
  }

  lemma DetailsOfBareRow(row: Json, d: VisitDetails)
    requires BareRow(row)
    ensures HydratedDetails(row, d) == d.(entryLane := "—")
  {
    InlineLocationLabelSpec(row);
  }

  /** A row holding none of those columns (only its id, say) changes nothing
      the store holds but the location, which shows the dash, and the
      selfie. */
  lemma HydrateOfBareRow(row: Json, ctx: FlowView, selfieUrl: Option<string>)
    requires BareRow(row)
    ensures var h := Hydrate(row, ctx, selfieUrl);
            h.identity == ctx.identity && h.consent == ctx.consent && h.health == ctx.health &&
            h.visitDetails == ctx.visitDetails.(entryLane := "—") && h.snapshot == selfieUrl
  {
    IdentityOfBareRow(row, ctx.identity);
    DetailsOfBareRow(row, ctx.visitDetails);
    assert MergedHealth(JNull, ctx.health) == ctx.health;
  }

  /** A row holding only its id is bare. */
  lemma IdOnlyRowIsBare(id: string)
    ensures BareRow(JObj(map["id" := JStr(id)]))
  {
  }

  // ---------------------------------------------------------------------
  // Displayed values

  /** `Object.entries(activeHealth).filter(([, value]) => value)`, as the
      set of questions answered yes. */
  function Warnings(health: map<string, bool>): (w: set<string>)
    ensures forall q :: q in w <==> q in health && health[q]
  {
    set q | q in health && health[q]
  }

  /** The question `q` is answered yes. */
  predicate Yes(health: map<string, bool>, q: string) {
    q in health && health[q]
  }

  /** The same filter with the order of `Object.entries` kept: `order` is
      the key order of the health object. The store builds that object from
      the questionnaire and only reassigns its keys, so there it is
      `HealthQuestions`. */
  function OrderedWarnings(health: map<string, bool>, order: seq<string>): (w: seq<string>)
    ensures forall q :: q in w <==> q in order && Yes(health, q)
    ensures w != [] ==> exists k :: 0 <= k < |order| && order[k] == w[0] &&
                                    forall j :: 0 <= j < k ==> !Yes(health, order[j])
  {
    if order == [] then []
    else
      var rest := OrderedWarnings(health, order[1..]);
      if Yes(health, order[0]) then [order[0]] + rest
      else
        FirstYesAfterNo(health, order, rest);
        rest
  }

  /** A first yes in the tail of `order` is a first yes in `order` when its
      head is answered no. */
  lemma FirstYesAfterNo(health: map<string, bool>, order: seq<string>, w: seq<string>)
    requires order != [] && !Yes(health, order[0])
    requires w != [] ==> exists k :: 0 <= k < |order[1..]| && order[1..][k] == w[0] &&
                                     forall j :: 0 <= j < k ==> !Yes(health, order[1..][j])
    ensures w != [] ==> exists k :: 0 <= k < |order| && order[k] == w[0] &&
                                    forall j :: 0 <= j < k ==> !Yes(health, order[j])
  {
    if w != [] {
      var k :| 0 <= k < |order[1..]| && order[1..][k] == w[0] &&
               forall j :: 0 <= j < k ==> !Yes(health, order[1..][j]);
      assert forall j :: 0 <= j < k + 1 ==> !Yes(health, order[j]) by {
        forall j | 0 < j < k + 1
          ensures !Yes(health, order[j])
        {
          assert order[j] == order[1..][j - 1];
        }
      }
      assert order[k + 1] == w[0];
    }
  }

  /** Over the store's questionnaire keys the ordered warnings hold exactly
      the questions answered yes. */
  lemma OrderedWarningsAreWarnings(health: map<string, bool>)
    requires health.Keys == set q | q in HealthQuestions
    ensures forall q :: q in OrderedWarnings(health, HealthQuestions) <==> q in Warnings(health)
  {
  }

  const ClearanceTitle := "Health clearance"
  const AlertTitlePrefix := "Health alert: "

  /** The title of the health instruction: the first warning in key order,
      or the clearance when there is none. */
  function HealthInstructionTitle(health: map<string, bool>, order: seq<string>): (title: string)
    ensures title == ClearanceTitle <==> forall k :: 0 <= k < |order| ==> !Yes(health, order[k])
    ensures title != ClearanceTitle ==>
              exists k :: 0 <= k < |order| && title == AlertTitlePrefix + order[k] && Yes(health, order[k]) &&
                          forall j :: 0 <= j < k ==> !Yes(health, order[j])
  {
    var w := OrderedWarnings(health, order);
    if w == [] then ClearanceTitle
    else
      var title := AlertTitlePrefix + w[0];
      assert title[7] == 'a' && ClearanceTitle[7] == 'c';
      title
  }

  /** `activeVisitDetails.entryLane || "—"` */
  function DisplayedLocation(d: VisitDetails): (shown: string)
    ensures shown != ""
    ensures d.entryLane != "" ==> shown == d.entryLane
  {
    if d.entryLane != "" then d.entryLane else "—"
  }

  class ThanksPage {
    var hydrated: Option<HydratedVisit>
    var loadingVisit: bool
    var visitError: Option<string>
    /** The tables queried, oldest first. */
    var queried: seq<string>

    constructor()
      ensures hydrated.None? && !loadingVisit && visitError.None? && queried == []
    {
      hydrated := None;
      loadingVisit := false;
      visitError := None;
      queried := [];
    }

    /** The values shown: the hydrated visit when there is one, the store's
        otherwise. */
    function Active(ctx: FlowView): (v: HydratedVisit)
      reads this
      ensures hydrated.Some? ==> v == hydrated.value
      ensures hydrated.None? ==> v == HydratedVisit(ctx.identity, ctx.visitDetails, ctx.health, ctx.snapshot, ctx.consent)
    {
      if hydrated.Some? then hydrated.value
      else HydratedVisit(ctx.identity, ctx.visitDetails, ctx.health, ctx.snapshot, ctx.consent)
    }

    /** The fetch effect, settled: the answers of the two queries, the bucket's
        answer for the selfie path, and whether the effect was cleaned up
        before the fetch settled. */
    method FetchVisit(query: map<string, string>, ctx: FlowView, visits: QueryAnswer, visitors: QueryAnswer,
                      storage: string -> StorageAnswer, cancelled: bool)
      modifies this
      ensures !old(ShouldFetch(query, ctx, hydrated)) ==>
                hydrated == old(hydrated) && loadingVisit == old(loadingVisit) &&
                visitError == old(visitError) && queried == old(queried)
      ensures old(ShouldFetch(query, ctx, hydrated)) ==>
                var fetched := FetchRow(visits, visitors);
                queried == old(queried) + fetched.1 &&
                loadingVisit == cancelled &&
                (cancelled ==> hydrated == old(hydrated) && visitError.None?) &&
                (!cancelled && fetched.0.Success? ==>
                   var row := fetched.0.value;
                   hydrated == Some(Hydrate(row, ctx, ResolveSelfieUrl(StringField(row, "selfie_url"), storage))) &&
                   visitError.None?) &&
                (!cancelled && fetched.0.Failure? ==> hydrated == old(hydrated) && visitError == Some(fetched.0.error))
    {
      if !ShouldFetch(query, ctx, hydrated) {
        return;
      }
      loadingVisit := true;
      visitError := None;
      var fetched := FetchRow(visits, visitors);
      queried := queried + fetched.1;
      if fetched.0.Failure? {
        if !cancelled {
          visitError := Some(fetched.0.error);
        }
      } else {
        var row := fetched.0.value;
        var selfieUrl := ResolveSelfieUrl(StringField(row, "selfie_url"), storage);
        var health := NormalizeHealthAnswers(FieldOrNull(row, "health_answers"), ctx.health);
        if !cancelled {
          var h := Hydrate(row, ctx, selfieUrl);
          assert h.health == health;
          hydrated := Some(h);
        }
      }
      if !cancelled {
        loadingVisit := false;
      }
    }
  }

  /** Once a visit is hydrated, no further fetch happens. */
  lemma HydratedNeverRefetches(query: map<string, string>, ctx: FlowView, h: HydratedVisit)
    ensures !ShouldFetch(query, ctx, Some(h))
  {
  }

  /** A visit in the store suppresses the fetch, whatever the query says. */
  lemma ContextVisitSuppressesFetch(query: map<string, string>, ctx: FlowView, hydrated: Option<HydratedVisit>)
    requires ctx.submitted
    ensures !ShouldFetch(query, ctx, hydrated)
  {
  }

  /** `id` wins over `visitId`. */
  lemma IdWinsOverVisitId(a: string, b: string)
    ensures VisitIdOf(map["id" := a, "visitId" := b]) == Some(a)
    ensures VisitIdOf(map["visitId" := b]) == Some(b)
  {
  }
}
