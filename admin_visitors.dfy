/** The visitor log of the admin area (`AdminVisitorsPage`): rows of
    `visits` are validated, their selfies resolved, mapped to view records
    with defaults and shown eight to a page. */
module AdminVisitors {
  import opened Common
  import opened Json
  import opened Text
  import opened SelfieStorage
  import Status
  import Thanks

  // ---------------------------------------------------------------------
  // Row validation

  /** `isNullableString(row[key])`: a missing key is `undefined`, which is
      neither. */
  predicate NullableString(row: Json, key: string) {
    Field(row, key) == Some(JNull) || StringField(row, key).Some?
  }

  /** The columns that must hold a string or `null`. */
  const NullableColumns: seq<string> := [
    "created_at", "full_name", "mobile", "company", "visit_type", "host_name",
    "purpose", "purpose_notes", "status", "visit_date", "selfie_url"]

  /** `isVisitDbRow` */
  predicate IsVisitDbRow(value: Json)
    ensures IsVisitDbRow(value) ==> value.JObj? && "id" in value.fields && value.fields["id"].JStr?
  {
    value.JObj? && StringField(value, "id").Some? &&
    NullableString(value, "created_at") && NullableString(value, "full_name") &&
    NullableString(value, "mobile") && NullableString(value, "company") &&
    NullableString(value, "visit_type") && NullableString(value, "host_name") &&
    NullableString(value, "purpose") && NullableString(value, "purpose_notes") &&
    NullableString(value, "status") && NullableString(value, "visit_date") &&
    (Field(value, "health_answers").Some? && TypeofObject(value.fields["health_answers"])) &&
    NullableString(value, "selfie_url")
  }

  /** A row is accepted exactly when it is an object with a string id, every
      listed column holds a string or `null`, and the health answers are
      `null` or an object (arrays included). */
  lemma IsVisitDbRowIff(value: Json)
    ensures IsVisitDbRow(value) <==>
            value.JObj? && StringField(value, "id").Some? &&
            (forall i :: 0 <= i < |NullableColumns| ==> NullableString(value, NullableColumns[i])) &&
            "health_answers" in value.fields && TypeofObject(value.fields["health_answers"])
  {
    var c := NullableColumns;
    if IsVisitDbRow(value) {
      forall i | 0 <= i < |c|
        ensures NullableString(value, c[i])
      {
      }
    } else if value.JObj? && (forall i :: 0 <= i < |c| ==> NullableString(value, c[i])) {
      assert NullableString(value, c[0]) && NullableString(value, c[1]) && NullableString(value, c[2]);
      assert NullableString(value, c[3]) && NullableString(value, c[4]) && NullableString(value, c[5]);
      assert NullableString(value, c[6]) && NullableString(value, c[7]) && NullableString(value, c[8]);
      assert NullableString(value, c[9]) && NullableString(value, c[10]);
    }
  }

  /** `Array.isArray(data) ? data.filter(isVisitDbRow) : []` */
  function ValidRows(data: Json): (rows: seq<Json>)
    ensures !data.JArr? ==> rows == []
    ensures forall i :: 0 <= i < |rows| ==> IsVisitDbRow(rows[i])
    ensures data.JArr? ==> IsVisitDbRowFilter(rows, data.items)
  {
    if data.JArr? then KeepRows(data.items) else []
  }

  /** `r` holds each item of `s` that passes the filter as often as `s`
      does, and nothing else. */
  ghost predicate IsVisitDbRowFilter(r: seq<Json>, s: seq<Json>) {
    forall x {:trigger multiset(r)[x]} :: multiset(r)[x] == if IsVisitDbRow(x) then multiset(s)[x] else 0
  }

  /** `items.filter(isVisitDbRow)`: each accepted item is kept as often as
      it occurs, and every other item is dropped. */
  function KeepRows(items: seq<Json>): (rows: seq<Json>)
    ensures |rows| <= |items|
    ensures forall i :: 0 <= i < |rows| ==> IsVisitDbRow(rows[i])
    ensures IsVisitDbRowFilter(rows, items)
  {
    if items == [] then []
    else
      assert items == [items[0]] + items[1..];
      if IsVisitDbRow(items[0]) then [items[0]] + KeepRows(items[1..])
      else KeepRows(items[1..])
  }

  /** The filter keeps the order of the list: filtering a concatenation is
      concatenating the filtered parts. */
  lemma {:induction false} KeepRowsAppend(a: seq<Json>, b: seq<Json>)
    ensures KeepRows(a + b) == KeepRows(a) + KeepRows(b)
  {
    if a == [] {
      assert a + b == b;
    } else {
      var ab := a + b;
      assert ab != [] && ab[0] == a[0] && ab[1..] == a[1..] + b;
      KeepRowsAppend(a[1..], b);
      if IsVisitDbRow(a[0]) {
        assert KeepRows(ab) == [a[0]] + KeepRows(a[1..] + b);
        assert KeepRows(a) == [a[0]] + KeepRows(a[1..]);
      } else {
        assert KeepRows(ab) == KeepRows(a[1..] + b);
        assert KeepRows(a) == KeepRows(a[1..]);
      }
    }
  }

  /** One item is kept alone exactly when it is accepted. */
  lemma KeepRowsOfOne(x: Json)
    ensures KeepRows([x]) == if IsVisitDbRow(x) then [x] else []
  {
    assert [x][1..] == [];
  }

  // ---------------------------------------------------------------------
  // Selfie

  /** `normalizeSelfiePath` */
  function NormalizeSelfiePath(path: string): (p: string)
    ensures |p| <= |Trim(path)|
  {
    StoragePath(Trim(path))
  }

  /** A trimmed path loses its leading slashes first and then at most one
      bucket prefix. */
  lemma NormalizeSelfiePathSpec(path: string)
    ensures exists k :: 0 <= k <= |Trim(path)| && (forall i :: 0 <= i < k ==> Trim(path)[i] == '/') &&
                        (k == |Trim(path)| || Trim(path)[k] != '/') &&
                        NormalizeSelfiePath(path) == StripPrefix(Trim(path)[k..], BucketPrefix)
  {
    var p := StoragePath(Trim(path));
  }

  /** The path the check-in page stores is kept as it is. */
  lemma NormalizeStoredPath(path: string)
    requires StartsWith(path, "selfies/") && NoSpace(path)
    ensures NormalizeSelfiePath(path) == path
  {
    TrimOfNoSpace(path);
    StoragePathOfStoredPath(path);
  }

  /** `resolveSelfieUrl` of this page: only HTTP(S) URLs pass through. */
  function ResolveSelfieUrl(value: Option<string>, storage: string -> StorageAnswer): (r: Option<string>)
    ensures NoSelfieValue(value) ==> r.None?
    ensures !NoSelfieValue(value) && IsHttpUrl(Trim(value.value)) ==> r == Some(Trim(value.value))
    ensures !NoSelfieValue(value) && !IsHttpUrl(Trim(value.value)) ==>
            r == LookupUrl(storage(NormalizeSelfiePath(Trim(value.value))))
  {
    if value.None? || value.value == "" then None
    else
      var raw := Trim(value.value);
      if raw == "" then None
      else if IsHttpUrl(raw) then Some(raw)
      else LookupUrl(storage(NormalizeSelfiePath(raw)))
  }

  /** The two pages resolve every value alike except a `data:` URL, which
      the confirmation page shows as it is and this page looks up as a path. */
  lemma ResolveAgreesWithConfirmationPage(value: Option<string>, storage: string -> StorageAnswer)
    ensures NoSelfieValue(value) || !StartsWith(Trim(value.value), "data:") ==>
            ResolveSelfieUrl(value, storage) == Thanks.ResolveSelfieUrl(value, storage)
    ensures !NoSelfieValue(value) && StartsWith(Trim(value.value), "data:") ==>
            Thanks.ResolveSelfieUrl(value, storage) == Some(Trim(value.value)) &&
            ResolveSelfieUrl(value, storage) == LookupUrl(storage(StoragePath(Trim(value.value))))
  {
    if !NoSelfieValue(value) {
      var raw := Trim(value.value);
      TrimIdempotent(value.value);
      if StartsWith(raw, "data:") {
        assert raw[0] == 'd';
        assert !IsHttpUrl(raw) by {
          assert !StartsWith(raw, "http://") by { assert "http://"[0] == 'h'; }
          assert !StartsWith(raw, "https://") by { assert "https://"[0] == 'h'; }
        }
      }
    }
  }

  // ---------------------------------------------------------------------
  // Health answers

  /** What `normalizeHealthAnswers` computes: `null` for a falsy value or a
      non-object, else every entry coerced to a boolean. */
  function HealthAnswersOf(value: Json): (r: Option<map<string, bool>>)
    ensures r.None? <==> !(Truthy(value) && TypeofObject(value))
    ensures r.Some? ==> r.value.Keys == Entries(value).Keys
    ensures r.Some? ==> forall k :: k in r.value ==> r.value[k] == Truthy(Entries(value)[k])
  {
    if !Truthy(value) || !TypeofObject(value) then None
    else Some(Coerced(Entries(value)))
  }

  /** Every entry coerced with `Boolean`. */
  function Coerced(entries: map<string, Json>): (r: map<string, bool>)
    ensures r.Keys == entries.Keys
    ensures forall k :: k in r ==> r[k] == Truthy(entries[k])
  {
    map k | k in entries :: Truthy(entries[k])
  }

  /** `normalizeHealthAnswers`: the `reduce` over the entries, adding one
      coerced answer at a time to the accumulator. */
  method NormalizeHealthAnswers(value: Json) returns (r: Option<map<string, bool>>)
    ensures r == HealthAnswersOf(value)
  {
    if !Truthy(value) || !TypeofObject(value) {
      return None;
    }
    var entries := Entries(value);
    var acc: map<string, bool> := map[];
    var pending := entries.Keys;
    while pending != {}
      invariant pending <= entries.Keys
      invariant acc.Keys == entries.Keys - pending
      invariant forall k :: k in acc ==> acc[k] == Truthy(entries[k])
      decreases |pending|
    {
      var key :| key in pending;
      acc := acc[key := Truthy(entries[key])];
      pending := pending - {key};
    }
    assert acc == Coerced(entries);
    return Some(acc);
  }

  /** A stored answer map comes back as it was. */
  lemma HealthAnswersOfStored(answers: map<string, bool>)
    ensures HealthAnswersOf(JObj(map k | k in answers :: JBool(answers[k]))) == Some(answers)
  {
    var fields := map k | k in answers :: JBool(answers[k]);
    assert Coerced(fields) == answers;
  }

  // ---------------------------------------------------------------------
  // View records

  /** `VisitorDetails`, the record the table and the detail sheet show. */
  datatype VisitorDetails = VisitorDetails(
    id: string, name: string, mobile: string, company: string, purpose: string,
    meetingWith: string, status: Status.CanonicalStatus, date: string, dateLabel: string,
    time: string, selfieUrl: Option<string>, selfieDisplayUrl: Option<string>,
    purposeNotes: Option<string>, healthAnswers: Option<map<string, bool>>,
    siteNormsAgreed: Option<bool>)

  /** `mapRowToVisitor` for an accepted row and its resolved selfie; `now` is
      the clock as an ISO string and the two formatters are the locale
      renderings of a date string. */
  function MapRowToVisitor(row: Json, selfieDisplayUrl: Option<string>, now: string,
                           formatDate: string -> string, formatTime: string -> string): (v: VisitorDetails)
    requires IsVisitDbRow(row)
    ensures v.id == StringField(row, "id").value
    ensures v.name == StringField(row, "full_name").GetOr("Visitor")
    ensures v.mobile == StringField(row, "mobile").GetOr("")
    ensures v.company == StringField(row, "company").GetOr("Independent visitor")
    ensures v.purpose == StringField(row, "purpose").GetOr(StringField(row, "visit_type").GetOr("Visit"))
    ensures v.meetingWith == StringField(row, "host_name").GetOr("TBD")
    ensures v.status == Status.NormalizeStatus(StringField(row, "status"))
    ensures v.date == StringField(row, "visit_date").GetOr(StringField(row, "created_at").GetOr(now))
    ensures v.dateLabel == formatDate(v.date) && v.time == formatTime(v.date)
    ensures v.selfieUrl == StringField(row, "selfie_url") && v.selfieDisplayUrl == selfieDisplayUrl
    ensures v.purposeNotes == StringField(row, "purpose_notes")
    ensures v.healthAnswers == HealthAnswersOf(row.fields["health_answers"])
    ensures v.siteNormsAgreed.None?
  {
    var date := StringField(row, "visit_date").GetOr(StringField(row, "created_at").GetOr(now));
    VisitorDetails(
      StringField(row, "id").value,
      StringField(row, "full_name").GetOr("Visitor"),
      StringField(row, "mobile").GetOr(""),
      StringField(row, "company").GetOr("Independent visitor"),
      StringField(row, "purpose").GetOr(StringField(row, "visit_type").GetOr("Visit")),
      StringField(row, "host_name").GetOr("TBD"),
      Status.NormalizeStatus(StringField(row, "status")),
      date, formatDate(date), formatTime(date),
      StringField(row, "selfie_url"), selfieDisplayUrl,
      StringField(row, "purpose_notes"),
      HealthAnswersOf(row.fields["health_answers"]),
      None)
  }

  /** A row stored by the check-in page (status `review`) is shown as under
      review, whatever its other columns hold. */
  lemma StoredRowShowsReview(row: Json, selfieDisplayUrl: Option<string>, now: string,
                             formatDate: string -> string, formatTime: string -> string)
    requires IsVisitDbRow(row) && StringField(row, "status") == Some(Status.ToDbStatus(Status.Review))
    ensures MapRowToVisitor(row, selfieDisplayUrl, now, formatDate, formatTime).status == Status.Review
  {
    Status.StorageRoundTrip(Status.Review);
  }

  // ---------------------------------------------------------------------
  // Query filters

  /** A `%` at index `i` of `r` is preceded by a backslash. */
  predicate EscapedAt(r: string, i: int)
    requires 0 <= i < |r|
  {
    r[i] == '%' ==> i > 0 && r[i - 1] == '\\'
  }

  /** `replace(/%/g, "\\%")` */
  function EscapePercent(s: string): (r: string)
    ensures |r| >= |s|
    ensures forall i :: 0 <= i < |r| ==> EscapedAt(r, i)
  {
    if s == [] then []
    else
      var head := if s[0] == '%' then ['\\', '%'] else [s[0]];
      var rest := EscapePercent(s[1..]);
      assert forall i :: 0 <= i < |head + rest| ==> EscapedAt(head + rest, i) by {
        forall i | 0 <= i < |head + rest| ensures EscapedAt(head + rest, i) {
          if i >= |head| {
            assert EscapedAt(rest, i - |head|);
          }
        }
      }
      head + rest
  }

  /** Reading an escaped pattern back: a backslash before `%` is dropped. */
  function UnescapePercent(r: string): (s: string)
  {
    if r == [] then []
    else if |r| >= 2 && r[0] == '\\' && r[1] == '%' then ['%'] + UnescapePercent(r[2..])
    else [r[0]] + UnescapePercent(r[1..])
  }

  lemma {:induction false} EscapePercentRoundTrip(s: string)
    ensures UnescapePercent(EscapePercent(s)) == s
  {
    if s != [] {
      EscapePercentRoundTrip(s[1..]);
      var rest := EscapePercent(s[1..]);
      if s[0] == '%' {
        assert (['\\', '%'] + rest)[2..] == rest;
      } else {
        assert rest == [] || rest[0] != '%';
        assert ([s[0]] + rest)[1..] == rest;
      }
    }
  }

  /** The search clause: none for a blank search, else a case-insensitive
      match on the name or the mobile number. */
  function SearchFilter(search: string): (f: Option<string>)
    ensures IsBlank(search) <==> f.None?
  {
    var q := Trim(search);
    if q == "" then None
    else
      var pattern := "%" + EscapePercent(q) + "%";
      Some("full_name.ilike." + pattern + ",mobile.ilike." + pattern)
  }

  /** The filters of one `visits` query: the search clause, the purpose
      equality (none for `all`), and the row limit. */
  datatype VisitsQuery = VisitsQuery(orFilter: Option<string>, purposeEq: Option<string>, limit: int)

  function QueryFor(search: string, purposeFilter: string): (q: VisitsQuery)
    ensures q.orFilter == SearchFilter(search)
    ensures q.purposeEq.None? <==> purposeFilter == "all"
    ensures q.purposeEq.Some? ==> q.purposeEq.value == purposeFilter
    ensures q.limit == 200
  {
    VisitsQuery(SearchFilter(search), if purposeFilter == "all" then None else Some(purposeFilter), 200)
  }

  // ---------------------------------------------------------------------
  // Paging

  const PageSize := 8

  /** `Math.max(1, Math.ceil(n / pageSize))` */
  function PageCount(n: nat): (c: nat)
    ensures c >= 1
    ensures n > 0 ==> (c - 1) * PageSize < n <= c * PageSize
    ensures n <= PageSize ==> c == 1
  {
    if n == 0 then 1 else (n + PageSize - 1) / PageSize
  }

  /** `items.slice(start, start + pageSize)` with `start = page * pageSize`;
      `slice` clamps both ends to the length. */
  function Page<T>(items: seq<T>, page: nat): (r: seq<T>)
    ensures |r| <= PageSize
    ensures page * PageSize >= |items| ==> r == []
    ensures page * PageSize < |items| ==>
            r == items[page * PageSize .. if page * PageSize + PageSize <= |items| then page * PageSize + PageSize else |items|]
  {
    var start := if page * PageSize <= |items| then page * PageSize else |items|;
    var end := if start + PageSize <= |items| then start + PageSize else |items|;
    items[start..end]
  }

  /** The pages `0` .. `k - 1` one after another. */
  function Pages<T>(items: seq<T>, k: nat): (r: seq<T>)
    ensures |r| <= k * PageSize
  {
    if k == 0 then [] else Pages(items, k - 1) + Page(items, k - 1)
  }

  lemma {:induction false} PagesArePrefix<T>(items: seq<T>, k: nat)
    ensures Pages(items, k) == items[..if k * PageSize <= |items| then k * PageSize else |items|]
  {
    if k > 0 {
      PagesArePrefix(items, k - 1);
    }
  }

  /** Every visitor is on exactly one page: the pages, read in order, are the
      whole list. */
  lemma PagesCoverAll<T>(items: seq<T>)
    ensures Pages(items, PageCount(|items|)) == items
  {
    PagesArePrefix(items, PageCount(|items|));
  }

  // ---------------------------------------------------------------------
  // File names

  predicate FilenameChar(c: char) {
    'a' <= c <= 'z' || 'A' <= c <= 'Z' || '0' <= c <= '9' || c == '-' || c == '_'
  }

  /** `replace(/\s+/g, "-")` */
  function DashSpaces(s: string): (r: string)
    ensures NoSpace(r)
    ensures NoSpace(s) ==> r == s
    decreases |s|
  {
    if s == [] then []
    else if IsSpace(s[0]) then ['-'] + DashSpaces(TrimStart(s))
    else [s[0]] + DashSpaces(s[1..])
  }

  /** `replace(/[^a-zA-Z0-9-_]/g, "")` */
  function KeepFilenameChars(s: string): (r: string)
    ensures forall i :: 0 <= i < |r| ==> FilenameChar(r[i])
    ensures (forall i :: 0 <= i < |s| ==> FilenameChar(s[i])) ==> r == s
  {
    if s == [] then []
    else if FilenameChar(s[0]) then [s[0]] + KeepFilenameChars(s[1..])
    else KeepFilenameChars(s[1..])
  }

  /** `formatFilenamePart` */
  function FormatFilenamePart(value: string): (r: string)
    ensures SafeFilename(r)
  {
    var kept := KeepFilenameChars(DashSpaces(Trim(value)));
    ToLower(kept)
  }

  /** A formatted part is its own format. */
  lemma FormatFilenamePartIdempotent(value: string)
    ensures FormatFilenamePart(FormatFilenamePart(value)) == FormatFilenamePart(value)
  {
    SafeFilenameIsFixed(FormatFilenamePart(value));
  }

  /** Formatting leaves a name of safe characters as it is. */
  lemma SafeFilenameIsFixed(r: string)
    requires SafeFilename(r)
    ensures FormatFilenamePart(r) == r
  {
    assert NoSpace(r) && NoUpper(r);
    TrimOfNoSpace(r);
    assert DashSpaces(r) == r;
    assert forall i :: 0 <= i < |r| ==> FilenameChar(r[i]);
    assert KeepFilenameChars(r) == r;
    ToLowerOfNoUpper(r);
  }

  /** Characters `formatFilenamePart` can produce. */
  predicate SafeChar(c: char) {
    'a' <= c <= 'z' || '0' <= c <= '9' || c == '-' || c == '_'
  }

  predicate SafeFilename(s: string) {
    forall i :: 0 <= i < |s| ==> SafeChar(s[i])
  }

  // ---------------------------------------------------------------------
  // The page

  class VisitorLog {
    var search: string
    var purposeFilter: string
    var pageIndex: int
    var visitors: seq<VisitorDetails>
    var loading: bool
    var fetchError: Option<string>
    /** The queries sent to `visits`, oldest first. */
    var queries: seq<VisitsQuery>

    predicate Valid()
      reads this
    {
      pageIndex >= 0
    }

    function PageCountNow(): (c: nat)
      reads this
      ensures c >= 1
    {
      PageCount(|visitors|)
    }

    /** `pagedVisitors` */
    function PagedVisitors(): (page: seq<VisitorDetails>)
      requires Valid()
      reads this
      ensures |page| <= PageSize
      ensures forall v :: v in page ==> v in visitors
    {
      Page(visitors, pageIndex)
    }

    constructor()
      ensures Valid()
      ensures search == "" && purposeFilter == "all" && pageIndex == 0
      ensures visitors == [] && !loading && fetchError.None? && queries == []
    {
      search := "";
      purposeFilter := "all";
      pageIndex := 0;
      visitors := [];
      loading := false;
      fetchError := None;
      queries := [];
    }

    /** A keystroke in the search box: the first page is shown again. */
    method SetSearch(value: string)
      requires Valid()
      modifies this
      ensures Valid()
      ensures search == value && pageIndex == 0
      ensures purposeFilter == old(purposeFilter) && visitors == old(visitors)
      ensures loading == old(loading) && fetchError == old(fetchError) && queries == old(queries)
    {
      search := value;
      pageIndex := 0;
    }

    method SetPurposeFilter(value: string)
      requires Valid()
      modifies this
      ensures Valid()
      ensures purposeFilter == value && pageIndex == 0
      ensures search == old(search) && visitors == old(visitors)
      ensures loading == old(loading) && fetchError == old(fetchError) && queries == old(queries)
    {
      purposeFilter := value;
      pageIndex := 0;
    }

    /** A new timeframe; the date range itself is not part of this model. */
    method SetTimeframe()
      requires Valid()
      modifies this
      ensures Valid()
      ensures pageIndex == 0
      ensures search == old(search) && purposeFilter == old(purposeFilter) && visitors == old(visitors)
      ensures loading == old(loading) && fetchError == old(fetchError) && queries == old(queries)
    {
      pageIndex := 0;
    }

    /** The Prev button is disabled on the first page. */
    predicate PrevDisabled()
      reads this
      ensures Valid() && !PrevDisabled() ==> pageIndex - 1 >= 0
    {
      pageIndex == 0
    }

    /** The Next button is disabled from the last page on. */
    predicate NextDisabled()
      reads this
      ensures !NextDisabled() ==> pageIndex + 1 < PageCountNow()
    {
      pageIndex >= PageCountNow() - 1
    }

    /** The Prev button; a click on it while disabled does nothing. */
    method PrevPage()
      requires Valid()
      modifies this
      ensures Valid()
      ensures old(PrevDisabled()) ==> pageIndex == old(pageIndex)
      ensures !old(PrevDisabled()) ==> pageIndex == old(pageIndex) - 1
      ensures search == old(search) && purposeFilter == old(purposeFilter) && visitors == old(visitors)
      ensures loading == old(loading) && fetchError == old(fetchError) && queries == old(queries)
    {
      if !PrevDisabled() {
        pageIndex := if pageIndex - 1 > 0 then pageIndex - 1 else 0;
      }
    }

    /** The Next button; a click on it while disabled does nothing, so an
        index left past the last page by a shrinking list stays there until
        the page-count effect clamps it. */
    method NextPage()
      requires Valid()
      modifies this
      ensures Valid()
      ensures old(NextDisabled()) ==> pageIndex == old(pageIndex)
      ensures !old(NextDisabled()) ==> pageIndex == old(pageIndex) + 1 && pageIndex < PageCountNow()
      ensures search == old(search) && purposeFilter == old(purposeFilter) && visitors == old(visitors)
      ensures loading == old(loading) && fetchError == old(fetchError) && queries == old(queries)
    {
      if !NextDisabled() {
        var last := PageCountNow() - 1;
        pageIndex := if pageIndex + 1 < last then pageIndex + 1 else last;
      }
    }

    /** The effect keyed on the page count. */
    method ClampPage()
      requires Valid()
      modifies this
      ensures Valid()
      ensures pageIndex == if old(pageIndex) < old(PageCountNow()) - 1 then old(pageIndex) else old(PageCountNow()) - 1
      ensures pageIndex < PageCountNow()
      ensures search == old(search) && purposeFilter == old(purposeFilter) && visitors == old(visitors)
      ensures loading == old(loading) && fetchError == old(fetchError) && queries == old(queries)
    {
      var last := PageCountNow() - 1;
      pageIndex := if pageIndex < last then pageIndex else last;
    }

    /** `fetchVisits()` settled with `outcome` (the rows, or the message of
        the error thrown); `storage` answers the selfie lookups. */
    method FetchVisits(outcome: Result<Json, string>, storage: string -> StorageAnswer, now: string,
                       formatDate: string -> string, formatTime: string -> string)
      requires Valid()
      modifies this
      ensures Valid()
      ensures queries == old(queries) + [QueryFor(old(search), old(purposeFilter))]
      ensures !loading
      ensures outcome.Failure? ==> fetchError == Some(outcome.error) && visitors == old(visitors)
      ensures outcome.Success? ==> fetchError.None? && visitors == ShownVisitors(outcome.value, storage, now, formatDate, formatTime)
      ensures search == old(search) && purposeFilter == old(purposeFilter) && pageIndex == old(pageIndex)
    {
      // The loading flag is raised while the query is awaited and lowered
      // once it settles; only the settled state is modelled.
      SendQuery();
      Settle(outcome, storage, now, formatDate, formatTime);
    }

    /** The query `fetchVisits` sends for the current search and filter. */
    method SendQuery()
      requires Valid()
      modifies this
      ensures Valid()
      ensures queries == old(queries) + [QueryFor(old(search), old(purposeFilter))]
      ensures search == old(search) && purposeFilter == old(purposeFilter) && pageIndex == old(pageIndex)
      ensures visitors == old(visitors) && fetchError == old(fetchError) && loading == old(loading)
    {
      var q := QueryFor(search, purposeFilter);
      var sent := queries + [q];
      queries := sent;
    }

    /** The query settled with `outcome`. */
    method Settle(outcome: Result<Json, string>, storage: string -> StorageAnswer, now: string,
                  formatDate: string -> string, formatTime: string -> string)
      requires Valid()
      modifies this
      ensures Valid()
      ensures !loading && queries == old(queries)
      ensures outcome.Failure? ==> fetchError == Some(outcome.error) && visitors == old(visitors)
      ensures outcome.Success? ==> fetchError.None? && visitors == ShownVisitors(outcome.value, storage, now, formatDate, formatTime)
      ensures search == old(search) && purposeFilter == old(purposeFilter) && pageIndex == old(pageIndex)
    {
      if outcome.Failure? {
        fetchError := Some(outcome.error);
      } else {
        fetchError := None;
        visitors := ShownVisitors(outcome.value, storage, now, formatDate, formatTime);
      }
      loading := false;
    }
  }

  /** The accepted rows, each with its resolved selfie, as view records. */
  function VisitorsOf(rows: seq<Json>, storage: string -> StorageAnswer, now: string,
                      formatDate: string -> string, formatTime: string -> string): (vs: seq<VisitorDetails>)
    requires forall i :: 0 <= i < |rows| ==> IsVisitDbRow(rows[i])
    ensures |vs| == |rows|
    ensures forall i :: 0 <= i < |rows| ==>
              vs[i] == MapRowToVisitor(rows[i], ResolveSelfieUrl(StringField(rows[i], "selfie_url"), storage),
                                       now, formatDate, formatTime)
  {
    seq(|rows|, i requires 0 <= i < |rows| =>
      MapRowToVisitor(rows[i], ResolveSelfieUrl(StringField(rows[i], "selfie_url"), storage), now, formatDate, formatTime))
  }

  /** What the page shows for the rows a query answered. */
  function ShownVisitors(data: Json, storage: string -> StorageAnswer, now: string,
                         formatDate: string -> string, formatTime: string -> string): (vs: seq<VisitorDetails>)
    ensures !data.JArr? ==> vs == []
    ensures |vs| == |ValidRows(data)|
    ensures forall i :: 0 <= i < |vs| ==> vs[i].id == StringField(ValidRows(data)[i], "id").value
  {
    VisitorsOf(ValidRows(data), storage, now, formatDate, formatTime)
  }
}
