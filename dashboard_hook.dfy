/** The client-side dashboard loader (`useAdminDashboard`): six counts,
    the latest twenty visits normalised for the live stream, and today's
    hourly trend, with loading and error state. */
module DashboardHook {
  import opened Common
  import opened Json
  import opened DashboardData
  import opened DashboardCounts
  import Status

  /** `r` holds each item of `s` that passes the filter as often as `s`
      does, and nothing else. */
  ghost predicate IsRecordFilter(r: seq<Json>, s: seq<Json>) {
    forall x {:trigger multiset(r)[x]} :: multiset(r)[x] == if IsRecord(x) then multiset(s)[x] else 0
  }

  /** `raw.filter(isRecord)`: each object or array is kept as often as it
      occurs, and every other item is dropped. */
  function Records(items: seq<Json>): (r: seq<Json>)
    ensures |r| <= |items|
    ensures forall i :: 0 <= i < |r| ==> IsRecord(r[i])
    ensures IsRecordFilter(r, items)
  {
    if items == [] then []
    else
      assert items == [items[0]] + items[1..];
      if IsRecord(items[0]) then [items[0]] + Records(items[1..])
      else Records(items[1..])
  }

  /** The filter keeps the order of the list: filtering a concatenation is
      concatenating the filtered parts. */
  lemma {:induction false} RecordsAppend(a: seq<Json>, b: seq<Json>)
    ensures Records(a + b) == Records(a) + Records(b)
  {
    if a == [] {
      assert a + b == b;
    } else {
      var ab := a + b;
      assert ab != [] && ab[0] == a[0] && ab[1..] == a[1..] + b;
      RecordsAppend(a[1..], b);
      if IsRecord(a[0]) {
        assert Records(ab) == [a[0]] + Records(a[1..] + b);
        assert Records(a) == [a[0]] + Records(a[1..]);
      } else {
        assert Records(ab) == Records(a[1..] + b);
        assert Records(a) == Records(a[1..]);
      }
    }
  }

  /** One item is kept alone exactly when it is a record. */
  lemma RecordsOfOne(x: Json)
    ensures Records([x]) == if IsRecord(x) then [x] else []
  {
    assert [x][1..] == [];
  }

  /** The value the status is normalised from: `status`, else
      `health_status`, when a string. */
  function StatusSource(row: Json): (s: Option<string>)
    ensures StringField(row, "status").Some? ==> s == StringField(row, "status")
    ensures StringField(row, "status").None? ==> s == StringField(row, "health_status")
  {
    if StringField(row, "status").Some? then StringField(row, "status") else StringField(row, "health_status")
  }

  /** One live-stream entry: string columns kept, anything else `null`, the
      id defaulting to the empty string. */
  function LiveItemOf(row: Json): (item: LiveStreamItem)
    ensures item.id == StringField(row, "id").GetOr("")
    ensures item.fullName == StringField(row, "full_name") && item.purpose == StringField(row, "purpose")
    ensures item.healthStatus == StringField(row, "health_status") && item.createdAt == StringField(row, "created_at")
    ensures item.status == Some(Status.NormalizeStatus(StatusSource(row)))
  {
    LiveStreamItem(
      StringField(row, "id").GetOr(""), StringField(row, "full_name"), StringField(row, "purpose"),
      Some(Status.NormalizeStatus(StatusSource(row))), StringField(row, "health_status"),
      StringField(row, "created_at"))
  }

  /** `normalizeLiveStream` */
  function NormalizeLiveStream(raw: Json): (items: seq<LiveStreamItem>)
    ensures !raw.JArr? ==> items == []
    ensures raw.JArr? ==> |items| == |Records(raw.items)| &&
                          forall i :: 0 <= i < |items| ==> items[i] == LiveItemOf(Records(raw.items)[i])
  {
    if !raw.JArr? then []
    else
      var rows := Records(raw.items);
      seq(|rows|, i requires 0 <= i < |rows| => LiveItemOf(rows[i]))
  }

  /** A row with neither column as a string is shown under review. */
  lemma LiveItemWithoutStatusIsReview(row: Json)
    requires StringField(row, "status").None? && StringField(row, "health_status").None?
    ensures LiveItemOf(row).status == Some(Status.Review)
  {
    Status.NormalizeBlankIsReview(None);
  }

  /** The health status speaks only when the status column is not a string. */
  lemma LiveItemStatusPrefersStatus(row: Json)
    requires StringField(row, "status").Some?
    ensures LiveItemOf(row).status == Some(Status.NormalizeStatus(StringField(row, "status")))
  {
  }

  /** The `created_at` values `fetchTrend` passes on: records only, a
      non-string value read as `null`. */
  function HookTrendRows(data: Json): (rows: seq<Option<string>>)
    ensures !data.JArr? ==> rows == []
    ensures data.JArr? ==> |rows| == |Records(data.items)| &&
                           forall i :: 0 <= i < |rows| ==> rows[i] == StringField(Records(data.items)[i], "created_at")
  {
    if !data.JArr? then []
    else
      var records := Records(data.items);
      seq(|records|, i requires 0 <= i < |records| => StringField(records[i], "created_at"))
  }

  const LoadFailedMessage := "Unable to load dashboard data."

  /** What the two row queries answer: the rows, or the error thrown. */
  datatype HookAnswers = HookAnswers(
    counts: seq<Result<Option<int>, Thrown>>, liveStream: Result<Json, Thrown>, trend: Result<Json, Thrown>)

  /** The first failure in the order the loader awaits: the counts, the live
      stream, the trend. */
  function HookFailure(a: HookAnswers): (e: Option<Thrown>)
    requires |a.counts| == 6
    ensures e.None? <==> AllCounts(a.counts).Success? && a.liveStream.Success? && a.trend.Success?
  {
    if AllCounts(a.counts).Failure? then Some(AllCounts(a.counts).error)
    else if a.liveStream.Failure? then Some(a.liveStream.error)
    else if a.trend.Failure? then Some(a.trend.error)
    else None
  }

  /** The payload of a load in which nothing failed. */
  function HookPayload(a: HookAnswers, hourOf: string -> Option<Hour>): (r: DashboardResponse)
    requires |a.counts| == 6 && HookFailure(a).None?
    ensures |r.trend| == 24
    ensures a.liveStream.value.JArr? ==> |r.liveStream| <= |a.liveStream.value.items|
  {
    DashboardResponse(KpisOf(AllCounts(a.counts).value), NormalizeLiveStream(a.liveStream.value),
                      TrendOf(HookTrendRows(a.trend.value), hourOf))
  }

  /** A loaded payload has the 24 trend points, live entries only for
      records, and a total that is the first count with a missing count
      read as 0. */
  lemma HookPayloadShape(a: HookAnswers, hourOf: string -> Option<Hour>)
    requires |a.counts| == 6 && HookFailure(a).None?
    ensures var p := HookPayload(a, hourOf);
            |p.trend| == 24 && p.kpis.totalToday == a.counts[0].value.GetOr(0) &&
            (a.liveStream.value.JArr? ==> |p.liveStream| <= |a.liveStream.value.items|) &&
            (a.counts[0].value.GetOr(0) == 0 ==> p.kpis.gateReadinessBasisPoints == 0)
  {
    var counts := AllCounts(a.counts).value;
    assert Success(counts[0]) == CountOf(a.counts[0]);
  }

  class Loader {
    var data: Option<DashboardResponse>
    var loading: bool
    var error: Option<string>

    /** The first render: loading, before the effect's fetch settles. */
    constructor()
      ensures data.None? && loading && error.None?
    {
      data := None;
      loading := true;
      error := None;
    }

    /** `fetchData()` settled with `answers`; also what `refetch` runs. A
        failed load keeps the previous data. */
    method FetchData(answers: HookAnswers, hourOf: string -> Option<Hour>)
      requires |answers.counts| == 6
      modifies this
      ensures !loading
      ensures HookFailure(answers).Some? ==>
                data == old(data) && error == Some(MessageOr(HookFailure(answers).value, LoadFailedMessage))
      ensures HookFailure(answers).None? ==> data == Some(HookPayload(answers, hourOf)) && error.None?
    {
      loading := true;
      error := None;
      var failure := HookFailure(answers);
      if failure.Some? {
        error := Some(MessageOr(failure.value, LoadFailedMessage));
      } else {
        var kpis := KpisOf(AllCounts(answers.counts).value);
        var live := NormalizeLiveStream(answers.liveStream.value);
        var trend := BuildHourlyTrend(HookTrendRows(answers.trend.value), hourOf);
        data := Some(DashboardResponse(kpis, live, trend));
      }
      loading := false;
    }
  }
}
