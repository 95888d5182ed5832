/** The dashboard API route (`GET /api/admin/dashboard`): the same counts
    and trend as the client loader, the live stream passed through with its
    status normalised, and a 500 answer for anything thrown. */
module DashboardRoute {
  import opened Common
  import opened Json
  import opened DashboardData
  import opened DashboardCounts
  import Status
  import DashboardHook

  const FetchFailedMessage := "Unable to fetch dashboard data."
  /** What the engine throws for `null.status`. */
  const NullStatusMessage := "Cannot read properties of null (reading 'status')"

  /** The canonical label the item's status is replaced by. The route picks
      the status column it normalises exactly as the client loader does, so
      the loader's `DashboardHook.StatusSource` is reused here. */
  function StatusLabel(item: Json): (shown: string)
    ensures shown in {"Approved", "Blocked", "Review", "Checked-in"}
  {
    Status.Label(Status.NormalizeStatus(DashboardHook.StatusSource(item)))
  }

  /** `{ ...item, status }`: every column kept and the status set.
      Spreading a primitive gives no columns; `null` cannot be read and
      throws. */
  function WithStatus(item: Json, status: string): (r: Result<Json, Thrown>)
    ensures item.JNull? <==> r.Failure?
    ensures r.Success? ==> r.value.JObj? && "status" in r.value.fields && r.value.fields["status"] == JStr(status)
    ensures item.JObj? ==> r.Success? && forall k :: k in item.fields && k != "status" ==>
                                                     k in r.value.fields && r.value.fields[k] == item.fields[k]
    ensures item.JObj? ==> r.Success? && r.value.fields.Keys == item.fields.Keys + {"status"}
    ensures !item.JObj? && r.Success? ==> r.value.fields.Keys == {"status"}
  {
    if item.JNull? then Failure(ErrorInstance(NullStatusMessage))
    else if item.JObj? then Success(JObj(item.fields["status" := JStr(status)]))
    else Success(JObj(map["status" := JStr(status)]))
  }

  /** One live-stream entry: the row with its status replaced by the
      canonical label. */
  function LiveItem(item: Json): (r: Result<Json, Thrown>)
    ensures r.Failure? <==> item.JNull?
    ensures r.Success? ==>
              (r.value.JObj? && "status" in r.value.fields &&
               r.value.fields["status"] == JStr(Status.Label(Status.NormalizeStatus(DashboardHook.StatusSource(item)))))
  {
    WithStatus(item, StatusLabel(item))
  }

  /** The live stream of the response, or the error its mapping throws. */
  function LiveStream(data: Json): (r: Result<seq<Json>, Thrown>)
    ensures !data.JArr? ==> r == Success([])
    ensures data.JArr? ==> (r.Failure? <==> JNull in data.items)
    ensures data.JArr? && r.Success? ==>
              (|r.value| == |data.items| &&
               forall i :: 0 <= i < |data.items| ==> LiveItem(data.items[i]) == Success(r.value[i]))
  {
    if !data.JArr? then Success([]) else LiveItems(data.items)
  }

  /** `items.map(...)`: the first `null` throws, whatever its position. */
  function LiveItems(items: seq<Json>): (r: Result<seq<Json>, Thrown>)
    ensures r.Failure? <==> JNull in items
    ensures r.Failure? ==> r.error == ErrorInstance(NullStatusMessage)
    ensures r.Success? ==>
              (|r.value| == |items| &&
               forall i :: 0 <= i < |items| ==> LiveItem(items[i]) == Success(r.value[i]))
  {
    if JNull in items then Failure(ErrorInstance(NullStatusMessage))
    else Success(seq(|items|, i requires 0 <= i < |items| => LiveItem(items[i]).value))
  }

  /** The `created_at` column of `data ?? []`. */
  function RouteTrendRows(data: Option<seq<Json>>): (rows: seq<Option<string>>)
    ensures data.None? ==> rows == []
    ensures data.Some? ==> |rows| == |data.value| &&
                           forall i :: 0 <= i < |rows| ==> rows[i] == StringField(data.value[i], "created_at")
  {
    var items := data.GetOr([]);
    seq(|items|, i requires 0 <= i < |items| => StringField(items[i], "created_at"))
  }

  /** The JSON response of the route. */
  datatype Response =
    | Dashboard(kpis: DashboardKpis, liveStream: seq<Json>, trend: seq<TrendPoint>)
    | ServerError(message: string)

  function StatusCode(r: Response): (code: int)
    ensures code == 200 <==> r.Dashboard?
    ensures code == 500 <==> r.ServerError?
  {
    if r.Dashboard? then 200 else 500
  }

  /** What the route's queries answer. */
  datatype RouteAnswers = RouteAnswers(
    counts: seq<Result<Option<int>, Thrown>>, liveStream: Result<Json, Thrown>,
    trend: Result<Option<seq<Json>>, Thrown>)

  /** The first thing thrown, in the order the route awaits: the counts, the
      live-stream query, the trend query, then the mapping of the live
      stream while the response is assembled. */
  function RouteFailure(a: RouteAnswers): (e: Option<Thrown>)
    requires |a.counts| == 6
    ensures e.None? <==> AllCounts(a.counts).Success? && a.liveStream.Success? &&
                         LiveStream(a.liveStream.value).Success? && a.trend.Success?
  {
    if AllCounts(a.counts).Failure? then Some(AllCounts(a.counts).error)
    else if a.liveStream.Failure? then Some(a.liveStream.error)
    else if a.trend.Failure? then Some(a.trend.error)
    else if LiveStream(a.liveStream.value).Failure? then Some(LiveStream(a.liveStream.value).error)
    else None
  }

  /** `GET` with the answers of its queries. */
  method Get(answers: RouteAnswers, hourOf: string -> Option<Hour>) returns (response: Response)
    requires |answers.counts| == 6
    ensures RouteFailure(answers).Some? ==>
              response == ServerError(MessageOr(RouteFailure(answers).value, FetchFailedMessage))
    ensures RouteFailure(answers).None? ==>
              response == Dashboard(KpisOf(AllCounts(answers.counts).value),
                                    LiveStream(answers.liveStream.value).value,
                                    TrendOf(RouteTrendRows(answers.trend.value), hourOf))
  {
    var failure := RouteFailure(answers);
    if failure.Some? {
      return ServerError(MessageOr(failure.value, FetchFailedMessage));
    }
    var kpis := KpisOf(AllCounts(answers.counts).value);
    var trend := BuildHourlyTrend(RouteTrendRows(answers.trend.value), hourOf);
    response := Dashboard(kpis, LiveStream(answers.liveStream.value).value, trend);
  }

  /** The route answers 200 exactly when every query succeeds and no live
      item is `null`. */
  lemma GetSucceedsIff(answers: RouteAnswers)
    requires |answers.counts| == 6
    ensures RouteFailure(answers).None? <==>
            (forall i :: 0 <= i < 6 ==> answers.counts[i].Success?) && answers.liveStream.Success? &&
            answers.trend.Success? &&
            (answers.liveStream.value.JArr? ==> JNull !in answers.liveStream.value.items)
  {
  }

  /** Rows the check-in page stores (status `review`) reach the dashboard as
      `Review`. */
  lemma StoredStatusReachesDashboard(fields: map<string, Json>)
    requires "status" in fields && fields["status"] == JStr(Status.ToDbStatus(Status.Review))
    ensures LiveItem(JObj(fields)) == Success(JObj(fields["status" := JStr("Review")]))
  {
    Status.StorageRoundTrip(Status.Review);
  }
}
