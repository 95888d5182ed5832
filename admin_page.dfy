/** The admin command centre (`app/admin/page.tsx`): what it derives from
    the loader's payload for the KPI grid, the live stream, the status donut,
    the line chart and the next-arrival card. */
module AdminPage {
  import opened Common
  import opened DashboardData
  import opened DashboardCounts
  import DashboardHook

  /** `KpiStat`; its `name` is the source's `label`, a reserved word in Dafny. */
  datatype KpiStat = KpiStat(name: string, value: int, delta: string)

  /** `computedStats`: today's visitors and health blocks, 0 without data. */
  function ComputedStats(data: Option<DashboardResponse>): (stats: seq<KpiStat>)
    ensures |stats| == 2
    ensures stats[0].name == "Today visitors" && stats[1].name == "Blocked (health)"
    ensures data.None? ==> stats[0].value == 0 && stats[1].value == 0
    ensures data.Some? ==> stats[0].value == data.value.kpis.totalToday &&
                           stats[1].value == data.value.kpis.healthBlockedToday
  {
    var total := if data.Some? then data.value.kpis.totalToday else 0;
    var blocked := if data.Some? then data.value.kpis.healthBlockedToday else 0;
    [KpiStat("Today visitors", total, "+0.0%"), KpiStat("Blocked (health)", blocked, "-0.0%")]
  }

  /** After a successful load the two stats are the first and the last of
      the six counts, a missing count read as 0. */
  lemma StatsAfterLoad(a: DashboardHook.HookAnswers, hourOf: string -> Option<Hour>)
    requires |a.counts| == 6 && DashboardHook.HookFailure(a).None?
    ensures var stats := ComputedStats(Some(DashboardHook.HookPayload(a, hourOf)));
            stats[0].value == a.counts[0].value.GetOr(0) && stats[1].value == a.counts[5].value.GetOr(0)
  {
    var counts := AllCounts(a.counts).value;
    assert Success(counts[0]) == CountOf(a.counts[0]);
    assert Success(counts[5]) == CountOf(a.counts[5]);
  }

  /** One live-stream entry as a feed item: always shown as complete; the
      time is the formatted `created_at` when it is a non-empty string. */
  function FeedEntryOf(entry: LiveStreamItem, formatTime: string -> string): (item: FeedItem)
    ensures item.id == Some(entry.id) && item.status == Complete
    ensures item.name == entry.fullName.GetOr("Visitor") && item.purpose == entry.purpose.GetOr("Standby")
    ensures entry.createdAt.None? || entry.createdAt == Some("") ==> item.time == "--"
    ensures entry.createdAt.Some? && entry.createdAt.value != "" ==> item.time == formatTime(entry.createdAt.value)
  {
    var time := if entry.createdAt.Some? && entry.createdAt.value != "" then formatTime(entry.createdAt.value) else "--";
    FeedItem(Some(entry.id), entry.fullName.GetOr("Visitor"), Complete, entry.purpose.GetOr("Standby"), time)
  }

  /** `liveStreamItems`: the live rows as feed items, or the static sample
      when there are none. */
  function LiveStreamItems(data: Option<DashboardResponse>, formatTime: string -> string): (items: seq<FeedItem>)
    ensures data.None? || data.value.liveStream == [] ==> items == LiveFeed
    ensures data.Some? && data.value.liveStream != [] ==>
              |items| == |data.value.liveStream| &&
              forall i :: 0 <= i < |items| ==> items[i] == FeedEntryOf(data.value.liveStream[i], formatTime)
    ensures |items| >= 1
  {
    if data.Some? && data.value.liveStream != [] then
      var stream := data.value.liveStream;
      seq(|stream|, i requires 0 <= i < |stream| => FeedEntryOf(stream[i], formatTime))
    else LiveFeed
  }

  /** Live rows are all shown as complete, whatever their status. */
  lemma LiveRowsShownComplete(data: Option<DashboardResponse>, formatTime: string -> string, i: int)
    requires data.Some? && data.value.liveStream != [] && 0 <= i < |data.value.liveStream|
    ensures LiveStreamItems(data, formatTime)[i].status == Complete
    ensures LiveStreamItems(data, formatTime)[i].id == Some(data.value.liveStream[i].id)
  {
  }

  /** One donut slice. */
  datatype Slice = Slice(name: string, value: int, color: string)

  /** `donutData`: completed visits (never negative) and health blocks. */
  function DonutData(data: Option<DashboardResponse>): (slices: seq<Slice>)
    ensures |slices| == 2 && slices[0].name == "Complete" && slices[1].name == "Health blocks"
    ensures slices[0].value >= 0
    ensures data.None? ==> slices[0].value == 0 && slices[1].value == 0
    ensures data.Some? ==> slices[1].value == data.value.kpis.healthBlockedToday
    ensures data.Some? && data.value.kpis.healthBlockedToday <= data.value.kpis.totalToday ==>
              slices[0].value + slices[1].value == data.value.kpis.totalToday
    ensures data.Some? && data.value.kpis.healthBlockedToday > data.value.kpis.totalToday ==> slices[0].value == 0
  {
    var total := if data.Some? then data.value.kpis.totalToday else 0;
    var healthBlocked := if data.Some? then data.value.kpis.healthBlockedToday else 0;
    var completed := if total - healthBlocked > 0 then total - healthBlocked else 0;
    [Slice("Complete", completed, "#16A34A"), Slice("Health blocks", healthBlocked, "#DC2626")]
  }

  /** A day of `getVisitorsByDay(7)`, which the fallback chart draws on. */
  datatype DayTotal = DayTotal(day: string, total: int)

  /** One point of the line chart. */
  datatype ChartPoint = ChartPoint(day: string, value: int)

  /** `fallbackLineData`: each day's total, raised to at least 3. */
  function FallbackLineData(days: seq<DayTotal>): (points: seq<ChartPoint>)
    ensures |points| == |days|
    ensures forall i :: 0 <= i < |points| ==>
              points[i].day == days[i].day && points[i].value >= 3 && points[i].value >= days[i].total &&
              (points[i].value == 3 || points[i].value == days[i].total)
  {
    seq(|days|, i requires 0 <= i < |days| => ChartPoint(days[i].day, if days[i].total > 3 then days[i].total else 3))
  }

  /** `chartData`: the hourly trend when there is one, else the fallback. */
  function ChartData(data: Option<DashboardResponse>, days: seq<DayTotal>): (points: seq<ChartPoint>)
    ensures data.Some? && data.value.trend != [] ==>
              |points| == |data.value.trend| &&
              forall i :: 0 <= i < |points| ==> points[i] == ChartPoint(data.value.trend[i].hour, data.value.trend[i].count)
    ensures data.None? || data.value.trend == [] ==> points == FallbackLineData(days)
  {
    if data.Some? && data.value.trend != [] then
      var trend := data.value.trend;
      seq(|trend|, i requires 0 <= i < |trend| => ChartPoint(trend[i].hour, trend[i].count))
    else FallbackLineData(days)
  }

  /** A loaded dashboard always charts its 24 hours, `00:00` to `23:00` in
      order; the fallback only shows before the first load. */
  lemma ChartAfterLoad(a: DashboardHook.HookAnswers, hourOf: string -> Option<Hour>, days: seq<DayTotal>)
    requires |a.counts| == 6 && DashboardHook.HookFailure(a).None?
    ensures var points := ChartData(Some(DashboardHook.HookPayload(a, hourOf)), days);
            |points| == 24 && forall h :: 0 <= h < 24 ==> points[h].day == HourLabel(h)
  {
  }

  /** `liveStreamItems[0]`, `undefined` for an empty list. */
  function NextArrival(items: seq<FeedItem>): (next: Option<FeedItem>)
    ensures next.Some? <==> items != []
    ensures next.Some? ==> next.value == items[0]
  {
    if items == [] then None else Some(items[0])
  }

  /** The next-arrival card's name, with its placeholder. */
  function NextArrivalName(next: Option<FeedItem>): (shown: string)
    ensures next.Some? ==> shown == next.value.name
    ensures next.None? ==> shown == "Awaiting crew"
  {
    if next.Some? then next.value.name else "Awaiting crew"
  }

  /** There is always a next arrival: without live rows it is the first
      sample entry, so the card's placeholders never show. */
  lemma NextArrivalAlwaysPresent(data: Option<DashboardResponse>, formatTime: string -> string)
    ensures NextArrival(LiveStreamItems(data, formatTime)).Some?
    ensures data.None? || data.value.liveStream == [] ==>
              NextArrivalName(NextArrival(LiveStreamItems(data, formatTime))) == "Jordan Ellis"
    ensures data.Some? && data.value.liveStream != [] ==>
              NextArrivalName(NextArrival(LiveStreamItems(data, formatTime))) ==
              data.value.liveStream[0].fullName.GetOr("Visitor")
  {
  }
}
