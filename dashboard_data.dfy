/** The shapes the dashboard exchanges (`lib/types/dashboard.ts`) and the
    feed entries with their static sample (`lib/dashboardData.ts`). */
module DashboardData {
  import opened Common
  import Status

  /** `FeedItem["status"]` */
  datatype FeedStatus = Pending | Complete

  /** The string stored for a feed status. */
  function FeedStatusText(s: FeedStatus): (t: string)
    ensures t == "pending" <==> s == Pending
    ensures t == "complete" <==> s == Complete
  {
    match s
    case Pending => "pending"
    case Complete => "complete"
  }

  /** `FeedItem`; `id` is `None` for both `null` and a missing key. */
  datatype FeedItem = FeedItem(id: Option<string>, name: string, status: FeedStatus, purpose: string, time: string)

  /** `liveFeed`, the sample shown while the dashboard has no live rows. */
  const LiveFeed: seq<FeedItem> := [
    FeedItem(None, "Jordan Ellis", Complete, "Audit Walk", "09:12 AM"),
    FeedItem(None, "Monica Rios", Pending, "Delivery", "09:07 AM"),
    FeedItem(None, "Miles Ortega", Pending, "Contractor", "08:59 AM"),
    FeedItem(None, "Serena Patel", Complete, "Inspection", "08:43 AM"),
    FeedItem(None, "Liam Carter", Complete, "Meeting", "08:27 AM"),
    FeedItem(None, "Priya Desai", Complete, "Maintenance", "08:11 AM"),
    FeedItem(None, "Nadia Brooks", Pending, "Interview", "07:58 AM"),
    FeedItem(None, "Owen Reed", Pending, "Vendor", "07:45 AM")]

  /** `DashboardKpis`; the readiness is kept in basis points (hundredths of
      a percent) instead of a fractional number. */
  datatype DashboardKpis = DashboardKpis(
    totalToday: int, approvedToday: int, blockedToday: int, reviewToday: int,
    checkedInToday: int, healthBlockedToday: int, gateReadinessBasisPoints: int)

  /** `LiveStreamItem` */
  datatype LiveStreamItem = LiveStreamItem(
    id: string, fullName: Option<string>, purpose: Option<string>,
    status: Option<Status.CanonicalStatus>, healthStatus: Option<string>, createdAt: Option<string>)

  datatype TrendPoint = TrendPoint(hour: string, count: int)

  datatype DashboardResponse = DashboardResponse(kpis: DashboardKpis, liveStream: seq<LiveStreamItem>, trend: seq<TrendPoint>)
}
