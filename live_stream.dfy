/** The live-stream panel (`LiveStream`): a local copy of the feed, shown
    twice in a row for the marquee, refreshed from the `visits` table and
    updated optimistically when a status changes. */
module LiveStream {
  import opened Common
  import opened Json
  import opened DashboardData
  import Status
  import Text

  /** The local `normalizeStatus`: only the exact string `complete` is
      complete. */
  function NormalizeFeedStatus(value: Option<string>): (s: FeedStatus)
    ensures s == Complete <==> value == Some("complete")
  {
    if value == Some("complete") then Complete else Pending
  }

  /** `[...items, ...items]` */
  function Marquee(items: seq<FeedItem>): (m: seq<FeedItem>)
    ensures |m| == 2 * |items|
    ensures forall i :: 0 <= i < |items| ==> m[i] == items[i] && m[|items| + i] == items[i]
  {
    items + items
  }

  /** A row of the refresh query; `status` is whatever the column holds. */
  datatype VisitsRow = VisitsRow(
    id: string, fullName: Option<string>, purpose: Option<string>, status: Json,
    entryLane: Option<string>, createdAt: Option<string>)

  /** How the refresh query settles: its error and its data (`None` is
      `null`). */
  datatype RefreshOutcome = RefreshOutcome(error: Option<string>, data: Option<seq<VisitsRow>>)

  /** The feed entry for one row; `timeLabel` is the locale time format of
      a creation timestamp. */
  function FeedItemOf(row: VisitsRow, timeLabel: string -> string): (item: FeedItem)
    ensures item.id == Some(row.id)
    ensures item.name == (if row.fullName.Some? then row.fullName.value else "Visitor")
    ensures item.status == Complete <==> row.status == JStr("complete")
    ensures item.purpose == (if row.purpose.Some? then row.purpose.value
                             else if row.entryLane.Some? then row.entryLane.value else "Standby")
    ensures row.createdAt.None? || row.createdAt == Some("") ==> item.time == "--"
    ensures row.createdAt.Some? && row.createdAt.value != "" ==> item.time == timeLabel(row.createdAt.value)
  {
    var status := if row.status.JStr? then Some(row.status.s) else None;
    FeedItem(
      Some(row.id), row.fullName.GetOr("Visitor"), NormalizeFeedStatus(status),
      row.purpose.GetOr(row.entryLane.GetOr("Standby")),
      if row.createdAt.Some? && row.createdAt.value != "" then timeLabel(row.createdAt.value) else "--")
  }

  function FeedOf(rows: seq<VisitsRow>, timeLabel: string -> string): (items: seq<FeedItem>)
    ensures |items| == |rows|
    ensures forall i :: 0 <= i < |rows| ==> items[i] == FeedItemOf(rows[i], timeLabel)
  {
    seq(|rows|, i requires 0 <= i < |rows| => FeedItemOf(rows[i], timeLabel))
  }

  /** The optimistic step: every entry with id `visitId` takes the new
      status. */
  function WithStatus(items: seq<FeedItem>, visitId: string, next: FeedStatus): (r: seq<FeedItem>)
    ensures |r| == |items|
    ensures forall i :: 0 <= i < |items| ==>
              r[i] == if items[i].id == Some(visitId) then items[i].(status := next) else items[i]
  {
    seq(|items|, i requires 0 <= i < |items| =>
      if items[i].id == Some(visitId) then items[i].(status := next) else items[i])
  }

  class Panel {
    /** `localItems` */
    var items: seq<FeedItem>
    /** The `{ status }` updates sent to `visits`, as (id, status) pairs. */
    var statusWrites: seq<(string, string)>
    /** The texts passed to `alert`. */
    var alerts: seq<string>

    /** Mounting with the `items` prop. */
    constructor(initial: seq<FeedItem>)
      ensures items == initial && statusWrites == [] && alerts == []
    {
      items := initial;
      statusWrites := [];
      alerts := [];
    }

    /** The effect on a new `items` prop: the local copy is replaced. */
    method ItemsChanged(next: seq<FeedItem>)
      modifies this
      ensures items == next
      ensures statusWrites == old(statusWrites) && alerts == old(alerts)
    {
      items := next;
    }

    /** `refreshList()`: a failed or empty answer keeps the feed. */
    method RefreshList(outcome: RefreshOutcome, timeLabel: string -> string)
      modifies this
      ensures outcome.error.Some? || outcome.data.None? ==> items == old(items)
      ensures outcome.error.None? && outcome.data.Some? ==> items == FeedOf(outcome.data.value, timeLabel)
      ensures statusWrites == old(statusWrites) && alerts == old(alerts)
    {
      if outcome.error.Some? || outcome.data.None? {
        return;
      }
      items := FeedOf(outcome.data.value, timeLabel);
    }

    /** `onChangeStatus(visitId, nextStatus)` with the update's error and the
        answer of the refresh that follows a successful update. */
    method ChangeStatus(visitId: string, next: FeedStatus, updateError: Option<string>,
                        refresh: RefreshOutcome, timeLabel: string -> string)
      modifies this
      ensures statusWrites == old(statusWrites) + [(visitId, FeedStatusText(next))]
      ensures updateError.Some? ==> items == old(items) && alerts == old(alerts) + ["DB update failed: " + updateError.value]
      ensures updateError.None? && (refresh.error.Some? || refresh.data.None?) ==>
                items == WithStatus(old(items), visitId, next)
      ensures updateError.None? && refresh.error.None? && refresh.data.Some? ==>
                items == FeedOf(refresh.data.value, timeLabel)
      ensures updateError.None? ==> alerts == old(alerts)
    {
      var previous := items;
      items := WithStatus(items, visitId, next);
      statusWrites := statusWrites + [(visitId, FeedStatusText(next))];
      if updateError.Some? {
        alerts := alerts + ["DB update failed: " + updateError.value];
        items := previous;
        return;
      }
      RefreshList(refresh, timeLabel);
    }
  }

  /** The optimistic step changes only the status of the entries with that
      id, and changes nothing when no entry has it. */
  lemma WithStatusChangesOnlyStatus(items: seq<FeedItem>, visitId: string, next: FeedStatus, i: int)
    requires 0 <= i < |items|
    ensures var r := WithStatus(items, visitId, next);
            r[i].id == items[i].id && r[i].name == items[i].name &&
            r[i].purpose == items[i].purpose && r[i].time == items[i].time &&
            (r[i].status != items[i].status ==> items[i].id == Some(visitId) && r[i].status == next)
  {
  }

  lemma WithStatusOfAbsentId(items: seq<FeedItem>, visitId: string, next: FeedStatus)
    requires forall i :: 0 <= i < |items| ==> items[i].id != Some(visitId)
    ensures WithStatus(items, visitId, next) == items
  {
  }

  /** Applying the same status twice is applying it once. */
  lemma WithStatusIdempotent(items: seq<FeedItem>, visitId: string, next: FeedStatus)
    ensures WithStatus(WithStatus(items, visitId, next), visitId, next) == WithStatus(items, visitId, next)
  {
  }

  lemma RawKeyPending() ensures Status.RawKey(Some("pending")) == "pending"
  {
    var k := "pending";
    Text.TrimOfNoSpace(k);
    assert Text.ToLower(k) == "pending";
  }

  lemma RawKeyComplete() ensures Status.RawKey(Some("complete")) == "complete"
  {
    var k := "complete";
    Text.TrimOfNoSpace(k);
    assert Text.ToLower(k) == "complete";
  }

  /** Both statuses the panel writes read back as `Review` through the
      application's canonical `normalizeStatus`: `pending` is an alias of
      `Review`, and `complete` is no alias at all. */
  lemma WrittenStatusesReadAsReview(s: FeedStatus)
    ensures Status.NormalizeStatus(Some(FeedStatusText(s))) == Status.Review
  {
    match s
    case Pending =>
      RawKeyPending();
      Status.MatchKeyOfAlias(Status.Review, "pending");
    case Complete =>
      RawKeyComplete();
      assert Status.Unmatched("complete");
  }
}
