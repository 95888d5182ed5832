/** The aggregation both the dashboard hook and the dashboard API route
    perform, written once: the hourly trend of today's visits, the filtered
    counts behind the six KPIs and the gate readiness. */
module DashboardCounts {
  import opened Common
  import opened Text
  import opened DashboardData
  import Status

  // ---------------------------------------------------------------------
  // Hourly trend

  /** What `getHours()` returns. */
  type Hour = h: int | 0 <= h < 24

  function Digit(d: int): (c: char)
    requires 0 <= d < 10
    ensures '0' <= c <= '9' && c as int - '0' as int == d
  {
    ('0' as int + d) as char
  }

  /** `${String(h).padStart(2, "0")}:00` */
  function HourLabel(h: Hour): (text: string)
    ensures |text| == 5 && text[2..] == ":00"
    ensures '0' <= text[0] <= '2' && '0' <= text[1] <= '9'
  {
    [Digit(h / 10), Digit(h % 10)] + ":00"
  }

  /** The hour a label names, read back from its two digits. */
  function LabelHour(text: string): int
    requires |text| >= 2
  {
    (text[0] as int - '0' as int) * 10 + (text[1] as int - '0' as int)
  }

  /** Labels read back as their hour, so the 24 labels are distinct and
      sort as their hours do. */
  lemma HourLabelRoundTrip(h: Hour)
    ensures LabelHour(HourLabel(h)) == h
  {
    var text := HourLabel(h);
    assert text[0] == Digit(h / 10) && text[1] == Digit(h % 10);
  }

  lemma HourLabelInjective(h: Hour, k: Hour)
    requires HourLabel(h) == HourLabel(k)
    ensures h == k
  {
    HourLabelRoundTrip(h);
    HourLabelRoundTrip(k);
  }

  lemma HourLabelEnds()
    ensures HourLabel(0) == "00:00" && HourLabel(23) == "23:00"
  {
  }

  /** The bucket of a row: none for a null or empty `created_at`, or one
      `hourOf` cannot parse; `hourOf` is the local-time hour of a date
      string. */
  function RowHour(createdAt: Option<string>, hourOf: string -> Option<Hour>): (r: Option<Hour>)
    ensures createdAt.None? || createdAt == Some("") ==> r.None?
    ensures createdAt.Some? && createdAt.value != "" ==> r == hourOf(createdAt.value)
  {
    if createdAt.None? || createdAt.value == "" then None else hourOf(createdAt.value)
  }

  /** The number of rows in hour `h`. */
  function Count(rows: seq<Option<string>>, hourOf: string -> Option<Hour>, h: Hour): nat
  {
    if rows == [] then 0
    else Count(rows[..|rows| - 1], hourOf, h) + (if RowHour(rows[|rows| - 1], hourOf) == Some(h) then 1 else 0)
  }

  /** The number of rows with an hour at all. */
  function Parsed(rows: seq<Option<string>>, hourOf: string -> Option<Hour>): nat
  {
    if rows == [] then 0
    else Parsed(rows[..|rows| - 1], hourOf) + (if RowHour(rows[|rows| - 1], hourOf).Some? then 1 else 0)
  }

  /** The trend `buildHourlyTrend` returns: the 24 hours in ascending order,
      each with its count. */
  function TrendOf(rows: seq<Option<string>>, hourOf: string -> Option<Hour>): (t: seq<TrendPoint>)
    ensures |t| == 24
    ensures forall h :: 0 <= h < 24 ==> t[h] == TrendPoint(HourLabel(h), Count(rows, hourOf, h))
  {
    seq(24, h requires 0 <= h < 24 => TrendPoint(HourLabel(h), Count(rows, hourOf, h)))
  }

  /** `buildHourlyTrend`: 24 zeroed buckets, then one increment per row with
      an hour. */
  method BuildHourlyTrend(rows: seq<Option<string>>, hourOf: string -> Option<Hour>) returns (trend: seq<TrendPoint>)
    ensures trend == TrendOf(rows, hourOf)
  {
    var hours := new int[24];
    for h := 0 to 24
      invariant forall j :: 0 <= j < h ==> hours[j] == 0
    {
      hours[h] := 0;
    }
    for i := 0 to |rows|
      invariant forall h :: 0 <= h < 24 ==> hours[h] == Count(rows[..i], hourOf, h)
    {
      assert rows[..i + 1][..i] == rows[..i];
      var hour := RowHour(rows[i], hourOf);
      if hour.Some? {
        hours[hour.value] := hours[hour.value] + 1;
      }
    }
    assert rows[..|rows|] == rows;
    trend := seq(24, h requires 0 <= h < 24 reads hours => TrendPoint(HourLabel(h), hours[h]));
  }

  /** The sum of the counts of a trend. */
  function Total(points: seq<TrendPoint>): int
  {
    if points == [] then 0 else Total(points[..|points| - 1]) + points[|points| - 1].count
  }

  /** The counts of hours `0` .. `k - 1`. */
  function CountBelow(rows: seq<Option<string>>, hourOf: string -> Option<Hour>, k: nat): nat
    requires k <= 24
  {
    if k == 0 then 0 else CountBelow(rows, hourOf, k - 1) + Count(rows, hourOf, k - 1)
  }

  lemma {:induction false} TotalOfPrefix(rows: seq<Option<string>>, hourOf: string -> Option<Hour>, k: nat)
    requires k <= 24
    ensures Total(TrendOf(rows, hourOf)[..k]) == CountBelow(rows, hourOf, k)
  {
    if k > 0 {
      var t := TrendOf(rows, hourOf);
      assert t[..k][..k - 1] == t[..k - 1];
      TotalOfPrefix(rows, hourOf, k - 1);
    }
  }

  lemma {:induction false} CountBelowOfSnoc(rows: seq<Option<string>>, row: Option<string>,
                                             hourOf: string -> Option<Hour>, k: nat)
    requires k <= 24
    ensures var hour := RowHour(row, hourOf);
            CountBelow(rows + [row], hourOf, k) ==
            CountBelow(rows, hourOf, k) + (if hour.Some? && hour.value < k then 1 else 0)
  {
    assert (rows + [row])[..|rows|] == rows;
    if k > 0 {
      CountBelowOfSnoc(rows, row, hourOf, k - 1);
    }
  }

  lemma {:induction false} CountBelowAllHours(rows: seq<Option<string>>, hourOf: string -> Option<Hour>)
    ensures CountBelow(rows, hourOf, 24) == Parsed(rows, hourOf)
  {
    if rows != [] {
      var front := rows[..|rows| - 1];
      CountBelowAllHours(front, hourOf);
      var last := rows[|rows| - 1];
      assert front + [last] == rows;
      CountBelowOfSnoc(front, last, hourOf, 24);
      assert Parsed(rows, hourOf) == Parsed(front, hourOf) + (if RowHour(last, hourOf).Some? then 1 else 0);
    } else {
      CountBelowOfNoRows(hourOf, 24);
    }
  }

  lemma {:induction false} CountBelowOfNoRows(hourOf: string -> Option<Hour>, k: nat)
    requires k <= 24
    ensures CountBelow([], hourOf, k) == 0
  {
    if k > 0 {
      CountBelowOfNoRows(hourOf, k - 1);
    }
  }

  /** Every row with a parseable `created_at` is counted exactly once; the
      others are skipped. */
  lemma TrendCountsEveryParsedRow(rows: seq<Option<string>>, hourOf: string -> Option<Hour>)
    ensures Total(TrendOf(rows, hourOf)) == Parsed(rows, hourOf)
  {
    TotalOfPrefix(rows, hourOf, 24);
    assert TrendOf(rows, hourOf)[..24] == TrendOf(rows, hourOf);
    CountBelowAllHours(rows, hourOf);
  }

  // ---------------------------------------------------------------------
  // Counts

  /** The optional `{ column, values }` of `countVisits`. */
  datatype CountFilter = CountFilter(column: string, values: seq<string>)

  /** The `or` clause added to the count query: only for a non-empty list,
      one `column.ilike.value` clause per value, comma-joined. */
  function OrFilter(filter: Option<CountFilter>): (f: Option<string>)
    ensures f.Some? <==> filter.Some? && |filter.value.values| > 0
  {
    if filter.None? || |filter.value.values| == 0 then None
    else Some(Join(Status.IlikeClauses(filter.value.column, filter.value.values), ','))
  }

  /** Splitting the clause on commas gives one clause per value, in order,
      when neither the column nor a value holds a comma. */
  lemma OrFilterClauses(filter: CountFilter)
    requires |filter.values| > 0 && ',' !in filter.column && Status.NoComma(filter.values)
    ensures Split(OrFilter(Some(filter)).value, ',') == Status.IlikeClauses(filter.column, filter.values)
  {
    var clauses := Status.IlikeClauses(filter.column, filter.values);
    forall k | 0 <= k < |clauses|
      ensures ',' !in clauses[k]
    {
      assert clauses[k] == filter.column + ".ilike." + filter.values[k];
      assert ',' !in ".ilike.";
    }
    SplitJoin(clauses, ',');
  }

  /** `count ?? 0`, or the error the query threw. */
  function CountOf(answer: Result<Option<int>, Thrown>): (r: Result<int, Thrown>)
    ensures answer.Success? && answer.value.None? ==> r == Success(0)
    ensures answer.Success? && answer.value.Some? ==> r == Success(answer.value.value)
    ensures answer.Failure? ==> r == Failure(answer.error)
  {
    match answer
    case Success(count) => Success(count.GetOr(0))
    case Failure(e) => Failure(e)
  }

  const ApprovedValues: seq<string> := ["approved", "allowed"]
  const BlockedValues: seq<string> := ["blocked", "denied", "rejected"]
  const ReviewValues: seq<string> := ["review", "pending", "needs review"]
  const CheckedInValues: seq<string> := ["checked-in", "checked in", "arrived"]
  const HealthBlockedValues: seq<string> := ["blocked"]

  /** The six count queries, in the order of the KPI record. */
  const KpiFilters: seq<Option<CountFilter>> := [
    None,
    Some(CountFilter("status", ApprovedValues)),
    Some(CountFilter("status", BlockedValues)),
    Some(CountFilter("status", ReviewValues)),
    Some(CountFilter("status", CheckedInValues)),
    Some(CountFilter("health_status", HealthBlockedValues))]

  /** Each KPI list holds aliases of its status only, and leaves some of
      them out: a visit stored as `allow` or `arrival` is in no KPI. */
  lemma KpiListsAreStrictSubsets()
    ensures forall v :: v in ApprovedValues ==> v in Status.Aliases(Status.Approved)
    ensures forall v :: v in BlockedValues ==> v in Status.Aliases(Status.Blocked)
    ensures forall v :: v in ReviewValues ==> v in Status.Aliases(Status.Review)
    ensures forall v :: v in CheckedInValues ==> v in Status.Aliases(Status.CheckedIn)
    ensures "allow" in Status.Aliases(Status.Approved) && "allow" !in ApprovedValues
    ensures "awaiting" in Status.Aliases(Status.Review) && "awaiting" !in ReviewValues
    ensures "arrival" in Status.Aliases(Status.CheckedIn) && "arrival" !in CheckedInValues
  {
  }

  /** The `or` clause of each KPI query; the total has none. */
  lemma KpiOrFilters()
    ensures OrFilter(KpiFilters[0]).None?
    ensures forall i :: 1 <= i < |KpiFilters| ==> OrFilter(KpiFilters[i]).Some?
  {
  }

  // ---------------------------------------------------------------------
  // Gate readiness

  /** `gateReadinessPct` in basis points: `Math.round` (half up) of
      `approved / max(1, total) * 10000`, and 0 when nothing was counted. */
  function GateReadiness(approved: int, total: int): (bp: int)
    ensures total == 0 ==> bp == 0
    ensures total > 0 ==> 2 * total * bp - total <= 20000 * approved < 2 * total * bp + total
    ensures total < 0 ==> bp == 10000 * approved
  {
    if total == 0 then 0
    else
      var d := if total > 1 then total else 1;
      (20000 * approved + d) / (2 * d)
  }

  /** A share of today's visits is between 0 and 100 percent. */
  lemma GateReadinessBounds(approved: int, total: int)
    requires 0 <= approved <= total
    ensures 0 <= GateReadiness(approved, total) <= 10000
    ensures approved == total && total > 0 ==> GateReadiness(approved, total) == 10000
  {
    if total > 0 {
      var m := 2 * total;
      var n := 20000 * approved + total;
      assert GateReadiness(approved, total) == n / m;
      QuotientBetween(n, m, 0, 10001);
      if approved == total {
        QuotientBetween(n, m, 10000, 10001);
      }
    }
  }

  /** A quotient lies between `lo` and `hi` when the dividend does, scaled. */
  lemma QuotientBetween(n: int, m: int, lo: int, hi: int)
    requires m > 0 && lo * m <= n < hi * m
    ensures lo <= n / m < hi
  {
    var q := n / m;
    assert q * m <= n < q * m + m;
    if q < lo {
      MulMonotone(q + 1, lo, m);
    }
    if q >= hi {
      MulMonotone(hi, q, m);
    }
  }

  lemma MulMonotone(x: int, y: int, m: int)
    requires x <= y && m > 0
    ensures x * m <= y * m
  {
    assert y * m - x * m == (y - x) * m;
  }

  /** The KPI record for the six counts, in the order of `KpiFilters`. */
  function KpisOf(counts: seq<int>): (k: DashboardKpis)
    requires |counts| == 6
    ensures k.totalToday == counts[0] && k.approvedToday == counts[1] && k.blockedToday == counts[2]
    ensures k.reviewToday == counts[3] && k.checkedInToday == counts[4] && k.healthBlockedToday == counts[5]
    ensures k.gateReadinessBasisPoints == GateReadiness(counts[1], counts[0])
  {
    DashboardKpis(counts[0], counts[1], counts[2], counts[3], counts[4], counts[5],
                  GateReadiness(counts[1], counts[0]))
  }

  /** `Promise.all` of the six counts: the counts, or the first failure. */
  function AllCounts(answers: seq<Result<Option<int>, Thrown>>): (r: Result<seq<int>, Thrown>)
    ensures r.Success? <==> forall i :: 0 <= i < |answers| ==> answers[i].Success?
    ensures r.Success? ==> |r.value| == |answers| &&
                           forall i :: 0 <= i < |answers| ==> Success(r.value[i]) == CountOf(answers[i])
    ensures r.Failure? ==> exists i :: 0 <= i < |answers| && answers[i] == Failure(r.error) &&
                                       forall j :: 0 <= j < i ==> answers[j].Success?
  {
    if answers == [] then Success([])
    else if answers[0].Failure? then Failure(answers[0].error)
    else
      var rest := AllCounts(answers[1..]);
      if rest.Failure? then
        var i :| 0 <= i < |answers[1..]| && answers[1..][i] == Failure(rest.error) &&
                 forall j :: 0 <= j < i ==> answers[1..][j].Success?;
        assert answers[i + 1] == Failure(rest.error);
        Failure(rest.error)
      else
        Success([answers[0].value.GetOr(0)] + rest.value)
  }
}
