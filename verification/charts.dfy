/** The two dashboard charts: service popularity (a bar chart) and the revenue report (an
    area chart). Both turn an API payload into rows, size the y-axis at 130% of the largest
    value, place five ticks on it and label the top tick with a glyph. */
module Charts {
  import opened Wrappers
  import opened JsNum

  /** One record of the service-popularity response. */
  datatype PopularityRecord = PopularityRecord(serviceName: Option<string>, totalBookings: Option<int>)

  /** One record of the booking-revenue response. */
  datatype RevenueRecord = RevenueRecord(month: Option<string>, revenue: Option<int>)

  /** The booking-revenue response object; its `revenue` list may be missing. */
  datatype RevenueResponse = RevenueResponse(revenue: Option<seq<RevenueRecord>>)

  /** A chart row: the x-axis label and the plotted value. */
  datatype ChartRow = ChartRow(name: Option<string>, value: Option<int>)

  /** How a y-axis tick is labelled. */
  datatype TickLabel = Glyph | Number(n: int)

  /** The axis maximum used when there is nothing to plot. */
  const EmptyAxisMax := 100

  /** `item[dataKey] || 0`: a missing value (or 0) plots as 0. */
  function Plotted(row: ChartRow): int {
    row.value.GetOr(0)
  }

  /** `Math.max(...values)`: the largest plotted value of a non-empty list. */
  function MaxPlotted(rows: seq<ChartRow>): (m: int)
    requires |rows| > 0
    ensures forall i :: 0 <= i < |rows| ==> Plotted(rows[i]) <= m
    ensures exists i :: 0 <= i < |rows| && Plotted(rows[i]) == m
  {
    if |rows| == 1 then Plotted(rows[0])
    else
      var rest := MaxPlotted(rows[1..]);
      if Plotted(rows[0]) >= rest then Plotted(rows[0]) else rest
  }

  /** `calculateYAxisMax`: 100 for missing or empty data, otherwise the least integer at
      or above 1.3 times the largest value. */
  function YAxisMax(data: Option<seq<ChartRow>>): (r: int)
    ensures data.None? || |data.value| == 0 ==> r == EmptyAxisMax
    ensures data.Some? && |data.value| > 0 ==>
      10 * (r - 1) < 13 * MaxPlotted(data.value) <= 10 * r
  {
    if data.None? || |data.value| == 0 then EmptyAxisMax
    else CeilDiv(13 * MaxPlotted(data.value), 10)
  }

  /** The axis always has room for every bar when no value is negative: the maximum is at
      least every plotted value, and strictly above the largest one when that is positive. */
  lemma YAxisMaxCoversData(rows: seq<ChartRow>)
    requires |rows| > 0
    ensures MaxPlotted(rows) >= 0 ==> forall i :: 0 <= i < |rows| ==> Plotted(rows[i]) <= YAxisMax(Some(rows))
    ensures MaxPlotted(rows) > 0 ==> YAxisMax(Some(rows)) > MaxPlotted(rows)
  {
  }

  /** `generateYAxisTicks`: five ticks `0, s, 2s, 3s, maxValue` where `s` is the least
      integer with `4 * s >= maxValue`. */
  function YAxisTicks(maxValue: int): (t: seq<int>)
    ensures |t| == 5
    ensures t[0] == 0 && t[4] == maxValue
    ensures 4 * (t[1] - 1) < maxValue <= 4 * t[1]
    ensures t[2] == 2 * t[1] && t[3] == 3 * t[1]
  {
    var step := CeilDiv(maxValue, 4);
    [0, step, step * 2, step * 3, maxValue]
  }

  predicate Nondecreasing(t: seq<int>) {
    forall i, j :: 0 <= i < j < |t| ==> t[i] <= t[j]
  }

  /** For a natural axis maximum the ticks are in order except for 1, 2 and 5, where
      three steps overshoot the maximum (ticks 0,1,2,3,1 / 0,1,2,3,2 / 0,2,4,6,5). */
  lemma TicksNondecreasingIff(maxValue: nat)
    ensures Nondecreasing(YAxisTicks(maxValue)) <==> maxValue != 1 && maxValue != 2 && maxValue != 5
  {
    var t := YAxisTicks(maxValue);
    if maxValue != 1 && maxValue != 2 && maxValue != 5 {
      assert t[3] <= t[4];
      assert 0 <= t[1];
    } else {
      assert t[3] > t[4];
    }
  }

  /** The tick formatter: the tick equal to the axis maximum shows the glyph, every other
      tick shows its number. */
  function FormatTick(value: int, axisMax: int): (l: TickLabel)
    ensures l == Glyph <==> value == axisMax
    ensures l != Glyph ==> l == Number(value)
  {
    if value == axisMax then Glyph else Number(value)
  }

  /** The top tick always carries the glyph; an earlier tick carries it exactly when it
      lands on the maximum. For a positive maximum that happens only for 1 (ticks
      0,1,2,3,1), 2 (0,1,2,3,2), and 3, 6 and 9 (the fourth tick); for 0 every tick does. */
  lemma GlyphTicks(maxValue: nat, i: nat)
    requires i < 4
    ensures FormatTick(YAxisTicks(maxValue)[i], maxValue) == Glyph <==>
      YAxisTicks(maxValue)[i] == maxValue
    ensures FormatTick(YAxisTicks(maxValue)[4], maxValue) == Glyph
    ensures maxValue > 0 ==>
      ((exists j :: 1 <= j < 4 && YAxisTicks(maxValue)[j] == maxValue) <==> maxValue in {1, 2, 3, 6, 9})
  {
    var t := YAxisTicks(maxValue);
    if maxValue in {1, 2, 3, 6, 9} {
      assert t[if maxValue == 1 then 1 else if maxValue == 2 then 2 else 3] == maxValue;
    }
  }

  /** `serviceData`: one row per popularity record, label from `serviceName` and value from
      `totalBookings`, in the same order; no rows when the response has no data. */
  function ServiceData(popularity: Option<seq<PopularityRecord>>): (rows: seq<ChartRow>)
    ensures popularity.None? ==> rows == []
    ensures popularity.Some? ==> |rows| == |popularity.value|
    ensures popularity.Some? ==> forall i :: 0 <= i < |rows| ==>
      rows[i].name == popularity.value[i].serviceName &&
      rows[i].value == popularity.value[i].totalBookings
  {
    match popularity
    case None => []
    case Some(records) =>
      seq(|records|, i requires 0 <= i < |records| =>
        ChartRow(records[i].serviceName, records[i].totalBookings))
  }

  /** `revenueData`: one row per revenue record, label from `month` and value from
      `revenue`, in the same order; no rows when the response or its list is missing. */
  function RevenueData(response: Option<RevenueResponse>): (rows: seq<ChartRow>)
    ensures response.None? || response.value.revenue.None? ==> rows == []
    ensures response.Some? && response.value.revenue.Some? ==>
      var records := response.value.revenue.value;
      |rows| == |records| &&
      forall i :: 0 <= i < |rows| ==>
        rows[i].name == records[i].month && rows[i].value == records[i].revenue
  {
    if response.None? || response.value.revenue.None? then []
    else
      var records := response.value.revenue.value;
      seq(|records|, i requires 0 <= i < |records| => ChartRow(records[i].month, records[i].revenue))
  }

  /** The popularity chart's axis: 100 when there is no data, and otherwise at or above the
      booking count of every service (counts are never negative). */
  lemma ServiceAxisCoversBookings(popularity: Option<seq<PopularityRecord>>)
    requires popularity.Some? ==> forall i :: 0 <= i < |popularity.value| ==>
      popularity.value[i].totalBookings.GetOr(0) >= 0
    ensures popularity.None? ==> YAxisMax(Some(ServiceData(popularity))) == EmptyAxisMax
    ensures popularity.Some? ==> forall i :: 0 <= i < |popularity.value| ==>
      popularity.value[i].totalBookings.GetOr(0) <= YAxisMax(Some(ServiceData(popularity)))
  {
    var rows := ServiceData(popularity);
    if popularity.Some? && |rows| > 0 {
      assert Plotted(rows[0]) >= 0;
      YAxisMaxCoversData(rows);
      forall i | 0 <= i < |popularity.value|
        ensures popularity.value[i].totalBookings.GetOr(0) <= YAxisMax(Some(rows))
      {
        assert Plotted(rows[i]) == popularity.value[i].totalBookings.GetOr(0);
      }
    }
  }

  /** The revenue chart's axis: 100 when the response or its list is missing or empty,
      otherwise at or above every month's revenue when revenues are not negative. */
  lemma RevenueAxisCoversRevenue(response: Option<RevenueResponse>)
    requires response.Some? && response.value.revenue.Some? ==>
      forall i :: 0 <= i < |response.value.revenue.value| ==>
        response.value.revenue.value[i].revenue.GetOr(0) >= 0
    ensures response.None? || response.value.revenue.None? ==>
      YAxisMax(Some(RevenueData(response))) == EmptyAxisMax
    ensures response.Some? && response.value.revenue.Some? ==>
      forall i :: 0 <= i < |response.value.revenue.value| ==>
        response.value.revenue.value[i].revenue.GetOr(0) <= YAxisMax(Some(RevenueData(response)))
  {
    var rows := RevenueData(response);
    if response.Some? && response.value.revenue.Some? && |rows| > 0 {
      var records := response.value.revenue.value;
      assert Plotted(rows[0]) >= 0;
      YAxisMaxCoversData(rows);
      forall i | 0 <= i < |records| ensures records[i].revenue.GetOr(0) <= YAxisMax(Some(rows)) {
        assert Plotted(rows[i]) == records[i].revenue.GetOr(0);
      }
    }
  }
}
