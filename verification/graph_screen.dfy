/**
 * The sensor-chart screen: readings fetched from the backend are cut down to a time
 * window ending now, and each chart shows one field of the remaining readings
 * against their time labels, in the order the backend sent them.
 */
module GraphScreen {
  import opened Wrappers

  /**
   * A reading as the chart screen sees it: its timestamp in milliseconds (`None` when
   * the timestamp does not parse as a date) and its numeric fields by name.
   */
  datatype TimedReading = TimedReading(timestamp: Option<int>, fields: map<string, int>)

  /** The values of the time-range picker; any other string is `Unrecognised`. */
  datatype TimeRange = LastHour | Last24Hours | LastWeek | Last30Days | AllData | Unrecognised(name: string)

  /** The `switch (timeRange)` on the picker's string value. */
  function ParseTimeRange(s: string): (r: TimeRange)
    ensures r == LastHour <==> s == "lastHour"
    ensures r == Last24Hours <==> s == "last24Hours"
    ensures r == LastWeek <==> s == "lastWeek"
    ensures r == Last30Days <==> s == "last30Days"
    ensures r == AllData <==> s == "allData"
    ensures r.Unrecognised? ==> r.name == s
  {
    if s == "lastHour" then LastHour
    else if s == "last24Hours" then Last24Hours
    else if s == "lastWeek" then LastWeek
    else if s == "last30Days" then Last30Days
    else if s == "allData" then AllData
    else Unrecognised(s)
  }

  /** The length of a range's window in milliseconds; `None` means no window at all. */
  function WindowMs(range: TimeRange): (w: Option<int>)
    ensures range == LastHour ==> w == Some(3600000)
    ensures range == Last24Hours ==> w == Some(86400000)
    ensures range == LastWeek ==> w == Some(604800000)
    ensures range == Last30Days ==> w == Some(2592000000)
    ensures w.None? <==> range == AllData || range.Unrecognised?
  {
    match range
    case LastHour => Some(60 * 60 * 1000)
    case Last24Hours => Some(24 * 60 * 60 * 1000)
    case LastWeek => Some(7 * 24 * 60 * 60 * 1000)
    case Last30Days => Some(30 * 24 * 60 * 60 * 1000)
    case AllData => None
    case Unrecognised(_) => None
  }

  /**
   * Whether a reading with this timestamp passes the filter at time `now`: always for a
   * range without a window, otherwise exactly when the timestamp is at or after
   * `now - window` (an unparsable date compares false).
   */
  predicate InWindow(range: TimeRange, now: int, timestamp: Option<int>)
    ensures range == AllData || range.Unrecognised? ==> InWindow(range, now, timestamp)
    ensures WindowMs(range).Some? && timestamp.None? ==> !InWindow(range, now, timestamp)
    ensures WindowMs(range).Some? && timestamp.Some? ==>
      (InWindow(range, now, timestamp) <==> now - WindowMs(range).value <= timestamp.value)
  {
    match WindowMs(range)
    case None => true
    case Some(w) => timestamp.Some? && timestamp.value >= now - w
  }

  /** `filterSensorData`: the readings inside the window, in their original order. */
  function FilterSensorData(data: seq<TimedReading>, range: TimeRange, now: int): (r: seq<TimedReading>)
    ensures |r| <= |data|
    ensures forall i :: 0 <= i < |r| ==> InWindow(range, now, r[i].timestamp)
  {
    if data == [] then []
    else
      var rest := FilterSensorData(data[1..], range, now);
      if InWindow(range, now, data[0].timestamp) then [data[0]] + rest else rest
  }

  /** `a` is `b` with some elements dropped: same elements, same relative order. */
  ghost predicate IsSubsequence<T>(a: seq<T>, b: seq<T>)
    decreases |b|
  {
    a == [] || (b != [] && ((a[0] == b[0] && IsSubsequence(a[1..], b[1..])) || IsSubsequence(a, b[1..])))
  }

  /** Filtering only drops readings: it keeps order and alters no record. */
  lemma {:induction false} FilterIsSubsequence(data: seq<TimedReading>, range: TimeRange, now: int)
    ensures IsSubsequence(FilterSensorData(data, range, now), data)
  {
    if data != [] {
      FilterIsSubsequence(data[1..], range, now);
    }
  }

  /**
   * A reading survives the filter exactly when it is in the input and inside the window,
   * and then every copy of it survives.
   */
  lemma {:induction false} FilterMembership(data: seq<TimedReading>, range: TimeRange, now: int, x: TimedReading)
    ensures x in FilterSensorData(data, range, now) <==> x in data && InWindow(range, now, x.timestamp)
    ensures multiset(FilterSensorData(data, range, now))[x] ==
      if InWindow(range, now, x.timestamp) then multiset(data)[x] else 0
  {
    if data != [] {
      FilterMembership(data[1..], range, now, x);
      assert x in data <==> x == data[0] || x in data[1..];
      assert data == [data[0]] + data[1..];
      assert multiset(data) == multiset([data[0]]) + multiset(data[1..]);
    }
  }

  /** `allData`, and any value the switch does not recognise, keep every reading. */
  lemma {:induction false} FilterKeepsAll(data: seq<TimedReading>, range: TimeRange, now: int)
    requires range == AllData || range.Unrecognised?
    ensures FilterSensorData(data, range, now) == data
  {
    if data != [] {
      FilterKeepsAll(data[1..], range, now);
      assert [data[0]] + data[1..] == data;
    }
  }

  /** Every reading inside window `narrow` is inside window `wide`. */
  ghost predicate Narrower(narrow: TimeRange, wide: TimeRange) {
    match (WindowMs(narrow), WindowMs(wide))
    case (_, None) => true
    case (Some(n), Some(w)) => n <= w
    case (None, Some(_)) => false
  }

  lemma NarrowerInWindow(narrow: TimeRange, wide: TimeRange, now: int, timestamp: Option<int>)
    requires Narrower(narrow, wide) && InWindow(narrow, now, timestamp)
    ensures InWindow(wide, now, timestamp)
  {
  }

  /** Filtering by a wider window first and then by a narrower one is the narrower filter. */
  lemma {:induction false} FilterCompose(data: seq<TimedReading>, narrow: TimeRange, wide: TimeRange, now: int)
    requires Narrower(narrow, wide)
    ensures FilterSensorData(FilterSensorData(data, wide, now), narrow, now) == FilterSensorData(data, narrow, now)
  {
    if data != [] {
      FilterCompose(data[1..], narrow, wide, now);
      var rest := FilterSensorData(data[1..], wide, now);
      if InWindow(narrow, now, data[0].timestamp) {
        NarrowerInWindow(narrow, wide, now, data[0].timestamp);
        assert ([data[0]] + rest)[1..] == rest;
      } else if InWindow(wide, now, data[0].timestamp) {
        assert ([data[0]] + rest)[1..] == rest;
      }
    }
  }

  /** The result of a narrower window is a subsequence of the result of a wider one. */
  lemma FilterNarrowerIsSubsequence(data: seq<TimedReading>, narrow: TimeRange, wide: TimeRange, now: int)
    requires Narrower(narrow, wide)
    ensures IsSubsequence(FilterSensorData(data, narrow, now), FilterSensorData(data, wide, now))
  {
    FilterCompose(data, narrow, wide, now);
    FilterIsSubsequence(FilterSensorData(data, wide, now), narrow, now);
  }

  /** For a fixed `now`: lastHour within last24Hours within lastWeek within last30Days within allData. */
  lemma FilterRangesNest(data: seq<TimedReading>, now: int)
    ensures IsSubsequence(FilterSensorData(data, LastHour, now), FilterSensorData(data, Last24Hours, now))
    ensures IsSubsequence(FilterSensorData(data, Last24Hours, now), FilterSensorData(data, LastWeek, now))
    ensures IsSubsequence(FilterSensorData(data, LastWeek, now), FilterSensorData(data, Last30Days, now))
    ensures IsSubsequence(FilterSensorData(data, Last30Days, now), FilterSensorData(data, AllData, now))
    ensures FilterSensorData(data, AllData, now) == data
  {
    FilterNarrowerIsSubsequence(data, LastHour, Last24Hours, now);
    FilterNarrowerIsSubsequence(data, Last24Hours, LastWeek, now);
    FilterNarrowerIsSubsequence(data, LastWeek, Last30Days, now);
    FilterNarrowerIsSubsequence(data, Last30Days, AllData, now);
    FilterKeepsAll(data, AllData, now);
  }

  // ---------------------------------------------------------------------------
  // Chart series

  /** `item[dataKey]`; `None` is `undefined`. */
  function Field(item: TimedReading, dataKey: string): (v: Option<int>)
    ensures v.Some? <==> dataKey in item.fields
    ensures v.Some? ==> v.value == item.fields[dataKey]
  {
    if dataKey in item.fields then Some(item.fields[dataKey]) else None
  }

  /** `sensorData.map(item => item[dataKey])`. */
  function Series(sensorData: seq<TimedReading>, dataKey: string): (r: seq<Option<int>>)
    ensures |r| == |sensorData|
    ensures forall i :: 0 <= i < |r| ==> r[i] == Field(sensorData[i], dataKey)
  {
    if sensorData == [] then [] else [Field(sensorData[0], dataKey)] + Series(sensorData[1..], dataKey)
  }

  /** The x-axis labels: one formatted time per reading, by the locale formatter `labelOf`. */
  function Labels(sensorData: seq<TimedReading>, labelOf: Option<int> -> string): (r: seq<string>)
    ensures |r| == |sensorData|
    ensures forall i :: 0 <= i < |r| ==> r[i] == labelOf(sensorData[i].timestamp)
  {
    if sensorData == [] then [] else [labelOf(sensorData[0].timestamp)] + Labels(sensorData[1..], labelOf)
  }

  datatype Dataset = Dataset(seriesLabel: string, data: seq<Option<int>>, color: string)

  datatype ChartData = ChartData(labels: seq<string>, datasets: seq<Dataset>)

  /**
   * `createChartData(label, dataKey, color)` over the screen's filtered readings (the
   * dataset's `label` is called `seriesLabel` here, `label` being a Dafny keyword):
   * exactly one dataset, whose values line up with the labels one for one; no sorting,
   * gap-filling or interpolation.
   */
  function CreateChartData(sensorData: seq<TimedReading>, seriesLabel: string, dataKey: string, color: string,
                           labelOf: Option<int> -> string): (c: ChartData)
    ensures |c.datasets| == 1
    ensures c.datasets[0].seriesLabel == seriesLabel && c.datasets[0].color == color
    ensures |c.labels| == |c.datasets[0].data| == |sensorData|
    ensures forall i :: 0 <= i < |sensorData| ==>
      c.labels[i] == labelOf(sensorData[i].timestamp) && c.datasets[0].data[i] == Field(sensorData[i], dataKey)
    ensures sensorData == [] ==> c.labels == [] && c.datasets[0].data == []
  {
    ChartData(Labels(sensorData, labelOf), [Dataset(seriesLabel, Series(sensorData, dataKey), color)])
  }

  /** Taking one field of each reading keeps the subsequence relation. */
  lemma {:induction false} SeriesKeepsSubsequence(a: seq<TimedReading>, b: seq<TimedReading>, dataKey: string)
    requires IsSubsequence(a, b)
    ensures IsSubsequence(Series(a, dataKey), Series(b, dataKey))
    decreases |b|
  {
    if a != [] {
      var sa, sb := Series(a, dataKey), Series(b, dataKey);
      assert sa[1..] == Series(a[1..], dataKey);
      assert sb[1..] == Series(b[1..], dataKey);
      if a[0] == b[0] && IsSubsequence(a[1..], b[1..]) {
        SeriesKeepsSubsequence(a[1..], b[1..], dataKey);
      } else {
        SeriesKeepsSubsequence(a, b[1..], dataKey);
      }
    }
  }

  /** A narrower time range charts a subsequence of the values a wider one charts. */
  lemma ChartNarrowerIsSubsequence(data: seq<TimedReading>, narrow: TimeRange, wide: TimeRange, now: int,
                                   seriesLabel: string, dataKey: string, color: string, labelOf: Option<int> -> string)
    requires Narrower(narrow, wide)
    ensures IsSubsequence(
      CreateChartData(FilterSensorData(data, narrow, now), seriesLabel, dataKey, color, labelOf).datasets[0].data,
      CreateChartData(FilterSensorData(data, wide, now), seriesLabel, dataKey, color, labelOf).datasets[0].data)
  {
    FilterNarrowerIsSubsequence(data, narrow, wide, now);
    SeriesKeepsSubsequence(FilterSensorData(data, narrow, now), FilterSensorData(data, wide, now), dataKey);
  }

  // ---------------------------------------------------------------------------
  // Chart kind

  datatype ChartKind = Line | Bar | Radar

  /** `renderChart`'s switch on the chart-type picker: line unless "bar" or "radar". */
  function ChartKindOf(chartType: string): (k: ChartKind)
    ensures k == Bar <==> chartType == "bar"
    ensures k == Radar <==> chartType == "radar"
    ensures k == Line <==> chartType != "bar" && chartType != "radar"
  {
    if chartType == "line" then Line
    else if chartType == "bar" then Bar
    else if chartType == "radar" then Radar
    else Line
  }
}
