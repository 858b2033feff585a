/**
 * `generateLineItems` and `generatePlot`, identical in both handlers: build a
 * line chart whose x-axis labels are the entries' dates and whose single
 * series "Price" has one point per entry value, then render it to HTML.
 * The chart library's rendering is a parameter that may fail; the model
 * fixes what the chart is given, not what the HTML looks like.
 */
module Plot {
  import opened Common

  /** One point of the line series. */
  datatype LineData = LineData(value: Value)

  /** The chart's fixed initialization options. */
  datatype InitOptions = InitOptions(width: string, height: string, theme: string)

  /** Everything the chart library is handed before rendering. */
  datatype LineChart = LineChart(
    init: InitOptions,
    xAxis: seq<string>,
    seriesName: string,
    points: seq<LineData>,
    smooth: bool)

  /** The library's Render: the HTML bytes, or None for a render error. */
  type Renderer = LineChart -> Option<Bytes>

  const Options := InitOptions("1200px", "350px", "chalk")
  const SeriesName := "Price"

  /** The x-axis labels: the dates, in entry order. */
  function Labels(entries: seq<Entry>): (labels: seq<string>)
    ensures |labels| == |entries|
    ensures forall i :: 0 <= i < |entries| ==> labels[i] == entries[i].date
  {
    if entries == [] then [] else Labels(entries[..|entries| - 1]) + [entries[|entries| - 1].date]
  }

  /** The series points: the values, in entry order. */
  function Points(entries: seq<Entry>): (points: seq<LineData>)
    ensures |points| == |entries|
    ensures forall i :: 0 <= i < |entries| ==> points[i] == LineData(entries[i].value)
  {
    if entries == [] then [] else Points(entries[..|entries| - 1]) + [LineData(entries[|entries| - 1].value)]
  }

  /** The chart built for the entries. */
  function ChartOf(entries: seq<Entry>): (chart: LineChart)
    ensures chart.init == InitOptions("1200px", "350px", "chalk") && chart.seriesName == "Price" && !chart.smooth
    ensures |chart.xAxis| == |chart.points| == |entries|
  {
    LineChart(Options, Labels(entries), SeriesName, Points(entries), false)
  }

  /** Labels and points pair up: point i is plotted at label i, and both
      lists are determined by the entries and nothing else. */
  lemma ChartPairsUp(entries: seq<Entry>, i: int)
    requires 0 <= i < |entries|
    ensures |ChartOf(entries).xAxis| == |ChartOf(entries).points| == |entries|
    ensures Entry(ChartOf(entries).xAxis[i], ChartOf(entries).points[i].value) == entries[i]
  {
  }

  /** `generateLineItems`: one LineData per entry, in order. */
  method GenerateLineItems(entries: seq<Entry>) returns (items: seq<LineData>)
    ensures items == Points(entries)
  {
    items := [];
    for i := 0 to |entries|
      invariant items == Points(entries[..i])
    {
      assert entries[..i + 1][..i] == entries[..i];
      items := items + [LineData(entries[i].value)];
    }
    assert entries[..|entries|] == entries;
  }

  /** `generatePlot`: the date labels, the line items, then Render; a render
      error yields no bytes and an error. */
  method GeneratePlot(entries: seq<Entry>, render: Renderer) returns (buf: Bytes, err: bool)
    ensures err <==> render(ChartOf(entries)).None?
    ensures !err ==> buf == render(ChartOf(entries)).value
    ensures err ==> buf == []
  {
    var dateLabels := [];
    for i := 0 to |entries|
      invariant dateLabels == Labels(entries[..i])
    {
      assert entries[..i + 1][..i] == entries[..i];
      dateLabels := dateLabels + [entries[i].date];
    }
    assert entries[..|entries|] == entries;
    var items := GenerateLineItems(entries);
    var line := LineChart(Options, dateLabels, SeriesName, items, false);
    match render(line)
    case None =>
      buf, err := [], true;
    case Some(b) =>
      buf, err := b, false;
  }
}
