/** open_snow.py: every resort block gives a forecast entry, and a report
    entry when it has a summary value; both tables are printed right-aligned. */
module OpenSnow {
  import opened Py
  import opened PyText
  import opened Dicts
  import opened Page
  import opened Fetch
  import opened Cli

  /** `forecast_data` and `report_data` */
  datatype Tables = Tables(forecasts: Dict, reports: Dict)

  /** One pass of the loop body of `parse_data` over block b. The forecast
      assignment is outside the try, so a missing name or forecast raises; a
      missing report value is caught and the block adds no report. */
  function Step(t: Tables, b: ResortBlock): Outcome<Tables> {
    var name := StrippedString(b.title);
    var forecast := StrippedString(b.anyText);
    if name.Raised? || forecast.Raised? then Raised(AttributeError)
    else
      var forecasts := Put(t.forecasts, name.value, forecast.value);
      var report := StrippedString(b.summaryValue);
      if report.Raised? then Ok(Tables(forecasts, t.reports))
      else Ok(Tables(forecasts, Put(t.reports, name.value, report.value)))
  }

  /** The tables after the loop has run over all blocks, or the exception
      that ended it. */
  function Extract(blocks: seq<ResortBlock>): Outcome<Tables> {
    if blocks == [] then Ok(Tables([], []))
    else
      var n := |blocks| - 1;
      match Extract(blocks[..n])
      case Raised(e) => Raised(e)
      case Ok(t) => Step(t, blocks[n])
  }

  /** The block has both a name and a forecast string. */
  predicate Complete(b: ResortBlock) {
    Usable(b.title) && Usable(b.anyText)
  }

  /** Every block is complete. */
  predicate AllComplete(blocks: seq<ResortBlock>) {
    blocks == [] || (AllComplete(blocks[..|blocks| - 1]) && Complete(blocks[|blocks| - 1]))
  }

  lemma {:induction false} AllCompleteEach(blocks: seq<ResortBlock>)
    ensures AllComplete(blocks) <==> forall i :: 0 <= i < |blocks| ==> Complete(blocks[i])
  {
    if blocks != [] {
      var n := |blocks| - 1;
      AllCompleteEach(blocks[..n]);
      assert forall i :: 0 <= i < n ==> blocks[..n][i] == blocks[i];
    }
  }

  /** A complete block assigns its forecast, and its report if it has one. */
  lemma StepComplete(t: Tables, b: ResortBlock)
    requires Complete(b)
    ensures Step(t, b) == Ok(Tables(
      Put(t.forecasts, Text(b.title), Text(b.anyText)),
      if Usable(b.summaryValue) then Put(t.reports, Text(b.title), Text(b.summaryValue)) else t.reports))
  {
  }

  /** (name, forecast) of every block, in document order. */
  function ForecastPairs(blocks: seq<ResortBlock>): (ps: Items)
    requires AllComplete(blocks)
    ensures |ps| == |blocks|
  {
    if blocks == [] then []
    else
      var n := |blocks| - 1;
      var b := blocks[n];
      ForecastPairs(blocks[..n]) + [(Text(b.title), Text(b.anyText))]
  }

  /** (name, report) of every block that has a report string, in document order. */
  function ReportPairs(blocks: seq<ResortBlock>): (ps: Items)
    requires AllComplete(blocks)
  {
    if blocks == [] then []
    else
      var n := |blocks| - 1;
      var b := blocks[n];
      ReportPairs(blocks[..n])
      + if Usable(b.summaryValue) then [(Text(b.title), Text(b.summaryValue))] else []
  }

  /** A block without a name or a forecast string raises. */
  lemma StepIncomplete(t: Tables, b: ResortBlock)
    requires !Complete(b)
    ensures Step(t, b) == Raised(AttributeError)
  {
  }

  /** Extraction succeeds exactly when every block has a name and a
      forecast string; otherwise it raises AttributeError. */
  lemma {:induction false} ExtractFails(blocks: seq<ResortBlock>)
    ensures Extract(blocks).Ok? <==> AllComplete(blocks)
    ensures Extract(blocks).Raised? ==> Extract(blocks).error == AttributeError
  {
    if blocks != [] {
      var n := |blocks| - 1;
      var pre, b := blocks[..n], blocks[n];
      ExtractFails(pre);
      if Extract(pre).Ok? {
        if Complete(b) {
          StepComplete(Extract(pre).value, b);
        } else {
          StepIncomplete(Extract(pre).value, b);
        }
      }
    }
  }

  /** The same, block by block: extraction raises exactly when some block
      lacks a name or a forecast string. */
  lemma ExtractRaisesIff(blocks: seq<ResortBlock>)
    ensures Extract(blocks).Raised? <==> exists i :: 0 <= i < |blocks| && !Complete(blocks[i])
  {
    ExtractFails(blocks);
    AllCompleteEach(blocks);
  }

  /** When every block is complete, the forecast table is built from every
      block and the report table from the blocks that have a report. */
  lemma {:induction false} ExtractTables(blocks: seq<ResortBlock>)
    requires AllComplete(blocks)
    ensures Extract(blocks) == Ok(Tables(FromPairs(ForecastPairs(blocks)), FromPairs(ReportPairs(blocks))))
  {
    if blocks != [] {
      var n := |blocks| - 1;
      var pre, b := blocks[..n], blocks[n];
      ExtractTables(pre);
      var t := Extract(pre).value;
      StepComplete(t, b);
      FromPairsAppend(ForecastPairs(pre), Text(b.title), Text(b.anyText));
      if Usable(b.summaryValue) {
        FromPairsAppend(ReportPairs(pre), Text(b.title), Text(b.summaryValue));
      } else {
        assert ReportPairs(blocks) == ReportPairs(pre);
      }
    }
  }

  /** Every report key is also a forecast key. */
  lemma ReportKeysAreForecastKeys(blocks: seq<ResortBlock>)
    requires Extract(blocks).Ok?
    ensures forall k :: k in Keys(Extract(blocks).value.reports) ==> k in Keys(Extract(blocks).value.forecasts)
  {
    ExtractFails(blocks);
    ExtractTables(blocks);
    ReportNamesAreNames(blocks);
    FromPairsShape(ForecastPairs(blocks));
    FromPairsShape(ReportPairs(blocks));
  }

  lemma {:induction false} ReportNamesAreNames(blocks: seq<ResortBlock>)
    requires AllComplete(blocks)
    ensures forall k :: k in Keys(ReportPairs(blocks)) ==> k in Keys(ForecastPairs(blocks))
  {
    if blocks != [] {
      var n := |blocks| - 1;
      var pre, b := blocks[..n], blocks[n];
      ReportNamesAreNames(pre);
      var name := Text(b.title);
      assert ForecastPairs(blocks) == ForecastPairs(pre) + [(name, Text(b.anyText))];
      KeysAppend(ForecastPairs(pre), name, Text(b.anyText));
      if Usable(b.summaryValue) {
        assert ReportPairs(blocks) == ReportPairs(pre) + [(name, Text(b.summaryValue))];
        KeysAppend(ReportPairs(pre), name, Text(b.summaryValue));
      } else {
        assert ReportPairs(blocks) == ReportPairs(pre);
      }
    }
  }

  /** After a successful extraction each table has one entry per distinct
      name, in order of first appearance; a forecast entry holds the forecast
      of the last block with that name, a report entry the report of the last
      block with that name that has one. */
  lemma ExtractedTables(blocks: seq<ResortBlock>)
    requires Extract(blocks).Ok?
    ensures AllComplete(blocks)
    ensures Summarises(Extract(blocks).value.forecasts, ForecastPairs(blocks))
    ensures Summarises(Extract(blocks).value.reports, ReportPairs(blocks))
  {
    ExtractFails(blocks);
    ExtractTables(blocks);
    FromPairsShape(ForecastPairs(blocks));
    FromPairsShape(ReportPairs(blocks));
  }

  /** A complete block without a report string updates the forecasts and
      leaves the reports as they were. */
  lemma MissingReportSkipped(blocks: seq<ResortBlock>, b: ResortBlock)
    requires Extract(blocks).Ok? && Complete(b) && !Usable(b.summaryValue)
    ensures Extract(blocks + [b]) == Ok(Tables(
      Put(Extract(blocks).value.forecasts, Text(b.title), Text(b.anyText)),
      Extract(blocks).value.reports))
  {
    assert (blocks + [b])[..|blocks|] == blocks;
    StepComplete(Extract(blocks).value, b);
  }

  /** `f'{key:>30}: {value:>5}'` */
  function WideLine(key: string, value: string): string {
    RightAlign(key, 30) + ": " + RightAlign(value, 5)
  }

  /** The key right-aligned in 30 columns, ": ", the value right-aligned in
      5 columns; a longer key or value is kept whole. */
  lemma WideLineLayout(key: string, value: string)
    ensures WideLine(key, value) == Spaces(30 - |key|) + key + ": " + Spaces(5 - |value|) + value
  {
    RightAlignPads(key, 30);
    RightAlignPads(value, 5);
  }

  /** One wide line per item, in order. */
  function WideLines(items: Items): (lines: seq<string>)
    ensures |lines| == |items|
  {
    if items == [] then []
    else
      var n := |items| - 1;
      WideLines(items[..n]) + [WideLine(items[n].0, items[n].1)]
  }

  lemma {:induction false} WideLinesAt(items: Items)
    ensures forall i :: 0 <= i < |items| ==> WideLines(items)[i] == WideLine(items[i].0, items[i].1)
  {
    if items != [] {
      var n := |items| - 1;
      WideLinesAt(items[..n]);
      assert forall i :: 0 <= i < n ==> items[..n][i] == items[i];
    }
  }

  /** What the display part of `parse_data` prints. */
  function Printed(t: Tables): seq<string> {
    ["\nForecasts:\n"] + WideLines(t.forecasts) + ["\nReports:\n"] + WideLines(t.reports)
  }

  /** The "Forecasts:" header, one line per forecast entry in table order,
      the "Reports:" header, one line per report entry in table order. */
  lemma PrintedLayout(t: Tables)
    ensures var out, f, r := Printed(t), t.forecasts, t.reports;
      && |out| == |f| + |r| + 2
      && out[0] == "\nForecasts:\n"
      && (forall i :: 0 <= i < |f| ==> out[i + 1] == WideLine(f[i].0, f[i].1))
      && out[|f| + 1] == "\nReports:\n"
      && (forall j :: 0 <= j < |r| ==> out[|f| + 2 + j] == WideLine(r[j].0, r[j].1))
  {
    WideLinesAt(t.forecasts);
    WideLinesAt(t.reports);
  }

  /** `parse_data(response)` for a page whose resort blocks are `blocks`: the
      printed lines, or the exception that escaped before anything was printed. */
  method ParseData(blocks: seq<ResortBlock>) returns (r: Outcome<seq<string>>)
    ensures Extract(blocks).Raised? ==> r == Raised(Extract(blocks).error)
    ensures Extract(blocks).Ok? ==> r == Ok(Printed(Extract(blocks).value))
  {
    var forecastData := new PyDict();
    var reportData := new PyDict();
    var i := 0;
    while i < |blocks|
      invariant 0 <= i <= |blocks|
      invariant forecastData != reportData
      invariant Extract(blocks[..i]) == Ok(Tables(forecastData.items, reportData.items))
    {
      var resort := blocks[i];
      ghost var before := Tables(forecastData.items, reportData.items);
      ExtractNext(blocks, i);
      var name := StrippedString(resort.title);
      var snowF := StrippedString(resort.anyText);
      if name.Raised? || snowF.Raised? {
        RaisesAt(blocks, i);
        return Raised(AttributeError);
      }
      StepComplete(before, resort);
      forecastData.SetItem(name.value, snowF.value);
      var snowR := StrippedString(resort.summaryValue);
      if snowR.Ok? {
        reportData.SetItem(name.value, snowR.value);
      }
      i := i + 1;
    }
    assert blocks[..i] == blocks;
    var out := ["\nForecasts:\n"];
    out := PrintWide(out, forecastData.items);
    out := out + ["\nReports:\n"];
    out := PrintWide(out, reportData.items);
    r := Ok(out);
  }

  /** The display loop `for key, value in d.items(): print(...)`. */
  method PrintWide(printed: seq<string>, items: Items) returns (out: seq<string>)
    ensures out == printed + WideLines(items)
  {
    out := printed;
    var j := 0;
    while j < |items|
      invariant 0 <= j <= |items|
      invariant out == printed + WideLines(items[..j])
    {
      var (key, value) := items[j];
      assert items[..j + 1][..j] == items[..j];
      assert WideLines(items[..j + 1]) == WideLines(items[..j]) + [WideLine(key, value)];
      assert printed + WideLines(items[..j + 1]) == out + [WideLine(key, value)];
      out := out + [WideLine(key, value)];
      j := j + 1;
    }
    assert items[..j] == items;
  }

  /** Extraction over one more block is one more step. */
  lemma ExtractNext(blocks: seq<ResortBlock>, i: nat)
    requires i < |blocks| && Extract(blocks[..i]).Ok?
    ensures Extract(blocks[..i + 1]) == Step(Extract(blocks[..i]).value, blocks[i])
  {
    assert blocks[..i + 1][..i] == blocks[..i];
  }

  /** A block that cannot be read after a clean prefix makes the whole page raise. */
  lemma RaisesAt(blocks: seq<ResortBlock>, i: nat)
    requires i < |blocks| && Extract(blocks[..i]).Ok? && !Complete(blocks[i])
    ensures Extract(blocks) == Raised(AttributeError)
  {
    ExtractNext(blocks, i);
    ExtractFails(blocks[..i + 1]);
    PrefixRaises(blocks, i + 1);
    ExtractFails(blocks);
  }

  /** Once a prefix of the blocks raises, so does the whole page. */
  lemma {:induction false} PrefixRaises(blocks: seq<ResortBlock>, k: nat)
    requires k <= |blocks| && Extract(blocks[..k]).Raised?
    ensures Extract(blocks).Raised?
    decreases |blocks| - k
  {
    if k < |blocks| {
      assert blocks[..k + 1][..k] == blocks[..k];
      PrefixRaises(blocks, k + 1);
    } else {
      assert blocks[..k] == blocks;
    }
  }

  /** `add_item(data_dict, key, value)`: stores the stripped strings of the
      two elements in the dict it was given and returns that same dict; a
      missing string raises before anything is stored. */
  method AddItem(dataDict: PyDict, key: Element, value: Element) returns (r: Outcome<PyDict>)
    modifies dataDict
    ensures r.Ok? <==> Usable(key) && Usable(value)
    ensures r.Ok? ==> r.value == dataDict
    ensures r.Ok? ==> dataDict.items == Put(old(dataDict.items), Text(key), Text(value))
    ensures r.Raised? ==> r.error == AttributeError && dataDict.items == old(dataDict.items)
  {
    var v := StrippedString(value);
    var k := StrippedString(key);
    if v.Raised? || k.Raised? {
      return Raised(AttributeError);
    }
    dataDict.SetItem(k.value, v.value);
    r := Ok(dataDict);
  }

  /** The whole script for command-line arguments `argv` (without the
      program name) and a network answering each URL. */
  method Run(argv: seq<string>, network: string -> Response<seq<ResortBlock>>) returns (run: Execution)
    ensures ArgLoop(argv, None) == ShowUsage(0) ==> run == Execution([], UsageExit(0))
    ensures ArgLoop(argv, None) == ShowUsage(1) ==> run == Execution([], UsageExit(1))
    ensures ArgLoop(argv, None) == Fail(IndexError) ==> run == Execution([], Crashed(IndexError))
    ensures ArgLoop(argv, None).Select? ==>
      var state := ArgLoop(argv, None).state;
      && |run.printed| >= 1 && run.printed[0] == Url(state)
      && (run.ending == Completed <==>
           GetResponse(state, network) == Ok(Some(network(Url(state)).content))
           && Extract(network(Url(state)).content).Ok?)
      && (run.ending == Completed ==>
           run.printed == [Url(state)] + Printed(Extract(network(Url(state)).content).value))
      && (run.ending == NoContent <==> GetResponse(state, network) == Ok(None))
      && (run.ending == Crashed(KeyError) <==> network(Url(state)).contentType.None?)
      && (run.ending == Crashed(AttributeError) <==>
           GetResponse(state, network) == Ok(Some(network(Url(state)).content))
           && Extract(network(Url(state)).content).Raised?)
      && (run.ending != Completed ==> run.printed == [Url(state)])
  {
    var cmd := ParseArguments(argv);
    CrashIff(argv);
    match cmd
    case ShowUsage(status) =>
      run := Execution([], UsageExit(status));
    case Fail(e) =>
      run := Execution([], Crashed(e));
    case Select(state) =>
      var printed := [Url(state)];
      var response := GetResponse(state, network);
      match response
      case Raised(e) =>
        run := Execution(printed, Crashed(e));
      case Ok(None) =>
        run := Execution(printed, NoContent);
      case Ok(Some(blocks)) =>
        var parsed := ParseData(blocks);
        ExtractFails(blocks);
        match parsed
        case Raised(e) =>
          run := Execution(printed, Crashed(e));
        case Ok(lines) =>
          run := Execution(printed + lines, Completed);
  }
}
