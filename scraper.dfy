/** scraper.py: one forecast per resort block, taken from the first of the
    "text snow", "text highsnow" and "text nosnow" tiers the block has, and
    printed as plain `key: value` lines. */
module Scraper {
  import opened Py
  import opened PyText
  import opened Dicts
  import opened Page
  import opened Fetch
  import opened Cli

  /** The element `parse_data` reads the forecast from: "text snow" if the
      block has one, else "text highsnow" if it has one, else "text nosnow",
      whether or not that one exists. A found tag counts even without a
      string: the test is the tag's truth value. */
  function ChosenTier(b: ResortBlock): Element {
    if b.textSnow.Found? then b.textSnow
    else if b.textHighSnow.Found? then b.textHighSnow
    else b.textNoSnow
  }

  /** One pass of the loop body of `parse_data` over block b: the chosen
      string is stored under the name, or AttributeError escapes. */
  function Step(d: Dict, b: ResortBlock): Outcome<Dict> {
    var value := StrippedString(ChosenTier(b));
    var name := StrippedString(b.title);
    if value.Raised? || name.Raised? then Raised(AttributeError)
    else Ok(Put(d, name.value, value.value))
  }

  /** `forecast_data` after the loop over all blocks, or the exception that ended it. */
  function Extract(blocks: seq<ResortBlock>): Outcome<Dict> {
    if blocks == [] then Ok([])
    else
      var n := |blocks| - 1;
      match Extract(blocks[..n])
      case Raised(e) => Raised(e)
      case Ok(d) => Step(d, blocks[n])
  }

  /** The block has a name and its chosen tier has a string. */
  predicate Complete(b: ResortBlock) {
    Usable(b.title) && Usable(ChosenTier(b))
  }

  predicate AllComplete(blocks: seq<ResortBlock>) {
    blocks == [] || (AllComplete(blocks[..|blocks| - 1]) && Complete(blocks[|blocks| - 1]))
  }

  lemma {:induction false} AllCompleteEach(blocks: seq<ResortBlock>)
    ensures AllComplete(blocks) <==> forall i :: 0 <= i < |blocks| ==> Complete(blocks[i])
  {
    if blocks != [] {
      var n := |blocks| - 1;
      AllCompleteEach(blocks[..n]);
      assert forall i :: 0 <= i < n ==> blocks[..n][i] == blocks[i];
    }
  }

  /** Each block either writes exactly one entry, its name with the string
      of its chosen tier, or raises AttributeError. */
  lemma StepWritesOneEntry(d: Dict, b: ResortBlock)
    ensures Complete(b) ==> Step(d, b) == Ok(Put(d, Text(b.title), Text(ChosenTier(b))))
    ensures !Complete(b) ==> Step(d, b) == Raised(AttributeError)
  {
  }

  /** A "text snow" string is stored whatever the other tiers hold. */
  lemma SnowTierWins(d: Dict, b: ResortBlock)
    requires Usable(b.title) && Usable(b.textSnow)
    ensures Step(d, b) == Ok(Put(d, Text(b.title), Text(b.textSnow)))
  {
  }

  /** When the block has a "text snow" tag, the later tiers are never looked at. */
  lemma LaterTiersIgnored(d: Dict, b: ResortBlock, high: Element, no: Element)
    requires b.textSnow.Found?
    ensures Step(d, b.(textHighSnow := high, textNoSnow := no)) == Step(d, b)
  {
  }

  /** Without a "text snow" tag, a "text highsnow" string is stored whatever
      "text nosnow" holds. */
  lemma HighSnowTier(d: Dict, b: ResortBlock)
    requires b.textSnow == Missing
    requires Usable(b.title) && Usable(b.textHighSnow)
    ensures Step(d, b) == Ok(Put(d, Text(b.title), Text(b.textHighSnow)))
  {
  }

  /** With neither of the first two tags, "text nosnow" is read; if it or the
      name has no string the whole extraction aborts. */
  lemma NoSnowTier(d: Dict, b: ResortBlock)
    requires b.textSnow == Missing && b.textHighSnow == Missing
    ensures Step(d, b) ==
      if Usable(b.title) && Usable(b.textNoSnow) then Ok(Put(d, Text(b.title), Text(b.textNoSnow)))
      else Raised(AttributeError)
  {
  }

  /** A "text snow" tag without a string raises rather than falling back. */
  lemma FoundTagWithoutStringRaises(d: Dict, b: ResortBlock)
    requires b.textSnow == Found(None)
    ensures Step(d, b) == Raised(AttributeError)
  {
  }

  /** (name, forecast) of every block, in document order. */
  function Pairs(blocks: seq<ResortBlock>): (ps: Items)
    requires AllComplete(blocks)
    ensures |ps| == |blocks|
  {
    if blocks == [] then []
    else
      var n := |blocks| - 1;
      var b := blocks[n];
      Pairs(blocks[..n]) + [(Text(b.title), Text(ChosenTier(b)))]
  }

  /** Extraction succeeds exactly when every block is complete; otherwise it
      raises AttributeError. */
  lemma {:induction false} ExtractFails(blocks: seq<ResortBlock>)
    ensures Extract(blocks).Ok? <==> AllComplete(blocks)
    ensures Extract(blocks).Raised? ==> Extract(blocks).error == AttributeError
  {
    if blocks != [] {
      var n := |blocks| - 1;
      ExtractFails(blocks[..n]);
      if Extract(blocks[..n]).Ok? {
        StepWritesOneEntry(Extract(blocks[..n]).value, blocks[n]);
      }
    }
  }

  /** The same, block by block. */
  lemma ExtractRaisesIff(blocks: seq<ResortBlock>)
    ensures Extract(blocks).Raised? <==> exists i :: 0 <= i < |blocks| && !Complete(blocks[i])
  {
    ExtractFails(blocks);
    AllCompleteEach(blocks);
  }

  /** When every block is complete, the dict is built by assigning each
      block's chosen string under its name, in document order. */
  lemma {:induction false} ExtractDict(blocks: seq<ResortBlock>)
    requires AllComplete(blocks)
    ensures Extract(blocks) == Ok(FromPairs(Pairs(blocks)))
  {
    if blocks != [] {
      var n := |blocks| - 1;
      var b := blocks[n];
      ExtractDict(blocks[..n]);
      StepWritesOneEntry(Extract(blocks[..n]).value, b);
      FromPairsAppend(Pairs(blocks[..n]), Text(b.title), Text(ChosenTier(b)));
    }
  }

  /** After a successful extraction the keys are the distinct names in order
      of first appearance, each holding the string chosen in the last block
      with that name. */
  lemma ExtractedDict(blocks: seq<ResortBlock>)
    requires Extract(blocks).Ok?
    ensures AllComplete(blocks)
    ensures Summarises(Extract(blocks).value, Pairs(blocks))
  {
    ExtractFails(blocks);
    ExtractDict(blocks);
    FromPairsShape(Pairs(blocks));
  }

  /** `f'{key}: {value}'` */
  function PlainLine(key: string, value: string): string {
    key + ": " + value
  }

  /** One plain line per item, in order. */
  function PlainLines(items: Items): (lines: seq<string>)
    ensures |lines| == |items|
  {
    if items == [] then []
    else
      var n := |items| - 1;
      PlainLines(items[..n]) + [PlainLine(items[n].0, items[n].1)]
  }

  /** No header and no padding: line i is item i's key, ": " and its value. */
  lemma {:induction false} PlainLinesAt(items: Items)
    ensures forall i :: 0 <= i < |items| ==> PlainLines(items)[i] == items[i].0 + ": " + items[i].1
  {
    if items != [] {
      var n := |items| - 1;
      PlainLinesAt(items[..n]);
      assert forall i :: 0 <= i < n ==> items[..n][i] == items[i];
    }
  }

  /** `parse_data(response)` for a page whose resort blocks are `blocks`: the
      printed lines, or the exception that escaped before anything was printed. */
  method ParseData(blocks: seq<ResortBlock>) returns (r: Outcome<seq<string>>)
    ensures Extract(blocks).Raised? ==> r == Raised(Extract(blocks).error)
    ensures Extract(blocks).Ok? ==> r == Ok(PlainLines(Extract(blocks).value))
  {
    var forecastData := new PyDict();
    var i := 0;
    while i < |blocks|
      invariant 0 <= i <= |blocks|
      invariant Extract(blocks[..i]) == Ok(forecastData.items)
    {
      var resort := blocks[i];
      ghost var before := forecastData.items;
      ExtractNext(blocks, i);
      StepWritesOneEntry(before, resort);
      var snow := resort.textSnow;
      if !snow.Found? {
        snow := resort.textHighSnow;
        if !snow.Found? {
          snow := resort.textNoSnow;
        }
      }
      assert snow == ChosenTier(resort);
      var value := StrippedString(snow);
      var name := StrippedString(resort.title);
      if value.Raised? || name.Raised? {
        RaisesAt(blocks, i);
        return Raised(AttributeError);
      }
      forecastData.SetItem(name.value, value.value);
      i := i + 1;
    }
    assert blocks[..i] == blocks;
    var out := PrintPlain(forecastData.items);
    r := Ok(out);
  }

  /** The display loop `for key, value in forecast_data.items(): print(...)`. */
  method PrintPlain(items: Items) returns (out: seq<string>)
    ensures out == PlainLines(items)
  {
    out := [];
    var j := 0;
    while j < |items|
      invariant 0 <= j <= |items|
      invariant out == PlainLines(items[..j])
    {
      var (key, value) := items[j];
      assert items[..j + 1][..j] == items[..j];
      out := out + [PlainLine(key, value)];
      j := j + 1;
    }
    assert items[..j] == items;
  }

  /** Extraction over one more block is one more step. */
  lemma ExtractNext(blocks: seq<ResortBlock>, i: nat)
    requires i < |blocks| && Extract(blocks[..i]).Ok?
    ensures Extract(blocks[..i + 1]) == Step(Extract(blocks[..i]).value, blocks[i])
  {
    assert blocks[..i + 1][..i] == blocks[..i];
  }

  /** A block that cannot be read after a clean prefix makes the whole page raise. */
  lemma RaisesAt(blocks: seq<ResortBlock>, i: nat)
    requires i < |blocks| && Extract(blocks[..i]).Ok? && !Complete(blocks[i])
    ensures Extract(blocks) == Raised(AttributeError)
  {
    ExtractNext(blocks, i);
    ExtractFails(blocks[..i + 1]);
    PrefixRaises(blocks, i + 1);
    ExtractFails(blocks);
  }

  /** Once a prefix of the blocks raises, so does the whole page. */
  lemma {:induction false} PrefixRaises(blocks: seq<ResortBlock>, k: nat)
    requires k <= |blocks| && Extract(blocks[..k]).Raised?
    ensures Extract(blocks).Raised?
    decreases |blocks| - k
  {
    if k < |blocks| {
      assert blocks[..k + 1][..k] == blocks[..k];
      PrefixRaises(blocks, k + 1);
    } else {
      assert blocks[..k] == blocks;
    }
  }

  /** The whole script for command-line arguments `argv` (without the
      program name) and a network answering each URL. The chosen state is
      printed before the URL. */
  method Run(argv: seq<string>, network: string -> Response<seq<ResortBlock>>) returns (run: Execution)
    ensures ArgLoop(argv, None) == ShowUsage(0) ==> run == Execution([], UsageExit(0))
    ensures ArgLoop(argv, None) == ShowUsage(1) ==> run == Execution([], UsageExit(1))
    ensures ArgLoop(argv, None) == Fail(IndexError) ==> run == Execution([], Crashed(IndexError))
    ensures ArgLoop(argv, None).Select? ==>
      var state := ArgLoop(argv, None).state;
      && |run.printed| >= 2 && run.printed[..2] == [state, Url(state)]
      && (run.ending == Completed <==>
           GetResponse(state, network) == Ok(Some(network(Url(state)).content))
           && Extract(network(Url(state)).content).Ok?)
      && (run.ending == Completed ==>
           run.printed == [state, Url(state)] + PlainLines(Extract(network(Url(state)).content).value))
      && (run.ending == NoContent <==> GetResponse(state, network) == Ok(None))
      && (run.ending == Crashed(KeyError) <==> network(Url(state)).contentType.None?)
      && (run.ending == Crashed(AttributeError) <==>
           GetResponse(state, network) == Ok(Some(network(Url(state)).content))
           && Extract(network(Url(state)).content).Raised?)
      && (run.ending != Completed ==> run.printed == [state, Url(state)])
  {
    var cmd := ParseArguments(argv);
    CrashIff(argv);
    match cmd
    case ShowUsage(status) =>
      run := Execution([], UsageExit(status));
    case Fail(e) =>
      run := Execution([], Crashed(e));
    case Select(state) =>
      var printed := [state, Url(state)];
      var response := GetResponse(state, network);
      match response
      case Raised(e) =>
        run := Execution(printed, Crashed(e));
      case Ok(None) =>
        run := Execution(printed, NoContent);
      case Ok(Some(blocks)) =>
        var parsed := ParseData(blocks);
        ExtractFails(blocks);
        match parsed
        case Raised(e) =>
          run := Execution(printed, Crashed(e));
        case Ok(lines) =>
          run := Execution(printed + lines, Completed);
  }
}
