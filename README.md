# Snow report scraper — Dafny model

The repository holds two command-line scripts. Each fetches the page
`https://opensnow.com/state/<STATE>` for the state chosen with `-s STATE`.
They read each resort block of the page and print what they find:

- `open_snow.py` (variant A) fills two insertion-ordered dictionaries. One
  maps each resort name to its forecast. The other maps it to the reported
  snow, and a resort without a report is skipped. It prints both
  dictionaries right-aligned to widths 30 and 5, each under a header.
- `scraper.py` (variant B) fills one dictionary. It takes the forecast from
  the first tag class present among "text snow", "text highsnow" and
  "text nosnow". It prints `name: value` lines.

The model is split into modules:

- `Py` (`py.dfy`) holds Python's `None`, the exceptions that can escape, and
  the outcome of a call that may raise.
- `PyText` (`text.dfy`) holds `str.strip`, ASCII `str.lower`, `str.find`,
  `str.startswith('-')` and the `{:>n}` format.
- `Dicts` (`dicts.dfy`) holds the insertion-ordered `dict`. It is a
  sequence of pairs with distinct keys, and the `PyDict` class updates it
  in place. Storing an existing key keeps its position and takes the new
  value; a new key goes at the end.
- `Page` (`page.dfy`) holds what the scripts look up in a resort block.
  Each lookup gives a missing tag, or a found tag whose `.string` may be
  `None`.
- `Fetch` (`fetch.dfy`) holds the URL, `check_response` and
  `get_response`. The network is a function parameter.
- `Cli` (`cli.dfy`) holds the argument loop of `main`, a closed form of
  its result, and how a run ends.
- `OpenSnow` (`open_snow.dfy`) and `Scraper` (`scraper.dfy`) hold the two
  `parse_data` functions, `add_item`, and each script's `main`.

`get_response`, `check_response` and the argument loop appear twice, with
the same text, in both scripts (`scraper.py:25-51` and `scraper.py:91-99`).
They are modelled once, and their rows below cite `open_snow.py`.

Printed output is modelled as the list of strings handed to `print`, in
order. `print` adds a newline after each.

Three behaviours of the code are easy to misread:

- A response without a Content-Type header raises `KeyError` in
  `check_response`. It is not caught, so the run crashes.
- In `scraper.py`, `if(snow)` tests only that the tag was found. A bs4 tag
  is always truthy. So a found "text snow" tag whose `.string` is `None`
  raises `AttributeError` when it is stripped. It does not fall through to
  the next tier.
- A missing name in any block aborts the whole extraction in both
  variants. In variant A the name is read for the forecast first, so the
  report's `except AttributeError` never sees that failure.

## Model

| member | source | states |
|---|---|---|
| PyText.Strip | open_snow.py:74 | the stripped text has no whitespace at either end and sits inside the original with only whitespace around it |
| PyText.Find | open_snow.py:51 | `find` gives -1 or an index where the pattern occurs, and the pattern occurs at no earlier index |
| PyText.RightAlign | open_snow.py:86 | `{:>w}` yields max(w, length) characters that end in the value, preceded only by spaces |
| Fetch.StateOfUrl | open_snow.py:30 | recovers the state from a URL, and any state it returns rebuilds that same URL |
| Fetch.UrlRoundTrip | open_snow.py:12-30 | the URL is `https://opensnow.com/state/` followed by the state, and the state can be read back from it |
| Fetch.LowerFindsHtml | open_snow.py:48-51 | `lower().find('html') > -1` holds exactly when "html" occurs in the header in any mix of letter cases |
| Fetch.CheckResponse | open_snow.py:44-51 | raises KeyError exactly when the Content-Type header is absent; otherwise true exactly when the status is 200 and the header mentions html in any case |
| Fetch.GetResponse | open_snow.py:25-38 | the body of the response for the state's URL when it passes the check, no content when it fails, and the check's KeyError when the header is absent |
| Cli.ParseArguments | open_snow.py:97-114 | the argument loop, run imperatively, gives the result of the argument-loop definition: usage with status 0 or 1, an IndexError, or the selected state |
| Cli.ArgLoopVerdict | open_snow.py:101-114 | the result depends only on the leading "-s STATE" pairs and the token after them |
| Cli.SelectIff | open_snow.py:101-112 | a state is selected exactly when the leading pairs end at the end of the arguments or at an operand, and the last pair names a non-empty state |
| Cli.HelpIff | open_snow.py:104-105 | usage with status 0 exactly when `-h` is the first token after the leading pairs |
| Cli.CrashIff | open_snow.py:101-107 | the only exception is IndexError, raised exactly when the leading `-s STATE` pairs are followed by a final `-s` |
| Cli.UsageErrorIff | open_snow.py:108-114 | usage with status 1 exactly when another dash token follows the pairs, or no state or an empty one was chosen |
| Cli.LastSelectionWins | open_snow.py:106-107 | a later `-s` overrides every earlier selection |
| Cli.OperandEndsParsing | open_snow.py:101 | the first token without a dash ends parsing, and it and everything after it are ignored |
| Dicts.Put | open_snow.py:74 | storing an existing key keeps every position and replaces only that key's value; a new key is appended at the end |
| Dicts.FromPairsShape | open_snow.py:69-74 | after a run of stores, the keys are exactly those stored, in first-store order, each holding its last stored value |
| Dicts.PyDict.constructor | open_snow.py:64-65 | a new dictionary is empty |
| Dicts.PyDict.SetItem | open_snow.py:74 | `d[k] = v` updates the dictionary in place to the stored-into contents |
| Page.StrippedString | open_snow.py:74 | `.string.strip()` raises AttributeError exactly when the tag is missing or has no string, and otherwise gives the stripped string |
| OpenSnow.StepComplete | open_snow.py:70-81 | a block with a name and a forecast stores the forecast, and also the report when the report is readable |
| OpenSnow.StepIncomplete | open_snow.py:70-74 | a block without a name or a forecast string raises AttributeError |
| OpenSnow.ExtractFails | open_snow.py:69-81 | extraction succeeds exactly when every block has a name and a forecast string, and otherwise raises AttributeError |
| OpenSnow.ExtractRaisesIff | open_snow.py:69-81 | extraction raises exactly when some block lacks a name or a forecast string |
| OpenSnow.ExtractTables | open_snow.py:64-81 | on success the two dictionaries are the stores of every block's (name, forecast), and of the (name, report) of blocks whose report is readable |
| OpenSnow.ExtractedTables | open_snow.py:64-81 | each dictionary holds exactly the stored names, in first-seen order, each with the value from its last block |
| OpenSnow.ReportKeysAreForecastKeys | open_snow.py:74-79 | every resort with a report also has a forecast |
| OpenSnow.MissingReportSkipped | open_snow.py:77-81 | a block whose report is missing or has no string leaves the report dictionary unchanged and still stores its forecast |
| OpenSnow.WideLineLayout | open_snow.py:86 | a line is the name padded to 30, then ": ", then the value padded to 5 |
| OpenSnow.PrintedLayout | open_snow.py:84-89 | the output is the forecasts header, one line per forecast in dictionary order, the reports header, then one line per report |
| OpenSnow.ParseData | open_snow.py:59-89 | the loop over the blocks, filling two `PyDict` objects, raises what extraction raises or prints the layout of the extracted dictionaries |
| OpenSnow.PrintWide | open_snow.py:85-86 | printing a dictionary appends its lines, one per entry in order |
| OpenSnow.AddItem | open_snow.py:91-93 | stores the two stripped strings in the given dictionary and returns that same dictionary; a missing string raises AttributeError and leaves it unchanged |
| OpenSnow.Run | open_snow.py:95-114 | the argument verdict decides usage, a crash, or a fetch; a fetch prints the URL and then completes with the report, ends without content, crashes with KeyError when the header is absent, or crashes with AttributeError when extraction raises; every ending but completion prints only the URL |
| Scraper.StepWritesOneEntry | scraper.py:68-80 | each block stores exactly one entry, its name with its chosen tier's string, or raises AttributeError |
| Scraper.SnowTierWins | scraper.py:71-73 | a "text snow" string is stored whatever the other tiers hold |
| Scraper.LaterTiersIgnored | scraper.py:71-73 | with a "text snow" tag present, the other tiers are never read |
| Scraper.HighSnowTier | scraper.py:74-77 | without a "text snow" tag, a "text highsnow" string is stored whatever "text nosnow" holds |
| Scraper.NoSnowTier | scraper.py:78-80 | with neither of the first two tags, the "text nosnow" string is stored, or the extraction raises |
| Scraper.FoundTagWithoutStringRaises | scraper.py:71-73 | a found "text snow" tag without a string raises instead of falling back |
| Scraper.ExtractFails | scraper.py:68-80 | extraction succeeds exactly when every block has a name and a string in its chosen tier, and otherwise raises AttributeError |
| Scraper.ExtractRaisesIff | scraper.py:68-80 | extraction raises exactly when some block lacks a name or a string in its chosen tier |
| Scraper.ExtractDict | scraper.py:64-80 | on success the dictionary is the stores of every block's (name, chosen forecast) |
| Scraper.ExtractedDict | scraper.py:64-80 | the dictionary holds exactly the stored names, in first-seen order, each with the value from its last block |
| Scraper.PlainLinesAt | scraper.py:82-83 | one `name: value` line per entry, in dictionary order |
| Scraper.ParseData | scraper.py:59-83 | the loop with its three-tier fallback, filling a `PyDict`, raises what extraction raises or prints the extracted dictionary's lines |
| Scraper.PrintPlain | scraper.py:82-83 | printing the dictionary appends its lines, one per entry in order |
| Scraper.Run | scraper.py:85-106 | as in variant A, with the same four endings of a fetch, but the state is printed before the URL and the output is the plain lines; every ending but completion prints only the state and the URL |

## Left out

- The HTTP request, streaming and connection closing are not modelled. The
  network is a function from URL to status, Content-Type header and body.
- The `except RequestException` branch is not modelled. Its message names
  the undefined variable `url`, so it would raise NameError.
- BeautifulSoup parsing, `find_all` and class matching are not modelled. A
  page is given directly as its sequence of resort blocks, and each lookup
  as a missing tag or a found tag with an optional string.
- `BeautifulSoup(None)` after a failed check is not modelled. A run whose
  response fails the check ends as `NoContent`.
- The usage text, `print` and `sys.exit` are not modelled as I/O. A run
  yields its printed strings and how it ended.
- `log_error` is not modelled, because only the unmodelled
  `RequestException` branch calls it.
- Fetch.CheckResponse: `str.lower` is modelled for ASCII letters only, and
  the header-name lookup is taken as already done. The header is given as
  an optional value.
- Fetch.CheckResponse: the `content_type is not None` test is not modelled.
  It always holds once the header lookup has succeeded.
