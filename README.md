# trc.audit report routing and tables, in Dafny

trc.audit is a browser plugin that shows the audit trail of a TRC sheet. It shows what canvassers uploaded, when they did it, and how long they were active. This project models its core. That core is the routing and table engine in `src/mode.ts` and `src/pluginmain.ts`.

- **Modes and the hash protocol** (`modes.dfy`, `keys.dfy`, `jstext.dfy`).
  - A report ("mode") is written to the URL hash as `show=<kind>;key=value;…`. `Mode.parse` reads it back.
  - The model proves that every well-formed mode survives the round trip, `Parse(ToHash(m)) == Ok(m)`.
  - `parse` accepts exactly the six listed kinds and fails with `"Unidentified mode: " + kind` for anything else.
  - The mode catalogue (`ModeDescr`) is modelled with `lookup` and the visibility rules of the three filter groups.
  - The key parser, the change-list filter and JavaScript's `String(n)` and `parseInt` are modelled concretely. The round trips rest on them.
- **Navigation** (`navigation.dfy`).
  - The plugin is a class whose fields are the hash, the filter inputs, the visibility of the filter groups, the description text, the query text, the rendered mode and the error.
  - `OnApplyFilter` builds the hash from the inputs. The model proves that parsing that hash gives back the mode and filter the inputs name.
  - `showCurrentHash` has three outcomes.
    - A hash that does not parse: the old page stays and the parse error is reported.
    - A mode that renders: its report is shown.
    - A mode whose render throws: the output has already been emptied, and the render's error is reported.
  - An empty hash becomes `show=daily`.
  - What a render throws depends on the change list. It is a parameter of the plugin, `renderError`.
  - `showInternal` brings the inputs and groups in line with the mode. `show` writes a mode's hash.
- **The table writer** (`table.dfy`).
  - The first row fixes the columns: either the explicit list or the row's own property names. A header line is written once.
  - Each row becomes one cell per column. A cell is blank for a falsy value, a button for a clickable value and text otherwise.
- **The session list** (`sessions.dfy`).
  - It writes one row per cluster of each user, with the time and distance gap since that user's previous cluster.
  - A `Total` row follows. The model proves its sums equal the sums over all clusters.
- **The daily report** (`daily.dfy`, `dates.dfy`).
  - Clusters are bucketed by user and local day (`YYYYMMDD`) into `DailyX` cells, which are updated in place.
  - Days are sorted. One row is written per user, then a `TOTAL` row.
  - The model proves:
    - each cell holds the summed duration of exactly the clusters that fall on it;
    - the grand total is both the sum of the row totals and the sum of the column totals;
    - the grand total is within half a minute per cell of the real active time;
    - every cell's link parses back to its session list.
- **The response summary** (`responses.dfy`, `sums.dfy`).
  - `Responses.Build` builds a histogram of the answers per question in place.
  - Each panel lists the answers with their counts and a `TOTAL`. The model proves each count is the number of times that answer occurs, and the total is the number of answers to the question.

Browser effects are modelled as the state they change:
- The DOM elements the code writes become fields of the plugin class or entries of a table writer's `table`.
- `window.location.hash` is the plugin's `hash` field.
- Thrown exceptions are results (`Result`, or a `thrown` flag).

Date formatting (`toISOString`, `toLocaleString`, `toDateString`, `toLocaleTimeString`, `prettyPrintSeconds`) and the geographic distance are function parameters (`Formats`, `toIso`, `toLocale`).

## Model

| member | source | states |
|---|---|---|
| Dates.SortableDayDecodes | src/mode.ts:42-47 | the `YYYYMMDD` day number of a valid date decodes back to its year, month and day |
| Dates.SortableDayInjective | src/mode.ts:42-47 | two valid dates get the same day number exactly when they fall on the same day |
| Dates.SortableDayOrder | src/mode.ts:42-47 | day numbers order valid dates as the calendar does |
| Dates.LocalStartDay | src/mode.ts:50-57 | the start of the local day is the same calendar day at time 0, and it is a valid date when the input is |
| Dates.LocalStartDayIdempotent | src/mode.ts:50-57 | rounding to the start of the day twice is rounding once, and it keeps the day number |
| Dates.LastMsOfDay | src/mode.ts:510 | `start + 86400000 - 1` is the same day and exactly one millisecond short of a day after its start |
| Dates.RoundMinutes | src/mode.ts:461 | `Math.round(ms/60000)`: the nearest whole minute, a tie going toward positive infinity |
| JsText.ParseIntOfIntToString | src/mode.ts:160 | `parseInt(String(i)) == i` for every integer |
| JsText.ParseIntOfNumberToString | src/mode.ts:160 | `parseInt` of the text written for a version (a number or NaN) gives that version back |
| JsText.SplitJoin | src/mode.ts:153 | splitting a `;`-joined list of `;`-free parts gives back the parts |
| Keys.Entry | src/mode.ts:153 | a segment yields a key and value exactly when it contains `=` |
| Keys.EntryOfPair | src/mode.ts:153 | the segment `k=v` yields the pair `(k, v)` for a lower-case key |
| Keys.FoldPresent | src/mode.ts:153-158 | parsing the present `key=value` segments sets each listed key to its value, keeps the previous value for absent ones, and leaves unlisted keys alone |
| Keys.KeyParseValuesNoSemicolon | src/mode.ts:153 | no parsed value contains `;` |
| Keys.KeyParseTagged | src/mode.ts:153-158 | parsing `show=kind;` plus a filter's text gives the kind under `show` and the same filter back |
| Keys.KeyParseSingle | src/mode.ts:153 | parsing a single pair gives the one-entry dictionary |
| Keys.NoPresentMeansNoFilter | src/mode.ts:552 | a filter that writes no segment is the empty filter |
| Modes.LookupIn | src/mode.ts:120-127 | the lookup finds an entry exactly when the list holds one with that hash name, and returns it |
| Modes.Lookup | src/mode.ts:111-127 | `ModeDescr.lookup` succeeds exactly for the six listed names |
| Modes.KindListed | src/mode.ts:132-140 | every mode's kind is listed; only `delta` uses the version input, and every other kind uses users and time range |
| Modes.ParseKeys | src/mode.ts:158-186 | parse succeeds exactly when `show` names a listed kind; it fails with `"Unidentified mode: "` plus the kind; delta reads `parseInt(ver)`, the others the filter |
| Modes.ParseDeltaHash | src/mode.ts:215-217 | `parse("show=delta;ver=" + ver)` is the same delta, NaN included |
| Modes.ParseFilterHash | src/mode.ts:405-407 | every filtered mode with `;`-free filter values parses back from its hash |
| Modes.ParseToHash | src/mode.ts:150-187 | `parse(m.toHash())` is `m` for every well-formed mode |
| Modes.ParsedModeWellFormed | src/mode.ts:150-187 | every mode parse returns round-trips again |
| Modes.ListedNamesParse | src/mode.ts:111-118 | `show=<name>` parses to a mode of that kind for each of the six listed names |
| Table.Property | src/mode.ts:295 | reading a row property gives the first field of that name, or undefined |
| Table.CellOf | src/mode.ts:292-309 | a cell is blank exactly for a falsy value, a button exactly for a clickable value (showing its text and leading to its mode), text otherwise |
| Table.SchemaFixed | src/mode.ts:279-281 | the columns are fixed by the first row: explicit names, or that row's property names |
| Table.RenderedShape | src/mode.ts:270-314 | a table of n rows has a header line then n lines, each with one cell per column |
| Table.HeaderLine | src/mode.ts:283-287 | the header line has one cell per column name |
| Table.RowLine | src/mode.ts:290-310 | a row line has one cell per column, taken from the row's property of that name |
| Table.TableWriter.constructor | src/mode.ts:263-268 | a new writer has no rows and keeps the optional column list |
| Table.TableWriter.WriteRow | src/mode.ts:270-314 | the first write fixes the columns and adds the header; every write appends the row's line and counts the row |
| Sessions.SessionGaps | src/mode.ts:453-482 | a cluster's gap is NaN for a user's first cluster and otherwise the rounded minutes since the previous end; the distance gap exists exactly when the previous cluster has an end location; the minutes are the rounded duration |
| Sessions.UserSums | src/mode.ts:484-487 | summing the rows of one user's clusters adds exactly those clusters' counts, distance and minutes |
| Sessions.TotalsOfAllClusters | src/mode.ts:419-495 | the Total row sums the voters, households, distance and rounded minutes of every cluster of every user |
| Sessions.SessionTableColumns | src/mode.ts:279-281 | the session table's columns are the SessionRow properties, or the Total row's when there are no sessions |
| Sessions.BuildRow | src/mode.ts:434-482 | the row built from the last location and time equals the row defined by the previous cluster |
| Sessions.WriteUser | src/mode.ts:426-491 | one user's clusters are written as their rows in order, and their sums are added to the totals |
| Sessions.RenderSessionList | src/mode.ts:409-496 | the table holds every cluster's row, user after user, followed by the Total row of all their sums |
| Daily.DailyCellsTally | src/mode.ts:563-581 | each (user, day) cell holds the summed duration of the clusters bucketed to it |
| Daily.DailyCellsStart | src/mode.ts:570-576 | each cell's range starts at midnight of its own day |
| Daily.DailyConservation | src/mode.ts:563-581 | over distinct users and days that cover all cells, the cells add up to the total duration of all clusters |
| Daily.RowsEqualColumns | src/mode.ts:602-639 | summing the grid row by row gives the same as summing it column by column |
| Daily.GridSumIsSumOver | src/mode.ts:602-629 | the row-by-row sum is the sum over the user-by-day grid |
| Daily.SortDays | src/mode.ts:588-589 | the sorted days are increasing and are exactly the days found |
| Daily.InsertDay | src/mode.ts:589 | inserting a new day into an increasing list keeps it increasing and adds just that day |
| Daily.DailyX.constructor | src/mode.ts:506-512 | a cell starts at midnight of its day, ends at the last millisecond of it, and holds nothing |
| Daily.DailyX.Build | src/mode.ts:522-524 | building adds the cluster's duration |
| Daily.Visit | src/mode.ts:574-579 | after a cluster the cells mirror the tally of the clusters seen, with the cluster's key added |
| Daily.BucketUser | src/mode.ts:564-581 | one user's clusters update the cells, users and days seen so far |
| Daily.BucketClusters | src/mode.ts:561-589 | the cells mirror the tally of all clusters; users are distinct and are exactly the users seen; days are increasing and are exactly the days seen |
| Daily.DayNames | src/mode.ts:591-592 | no day column is named `User` or `Total`, and different days give different column names |
| Daily.UserLineShows | src/mode.ts:602-628 | a user's line shows the user, each day's minutes as a link (or blank), and the user's total |
| Daily.TotalLineShows | src/mode.ts:632-639 | the TOTAL line shows each day's total and the grand total |
| Daily.GrandTotalAgrees | src/mode.ts:617-638 | the grand total equals both the sum of the user totals and the sum of the day totals |
| Daily.DayValue | src/mode.ts:608-615 | a missing cell counts 0 and shows blank; an existing one counts its rounded minutes and links to its sessions |
| Daily.UserLine | src/mode.ts:602-629 | one user's row, total, the running per-day totals and the grand total are those of the cells |
| Daily.ZeroTotals | src/mode.ts:599 | every day's running total starts at 0 |
| Daily.TotalLine | src/mode.ts:632-638 | the final row holds the per-day totals and the grand total |
| Daily.RenderDaily | src/mode.ts:594-639 | the table has the day columns, one row per user, then the TOTAL row; the grand total is the sum over the grid |
| Daily.RenderDailyReport | src/mode.ts:555-640 | the daily report of a set of clusters is the table of their day cells over the users and sorted days found |
| Daily.DailyCovers | src/mode.ts:587-639 | the users and days of the report cover every cell, so the rows hold the total duration of all clusters |
| Daily.CellLinkRoundTrip | src/mode.ts:515-520 | a cell's link, the session list of that user and day, parses back from its hash |
| Daily.RoundingBound | src/mode.ts:526-528 | summing rounded minutes is within half a minute per cell of the summed durations |
| Daily.GrandTotalNearActiveTime | src/mode.ts:596-638 | the grand total in minutes is within half a minute per cell of the total active time |
| ResponseSummary.HistogramsTally | src/mode.ts:654-676 | the histograms are keyed by exactly the questions answered, and each is the tally of that question's answers |
| ResponseSummary.WeightIsOccurrences | src/mode.ts:667-672 | an answer's weight in a question's tally is the number of times that (question, answer) pair occurs |
| ResponseSummary.CountsAreOccurrences | src/mode.ts:667-672 | every count is the number of times the answer was given to the question, and it is at least 1 |
| ResponseSummary.PanelTotalCountsAnswers | src/mode.ts:754-766 | a panel's TOTAL is the number of answers given to its question |
| ResponseSummary.Responses.constructor | src/mode.ts:662-663 | a new histogram carries its question's name and no counts |
| ResponseSummary.Count | src/mode.ts:660-672 | one answer creates the question's histogram if needed and adds one to the answer's count |
| ResponseSummary.CountItem | src/mode.ts:657-673 | counting one item's answers brings the histograms up to that item |
| ResponseSummary.Build | src/mode.ts:654-676 | the histograms built mirror the tally of all answers of all items |
| ResponseSummary.RenderPanel | src/mode.ts:752-766 | a panel lists every answer once with its count, followed by TOTAL with their sum |
| ResponseSummary.RenderResponseSummary | src/mode.ts:734-770 | there is one panel per question answered, and each shows that question's counts and the number of its answers |
| Navigation.HashKeys | src/pluginmain.ts:227-263 | the parsed hash of a mode holds its kind, version, user and date range |
| Navigation.InputsOfHash | src/pluginmain.ts:226-265 | the inputs filled from a mode's hash are those of the mode |
| Navigation.AppendXSegment | src/pluginmain.ts:68-74 | `appendX` adds `;name=value` exactly when the value is non-empty |
| Navigation.AppendDateSegment | src/pluginmain.ts:59-67 | `appendDate` adds `;name=<ISO date>` for a non-empty value, and fails exactly when the date is invalid |
| Navigation.ApplySegmentsPresent | src/pluginmain.ts:82-86 | the Apply hash is `show=mode` followed by the present filter segments |
| Navigation.AppliedDictionary | src/pluginmain.ts:82-86 | the parsed Apply hash holds the mode, version, user and dates entered, and nothing else |
| Navigation.AppliedHashParses | src/pluginmain.ts:76-94 | the Apply hash parses exactly when the picked mode is listed, into that kind with the version (delta) or the filter built from the inputs |
| Navigation.Plugin.constructor | src/pluginmain.ts:55-57 | the plugin starts from the given page state and render outcome, with nothing rendered and no error |
| Navigation.Plugin.UpdateFilters | src/pluginmain.ts:96-119 | only `delta` shows the version group; every other listed kind shows users and range; an unlisted kind throws with all groups hidden |
| Navigation.Plugin.OnApplyFilter | src/pluginmain.ts:76-94 | the hash becomes the Apply hash, or the error is shown and the hash is kept |
| Navigation.Plugin.Show | src/pluginmain.ts:202-212 | showing a mode writes its hash |
| Navigation.Plugin.SetInputs | src/pluginmain.ts:233-264 | each filter input is filled from its key when it is truthy, and cleared otherwise |
| Navigation.Plugin.SetDescription | src/pluginmain.ts:268-269 | the description shown is the mode's |
| Navigation.Plugin.ShowInternal | src/pluginmain.ts:214-279 | the query text is the hash, and the picker shows its kind. The inputs and groups follow the mode, and the description is the mode's. The output is emptied, then holds the mode's report, or nothing if the render throws. If updateFilters throws, nothing after it changes. |
| Navigation.Plugin.ShowCurrentHash | src/pluginmain.ts:180-199 | an empty hash becomes `show=daily`. A hash that does not parse shows its error and keeps the page. One that parses renders that mode; if its render throws, the emptied page stays and the render's error is shown. |
| Navigation.Plugin.FollowLink | src/pluginmain.ts:276 | clicking a link writes its mode's hash. The hash change renders exactly that mode, or shows the error its render throws. |
| Navigation.DefaultHashParses | src/pluginmain.ts:182-186 | the default hash parses to the unfiltered daily report |

## Notes on the code

- `Math.round` rounds a half up, toward positive infinity, not away from zero. `Dates.RoundMinutes` follows that.
- `Mode.parse` (src/mode.ts:158-185) accepts only the six kinds it tests. Any other `show` value, or none, throws `"Unidentified mode: " + kind`. For a missing key this prints `undefined`, as `Modes.ShowText` does.
- `updateFilters` (src/pluginmain.ts:106-107) calls `useTimeRange` on the result of `lookup` without a check. For an unlisted name, such as the `undefined` a missing `show` leaves in the picker, this throws a TypeError after all three groups have been hidden. `Plugin.UpdateFilters` returns `thrown` in that case. In `ShowInternal` the throw stops the page update before the description and the rendering. In `ShowCurrentHash` it cannot happen, because `parse` only returns listed kinds.
- The date filters written by `OnApplyFilter` go through `new Date(val).toISOString()`. For an invalid date this throws a RangeError, which `OnApplyFilter` catches and shows.

## Left out

- External libraries are not part of this model's sources:
  - the analytics library's `KeyParser`, `NormChangeListFilter` and `ChangelistFilter`;
  - the clustering and the householder.
- `KeyParser` and the two filters are modelled concretely:
  - segments split on `;`; a key is the lower-cased text before the first `=`; a later segment wins;
  - one `Filter` record with the seven keys stands for both filter classes;
  - filter values are taken to hold no `;`, which the round-trip lemmas require.
- Clusters are given as their time range, counts, distance and end locations. How they are computed is not modelled.
- `MapHelper` (src/mode.ts:317-385) is not modelled. It draws on a Google map with a random color per user, and it affects no table.
- The render bodies of `ShowDelta`, `ShowDeltaRange` and `ShowFlattenToRecId` are not modelled. They print JSON and hand off to an external sheet renderer. Only their hashes, descriptions and parsing are modelled.
- The "Individual Answers" table of the normalised-range report (src/mode.ts:773-819) is not modelled. It formats raw deltas and JSON.
- Date formatting, ISO conversion and the geographic distance are function parameters, not definitions:
  - `toISOString`, `toLocaleString`, `toDateString`, `toLocaleTimeString`, `prettyPrintSeconds`;
  - `getDistanceFromLatLonInKm`.
- Time zones and daylight-saving time are not modelled. A date is its local wall-clock reading, and every local day is 86400000 ms long.
- Durations are in milliseconds. The code's `getDurationSeconds() / 60` equals `ms / 60000`, and that is what is rounded.
- `decodeURIComponent` in `showCurrentHash` is treated as the identity. Its URIError on a malformed escape, thrown outside the `try`, is not modelled.
- `InitAsync` and `BrowserEntryAsync` are not modelled: the network calls, the sheet information, building the mode picker, and installing the `hashchange` handler.
  - `Plugin.FollowLink` stands for a hash change arriving after `show`.
  - The constructor takes the initial page state as parameters.
- Plugin.ShowInternal: a render that throws part-way may already have written some of its report. The model does not keep that partial output; `rendered` is then None. Which renders throw is the `renderError` parameter, not derived from the change list.
- Daily.SortDays: `days.sort()` sorts the day numbers' strings. The model sorts the numbers, which gives the same order for four-digit years.
- `totalsPerUser` in the daily report (src/mode.ts:597-625) is written but never read, so it is not modelled.
- Dictionary iteration order (`Dict.forEach`, `getKey1s`) is taken to be first-insertion order. The response panels list their answers in an unspecified order `order`, fixed by the histogram.
- JavaScript numbers are modelled as unbounded integers and reals, and `ver` is an optional integer (None stands for NaN). Floating-point rounding of the distance sums is not modelled.
- `parseInt` is modelled for an optional sign followed by decimal digits. Leading whitespace and `0x` prefixes are not modelled.
- Keys.SetTimeRange takes the ISO texts of the range's two ends, as `Formats` supplies them. How the filter class converts a time range to text is not modelled.
