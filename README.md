# EPDS map page and scrapers, modelled in Dafny

This project models the deterministic core of the EPDS tools and proves what they promise.

- **The map page** (`map/map.js`):
  - The `MapView` class holds the page's state:
    - the ordered layers on the map;
    - the display mode `MAPMODE`;
    - the draw mode `drawMode`, with the `draw` interaction it attaches;
    - the drawing source;
    - the coordinate jump, whose animation callback forces the mode to `all_data` and loads the layers.
  - Pure functions model:
    - the WFS GetFeature URL each data layer asks for;
    - the hover tooltips (`getFeatureString` and the `pointermove` popup);
    - the readable layer names;
    - the data-table filter (`dataTable`);
    - the HTML table of one layer (`arrayToTable`).
- **The Natural Resources Wales felling-licence scraper** (`scrapers/nrwales.py`):
  - The last-updated stamp is rewritten from `%Y-%m-%dT%H:%M:%SZ` to `%Y-%m-%d %H:%M:%S`.
  - The table rows that have cells are collected, each with the stamp appended.
  - `normalise` maps each row onto an application record.
- **The PlanIt bulk downloader** (`scrapers/planit.py`):
  - `do_scrape` makes one GET, and one retry after a 400.
  - The top-level loop goes back one day at a time over `365*15` days. For each day it asks for page 1, then page k (2..5) when the day's total exceeds `3000*(k-1)`. It stops with an exception above 15000.

Modules, one per file:

| file | module | holds |
|---|---|---|
| `wrappers.dfy` | `Wrappers` | `Option` and `Result` |
| `text.dfy` | `Text` | the JavaScript and Python string operations used: `join`, `split`, `trim`, first-letter upper-casing, decimal renderings |
| `calendar.dfy` | `Calendar` | the parts of Python's `datetime` used: `strptime` for the two parsed formats, `strftime`/`isoformat`, `date - timedelta(days=n)` |
| `map_view.dfy` | `MapView` | the map's layers, the URL builder, and the class `MapView` with the event handlers |
| `map_text.dfy` | `MapText` | tooltips, popup, readable names, data table, table HTML |
| `nrwales.dfy` | `NrWales` | the felling-licence scraper |
| `planit.dfy` | `Planit` | the PlanIt downloader |

Inputs the programs get from outside are parameters of the model:

- **map.js**:
  - the feature-server host, from the environment;
  - the extent of a drawn sketch or of the view;
  - the text typed in the coordinate box;
  - the `lat` and `lng` query parameters of the page address, as `URLSearchParams.get` returns them (None when absent);
  - the properties of the features under the pointer or on a layer.
- **nrwales.py**:
  - whether the HTTP response was ok;
  - the text of the `gmtLastUpdated` element;
  - the cell texts of each table row;
  - today's date.
- **planit.py**:
  - the clock, read once per pass of the day loop (`Planit.Clock`: the day each pass reads as today);
  - an oracle `fetch(days, page, attempt)` giving the answer to each request: its status, and a body that is not JSON, JSON with a "total", or JSON without one.

Numbers in an extent are kept as the strings the page writes them as.

Loading a mode adds its data layers on top of those already on the map: `getLayers` never removes earlier data layers, so loading the same mode again leaves two copies of each of its layers. The model keeps this (`MapView.LoadAccumulates`, `MapView.RepeatedLoadsAccumulate`).

## Model

| member | source | states |
|---|---|---|
| Text.IndexOf | map/map.js:203 | the index found is an occurrence of the separator at or after the start, and no earlier position there is one; none when there is no occurrence |
| Text.Split | map/map.js:203 | splitting yields at least one piece |
| Text.SplitLimit | map/map.js:203 | `split(sep, limit)` gives the first `min(limit, count)` pieces of the unlimited split |
| Text.JoinSplit | map/map.js:203 | joining the pieces of a split with the separator gives back the original string |
| Text.SplitPiecesFree | map/map.js:203 | no piece of a split contains the separator |
| Text.SplitSecondPiece | map/map.js:203 | the second piece of a split ends at the end of the string or at the next separator |
| Text.SplitJoin | map/map.js:29-39 | splitting on a one-character separator undoes joining with it when no piece holds that character |
| Text.TrimStart | map/map.js:202 | the result is the suffix left after removing the longest all-white-space prefix, and it does not start with white space |
| Text.TrimEnd | map/map.js:202 | the result is the prefix left after removing the longest all-white-space suffix, and it does not end with white space |
| Text.Trim | map/map.js:202 | a trimmed string neither starts nor ends with white space |
| Text.TrimPadded | map/map.js:202 | trimming removes exactly the surrounding white space: any padding of a string without white space at its ends trims back to it |
| Text.TrimIdempotent | map/map.js:202 | trimming twice is trimming once |
| Text.CapitaliseFirst | map/map.js:238 | same length; a lower-case ASCII first letter becomes the matching upper-case letter, and the rest is unchanged; a string not starting with a lower-case letter is unchanged |
| Text.ValueOf | scrapers/nrwales.py:84 | the value of a digit string is below 10 to the power of its length |
| Text.PadDigits | scrapers/nrwales.py:85 | `%0<w>d` gives exactly `w` digits |
| Text.NatToString | scrapers/planit.py:8 | `str(n)` is a non-empty digit string |
| Text.ValueOfPadDigits | scrapers/nrwales.py:84-85 | reading back a zero-padded rendering of a number that fits gives the number |
| Text.ValueOfNatToString | scrapers/planit.py:8 | reading back `str(n)` gives `n` |
| Text.PadDigitsInjective | scrapers/nrwales.py:85 | distinct numbers that fit have distinct zero-padded renderings |
| Calendar.DaysInMonth | scrapers/planit.py:26 | every month has 28 to 31 days |
| Calendar.IsoDate | scrapers/planit.py:26 | `str(date)` is ten characters, with '-' at positions 4 and 7 |
| Calendar.DayMonthYear | scrapers/nrwales.py:84 | `dd/mm/YYYY` is ten characters, with '/' at positions 2 and 5 |
| Calendar.IsoStampZ | scrapers/nrwales.py:31 | `%Y-%m-%dT%H:%M:%SZ` is twenty characters |
| Calendar.SpacedStamp | scrapers/nrwales.py:32 | `%Y-%m-%d %H:%M:%S` is nineteen characters |
| Calendar.DigitRun | scrapers/nrwales.py:31 | counts exactly the leading ASCII digits |
| Calendar.NumberField | scrapers/nrwales.py:84 | a numeric directive's value lies in its range and consumes at least one character |
| Calendar.DayField | scrapers/nrwales.py:84 | `%d` reads a day from 1 to 31 |
| Calendar.YearField | scrapers/nrwales.py:84 | `%Y` reads a year of at most four digits |
| Calendar.ParseDayMonthYear | scrapers/nrwales.py:84 | `strptime(s, "%d/%m/%Y")` succeeds only with a valid date; which texts parse, and to what, is stated by ParseDayMonthYearExactly |
| Calendar.ParseIsoStampZ | scrapers/nrwales.py:31 | `strptime(s, "%Y-%m-%dT%H:%M:%SZ")` succeeds only with a valid date and time; which texts parse, and to what, is stated by ParseIsoStampZExactly |
| Calendar.ParseDayMonthYearSound | scrapers/nrwales.py:84 | a successful parse consumed the whole text, and the text is the returned date's day, '/', month, '/', year, each spelled as `%d`, `%m` and `%Y` match it |
| Calendar.ParseDayMonthYearComplete | scrapers/nrwales.py:84 | every such spelling of a valid date parses to that date: one or two digits for day and month, or a space and a digit for the day, and four digits for the year |
| Calendar.ParseDayMonthYearExactly | scrapers/nrwales.py:84 | the parse returns `d` if and only if `d` is a valid date and the text spells it in the format, with nothing before or after |
| Calendar.ParseDayMonthYearFails | scrapers/nrwales.py:84 | the parse fails (ValueError) exactly when the text spells no valid date in the format |
| Calendar.ParseIsoStampZSound | scrapers/nrwales.py:31 | a successful parse consumed the whole text, and the text is the returned timestamp's fields with '-', 'T' or 't', ':' and 'Z' or 'z' between them |
| Calendar.ParseIsoStampZComplete | scrapers/nrwales.py:31 | every such spelling of a valid timestamp parses to that timestamp |
| Calendar.ParseIsoStampZExactly | scrapers/nrwales.py:31 | the parse returns `t` if and only if `t` is a valid timestamp and the text spells it in the format, with nothing before or after |
| Calendar.ParseIsoStampZFails | scrapers/nrwales.py:31 | the parse fails (ValueError) exactly when the text spells no valid timestamp in the format |
| Calendar.DayMonthYearRoundTrip | scrapers/nrwales.py:84-85 | every valid date written `dd/mm/YYYY` parses back to itself |
| Calendar.IsoStampZRoundTrip | scrapers/nrwales.py:31 | every valid timestamp written `%Y-%m-%dT%H:%M:%SZ` parses back to itself |
| Calendar.SpacedStampOfIsoStampZ | scrapers/nrwales.py:31-32 | the spaced form is the ISO form with 'T' replaced by a space and the final 'Z' dropped |
| Calendar.IsoDateInjective | scrapers/planit.py:26 | different valid dates have different ISO renderings |
| Calendar.PrevDay | scrapers/planit.py:26 | the day before is a valid, earlier date; there is none exactly for 0001-01-01 (OverflowError) |
| Calendar.PrevDayAdjacent | scrapers/planit.py:26 | no valid date lies strictly between a date and the day before it, and none lies before 0001-01-01 |
| Calendar.DaysBefore | scrapers/planit.py:26 | `today - timedelta(days=n)`, when it exists, is a valid date |
| Calendar.DaysBeforeDecreasing | scrapers/planit.py:25-26 | going back more days gives a strictly earlier date, and the nearer date exists too |
| Calendar.DaysBeforeDistinct | scrapers/planit.py:25-26 | different day offsets give different dates and different date strings |
| MapView.FeatureUrlIsQuery | map/map.js:29-39 | the URL is the endpoint followed by the six GetFeature parameters joined with '&' |
| MapView.FeatureUrlQuery | map/map.js:29-39 | the URL's query splits on '&' into exactly the six parameters; the fourth is `typename=EPDS:<layer>`; the bbox splits on ',' into the extent's coordinates followed by `EPSG:3857` |
| MapView.QueryPiecesFree | map/map.js:31-38 | no GetFeature parameter holds '&' when the type name and coordinates do not |
| MapView.BoxSplits | map/map.js:37-38 | the bbox value splits on ',' into the extent followed by the projection |
| MapView.ModeLayers | map/map.js:140-152 | the layers added are, in order, one data layer per name of the mode, each asking for its own feature type within the extent |
| MapView.Names | map/map.js:140-154 | one name per layer |
| MapView.WithoutDraw | map/map.js:153 | removing the drawing layer leaves no drawing layer and every other name as often as before |
| MapView.WithoutDrawAppend | map/map.js:153 | removing the drawing layer from two stretches of layers removes it from each |
| MapView.LoadedLayers | map/map.js:140-154 | `getLayers` keeps all earlier layers but the drawing layer, then appends exactly [reserves, tpo], [solr, sssi], [sssi, reserves, solr, tpo] or nothing, depending on the mode |
| MapView.LoadAccumulates | map/map.js:140-154 | afterwards the drawing layer is gone and each other name occurs as often as before plus its occurrences among the mode's layers: same-named layers accumulate |
| MapView.LoadedSources | map/map.js:26-43 | every layer `getLayers` adds is a data layer whose source URL asks for its own feature type within the given extent |
| MapView.RepeatedLoadsAccumulate | map/map.js:185-190 | `k` loads in one mode leave `k` more copies of each of the mode's data layers |
| MapView.InitialLayersWithoutDraw | map/map.js:121-138 | the fresh page without its drawing layer is the tile layer alone |
| MapView.RemoveFirst | map/map.js:189 | removing an attached interaction drops exactly one entry; removing one that is not attached changes nothing; nothing new appears |
| MapView.RemoveFirstAt | map/map.js:189 | removing an attached interaction cuts out exactly its first occurrence and keeps the other entries in order |
| MapView.MapView.constructor | map/map.js:121-332 | page load: the tile and drawing layers, mode "trees_reserves", draw mode "none" and no interaction (lines 121-138; the initial `addInteraction()` at line 218 does nothing); at the end (lines 323-332) a page whose address has non-empty `lat` and `lng` starts its jump to those two values with one animation pending, and otherwise no jump is pending |
| MapView.MapView.LoadLayers | map/map.js:140-154 | the layers become those of `getLayers` in the current mode: the old ones without the drawing layer, then the mode's layers |
| MapView.MapView.SelectMode | map/map.js:157-159 | selecting a mode changes only `MAPMODE` and loads nothing |
| MapView.MapView.AddInteraction | map/map.js:170-193 | nothing happens in draw mode "none"; otherwise a new Draw is created and attached, of kind "Circle" with a box geometry when the mode was "box" |
| MapView.MapView.BoxDrawClicked | map/map.js:195-199 | the box button detaches the current Draw, sets "box", and ends in "Circle" with one fresh box Draw attached |
| MapView.MapView.DrawStarted | map/map.js:182-184 | starting a sketch clears the drawing source |
| MapView.MapView.DrawEnded | map/map.js:185-190 | ending a sketch loads the layers for its extent in the current mode, resets the draw mode to "none" and detaches the Draw |
| MapView.MapView.SubmitLatLng | map/map.js:201-208 | the jump's target is the trimmed input split on ", " into at most two parts, and one more animation is pending |
| MapView.MapView.ZoomToCoords | map/map.js:210-211 | a jump records its target and starts one animation |
| MapView.MapView.AnimationEnded | map/map.js:211-215 | the animation callback sets the mode to "all_data" and then loads the layers for the view's extent |
| MapView.LatLngParts | map/map.js:202-203 | the coordinate text becomes one or two parts without ", "; one part exactly when the trimmed text has no ", ", and then it is the whole text; with two, "first, second" starts the trimmed text and is either all of it or followed by the next ", " |
| MapView.LoadOnFreshPage | map/map.js:121-154 | loading on a fresh page leaves the tile layer followed by exactly the mode's layers |
| MapView.LoadAllOnFreshPage | map/map.js:210-215 | loading "all_data" on a fresh page leaves osm, sssi, reserves, solr, tpo |
| MapView.DrawBoxAfterSelecting | map/map.js:157-199 | selecting a mode and drawing one box on a fresh page leaves the tile layer and the mode's layers, draw mode "none" and no Draw attached |
| MapView.JumpAfterSelecting | map/map.js:201-216 | a coordinate jump on a fresh page ends in mode "all_data" with all four data layers, whatever mode was selected |
| MapView.OpenDeepLink | map/map.js:323-332 | a page opened with non-empty `lat` and `lng` jumps to those two values, and when its animation ends it is in mode "all_data" with all four data layers |
| MapText.FeatureString | map/map.js:229-241 | undefined exactly for layers other than the four data layers; a TypeError exactly for an SSSI feature without a country; otherwise the layer's fixed prefix followed by the property, the SSSI country with only its first character upper-cased |
| MapText.CapitalCountryUnchanged | map/map.js:236-239 | a country already starting with a capital is shown unchanged |
| MapText.PopupEntries | map/map.js:243-256 | two popup entries per hit on a layer |
| MapText.PopupEntriesText | map/map.js:243-256 | the entries are, for each hit on a layer in the order met, its tooltip (`""` when the tooltip is undefined) followed by `<br>` |
| MapText.LayerHits | map/map.js:246-253 | a hit is collected exactly when it is on a layer, and no more than all hits are |
| MapText.LayerHitsAppend | map/map.js:246-253 | the hits are collected in the order they are met: collecting over two runs of hits gives the first run's, then the second's |
| MapText.PointerMoveOutcome | map/map.js:243-263 | the handler throws exactly when an SSSI feature without a country is hit; otherwise the popup is hidden exactly when no hit is on a layer |
| MapText.PopupEntriesThrow | map/map.js:246-253 | building the entries fails exactly when some hit is an SSSI feature without a country |
| MapText.LayerHitsEmpty | map/map.js:246-253 | no feature is collected exactly when no hit is on a layer |
| MapText.ReadableLayerName | map/map.js:284-286 | a non-empty heading for each of the four data layers, which are the only names the page passes; undefined for every other name the model covers |
| MapText.ReadableNamesDistinct | map/map.js:284-286 | different data layers get different headings |
| MapText.DataTable | map/map.js:267-273 | the kept layers are layers of the map with one of the four data-layer names |
| MapText.DataTableAppend | map/map.js:269-271 | the filter keeps map order: filtering two stretches is filtering each, in order |
| MapText.DataTableCounts | map/map.js:269-271 | each data layer keeps all its entries; every other layer keeps none |
| MapText.Without | map/map.js:291-294 | exactly the elements not in the given set remain |
| MapText.Dedup | map/map.js:291-294 | the same elements, each once |
| MapText.AddKeysDedup | map/map.js:291-294 | adding keys to the insertion-ordered set appends the new ones in first-occurrence order |
| MapText.ColumnKeysFirstOccurrence | map/map.js:288-294 | the columns are the rows' keys in first-occurrence order, each once, and exactly the keys of some row |
| MapText.TagEach | map/map.js:296-297 | one tagged cell per item |
| MapText.CellValues | map/map.js:297 | one cell per column |
| MapText.BodyRows | map/map.js:297 | one body row per row of the layer |
| MapText.ArrayToTable | map/map.js:288-306 | the text is, in order: the readable heading, the table opening with id `table_<name>`, one `<th>` per column (read back by `TableHeader`), the body rows joined with commas (each read back by `TableRow`), and the `</body>` closing that the code writes |
| MapText.Tables | map/map.js:280 | `allData.map(arrayToTable)`: one table per layer given |
| MapText.TableView | map/map.js:277-282 | the view is empty exactly when no layer of the map is a data layer |
| MapText.TableViewAppend | map/map.js:279-281 | the view of two stretches of the map is the first's view followed by the second's, so the view is each data layer's table in map order |
| MapText.TableViewOne | map/map.js:279-281 | a single layer shows its `arrayToTable` HTML exactly when it is a data layer, and nothing otherwise |
| Text.ConcatAppend | map/map.js:281 | `join("")` of two lists is the join of the first followed by the join of the second |
| MapText.UpTo | map/map.js:296-297 | finds the first occurrence of a character, or the end |
| MapText.TaggedRoundTrip | map/map.js:296-297 | tagged values without '<' read back as exactly those values, in order |
| MapText.TableHeader | map/map.js:296 | the header has one `<th>` per column, in column order |
| MapText.RowCells | map/map.js:297 | a row has one `<td>` per column, in column order, holding the row's value or "undefined" |
| MapText.TableRow | map/map.js:297 | row `i` of the body is a `<tr>` with one `<td>` per column, holding the row's value or "undefined" |
| NrWales.KeptRows | scrapers/nrwales.py:36-40 | no more rows are kept than the table has |
| NrWales.CollectRows | scrapers/nrwales.py:35-40 | the loop collects exactly the rows with cells, each with the stamp appended, in table order |
| NrWales.KeptRowsAppend | scrapers/nrwales.py:36-40 | collecting two stretches of the table is collecting each, in order |
| NrWales.KeptRowsMembers | scrapers/nrwales.py:36-40 | a collected row is a row with at least one cell followed by the stamp, one element longer; every row with cells is collected |
| NrWales.KeptRowsCount | scrapers/nrwales.py:36-40 | exactly one collected row per table row with cells |
| NrWales.ReformatStamp | scrapers/nrwales.py:31-32 | the reformat succeeds exactly when the stamp parses, and gives nineteen characters with a space at position 10 |
| NrWales.ReformatStampOfStamp | scrapers/nrwales.py:31-32 | a well-formed stamp keeps its date and time and only trades 'T' and 'Z' for one space |
| NrWales.Normalise | scrapers/nrwales.py:59-92 | IndexError exactly when the row has fewer than nine cells, or has a parseable ninth cell and fewer than ten; ValueError exactly when the ninth cell does not parse as `dd/mm/YYYY`; success needs ten cells |
| NrWales.NormaliseFields | scrapers/nrwales.py:76-90 | uid and reference are `row[0]`, applicant `row[1]`, address `row[2], row[4]`, location `row[3]`, area `row[5]`, the description sentence from `row[6]` and `row[7]`, consulted date `row[8]` as `YYYY-mm-dd`, last change `row[9]`, type "Trees", the register URL, and today as scrape date |
| NrWales.NormaliseCollected | scrapers/nrwales.py:84-87 | a collected nine-cell row whose ninth cell is a date in `dd/mm/YYYY` normalises, with that date as `YYYY-mm-dd` and the stamp as last change |
| NrWales.ConsultedDatesDistinct | scrapers/nrwales.py:84-85 | different end-of-comments dates give different consulted dates |
| NrWales.NormaliseAll | scrapers/nrwales.py:43-44 | mapping succeeds exactly when every row normalises, giving each row's record in order |
| NrWales.NormaliseAllFirstFailure | scrapers/nrwales.py:43-44 | a failed mapping fails with the failure of the first row that does not normalise |
| NrWales.ScrapeFellingLicences | scrapers/nrwales.py:24-44 | nothing when the response is not ok; a ValueError when the stamp does not parse; otherwise the records of the collected rows or the first row's failure |
| Planit.Requests | scrapers/planit.py:7-13 | two GETs exactly when the first answer is a 400, otherwise one; all to the same URL |
| Planit.Answer | scrapers/planit.py:9-13 | the kept answer is the retry's exactly when the first was a 400, and the first one otherwise |
| Planit.Written | scrapers/planit.py:15-18 | one file is written exactly when the answer is JSON, none otherwise, named `output/<date>-p<page>.json` |
| Planit.TotalOf | scrapers/planit.py:15-22 | the total is returned exactly when the answer is JSON with a "total"; a JSON error exactly when it is not JSON; a KeyError exactly when it is JSON without "total" |
| Planit.DoScrape | scrapers/planit.py:7-22 | the GETs, files and result of `do_scrape` are those of the retry rule, the save rule and the total rule |
| Planit.UrlQuery | scrapers/planit.py:8 | the URL's query splits on '&' into exactly `start_date=<date>`, `end_date=<date>`, `pg_sz=3000`, `page=<page>` |
| Planit.IsoDateHasNoAmpersand | scrapers/planit.py:26 | a date string holds no '&' |
| Planit.UrlDate | scrapers/planit.py:8 | requests for the same page of different dates have different URLs |
| Planit.FollowUpPages | scrapers/planit.py:30-40 | page k is asked for after page 1 exactly when 2 <= k <= 5 and the total exceeds 3000*(k-1), in increasing order |
| Planit.PagesFromSpec | scrapers/planit.py:30-40 | from page k on, page p is asked for exactly when k <= p <= 5 and its threshold is passed, in increasing order |
| Planit.AllFollowUpPages | scrapers/planit.py:30-40 | above 15000 applications all of pages 2 to 5 are asked for |
| Planit.ScrapeDay | scrapers/planit.py:28-43 | the loop body is page 1, then the threshold checks, then the 15000 check |
| Planit.ScrapeFollowUps | scrapers/planit.py:30-40 | the four threshold checks in turn, stopping at the first exception |
| Planit.ScrapeIfOver | scrapers/planit.py:30-40 | one threshold check calls `do_scrape` for the page exactly when the total exceeds its threshold |
| Planit.FollowUpsScrapes | scrapers/planit.py:30-40 | the checks call `do_scrape` for a prefix of the needed pages in increasing order, all of them unless one raised; only `do_scrape` can raise there |
| Planit.DayScrapes | scrapers/planit.py:28-43 | each day asks for page 1 first, then a prefix of its needed pages, all of them unless `do_scrape` raised; "can not handle 15000 a day" is raised only after pages 1 to 5, and always when the total exceeds 15000 and nothing else raised |
| Planit.DayFirstPage | scrapers/planit.py:28 | a day asks for page 1 exactly once, first |
| Planit.Run | scrapers/planit.py:25-43 | the script's loop does the first `365*15` passes of the day loop, each on the date from the clock reading of its own pass |
| Planit.RunPass | scrapers/planit.py:25-43 | one pass reads the clock, goes back its number of days, raises when there is no such date, and otherwise runs the loop body on that date |
| Planit.LoopStops | scrapers/planit.py:42-43 | after an exception no more passes run |
| Planit.LoopVisitsEachDay | scrapers/planit.py:25-28 | while nothing is raised, page 1 of days 0, 1, 2, ... is asked for in that order, one per pass |
| Planit.RunVisitsEachDay | scrapers/planit.py:25-28 | while nothing is raised, page 1 is asked for once per pass, first in the pass, for pass 0, 1, 2, ... in that order |
| Planit.RunDatesDistinct | scrapers/planit.py:25-26 | two different passes that read the same day from the clock have different dates and different page-1 URLs |
| Planit.RunDateRepeats | scrapers/planit.py:25-26 | a pass that reads the day after the previous pass's reading (the run crossed midnight) asks for the same date as that pass |
| Planit.RunDatesNonIncreasing | scrapers/planit.py:25-26 | with a clock that only stays or moves on one day between passes, a later pass never asks for a later date than an earlier one |
| Calendar.DaysBeforeShift | scrapers/planit.py:26 | going back `n + 1` days from a date is going back `n` days from the day before it |

## Left out

- OpenLayers itself is not modelled: rendering, styles, the popup overlay's position, `forEachFeatureAtPixel` hit-testing, `calculateExtent`, `fromLonLat` and the animation. Hits and extents are parameters instead.
- `parseFloat` of the coordinate parts and of the URL parameters `lat` and `lng` (map/map.js:204, 323-332) is not modelled, because it is floating point. The model keeps the strings as the jump's target: the split parts of the typed text, or the two parameter values. The parsing of the query string by `URLSearchParams` (percent-decoding, repeated parameters) is not modelled; the parameter values are inputs.
- The DOM wiring is not modelled: the modal's show and hide, `window.onclick`, the `postMessage` height, and `console.log`. Neither are the `innerHTML` and `hidden` writes, beyond what the popup outcome records.
- The `drawstart` handler is modelled as clearing the drawing source. Adding the finished sketch to the source is recorded in `drawend`; the order in which OpenLayers does these two is not modelled.
- MapView.MapView.DrawEnded: the handler's call to `map.removeInteraction(draw)` is modelled on the interaction held in `draw`. Which object the closure captured is not modelled separately; under `Valid()` the two are the same.
- MapView.MapView.SelectMode: the mode is any string the selector gives. The options of the selector are not modelled.
- Text.CapitaliseFirst: `toUpperCase` is modelled for ASCII letters only. Other characters are left unchanged, and multi-character case mappings are not modelled.
- Text.Split: the empty separator is not modelled; the code always splits on ", ".
- MapText.Interpolate: feature properties are modelled as strings. Numbers, booleans, null, and geometry objects rendered by a template literal are not modelled. An absent property is written "undefined".
- MapText.FeatureString: a TypeError is modelled only for a missing country. Other non-string values of `country` are not modelled.
- MapText.RowCells and MapText.TableRow: a cell is `${row[key]}` on a plain object, so a column key that names an `Object.prototype` member (such as "constructor"), missing from this row but present in another, renders the inherited member's text in the code. The model writes "undefined" for every missing key.
- MapText.ReadableLayerName: names of `Object.prototype` members, such as "constructor", "toString" or "__proto__", look up an inherited member in the code rather than giving undefined. This is not modelled; the page only passes the names of its data layers.
- MapText.ArrayToTable: the layer's name is used where the code interpolates the one-element key array, which renders as the same text.
- Calendar.ParseDayMonthYear and Calendar.ParseIsoStampZ:
  - Only ASCII digits are accepted. Python's `\d` also accepts other Unicode digits.
  - The locale-dependent parts of `strptime` are not modelled.
- Calendar.IsoDate: years below 1000 are written with four digits, as `isoformat` does. The platform-dependent `%Y` of `strftime` for such years is not modelled.
- NrWales.Normalise: today's date is one parameter shared by all rows. The code reads the clock once per row.
- The NRW scraper's HTTP request and its BeautifulSoup parsing are not modelled. A missing `gmtLastUpdated` element or table, and the `print` of the records, are not modelled either. The scraper's inputs are the response's ok flag, the stamp text and the rows' cell texts.
- `insert_data` and `convert_gridref_to_coords` (scrapers/nrwales.py:47-56) are stubs with no behaviour, so they are not modelled. The click command line is not modelled either.
- Planit.DoScrape: `time.sleep` and the contents of the saved JSON files are not modelled; each save is recorded by its path. Network errors other than the answers the oracle gives are not modelled.
- Planit.TotalOf: a non-integer "total" is not modelled, so the TypeError its comparison with 3000 would raise is not modelled either.
- Planit.TotalOf: only JSON objects are modelled. A JSON answer whose top level is a list, string, number or null makes `json_response['total']` (scrapers/planit.py:22) raise a TypeError, which is not modelled; the file is still written.
- `scrapers/planit_load.py` is not part of this model. It only reads files and counts rows.
