# Import panel of geojson.io, modelled in Dafny

This project models the decision-making core of `src/import_panel.js`, the
panel through which geojson.io takes in KML, GPX, GeoJSON/TopoJSON and
delimited-text files. It covers five parts:

- **The format detector** `detectType` (module `Detect`). It classifies a file
  by its lower-cased name and its MIME type, in a fixed priority order: KML,
  GPX, GeoJSON, then delimited text. Anything else is unsupported.
- **The `reader.onload` dispatch of `readFile`** (module `Dispatch`). This is
  the switch over the detected kind and the loop that flattens a TopoJSON
  topology into one FeatureCollection (section 3.3 of RFC 7946). When `gj` is
  truthy, the three host updates `update_editor`, `zoom_extent` and
  `update_geojson` follow. The parsers and converters are parameters: the
  XML parser, `JSON.parse`, toGeoJSON, `topojson.feature` and csv2geojson.
  Each one returns a value or throws. Everything the dispatch does that can
  be observed goes into a trace of events (module `Host`): alerts, analytics
  events, host updates and the opening of the geocoding panel.
- **The row strings** (module `Rows`). These are `transformRow`, which builds
  the address a row is geocoded with, `printObj`, and the line shown for a
  row that failed to geocode.
- **The example rotation** `showExample`. This is a closure with a mutable
  counter, modelled as the class `Chooser.Rotation`.
- **The selection-change handler** `onChosen`. It works on the state of
  `handleGeocode`: the interval handle `ti`, the link's enabled flag and
  text, the link's click handler, and the example text. This is the class
  `Chooser.Panel`. Timers are modelled as the set of intervals that have
  been set and not yet cleared.

`Results.Done` models the `done` callback of `runGeocode`: the fail lines and
the single editor update.

The dispatch is modelled as the source has it. Whether the free names
`updates` and `container` resolve is a parameter (`Dispatch.Bindings`):

- `Dispatch.AsWritten` gives the two call sites as written. The drop
  handler passes `updates` (line 115) and the picker does not (line 175).
  `container` is not in scope in `readFile` in either case.
- `Dispatch.Intended` gives both names bound.

Three behaviours of the source are easy to misread. The model follows the
source in each:

- The address joins the selected values in the row's own order, not in the
  order the fields were selected (`Rows.SelectedKeepsRowOrder`,
  `Rows.SelectedIgnoresFieldOrder`).
- `printObj` joins entries with `,` and no space.
- `done` calls `update_editor` only, not the three-call sequence a file
  import makes (`Results.DoneMakesOneUpdate`).

## Model

| member | source | states |
|---|---|---|
| `Strings.Lower` | src/import_panel.js:124 | `toLowerCase` keeps the length and lower-cases each character |
| `Strings.IndexOf` | src/import_panel.js:125-127 | `indexOf` is -1 exactly when the fragment does not occur; otherwise it is the first position where it occurs |
| `Strings.Join` | src/import_panel.js:228 | `Array.prototype.join`: the pieces with the separator between each two; its round trip with `Split` is `Strings.SplitJoin` |
| `Detect.DetectType` | src/import_panel.js:123-136 | `detectType` as the source's chain of tests; what it answers is stated by `DetectIsFirstMatch` and the five `DetectIs…` lemmas below |
| `Detect.DetectIsFirstMatch` | src/import_panel.js:128-136 | the detector equals the first-match reading of a table of rules: (kml, KML MIME, `.kml`), (gpx, `.gpx`), (geojson, `.geojson`/`.json`), (dsv, `text/csv`, `.csv`/`.tsv`/`.dsv`), and otherwise unsupported |
| `Detect.ExtIsContains` | src/import_panel.js:125-127 | `ext(e)` holds exactly when the lower-cased name contains `e` |
| `Detect.DetectIsKml` | src/import_panel.js:128-130 | the answer is KML exactly when the MIME type is the KML type or the name contains `.kml` |
| `Detect.DetectIsGpx` | src/import_panel.js:128-131 | the answer is GPX exactly when the KML rule fails and the name contains `.gpx` |
| `Detect.DetectIsGeoJson` | src/import_panel.js:128-132 | the answer is GeoJSON exactly when the KML and GPX rules fail and the name contains `.geojson` or `.json` |
| `Detect.DetectIsDsv` | src/import_panel.js:128-135 | the answer is delimited text exactly when the three earlier rules fail and the MIME type is `text/csv` or the name contains `.csv`, `.tsv` or `.dsv` |
| `Detect.DetectIsUnsupported` | src/import_panel.js:123-136 | the answer is unsupported (`undefined`) exactly when neither MIME type matches and the name contains none of the seven fragments |
| `Detect.DetectIgnoresCase` | src/import_panel.js:124 | an upper-cased or lower-cased name is classified the same as the original name |
| `Detect.MissingNameUsesMime` | src/import_panel.js:124-135 | with no name, only the MIME type decides, and the result can only be kml, dsv or unsupported |
| `Detect.KmlBeatsOtherExtensions` | src/import_panel.js:128-130 | a name whose lower-cased form contains `.kml` is KML, whatever the MIME type and other extensions |
| `Detect.KmlCsvNameIsKml` | src/import_panel.js:128-130 | `thing.kml.csv` with MIME `text/csv` is KML |
| `Detect.CsvMimeJsonNameIsGeoJson` | src/import_panel.js:131-135 | a `text/csv` file named `x.json` is GeoJSON |
| `Detect.CitiesCsvIsDsv` | src/import_panel.js:133-135 | `cities.csv` with MIME `text/csv` is delimited text |
| `Detect.GeoJsonNameIsGeoJson` | src/import_panel.js:132 | `a.geojson` with no MIME type is GeoJSON |
| `Json.Lookup` | src/import_panel.js:62 | a property read finds a value exactly when some member has that key, and the value found belongs to such a member |
| `Json.IsTopology` | src/import_panel.js:62 | the test `gj && gj.type === 'Topology' && gj.objects`; `CollectionShape` proves the collection built from a topology fails it |
| `Json.ForInReadsEachKey` | src/import_panel.js:64 | for an object with distinct keys, `for…in` with the property read `objects[o]` visits exactly the member values, one per key, in enumeration order |
| `Json.CollectionShape` | src/import_panel.js:63-65 | the collection built from a topology is truthy, is not itself a topology, and holds exactly the pushed features |
| `Dispatch.Snippet` | src/import_panel.js:70 | `substring(0, 20)` is a prefix of the text, of length 20 or the whole text if shorter |
| `Dispatch.FlattenTopology` | src/import_panel.js:62-66 | the loop returns a FeatureCollection of the features `Features` gives, or throws its error |
| `Dispatch.FeaturesOnePerObject` | src/import_panel.js:64 | a completed flattening has exactly one feature per object, each the conversion of that object, in enumeration order |
| `Dispatch.FeaturesSucceedIff` | src/import_panel.js:64 | the flattening completes exactly when no object's conversion throws |
| `Dispatch.FeaturesFirstError` | src/import_panel.js:64-67 | a failed flattening reports the error of the first object whose conversion throws |
| `Dispatch.Switch` | src/import_panel.js:40-94 | the switch's cases as a function of the detected kind; its runs are stated by the lemmas below |
| `Dispatch.Load` | src/import_panel.js:37-101 | a whole run: the switch, then the three host updates when `gj` is truthy; stated by `UpdatesExactlyOnce` and the lemmas below |
| `Dispatch.OnLoad` | src/import_panel.js:37-101 | the imperative `onload` appends exactly the events of the run `Load` describes, and ends as that run ends |
| `Dispatch.KmlCase` | src/import_panel.js:42-52 | the KML case appends the invalid-XML alert, or the NetworkLink warning when links are present, and yields the converted document or the converter's throw, as `Switch` states it |
| `Dispatch.GeoJsonCase` | src/import_panel.js:58-74 | the GeoJSON case parses, flattens a topology through `FlattenTopology`, and routes either throw to the catch block, as `Switch` states it |
| `Dispatch.DsvCase` | src/import_panel.js:76-86 | the delimited-text case yields the converted collection, or opens the geocoding panel when `container` is bound and throws when it is not, as `Switch` states it |
| `Dispatch.SwitchLeavesHostAlone` | src/import_panel.js:40-94 | no case of the switch updates the host |
| `Dispatch.UpdatesExactlyOnce` | src/import_panel.js:96-100 | the three host updates happen once each, in order, at the end of the run, exactly when the switch leaves a truthy `gj` and `updates` is bound; otherwise the run makes no host update |
| `Dispatch.InvalidKmlStops` | src/import_panel.js:43-46 | KML that does not parse is reported as invalid and nothing else happens |
| `Dispatch.NetworkLinksWarnThenImport` | src/import_panel.js:47-51 | KML with NetworkLinks raises the warning, then is converted and imported |
| `Dispatch.InvalidJsonStops` | src/import_panel.js:59-73 | text that is not JSON gives the alert and the analytics event with a 20-character snippet, and no host update |
| `Dispatch.UnsupportedStops` | src/import_panel.js:88-93 | an unsupported file is tracked with its MIME type and snippet, then reported, with no host update |
| `Dispatch.TopologyImported` | src/import_panel.js:62-66 | a topology whose objects all convert is imported as one collection holding one feature per object, in order |
| `Dispatch.TopologyThrowStops` | src/import_panel.js:64-72 | a flattening that throws is reported through the catch block, like invalid JSON |
| `Dispatch.TopologyErrorStops` | src/import_panel.js:64-72 | if any object's conversion throws, the run is the invalid-JSON report with the first error |
| `Dispatch.OtherJsonPassesThrough` | src/import_panel.js:60-66 | parsed JSON that is not a topology is imported unchanged; a falsy value (`null`, `0`, `false`, `""`) is silently ignored |
| `Dispatch.CsvConvertedImports` | src/import_panel.js:77-85 | delimited text that csv2geojson converts is imported as the converted collection |
| `Dispatch.PickerNeverUpdatesHost` | src/import_panel.js:175 | as written, a file chosen with the picker never updates the host, and a run that would update it throws on the undefined `updates` |
| `Dispatch.PickedJsonIsLost` | src/import_panel.js:175 | any truthy JSON that is not a topology throws on the undefined `updates` when picked, and is imported when `updates` is bound |
| `Dispatch.PickedGeoJsonIsLost` | src/import_panel.js:175 | `a.geojson` holding `{}` throws when picked, and is imported when `updates` is bound |
| `Dispatch.IntendedImportUpdatesHost` | src/import_panel.js:96-100 | with `updates` bound, every run that leaves a truthy `gj` ends with the three host updates |
| `Dispatch.DsvFallbackThrows` | src/import_panel.js:80-81 | as written, delimited text that csv2geojson rejects throws on `container` and never reaches the geocoding panel |
| `Dispatch.DsvFallbackOpensGeocode` | src/import_panel.js:80-81 | with `container` bound, rejected delimited text opens the geocoding panel on the file's text and makes no host update |
| `Host.HostUpdates` | src/import_panel.js:96-100 | the host updates of a trace are exactly its update events |
| `Host.Page.Alert` | src/import_panel.js:45 | an alert appends its message to the trace |
| `Host.Page.Track` | src/import_panel.js:69-71 | an analytics event appends its name and properties to the trace |
| `Host.Page.UpdateEditor` | src/import_panel.js:97 | `update_editor` appends the collection to the trace |
| `Host.Page.ZoomExtent` | src/import_panel.js:98 | `zoom_extent` appends its event to the trace |
| `Host.Page.UpdateGeoJson` | src/import_panel.js:99 | `update_geojson` appends its event to the trace |
| `Host.Page.HandleGeocode` | src/import_panel.js:81 | opening the geocoding panel appends the file's text to the trace |
| `Rows.Selected` | src/import_panel.js:225-227 | never more values than entries; with `SelectedAt` and `SelectedValuesComeFromFields`, exactly one value per selected entry |
| `Rows.TransformRow` | src/import_panel.js:223-230 | the selected values joined by `, `; stated by the `Selected…` lemmas and `RenoAddress` |
| `Rows.SelectedAt` | src/import_panel.js:225-228 | a selected entry's value is found in the address at the position given by the number of selected entries before it |
| `Rows.SelectedKeepsRowOrder` | src/import_panel.js:225-228 | of two selected entries, the earlier entry's value comes first |
| `Rows.SelectedValuesComeFromFields` | src/import_panel.js:225-227 | the value at position k of the address is the value of the selected entry with exactly k selected entries before it, so nothing but selected values appears, each once |
| `Rows.SelectedIgnoresFieldOrder` | src/import_panel.js:223-229 | the address depends only on which fields are chosen, not on their order |
| `Rows.NoFieldsNoAddress` | src/import_panel.js:223-229 | no fields give the empty address |
| `Rows.AllFieldsAllValues` | src/import_panel.js:225-227 | choosing every key yields every value, in order |
| `Rows.RenoAddress` | src/import_panel.js:223-229 | the row City=Reno, State=NV, Zip=89501 gives `Reno, NV, 89501` whichever order its fields were chosen in |
| `Rows.PrintObj` | src/import_panel.js:290-295 | `printObj`: the `key: value` entries joined by `,` in parentheses; stated by `PrintObjRecoversEntries` |
| `Rows.PrintObjRecoversEntries` | src/import_panel.js:290-295 | `printObj` is parenthesised, and splitting its inside on `,` gives back the `key: value` strings when no key or value holds a comma |
| `Rows.FailLine` | src/import_panel.js:306 | the text of one failed row; its layout is `FailLineLayout` |
| `Rows.FailLinesLayout` | src/import_panel.js:299-307 | one line per failed row, in order, each `failed: `, the row's address, ` / `, then `printObj` of the row |
| `Rows.FailLineLayout` | src/import_panel.js:305-307 | a fail line is `failed: `, then the address, then ` / `, then `printObj` of the row |
| `Chooser.NextIndex` | src/import_panel.js:235 | the step `if (++i > list.length) i = 0`; its orbit is stated by `IndexInRange`, `FirstLap` and `IndexPeriodic` |
| `Chooser.ExampleText` | src/import_panel.js:237 | the address of `list[i]`, empty past the end; `ReadsPastEnd` and `FixedNeverBlank` state when each case occurs |
| `Chooser.IndexInRange` | src/import_panel.js:233-237 | the counter always lies in `0..list.length` |
| `Chooser.FirstLap` | src/import_panel.js:233-237 | the k-th call reads `list[k]` for k up to `list.length`, so the first example shown is `list[1]` |
| `Chooser.IndexPeriodic` | src/import_panel.js:235 | the counter cycles with period `list.length + 1` through 1, …, `list.length`, 0 |
| `Chooser.ReadsPastEnd` | src/import_panel.js:235-237 | the last call of every lap reads `list[list.length]` and shows an empty example |
| `Chooser.FixedIndexInRange` | src/import_panel.js:235 | the corrected counter stays within the list and shows rows 0, 1, … in its first lap |
| `Chooser.FixedNeverBlank` | src/import_panel.js:237 | the corrected counter shows a real row's address at every call |
| `Chooser.Rotation.constructor` | src/import_panel.js:233 | a new closure's counter is 0 |
| `Chooser.Rotation.Tick` | src/import_panel.js:234-238 | one call advances the counter by the wrapping step and returns the example text for the row it now reads |
| `Chooser.Panel.constructor` | src/import_panel.js:191-196 | the link starts disabled with the guidance text, with no example, no click handler and no timer |
| `Chooser.Panel.OnChosen` | src/import_panel.js:246-262 | the interval in `ti` is cleared first. With fields: the link is enabled with text `Geocode`, its handler uses the new fields, and exactly one new interval is live, already having shown its first example. Without fields: the link is disabled with the guidance text, the example is blanked, and no timer is live |
| `Chooser.Panel.Fire` | src/import_panel.js:256 | a firing interval advances its rotation and writes its example |
| `Chooser.AtMostOneTimer` | src/import_panel.js:247-256 | at most one rotation timer is live, and it is the one in `ti` |
| `Results.Done` | src/import_panel.js:297-311 | `done` produces one fail line per failed row and hands what csv2geojson returns to `update_editor`, adding exactly one host update |
| `Results.DoneMakesOneUpdate` | src/import_panel.js:309-311 | a finished batch adds exactly one host update |

## Findings

| source | as written | input that shows it | evidently intended | confidence | as-written member | corrected member |
|---|---|---|---|---|---|---|
| src/import_panel.js:175 | the picker calls `readFile(f, 'click')` with no `updates`, so a successful import throws at `updates.update_editor` and the host never sees the file | `a.geojson` holding `{}`, chosen with the picker | pass `updates`, as the drop handler does at line 115 | high; not executed | `Dispatch.PickedGeoJsonIsLost` | `Dispatch.IntendedImportUpdatesHost` |
| src/import_panel.js:81 | the CSV fallback reads `container`, which is not in scope in `readFile`, so it throws a ReferenceError before the geocoding panel opens | any `.csv` file that csv2geojson rejects, e.g. addresses with no latitude and longitude columns | open the geocoding panel on the file's text | high, unless the page defines a global named `container`; not executed | `Dispatch.DsvFallbackThrows` | `Dispatch.DsvFallbackOpensGeocode` |
| src/import_panel.js:233-237 | the counter starts at 0, is incremented before the read, and resets only once it exceeds `list.length`, so the first example is `list[1]` and every lap reads `list[list.length]`, which shows a blank example | a two-row list: the calls show rows 1, then a blank for index 2, then row 0 | show rows 0 to `list.length - 1` in turn | medium; not executed | `Chooser.ReadsPastEnd` | `Chooser.FixedNeverBlank` |

The `Dispatch` model covers both readings: it is parameterised by
`Bindings`, and `Intended` is the corrected one, with `updates` passed by the
picker as the drop handler passes it. `Chooser.Panel` keeps the
counter as written, because it models the panel's observable behaviour.
`Chooser.FixedNextIndex` is the corrected counter.

## Left out

- DOM construction and styling (`importPanel`, the layout parts of `handleGeocode` and `runGeocode`) and the drag events (`over`, `exit`, `bindBody`): these are presentation only. From `bindBody` and the picker, only the arguments they pass to `readFile` are kept (`Dispatch.AsWritten`).
- `FileReader`: the asynchronous read is not modelled. `OnLoad` receives the text already read.
- The converters (toGeoJSON, `topojson.feature`, csv2geojson, `csv2geojson.auto`) and the XML parser are parameters. Their code is not part of this model. A real `DOMParser` returns an error document rather than nothing; the model follows the source's `!kmldom` test.
- csv2geojson is taken to call its callback synchronously, before the `if (gj)` test.
- `detectIndentationStyle` and the global `exportIndentationStyle` it sets are not modelled. The model assumes that call does not throw.
- `trackImport` is defined but never called, so it is not modelled.
- `geocodemany`, `progressChart`, the batch's progress and cancel handle, and the Close link: these are an external library and its presentation. Any split into succeeded and failed rows is that library's promise. `Results.Done` takes both lists as given.
- `bucket()`: the drag broker that assigns columns to categories is external. `OnChosen` receives the field list it emits.
- The timing of `setInterval`: only which intervals are live is modelled. `Panel.Fire` is one firing.
- `handleGeocode` on an empty list throws at `Object.keys(list[0])`. This is not modelled; `Panel` accepts any list.
- After `onChosen` with no fields, the link keeps its previous click handler. The model keeps `onClick` unchanged. Whether a click on the disabled link runs it depends on the page's styling, which is not modelled.
- Detect.DetectIgnoresCase: holds for the model's ASCII case mapping only. In JavaScript, `toUpperCase` maps some non-ASCII letters to ASCII ones, so `x.cſv` (long s, U+017F) is unsupported while its upper-cased form `X.CSV` is delimited text.
- Dispatch.Snippet: counts characters (Unicode scalar values), while `substring(0, 20)` counts UTF-16 code units. For text outside the Basic Multilingual Plane the source keeps fewer characters: of 20 emoji it keeps 10, the model all 20.
- Results.Done: line 310 ignores csv2geojson's error and hands `update_editor` whatever result comes with it. The model takes that result as the parameter `converted` and does not model the error case separately.
- Strings.Lower: lower-cases ASCII letters only, while `toLowerCase` folds all of Unicode (for example, the Kelvin sign becomes `k`).
- Json.Lookup: parsed objects are taken to have distinct keys, listed in enumeration order. Integer-like keys come first there, as JavaScript orders them.
- JSON numbers are exact reals. The rounding to doubles that can turn a tiny literal into a falsy 0 is not modelled.
- `d3.entries(undefined)` is taken to be empty, as in d3 version 3, so reading past the end of the list shows an empty example.
- Error messages thrown by the browser (`TypeError`, `ReferenceError`) are named by `Dispatch.Fault`, not given as browser-specific text.
