/** The format detector (`detectType`): a pure classifier over a file's
    name and MIME type, tested in a fixed priority order. */
module Detect {
  import opened Base
  import opened Strings

  /** The kinds `detectType` can answer; `Unsupported` stands for `undefined`. */
  datatype FileKind = Kml | Gpx | GeoJson | Dsv | Unsupported

  /** The two properties of a `File` the detector reads: `name` (possibly
      missing) and `type` (the MIME type, `""` when the browser knows none). */
  datatype ImportedFile = ImportedFile(name: Option<string>, mimeType: string)

  const KmlMime := "application/vnd.google-earth.kml+xml"
  const CsvMime := "text/csv"

  /** The lower-cased file name, `''` when the name is missing. */
  function FileName(f: ImportedFile): string
  {
    match f.name
    case None => ""
    case Some(n) => Lower(n)
  }

  /** The helper `ext`: the lower-cased name contains `e`. */
  function Ext(f: ImportedFile, e: string): bool
  {
    IndexOf(FileName(f), e) != -1
  }

  function DetectType(f: ImportedFile): FileKind
  {
    if f.mimeType == KmlMime || Ext(f, ".kml") then Kml
    else if Ext(f, ".gpx") then Gpx
    else if Ext(f, ".geojson") || Ext(f, ".json") then GeoJson
    else if f.mimeType == CsvMime || Ext(f, ".csv") || Ext(f, ".tsv") || Ext(f, ".dsv") then Dsv
    else Unsupported
  }

  // An independent statement of the detector: a table of rules, the first
  // one that matches decides.

  /** A rule: the kind it yields, the MIME types and the name fragments that select it. */
  datatype Rule = Rule(kind: FileKind, mimes: seq<string>, fragments: seq<string>)

  const Rules := [
    Rule(Kml, [KmlMime], [".kml"]),
    Rule(Gpx, [], [".gpx"]),
    Rule(GeoJson, [], [".geojson", ".json"]),
    Rule(Dsv, [CsvMime], [".csv", ".tsv", ".dsv"])
  ]

  ghost predicate Matches(r: Rule, f: ImportedFile)
  {
    f.mimeType in r.mimes || AnyFragment(FileName(f), r.fragments)
  }

  /** Some fragment of `fragments` occurs in `name`. */
  ghost predicate AnyFragment(name: string, fragments: seq<string>)
  {
    fragments != [] && (Contains(name, fragments[0]) || AnyFragment(name, fragments[1..]))
  }

  ghost function FirstMatch(rules: seq<Rule>, f: ImportedFile): FileKind
  {
    if rules == [] then Unsupported
    else if Matches(rules[0], f) then rules[0].kind
    else FirstMatch(rules[1..], f)
  }

  /** The detector is the first-match reading of the rule table. */
  lemma DetectIsFirstMatch(f: ImportedFile)
    ensures DetectType(f) == FirstMatch(Rules, f)
  {
    var name := FileName(f);
    assert Matches(Rules[0], f) <==> (f.mimeType == KmlMime || Contains(name, ".kml")) by {
      assert Rules[0].fragments == [".kml"] && Rules[0].mimes == [KmlMime];
      assert Rules[0].fragments[1..] == [];
      assert AnyFragment(name, Rules[0].fragments) <==> Contains(name, ".kml");
      assert f.mimeType in Rules[0].mimes <==> f.mimeType == KmlMime;
    }
    assert Matches(Rules[1], f) <==> Contains(name, ".gpx") by {
      assert Rules[1].fragments == [".gpx"] && Rules[1].mimes == [];
      assert Rules[1].fragments[1..] == [];
      assert AnyFragment(name, Rules[1].fragments) <==> Contains(name, ".gpx");
    }
    assert Matches(Rules[2], f) <==> (Contains(name, ".geojson") || Contains(name, ".json")) by {
      assert Rules[2].fragments == [".geojson", ".json"] && Rules[2].mimes == [];
      assert Rules[2].fragments[1..] == [".json"] && Rules[2].fragments[1..][1..] == [];
      assert AnyFragment(name, Rules[2].fragments[1..]) <==> Contains(name, ".json");
      assert AnyFragment(name, Rules[2].fragments) <==> Contains(name, ".geojson") || Contains(name, ".json");
    }
    assert Matches(Rules[3], f) <==> (f.mimeType == CsvMime || Contains(name, ".csv")
      || Contains(name, ".tsv") || Contains(name, ".dsv")) by {
      assert Rules[3].fragments == [".csv", ".tsv", ".dsv"] && Rules[3].mimes == [CsvMime];
      assert Rules[3].fragments[1..] == [".tsv", ".dsv"] && Rules[3].fragments[1..][1..] == [".dsv"];
      assert Rules[3].fragments[1..][1..][1..] == [];
      assert AnyFragment(name, Rules[3].fragments[1..][1..]) <==> Contains(name, ".dsv");
      assert AnyFragment(name, Rules[3].fragments[1..]) <==> Contains(name, ".tsv") || Contains(name, ".dsv");
      assert AnyFragment(name, Rules[3].fragments) <==>
        Contains(name, ".csv") || Contains(name, ".tsv") || Contains(name, ".dsv");
      assert f.mimeType in Rules[3].mimes <==> f.mimeType == CsvMime;
    }
    assert Rules[3..][0] == Rules[3] && Rules[3..][1..] == [];
    assert FirstMatch(Rules[3..], f) == if Matches(Rules[3], f) then Dsv else Unsupported;
    assert Rules[2..][0] == Rules[2] && Rules[2..][1..] == Rules[3..];
    assert FirstMatch(Rules[2..], f) == if Matches(Rules[2], f) then GeoJson else FirstMatch(Rules[3..], f);
    assert Rules[1..][0] == Rules[1] && Rules[1..][1..] == Rules[2..];
    assert FirstMatch(Rules[1..], f) == if Matches(Rules[1], f) then Gpx else FirstMatch(Rules[2..], f);
    assert FirstMatch(Rules, f) == if Matches(Rules[0], f) then Kml else FirstMatch(Rules[1..], f);
  }

  /** The detector reads the name only through its lower-cased form. */
  lemma DetectReadsLoweredName(f: ImportedFile, g: ImportedFile)
    requires FileName(f) == FileName(g) && f.mimeType == g.mimeType
    ensures DetectType(f) == DetectType(g)
  {
  }

  /** A name fragment cannot occur in a string that lacks one of its characters. */
  lemma MissingCharRulesOut(s: string, sub: string, k: nat)
    requires k < |sub| && sub[k] !in s
    ensures !Contains(s, sub)
  {
  }

  /** The same, as `indexOf` reports it. */
  lemma MissingCharNoIndex(s: string, sub: string, k: nat)
    requires k < |sub| && sub[k] !in s
    ensures IndexOf(s, sub) == -1
  {
    MissingCharRulesOut(s, sub, k);
  }

  /** A name with no upper-case ASCII letter is its own lower-cased form. */
  lemma LowerOfLowerCase(s: string)
    requires forall i :: 0 <= i < |s| ==> !('A' <= s[i] <= 'Z')
    ensures Lower(s) == s
  {
  }
  // Each kind, stated as the condition that yields it: KML wins whenever it
  // matches; each later kind only when every earlier one fails.

  lemma DetectIsKml(f: ImportedFile)
    ensures DetectType(f) == Kml <==> f.mimeType == KmlMime || Contains(FileName(f), ".kml")
  {
    ExtIsContains(f, ".kml");
  }

  lemma DetectIsGpx(f: ImportedFile)
    ensures DetectType(f) == Gpx <==>
      !(f.mimeType == KmlMime || Contains(FileName(f), ".kml")) && Contains(FileName(f), ".gpx")
  {
    ExtIsContains(f, ".kml");
    ExtIsContains(f, ".gpx");
  }

  lemma DetectIsGeoJson(f: ImportedFile)
    ensures DetectType(f) == GeoJson <==>
      !(f.mimeType == KmlMime || Contains(FileName(f), ".kml")) && !Contains(FileName(f), ".gpx")
      && (Contains(FileName(f), ".geojson") || Contains(FileName(f), ".json"))
  {
    ExtIsContains(f, ".kml");
    ExtIsContains(f, ".gpx");
    ExtIsContains(f, ".geojson");
    ExtIsContains(f, ".json");
  }

  lemma DetectIsDsv(f: ImportedFile)
    ensures DetectType(f) == Dsv <==>
      !(f.mimeType == KmlMime || Contains(FileName(f), ".kml")) && !Contains(FileName(f), ".gpx")
      && !(Contains(FileName(f), ".geojson") || Contains(FileName(f), ".json"))
      && (f.mimeType == CsvMime || Contains(FileName(f), ".csv") || Contains(FileName(f), ".tsv")
          || Contains(FileName(f), ".dsv"))
  {
    ExtIsContains(f, ".kml");
    ExtIsContains(f, ".gpx");
    ExtIsContains(f, ".geojson");
    ExtIsContains(f, ".json");
    ExtIsContains(f, ".csv");
    ExtIsContains(f, ".tsv");
    ExtIsContains(f, ".dsv");
  }

  lemma DetectIsUnsupported(f: ImportedFile)
    ensures DetectType(f) == Unsupported <==>
      f.mimeType != KmlMime && f.mimeType != CsvMime
      && !Contains(FileName(f), ".kml") && !Contains(FileName(f), ".gpx")
      && !Contains(FileName(f), ".geojson") && !Contains(FileName(f), ".json")
      && !Contains(FileName(f), ".csv") && !Contains(FileName(f), ".tsv") && !Contains(FileName(f), ".dsv")
  {
    ExtIsContains(f, ".kml");
    ExtIsContains(f, ".gpx");
    ExtIsContains(f, ".geojson");
    ExtIsContains(f, ".json");
    ExtIsContains(f, ".csv");
    ExtIsContains(f, ".tsv");
    ExtIsContains(f, ".dsv");
  }

  /** `ext(e)` holds exactly when the lower-cased name contains `e`. */
  lemma ExtIsContains(f: ImportedFile, e: string)
    ensures Ext(f, e) <==> Contains(FileName(f), e)
  {
  }

  /** Detection ignores the case of the name. */
  lemma DetectIgnoresCase(n: string, mime: string)
    ensures DetectType(ImportedFile(Some(Upper(n)), mime)) == DetectType(ImportedFile(Some(n), mime))
    ensures DetectType(ImportedFile(Some(Lower(n)), mime)) == DetectType(ImportedFile(Some(n), mime))
  {
    LowerOfUpper(n);
    LowerIdempotent(n);
    DetectReadsLoweredName(ImportedFile(Some(Upper(n)), mime), ImportedFile(Some(n), mime));
    DetectReadsLoweredName(ImportedFile(Some(Lower(n)), mime), ImportedFile(Some(n), mime));
  }

  /** With no name only the MIME type decides, and it can only pick KML or DSV. */
  lemma MissingNameUsesMime(mime: string)
    ensures DetectType(ImportedFile(None, mime)) ==
      if mime == KmlMime then Kml else if mime == CsvMime then Dsv else Unsupported
  {
  }

  /** A name holding `.kml` is KML whatever else it holds, e.g. `thing.kml.csv`. */
  lemma KmlBeatsOtherExtensions(n: string, mime: string)
    requires Contains(Lower(n), ".kml")
    ensures DetectType(ImportedFile(Some(n), mime)) == Kml
  {
  }

  lemma KmlCsvNameIsKml(n: string)
    requires n == "thing.kml.csv"
    ensures DetectType(ImportedFile(Some(n), CsvMime)) == Kml
  {
    LowerOfLowerCase(n);
    assert n[5..9] == ".kml";
    assert MatchAt(Lower(n), ".kml", 5);
  }

  /** A `text/csv` file named `x.json` is GeoJSON: the name rule outranks the CSV MIME type. */
  lemma CsvMimeJsonNameIsGeoJson(n: string)
    requires n == "x.json"
    ensures DetectType(ImportedFile(Some(n), CsvMime)) == GeoJson
  {
    LowerOfLowerCase(n);
    JsonHasOnlyItsFragment(n);
    LowerCaseJsonName(n, CsvMime);
  }

  lemma JsonHasOnlyItsFragment(n: string)
    requires n == "x.json"
    ensures IndexOf(n, ".json") != -1
    ensures IndexOf(n, ".kml") == -1 && IndexOf(n, ".gpx") == -1
  {
    assert n[1..6] == ".json";
    assert MatchAt(n, ".json", 1);
    MissingCharNoIndex(n, ".kml", 1);
    MissingCharNoIndex(n, ".gpx", 1);
  }

  /** A lower-case name holding `.json` but neither `.kml` nor `.gpx` is
      GeoJSON under any MIME type but KML's. */
  lemma LowerCaseJsonName(n: string, mime: string)
    requires Lower(n) == n && IndexOf(n, ".json") != -1 && mime != KmlMime
    requires IndexOf(n, ".kml") == -1 && IndexOf(n, ".gpx") == -1
    ensures DetectType(ImportedFile(Some(n), mime)) == GeoJson
  {
  }

  lemma CitiesCsvIsDsv(n: string)
    requires n == "cities.csv"
    ensures DetectType(ImportedFile(Some(n), CsvMime)) == Dsv
  {
    LowerOfLowerCase(n);
    CitiesHasNoOtherFragment(n);
  }

  lemma CitiesHasNoOtherFragment(n: string)
    requires n == "cities.csv"
    ensures IndexOf(n, ".kml") == -1 && IndexOf(n, ".gpx") == -1
    ensures IndexOf(n, ".geojson") == -1 && IndexOf(n, ".json") == -1
  {
    MissingCharNoIndex(n, ".kml", 1);
    MissingCharNoIndex(n, ".gpx", 1);
    MissingCharNoIndex(n, ".geojson", 1);
    MissingCharNoIndex(n, ".json", 1);
  }

  lemma GeoJsonNameIsGeoJson(n: string)
    requires n == "a.geojson"
    ensures DetectType(ImportedFile(Some(n), "")) == GeoJson
  {
    LowerOfLowerCase(n);
    GeoJsonHasOnlyItsFragment(n);
    LowerCaseGeoJsonName(n);
  }

  /** A lower-case name holding `.geojson` but neither `.kml` nor `.gpx` is
      GeoJSON when the browser gives no MIME type. */
  lemma LowerCaseGeoJsonName(n: string)
    requires Lower(n) == n && IndexOf(n, ".geojson") != -1
    requires IndexOf(n, ".kml") == -1 && IndexOf(n, ".gpx") == -1
    ensures DetectType(ImportedFile(Some(n), "")) == GeoJson
  {
  }

  lemma GeoJsonHasOnlyItsFragment(n: string)
    requires n == "a.geojson"
    ensures IndexOf(n, ".geojson") != -1
    ensures IndexOf(n, ".kml") == -1 && IndexOf(n, ".gpx") == -1
  {
    assert n[1..9] == ".geojson";
    assert MatchAt(n, ".geojson", 1);
    MissingCharNoIndex(n, ".kml", 1);
    MissingCharNoIndex(n, ".gpx", 2);
  }
}
