/** The body of `reader.onload` in `readFile`: the switch over the detected
    kind, the TopoJSON flattening loop and the three host updates. The
    parsers and converters it calls are parameters. */
module Dispatch {
  import opened Base
  import opened Json
  import opened Detect
  import opened Host
  import opened Strings

  /** What the dispatch reads of a parsed XML document: how many
      `NetworkLink` elements it holds. */
  datatype XmlDoc = XmlDoc(source: string, networkLinks: nat)

  /** A call that either returns a value or throws; `error` is the thrown
      value's string form. */
  datatype Outcome<T> = Returned(value: T) | Threw(error: string)

  /** The collaborators `onload` calls, none of whose code is part of this model. */
  datatype Collaborators = Collaborators(
    toDom: string -> Option<XmlDoc>,              // toDom (DOMParser), None when it yields no document
    kml: XmlDoc -> Outcome<Json>,                 // toGeoJSON.kml
    gpx: Option<XmlDoc> -> Outcome<Json>,         // toGeoJSON.gpx, handed toDom's result unchecked
    parseJson: string -> Outcome<Json>,           // JSON.parse
    topoFeature: (Json, Json) -> Outcome<Json>,   // topojson.feature(topology, object)
    csv: string -> Option<Json>)                  // csv2geojson's callback: None for a truthy err

  /** Which free names resolve where `readFile` runs: its `updates`
      parameter and the name `container`. */
  datatype Bindings = Bindings(updates: bool, container: bool)

  /** How `readFile` was reached: a drop on the body or the file picker. */
  datatype Via = Drag | Click

  /** The bindings as the source has them: the drop handler passes
      `updates`, the picker does not, and `container` is not in scope. */
  function AsWritten(via: Via): Bindings
  {
    Bindings(via == Drag, false)
  }

  /** Both names resolve: `updates` bound for the picker as the drop handler
      binds it (line 115), and a `container` for the geocoding panel. */
  const Intended := Bindings(true, true)

  /** Why `onload` ended by throwing. */
  datatype Fault =
    | Uncaught(error: string)   // a converter threw outside the try
    | UpdatesUndefined          // updates.update_editor on an undefined `updates`
    | ContainerUndefined        // reading the unbound name `container`

  datatype Completion = Normal | Thrown(fault: Fault)

  /** The outcome of the switch: it returned (or threw) with the events so
      far, or it fell through to the `if (gj)` test with `gj`. */
  datatype Stage =
    | Stop(events: seq<Event>, completion: Completion)
    | Continue(events: seq<Event>, gj: Option<Json>)

  /** A whole run of `onload`: the events it appends and how it ends. */
  datatype Run = Run(events: seq<Event>, completion: Completion)

  const InvalidKmlMessage := "Invalid KML file: not valid XML"
  const NetworkLinkMessage :=
    "The KML file you uploaded included NetworkLinks: some content may not display. "
    + "Please export and upload KML without NetworkLinks for optimal performance"
  const UnsupportedMessage := "Sorry, that file type is not supported"

  /** `text.substring(0, 20)`. */
  function Snippet(text: string): (r: string)
    ensures |r| <= 20 && r <= text
    ensures |text| >= 20 ==> |r| == 20
    ensures |text| < 20 ==> r == text
  {
    if |text| <= 20 then text else text[..20]
  }

  /** The catch block of the GeoJSON case. */
  function InvalidJson(text: string, error: string): seq<Event>
  {
    [Alerted("Invalid JSON file: " + error), Tracked("Uploaded invalid JSON", [("snippet", Snippet(text))])]
  }

  /** The default case. */
  function UnsupportedFile(f: ImportedFile, text: string): seq<Event>
  {
    [Tracked("Invalid file", [("type", f.mimeType), ("snippet", Snippet(text))]), Alerted(UnsupportedMessage)]
  }

  // ---- TopoJSON flattening ----

  /** The features `topojson.feature` yields for `objects`, in order, or the
      first error it throws. */
  function Features(topology: Json, objects: seq<Json>, feature: (Json, Json) -> Outcome<Json>): Outcome<seq<Json>>
    decreases |objects|
  {
    if objects == [] then Returned([])
    else
      match Features(topology, objects[..|objects| - 1], feature)
      case Threw(e) => Threw(e)
      case Returned(fs) =>
        match feature(topology, objects[|objects| - 1])
        case Threw(e) => Threw(e)
        case Returned(x) => Returned(fs + [x])
  }

  /** Once a prefix of the objects throws, the whole loop throws the same. */
  lemma {:induction false} ThrowPersists(topology: Json, objects: seq<Json>, feature: (Json, Json) -> Outcome<Json>, k: nat)
    requires k <= |objects| && Features(topology, objects[..k], feature).Threw?
    ensures Features(topology, objects, feature) == Features(topology, objects[..k], feature)
    decreases |objects| - k
  {
    if k < |objects| {
      var next := objects[..k + 1];
      assert next[..|next| - 1] == objects[..k];
      ThrowPersists(topology, objects, feature, k + 1);
    } else {
      assert objects[..k] == objects;
    }
  }

  /** One feature per object, each the conversion of that object, in order. */
  lemma {:induction false} FeaturesOnePerObject(topology: Json, objects: seq<Json>, feature: (Json, Json) -> Outcome<Json>)
    requires Features(topology, objects, feature).Returned?
    ensures |Features(topology, objects, feature).value| == |objects|
    ensures forall i :: 0 <= i < |objects| ==>
      feature(topology, objects[i]) == Returned(Features(topology, objects, feature).value[i])
    decreases |objects|
  {
    if objects != [] {
      var init := objects[..|objects| - 1];
      FeaturesOnePerObject(topology, init, feature);
      forall i | 0 <= i < |objects| - 1
        ensures objects[i] == init[i]
      {
      }
    }
  }

  /** The loop completes exactly when no object's conversion throws. */
  lemma {:induction false} FeaturesSucceedIff(topology: Json, objects: seq<Json>, feature: (Json, Json) -> Outcome<Json>)
    ensures Features(topology, objects, feature).Returned? <==>
      forall i :: 0 <= i < |objects| ==> feature(topology, objects[i]).Returned?
    decreases |objects|
  {
    if objects != [] {
      var init := objects[..|objects| - 1];
      FeaturesSucceedIff(topology, init, feature);
      assert forall i :: 0 <= i < |objects| - 1 ==> objects[i] == init[i];
    }
  }

  /** A throwing loop reports the error of the first object whose conversion throws. */
  lemma {:induction false} FeaturesFirstError(topology: Json, objects: seq<Json>, feature: (Json, Json) -> Outcome<Json>)
    requires Features(topology, objects, feature).Threw?
    ensures exists k :: (0 <= k < |objects|
      && feature(topology, objects[k]) == Threw(Features(topology, objects, feature).error)
      && forall j :: 0 <= j < k ==> feature(topology, objects[j]).Returned?)
    decreases |objects|
  {
    var init := objects[..|objects| - 1];
    assert forall i :: 0 <= i < |objects| - 1 ==> objects[i] == init[i];
    if Features(topology, init, feature).Threw? {
      FeaturesFirstError(topology, init, feature);
      var k :| 0 <= k < |init|
        && feature(topology, init[k]) == Threw(Features(topology, init, feature).error)
        && forall j :: 0 <= j < k ==> feature(topology, init[j]).Returned?;
      assert objects[k] == init[k];
    } else {
      FeaturesSucceedIff(topology, init, feature);
      var k := |objects| - 1;
      assert forall j :: 0 <= j < k ==> feature(topology, objects[j]).Returned?;
    }
  }

  /** The loop `for (var o in gj.objects) collection.features.push(topojson.feature(gj, gj.objects[o]))`,
      with `collection` built around the pushed features. */
  method FlattenTopology(topology: Json, objects: seq<Json>, feature: (Json, Json) -> Outcome<Json>)
    returns (r: Outcome<Json>)
    ensures r.Returned? <==> Features(topology, objects, feature).Returned?
    ensures r.Returned? ==> r.value == FeatureCollection(Features(topology, objects, feature).value)
    ensures r.Threw? ==> r.error == Features(topology, objects, feature).error
  {
    var features: seq<Json> := [];
    var k := 0;
    while k < |objects|
      invariant 0 <= k <= |objects|
      invariant Features(topology, objects[..k], feature) == Returned(features)
    {
      var next := objects[..k + 1];
      assert next[..|next| - 1] == objects[..k];
      match feature(topology, objects[k]) {
        case Threw(e) =>
          ThrowPersists(topology, objects, feature, k + 1);
          return Threw(e);
        case Returned(x) =>
          features := features + [x];
      }
      k := k + 1;
    }
    assert objects[..k] == objects;
    return Returned(FeatureCollection(features));
  }

  // ---- the switch ----

  /** The switch over `detectType(f)`, up to the `if (gj)` test. */
  function Convert(f: ImportedFile, text: string, env: Collaborators, b: Bindings): Stage
  {
    Switch(DetectType(f), f, text, env, b)
  }

  /** The switch's cases, for the kind `kind` the detector answered. */
  function Switch(kind: FileKind, f: ImportedFile, text: string, env: Collaborators, b: Bindings): Stage
  {
    match kind
    case Kml =>
      (match env.toDom(text)
       case None => Stop([Alerted(InvalidKmlMessage)], Normal)
       case Some(doc) =>
         var warning := if doc.networkLinks > 0 then [Alerted(NetworkLinkMessage)] else [];
         match env.kml(doc)
         case Threw(e) => Stop(warning, Thrown(Uncaught(e)))
         case Returned(v) => Continue(warning, Some(v)))
    case Gpx =>
      (match env.gpx(env.toDom(text))
       case Threw(e) => Stop([], Thrown(Uncaught(e)))
       case Returned(v) => Continue([], Some(v)))
    case GeoJson =>
      (match env.parseJson(text)
       case Threw(e) => Stop(InvalidJson(text, e), Normal)
       case Returned(v) =>
         if !IsTopology(v) then Continue([], Some(v))
         else
           match Features(v, TopologyObjects(v), env.topoFeature)
           case Threw(e) => Stop(InvalidJson(text, e), Normal)
           case Returned(fs) => Continue([], Some(FeatureCollection(fs))))
    case Dsv =>
      (match env.csv(text)
       case None =>
         if b.container then Continue([GeocodeOpened(text)], None)
         else Stop([], Thrown(ContainerUndefined))
       case Some(result) => Continue([], Some(result)))
    case Unsupported =>
      Stop(UnsupportedFile(f, text), Normal)
  }

  /** The switch runs the case of the detected kind. */
  lemma ConvertIs(f: ImportedFile, text: string, env: Collaborators, b: Bindings, kind: FileKind)
    requires DetectType(f) == kind
    ensures Convert(f, text, env, b) == Switch(kind, f, text, env, b)
  {
  }

  /** A whole run of `onload`: the switch, then the host updates when `gj` is truthy. */
  function Load(f: ImportedFile, text: string, env: Collaborators, b: Bindings): Run
  {
    match Convert(f, text, env, b)
    case Stop(events, c) => Run(events, c)
    case Continue(events, gj) =>
      if !Defined(gj) then Run(events, Normal)
      else if !b.updates then Run(events, Thrown(UpdatesUndefined))
      else Run(events + UpdateSequence(gj.value), Normal)
  }

  /** The KML case: parse, warn about NetworkLinks, convert. */
  method KmlCase(page: Page, f: ImportedFile, text: string, env: Collaborators, b: Bindings)
    returns (st: Stage)
    modifies page
    ensures st == Switch(Kml, f, text, env, b)
    ensures page.log == old(page.log) + st.events
  {
    var kmldom := env.toDom(text);
    if kmldom.None? {
      page.Alert(InvalidKmlMessage);
      return Stop([Alerted(InvalidKmlMessage)], Normal);
    }
    var warning: seq<Event> := [];
    if kmldom.value.networkLinks > 0 {
      page.Alert(NetworkLinkMessage);
      warning := [Alerted(NetworkLinkMessage)];
    }
    match env.kml(kmldom.value) {
      case Threw(e) => return Stop(warning, Thrown(Uncaught(e)));
      case Returned(v) => return Continue(warning, Some(v));
    }
  }

  /** The GeoJSON case: parse, flatten a topology, report what throws. */
  method GeoJsonCase(page: Page, f: ImportedFile, text: string, env: Collaborators, b: Bindings)
    returns (st: Stage)
    modifies page
    ensures st == Switch(GeoJson, f, text, env, b)
    ensures page.log == old(page.log) + st.events
  {
    match env.parseJson(text) {
      case Threw(e) =>
        page.Alert("Invalid JSON file: " + e);
        page.Track("Uploaded invalid JSON", [("snippet", Snippet(text))]);
        return Stop(InvalidJson(text, e), Normal);
      case Returned(v) =>
        if !IsTopology(v) {
          return Continue([], Some(v));
        }
        var collection := FlattenTopology(v, TopologyObjects(v), env.topoFeature);
        match collection {
          case Threw(e) =>
            page.Alert("Invalid JSON file: " + e);
            page.Track("Uploaded invalid JSON", [("snippet", Snippet(text))]);
            return Stop(InvalidJson(text, e), Normal);
          case Returned(fc) =>
            return Continue([], Some(fc));
        }
    }
  }

  /** The delimited-text case: convert, or fall back to the geocoding panel. */
  method DsvCase(page: Page, f: ImportedFile, text: string, env: Collaborators, b: Bindings)
    returns (st: Stage)
    modifies page
    ensures st == Switch(Dsv, f, text, env, b)
    ensures page.log == old(page.log) + st.events
  {
    match env.csv(text) {
      case None =>
        if !b.container {
          return Stop([], Thrown(ContainerUndefined));
        }
        page.HandleGeocode(text);
        return Continue([GeocodeOpened(text)], None);
      case Some(result) =>
        return Continue([], Some(result));
    }
  }

  /** `reader.onload`, with the file's text already read: the switch over
      the detected kind, then the host updates when `gj` is truthy. */
  method OnLoad(page: Page, f: ImportedFile, text: string, env: Collaborators, b: Bindings)
    returns (c: Completion)
    modifies page
    ensures page.log == old(page.log) + Load(f, text, env, b).events
    ensures c == Load(f, text, env, b).completion
  {
    var st: Stage;
    match DetectType(f) {
      case Kml => st := KmlCase(page, f, text, env, b);
      case Gpx =>
        match env.gpx(env.toDom(text)) {
          case Threw(e) => st := Stop([], Thrown(Uncaught(e)));
          case Returned(v) => st := Continue([], Some(v));
        }
      case GeoJson => st := GeoJsonCase(page, f, text, env, b);
      case Dsv => st := DsvCase(page, f, text, env, b);
      case Unsupported =>
        page.Track("Invalid file", [("type", f.mimeType), ("snippet", Snippet(text))]);
        page.Alert(UnsupportedMessage);
        st := Stop(UnsupportedFile(f, text), Normal);
    }
    assert st == Convert(f, text, env, b);
    match st {
      case Stop(_, completion) => return completion;
      case Continue(_, gj) =>
        if Defined(gj) {
          if !b.updates {
            return Thrown(UpdatesUndefined);
          }
          page.UpdateEditor(gj.value);
          page.ZoomExtent();
          page.UpdateGeoJson();
        }
        return Normal;
    }
  }

  // ---- properties of a run ----

  /** The switch itself never updates the host. */
  lemma SwitchLeavesHostAlone(kind: FileKind, f: ImportedFile, text: string, env: Collaborators, b: Bindings)
    ensures HostUpdates(Switch(kind, f, text, env, b).events) == []
  {
    var es := Switch(kind, f, text, env, b).events;
    assert forall e :: e in es ==> !IsHostUpdate(e);
  }

  /** The three host updates happen exactly once, in order, at the end of
      the run, exactly when the switch leaves a truthy `gj` and `updates`
      is bound; otherwise the run makes no host update at all. */
  lemma UpdatesExactlyOnce(f: ImportedFile, text: string, env: Collaborators, b: Bindings)
    ensures var st := Convert(f, text, env, b);
      HostUpdates(Load(f, text, env, b).events) ==
        if st.Continue? && Defined(st.gj) && b.updates then UpdateSequence(st.gj.value) else []
    ensures var st := Convert(f, text, env, b);
      st.Continue? && Defined(st.gj) && b.updates ==>
        Load(f, text, env, b) == Run(st.events + UpdateSequence(st.gj.value), Normal)
  {
    var st := Convert(f, text, env, b);
    SwitchLeavesHostAlone(DetectType(f), f, text, env, b);
    if st.Continue? && Defined(st.gj) && b.updates {
      var u := UpdateSequence(st.gj.value);
      HostUpdatesAppend(st.events, u);
      UpdateSequenceIsAllUpdates(st.gj.value);
    }
  }

  /** A KML file that does not parse as XML is reported and nothing else happens. */
  lemma InvalidKmlStops(f: ImportedFile, text: string, env: Collaborators, b: Bindings)
    requires DetectType(f) == Kml && env.toDom(text).None?
    ensures Load(f, text, env, b) == Run([Alerted(InvalidKmlMessage)], Normal)
  {
  }

  /** NetworkLinks raise a warning, yet the document is still converted and imported. */
  lemma NetworkLinksWarnThenImport(f: ImportedFile, text: string, env: Collaborators, b: Bindings, doc: XmlDoc, v: Json)
    requires DetectType(f) == Kml && env.toDom(text) == Some(doc) && doc.networkLinks > 0
    requires env.kml(doc) == Returned(v) && Truthy(v) && b.updates
    ensures Load(f, text, env, b) == Run([Alerted(NetworkLinkMessage)] + UpdateSequence(v), Normal)
  {
  }

  /** Text that is not JSON is reported with a 20-character snippet and stops the run. */
  lemma InvalidJsonStops(f: ImportedFile, text: string, env: Collaborators, b: Bindings)
    requires DetectType(f) == GeoJson && env.parseJson(text).Threw?
    ensures Load(f, text, env, b) == Run(InvalidJson(text, env.parseJson(text).error), Normal)
    ensures HostUpdates(Load(f, text, env, b).events) == []
  {
    UpdatesExactlyOnce(f, text, env, b);
  }

  /** An unsupported file is tracked and reported and stops the run. */
  lemma UnsupportedStops(f: ImportedFile, text: string, env: Collaborators, b: Bindings)
    requires DetectType(f) == Unsupported
    ensures Load(f, text, env, b) == Run(UnsupportedFile(f, text), Normal)
    ensures HostUpdates(Load(f, text, env, b).events) == []
  {
    UpdatesExactlyOnce(f, text, env, b);
  }

  /** A topology becomes one collection holding one feature per object, in
      enumeration order, when every object converts. */
  lemma TopologyImported(f: ImportedFile, text: string, env: Collaborators, b: Bindings, v: Json)
    requires DetectType(f) == GeoJson && env.parseJson(text) == Returned(v) && IsTopology(v) && b.updates
    requires forall i :: 0 <= i < |TopologyObjects(v)| ==> env.topoFeature(v, TopologyObjects(v)[i]).Returned?
    ensures Features(v, TopologyObjects(v), env.topoFeature).Returned?
    ensures var fs := Features(v, TopologyObjects(v), env.topoFeature).value;
      && |fs| == |TopologyObjects(v)|
      && (forall i :: 0 <= i < |fs| ==> env.topoFeature(v, TopologyObjects(v)[i]) == Returned(fs[i]))
      && Load(f, text, env, b) == Run(UpdateSequence(FeatureCollection(fs)), Normal)
  {
    FeaturesSucceedIff(v, TopologyObjects(v), env.topoFeature);
    FeaturesOnePerObject(v, TopologyObjects(v), env.topoFeature);
    CollectionShape(Features(v, TopologyObjects(v), env.topoFeature).value);
  }

  lemma TopologyThrowStops(f: ImportedFile, text: string, env: Collaborators, b: Bindings, v: Json)
    requires DetectType(f) == GeoJson && env.parseJson(text) == Returned(v) && IsTopology(v)
    requires Features(v, TopologyObjects(v), env.topoFeature).Threw?
    ensures Load(f, text, env, b) == Run(InvalidJson(text, Features(v, TopologyObjects(v), env.topoFeature).error), Normal)
  {
    ConvertIs(f, text, env, b, GeoJson);
  }

  /** An object that throws while a topology is flattened is reported like bad JSON. */
  lemma TopologyErrorStops(f: ImportedFile, text: string, env: Collaborators, b: Bindings, v: Json, k: nat)
    requires DetectType(f) == GeoJson && env.parseJson(text) == Returned(v) && IsTopology(v)
    requires k < |TopologyObjects(v)| && env.topoFeature(v, TopologyObjects(v)[k]).Threw?
    ensures Features(v, TopologyObjects(v), env.topoFeature).Threw?
      && Load(f, text, env, b) ==
        Run(InvalidJson(text, Features(v, TopologyObjects(v), env.topoFeature).error), Normal)
  {
    FeaturesSucceedIff(v, TopologyObjects(v), env.topoFeature);
    TopologyThrowStops(f, text, env, b, v);
  }

  /** Parsed JSON that is not a topology is imported unchanged; a falsy one
      (`null`, `0`, `false`, `""`) is silently ignored. */
  lemma OtherJsonPassesThrough(f: ImportedFile, text: string, env: Collaborators, b: Bindings, v: Json)
    requires DetectType(f) == GeoJson && env.parseJson(text) == Returned(v) && !IsTopology(v)
    ensures Load(f, text, env, b) ==
      if !Truthy(v) then Run([], Normal)
      else if b.updates then Run(UpdateSequence(v), Normal)
      else Run([], Thrown(UpdatesUndefined))
  {
  }

  /** Delimited text that converts is imported as the converter's collection. */
  lemma CsvConvertedImports(f: ImportedFile, text: string, env: Collaborators, b: Bindings, r: Json)
    requires DetectType(f) == Dsv && env.csv(text) == Some(r) && Truthy(r) && b.updates
    ensures Load(f, text, env, b) == Run(UpdateSequence(r), Normal)
  {
  }

  // ---- the two defects of the source, and the runs with both names bound ----

  /** As written, a file chosen with the picker never reaches the host: a run
      that would update it throws instead, on the undefined `updates`. */
  lemma PickerNeverUpdatesHost(f: ImportedFile, text: string, env: Collaborators)
    ensures HostUpdates(Load(f, text, env, AsWritten(Click)).events) == []
    ensures var st := Convert(f, text, env, AsWritten(Click));
      st.Continue? && Defined(st.gj) ==> Load(f, text, env, AsWritten(Click)).completion == Thrown(UpdatesUndefined)
  {
    UpdatesExactlyOnce(f, text, env, AsWritten(Click));
  }

  /** Any truthy JSON that is not a topology, picked rather than dropped,
      throws instead of reaching the host; bound, it would be imported. */
  lemma PickedJsonIsLost(f: ImportedFile, text: string, env: Collaborators, v: Json)
    requires DetectType(f) == GeoJson && env.parseJson(text) == Returned(v) && Truthy(v) && !IsTopology(v)
    ensures Load(f, text, env, AsWritten(Click)) == Run([], Thrown(UpdatesUndefined))
    ensures Load(f, text, env, Intended) == Run(UpdateSequence(v), Normal)
  {
    OtherJsonPassesThrough(f, text, env, AsWritten(Click), v);
    OtherJsonPassesThrough(f, text, env, Intended, v);
  }

  /** A concrete picked file: `a.geojson` holding `{}` throws and the host sees nothing. */
  lemma PickedGeoJsonIsLost(f: ImportedFile, text: string, env: Collaborators)
    requires f == ImportedFile(Some("a.geojson"), "") && env.parseJson(text) == Returned(JObj([]))
    ensures Load(f, text, env, AsWritten(Click)) == Run([], Thrown(UpdatesUndefined))
    ensures Load(f, text, env, Intended) == Run(UpdateSequence(JObj([])), Normal)
  {
    GeoJsonNameIsGeoJson("a.geojson");
    PickedJsonIsLost(f, text, env, JObj([]));
  }

  /** With `updates` bound for the picker as for the drop handler,
      every run that leaves a truthy `gj` ends with the three host updates. */
  lemma IntendedImportUpdatesHost(f: ImportedFile, text: string, env: Collaborators)
    requires Convert(f, text, env, Intended).Continue? && Defined(Convert(f, text, env, Intended).gj)
    ensures var st := Convert(f, text, env, Intended);
      Load(f, text, env, Intended) == Run(st.events + UpdateSequence(st.gj.value), Normal)
    ensures HostUpdates(Load(f, text, env, Intended).events)
      == UpdateSequence(Convert(f, text, env, Intended).gj.value)
  {
    UpdatesExactlyOnce(f, text, env, Intended);
  }

  /** As written, delimited text csv2geojson rejects never reaches the
      geocoding panel: reading `container` throws first. */
  lemma DsvFallbackThrows(f: ImportedFile, text: string, env: Collaborators, via: Via)
    requires DetectType(f) == Dsv && env.csv(text).None?
    ensures Load(f, text, env, AsWritten(via)) == Run([], Thrown(ContainerUndefined))
  {
  }

  /** With `container` bound, rejected delimited text opens the geocoding
      panel on the file's text and makes no host update. */
  lemma DsvFallbackOpensGeocode(f: ImportedFile, text: string, env: Collaborators)
    requires DetectType(f) == Dsv && env.csv(text).None?
    ensures Load(f, text, env, Intended) == Run([GeocodeOpened(text)], Normal)
  {
  }
}
