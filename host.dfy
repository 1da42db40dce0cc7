/** The observable effects of the import panel, as an appended trace: the
    user-visible alerts, the analytics events, the three host updates and
    the opening of the geocoding panel. */
module Host {
  import opened Json

  datatype Event =
    | Alerted(message: string)                      // window.alert
    | Tracked(name: string, props: seq<(string, string)>)  // analytics.track
    | EditorUpdated(gj: Json)                       // updates.update_editor(gj)
    | ZoomedToExtent                                // updates.zoom_extent()
    | GeoJsonRefreshed                              // updates.update_geojson()
    | GeocodeOpened(text: string)                   // handleGeocode(..., text, ...)

  predicate IsHostUpdate(e: Event)
  {
    e.EditorUpdated? || e.ZoomedToExtent? || e.GeoJsonRefreshed?
  }

  /** The host updates of a trace, in order. */
  function HostUpdates(trace: seq<Event>): (r: seq<Event>)
    ensures |r| <= |trace|
    ensures forall e :: e in r ==> e in trace && IsHostUpdate(e)
    ensures forall e :: e in trace && IsHostUpdate(e) ==> e in r
  {
    if trace == [] then []
    else (if IsHostUpdate(trace[0]) then [trace[0]] else []) + HostUpdates(trace[1..])
  }

  lemma {:induction false} HostUpdatesAppend(a: seq<Event>, b: seq<Event>)
    ensures HostUpdates(a + b) == HostUpdates(a) + HostUpdates(b)
    decreases |a|
  {
    if a != [] {
      assert (a + b)[0] == a[0];
      assert (a + b)[1..] == a[1..] + b;
      HostUpdatesAppend(a[1..], b);
      var h := if IsHostUpdate(a[0]) then [a[0]] else [];
      assert HostUpdates(a + b) == h + HostUpdates(a[1..] + b);
    } else {
      assert a + b == b;
    }
  }

  /** The sequence the successful import ends with. */
  function UpdateSequence(gj: Json): seq<Event>
  {
    [EditorUpdated(gj), ZoomedToExtent, GeoJsonRefreshed]
  }

  lemma UpdateSequenceIsAllUpdates(gj: Json)
    ensures HostUpdates(UpdateSequence(gj)) == UpdateSequence(gj)
  {
    var u := UpdateSequence(gj);
    assert u[1..][1..][1..] == [];
    assert HostUpdates(u[2..]) == [u[2]] + HostUpdates(u[3..]);
    assert HostUpdates(u[1..]) == [u[1]] + HostUpdates(u[2..]);
  }

  /** The page the import panel runs in: everything it does to the user, to
      analytics and to the host is appended to `log`. */
  class Page {
    var log: seq<Event>

    constructor ()
      ensures log == []
    {
      log := [];
    }

    method Alert(message: string)
      modifies this
      ensures log == old(log) + [Alerted(message)]
    {
      log := log + [Alerted(message)];
    }

    method Track(name: string, props: seq<(string, string)>)
      modifies this
      ensures log == old(log) + [Tracked(name, props)]
    {
      log := log + [Tracked(name, props)];
    }

    method UpdateEditor(gj: Json)
      modifies this
      ensures log == old(log) + [EditorUpdated(gj)]
    {
      log := log + [EditorUpdated(gj)];
    }

    method ZoomExtent()
      modifies this
      ensures log == old(log) + [ZoomedToExtent]
    {
      log := log + [ZoomedToExtent];
    }

    method UpdateGeoJson()
      modifies this
      ensures log == old(log) + [GeoJsonRefreshed]
    {
      log := log + [GeoJsonRefreshed];
    }

    method HandleGeocode(text: string)
      modifies this
      ensures log == old(log) + [GeocodeOpened(text)]
    {
      log := log + [GeocodeOpened(text)];
    }
  }
}
