/** The views the tracking page derives from its state
    (pages/admin/AdminTrackingPage.tsx): the active roster, the selected researcher's
    route, the markers with their viewport fit, and the sidebar with its status labels.
    The map surface is reduced to what is drawn on it and what the viewport is fitted to. */
module TrackingViews {
  import opened Seqs
  import opened TrackingTypes
  import opened LatestPositions

  // ---------------------------------------------------------------- roster

  /** `researchersData.filter(r => r.isActive)`: the researchers the page displays. */
  function ActiveRoster(fetched: seq<Researcher>): (roster: seq<Researcher>)
    ensures forall r :: r in roster ==> r in fetched && r.isActive
    ensures forall r :: r in fetched && r.isActive ==> r in roster
    ensures IsSubsequence(roster, fetched)
  {
    Filter(fetched, (r: Researcher) => r.isActive)
  }

  /** `researchers.find(r => r.id === id)`. */
  function ResearcherOf(roster: seq<Researcher>, id: string): (found: Option<Researcher>)
    ensures found.Some? ==> found.value in roster && found.value.id == id
    ensures found.None? <==> forall r :: r in roster ==> r.id != id
  {
    Find(roster, (r: Researcher) => r.id == id)
  }

  // ---------------------------------------------------------------- selection

  /** JavaScript truthiness of `selectedResearcherId` (`string | null`): the empty
      string counts as "nothing selected". */
  predicate HasSelection(selected: Option<string>) {
    selected.Some? && selected.value != ""
  }

  // ---------------------------------------------------------------- route

  /** `locations.filter(loc => loc.researcherId === id)`: the researcher's samples in
      the order the backend returned them; nothing sorts them by time. */
  function Route(locations: seq<Sample>, id: string): (route: seq<Sample>)
    ensures forall loc :: loc in route ==> loc in locations && loc.researcherId == id
    ensures forall loc :: loc in locations && loc.researcherId == id ==> loc in route
    ensures IsSubsequence(route, locations)
  {
    Filter(locations, (loc: Sample) => loc.researcherId == id)
  }

  /** The route of two batches is the route of the first followed by that of the
      second: input order is kept and nothing is reordered by timestamp. */
  lemma RouteAppend(a: seq<Sample>, b: seq<Sample>, id: string)
    ensures Route(a + b, id) == Route(a, id) + Route(b, id)
  {
    FilterAppend(a, b, (loc: Sample) => loc.researcherId == id);
  }

  /** What the route effect leaves on the map (lines 117-130): nothing when the map is
      not mounted; otherwise the route layer is cleared and, when something is selected
      and its route is non-empty, the route is drawn and the viewport fitted to it. */
  datatype RouteSync =
    | RouteUntouched
    | RouteRedrawn(polyline: Option<seq<LatLng>>, fitTo: Option<seq<LatLng>>)

  function SyncRoute(mapReady: bool, selected: Option<string>, locations: seq<Sample>): (sync: RouteSync)
    ensures sync.RouteUntouched? <==> !mapReady
    ensures sync.RouteRedrawn? ==>
      (sync.polyline.Some? <==> HasSelection(selected) && selected.value in Ids(locations))
    ensures sync.RouteRedrawn? && sync.polyline.Some? ==>
      sync.polyline.value == Positions(Route(locations, selected.value)) && sync.fitTo == sync.polyline
    ensures sync.RouteRedrawn? && sync.polyline.None? ==> sync.fitTo.None?
  {
    if !mapReady then RouteUntouched
    else if HasSelection(selected) then
      var route := Route(locations, selected.value);
      if |route| > 0 then
        assert route[0] in route;
        RouteRedrawn(Some(Positions(route)), Some(Positions(route)))
      else
        assert selected.value !in Ids(locations);
        RouteRedrawn(None, None)
    else RouteRedrawn(None, None)
  }

  // ---------------------------------------------------------------- markers

  /** A marker with the data of its popup: the researcher's name and the sample time. */
  datatype Marker = Marker(position: LatLng, name: string, lastUpdate: int)

  /** What the marker effect leaves on the map (lines 95-115). */
  datatype MarkerSync =
    | MarkersUntouched
    | MarkersRedrawn(markers: seq<Marker>, fitTo: Option<seq<LatLng>>)

  function MarkerOf(loc: Sample, r: Researcher): Marker {
    Marker(PositionOf(loc), r.name, loc.timestamp)
  }

  /** The markers the `forEach` of lines 102-110 adds after visiting `latest`: one for
      every latest sample whose researcher is in the roster, named after the first
      roster entry with that id. */
  function MarkersFor(latest: seq<Sample>, roster: seq<Researcher>): seq<Marker>
    decreases |latest|
  {
    if latest == [] then []
    else
      var prior := MarkersFor(latest[..|latest| - 1], roster);
      var loc := latest[|latest| - 1];
      match ResearcherOf(roster, loc.researcherId)
      case Some(r) => prior + [MarkerOf(loc, r)]
      case None => prior
  }

  predicate InRoster(roster: seq<Researcher>, loc: Sample) {
    ResearcherOf(roster, loc.researcherId).Some?
  }

  /** The test of line 104 as a function of the sample. */
  function InRosterTest(roster: seq<Researcher>): Sample -> bool {
    (loc: Sample) => InRoster(roster, loc)
  }

  /** The latest samples that get a marker, in order: those whose researcher is in the roster. */
  function Paired(latest: seq<Sample>, roster: seq<Researcher>): seq<Sample> {
    Filter(latest, InRosterTest(roster))
  }

  /** The markers are exactly the latest samples paired with their roster entry: the
      k-th marker sits at the k-th paired sample and names that sample's researcher.
      Hence there are never more markers than latest samples. */
  lemma {:induction false} MarkersArePaired(latest: seq<Sample>, roster: seq<Researcher>)
    ensures var markers, paired := MarkersFor(latest, roster), Paired(latest, roster);
      && |markers| == |paired| <= |latest|
      && forall k :: 0 <= k < |markers| ==>
           && ResearcherOf(roster, paired[k].researcherId).Some?
           && markers[k] == MarkerOf(paired[k], ResearcherOf(roster, paired[k].researcherId).value)
    decreases |latest|
  {
    if latest != [] {
      var prefix, loc := latest[..|latest| - 1], latest[|latest| - 1];
      assert latest == prefix + [loc];
      MarkersArePaired(prefix, roster);
      FilterAppend(prefix, [loc], InRosterTest(roster));
      assert Paired(latest, roster) == Paired(prefix, roster) + Filter([loc], InRosterTest(roster));
      assert [loc][1..] == [];
      if InRoster(roster, loc) {
        assert Filter([loc], InRosterTest(roster)) == [loc];
      } else {
        assert Filter([loc], InRosterTest(roster)) == [];
      }
    }
  }

  /** With the roster filtered to the active researchers, a latest sample gets a marker
      exactly when some active researcher carries its id. */
  lemma MarkerIffActive(latest: seq<Sample>, fetched: seq<Researcher>, loc: Sample)
    requires loc in latest
    ensures loc in Paired(latest, ActiveRoster(fetched)) <==>
      exists r :: r in fetched && r.isActive && r.id == loc.researcherId
  {
    var roster := ActiveRoster(fetched);
    if loc in Paired(latest, roster) {
      var r := ResearcherOf(roster, loc.researcherId).value;
      assert r in fetched && r.isActive && r.id == loc.researcherId;
    } else {
      forall r | r in fetched && r.isActive ensures r.id != loc.researcherId {
        assert r in roster;
      }
    }
  }

  /** Some marker is drawn, and so (with nothing selected) the viewport is fitted,
      exactly when some latest sample belongs to a roster researcher. */
  lemma SomeMarkerIffPaired(latest: seq<Sample>, roster: seq<Researcher>)
    ensures |MarkersFor(latest, roster)| > 0 <==> exists loc :: loc in latest && InRoster(roster, loc)
  {
    MarkersArePaired(latest, roster);
    var paired := Paired(latest, roster);
    if |paired| > 0 {
      assert paired[0] in paired;
    }
  }

  /** The marker effect: clear the layer, add one marker per latest sample whose
      researcher is in the roster and collect its position, then fit the viewport to
      the collected positions when there is at least one and nothing is selected. */
  method SyncMarkers(mapReady: bool, latest: seq<Sample>, roster: seq<Researcher>, selected: Option<string>)
    returns (sync: MarkerSync)
    ensures !mapReady ==> sync == MarkersUntouched
    ensures mapReady ==> sync.MarkersRedrawn? && sync.markers == MarkersFor(latest, roster)
    ensures mapReady ==> (sync.fitTo.Some? <==> |sync.markers| > 0 && !HasSelection(selected))
    ensures sync.MarkersRedrawn? && sync.fitTo.Some? ==>
      |sync.fitTo.value| == |sync.markers| &&
      forall k :: 0 <= k < |sync.markers| ==> sync.fitTo.value[k] == sync.markers[k].position
  {
    if !mapReady {
      return MarkersUntouched;
    }
    var markers: seq<Marker> := [];
    var fitTo: Option<seq<LatLng>> := None;
    if |latest| > 0 {
      var bounds: seq<LatLng> := [];
      var i := 0;
      while i < |latest|
        invariant 0 <= i <= |latest|
        invariant markers == MarkersFor(latest[..i], roster)
        invariant |bounds| == |markers|
        invariant forall k :: 0 <= k < |markers| ==> bounds[k] == markers[k].position
      {
        var loc := latest[i];
        var researcher := ResearcherOf(roster, loc.researcherId);
        if researcher.Some? {
          markers := markers + [MarkerOf(loc, researcher.value)];
          bounds := bounds + [PositionOf(loc)];
        }
        assert latest[..i + 1][..i] == latest[..i];
        i := i + 1;
      }
      assert latest[..i] == latest;
      if |bounds| > 0 && !HasSelection(selected) {
        fitTo := Some(bounds);
      }
    }
    sync := MarkersRedrawn(markers, fitTo);
  }

  // ---------------------------------------------------------------- sidebar

  /** The label under a researcher's name (lines 165-179). */
  datatype Status = Online(lastSeen: int) | Offline

  /** `latestLocations.find(l => l.researcherId === id)`, turned into a label: Online
      with the time of that sample when there is one, Offline otherwise. No recency
      threshold is applied. */
  function StatusOf(latest: seq<Sample>, id: string): (status: Status)
    ensures status.Online? <==> exists loc :: loc in latest && loc.researcherId == id
    ensures status.Online? ==> exists loc :: loc in latest && loc.researcherId == id && loc.timestamp == status.lastSeen
  {
    match Find(latest, (loc: Sample) => loc.researcherId == id)
    case Some(loc) => Online(loc.timestamp)
    case None => Offline
  }

  /** On the page's `latestLocations`, a researcher is Online exactly when the day has
      at least one sample of theirs, and the time shown is that of their newest sample. */
  lemma StatusReflectsSamples(locations: seq<Sample>, id: string)
    ensures var status := StatusOf(LatestValues(locations), id);
      && (status.Online? <==> id in Ids(locations))
      && (status.Online? ==>
            && (exists loc :: loc in locations && loc.researcherId == id && loc.timestamp == status.lastSeen)
            && (forall loc :: loc in locations && loc.researcherId == id ==> loc.timestamp <= status.lastSeen))
  {
    var latest := LatestValues(locations);
    var status := StatusOf(latest, id);
    LatestValuesSpec(locations);
    if status.Online? {
      var l :| l in latest && l.researcherId == id && l.timestamp == status.lastSeen;
      var k :| 0 <= k < |latest| && latest[k] == l;
      var j :| IsFirstNewest(locations, id, j) && locations[j] == latest[k];
      forall loc | loc in locations && loc.researcherId == id ensures loc.timestamp <= status.lastSeen {
        var i :| 0 <= i < |locations| && locations[i] == loc;
      }
    }
  }

  /** One line of the sidebar list. */
  datatype Entry = Entry(id: string, name: string, photoUrl: string, highlighted: bool, status: Status)

  datatype SidebarBody = Spinner | NoActiveResearchers | Entries(entries: seq<Entry>)

  /** The sidebar: the researcher count in its heading and the body below it. */
  datatype Sidebar = Sidebar(count: nat, body: SidebarBody)

  function EntryOf(r: Researcher, latest: seq<Sample>, selected: Option<string>): Entry {
    Entry(r.id, r.name, r.photoUrl, selected == Some(r.id), StatusOf(latest, r.id))
  }

  /** Lines 155-190: the heading counts the latest samples (not the roster); the
      spinner shows only while loading with no samples yet; an empty roster shows a
      notice; otherwise every roster researcher gets a line, highlighted when it is the
      selected one. */
  function SidebarOf(isLoading: bool, locations: seq<Sample>, roster: seq<Researcher>,
                     latest: seq<Sample>, selected: Option<string>): (view: Sidebar)
    ensures view.count == |latest|
    ensures view.body.Spinner? <==> isLoading && |locations| == 0
    ensures view.body.NoActiveResearchers? <==> !(isLoading && |locations| == 0) && |roster| == 0
    ensures view.body.Entries? ==>
      && |view.body.entries| == |roster|
      && forall k :: 0 <= k < |roster| ==>
           && view.body.entries[k].id == roster[k].id
           && view.body.entries[k].status == StatusOf(latest, roster[k].id)
           && (view.body.entries[k].highlighted <==> selected == Some(roster[k].id))
  {
    var body :=
      if isLoading && |locations| == 0 then Spinner
      else if |roster| > 0 then Entries(seq(|roster|, k requires 0 <= k < |roster| => EntryOf(roster[k], latest, selected)))
      else NoActiveResearchers;
    Sidebar(|latest|, body)
  }
}
