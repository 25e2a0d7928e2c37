/**
 * convertGpx2Kml.py: reading a GPX document into waypoints, routes and
 * tracks (`parse_gpx`) and writing them as an OGC KML 2.2 placemark tree
 * (`build_kml`). Coordinates and elevations stay the attribute or element
 * text they were read from, so the writer copies strings verbatim.
 */
module Gpx2Kml {
  import opened Wrappers
  import opened Text
  import opened Xml

  // ---------------------------------------------------------------------------
  // Namespace detection

  /** The namespace URI of a root tag: the text before its first `}` with `{` stripped from both ends, or "" when the tag has no `}`. */
  function Namespace(rootTag: string): string {
    if '}' in rootTag then StripBy(SplitOn(rootTag, '}')[0], c => c == '{') else ""
  }

  /** The lookup key `q(tag)`: Clark notation `{ns}tag` when a namespace was detected, the bare tag otherwise. */
  function Q(ns: string, tag: string): string {
    if ns != "" then "{" + ns + "}" + tag else tag
  }

  /**
   * For a root tag in Clark notation the detected namespace is its URI, and
   * `q` rebuilds the root's own tag from its local name; for a root tag
   * without a namespace every key is the bare tag.
   */
  lemma NamespaceDetection(uri: string, local: string, tag: string)
    requires uri != [] && '{' !in uri && '}' !in uri
    requires '}' !in tag
    ensures Namespace("{" + uri + "}" + local) == uri
    ensures Q(Namespace("{" + uri + "}" + local), local) == "{" + uri + "}" + local
    ensures Q(Namespace(tag), local) == local
  {
    var root := "{" + uri + "}" + local;
    assert root == ("{" + uri) + ['}'] + local;
    SplitOnFirstField("{" + uri, local, '}');
    assert '}' in root by { assert root[|uri| + 1] == '}'; }
    var drop := c => c == '{';
    assert TrimLeftBy("{" + uri, drop) == uri by {
      assert ("{" + uri)[1..] == uri;
      assert TrimLeftBy(uri, drop) == uri;
    }
    assert TrimRightBy(uri, drop) == uri;
  }

  // ---------------------------------------------------------------------------
  // The parsed GPX content

  /** A route or track point `(lon, lat, ele)`; a missing attribute is None. */
  datatype Point = Point(lon: Option<string>, lat: Option<string>, ele: Option<string>)

  datatype Waypoint = Waypoint(lat: Option<string>, lon: Option<string>, ele: Option<string>, name: string, desc: string)

  datatype Route = Route(name: string, desc: string, points: seq<Point>)

  /** A track keeps only its segments that held at least one point. */
  datatype Track = Track(name: string, desc: string, segments: seq<seq<Point>>)

  /** The stripped text of the first `tag` child, or None when there is no such child or its text is empty. */
  function ChildText(e: Element, tag: string): Option<string> {
    match Find(e, tag)
    case Some(c) => if c.text.Some? && c.text.value != "" then Some(Strip(c.text.value)) else None
    case None => None
  }

  function PointOf(e: Element, ns: string): Point {
    Point(Attr(e, "lon"), Attr(e, "lat"), ChildText(e, Q(ns, "ele")))
  }

  /** The points read from the point elements `es`, one each, in order. */
  function PointList(es: seq<Element>, ns: string): (ps: seq<Point>)
    ensures |ps| == |es|
  {
    if es == [] then [] else PointList(es[..|es| - 1], ns) + [PointOf(es[|es| - 1], ns)]
  }

  /** The points of the `tag` children of `parent`, in document order. */
  function PointsOf(parent: Element, tag: string, ns: string): seq<Point> {
    PointList(FindAll(parent, Q(ns, tag)), ns)
  }

  function WaypointOf(e: Element, ns: string): Waypoint {
    Waypoint(Attr(e, "lat"), Attr(e, "lon"), ChildText(e, Q(ns, "ele")),
             ChildText(e, Q(ns, "name")).GetOr("Waypoint"), ChildText(e, Q(ns, "desc")).GetOr(""))
  }

  function WaypointList(es: seq<Element>, ns: string): (ws: seq<Waypoint>)
    ensures |ws| == |es|
  {
    if es == [] then [] else WaypointList(es[..|es| - 1], ns) + [WaypointOf(es[|es| - 1], ns)]
  }

  function RouteOf(e: Element, ns: string): Route {
    Route(ChildText(e, Q(ns, "name")).GetOr("Route"), ChildText(e, Q(ns, "desc")).GetOr(""),
          PointsOf(e, "rtept", ns))
  }

  function RouteList(es: seq<Element>, ns: string): (rs: seq<Route>)
    ensures |rs| == |es|
  {
    if es == [] then [] else RouteList(es[..|es| - 1], ns) + [RouteOf(es[|es| - 1], ns)]
  }

  /** The point lists of the `trkseg` elements `segs` that hold at least one `trkpt`, in order. */
  function SegmentsOf(segs: seq<Element>, ns: string): (r: seq<seq<Point>>)
    ensures |r| <= |segs|
    ensures forall i :: 0 <= i < |r| ==> r[i] != []
  {
    if segs == [] then []
    else
      var last := PointsOf(segs[|segs| - 1], "trkpt", ns);
      SegmentsOf(segs[..|segs| - 1], ns) + (if last != [] then [last] else [])
  }

  function TrackOf(e: Element, ns: string): Track {
    Track(ChildText(e, Q(ns, "name")).GetOr("Track"), ChildText(e, Q(ns, "desc")).GetOr(""),
          SegmentsOf(FindAll(e, Q(ns, "trkseg")), ns))
  }

  function TrackList(es: seq<Element>, ns: string): (ts: seq<Track>)
    ensures |ts| == |es|
  {
    if es == [] then [] else TrackList(es[..|es| - 1], ns) + [TrackOf(es[|es| - 1], ns)]
  }

  /**
   * Reading keeps document order and drops nothing: the i-th waypoint, route,
   * track and point comes from the i-th matching element, including elements
   * that lack their `lat`/`lon` attributes.
   */
  lemma {:induction false} ParsedInDocumentOrder(es: seq<Element>, ns: string, i: nat)
    requires i < |es|
    ensures WaypointList(es, ns)[i] == WaypointOf(es[i], ns)
    ensures RouteList(es, ns)[i] == RouteOf(es[i], ns)
    ensures TrackList(es, ns)[i] == TrackOf(es[i], ns)
    ensures PointList(es, ns)[i] == PointOf(es[i], ns)
    decreases |es|
  {
    if i < |es| - 1 {
      ParsedInDocumentOrder(es[..|es| - 1], ns, i);
    }
  }

  /**
   * A track loses exactly its empty segments: it ends up with no segments iff
   * every `trkseg` is empty, and when none is empty it keeps one segment per
   * `trkseg` with that segment's points, in order.
   */
  lemma SegmentsKept(segs: seq<Element>, ns: string)
    ensures SegmentsOf(segs, ns) == [] <==> forall i :: 0 <= i < |segs| ==> PointsOf(segs[i], "trkpt", ns) == []
    ensures (forall i :: 0 <= i < |segs| ==> PointsOf(segs[i], "trkpt", ns) != []) ==> SegmentsOf(segs, ns) == AllPoints(segs, ns)
  {
    if SegmentsOf(segs, ns) == [] {
      forall i | 0 <= i < |segs|
        ensures PointsOf(segs[i], "trkpt", ns) == []
      {
        NoSegmentsAt(segs, ns, i);
      }
    }
    if forall i :: 0 <= i < |segs| ==> PointsOf(segs[i], "trkpt", ns) == [] {
      NoPointsNoSegments(segs, ns);
    }
    if forall i :: 0 <= i < |segs| ==> PointsOf(segs[i], "trkpt", ns) != [] {
      AllSegmentsKept(segs, ns);
    }
  }

  /** One `trkseg` gives its point list, unless it is empty. */
  lemma SegmentsOfOne(seg: Element, ns: string)
    ensures SegmentsOf([seg], ns) == if PointsOf(seg, "trkpt", ns) != [] then [PointsOf(seg, "trkpt", ns)] else []
  {
    assert [seg][..0] == [];
  }

  /**
   * Segments are kept independently and in order, also in a track that mixes
   * empty and non-empty segments: the segments of `a + b` are those of `a`,
   * then those of `b`.
   */
  lemma {:induction false} SegmentsSplit(a: seq<Element>, b: seq<Element>, ns: string)
    ensures SegmentsOf(a + b, ns) == SegmentsOf(a, ns) + SegmentsOf(b, ns)
    decreases |b|
  {
    if b == [] {
      assert a + b == a;
    } else {
      var init, last := b[..|b| - 1], PointsOf(b[|b| - 1], "trkpt", ns);
      var c := if last != [] then [last] else [];
      AppendSplitsLast(a, b);
      SegmentsSplit(a, init, ns);
      assert SegmentsOf(a + b, ns) == SegmentsOf(a + init, ns) + c;
      assert SegmentsOf(b, ns) == SegmentsOf(init, ns) + c;
      SeqAssoc(SegmentsOf(a, ns), SegmentsOf(init, ns), c);
    }
  }

  lemma {:induction false} NoSegmentsAt(segs: seq<Element>, ns: string, i: nat)
    requires SegmentsOf(segs, ns) == [] && i < |segs|
    ensures PointsOf(segs[i], "trkpt", ns) == []
    decreases |segs|
  {
    var init, last := segs[..|segs| - 1], PointsOf(segs[|segs| - 1], "trkpt", ns);
    assert SegmentsOf(segs, ns) == SegmentsOf(init, ns) + (if last != [] then [last] else []);
    if i < |init| {
      assert init[i] == segs[i];
      NoSegmentsAt(init, ns, i);
    } else {
      assert i == |segs| - 1;
    }
  }

  lemma {:induction false} NoPointsNoSegments(segs: seq<Element>, ns: string)
    requires forall i :: 0 <= i < |segs| ==> PointsOf(segs[i], "trkpt", ns) == []
    ensures SegmentsOf(segs, ns) == []
    decreases |segs|
  {
    if segs != [] {
      var init := segs[..|segs| - 1];
      forall i | 0 <= i < |init|
        ensures PointsOf(init[i], "trkpt", ns) == []
      {
        assert init[i] == segs[i];
      }
      NoPointsNoSegments(init, ns);
    }
  }

  lemma {:induction false} AllSegmentsKept(segs: seq<Element>, ns: string)
    requires forall i :: 0 <= i < |segs| ==> PointsOf(segs[i], "trkpt", ns) != []
    ensures SegmentsOf(segs, ns) == AllPoints(segs, ns)
    decreases |segs|
  {
    if segs != [] {
      var init, last := segs[..|segs| - 1], PointsOf(segs[|segs| - 1], "trkpt", ns);
      forall i | 0 <= i < |init|
        ensures PointsOf(init[i], "trkpt", ns) != []
      {
        assert init[i] == segs[i];
      }
      AllSegmentsKept(init, ns);
      assert SegmentsOf(segs, ns) == SegmentsOf(init, ns) + [last];
    }
  }

  /** The point lists of all the segments `segs`, empty or not. */
  function AllPoints(segs: seq<Element>, ns: string): (r: seq<seq<Point>>)
    ensures |r| == |segs|
    ensures forall i :: 0 <= i < |r| ==> r[i] == PointsOf(segs[i], "trkpt", ns)
  {
    if segs == [] then [] else AllPoints(segs[..|segs| - 1], ns) + [PointsOf(segs[|segs| - 1], "trkpt", ns)]
  }

  // ---------------------------------------------------------------------------
  // parse_gpx

  /** The inner loop over the `tag` children of `parent`, appending one point each. */
  method ReadPoints(parent: Element, tag: string, ns: string) returns (points: seq<Point>)
    ensures points == PointsOf(parent, tag, ns)
  {
    var es := FindAll(parent, Q(ns, tag));
    points := [];
    var i := 0;
    while i < |es|
      invariant 0 <= i <= |es|
      invariant points == PointList(es[..i], ns)
    {
      var lat := Attr(es[i], "lat");
      var lon := Attr(es[i], "lon");
      var ele := ChildText(es[i], Q(ns, "ele"));
      points := points + [Point(lon, lat, ele)];
      assert es[..i + 1][..i] == es[..i];
      i := i + 1;
    }
    assert es[..i] == es;
  }

  /** The waypoint loop of `parse_gpx`. */
  method ReadWaypoints(ws: seq<Element>, ns: string) returns (waypoints: seq<Waypoint>)
    ensures waypoints == WaypointList(ws, ns)
  {
    waypoints := [];
    var i := 0;
    while i < |ws|
      invariant 0 <= i <= |ws|
      invariant waypoints == WaypointList(ws[..i], ns)
    {
      var wpt := ws[i];
      var ele := ChildText(wpt, Q(ns, "ele"));
      var name := ChildText(wpt, Q(ns, "name")).GetOr("Waypoint");
      var desc := ChildText(wpt, Q(ns, "desc")).GetOr("");
      waypoints := waypoints + [Waypoint(Attr(wpt, "lat"), Attr(wpt, "lon"), ele, name, desc)];
      assert ws[..i + 1][..i] == ws[..i];
      i := i + 1;
    }
    assert ws[..i] == ws;
  }

  /** The route loop of `parse_gpx`. */
  method ReadRoutes(rs: seq<Element>, ns: string) returns (routes: seq<Route>)
    ensures routes == RouteList(rs, ns)
  {
    routes := [];
    var i := 0;
    while i < |rs|
      invariant 0 <= i <= |rs|
      invariant routes == RouteList(rs[..i], ns)
    {
      var rte := rs[i];
      var name := ChildText(rte, Q(ns, "name")).GetOr("Route");
      var desc := ChildText(rte, Q(ns, "desc")).GetOr("");
      var points := ReadPoints(rte, "rtept", ns);
      routes := routes + [Route(name, desc, points)];
      assert rs[..i + 1][..i] == rs[..i];
      i := i + 1;
    }
    assert rs[..i] == rs;
  }

  /** The segment loop of one track: a segment is stored only when it read at least one point. */
  method ReadSegments(segs: seq<Element>, ns: string) returns (segments: seq<seq<Point>>)
    ensures segments == SegmentsOf(segs, ns)
  {
    segments := [];
    var j := 0;
    while j < |segs|
      invariant 0 <= j <= |segs|
      invariant segments == SegmentsOf(segs[..j], ns)
    {
      var segPoints := ReadPoints(segs[j], "trkpt", ns);
      if segPoints != [] {
        segments := segments + [segPoints];
      }
      assert segs[..j + 1][..j] == segs[..j];
      j := j + 1;
    }
    assert segs[..j] == segs;
  }

  /** The track loop of `parse_gpx`. */
  method ReadTracks(ts: seq<Element>, ns: string) returns (tracks: seq<Track>)
    ensures tracks == TrackList(ts, ns)
  {
    tracks := [];
    var i := 0;
    while i < |ts|
      invariant 0 <= i <= |ts|
      invariant tracks == TrackList(ts[..i], ns)
    {
      var trk := ts[i];
      var name := ChildText(trk, Q(ns, "name")).GetOr("Track");
      var desc := ChildText(trk, Q(ns, "desc")).GetOr("");
      var segments := ReadSegments(FindAll(trk, Q(ns, "trkseg")), ns);
      tracks := tracks + [Track(name, desc, segments)];
      assert ts[..i + 1][..i] == ts[..i];
      i := i + 1;
    }
    assert ts[..i] == ts;
  }

  /**
   * `parse_gpx` on a parsed document root: one waypoint per `wpt`, one route
   * per `rte` and one track per `trk` child of the root, in document order,
   * every lookup key built by `q` from the namespace detected once.
   */
  method ParseGpx(root: Element) returns (waypoints: seq<Waypoint>, routes: seq<Route>, tracks: seq<Track>)
    ensures var ns := Namespace(root.tag);
            waypoints == WaypointList(FindAll(root, Q(ns, "wpt")), ns) &&
            routes == RouteList(FindAll(root, Q(ns, "rte")), ns) &&
            tracks == TrackList(FindAll(root, Q(ns, "trk")), ns)
  {
    var ns := "";
    if '}' in root.tag {
      ns := StripBy(SplitOn(root.tag, '}')[0], c => c == '{');
    }
    assert ns == Namespace(root.tag);
    waypoints := ReadWaypoints(FindAll(root, Q(ns, "wpt")), ns);
    routes := ReadRoutes(FindAll(root, Q(ns, "rte")), ns);
    tracks := ReadTracks(FindAll(root, Q(ns, "trk")), ns);
  }

  // ---------------------------------------------------------------------------
  // build_kml

  const KmlNamespace := "http://www.opengis.net/kml/2.2"

  /** Python truthiness of an optional string: present and non-empty. */
  predicate Truthy(o: Option<string>) {
    o.Some? && o.value != ""
  }

  /** `f"{x}"` of an optional string: the string itself, or "None". */
  function Show(o: Option<string>): string {
    match o
    case Some(s) => s
    case None => "None"
  }

  /** One coordinate token: `lon,lat,ele` when the elevation is truthy, `lon,lat` otherwise. */
  function CoordToken(lon: Option<string>, lat: Option<string>, ele: Option<string>): string {
    if Truthy(ele) then Show(lon) + "," + Show(lat) + "," + ele.value else Show(lon) + "," + Show(lat)
  }

  function TokenList(points: seq<Point>): (ts: seq<string>)
    ensures |ts| == |points|
  {
    if points == [] then []
    else
      var p := points[|points| - 1];
      TokenList(points[..|points| - 1]) + [CoordToken(p.lon, p.lat, p.ele)]
  }

  /** The coordinate text of a line: its point tokens joined by single spaces. */
  function CoordText(points: seq<Point>): string {
    Join(TokenList(points), " ")
  }

  /** A placemark: its name, a description only when `desc` is non-empty, then its geometry. */
  function Placemark(name: string, desc: string, geometry: Element): Element {
    Node("Placemark", [Leaf("name", name)] + (if desc != "" then [Leaf("description", desc)] else []) + [geometry])
  }

  function WaypointPlacemark(w: Waypoint): Element {
    Placemark(w.name, w.desc, Node("Point", [Leaf("coordinates", CoordToken(w.lon, w.lat, w.ele))]))
  }

  function LinePlacemark(name: string, desc: string, points: seq<Point>): Element {
    Placemark(name, desc, Node("LineString", [Leaf("tessellate", "1"), Leaf("coordinates", CoordText(points))]))
  }

  /** The name of the `idx`-th (1-based) stored segment of a track with `count` stored segments. */
  function SegmentName(name: string, idx: nat, count: nat): string {
    if count > 1 then name + " (Segment " + NatToString(idx) + ")" else name
  }

  /** One line placemark per segment of `segs`, named as segments of a track with `count` of them. */
  function SegmentPlacemarks(name: string, desc: string, segs: seq<seq<Point>>, count: nat): (r: seq<Element>)
    ensures |r| == |segs|
  {
    if segs == [] then []
    else
      SegmentPlacemarks(name, desc, segs[..|segs| - 1], count)
      + [LinePlacemark(SegmentName(name, |segs|, count), desc, segs[|segs| - 1])]
  }

  function TrackPlacemarks(ts: seq<Track>): seq<Element> {
    if ts == [] then []
    else
      var t := ts[|ts| - 1];
      TrackPlacemarks(ts[..|ts| - 1]) + SegmentPlacemarks(t.name, t.desc, t.segments, |t.segments|)
  }

  /** The number of stored segments over all tracks. */
  function SegmentCount(ts: seq<Track>): nat {
    if ts == [] then 0 else SegmentCount(ts[..|ts| - 1]) + |ts[|ts| - 1].segments|
  }

  function WaypointPlacemarks(ws: seq<Waypoint>): (r: seq<Element>)
    ensures |r| == |ws|
  {
    if ws == [] then [] else WaypointPlacemarks(ws[..|ws| - 1]) + [WaypointPlacemark(ws[|ws| - 1])]
  }

  function RoutePlacemarks(rs: seq<Route>): (r: seq<Element>)
    ensures |r| == |rs|
  {
    if rs == [] then []
    else
      var r := rs[|rs| - 1];
      RoutePlacemarks(rs[..|rs| - 1]) + [LinePlacemark(r.name, r.desc, r.points)]
  }

  /** The children of the KML `Document`: its name, then waypoints, routes and track segments. */
  function DocumentChildren(ws: seq<Waypoint>, rs: seq<Route>, ts: seq<Track>, documentName: string): seq<Element> {
    [Leaf("name", documentName)] + WaypointPlacemarks(ws) + RoutePlacemarks(rs) + TrackPlacemarks(ts)
  }

  function KmlTree(ws: seq<Waypoint>, rs: seq<Route>, ts: seq<Track>, documentName: string): Element {
    Node("{" + KmlNamespace + "}kml", [Node("Document", DocumentChildren(ws, rs, ts, documentName))])
  }

  /** One `Placemark` element: its name, a description only when there is one, then the geometry. */
  method NewPlacemark(name: string, desc: string, geometry: Element) returns (pm: Element)
    ensures pm == Placemark(name, desc, geometry)
  {
    var children := [Leaf("name", name)];
    if desc != "" {
      children := children + [Leaf("description", desc)];
    }
    children := children + [geometry];
    pm := Node("Placemark", children);
  }

  /** The waypoint loop of `build_kml`: one point placemark per waypoint, appended to `doc`. */
  method AppendWaypoints(doc: seq<Element>, waypoints: seq<Waypoint>) returns (out: seq<Element>)
    ensures out == doc + WaypointPlacemarks(waypoints)
  {
    out := doc;
    var i := 0;
    while i < |waypoints|
      invariant 0 <= i <= |waypoints|
      invariant out == doc + WaypointPlacemarks(waypoints[..i])
    {
      var w := waypoints[i];
      var text := if Truthy(w.ele) then Show(w.lon) + "," + Show(w.lat) + "," + w.ele.value
                  else Show(w.lon) + "," + Show(w.lat);
      var pm := NewPlacemark(w.name, w.desc, Node("Point", [Leaf("coordinates", text)]));
      out := out + [pm];
      assert waypoints[..i + 1][..i] == waypoints[..i];
      i := i + 1;
    }
    assert waypoints[..i] == waypoints;
  }

  /** The route loop of `build_kml`: one line placemark per route. */
  method AppendRoutes(doc: seq<Element>, routes: seq<Route>) returns (out: seq<Element>)
    ensures out == doc + RoutePlacemarks(routes)
  {
    out := doc;
    var i := 0;
    while i < |routes|
      invariant 0 <= i <= |routes|
      invariant out == doc + RoutePlacemarks(routes[..i])
    {
      var r := routes[i];
      var pm := NewPlacemark(r.name, r.desc, Node("LineString", [Leaf("tessellate", "1"), Leaf("coordinates", CoordText(r.points))]));
      out := out + [pm];
      assert routes[..i + 1][..i] == routes[..i];
      i := i + 1;
    }
    assert routes[..i] == routes;
  }

  lemma SegmentPlacemarksStep(name: string, desc: string, segs: seq<seq<Point>>, count: nat, j: nat)
    requires j < |segs|
    ensures SegmentPlacemarks(name, desc, segs[..j + 1], count) ==
            SegmentPlacemarks(name, desc, segs[..j], count) + [LinePlacemark(SegmentName(name, j + 1, count), desc, segs[j])]
  {
    assert segs[..j + 1][..j] == segs[..j];
  }

  /** One turn of the segment loop appends the placemark of segment `j`. */
  lemma SegmentLoopStep(doc: seq<Element>, t: Track, j: nat, before: seq<Element>, pm: Element)
    requires j < |t.segments|
    requires before == doc + SegmentPlacemarks(t.name, t.desc, t.segments[..j], |t.segments|)
    requires pm == LinePlacemark(SegmentName(t.name, j + 1, |t.segments|), t.desc, t.segments[j])
    ensures before + [pm] == doc + SegmentPlacemarks(t.name, t.desc, t.segments[..j + 1], |t.segments|)
  {
    SegmentPlacemarksStep(t.name, t.desc, t.segments, |t.segments|, j);
    SeqAssoc(doc, SegmentPlacemarks(t.name, t.desc, t.segments[..j], |t.segments|), [pm]);
  }

  /** The segment loop of `build_kml` for one track: one line placemark per stored segment. */
  method AppendSegments(doc: seq<Element>, t: Track) returns (out: seq<Element>)
    ensures out == doc + SegmentPlacemarks(t.name, t.desc, t.segments, |t.segments|)
  {
    out := doc;
    var j := 0;
    while j < |t.segments|
      invariant 0 <= j <= |t.segments|
      invariant out == doc + SegmentPlacemarks(t.name, t.desc, t.segments[..j], |t.segments|)
    {
      var segName := t.name;
      if |t.segments| > 1 {
        segName := segName + " (Segment " + NatToString(j + 1) + ")";
      }
      assert segName == SegmentName(t.name, j + 1, |t.segments|);
      var pm := NewPlacemark(segName, t.desc, Node("LineString", [Leaf("tessellate", "1"), Leaf("coordinates", CoordText(t.segments[j]))]));
      SegmentLoopStep(doc, t, j, out, pm);
      out := out + [pm];
      j := j + 1;
    }
    assert t.segments[..j] == t.segments;
  }

  /** One turn of the track loop extends the placemarks by the next track's segments. */
  lemma TrackPlacemarksStep(doc: seq<Element>, tracks: seq<Track>, i: nat, before: seq<Element>, after: seq<Element>)
    requires i < |tracks|
    requires before == doc + TrackPlacemarks(tracks[..i])
    requires var t := tracks[i]; after == before + SegmentPlacemarks(t.name, t.desc, t.segments, |t.segments|)
    ensures after == doc + TrackPlacemarks(tracks[..i + 1])
  {
    var t := tracks[i];
    var prev := tracks[..i + 1];
    assert prev[..|prev| - 1] == tracks[..i] && prev[|prev| - 1] == t;
    var tail := SegmentPlacemarks(t.name, t.desc, t.segments, |t.segments|);
    assert TrackPlacemarks(prev) == TrackPlacemarks(tracks[..i]) + tail;
    SeqAssoc(doc, TrackPlacemarks(tracks[..i]), tail);
  }

  /** The track loop of `build_kml`: the segment placemarks of each track in turn. */
  method AppendTracks(doc: seq<Element>, tracks: seq<Track>) returns (out: seq<Element>)
    ensures out == doc + TrackPlacemarks(tracks)
  {
    out := doc;
    var i := 0;
    while i < |tracks|
      invariant 0 <= i <= |tracks|
      invariant out == doc + TrackPlacemarks(tracks[..i])
    {
      var next := AppendSegments(out, tracks[i]);
      TrackPlacemarksStep(doc, tracks, i, out, next);
      out := next;
      i := i + 1;
    }
    assert tracks[..i] == tracks;
  }

  /** `build_kml`: the document's name, then the waypoint, route and track placemarks. */
  method BuildKml(waypoints: seq<Waypoint>, routes: seq<Route>, tracks: seq<Track>, documentName: string)
    returns (kml: Element)
    ensures kml == KmlTree(waypoints, routes, tracks, documentName)
  {
    var doc := [Leaf("name", documentName)];
    doc := AppendWaypoints(doc, waypoints);
    doc := AppendRoutes(doc, routes);
    doc := AppendTracks(doc, tracks);
    kml := Node("{" + KmlNamespace + "}kml", [Node("Document", doc)]);
  }

  // ---------------------------------------------------------------------------
  // Properties of the written document

  /** The i-th waypoint placemark comes from the i-th waypoint, and likewise for routes. */
  lemma {:induction false} WaypointAndRoutePlacemarkAt(ws: seq<Waypoint>, rs: seq<Route>, i: nat)
    ensures i < |ws| ==> WaypointPlacemarks(ws)[i] == WaypointPlacemark(ws[i])
    ensures i < |rs| ==> RoutePlacemarks(rs)[i] == LinePlacemark(rs[i].name, rs[i].desc, rs[i].points)
    decreases |ws| + |rs|
  {
    if i < |ws| - 1 {
      WaypointAndRoutePlacemarkAt(ws[..|ws| - 1], [], i);
    }
    if i < |rs| - 1 {
      WaypointAndRoutePlacemarkAt([], rs[..|rs| - 1], i);
    }
  }

  /** The j-th segment placemark is named and built from the j-th segment. */
  lemma {:induction false} SegmentPlacemarkAt(name: string, desc: string, segs: seq<seq<Point>>, count: nat, j: nat)
    requires j < |segs|
    ensures SegmentPlacemarks(name, desc, segs, count)[j] == LinePlacemark(SegmentName(name, j + 1, count), desc, segs[j])
    decreases |segs|
  {
    if j < |segs| - 1 {
      SegmentPlacemarkAt(name, desc, segs[..|segs| - 1], count, j);
    }
  }

  lemma {:induction false} PlacemarkTotal(ts: seq<Track>)
    ensures |TrackPlacemarks(ts)| == SegmentCount(ts)
    decreases |ts|
  {
    if ts != [] {
      PlacemarkTotal(ts[..|ts| - 1]);
    }
  }

  /** The placemarks of a list of tracks are those of its first part followed by those of the rest. */
  lemma {:induction false} TrackPlacemarksSplit(a: seq<Track>, b: seq<Track>)
    ensures TrackPlacemarks(a + b) == TrackPlacemarks(a) + TrackPlacemarks(b)
    decreases |b|
  {
    if b == [] {
      assert a + b == a;
    } else {
      var init, t := b[..|b| - 1], b[|b| - 1];
      var tail := SegmentPlacemarks(t.name, t.desc, t.segments, |t.segments|);
      AppendSplitsLast(a, b);
      TrackPlacemarksSplit(a, init);
      assert TrackPlacemarks(a + b) == TrackPlacemarks(a + init) + tail;
      assert TrackPlacemarks(b) == TrackPlacemarks(init) + tail;
      SeqAssoc(TrackPlacemarks(a), TrackPlacemarks(init), tail);
    }
  }

  /** The placemarks of track `k` sit after those of the tracks before it. */
  lemma TrackSegmentsAt(ts: seq<Track>, k: nat, j: nat)
    requires k < |ts| && j < |ts[k].segments|
    ensures |TrackPlacemarks(ts[..k])| + j < |TrackPlacemarks(ts)|
    ensures var t := ts[k];
            TrackPlacemarks(ts)[|TrackPlacemarks(ts[..k])| + j] == SegmentPlacemarks(t.name, t.desc, t.segments, |t.segments|)[j]
  {
    var t := ts[k];
    var before, tail, after := TrackPlacemarks(ts[..k]), SegmentPlacemarks(t.name, t.desc, t.segments, |t.segments|), TrackPlacemarks(ts[k + 1..]);
    TrackPlacemarksAround(ts, k);
    assert |tail| == |t.segments|;
    MiddleIndex(TrackPlacemarks(ts), before, tail, after, j);
  }

  /** A non-empty list of tracks gives the placemarks of its first track, then those of the rest. */
  lemma TrackPlacemarksFirst(us: seq<Track>)
    requires us != []
    ensures var t := us[0];
            TrackPlacemarks(us) == SegmentPlacemarks(t.name, t.desc, t.segments, |t.segments|) + TrackPlacemarks(us[1..])
  {
    assert us == us[..1] + us[1..];
    TrackPlacemarksSplit(us[..1], us[1..]);
    assert us[..1] == [us[0]];
    TrackPlacemarksSingle(us[0]);
  }

  lemma TrackPlacemarksSingle(t: Track)
    ensures TrackPlacemarks([t]) == SegmentPlacemarks(t.name, t.desc, t.segments, |t.segments|)
  {
    assert [t][..0] == [];
  }

  /** The placemarks of the tracks before `k`, then those of track `k`, then those of the tracks after it. */
  lemma TrackPlacemarksAround(ts: seq<Track>, k: nat)
    requires k < |ts|
    ensures var t := ts[k];
            TrackPlacemarks(ts) == TrackPlacemarks(ts[..k]) + (SegmentPlacemarks(t.name, t.desc, t.segments, |t.segments|) + TrackPlacemarks(ts[k + 1..]))
  {
    TakeDrop(ts, k);
    TrackPlacemarksSplit(ts[..k], ts[k..]);
    TrackPlacemarksFirst(ts[k..]);
  }

  /** Track `k`'s segment `j` sits after the placemarks of the tracks before `k`. */
  lemma TrackPlacemarkAt(ts: seq<Track>, k: nat, j: nat)
    requires k < |ts| && j < |ts[k].segments|
    ensures SegmentCount(ts[..k]) + j < |TrackPlacemarks(ts)|
    ensures TrackPlacemarks(ts)[SegmentCount(ts[..k]) + j] ==
            LinePlacemark(SegmentName(ts[k].name, j + 1, |ts[k].segments|), ts[k].desc, ts[k].segments[j])
  {
    var t := ts[k];
    PlacemarkTotal(ts[..k]);
    TrackSegmentsAt(ts, k, j);
    SegmentPlacemarkAt(t.name, t.desc, t.segments, |t.segments|, j);
    var n := SegmentCount(ts[..k]) + j;
    assert n == |TrackPlacemarks(ts[..k])| + j;
    assert TrackPlacemarks(ts)[n] == SegmentPlacemarks(t.name, t.desc, t.segments, |t.segments|)[j];
  }

  /**
   * The document starts with its name, then holds one placemark per waypoint,
   * then one per route, then (TrackSegmentPlacemark) one per stored segment of
   * each track, each category in input order; so it has
   * 1 + |waypoints| + |routes| + (stored segments) children.
   */
  lemma PlacemarkOrder(ws: seq<Waypoint>, rs: seq<Route>, ts: seq<Track>, documentName: string)
    ensures var d := DocumentChildren(ws, rs, ts, documentName);
            |d| == 1 + |ws| + |rs| + SegmentCount(ts) && d[0] == Leaf("name", documentName)
    ensures var d := DocumentChildren(ws, rs, ts, documentName);
            forall i :: 0 <= i < |ws| ==> d[1 + i] == WaypointPlacemark(ws[i])
    ensures var d := DocumentChildren(ws, rs, ts, documentName);
            forall i :: 0 <= i < |rs| ==> d[1 + |ws| + i] == LinePlacemark(rs[i].name, rs[i].desc, rs[i].points)
  {
    PlacemarkTotal(ts);
    DocumentChildAt(ws, rs, ts, documentName, 0);
    var d := DocumentChildren(ws, rs, ts, documentName);
    forall i | 0 <= i < |ws| || 0 <= i < |rs|
      ensures i < |ws| ==> d[1 + i] == WaypointPlacemark(ws[i])
      ensures i < |rs| ==> d[1 + |ws| + i] == LinePlacemark(rs[i].name, rs[i].desc, rs[i].points)
    {
      DocumentChildAt(ws, rs, ts, documentName, i);
    }
  }

  /** The header, the i-th waypoint placemark and the i-th route placemark of the document. */
  lemma DocumentChildAt(ws: seq<Waypoint>, rs: seq<Route>, ts: seq<Track>, documentName: string, i: nat)
    ensures var d := DocumentChildren(ws, rs, ts, documentName);
            |d| == 1 + |ws| + |rs| + |TrackPlacemarks(ts)| && d[0] == Leaf("name", documentName)
    ensures var d := DocumentChildren(ws, rs, ts, documentName);
            i < |ws| ==> d[1 + i] == WaypointPlacemark(ws[i])
    ensures var d := DocumentChildren(ws, rs, ts, documentName);
            i < |rs| ==> d[1 + |ws| + i] == LinePlacemark(rs[i].name, rs[i].desc, rs[i].points)
  {
    WaypointAndRoutePlacemarkAt(ws, rs, i);
    var head, marks, routes := [Leaf("name", documentName)], WaypointPlacemarks(ws), RoutePlacemarks(rs);
    var d := DocumentChildren(ws, rs, ts, documentName);
    assert d == head + marks + routes + TrackPlacemarks(ts);
    FourPartsIndex(head, marks, routes, TrackPlacemarks(ts), i);
  }

  /** Segment `j` of track `k` is written after the header, every waypoint and route, and the earlier tracks' segments. */
  lemma TrackSegmentPlacemark(ws: seq<Waypoint>, rs: seq<Route>, ts: seq<Track>, documentName: string, k: nat, j: nat)
    requires k < |ts| && j < |ts[k].segments|
    ensures var d := DocumentChildren(ws, rs, ts, documentName);
            var at := 1 + |ws| + |rs| + SegmentCount(ts[..k]) + j;
            at < |d| &&
            d[at] == LinePlacemark(SegmentName(ts[k].name, j + 1, |ts[k].segments|), ts[k].desc, ts[k].segments[j])
  {
    TrackPlacemarkAt(ts, k, j);
    var head := [Leaf("name", documentName)] + WaypointPlacemarks(ws) + RoutePlacemarks(rs);
    var tail := TrackPlacemarks(ts);
    assert DocumentChildren(ws, rs, ts, documentName) == head + tail;
    MiddleIndex(head + tail, head, tail, [], SegmentCount(ts[..k]) + j);
  }

  /**
   * The placemarks of a track's segments are told apart by name: a track with
   * several stored segments names them `name (Segment i)` with distinct
   * 1-based indices, and a single segment keeps the bare track name.
   */
  lemma SegmentNamesDistinct(t: Track, i: nat, j: nat)
    requires i < j < |t.segments|
    ensures SegmentName(t.name, i + 1, |t.segments|) != SegmentName(t.name, j + 1, |t.segments|)
    ensures t.name <= SegmentName(t.name, i + 1, |t.segments|)
    ensures SegmentName(t.name, 1, 1) == t.name
  {
    var a := NatToString(i + 1);
    var b := NatToString(j + 1);
    var sa := t.name + " (Segment " + a + ")";
    var sb := t.name + " (Segment " + b + ")";
    var p := |t.name + " (Segment "|;
    assert sa[p..|sa| - 1] == a;
    assert sb[p..|sb| - 1] == b;
    assert a != b;
    assert t.name <= sa by {
      assert sa[..|t.name|] == t.name;
    }
  }

  lemma JoinOfTwo(a: string, b: string)
    ensures Join([a, b], ",") == a + "," + b
  {
    assert [a, b][1..] == [b];
  }

  lemma JoinOfThree(a: string, b: string, c: string)
    ensures Join([a, b, c], ",") == a + "," + b + "," + c
  {
    assert [a, b, c][1..] == [b, c];
    JoinOfTwo(b, c);
  }

  /**
   * A coordinate token splits on commas into longitude, latitude and, only
   * when the elevation is truthy, the elevation: longitude comes first and an
   * absent or empty elevation leaves exactly two fields.
   */
  lemma {:induction false} CoordTokenFields(lon: Option<string>, lat: Option<string>, ele: Option<string>)
    requires ',' !in Show(lon) && ',' !in Show(lat) && (Truthy(ele) ==> ',' !in ele.value)
    ensures SplitOn(CoordToken(lon, lat, ele), ',') ==
            [Show(lon), Show(lat)] + (if Truthy(ele) then [ele.value] else [])
  {
    var fields := [Show(lon), Show(lat)] + (if Truthy(ele) then [ele.value] else []);
    if Truthy(ele) {
      assert fields == [Show(lon), Show(lat), ele.value];
      JoinOfThree(Show(lon), Show(lat), ele.value);
    } else {
      assert fields == [Show(lon), Show(lat)];
      JoinOfTwo(Show(lon), Show(lat));
    }
    SplitOnJoin(fields, ',');
  }
}
