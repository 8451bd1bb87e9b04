/** The route map of `st_plot_all`: one nearest road node per recommended site, a
    shortest path for each consecutive pair of nodes, and one marker per site.
    The road graph is given: `nearest` is `ox.distance.nearest_nodes(G, X, Y)`,
    `shortestPath` is `nx.shortest_path(G, u, v, weight='length')` with `None`
    for `NetworkXNoPath`, and `y`, `x` read `G.nodes[node]['y']`, `['x']`. */
module RouteMap {
  import opened Wrappers
  import opened Geo
  import opened Folium

  type Node = int

  datatype RoadGraph = RoadGraph(
    nearest: (real, real) -> Node,
    shortestPath: (Node, Node) -> Option<seq<Node>>,
    y: Node -> real,
    x: Node -> real)

  /** `GeoDataFrame.total_bounds`: (minx, miny, maxx, maxy). */
  datatype Bounds = Bounds(minx: real, miny: real, maxx: real, maxy: real)

  /** The centre of the geometries' bounding box, where both maps are centred. */
  function BoundsCenter(b: Bounds): (c: Coord)
    ensures c.lat - b.miny == b.maxy - c.lat
    ensures c.lon - b.minx == b.maxx - c.lon
    ensures b.miny <= b.maxy ==> b.miny <= c.lat <= b.maxy
    ensures b.minx <= b.maxx ==> b.minx <= c.lon <= b.maxx
  {
    Coord((b.miny + b.maxy) / 2.0, (b.minx + b.maxx) / 2.0)
  }

  /** One marker per recommended site, in order, at its own coordinates, with the
      site name as popup. */
  function SiteMarkers(sites: seq<(string, Coord)>): seq<Marker>
  {
    seq(|sites|, i requires 0 <= i < |sites| => Marker(sites[i].1, sites[i].0))
  }

  /** The nearest road node of every site, in the sites' order (X is the longitude,
      Y the latitude). */
  function SiteNodes(sites: seq<(string, Coord)>, g: RoadGraph): seq<Node>
  {
    seq(|sites|, i requires 0 <= i < |sites| => g.nearest(sites[i].1.lon, sites[i].1.lat))
  }

  /** The path search for each consecutive pair (nodes[i], nodes[i + 1]). */
  function Segments(nodes: seq<Node>, g: RoadGraph): seq<Option<seq<Node>>>
  {
    seq(if |nodes| == 0 then 0 else |nodes| - 1,
        i requires 0 <= i < |nodes| - 1 => g.shortestPath(nodes[i], nodes[i + 1]))
  }

  /** The drawn route of a path: the (y, x) point of each node, in path order. */
  function RouteLine(path: seq<Node>, g: RoadGraph): PolyLine
  {
    PolyLine(seq(|path|, j requires 0 <= j < |path| => Coord(g.y(path[j]), g.x(path[j]))),
             "dodgerblue", 5, 1)
  }

  /** The polylines drawn for a run of segments: a found path is drawn, a missing
      one is skipped. */
  function RouteLines(segments: seq<Option<seq<Node>>>, g: RoadGraph): seq<PolyLine>
  {
    if segments == [] then []
    else
      var last := segments[|segments| - 1];
      RouteLines(segments[..|segments| - 1], g)
      + (if last.Some? then [RouteLine(last.value, g)] else [])
  }

  /** The number of segments for which a path was found. */
  function CountFound(segments: seq<Option<seq<Node>>>): nat
  {
    if segments == [] then 0
    else CountFound(segments[..|segments| - 1]) + (if segments[|segments| - 1].Some? then 1 else 0)
  }

  /** Exactly one polyline per found path; at most one per consecutive pair. */
  lemma {:induction false} RouteLinesCount(segments: seq<Option<seq<Node>>>, g: RoadGraph)
    ensures |RouteLines(segments, g)| == CountFound(segments) <= |segments|
  {
    if segments != [] {
      RouteLinesCount(segments[..|segments| - 1], g);
    }
  }

  /** Drawing is done segment by segment: the lines of a concatenation are the lines
      of each part, in order. */
  lemma {:induction false} RouteLinesAppend(a: seq<Option<seq<Node>>>, b: seq<Option<seq<Node>>>, g: RoadGraph)
    ensures RouteLines(a + b, g) == RouteLines(a, g) + RouteLines(b, g)
    ensures CountFound(a + b) == CountFound(a) + CountFound(b)
    decreases |b|
  {
    if b == [] {
      assert a + b == a;
    } else {
      var b' := b[..|b| - 1];
      assert (a + b)[..|a + b| - 1] == a + b';
      assert (a + b)[|a + b| - 1] == b[|b| - 1];
      RouteLinesAppend(a, b', g);
    }
  }

  /** A segment without a path contributes nothing, and the segments after it are
      still drawn. */
  lemma MissingSegmentSkipped(segments: seq<Option<seq<Node>>>, i: nat, g: RoadGraph)
    requires i < |segments| && segments[i].None?
    ensures RouteLines(segments, g) == RouteLines(segments[..i], g) + RouteLines(segments[i + 1..], g)
  {
    assert segments == segments[..i] + ([segments[i]] + segments[i + 1..]);
    RouteLinesAppend(segments[..i], [segments[i]] + segments[i + 1..], g);
    RouteLinesAppend([segments[i]], segments[i + 1..], g);
    assert RouteLines([segments[i]], g) == [] by {
      assert [segments[i]][..0] == [];
    }
  }

  /** A segment with a path is drawn, as the route line of that path, right after
      the lines of the found segments before it. */
  lemma FoundSegmentDrawn(segments: seq<Option<seq<Node>>>, i: nat, g: RoadGraph)
    requires i < |segments| && segments[i].Some?
    ensures var k := CountFound(segments[..i]);
            k < |RouteLines(segments, g)| && RouteLines(segments, g)[k] == RouteLine(segments[i].value, g)
  {
    assert segments == segments[..i] + ([segments[i]] + segments[i + 1..]);
    RouteLinesAppend(segments[..i], [segments[i]] + segments[i + 1..], g);
    RouteLinesAppend([segments[i]], segments[i + 1..], g);
    assert RouteLines([segments[i]], g) == [RouteLine(segments[i].value, g)] by {
      assert [segments[i]][..0] == [];
    }
    RouteLinesCount(segments[..i], g);
  }

  /** The pin loop: one marker per site, in order, added to `m`. */
  method AddSiteMarkers(m: FoliumMap, sites: seq<(string, Coord)>)
    modifies m
    ensures m.markers == old(m.markers) + SiteMarkers(sites)
    ensures m.polylines == old(m.polylines)
  {
    for i := 0 to |sites|
      invariant m.markers == old(m.markers) + SiteMarkers(sites)[..i]
      invariant m.polylines == old(m.polylines)
    {
      m.AddMarker(Marker(sites[i].1, sites[i].0));
      assert SiteMarkers(sites)[..i + 1] == SiteMarkers(sites)[..i] + [Marker(sites[i].1, sites[i].0)];
    }
    assert SiteMarkers(sites)[..|sites|] == SiteMarkers(sites);
  }

  lemma RouteLinesStep(segments: seq<Option<seq<Node>>>, i: nat, g: RoadGraph)
    requires i < |segments|
    ensures RouteLines(segments[..i + 1], g)
            == RouteLines(segments[..i], g) + (if segments[i].Some? then [RouteLine(segments[i].value, g)] else [])
  {
    assert segments[..i + 1][..i] == segments[..i];
  }

  lemma SiteMarkersStep(sites: seq<(string, Coord)>, i: nat)
    requires i < |sites|
    ensures SiteMarkers(sites)[..i + 1] == SiteMarkers(sites)[..i] + [Marker(sites[i].1, sites[i].0)]
  {
  }

  /** The `site_nodes` loop: the nearest node of each site, appended in order. */
  method NearestNodes(sites: seq<(string, Coord)>, g: RoadGraph) returns (siteNodes: seq<Node>)
    ensures |siteNodes| == |sites|
    ensures forall i :: 0 <= i < |sites| ==> siteNodes[i] == g.nearest(sites[i].1.lon, sites[i].1.lat)
  {
    siteNodes := [];
    for i := 0 to |sites|
      invariant |siteNodes| == i
      invariant forall j :: 0 <= j < i ==> siteNodes[j] == g.nearest(sites[j].1.lon, sites[j].1.lat)
    {
      siteNodes := siteNodes + [g.nearest(sites[i].1.lon, sites[i].1.lat)];
    }
  }

  /** The indexed route loop: for each i, the path to the next site's node when
      there is a next site (skipped when there is no path), then the marker of site i. */
  method DrawRoute(routeMap: FoliumMap, sites: seq<(string, Coord)>, siteNodes: seq<Node>, g: RoadGraph)
    requires |siteNodes| == |sites|
    requires routeMap.markers == [] && routeMap.polylines == []
    modifies routeMap
    ensures routeMap.markers == SiteMarkers(sites)
    ensures routeMap.polylines == RouteLines(Segments(siteNodes, g), g)
  {
    ghost var segments := Segments(siteNodes, g);
    ghost var m := |segments|;
    var n := |siteNodes|;
    for i := 0 to n
      invariant routeMap.markers == SiteMarkers(sites)[..i]
      invariant routeMap.polylines == RouteLines(segments[..if i < m then i else m], g)
    {
      if i < n - 1 {
        var route := g.shortestPath(siteNodes[i], siteNodes[i + 1]);
        assert route == segments[i];
        RouteLinesStep(segments, i, g);
        if route.Some? {
          routeMap.AddPolyLine(RouteLine(route.value, g));
        }
      }
      routeMap.AddMarker(Marker(sites[i].1, sites[i].0));
      SiteMarkersStep(sites, i);
    }
    assert SiteMarkers(sites)[..n] == SiteMarkers(sites);
    assert segments[..m] == segments;
  }

  /** `st_plot_all` after the static figure: a pin map and a route map, both centred
      on the bounding box. Returns the two maps and the site nodes. */
  method PlotRoutes(sites: seq<(string, Coord)>, bounds: Bounds, g: RoadGraph)
    returns (pinMap: FoliumMap, routeMap: FoliumMap, siteNodes: seq<Node>)
    ensures fresh(pinMap) && fresh(routeMap) && pinMap != routeMap
    ensures pinMap.location == BoundsCenter(bounds) && pinMap.zoomStart == 13
    ensures pinMap.markers == SiteMarkers(sites) && pinMap.polylines == []
    ensures siteNodes == SiteNodes(sites, g)
    ensures routeMap.location == BoundsCenter(bounds) && routeMap.zoomStart == 13
    ensures routeMap.markers == SiteMarkers(sites)
    ensures routeMap.polylines == RouteLines(Segments(siteNodes, g), g)
  {
    var center := BoundsCenter(bounds);
    pinMap := new FoliumMap(center, 13);
    AddSiteMarkers(pinMap, sites);
    siteNodes := NearestNodes(sites, g);
    routeMap := new FoliumMap(center, 13);
    DrawRoute(routeMap, sites, siteNodes, g);
  }
}
