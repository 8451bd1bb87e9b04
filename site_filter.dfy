/** The marker loop shared by the two site pickers: walk the chosen names in order and
    add a marker for each one the catalog knows, skipping the rest. */
module SiteFilter {
  import opened Folium

  /** The chosen names the catalog knows, in their chosen order. */
  function KnownSites<V>(names: seq<string>, catalog: map<string, V>): (known: seq<string>)
    ensures forall s :: s in known <==> s in names && s in catalog
    ensures |known| <= |names|
  {
    if names == [] then []
    else
      var init := names[..|names| - 1];
      var last := names[|names| - 1];
      assert names == init + [last];
      KnownSites(init, catalog) + (if last in catalog then [last] else [])
  }

  /** The filter distributes over concatenation, so it keeps the relative order of
      the names it keeps. */
  lemma {:induction false} KnownSitesAppend<V>(a: seq<string>, b: seq<string>, catalog: map<string, V>)
    ensures KnownSites(a + b, catalog) == KnownSites(a, catalog) + KnownSites(b, catalog)
    decreases |b|
  {
    if b == [] {
      assert a + b == a;
    } else {
      var b' := b[..|b| - 1];
      assert (a + b)[..|a + b| - 1] == a + b';
      KnownSitesAppend(a, b', catalog);
    }
  }

  /** When every chosen name is in the catalog, nothing is dropped and nothing moves. */
  lemma {:induction false} KnownSitesAllKnown<V>(names: seq<string>, catalog: map<string, V>)
    requires forall s :: s in names ==> s in catalog
    ensures KnownSites(names, catalog) == names
    decreases |names|
  {
    if names != [] {
      var init := names[..|names| - 1];
      assert names == init + [names[|names| - 1]];
      KnownSitesAllKnown(init, catalog);
    }
  }

  /** One item per known name, built from the name and its catalog entry. */
  function FilterMap<V, M>(names: seq<string>, catalog: map<string, V>, f: (string, V) -> M): seq<M>
  {
    if names == [] then []
    else
      var last := names[|names| - 1];
      FilterMap(names[..|names| - 1], catalog, f) + (if last in catalog then [f(last, catalog[last])] else [])
  }

  /** The items line up with the known names: item `i` is built from known name `i`. */
  lemma {:induction false} FilterMapMatchesKnown<V, M>(names: seq<string>, catalog: map<string, V>, f: (string, V) -> M)
    ensures var known := KnownSites(names, catalog);
            var items := FilterMap(names, catalog, f);
            |items| == |known|
            && forall i :: 0 <= i < |known| ==> known[i] in catalog && items[i] == f(known[i], catalog[known[i]])
    decreases |names|
  {
    if names != [] {
      FilterMapMatchesKnown(names[..|names| - 1], catalog, f);
    }
  }

  /** The loop `for site in names: if site in catalog: add marker`. */
  method AddKnownMarkers<V>(m: FoliumMap, names: seq<string>, catalog: map<string, V>, markerOf: (string, V) -> Marker)
    modifies m
    ensures m.markers == old(m.markers) + FilterMap(names, catalog, markerOf)
    ensures m.polylines == old(m.polylines)
  {
    var i := 0;
    while i < |names|
      invariant 0 <= i <= |names|
      invariant m.markers == old(m.markers) + FilterMap(names[..i], catalog, markerOf)
      invariant m.polylines == old(m.polylines)
    {
      var site := names[i];
      assert names[..i + 1][..i] == names[..i];
      if site in catalog {
        m.AddMarker(markerOf(site, catalog[site]));
      }
      i := i + 1;
    }
    assert names[..|names|] == names;
  }
}
