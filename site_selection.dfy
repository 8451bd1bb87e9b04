/** The first DaeTRIP page: pick sites from a fixed list of eight and show them as
    markers on a map with a fixed centre. */
module SiteSelection {
  import opened Geo
  import opened Daejeon
  import opened Folium
  import opened SiteFilter

  /** The multiselect's options, in the order they are offered. */
  const Options: seq<string> := [
    "Daejeon Expo Park", "Yuseong Hot Springs", "National Science Museum", "Hanbat Arboretum",
    "Daejeon Museum of Art", "Gyejoksan Mountain", "Ppuri Park", "Daejeon O-World"
  ]

  const Zoom := 12

  /** The options are exactly the catalog's keys: every offered site has coordinates
      and every catalog site is offered. */
  lemma OptionsKnown()
    ensures forall s :: s in Options <==> s in SitesData
  {
  }

  /** A site's marker: at its catalog coordinates, with the site name as popup. */
  function SiteMarker(site: string, location: Coord): Marker
  {
    Marker(location, site)
  }

  /** Whatever the user picks from the offered options, the membership test keeps it
      all, in the order picked. */
  lemma SelectionKept(selected: seq<string>)
    requires forall s :: s in selected ==> s in Options
    ensures KnownSites(selected, SitesData) == selected
  {
    OptionsKnown();
    KnownSitesAllKnown(selected, SitesData);
  }

  /** "Recommend Route": a map at the fixed Daejeon centre, zoom 12, with one marker per
      selected site that the catalog knows, in selection order. */
  method RecommendRoute(selected: seq<string>) returns (m: FoliumMap)
    ensures fresh(m)
    ensures m.location == DaejeonCentre && m.zoomStart == Zoom
    ensures m.markers == FilterMap(selected, SitesData, SiteMarker)
    ensures m.polylines == []
  {
    m := new FoliumMap(DaejeonCentre, Zoom);
    AddKnownMarkers(m, selected, SitesData, SiteMarker);
  }

  /** The markers of a selection, read back: marker `i` names the `i`-th known selected
      site and sits at its catalog coordinates; for a selection drawn from the options
      there is one marker per selected site. */
  lemma SelectionMarkers(selected: seq<string>)
    ensures var known := KnownSites(selected, SitesData);
            var markers := FilterMap(selected, SitesData, SiteMarker);
            |markers| == |known|
            && forall i :: 0 <= i < |known| ==>
                 known[i] in SitesData && markers[i].popup == known[i] && markers[i].location == SitesData[known[i]]
    ensures (forall s :: s in selected ==> s in Options) ==>
              |FilterMap(selected, SitesData, SiteMarker)| == |selected|
  {
    FilterMapMatchesKnown(selected, SitesData, SiteMarker);
    if forall s :: s in selected ==> s in Options {
      SelectionKept(selected);
    }
  }
}
