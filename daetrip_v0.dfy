/** The placeholder route recommender: a three-site catalog, a recommender that returns
    the selection as the route, a map centred on the first selected site with one
    marker per known route site, and a fixed list of user reviews. */
module DaeTripV0 {
  import opened Wrappers
  import opened Geo
  import opened Text
  import opened Folium
  import opened SiteFilter

  /** One catalog entry; the rating is kept in tenths (4.5 is 45). */
  datatype SiteRecord = SiteRecord(lat: real, lon: real, description: string, ratingTenths: nat)

  /** The page's inputs that the placeholders ignore. */
  type Preferences = map<string, string>

  const Catalog: map<string, SiteRecord> := map[
    "Site A" := SiteRecord(36.3504, 127.3845, "Description of Site A", 45),
    "Site B" := SiteRecord(36.3204, 127.4285, "Description of Site B", 42),
    "Site C" := SiteRecord(36.3604, 127.3985, "Description of Site C", 48)
  ]

  /** `fetch_sites_data_from_database`: the preferences are not consulted. */
  function FetchSitesData(preferences: Preferences): (catalog: map<string, SiteRecord>)
    ensures catalog.Keys == {"Site A", "Site B", "Site C"}
  {
    Catalog
  }

  /** Two callers with any preferences get the same catalog. */
  lemma FetchIgnoresPreferences(p: Preferences, q: Preferences)
    ensures FetchSitesData(p) == FetchSitesData(q)
  {
  }

  /** The multiselect's options: the catalog keys in insertion order. */
  const SiteOptions: seq<string> := ["Site A", "Site B", "Site C"]

  lemma SiteOptionsAreKeys(preferences: Preferences)
    ensures forall s :: s in SiteOptions <==> s in FetchSitesData(preferences)
  {
  }

  /** `generate_route_recommendations`: the selection is the route. */
  function GenerateRouteRecommendations(selected: seq<string>, catalog: map<string, SiteRecord>,
                                        preferences: Preferences, transport: string, maxTime: int): (route: seq<string>)
  {
    selected
  }

  /** The route keeps every selected site, in selection order, and depends on nothing
      but the selection. */
  lemma RouteIsSelection(selected: seq<string>, catalog: map<string, SiteRecord>, catalog': map<string, SiteRecord>,
                         preferences: Preferences, preferences': Preferences,
                         transport: string, transport': string, maxTime: int, maxTime': int)
    ensures var route := GenerateRouteRecommendations(selected, catalog, preferences, transport, maxTime);
            route == selected
            && route == GenerateRouteRecommendations(selected, catalog', preferences', transport', maxTime')
  {
  }

  datatype Review = Review(user: string, site: string, review: string)

  /** `get_user_reviews_from_database`: three fixed reviews, one per catalog site. */
  function GetUserReviews(): (reviews: seq<Review>)
    ensures |reviews| == 3
    ensures forall i :: 0 <= i < 3 ==> reviews[i].site == SiteOptions[i]
  {
    [Review("User1", "Site A", "Great experience!"),
     Review("User2", "Site B", "Highly recommended."),
     Review("User3", "Site C", "Amazing place!")]
  }

  /** Every review names a site the catalog knows. */
  lemma ReviewsNameKnownSites(preferences: Preferences)
    ensures forall r :: r in GetUserReviews() ==> r.site in FetchSitesData(preferences)
  {
    var reviews := GetUserReviews();
    forall r | r in reviews ensures r.site in FetchSitesData(preferences) {
      var i :| 0 <= i < 3 && reviews[i] == r;
    }
  }

  /** The marker popup: the name in bold, the description and the rating. */
  function Popup(site: string, record: SiteRecord): string
  {
    "<b>" + site + "</b><br>" + record.description + "<br>User Rating: " + TenthsToString(record.ratingTenths)
  }

  /** The popup holds the site name right after the opening tag, then the description,
      and ends with the rating. */
  lemma PopupParts(site: string, record: SiteRecord)
    ensures var p := Popup(site, record);
            var d := 3 + |site| + 8;
            var r := TenthsToString(record.ratingTenths);
            |p| == d + |record.description| + 17 + |r|
            && p[3..3 + |site|] == site
            && p[d..d + |record.description|] == record.description
            && p[|p| - |r|..] == r
  {
    var p := Popup(site, record);
    var d := 3 + |site| + 8;
    var r := TenthsToString(record.ratingTenths);
    assert p == "<b>" + site + "</b><br>" + record.description + "<br>User Rating: " + r;
    assert |"<b>"| == 3 && |"</b><br>"| == 8 && |"<br>User Rating: "| == 17;
  }

  /** The ratings print as Python prints the floats 4.5, 4.2 and 4.8. */
  lemma CatalogRatingsText()
    ensures TenthsToString(Catalog["Site A"].ratingTenths) == "4.5"
    ensures TenthsToString(Catalog["Site B"].ratingTenths) == "4.2"
    ensures TenthsToString(Catalog["Site C"].ratingTenths) == "4.8"
  {
    assert NatToString(4) == "4";
  }

  function SiteMarker(site: string, record: SiteRecord): Marker
  {
    Marker(Coord(record.lat, record.lon), Popup(site, record))
  }

  /** The map centre: the first selected site's coordinates; no centre when the
      selection is empty (`selected_sites[0]` raises) or its first name is not in the
      catalog (the lookup raises). */
  function MapCenter(selected: seq<string>, catalog: map<string, SiteRecord>): (c: Option<Coord>)
    ensures c.None? <==> |selected| == 0 || selected[0] !in catalog
    ensures c.Some? ==> c.value == Coord(catalog[selected[0]].lat, catalog[selected[0]].lon)
  {
    if |selected| == 0 || selected[0] !in catalog then None
    else Some(Coord(catalog[selected[0]].lat, catalog[selected[0]].lon))
  }

  /** "Recommend Route". `null` stands for the exception raised when there is no
      centre; otherwise a zoom-13 map at the first selected site with one marker per
      route site the catalog knows, in route order. */
  method RecommendRoute(selected: seq<string>, preferences: Preferences, transport: string, maxTime: int)
    returns (m: FoliumMap?)
    ensures m == null <==> MapCenter(selected, FetchSitesData(preferences)).None?
    ensures m != null ==> fresh(m) && m.zoomStart == 13
    ensures m != null ==> m.location == MapCenter(selected, FetchSitesData(preferences)).value
    ensures m != null ==> m.markers == FilterMap(selected, FetchSitesData(preferences), SiteMarker)
    ensures m != null ==> m.polylines == []
  {
    var catalog := FetchSitesData(preferences);
    var route := GenerateRouteRecommendations(selected, catalog, preferences, transport, maxTime);
    var centre := MapCenter(selected, catalog);
    if centre.None? {
      return null;
    }
    m := new FoliumMap(centre.value, 13);
    AddKnownMarkers(m, route, catalog, SiteMarker);
  }

  /** The markers of a route, read back: marker `i` is at the `i`-th known route
      site's coordinates and carries that site's popup. A selection made
      from the offered options loses no site. */
  lemma RouteMarkers(selected: seq<string>, preferences: Preferences)
    ensures var catalog := FetchSitesData(preferences);
            var known := KnownSites(selected, catalog);
            var markers := FilterMap(selected, catalog, SiteMarker);
            |markers| == |known|
            && forall i :: 0 <= i < |known| ==>
                 known[i] in catalog
                 && markers[i].location == Coord(catalog[known[i]].lat, catalog[known[i]].lon)
                 && markers[i].popup == Popup(known[i], catalog[known[i]])
    ensures (forall s :: s in selected ==> s in SiteOptions) ==>
              KnownSites(selected, FetchSitesData(preferences)) == selected
  {
    var catalog := FetchSitesData(preferences);
    FilterMapMatchesKnown(selected, catalog, SiteMarker);
    if forall s :: s in selected ==> s in SiteOptions {
      KnownSitesAllKnown(selected, catalog);
    }
  }
}
