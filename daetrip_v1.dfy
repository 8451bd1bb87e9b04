/** The survey map of `daetrip_v1/app.py`: classify the traveler, then pick the
    map style, radius, centre and recommended sites for that type. */
module DaeTripV1 {
  import opened Geo
  import opened Survey
  import opened Daejeon

  const TechSavvySpots: seq<string> := ["National Science Museum", "Daejeon Expo Park", "Daejeon O-World"]
  const CommunityFocusedSpots: seq<string> := ["Ppuri Park", "Daejeon Museum of Art", "Hanbat Arboretum"]
  const LeisureSeekerSpots: seq<string> := ["Yuseong Hot Springs", "Gyejoksan Mountain", "Hanbat Arboretum"]

  /** The spot list the style branch uses for a type (the `else` takes any other name). */
  function SpotsFor(travelerType: string): (spots: seq<string>)
    ensures |spots| == 3
    ensures forall s :: s in spots ==> s in SitesData
  {
    if travelerType == PracticalLeisureSeeker then LeisureSeekerSpots
    else if travelerType == CommunityFocused then CommunityFocusedSpots
    else TechSavvySpots
  }

  /** Every spot list names catalog entries, three of them, without repetition, so
      each lookup in `sites_data` succeeds and the dict built from a list keeps
      every name. */
  lemma SpotListsResolve(travelerType: string)
    ensures var spots := SpotsFor(travelerType);
            |spots| == 3
            && (forall s :: s in spots ==> s in SitesData)
            && (forall i, j :: 0 <= i < j < |spots| ==> spots[i] != spots[j])
  {
  }

  /** `calculate_center_coordinates`: the mean latitude and mean longitude of the spots. */
  function CenterCoordinates(spots: seq<string>): (c: Coord)
    requires |spots| > 0
    requires forall s :: s in spots ==> s in SitesData
    ensures var cs := Resolve(SitesData, spots);
            MinBy(cs, LatOf) <= c.lat <= MaxBy(cs, LatOf)
            && MinBy(cs, LonOf) <= c.lon <= MaxBy(cs, LonOf)
  {
    var cs := Resolve(SitesData, spots);
    CentroidWithin(cs);
    Centroid(cs)
  }

  /** `{site: sites_data[site] for site in spots}`, as an ordered list of entries. */
  function RecommendedSites(spots: seq<string>): (r: seq<(string, Coord)>)
    requires forall s :: s in spots ==> s in SitesData
  {
    seq(|spots|, i requires 0 <= i < |spots| => (spots[i], SitesData[spots[i]]))
  }

  datatype MapPlan = MapPlan(style: string, radius: int, center: Coord, sites: seq<(string, Coord)>)

  /** The style branch: Peach / Flannel / Citrus, radius 4000 in every branch,
      centred on the type's spots, recommending exactly those spots. */
  function PlanFor(travelerType: string): (p: MapPlan)
    ensures p.style == StyleFor(travelerType) && p.radius == 4000
    ensures p.center == CenterCoordinates(SpotsFor(travelerType))
    ensures var spots := SpotsFor(travelerType);
            |p.sites| == |spots|
            && forall i :: 0 <= i < |spots| ==>
                 p.sites[i].0 == spots[i] && p.sites[i].1 == SitesData[spots[i]]
  {
    var spots := SpotsFor(travelerType);
    MapPlan(StyleFor(travelerType), 4000, CenterCoordinates(spots), RecommendedSites(spots))
  }

  datatype SurveyResult = SurveyResult(classification: Classification, plan: MapPlan)

  /** "Finalize Survey": score, choose the type, and plan its map. */
  function Finalize(responses: seq<Likert>, round: int -> int): (r: SurveyResult)
    ensures |r.classification.scores| == |Weights|
    ensures forall i :: 0 <= i < |Weights| ==>
              r.classification.scores[i].0 == Weights[i].0
              && r.classification.scores[i].1 == round(Dot(responses, Weights[i].1))
    ensures FirstTopScore(r.classification, Weights)
    ensures r.plan == PlanFor(r.classification.travelerType)
  {
    var c := Classify(responses, Weights, round);
    SurveyResult(c, PlanFor(c.travelerType))
  }

  /** With every slider left at 3 the traveler is Community-focused and gets the
      Flannel map around Ppuri Park, the Museum of Art and Hanbat Arboretum. */
  lemma DefaultFinalize(round: int -> int)
    requires RoundsToTenths(round)
    ensures var r := Finalize([3, 3, 3, 3, 3, 3, 3], round);
            r.classification.travelerType == CommunityFocused
            && r.plan.style == "Flannel" && r.plan.radius == 4000
            && |r.plan.sites| == 3 && r.plan.sites[0].0 == "Ppuri Park"
  {
    DefaultSurvey(round);
    assert DefaultResponses == [3, 3, 3, 3, 3, 3, 3];
  }
}
