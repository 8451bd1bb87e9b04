/** The survey map of `prettymapp/app.py`: the same scoring, a style per type, a
    2000 m radius, and a map always centred on Daejeon. */
module Prettymapp {
  import opened Geo
  import opened Survey
  import opened Daejeon

  datatype MapSettings = MapSettings(classification: Classification, style: string, radius: int, coordinates: Coord)

  /** Scores the responses, picks the first type with the top score, and fixes the
      map: the type's style, radius 2000, centre (36.3504, 127.3845). */
  function SurveyMap(responses: seq<Likert>, round: int -> int): (m: MapSettings)
    ensures |m.classification.scores| == |Weights|
    ensures forall i :: 0 <= i < |Weights| ==>
              m.classification.scores[i].0 == Weights[i].0
              && m.classification.scores[i].1 == round(Dot(responses, Weights[i].1))
    ensures FirstTopScore(m.classification, Weights)
    ensures m.style == StyleFor(m.classification.travelerType)
    ensures m.radius == 2000
    ensures m.coordinates == DaejeonCentre
  {
    var c := Classify(responses, Weights, round);
    MapSettings(c, StyleFor(c.travelerType), 2000, DaejeonCentre)
  }

  /** The map does not follow the traveler type: any two survey outcomes share the
      radius and the centre and differ at most in style. */
  lemma CentreIndependentOfType(r1: seq<Likert>, r2: seq<Likert>, round: int -> int)
    ensures SurveyMap(r1, round).coordinates == SurveyMap(r2, round).coordinates == Coord(36.3504, 127.3845)
    ensures SurveyMap(r1, round).radius == SurveyMap(r2, round).radius == 2000
  {
  }

  /** With all responses at the default 3, Community-focused wins through its tie
      with Practical Leisure Seeker, and the map uses the Flannel style. */
  lemma DefaultSurveyMap(round: int -> int)
    requires RoundsToTenths(round)
    ensures SurveyMap([3, 3, 3, 3, 3, 3, 3], round).classification.travelerType == CommunityFocused
    ensures SurveyMap([3, 3, 3, 3, 3, 3, 3], round).style == "Flannel"
  {
    DefaultSurvey(round);
    assert DefaultResponses == [3, 3, 3, 3, 3, 3, 3];
  }
}
