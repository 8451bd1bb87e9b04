/** The traveler-type survey: seven Likert answers scored against a weight table,
    one dot product per traveler type, and the type with the highest score.

    Weights are decimal literals in the source (0.20, -0.05, ...); here they are
    integer hundredths, so a score is an exact integer number of hundredths.
    Python's `round(x, 1)` on a binary float is kept abstract: scoring takes the
    rounding as a parameter `round` (hundredths in, hundredths out), and the facts
    that need it assume only `RoundsToTenths(round)`. */
module Survey {
  import opened Wrappers

  /** A slider answer: `st.slider(min_value=1, max_value=5)` returns only these. */
  type Likert = x: int | 1 <= x <= 5 witness 3

  const Questions: seq<string> := [
    "I prefer travel experiences that incorporate technology and efficiency.",
    "I enjoy participating in local events and engaging with the community when traveling.",
    "I seek practical and convenient leisure activities during my travels.",
    "I am open to trying new and adventurous activities during my trips.",
    "I prioritize comfort and relaxation over exploring new places.",
    "I value cultural immersion and learning about local traditions.",
    "I am willing to splurge on high-end accommodations and dining experiences."
  ]

  const TechSavvy := "Tech-savvy"
  const CommunityFocused := "Community-focused"
  const PracticalLeisureSeeker := "Practical Leisure Seeker"

  /** A weight table: traveler type -> one weight per question, in insertion order. */
  type WeightTable = seq<(string, seq<int>)>

  const Weights: WeightTable := [
    (TechSavvy, [20, -10, -5, 15, -10, -5, 15]),
    (CommunityFocused, [-10, 20, -5, 5, -5, 20, 5]),
    (PracticalLeisureSeeker, [-5, -5, 20, -10, 20, -5, 15])
  ]

  /** `sum(r * w for r, w in zip(responses, weights))`: `zip` stops at the shorter list. */
  function Dot(responses: seq<int>, weights: seq<int>): int
  {
    if responses == [] || weights == [] then 0
    else responses[0] * weights[0] + Dot(responses[1..], weights[1..])
  }

  /** Only the first min(|responses|, |weights|) pairs contribute to a score. */
  lemma {:induction false} DotTruncates(responses: seq<int>, weights: seq<int>)
    ensures var k := Min(|responses|, |weights|);
            Dot(responses, weights) == Dot(responses[..k], weights[..k])
  {
    if responses != [] && weights != [] {
      var k := Min(|responses|, |weights|);
      DotTruncates(responses[1..], weights[1..]);
      assert responses[1..][..k - 1] == responses[..k][1..];
      assert weights[1..][..k - 1] == weights[..k][1..];
    }
  }

  /** What Python's `round(x, 1)` is relied on to do, in hundredths: the result is a
      whole number of tenths and at most half a tenth away from its argument. */
  ghost predicate RoundsToTenths(round: int -> int)
  {
    forall x :: round(x) % 10 == 0 && x - 5 <= round(x) <= x + 5
  }

  /** A score that is already a whole number of tenths is left as it is. */
  lemma RoundKeepsTenths(round: int -> int, tenths: int)
    requires RoundsToTenths(round)
    ensures round(10 * tenths) == 10 * tenths
  {
    var r := round(10 * tenths);
    assert r % 10 == 0 && 10 * tenths - 5 <= r <= 10 * tenths + 5;
    var q := r / 10;
    assert r == 10 * q;
  }

  /** The score map `{t: round(dot(responses, weights[t]), 1) for t in weights}`,
      one entry per key of the table, in the table's order. */
  function Scores(responses: seq<int>, table: WeightTable, round: int -> int): seq<(string, int)>
  {
    seq(|table|, i requires 0 <= i < |table| => (table[i].0, round(Dot(responses, table[i].1))))
  }

  /** `max(scores, key=scores.get)`: scanning in order and replacing the current
      best only on a strictly greater score, so the first maximal entry wins. */
  function FirstMax(scores: seq<(string, int)>): (k: nat)
    requires |scores| > 0
    ensures k < |scores|
    ensures forall j :: 0 <= j < |scores| ==> scores[j].1 <= scores[k].1
    ensures forall j :: 0 <= j < k ==> scores[j].1 < scores[k].1
  {
    if |scores| == 1 then 0
    else
      var k := FirstMax(scores[..|scores| - 1]);
      if scores[|scores| - 1].1 > scores[k].1 then |scores| - 1 else k
  }

  datatype Classification = Classification(scores: seq<(string, int)>, travelerType: string)

  /** The chosen type is the key of a top score, and every key before it scores
      strictly less: what `max` over the score dict returns. */
  predicate FirstTopScore(c: Classification, table: WeightTable)
  {
    && |c.scores| == |table|
    && exists k :: 0 <= k < |table| && c.travelerType == table[k].0
                   && (forall j :: 0 <= j < |table| ==> c.scores[j].1 <= c.scores[k].1)
                   && (forall j :: 0 <= j < k ==> c.scores[j].1 < c.scores[k].1)
  }

  /** Scores the responses against the table and picks the winning type. */
  function Classify(responses: seq<int>, table: WeightTable, round: int -> int): (c: Classification)
    requires |table| > 0
    ensures |c.scores| == |table|
    ensures forall i :: 0 <= i < |table| ==>
              c.scores[i].0 == table[i].0 && c.scores[i].1 == round(Dot(responses, table[i].1))
    ensures FirstTopScore(c, table)
  {
    var scores := Scores(responses, table, round);
    Classification(scores, scores[FirstMax(scores)].0)
  }

  /** The map style chosen for a traveler type: the if/elif/else on the type name. */
  function StyleFor(travelerType: string): (style: string)
    ensures style in {"Peach", "Flannel", "Citrus"}
  {
    if travelerType == PracticalLeisureSeeker then "Peach"
    else if travelerType == CommunityFocused then "Flannel"
    else "Citrus"
  }

  /** The three traveler types of the table get three different styles, and the
      style names the type: Peach for Practical Leisure Seeker, Flannel for
      Community-focused, Citrus for Tech-savvy. */
  lemma StyleIdentifiesType(i: nat, j: nat)
    requires i < |Weights| && j < |Weights|
    ensures StyleFor(Weights[i].0) == StyleFor(Weights[j].0) <==> i == j
    ensures StyleFor(Weights[i].0) == "Peach" <==> Weights[i].0 == PracticalLeisureSeeker
    ensures StyleFor(Weights[i].0) == "Flannel" <==> Weights[i].0 == CommunityFocused
    ensures StyleFor(Weights[i].0) == "Citrus" <==> Weights[i].0 == TechSavvy
  {
  }

  /** The table's shape: three types, each with one weight per question. */
  lemma WeightTableShape()
    ensures |Weights| == 3
    ensures forall i :: 0 <= i < |Weights| ==> |Weights[i].1| == |Questions|
    ensures Weights[0].0 == TechSavvy && Weights[1].0 == CommunityFocused
            && Weights[2].0 == PracticalLeisureSeeker
  {
  }

  /** The slider loop: one answer per question, appended in question order;
      `answer(i)` is the slider keyed `question_{i}`. */
  method CollectResponses(questions: seq<string>, answer: nat -> Likert) returns (responses: seq<Likert>)
    ensures |responses| == |questions|
    ensures forall i :: 0 <= i < |questions| ==> responses[i] == answer(i)
  {
    responses := [];
    var i := 0;
    while i < |questions|
      invariant 0 <= i <= |questions|
      invariant |responses| == i
      invariant forall j :: 0 <= j < i ==> responses[j] == answer(j)
    {
      responses := responses + [answer(i)];
      i := i + 1;
    }
  }

  /** All sliders at their default, 3. */
  const DefaultResponses: seq<int> := [3, 3, 3, 3, 3, 3, 3]

  function Total(weights: seq<int>): int
  {
    if weights == [] then 0 else weights[0] + Total(weights[1..])
  }

  /** When every answer is the same value `c`, a type's score is `c` times the sum
      of its weights. */
  lemma {:induction false} DotUniform(c: int, responses: seq<int>, weights: seq<int>)
    requires |responses| >= |weights|
    requires forall i :: 0 <= i < |responses| ==> responses[i] == c
    ensures Dot(responses, weights) == c * Total(weights)
  {
    if weights != [] {
      DotUniform(c, responses[1..], weights[1..]);
    }
  }

  lemma DefaultDots()
    ensures Dot(DefaultResponses, Weights[0].1) == 60
    ensures Dot(DefaultResponses, Weights[1].1) == 90
    ensures Dot(DefaultResponses, Weights[2].1) == 90
  {
    DotUniform(3, DefaultResponses, Weights[0].1);
    DotUniform(3, DefaultResponses, Weights[1].1);
    DotUniform(3, DefaultResponses, Weights[2].1);
  }

  /** With every answer at 3, and a rounding that keeps 0.6 and 0.9, the score dict
      is Tech-savvy 0.6, Community-focused 0.9, Practical Leisure Seeker 0.9. */
  lemma DefaultScores(round: int -> int)
    requires round(60) == 60 && round(90) == 90
    ensures Scores(DefaultResponses, Weights, round)
            == [(TechSavvy, 60), (CommunityFocused, 90), (PracticalLeisureSeeker, 90)]
  {
    DefaultDots();
    ScoreAt(round, 0, 60);
    ScoreAt(round, 1, 90);
    ScoreAt(round, 2, 90);
    ThreeEntries(Scores(DefaultResponses, Weights, round), (TechSavvy, 60), (CommunityFocused, 90), (PracticalLeisureSeeker, 90));
  }

  lemma ThreeEntries<T>(s: seq<T>, a: T, b: T, c: T)
    requires |s| == 3 && s[0] == a && s[1] == b && s[2] == c
    ensures s == [a, b, c]
  {
  }

  lemma ScoreAt(round: int -> int, i: nat, score: int)
    requires i < |Weights|
    requires round(Dot(DefaultResponses, Weights[i].1)) == score
    ensures Scores(DefaultResponses, Weights, round)[i] == (Weights[i].0, score)
  {
  }

  /** With every answer at 3 the exact scores are 0.6, 0.9 and 0.9; rounding keeps
      them, and Community-focused wins its tie with Practical Leisure Seeker because
      it comes first in the table. */
  lemma DefaultSurvey(round: int -> int)
    requires RoundsToTenths(round)
    ensures Classify(DefaultResponses, Weights, round).scores
            == [(TechSavvy, 60), (CommunityFocused, 90), (PracticalLeisureSeeker, 90)]
    ensures Classify(DefaultResponses, Weights, round).travelerType == CommunityFocused
  {
    var scores := [(TechSavvy, 60), (CommunityFocused, 90), (PracticalLeisureSeeker, 90)];
    RoundKeepsTenths(round, 6);
    RoundKeepsTenths(round, 9);
    DefaultScores(round);
    assert scores[..2][..1] == [(TechSavvy, 60)];
    assert FirstMax(scores[..2][..1]) == 0;
    assert FirstMax(scores[..2]) == 1;
    assert FirstMax(scores) == 1;
  }
}
