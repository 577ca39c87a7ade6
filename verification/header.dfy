/** The dashboard header's compliance gauge: the score it shows, its default,
    and the colour band the score falls in. */
module Header {
  import opened Wrappers
  import opened Values
  import App

  /** The score shown when the caller passes none. */
  const DefaultScore: int := 75

  function ShownScore(complianceScore: Option<int>): (r: int)
    ensures complianceScore.Some? ==> r == complianceScore.value
    ensures complianceScore.None? ==> r == DefaultScore
  {
    complianceScore.GetOr(DefaultScore)
  }

  /** Green from 80 up, amber from 50 up to 79, red below 50. */
  function ScoreTone(score: int): (t: Tone)
    ensures t == Green <==> score >= 80
    ensures t == Amber <==> 50 <= score < 80
    ensures t == Red <==> score < 50
  {
    if score >= 80 then Green
    else if score >= 50 then Amber
    else Red
  }

  /** How good a band is: red, then amber, then green. */
  function Rank(t: Tone): int {
    match t
    case Red => 0
    case Amber => 1
    case Green => 2
    case Neutral => 0
  }

  /** A higher score never falls in a worse band. */
  lemma ScoreToneMonotone(a: int, b: int)
    requires a <= b
    ensures Rank(ScoreTone(a)) <= Rank(ScoreTone(b))
  {
  }

  lemma BandBoundaries()
    ensures ScoreTone(80) == Green && ScoreTone(79) == Amber
    ensures ScoreTone(50) == Amber && ScoreTone(49) == Red
  {
  }

  /** Without a score the gauge shows 75 in amber. */
  lemma DefaultIsAmber()
    ensures ShownScore(None) == 75 && Hex(ScoreTone(ShownScore(None))) == Hex(Amber)
  {
  }
}
