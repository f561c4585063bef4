/**
  Banding of the classifier's risk probability into a category and the colour the
  dashboard shows it in (the risk circle's border and the category caption use the
  same cut-offs).
 */
module RiskBands {

  datatype RiskLevel = Low | Moderate | High

  /** Below this probability the risk is low. */
  const ModerateFrom: real := 0.4
  /** From this probability on the risk is high. */
  const HighFrom: real := 0.7

  const Green: string := "#10b981"
  const Amber: string := "#f59e0b"
  const Red: string := "#ef4444"

  /** The category of a probability; its colour is the one the circle is drawn in. */
  function Level(p: real): (l: RiskLevel)
    ensures LevelColour(l) == Colour(p)
  {
    if p < ModerateFrom then Low else if p < HighFrom then Moderate else High
  }

  /** The colour chosen directly from the probability. */
  function Colour(p: real): (c: string)
    ensures c == Green || c == Amber || c == Red
    ensures c == Green <==> p < 0.4
    ensures c == Red <==> p >= 0.7
  {
    if p < ModerateFrom then Green else if p < HighFrom then Amber else Red
  }

  /** The caption shown before "RISK CATEGORY". */
  function Caption(l: RiskLevel): string
  {
    match l
    case Low => "LOW"
    case Moderate => "MODERATE"
    case High => "HIGH"
  }

  /** The colour that belongs to a level. */
  function LevelColour(l: RiskLevel): string
  {
    match l
    case Low => Green
    case Moderate => Amber
    case High => Red
  }

  function Severity(l: RiskLevel): nat
  {
    match l
    case Low => 0
    case Moderate => 1
    case High => 2
  }

  /** The three bands, each stated in both directions; together they cover every
      probability, so exactly one level applies. */
  lemma LevelBands(p: real)
    ensures Level(p) == Low <==> p < 0.4
    ensures Level(p) == Moderate <==> 0.4 <= p < 0.7
    ensures Level(p) == High <==> p >= 0.7
  {
  }

  /** A higher probability never gives a lower category. */
  lemma LevelMonotone(p: real, q: real)
    requires p <= q
    ensures Severity(Level(p)) <= Severity(Level(q))
  {
  }

  /** The colour computed from the probability is always the colour of its level, and
      the three colours differ, so the colour shows the level. */
  lemma ColourMatchesLevel(p: real, q: real)
    ensures Colour(p) == LevelColour(Level(p))
    ensures Colour(p) == Colour(q) <==> Level(p) == Level(q)
  {
  }

  /** The boundaries belong to the upper band. */
  lemma BoundaryExamples()
    ensures Level(0.39) == Low && Caption(Level(0.39)) == "LOW"
    ensures Level(0.40) == Moderate && Level(0.69) == Moderate
    ensures Level(0.70) == High && Caption(Level(0.70)) == "HIGH"
  {
  }
}
