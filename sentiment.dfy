/**
 * `get_magnitude` of netlify/functions/backend/dataset.py: a polarity score becomes
 * 'Negative', 'Neutral' or 'Positive' by its sign; any other score (the subjectivity,
 * whatever the `type` argument says if it is not exactly 'polarization') becomes 'low',
 * 'medium' or 'high' around one third.
 */
module Sentiment {

  const Polarization: string := "polarization"
  const OneThird: real := 1.0 / 3.0

  /** `get_magnitude(score, type)`. */
  function GetMagnitude(score: real, kind: string): (bucket: string)
    ensures kind == Polarization ==> (bucket == "Negative" <==> score < 0.0)
    ensures kind == Polarization ==> (bucket == "Neutral" <==> score == 0.0)
    ensures kind == Polarization ==> (bucket == "Positive" <==> score > 0.0)
    ensures kind != Polarization ==> (bucket == "low" <==> score < OneThird)
    ensures kind != Polarization ==> (bucket == "medium" <==> score == OneThird)
    ensures kind != Polarization ==> (bucket == "high" <==> score > OneThird)
  {
    if kind == Polarization then
      if score < 0.0 then "Negative"
      else if score == 0.0 then "Neutral"
      else "Positive"
    else
      if score < OneThird then "low"
      else if score > OneThird then "high"
      else "medium"
  }

  /** Every score gets one of the six buckets, and which three depends only on `kind`. */
  lemma MagnitudeIsTotal(score: real, kind: string)
    ensures kind == Polarization ==> GetMagnitude(score, kind) in {"Negative", "Neutral", "Positive"}
    ensures kind != Polarization ==> GetMagnitude(score, kind) in {"low", "medium", "high"}
  {
  }

  /** A higher score never falls into a lower bucket. */
  lemma MagnitudeMonotone(a: real, b: real, kind: string)
    requires a <= b
    ensures kind == Polarization && GetMagnitude(b, kind) == "Negative" ==> GetMagnitude(a, kind) == "Negative"
    ensures kind != Polarization && GetMagnitude(b, kind) == "low" ==> GetMagnitude(a, kind) == "low"
    ensures kind != Polarization && GetMagnitude(a, kind) == "high" ==> GetMagnitude(b, kind) == "high"
  {
  }
}
