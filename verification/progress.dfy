/** The rating badge the progress page shows beside each past session's overall
    score (src/app/progress/page.tsx). */
module Progress {

  /** The four badges, from worst to best. */
  datatype Rating = NeedsImprovement | Average | Good | Excellent

  /** Position of a rating in the order worst (0) to best (3). */
  function Rank(r: Rating): nat {
    match r
    case NeedsImprovement => 0
    case Average => 1
    case Good => 2
    case Excellent => 3
  }

  /** The text printed on the badge. */
  function Label(r: Rating): string {
    match r
    case NeedsImprovement => "Needs Improvement"
    case Average => "Average"
    case Good => "Good"
    case Excellent => "Excellent"
  }

  const ExcellentFrom := 85
  const GoodFrom := 70
  const AverageFrom := 50

  /** `getScoreBadge`: the first threshold the score reaches, taken from the
      highest down, decides the rating. */
  function ScoreBadge(score: int): (r: Rating)
    ensures r == Excellent <==> ExcellentFrom <= score
    ensures r == Good <==> GoodFrom <= score < ExcellentFrom
    ensures r == Average <==> AverageFrom <= score < GoodFrom
    ensures r == NeedsImprovement <==> score < AverageFrom
  {
    if score >= ExcellentFrom then Excellent
    else if score >= GoodFrom then Good
    else if score >= AverageFrom then Average
    else NeedsImprovement
  }

  /** Raising a score never earns a worse badge. */
  lemma ScoreBadgeMonotone(a: int, b: int)
    requires a <= b
    ensures Rank(ScoreBadge(a)) <= Rank(ScoreBadge(b))
  {
  }

  /** Distinct ratings print distinct labels, so the label identifies the rating. */
  lemma LabelsDistinct(r: Rating, q: Rating)
    ensures Label(r) == Label(q) <==> r == q
  {
    if r != q {
      assert Label(r)[0] != Label(q)[0] || |Label(r)| != |Label(q)|;
    }
  }
}
