/** The lawyer profile rules: the `calculatedSuccessRate` virtual, the save
    hook that copies it into the statistics, and the numeric bounds of the
    profile. Counts are integers; the schema does not stop them being
    negative. */
module LawyerModel {
  import opened Wrappers
  import opened Numeric
  import opened Schema

  datatype Statistics = Statistics(
    casesHandled: int,
    casesWon: int,
    casesLost: int,
    casesPending: int,
    successRate: int)

  datatype Lawyer = Lawyer(
    barCouncilId: Option<string>,
    experienceYears: Option<real>,
    ratingAverage: real,
    reviews: seq<Review>,
    statistics: Statistics)

  /** `calculatedSuccessRate`: won cases as a whole percentage of decided
      ones, half-way cases rounded up; 0 while no case is decided. */
  function CalculatedSuccessRate(stats: Statistics): (r: int)
    ensures stats.casesWon + stats.casesLost <= 0 ==> r == 0
    ensures var total := stats.casesWon + stats.casesLost;
      total > 0 ==> -total < 2 * (r * total - 100 * stats.casesWon) <= total
  {
    var total := stats.casesWon + stats.casesLost;
    if total > 0 then RoundedPercent(stats.casesWon, total) else 0
  }

  /** With non-negative counts the rate is a percentage, 100 for a lawyer who
      has lost nothing and 0 for one who has won nothing. */
  lemma SuccessRateBounds(stats: Statistics)
    requires stats.casesWon >= 0 && stats.casesLost >= 0
    ensures 0 <= CalculatedSuccessRate(stats) <= 100
    ensures stats.casesLost == 0 && stats.casesWon > 0 ==> CalculatedSuccessRate(stats) == 100
    ensures stats.casesWon == 0 ==> CalculatedSuccessRate(stats) == 0
  {
    var total := stats.casesWon + stats.casesLost;
    if total > 0 {
      RoundedPercentBounds(stats.casesWon, total);
    }
  }

  /** One more win never lowers the rate. */
  lemma SuccessRateRisesWithWins(stats: Statistics)
    requires stats.casesWon >= 0 && stats.casesLost >= 0
    ensures CalculatedSuccessRate(stats) <= CalculatedSuccessRate(stats.(casesWon := stats.casesWon + 1))
  {
    var w, l := stats.casesWon, stats.casesLost;
    if w + l > 0 {
      // 100w/(w+l) <= 100(w+1)/(w+l+1) because w <= w + l
      var a, b := 200 * w + (w + l), 2 * (w + l);
      var c, d := 200 * (w + 1) + (w + l + 1), 2 * (w + l + 1);
      var q := a / b;
      assert q * b <= a;
      assert q * d <= c by {
        assert q * b * d <= a * d;
        assert a * d <= c * b by {
          assert a * d - c * b == -400 * l;
        }
        assert q * d * b <= c * b;
        DivideOut(q * d, c, b);
      }
      DivLowerBound(c, d, q);
    } else {
      SuccessRateBounds(stats.(casesWon := stats.casesWon + 1));
    }
  }

  lemma DivideOut(x: int, y: int, b: int)
    requires b > 0 && x * b <= y * b
    ensures x <= y
  {
    DivIsUnique(x * b, b, x);
    DivIsUnique(y * b, b, y);
    DivMonotone(x * b, y * b, b);
  }

  lemma DivLowerBound(c: int, d: int, q: int)
    requires d > 0 && q * d <= c
    ensures q <= c / d
  {
    DivIsUnique(q * d, d, q);
    DivMonotone(q * d, c, d);
  }

  /** The `pre('save')` hook: when the statistics were modified the stored
      rate is replaced by the calculated one; nothing else changes. */
  function PreSave(l: Lawyer, statisticsModified: bool): (r: Lawyer)
    ensures !statisticsModified ==> r == l
    ensures statisticsModified ==>
      && r == l.(statistics := r.statistics)
      && r.statistics == l.statistics.(successRate := r.statistics.successRate)
      && r.statistics.successRate == CalculatedSuccessRate(l.statistics)
  {
    if statisticsModified then
      l.(statistics := l.statistics.(successRate := CalculatedSuccessRate(l.statistics)))
    else l
  }

  /** The calculated rate ignores the stored one, so a second save changes
      nothing more, and after a saving change the two agree. */
  lemma PreSaveIdempotent(l: Lawyer, first: bool, second: bool)
    ensures PreSave(PreSave(l, first), second) == PreSave(l, first || second)
    ensures first ==> PreSave(l, first).statistics.successRate
                        == CalculatedSuccessRate(PreSave(l, first).statistics)
  {
  }

  const RatingMax := 5.0

  /** The profile checks, in field order. */
  function LawyerErrors(l: Lawyer): (r: seq<FieldError>)
  {
    RequiredError("barCouncilId", l.barCouncilId, "Bar Council ID is required")
    + (if l.experienceYears.None? then [Required("experience.years", "Path `experience.years` is required.")]
       else MinError("experience.years", l.experienceYears, 0.0))
    + RangeError("rating.average", Some(l.ratingAverage), 0.0, RatingMax)
    + ReviewErrors(l.reviews, 0)
  }

  predicate LawyerValid(l: Lawyer) {
    && Present(l.barCouncilId)
    && l.experienceYears.Some? && l.experienceYears.value >= 0.0
    && 0.0 <= l.ratingAverage <= RatingMax
    && ReviewsValid(l.reviews)
  }

  /** The profile checks report nothing exactly when every bound holds. */
  lemma LawyerErrorsIffValid(l: Lawyer)
    ensures LawyerErrors(l) == [] <==> LawyerValid(l)
  {
    ReviewErrorsIffValid(l.reviews, 0);
  }
}
