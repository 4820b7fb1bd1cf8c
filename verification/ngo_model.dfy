/** The NGO profile rules: the `successRate` virtual and the field bounds.
    The schema does not tie successful cases to cases handled, so the rate is
    not bounded by 100. */
module NgoModel {
  import opened Wrappers
  import opened Text
  import opened Numeric
  import opened Schema

  datatype RegistrationType = Society | Trust | Section8 | NgoType | Foundation {
    function Name(): string {
      match this
      case Society => "society"
      case Trust => "trust"
      case Section8 => "section8"
      case NgoType => "ngo"
      case Foundation => "foundation"
    }
  }

  function ParseRegistrationType(s: string): (r: Option<RegistrationType>)
    ensures r.Some? ==> r.value.Name() == s
  {
    if s == "society" then Some(Society)
    else if s == "trust" then Some(Trust)
    else if s == "section8" then Some(Section8)
    else if s == "ngo" then Some(NgoType)
    else if s == "foundation" then Some(Foundation)
    else None
  }

  datatype Statistics = Statistics(
    casesHandled: int,
    peopleHelped: int,
    successfulCases: int,
    ongoingCases: int)

  datatype Ngo = Ngo(
    name: Option<string>,
    registrationNumber: Option<string>,
    registrationType: Option<string>,
    description: Option<string>,
    ratingAverage: real,
    reviews: seq<Review>,
    transparencyScore: Option<real>,
    statistics: Statistics)

  /** `successRate`: successful cases as a whole percentage of cases handled,
      half-way cases rounded up; 0 while no case is handled. */
  function SuccessRate(stats: Statistics): (r: int)
    ensures stats.casesHandled <= 0 ==> r == 0
    ensures stats.casesHandled > 0 ==>
      -stats.casesHandled < 2 * (r * stats.casesHandled - 100 * stats.successfulCases) <= stats.casesHandled
  {
    if stats.casesHandled > 0 then RoundedPercent(stats.successfulCases, stats.casesHandled) else 0
  }

  /** The rate is never negative for non-negative counts, and stays within 100
      while successful cases do not outnumber handled ones. */
  lemma SuccessRateBounds(stats: Statistics)
    requires stats.successfulCases >= 0
    ensures SuccessRate(stats) >= 0
    ensures stats.successfulCases <= stats.casesHandled ==> SuccessRate(stats) <= 100
  {
    if stats.casesHandled > 0 {
      if stats.successfulCases <= stats.casesHandled {
        RoundedPercentBounds(stats.successfulCases, stats.casesHandled);
      } else {
        DivMonotone(stats.casesHandled, 200 * stats.successfulCases + stats.casesHandled, 2 * stats.casesHandled);
        DivIsUnique(stats.casesHandled, 2 * stats.casesHandled, 0);
      }
    }
  }

  /** Three successes out of two handled cases give 150. */
  lemma SuccessRateAbove100()
    ensures SuccessRate(Statistics(2, 0, 3, 0)) == 150
  {
    DivIsUnique(602, 4, 150);
  }

  const NameMax := 200
  const DescriptionMax := 2000

  function TrimmedName(v: Option<string>): (r: Option<string>)
    ensures r.Some? <==> v.Some?
    ensures r.Some? ==> IsTrimmed(r.value) && |r.value| <= |v.value|
  {
    match v
    case Some(s) => Some(Trim(s))
    case None => None
  }

  /** The profile checks, in field order. The name is trimmed before it is
      checked. */
  function NgoErrors(n: Ngo): (r: seq<FieldError>)
  {
    RequiredError("name", TrimmedName(n.name), "NGO name is required")
    + LengthError("name", TrimmedName(n.name), NameMax, "Name cannot exceed 200 characters")
    + RequiredError("registrationNumber", n.registrationNumber, "Registration number is required")
    + RequiredEnumError("registrationType", n.registrationType, "Path `registrationType` is required.", ParseRegistrationType)
    + RequiredError("description", n.description, "Description is required")
    + LengthError("description", n.description, DescriptionMax, "Description cannot exceed 2000 characters")
    + RangeError("rating.average", Some(n.ratingAverage), 0.0, 5.0)
    + ReviewErrors(n.reviews, 0)
    + RangeError("funding.transparencyScore", n.transparencyScore, 0.0, 100.0)
  }

  predicate NgoValid(n: Ngo) {
    && Present(TrimmedName(n.name)) && |Trim(n.name.value)| <= NameMax
    && Present(n.registrationNumber)
    && Present(n.registrationType) && ParseRegistrationType(n.registrationType.value).Some?
    && Present(n.description) && |n.description.value| <= DescriptionMax
    && 0.0 <= n.ratingAverage <= 5.0
    && ReviewsValid(n.reviews)
    && (n.transparencyScore.Some? ==> 0.0 <= n.transparencyScore.value <= 100.0)
  }

  /** The profile checks report nothing exactly when every bound holds; the
      statistics are never checked, so any counts pass. */
  lemma NgoErrorsIffValid(n: Ngo)
    ensures NgoErrors(n) == [] <==> NgoValid(n)
    ensures NgoErrors(n) == NgoErrors(n.(statistics := Statistics(2, 0, 3, 0)))
  {
    ReviewErrorsIffValid(n.reviews, 0);
  }
}
