/** The schema checks the models share. Each check yields the errors of one
    field path, nothing when the field passes. Validators other than
    `required` skip a field that is unset, and a path reports at most its
    first failing check, `required` first. Numbers are exact rationals. */
module Schema {
  import opened Wrappers
  import opened Text

  /** A failed schema check, by field path. */
  datatype FieldError =
    | Required(path: string, message: string)
    | TooShort(path: string, message: string)
    | TooLong(path: string, message: string)
    | NoMatch(path: string, message: string)
    | NotInEnum(path: string, value: string)
    | BelowMin(path: string, min: real)
    | AboveMax(path: string, max: real)

  /** A required string is present and non-empty. */
  predicate Present(v: Option<string>) {
    v.Some? && |v.value| > 0
  }

  function RequiredError(path: string, v: Option<string>, message: string): (r: seq<FieldError>)
    ensures r == [] <==> Present(v)
  {
    if Present(v) then [] else [Required(path, message)]
  }

  function MinLengthError(path: string, v: Option<string>, min: nat, message: string): (r: seq<FieldError>)
    ensures r == [] <==> v.None? || |v.value| >= min
  {
    if v.Some? && |v.value| < min then [TooShort(path, message)] else []
  }

  function LengthError(path: string, v: Option<string>, max: nat, message: string): (r: seq<FieldError>)
    ensures r == [] <==> v.None? || |v.value| <= max
  {
    if v.Some? && |v.value| > max then [TooLong(path, message)] else []
  }

  function EnumError<E>(path: string, v: Option<string>, parse: string -> Option<E>): (r: seq<FieldError>)
    ensures r == [] <==> v.None? || parse(v.value).Some?
  {
    if v.Some? && parse(v.value).None? then [NotInEnum(path, v.value)] else []
  }

  /** A required enumeration: an unset or empty value reports `required`
      alone, and the enum check runs only on a present value. */
  function RequiredEnumError<E>(path: string, v: Option<string>, message: string, parse: string -> Option<E>): (r: seq<FieldError>)
    ensures r == [] <==> Present(v) && parse(v.value).Some?
    ensures !Present(v) ==> r == [Required(path, message)]
    ensures Present(v) && parse(v.value).None? ==> r == [NotInEnum(path, v.value)]
  {
    if !Present(v) then [Required(path, message)] else EnumError(path, v, parse)
  }

  /** `min` and `max` on a number; an unset number passes. */
  function RangeError(path: string, v: Option<real>, min: real, max: real): (r: seq<FieldError>)
    ensures r == [] <==> v.None? || min <= v.value <= max
    ensures |r| <= 1
  {
    if v.None? then []
    else if v.value < min then [BelowMin(path, min)]
    else if v.value > max then [AboveMax(path, max)]
    else []
  }

  /** `min` alone on a number. */
  function MinError(path: string, v: Option<real>, min: real): (r: seq<FieldError>)
    ensures r == [] <==> v.None? || min <= v.value
  {
    if v.Some? && v.value < min then [BelowMin(path, min)] else []
  }

  function IntValue(v: Option<int>): (r: Option<real>)
    ensures r.Some? <==> v.Some?
    ensures r.Some? ==> r.value == v.value as real
  {
    match v
    case Some(n) => Some(n as real)
    case None => None
  }

  // ---------------------------------------------------------------------------
  // Ratings and reviews (the same sub-schema on lawyers and NGOs)
  // ---------------------------------------------------------------------------

  /** `rating.average` is kept in [0, 5]; a review's own rating in [1, 5]. */
  datatype Review = Review(rating: Option<real>, comment: string)

  /** The `reviews.<k>.rating` checks, from index `from` on. */
  function ReviewErrors(reviews: seq<Review>, from: nat): (r: seq<FieldError>)
    requires from <= |reviews|
    decreases |reviews| - from
  {
    if from == |reviews| then []
    else
      RangeError("reviews." + NatToString(from) + ".rating", reviews[from].rating, 1.0, 5.0)
      + ReviewErrors(reviews, from + 1)
  }

  predicate ReviewsValid(reviews: seq<Review>) {
    forall k :: 0 <= k < |reviews| ==> reviews[k].rating.None? || 1.0 <= reviews[k].rating.value <= 5.0
  }

  /** The review checks report nothing exactly when every rated review is in range. */
  lemma {:induction false} ReviewErrorsIffValid(reviews: seq<Review>, from: nat)
    requires from <= |reviews|
    ensures ReviewErrors(reviews, from) == [] <==>
      forall k :: from <= k < |reviews| ==> reviews[k].rating.None? || 1.0 <= reviews[k].rating.value <= 5.0
    decreases |reviews| - from
  {
    if from < |reviews| {
      ReviewErrorsIffValid(reviews, from + 1);
    }
  }
}
