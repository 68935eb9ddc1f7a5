/** The values and pure rules of consultants/models.py: the consultant
    profile and its field validators, the role check of `clean`, reviews with
    their rating choices and the average behind `update_rating`, and the
    availability slots with their day names. The steps that write these rows
    are methods of Store.Repository. */
module Consultants {
  import opened Common
  import opened Users
  import Phone

  /** A consultant_profile row. It is keyed by its user (one-to-one), so the
      user id also names the profile that reviews and slots point to. */
  datatype ConsultantProfile = ConsultantProfile(
    user: UserId,
    speciality: Option<nat>,
    licenseNumber: string,
    phoneNumber: string,
    yearsOfExperience: nat,
    consultationFee: real,
    consultationDuration: nat,
    rating: real,
    isVerified: bool,
    verificationDate: Option<Date>)

  /** The row `ConsultantProfile.objects.create(user=u)` tries to insert:
      every field at its default, and no speciality. */
  function Blank(u: UserId): ConsultantProfile
  {
    ConsultantProfile(u, None, "", "", 0, 0.0, 50, 0.0, false, None)
  }

  /** The field validators full_clean runs: experience and duration at most
      50, a fee of at least 0, a rating within [0, 5], a required speciality,
      licence number and phone number (max_length 100 and the phone pattern). */
  predicate FieldsValid(p: ConsultantProfile)
  {
    && p.speciality.Some?
    && p.yearsOfExperience <= 50
    && p.consultationDuration <= 50
    && p.consultationFee >= 0.0
    && 0.0 <= p.rating <= 5.0
    && 0 < |p.licenseNumber| <= 100
    && Phone.FieldOk(p.phoneNumber, false)
  }

  /** `ConsultantProfile.clean`: the message of the ValidationError, if any. */
  function Clean(ownerRole: Role): (error: Option<string>)
    ensures error.None? <==> ownerRole == Consultant
    ensures error.Some? ==> error.value == "User must have a consultant role"
  {
    if RoleName(ownerRole) != "consultant" then Some("User must have a consultant role") else None
  }

  // ---------------------------------------------------------------------------
  // Reviews and the rating.

  /** A consultant_review row; `consultant` names the profile by its user. */
  datatype Review = Review(id: nat, consultant: UserId, patient: UserId, rating: int, isAnonymous: bool)

  function Digit(i: int): (c: char)
    requires 0 <= i <= 9
    ensures '0' <= c <= '9'
  {
    ('0' as int + i) as char
  }

  /** The label RATING_CHOICES gives rating `i`, as written: the plural 's'
      is added only when i < 1, which no rating is. */
  function RatingLabelAsWritten(i: int): string
    requires 1 <= i <= 5
  {
    [Digit(i)] + " Star" + (if i < 1 then "s" else "")
  }

  /** The label with the plural on every rating above 1. */
  function RatingLabel(i: int): string
    requires 1 <= i <= 5
  {
    [Digit(i)] + " Star" + (if i > 1 then "s" else "")
  }

  /** RATING_CHOICES as written: the pairs for 1 to 5. */
  function RatingChoicesAsWritten(): (r: seq<(int, string)>)
    ensures |r| == 5
  {
    seq(5, k requires 0 <= k < 5 => (k + 1, RatingLabelAsWritten(k + 1)))
  }

  function RatingChoices(): (r: seq<(int, string)>)
    ensures |r| == 5
  {
    seq(5, k requires 0 <= k < 5 => (k + 1, RatingLabel(k + 1)))
  }

  /** As written no label is plural: rating 5 reads "5 Star". */
  lemma RatingLabelsNeverPlural()
    ensures forall k :: 0 <= k < 5 ==> RatingChoicesAsWritten()[k].1 == [Digit(k + 1)] + " Star"
    ensures RatingChoicesAsWritten()[4].1 == "5 Star"
  {
  }

  /** With the comparison turned, 1 is singular and 2 to 5 are plural, and
      the choice values are still exactly the ratings 1 to 5. */
  lemma RatingLabelsPlural(rating: int)
    ensures RatingChoices()[0].1 == "1 Star"
    ensures forall k :: 1 <= k < 5 ==> RatingChoices()[k].1 == [Digit(k + 1)] + " Stars"
    ensures (exists k :: 0 <= k < 5 && RatingChoices()[k].0 == rating) <==> 1 <= rating <= 5
  {
    if 1 <= rating <= 5 {
      assert RatingChoices()[rating - 1].0 == rating;
    }
  }

  /** The review's `limit_choices_to={"role": "patients"}` as written: no
      role is stored as "patients". */
  predicate PatientSelectableAsWritten(u: User)
  {
    RoleName(u.role) == "patients"
  }

  predicate PatientSelectable(u: User)
  {
    RoleName(u.role) == "patient"
  }

  /** As written, validating a review's patient rejects every user; with the
      role value spelled as stored, exactly the patients are accepted. */
  lemma PatientChoiceSpelling(u: User)
    ensures !PatientSelectableAsWritten(u)
    ensures PatientSelectable(u) <==> u.role == Patient
  {
    assert "patients"[7] == 's';
  }

  /** `consultant.reviews`: the ratings of the consultant's reviews, in table
      order. */
  function RatingsFor(rs: seq<Review>, c: UserId): (xs: seq<int>)
    ensures |xs| <= |rs|
    ensures (forall i :: 0 <= i < |rs| ==> rs[i].consultant != c) <==> xs == []
    ensures (forall i :: 0 <= i < |rs| && rs[i].consultant == c ==> 1 <= rs[i].rating <= 5)
            ==> forall j :: 0 <= j < |xs| ==> 1 <= xs[j] <= 5
  {
    if |rs| == 0 then []
    else (if rs[0].consultant == c then [rs[0].rating] else []) + RatingsFor(rs[1..], c)
  }

  function Sum(xs: seq<int>): int
  {
    if |xs| == 0 then 0 else xs[0] + Sum(xs[1..])
  }

  /** `consultant.reviews` grows with the table: a review appended for the
      consultant adds its rating at the end, any other review adds nothing.
      With RatingsFor([], c) == [] this fixes the list for every table. */
  lemma {:induction false} RatingsForAppend(rs: seq<Review>, r: Review, c: UserId)
    ensures RatingsFor(rs + [r], c) == RatingsFor(rs, c) + (if r.consultant == c then [r.rating] else [])
  {
    if |rs| == 0 {
      assert rs + [r] == [r];
    } else {
      assert (rs + [r])[1..] == rs[1..] + [r];
      RatingsForAppend(rs[1..], r, c);
    }
  }

  /** `Avg("rating")`: no value over no rows. */
  function Average(xs: seq<int>): (a: Option<real>)
    ensures a.None? <==> xs == []
    ensures a.Some? ==> a.value * |xs| as real == Sum(xs) as real
  {
    if xs == [] then None else Some(Sum(xs) as real / |xs| as real)
  }

  lemma {:induction false} SumBounds(xs: seq<int>)
    requires forall j :: 0 <= j < |xs| ==> 1 <= xs[j] <= 5
    ensures |xs| <= Sum(xs) <= 5 * |xs|
  {
    if |xs| > 0 {
      SumBounds(xs[1..]);
    }
  }

  lemma QuotientBounds(s: real, n: real, lo: real, hi: real)
    requires n > 0.0 && lo * n <= s <= hi * n
    ensures lo <= s / n <= hi
  {
    assert (s / n) * n == s;
  }

  /** The average of ratings from the choices 1 to 5 lies within [1, 5]. */
  lemma AverageInRange(xs: seq<int>)
    requires xs != [] && forall j :: 0 <= j < |xs| ==> 1 <= xs[j] <= 5
    ensures 1.0 <= Average(xs).value <= 5.0
  {
    SumBounds(xs);
    var n := |xs| as real;
    assert (5 * |xs|) as real == 5.0 * n;
    QuotientBounds(Sum(xs) as real, n, 1.0, 5.0);
  }

  /** The dictionary `aggregate(Avg("rating"))` returns: one key, Django's
      default alias "rating__avg". */
  function Aggregate(rs: seq<Review>, c: UserId): map<string, Option<real>>
  {
    map["rating__avg" := Average(RatingsFor(rs, c))]
  }

  /** update_rating's lookup as written, under the key "rating_avg". */
  function ReadAverageAsWritten(agg: map<string, Option<real>>): Result<Option<real>, Exception>
  {
    if "rating_avg" in agg then Ok(agg["rating_avg"]) else Err(KeyError("rating_avg"))
  }

  /** The lookup under the alias Django produces. */
  function ReadAverage(agg: map<string, Option<real>>): Result<Option<real>, Exception>
  {
    if "rating__avg" in agg then Ok(agg["rating__avg"]) else Err(KeyError("rating__avg"))
  }

  /** As written the lookup always raises KeyError; under the right alias it
      yields the average of the consultant's ratings. */
  lemma AverageLookup(rs: seq<Review>, c: UserId)
    ensures ReadAverageAsWritten(Aggregate(rs, c)) == Err(KeyError("rating_avg"))
    ensures ReadAverage(Aggregate(rs, c)) == Ok(Average(RatingsFor(rs, c)))
  {
    assert "rating_avg" != "rating__avg" by {
      assert |"rating_avg"| != |"rating__avg"|;
    }
  }

  /** The rating update_rating leaves: the average when it is truthy (there
      are reviews and it is not 0), the current rating otherwise. */
  function NewRating(current: real, average: Option<real>): real
  {
    if average.Some? && average.value != 0.0 then average.value else current
  }

  /** update_rating keeps the rating within its validator bounds [0, 5]: with
      no reviews it is unchanged, with reviews rated 1 to 5 it becomes their
      average. */
  lemma {:induction false} RatingStaysInBounds(rs: seq<Review>, c: UserId, current: real)
    requires 0.0 <= current <= 5.0
    requires forall i :: 0 <= i < |rs| && rs[i].consultant == c ==> 1 <= rs[i].rating <= 5
    ensures var r := NewRating(current, Average(RatingsFor(rs, c)));
      && 0.0 <= r <= 5.0
      && ((forall i :: 0 <= i < |rs| ==> rs[i].consultant != c) ==> r == current)
      && ((exists i :: 0 <= i < |rs| && rs[i].consultant == c) ==> r == Average(RatingsFor(rs, c)).value)
  {
    var xs := RatingsFor(rs, c);
    if xs != [] {
      AverageInRange(xs);
    }
  }

  /** The two saves of a profile keep its field validators satisfied:
      update_rating, when the consultant's reviews carry ratings from the
      choices 1 to 5, and verify_consultant, which writes only is_verified
      and verification_date. */
  lemma {:induction false} SavesKeepFieldsValid(p: ConsultantProfile, rs: seq<Review>, today: Date)
    requires FieldsValid(p)
    requires forall i :: 0 <= i < |rs| && rs[i].consultant == p.user ==> 1 <= rs[i].rating <= 5
    ensures FieldsValid(p.(rating := NewRating(p.rating, Average(RatingsFor(rs, p.user)))))
    ensures FieldsValid(p.(isVerified := true, verificationDate := Some(today)))
  {
    RatingStaysInBounds(rs, p.user, p.rating);
  }

  /** At most one review per (consultant, patient) pair, and unique ids. */
  ghost predicate ReviewsUnique(rs: seq<Review>)
  {
    forall i, j :: 0 <= i < j < |rs| ==>
      (rs[i].consultant, rs[i].patient) != (rs[j].consultant, rs[j].patient) && rs[i].id != rs[j].id
  }

  /** `objects.get(id=id)` on the review table, as an index. */
  function ReviewIndex(rs: seq<Review>, id: nat): (r: Option<nat>)
    ensures r.None? ==> forall j :: 0 <= j < |rs| ==> rs[j].id != id
    ensures r.Some? ==> r.value < |rs| && rs[r.value].id == id
  {
    if |rs| == 0 then None
    else if rs[|rs| - 1].id == id then Some(|rs| - 1)
    else ReviewIndex(rs[..|rs| - 1], id)
  }

  /** Another row already holds the review's (consultant, patient) pair. */
  predicate PairTaken(rs: seq<Review>, r: Review)
  {
    exists i :: 0 <= i < |rs| && rs[i].id != r.id && rs[i].consultant == r.consultant && rs[i].patient == r.patient
  }

  /** The table after `super().save()`: the row with the review's id is
      overwritten, or the review is appended as a new row. */
  function SavedReviews(rs: seq<Review>, r: Review): (out: seq<Review>)
    ensures r in out
    ensures forall x :: x in out ==> x == r || x in rs
    ensures |out| == |rs| || |out| == |rs| + 1
    ensures |out| == |rs| <==> exists i :: 0 <= i < |rs| && rs[i].id == r.id
    ensures forall i :: 0 <= i < |rs| && rs[i].id != r.id ==> out[i] == rs[i]
    ensures |out| == |rs| + 1 ==> out[|rs|] == r
  {
    match ReviewIndex(rs, r.id)
    case Some(k) => assert rs[k := r][k] == r; rs[k := r]
    case None => rs + [r]
  }

  /** Saving a review whose pair is free keeps one review per pair and one row
      per id. */
  lemma SaveKeepsReviewsUnique(rs: seq<Review>, r: Review)
    requires ReviewsUnique(rs) && !PairTaken(rs, r)
    ensures ReviewsUnique(SavedReviews(rs, r))
  {
  }

  /** Licence numbers are unique across profiles. */
  ghost predicate LicensesUnique(cs: map<UserId, ConsultantProfile>)
  {
    forall a, b :: a in cs && b in cs && a != b ==> cs[a].licenseNumber != cs[b].licenseNumber
  }

  // ---------------------------------------------------------------------------
  // Availability.

  /** A consultant_availability row; times are seconds since midnight. */
  datatype Slot = Slot(consultant: UserId, dayOfWeek: int, startTime: int, endTime: int, isActive: bool)

  /** At most one slot per (consultant, day_of_week, start_time). */
  ghost predicate SlotsUnique(ss: seq<Slot>)
  {
    forall i, j :: 0 <= i < j < |ss| ==>
      (ss[i].consultant, ss[i].dayOfWeek, ss[i].startTime) != (ss[j].consultant, ss[j].dayOfWeek, ss[j].startTime)
  }

  /** `calendar.day_name`, English locale. */
  const DAY_NAMES: seq<string> := ["Monday", "Tuesday", "Wednesday", "Thursday", "Friday", "Saturday", "Sunday"]

  /** DAY_CHOICES: the pairs (index, name) for the seven days. */
  const DAY_CHOICES: seq<(int, string)> :=
    [(0, DAY_NAMES[0]), (1, DAY_NAMES[1]), (2, DAY_NAMES[2]), (3, DAY_NAMES[3]),
     (4, DAY_NAMES[4]), (5, DAY_NAMES[5]), (6, DAY_NAMES[6])]

  /** `DAY_CHOICES[d]` with Python's list indexing: a negative index counts
      from the end, anything else out of range raises IndexError. */
  function DayChoice(d: int): (r: Result<(int, string), Exception>)
    ensures 0 <= d < 7 ==> r == Ok((d, DAY_NAMES[d]))
    ensures -7 <= d < 0 ==> r == Ok((d + 7, DAY_NAMES[d + 7]))
    ensures (d < -7 || d >= 7) <==> r.Err?
  {
    if 0 <= d < 7 then Ok(DAY_CHOICES[d])
    else if -7 <= d < 0 then Ok(DAY_CHOICES[d + 7])
    else Err(IndexError("list index out of range"))
  }

  /** The field's choices: a day value is one of DAY_CHOICES' first
      components. */
  predicate DayOk(d: int)
  {
    exists k :: 0 <= k < |DAY_CHOICES| && DAY_CHOICES[k].0 == d
  }

  /** The choice values are exactly the days 0 to 6. */
  lemma DayOkRange(d: int)
    ensures DayOk(d) <==> 0 <= d <= 6
  {
    if 0 <= d <= 6 {
      assert DAY_CHOICES[d].0 == d;
    }
  }

  /** `get_day_of_the_week_display` as written: the whole (index, name)
      pair. */
  function DayDisplayAsWritten(d: int): Result<(int, string), Exception>
  {
    DayChoice(d)
  }

  /** The display with the name taken out of the pair. */
  function DayDisplay(d: int): Result<string, Exception>
  {
    match DayChoice(d)
    case Ok(pair) => Ok(pair.1)
    case Err(e) => Err(e)
  }

  /** For a valid day, as written the display is a pair whose name is what
      the corrected display returns. */
  lemma DayDisplayNames(d: int)
    requires 0 <= d <= 6
    ensures DayDisplayAsWritten(d) == Ok((d, DAY_NAMES[d]))
    ensures DayDisplay(d) == Ok(DAY_NAMES[d])
    ensures DayDisplay(0) == Ok("Monday") && DayDisplayAsWritten(0) == Ok((0, "Monday"))
  {
  }
}
