/** The values and pure rules of patients/models.py: the patient profile,
    its choice sets and phone fields, the role check of `clean` and the age
    derived from the date of birth. */
module Patients {
  import opened Common
  import opened Users
  import Phone

  /** A patient_profiles row, keyed by its user (one-to-one). */
  datatype PatientProfile = PatientProfile(
    user: UserId,
    dateOfBirth: Option<Date>,
    gender: string,
    phoneNumber: string,
    emergencyContactPhone: string,
    bloodType: string)

  /** The row `PatientProfile.objects.create(user=u)` inserts: no date of
      birth and every text field at its default, the empty string. */
  function Blank(u: UserId): PatientProfile
  {
    PatientProfile(u, None, "", "", "", "")
  }

  const GENDERS: seq<string> := ["male", "female", "prefere_not_to_say"]

  const BLOOD_TYPES: seq<string> := ["A+", "A-", "B+", "B-", "O+", "O-", "AB+", "AB-", "unknown"]

  /** The field checks of full_clean: blood_type is one of the nine codes
      (blank is not allowed), gender one of the three codes or blank, and
      both phone fields blank or within max_length and the phone pattern. */
  predicate FieldsValid(p: PatientProfile)
  {
    && p.bloodType in BLOOD_TYPES
    && (p.gender == "" || p.gender in GENDERS)
    && Phone.FieldOk(p.phoneNumber, true)
    && Phone.FieldOk(p.emergencyContactPhone, true)
  }

  /** The profile the post_save receiver creates does not pass full_clean:
      its blood type is blank, the one field that may not be. Everything
      else in it is acceptable. */
  lemma BlankFailsOnBloodType(u: UserId)
    ensures !FieldsValid(Blank(u))
    ensures FieldsValid(Blank(u).(bloodType := "unknown"))
  {
    assert BLOOD_TYPES[8] == "unknown";
  }

  /** `PatientProfile.clean`: the message of the ValidationError, if any. */
  function Clean(ownerRole: Role): (error: Option<string>)
    ensures error.None? <==> ownerRole == Patient
    ensures error.Some? ==> error.value == "User must have a patient role"
  {
    if RoleName(ownerRole) != "patient" then Some("User must have a patient role") else None
  }

  // ---------------------------------------------------------------------------
  // Age.

  /** Dates in calendar order: by year, then month, then day. */
  predicate DateLeq(a: Date, b: Date)
  {
    a.year < b.year || (a.year == b.year && (a.month < b.month || (a.month == b.month && a.day <= b.day)))
  }

  /** The n-th anniversary of a date. */
  function Anniversary(d: Date, n: int): Date
  {
    Date(d.year + n, d.month, d.day)
  }

  /** The `age` property as written: `today.year - dob.year - (today.month,
      today.day) < (dob.month, dob.day)` groups as `(int - tuple) < tuple`,
      and subtracting a tuple from an int raises TypeError. */
  function AgeAsWritten(dateOfBirth: Option<Date>, today: Date): Result<Option<int>, Exception>
  {
    if dateOfBirth.None? then Ok(None)
    else Err(TypeError("unsupported operand type(s) for -: 'int' and 'tuple'"))
  }

  /** The age the expression is meant to give: the year difference, less one
      while this year's birthday is still ahead. It is the number of
      anniversaries reached by `today`: the r-th is on or before it, the
      (r+1)-th after it. */
  function Age(dateOfBirth: Option<Date>, today: Date): (r: Option<int>)
    ensures r.None? <==> dateOfBirth.None?
    ensures r.Some? ==> DateLeq(Anniversary(dateOfBirth.value, r.value), today)
                        && !DateLeq(Anniversary(dateOfBirth.value, r.value + 1), today)
  {
    if dateOfBirth.None? then None
    else
      var dob := dateOfBirth.value;
      var before := today.month < dob.month || (today.month == dob.month && today.day < dob.day);
      Some(today.year - dob.year - (if before then 1 else 0))
  }

  /** Only one count of anniversaries has that property, so the age is
      determined by it. */
  lemma AgeUnique(dob: Date, today: Date, n: int)
    requires DateLeq(Anniversary(dob, n), today) && !DateLeq(Anniversary(dob, n + 1), today)
    ensures Age(Some(dob), today) == Some(n)
  {
  }

  /** As written, every profile with a birth date raises where the age is
      read; without one both give None. */
  lemma AgeAsWrittenRaises(dateOfBirth: Option<Date>, today: Date)
    ensures dateOfBirth.Some? ==> AgeAsWritten(dateOfBirth, today).Err? && Age(dateOfBirth, today).Some?
    ensures dateOfBirth.None? ==> AgeAsWritten(dateOfBirth, today) == Ok(None) && Age(dateOfBirth, today) == None
  {
  }
}
