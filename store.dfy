/** The database the core works on, as one object whose fields are its
    tables, and the model-level operations that write to it: the user
    manager's inserts and the post_save receiver they fire, the save methods
    of User, EmailVerificationToken, ConsultantProfile and ConsultantReview,
    and the inserts of the profile and availability tables. Every method
    keeps the table invariants of Valid(), the unique and one-to-one
    constraints among them. */
module Store {
  import opened Common
  import opened Users
  import Ledger
  import Consultants
  import Patients

  const EMAIL_EMPTY := "Email field is empty"
  const DUPLICATE_EMAIL := "UNIQUE constraint failed: users.email"
  const DUPLICATE_PATIENT := "UNIQUE constraint failed: patient_profiles.user_id"
  const DUPLICATE_CONSULTANT := "UNIQUE constraint failed: consultant_profile.user_id"
  const DUPLICATE_LICENSE := "UNIQUE constraint failed: consultant_profile.license_number"
  const MISSING_SPECIALITY := "NOT NULL constraint failed: consultant_profile.speciality_id"
  const DUPLICATE_REVIEW := "UNIQUE constraint failed: consultant_review.consultant_id, consultant_review.patient_id"
  const DUPLICATE_SLOT := "UNIQUE constraint failed: consultant_availability.consultant_id, consultant_availability.day_of_week, consultant_availability.start_time"

  /** What the post_save receiver did for a saved user: nothing, or one
      attempt to create a profile, with the exception it logged and swallowed
      if the insert failed. */
  datatype ProfileAttempt =
    | NoAttempt
    | PatientAttempt(failure: Option<Exception>)
    | ConsultantAttempt(failure: Option<Exception>)

  /** A user row already holds the address `e` (the `filter(email=e).exists()`
      query). */
  predicate EmailTaken(users: map<UserId, User>, e: string)
  {
    exists id :: id in users && users[id].email == e
  }

  ghost predicate EmailsUnique(users: map<UserId, User>)
  {
    forall a, b :: a in users && b in users && a != b ==> users[a].email != users[b].email
  }

  /** The error the consultant_profile insert of `p` raises, if any: the
      required speciality is checked first, then the one-to-one link to the
      user, then the unique licence number. */
  function ConsultantInsertFailure(cs: map<UserId, Consultants.ConsultantProfile>, p: Consultants.ConsultantProfile): (e: Option<Exception>)
    ensures e.None? <==> p.speciality.Some? && p.user !in cs
                         && forall k :: k in cs ==> cs[k].licenseNumber != p.licenseNumber
    ensures p.speciality.None? ==> e == Some(IntegrityError(MISSING_SPECIALITY))
    ensures e.Some? ==> e.value.IntegrityError?
  {
    if p.speciality.None? then Some(IntegrityError(MISSING_SPECIALITY))
    else if p.user in cs then Some(IntegrityError(DUPLICATE_CONSULTANT))
    else if exists k :: k in cs && cs[k].licenseNumber == p.licenseNumber then Some(IntegrityError(DUPLICATE_LICENSE))
    else None
  }

  /** The availability row's (consultant, day, start) key is already held. */
  predicate SlotTaken(ss: seq<Consultants.Slot>, s: Consultants.Slot)
  {
    exists i :: 0 <= i < |ss| && ss[i].consultant == s.consultant && ss[i].dayOfWeek == s.dayOfWeek && ss[i].startTime == s.startTime
  }

  class Repository {
    var users: map<UserId, User>
    var nextUser: UserId
    var tokens: seq<Token>
    var nextToken: TokenId
    var patients: map<UserId, Patients.PatientProfile>
    var consultants: map<UserId, Consultants.ConsultantProfile>
    var reviews: seq<Consultants.Review>
    var slots: seq<Consultants.Slot>

    /** The constraints of the schema: primary keys below the next one handed
        out, a unique non-empty email per user, unique token values and at
        most one unused token per user, one profile of each kind per user,
        unique licence numbers, one review per (consultant, patient), one
        slot per (consultant, day, start), and every foreign key resolving. */
    ghost predicate Valid()
      reads this
    {
      UsersOk() && TokensOk() && ProfilesOk() && ReviewsOk() && SlotsOk()
    }

    ghost predicate UsersOk()
      reads this`users, this`nextUser
    {
      && (forall id :: id in users ==> id < nextUser && users[id].email != "")
      && EmailsUnique(users)
    }

    ghost predicate TokensOk()
      reads this`tokens, this`nextToken, this`users
    {
      && Ledger.IdsFresh(tokens, nextToken)
      && Ledger.AtMostOneUnused(tokens)
      && (forall i :: 0 <= i < |tokens| ==> tokens[i].user in users)
    }

    ghost predicate ProfilesOk()
      reads this`patients, this`consultants, this`users
    {
      && (forall id :: id in patients ==> id in users && patients[id].user == id)
      && (forall id :: id in consultants ==> id in users && consultants[id].user == id)
      && Consultants.LicensesUnique(consultants)
    }

    ghost predicate ReviewsOk()
      reads this`reviews, this`consultants, this`users
    {
      && Consultants.ReviewsUnique(reviews)
      && (forall i :: 0 <= i < |reviews| ==> reviews[i].consultant in consultants && reviews[i].patient in users)
    }

    ghost predicate SlotsOk()
      reads this`slots, this`consultants
    {
      && Consultants.SlotsUnique(slots)
      && (forall i :: 0 <= i < |slots| ==> slots[i].consultant in consultants)
    }

    /** An empty database. */
    constructor ()
      ensures Valid()
      ensures users == map[] && tokens == [] && patients == map[] && consultants == map[]
      ensures reviews == [] && slots == []
    {
      users := map[];
      nextUser := 0;
      tokens := [];
      nextToken := 0;
      patients := map[];
      consultants := map[];
      reviews := [];
      slots := [];
    }

    // -------------------------------------------------------------------------
    // Users.

    /** `UserManager.create_user`: refuse an empty address, normalize it,
        set the password, insert the row (the unique constraint on email is
        the guard against a duplicate) and let post_save provision the
        profile. A failed insert leaves every table as it was. */
    method CreateUser(email: string, password: Option<string>, hasher: string -> string, extra: ExtraFields, now: Time)
      returns (result: Result<UserId, Exception>, attempt: ProfileAttempt)
      requires Valid()
      modifies this`users, this`nextUser, this`patients, this`consultants
      ensures Valid()
      ensures email == "" ==> result == Err(ValueError(EMAIL_EMPTY))
      ensures email != "" && EmailTaken(old(users), NormalizeEmail(email)) ==> result == Err(IntegrityError(DUPLICATE_EMAIL))
      ensures result.Err? ==> && users == old(users) && nextUser == old(nextUser)
                              && patients == old(patients) && consultants == old(consultants)
                              && attempt == NoAttempt
      ensures result.Ok? <==> email != "" && !EmailTaken(old(users), NormalizeEmail(email))
      ensures result.Ok? ==>
        && result.value == old(nextUser) && result.value !in old(users)
        && users == old(users)[result.value := NewUser(NormalizeEmail(email), CredentialFor(password, hasher), extra, now)]
        && nextUser == old(nextUser) + 1
        && consultants == old(consultants)
        && (users[result.value].role == Patient ==>
              attempt == PatientAttempt(None) && patients == old(patients)[result.value := Patients.Blank(result.value)])
        && (users[result.value].role == Consultant ==>
              attempt == ConsultantAttempt(Some(IntegrityError(MISSING_SPECIALITY))) && patients == old(patients))
        && (users[result.value].role == Admin ==> attempt == NoAttempt && patients == old(patients))
    {
      if email == "" {
        return Err(ValueError(EMAIL_EMPTY)), NoAttempt;
      }
      var normalized := NormalizeEmail(email);
      if EmailTaken(users, normalized) {
        return Err(IntegrityError(DUPLICATE_EMAIL)), NoAttempt;
      }
      var row := NewUser(normalized, CredentialFor(password, hasher), extra, now);
      assert row.email != "" by {
        assert '@' !in Strip(email) ==> normalized == email;
      }
      var id := InsertUser(row);
      attempt := CreateUserProfile(id, true);
      result := Ok(id);
    }

    /** `user.save()` of a new row: the next primary key is taken; the
        caller has checked the unique email. */
    method InsertUser(row: User) returns (id: UserId)
      requires Valid() && row.email != "" && !EmailTaken(users, row.email)
      modifies this`users, this`nextUser
      ensures Valid()
      ensures id == old(nextUser) && id !in old(users)
      ensures users == old(users)[id := row] && nextUser == old(nextUser) + 1
    {
      id := nextUser;
      assert id !in patients && id !in consultants;
      users := users[id := row];
      nextUser := nextUser + 1;
    }

    /** `UserManager.create_superuser`: create_user with is_staff,
        is_superuser and role defaulted to True, True and admin; values the
        caller gave are kept, so a superuser created with a patient or
        consultant role is provisioned like any user of that role. */
    method CreateSuperuser(email: string, password: Option<string>, hasher: string -> string, extra: ExtraFields, now: Time)
      returns (result: Result<UserId, Exception>, attempt: ProfileAttempt)
      requires Valid()
      modifies this`users, this`nextUser, this`patients, this`consultants
      ensures Valid()
      ensures email == "" ==> result == Err(ValueError(EMAIL_EMPTY))
      ensures email != "" && EmailTaken(old(users), NormalizeEmail(email)) ==> result == Err(IntegrityError(DUPLICATE_EMAIL))
      ensures result.Err? ==> && users == old(users) && nextUser == old(nextUser)
                              && patients == old(patients) && consultants == old(consultants)
                              && attempt == NoAttempt
      ensures result.Ok? <==> email != "" && !EmailTaken(old(users), NormalizeEmail(email))
      ensures result.Ok? ==>
        && result.value == old(nextUser) && result.value !in old(users)
        && users == old(users)[result.value := NewUser(NormalizeEmail(email), CredentialFor(password, hasher), SuperuserFields(extra), now)]
        && nextUser == old(nextUser) + 1
        && consultants == old(consultants)
        && users[result.value].isStaff == OrElse(extra.isStaff, true)
        && users[result.value].isSuperuser == OrElse(extra.isSuperuser, true)
        && users[result.value].role == OrElse(extra.role, Admin)
        && (users[result.value].role == Patient ==>
              attempt == PatientAttempt(None) && patients == old(patients)[result.value := Patients.Blank(result.value)])
        && (users[result.value].role == Consultant ==>
              attempt == ConsultantAttempt(Some(IntegrityError(MISSING_SPECIALITY))) && patients == old(patients))
        && (users[result.value].role == Admin ==> attempt == NoAttempt && patients == old(patients))
    {
      result, attempt := CreateUser(email, password, hasher, SuperuserFields(extra), now);
    }

    /** The post_save receiver `create_user_profile`: only for a row just
        created, a patient gets a blank patient profile and a consultant a
        blank consultant profile; any other role gets nothing. A failing
        insert is swallowed and the user row stays. */
    method CreateUserProfile(u: UserId, created: bool) returns (attempt: ProfileAttempt)
      requires Valid() && u in users
      modifies this`patients, this`consultants
      ensures Valid()
      ensures consultants == old(consultants)
      ensures !created ==> attempt == NoAttempt && patients == old(patients)
      ensures created && users[u].role == Patient ==>
        && attempt == PatientAttempt(if u in old(patients) then Some(IntegrityError(DUPLICATE_PATIENT)) else None)
        && patients == (if u in old(patients) then old(patients) else old(patients)[u := Patients.Blank(u)])
      ensures created && users[u].role == Consultant ==>
        attempt == ConsultantAttempt(Some(IntegrityError(MISSING_SPECIALITY))) && patients == old(patients)
      ensures created && users[u].role == Admin ==> attempt == NoAttempt && patients == old(patients)
    {
      attempt := NoAttempt;
      if created {
        if RoleName(users[u].role) == "patient" {
          var failure := CreatePatientProfile(u);
          attempt := PatientAttempt(failure);
        } else if RoleName(users[u].role) == "consultant" {
          var failure := CreateConsultantProfile(Consultants.Blank(u));
          attempt := ConsultantAttempt(failure);
        }
      }
    }

    /** `User.mark_email_verified`: only is_verified and email_verified_at
        change. */
    method MarkEmailVerified(u: UserId, now: Time)
      requires Valid() && u in users
      modifies this`users
      ensures Valid()
      ensures users == old(users)[u := old(users)[u].(isVerified := true, emailVerifiedAt := Some(now))]
    {
      users := users[u := users[u].(isVerified := true, emailVerifiedAt := Some(now))];
    }

    /** `User.update_online_status`: only is_online and last_seen change. */
    method UpdateOnlineStatus(u: UserId, isOnline: bool, now: Time)
      requires Valid() && u in users
      modifies this`users
      ensures Valid()
      ensures users == old(users)[u := old(users)[u].(isOnline := isOnline, lastSeen := now)]
    {
      users := users[u := users[u].(isOnline := isOnline, lastSeen := now)];
    }

    // -------------------------------------------------------------------------
    // Verification tokens.

    /** The two statements send_verification_email runs on the token table:
        mark every unused token of `u` used, then create one token, whose
        save stamps the 24-hour expiry. Afterwards `u` holds exactly one
        unused token, the new one. */
    method IssueToken(u: UserId, now: Time) returns (t: Token)
      requires Valid() && u in users
      modifies this`tokens, this`nextToken
      ensures Valid()
      ensures tokens == Ledger.Issue(old(tokens), u, old(nextToken), now)
      ensures nextToken == old(nextToken) + 1
      ensures t == Token(old(nextToken), u, now, now + DAY, false) && t == tokens[|tokens| - 1]
      ensures forall i :: 0 <= i < |tokens| && tokens[i].user == u && !tokens[i].used ==> i == |tokens| - 1
    {
      Ledger.IssueKeepsInvariant(tokens, u, nextToken, now);
      Ledger.IssueKeepsIdsFresh(tokens, u, nextToken, now);
      tokens := Ledger.Invalidate(tokens, u);
      t := NewToken(nextToken, u, now);
      tokens := tokens + [t];
      nextToken := nextToken + 1;
    }

    /** `token.is_used = True; token.save()` on the k-th row. */
    method MarkTokenUsed(k: nat, now: Time)
      requires Valid() && k < |tokens|
      modifies this`tokens
      ensures Valid()
      ensures tokens == Ledger.Redeem(old(tokens), k, now)
      ensures tokens[k] == old(tokens)[k].(used := true)
    {
      Ledger.RedeemKeepsInvariant(tokens, k, now, nextToken);
      tokens := Ledger.Redeem(tokens, k, now);
    }

    // -------------------------------------------------------------------------
    // Profiles.

    /** `PatientProfile.objects.create(user=u)`: the one-to-one link refuses
        a second profile for the same user. */
    method CreatePatientProfile(u: UserId) returns (failure: Option<Exception>)
      requires Valid() && u in users
      modifies this`patients
      ensures Valid()
      ensures failure == (if u in old(patients) then Some(IntegrityError(DUPLICATE_PATIENT)) else None)
      ensures patients == (if u in old(patients) then old(patients) else old(patients)[u := Patients.Blank(u)])
    {
      if u in patients {
        return Some(IntegrityError(DUPLICATE_PATIENT));
      }
      patients := patients[u := Patients.Blank(u)];
      failure := None;
    }

    /** The insert of a consultant_profile row: refused without a speciality,
        for a user who already has a profile, or for a licence number already
        held; otherwise the row is stored. */
    method CreateConsultantProfile(p: Consultants.ConsultantProfile) returns (failure: Option<Exception>)
      requires Valid() && p.user in users
      modifies this`consultants
      ensures Valid()
      ensures failure == ConsultantInsertFailure(old(consultants), p)
      ensures consultants == (if failure.None? then old(consultants)[p.user := p] else old(consultants))
    {
      failure := ConsultantInsertFailure(consultants, p);
      if failure.None? {
        consultants := consultants[p.user := p];
      }
    }

    /** `ConsultantProfile.verify_consultant`: only is_verified and
        verification_date change. */
    method VerifyConsultant(c: UserId, today: Date)
      requires Valid() && c in consultants
      modifies this`consultants
      ensures Valid()
      ensures consultants == old(consultants)[c := old(consultants)[c].(isVerified := true, verificationDate := Some(today))]
    {
      consultants := consultants[c := consultants[c].(isVerified := true, verificationDate := Some(today))];
    }

    /** `ConsultantProfile.update_rating`, reading the aggregate under the
        key Django gives it: only the rating changes, to the average of the
        consultant's reviews when that is truthy. With review ratings in
        1..5 and a rating in [0, 5] before, it stays in [0, 5]. */
    method UpdateRating(c: UserId)
      requires Valid() && c in consultants
      modifies this`consultants
      ensures Valid()
      ensures consultants == old(consultants)[c := old(consultants)[c].(rating :=
                Consultants.NewRating(old(consultants)[c].rating, Consultants.Average(Consultants.RatingsFor(reviews, c))))]
      ensures (0.0 <= old(consultants)[c].rating <= 5.0
               && forall i :: 0 <= i < |reviews| && reviews[i].consultant == c ==> 1 <= reviews[i].rating <= 5)
              ==> 0.0 <= consultants[c].rating <= 5.0
    {
      var agg := Consultants.Aggregate(reviews, c);
      Consultants.AverageLookup(reviews, c);
      var avg := Consultants.ReadAverage(agg).value;
      var current := consultants[c].rating;
      var rating := Consultants.NewRating(current, avg);
      ghost var bounded := 0.0 <= current <= 5.0
        && forall i :: 0 <= i < |reviews| && reviews[i].consultant == c ==> 1 <= reviews[i].rating <= 5;
      if bounded {
        Consultants.RatingStaysInBounds(reviews, c, current);
        assert 0.0 <= rating <= 5.0;
      }
      SaveRating(c, rating);
    }

    /** `save(update_fields=["rating"])`: only the rating column is written. */
    method SaveRating(c: UserId, rating: real)
      requires Valid() && c in consultants
      modifies this`consultants
      ensures Valid()
      ensures consultants == old(consultants)[c := old(consultants)[c].(rating := rating)]
    {
      consultants := consultants[c := consultants[c].(rating := rating)];
    }

    /** `ConsultantReview.save`: the row is written first (refused when
        another row holds the same consultant and patient), then the
        consultant's rating is recomputed. */
    method SaveReview(r: Consultants.Review) returns (failure: Option<Exception>)
      requires Valid() && r.consultant in consultants && r.patient in users
      modifies this`reviews, this`consultants
      ensures Valid()
      ensures failure.Some? <==> Consultants.PairTaken(old(reviews), r)
      ensures failure.Some? ==> failure == Some(IntegrityError(DUPLICATE_REVIEW))
                                && reviews == old(reviews) && consultants == old(consultants)
      ensures failure.None? ==>
        && reviews == Consultants.SavedReviews(old(reviews), r)
        && consultants == old(consultants)[r.consultant := old(consultants)[r.consultant].(rating :=
             Consultants.NewRating(old(consultants)[r.consultant].rating, Consultants.Average(Consultants.RatingsFor(reviews, r.consultant))))]
    {
      if Consultants.PairTaken(reviews, r) {
        return Some(IntegrityError(DUPLICATE_REVIEW));
      }
      Consultants.SaveKeepsReviewsUnique(reviews, r);
      reviews := Consultants.SavedReviews(reviews, r);
      UpdateRating(r.consultant);
      failure := None;
    }

    /** The insert of a consultant_availability row, refused when the
        (consultant, day, start) key is held. */
    method AddSlot(s: Consultants.Slot) returns (failure: Option<Exception>)
      requires Valid() && s.consultant in consultants
      modifies this`slots
      ensures Valid()
      ensures failure.Some? <==> SlotTaken(old(slots), s)
      ensures failure.Some? ==> failure == Some(IntegrityError(DUPLICATE_SLOT)) && slots == old(slots)
      ensures failure.None? ==> slots == old(slots) + [s]
    {
      if SlotTaken(slots, s) {
        return Some(IntegrityError(DUPLICATE_SLOT));
      }
      slots := slots + [s];
      failure := None;
    }
  }
}
