/** The values of authentication/models.py: the user record with its role and
    status flags, the verification token, and the pure rules of the models and
    of the user manager (full name, email normalization, token expiry and
    validity, superuser defaults, the role filters). The steps that persist a
    user or a token are methods of Store.Repository. */
module Users {
  import opened Common

  datatype Role = Patient | Consultant | Admin

  /** The value stored in the role column. */
  function RoleName(r: Role): (name: string)
    ensures |name| >= 5
  {
    match r
    case Patient => "patient"
    case Consultant => "consultant"
    case Admin => "admin"
  }

  /** The password column: `set_password(None)` stores an unusable password,
      any other password is stored only as the hasher's digest. */
  datatype Credential = Unusable | Hashed(digest: string)

  datatype User = User(
    email: string,
    credential: Credential,
    firstName: string,
    lastName: string,
    role: Role,
    isActive: bool,
    isStaff: bool,
    isSuperuser: bool,
    isOnline: bool,
    isVerified: bool,
    lastSeen: Time,
    emailVerifiedAt: Option<Time>,
    createdAt: Time,
    updatedAt: Time)

  /** The keyword arguments create_user passes through to the model; a field
      left out takes the model's default. */
  datatype ExtraFields = ExtraFields(
    firstName: Option<string>,
    lastName: Option<string>,
    role: Option<Role>,
    isStaff: Option<bool>,
    isSuperuser: Option<bool>)

  function OrElse<T>(v: Option<T>, default: T): T
  {
    if v.Some? then v.value else default
  }

  /** `dict.setdefault`: an explicit value is kept, a missing one is filled. */
  function SetDefault<T>(v: Option<T>, default: T): Option<T>
  {
    if v.Some? then v else Some(default)
  }

  /** The extra fields create_superuser hands to create_user. */
  function SuperuserFields(extra: ExtraFields): (r: ExtraFields)
    ensures r.firstName == extra.firstName && r.lastName == extra.lastName
    ensures r.isStaff == Some(OrElse(extra.isStaff, true))
    ensures r.isSuperuser == Some(OrElse(extra.isSuperuser, true))
    ensures r.role == Some(OrElse(extra.role, Admin))
  {
    extra.(isStaff := SetDefault(extra.isStaff, true),
           isSuperuser := SetDefault(extra.isSuperuser, true),
           role := SetDefault(extra.role, Admin))
  }

  /** The credential set_password leaves for an optional raw password. */
  function CredentialFor(password: Option<string>, hasher: string -> string): (c: Credential)
    ensures password.None? <==> c == Unusable
    ensures password.Some? ==> c == Hashed(hasher(password.value))
  {
    if password.Some? then Hashed(hasher(password.value)) else Unusable
  }

  /** The row create_user saves: the model's defaults overridden by the extra
      fields, created_at, updated_at and last_seen all stamped with `now`. */
  function NewUser(email: string, credential: Credential, extra: ExtraFields, now: Time): (u: User)
    ensures u.email == email && u.credential == credential
    ensures u.firstName == OrElse(extra.firstName, "") && u.lastName == OrElse(extra.lastName, "")
    ensures u.role == OrElse(extra.role, Patient)
    ensures u.isActive && !u.isOnline && !u.isVerified && u.emailVerifiedAt == None
    ensures u.isStaff == OrElse(extra.isStaff, false) && u.isSuperuser == OrElse(extra.isSuperuser, false)
    ensures u.lastSeen == now && u.createdAt == now && u.updatedAt == now
  {
    User(email, credential, OrElse(extra.firstName, ""), OrElse(extra.lastName, ""),
         OrElse(extra.role, Patient), true, OrElse(extra.isStaff, false),
         OrElse(extra.isSuperuser, false), false, false, now, None, now, now)
  }

  // ---------------------------------------------------------------------------
  // Whitespace stripping, as str.strip() does on ASCII text.

  /** `str.isspace()` on an ASCII character. */
  predicate IsSpace(c: char)
  {
    c == ' ' || c == '\t' || c == '\n' || c == '\r' || c == '\U{B}' || c == '\U{C}'
    || c == '\U{1C}' || c == '\U{1D}' || c == '\U{1E}' || c == '\U{1F}'
  }

  function StripStart(s: string): (r: string)
    ensures |r| <= |s| && r == s[|s| - |r|..]
    ensures r == [] || !IsSpace(r[0])
    ensures forall i :: 0 <= i < |s| - |r| ==> IsSpace(s[i])
  {
    if |s| > 0 && IsSpace(s[0]) then StripStart(s[1..]) else s
  }

  function StripEnd(s: string): (r: string)
    ensures |r| <= |s| && r == s[..|r|]
    ensures r == [] || !IsSpace(r[|r| - 1])
    ensures forall i :: |r| <= i < |s| ==> IsSpace(s[i])
  {
    if |s| > 0 && IsSpace(s[|s| - 1]) then StripEnd(s[..|s| - 1]) else s
  }

  /** The number of whitespace characters str.strip() cuts from the front. */
  function Leading(s: string): (n: nat)
    ensures n <= |s|
  {
    |s| - |StripStart(s)|
  }

  /** `str.strip()`: the longest slice that neither starts nor ends with
      whitespace, everything cut off being whitespace. */
  function Strip(s: string): (r: string)
    ensures r == [] || (!IsSpace(r[0]) && !IsSpace(r[|r| - 1]))
    ensures Leading(s) + |r| <= |s| && r == s[Leading(s)..Leading(s) + |r|]
    ensures forall k :: 0 <= k < Leading(s) ==> IsSpace(s[k])
    ensures forall k :: Leading(s) + |r| <= k < |s| ==> IsSpace(s[k])
  {
    StripEnd(StripStart(s))
  }

  lemma StripUnchanged(s: string)
    requires s == [] || (!IsSpace(s[0]) && !IsSpace(s[|s| - 1]))
    ensures Strip(s) == s
  {
  }

  /** `User.full_name`. */
  function FullName(u: User): string
  {
    Strip(u.firstName + " " + u.lastName)
  }

  /** Two names without surrounding whitespace are joined by one space; two
      empty names give the empty string, one empty name gives the other. */
  lemma {:induction false} FullNameCases(u: User)
    requires u.firstName == [] || (!IsSpace(u.firstName[0]) && !IsSpace(u.firstName[|u.firstName| - 1]))
    requires u.lastName == [] || (!IsSpace(u.lastName[0]) && !IsSpace(u.lastName[|u.lastName| - 1]))
    ensures u.firstName != [] && u.lastName != [] ==> FullName(u) == u.firstName + " " + u.lastName
    ensures u.firstName == [] ==> FullName(u) == u.lastName
    ensures u.lastName == [] ==> FullName(u) == u.firstName
  {
    var s := u.firstName + " " + u.lastName;
    if u.firstName != [] && u.lastName != [] {
      StripUnchanged(s);
    } else if u.firstName == [] {
      assert s == [' '] + u.lastName;
      assert s[1..] == u.lastName;
      assert StripStart(s) == StripStart(u.lastName);
      StripUnchanged(u.lastName);
    } else {
      assert s[..|s| - 1] == u.firstName;
      assert StripStart(s) == s by { assert !IsSpace(s[0]); }
      StripUnchanged(u.firstName);
    }
  }

  // ---------------------------------------------------------------------------
  // Email normalization (BaseUserManager.normalize_email).

  function LowerChar(c: char): (d: char)
    ensures d == '@' <==> c == '@'
    ensures IsSpace(d) <==> IsSpace(c)
  {
    if 'A' <= c <= 'Z' then (c as int + 32) as char else c
  }

  function Lower(s: string): (r: string)
    ensures |r| == |s| && forall i :: 0 <= i < |s| ==> r[i] == LowerChar(s[i])
  {
    seq(|s|, i requires 0 <= i < |s| => LowerChar(s[i]))
  }

  function LastIndexOf(s: string, c: char): (r: Option<nat>)
    ensures r.None? ==> c !in s
    ensures r.Some? ==> r.value < |s| && s[r.value] == c
                         && forall j :: r.value < j < |s| ==> s[j] != c
  {
    if |s| == 0 then None
    else if s[|s| - 1] == c then Some(|s| - 1)
    else LastIndexOf(s[..|s| - 1], c)
  }

  lemma LastIndexOfUnique(s: string, c: char, i: nat)
    requires i < |s| && s[i] == c && forall j :: i < j < |s| ==> s[j] != c
    ensures LastIndexOf(s, c) == Some(i)
  {
  }

  /** normalize_email: split the stripped address at its last '@' and lower
      the domain part; an address without '@' is returned as given. */
  function NormalizeEmail(email: string): (r: string)
    ensures '@' !in Strip(email) ==> r == email
    ensures '@' in Strip(email) ==> '@' in r && |r| == |Strip(email)|
    ensures '@' in Strip(email) ==>
      exists i :: 0 <= i < |Strip(email)| && Strip(email)[i] == '@'
        && (forall j :: i < j < |Strip(email)| ==> Strip(email)[j] != '@')
        && r == Strip(email)[..i] + "@" + Lower(Strip(email)[i + 1..])
  {
    var t := Strip(email);
    match LastIndexOf(t, '@')
    case None => email
    case Some(i) => t[..i] + "@" + Lower(t[i + 1..])
  }

  lemma LowerIdempotent(s: string)
    ensures Lower(Lower(s)) == Lower(s)
  {
    assert forall i :: 0 <= i < |s| ==> LowerChar(LowerChar(s[i])) == LowerChar(s[i]);
  }

  /** An address already of the normalized form name + "@" + domain, with no
      surrounding whitespace and a lower-case domain, is its own
      normalization. */
  lemma {:induction false} NormalFormFixed(name: string, domain: string)
    requires name == [] || !IsSpace(name[0])
    requires domain == [] || !IsSpace(domain[|domain| - 1])
    requires '@' !in domain && Lower(domain) == domain
    ensures NormalizeEmail(name + "@" + domain) == name + "@" + domain
  {
    var r := name + "@" + domain;
    var i := |name|;
    assert r[0] == (if i > 0 then name[0] else '@');
    assert r[|r| - 1] == (if |domain| > 0 then domain[|domain| - 1] else '@');
    StripUnchanged(r);
    assert forall j :: i < j < |r| ==> r[j] == domain[j - i - 1];
    LastIndexOfUnique(r, '@', i);
    assert r[..i] == name;
    assert r[i + 1..] == domain;
  }

  /** A stripped text with an '@' splits at its last '@' into a name that
      does not start with whitespace and a lowered domain without '@' that
      does not end with it. */
  lemma {:induction false} SplitParts(t: string) returns (name: string, domain: string)
    requires '@' in t && !IsSpace(t[0]) && !IsSpace(t[|t| - 1])
    ensures LastIndexOf(t, '@').Some?
    ensures name == t[..LastIndexOf(t, '@').value] && domain == Lower(t[LastIndexOf(t, '@').value + 1..])
    ensures name == [] || !IsSpace(name[0])
    ensures domain == [] || !IsSpace(domain[|domain| - 1])
    ensures '@' !in domain && Lower(domain) == domain
  {
    var i := LastIndexOf(t, '@').value;
    var tail := t[i + 1..];
    name, domain := t[..i], Lower(tail);
    assert name == [] || name[0] == t[0];
    assert forall j :: 0 <= j < |tail| ==> tail[j] == t[i + 1 + j];
    if domain != [] {
      assert domain[|tail| - 1] == LowerChar(tail[|tail| - 1]);
    }
    LowerIdempotent(tail);
  }

  /** An address with an '@' normalizes to a name and a lower-case domain
      of the form NormalFormFixed accepts. */
  lemma NormalizedParts(email: string) returns (name: string, domain: string)
    requires '@' in Strip(email)
    ensures NormalizeEmail(email) == name + "@" + domain
    ensures name == [] || !IsSpace(name[0])
    ensures domain == [] || !IsSpace(domain[|domain| - 1])
    ensures '@' !in domain && Lower(domain) == domain
  {
    name, domain := SplitParts(Strip(email));
  }

  /** Normalizing twice is normalizing once: the stored address is a fixed
      point, so a lookup by the stored value finds it again. */
  lemma {:induction false} NormalizeIdempotent(email: string)
    ensures NormalizeEmail(NormalizeEmail(email)) == NormalizeEmail(email)
  {
    if '@' in Strip(email) {
      var name, domain := NormalizedParts(email);
      NormalFormFixed(name, domain);
    }
  }

  /** The duplicate check of register_user compares the raw address, while
      the stored one is normalized: an address whose domain has an upper-case
      letter is stored with that letter lowered, so the raw address is not
      the stored one and the check passes it on to the unique constraint. */
  lemma {:induction false} RawAndNormalizedDiffer(name: string, domain: string, k: nat)
    requires name == [] || !IsSpace(name[0])
    requires domain != [] && !IsSpace(domain[|domain| - 1]) && '@' !in domain
    requires k < |domain| && 'A' <= domain[k] <= 'Z'
    ensures NormalizeEmail(name + "@" + domain) == name + "@" + Lower(domain)
    ensures NormalizeEmail(name + "@" + domain) != name + "@" + domain
  {
    var r := name + "@" + domain;
    var i := |name|;
    assert r[0] == (if i > 0 then name[0] else '@');
    assert r[|r| - 1] == domain[|domain| - 1];
    StripUnchanged(r);
    assert forall j :: i < j < |r| ==> r[j] == domain[j - i - 1];
    LastIndexOfUnique(r, '@', i);
    assert r[..i] == name;
    assert r[i + 1..] == domain;
    assert (name + "@" + Lower(domain))[i + 1 + k] != r[i + 1 + k];
  }

  // ---------------------------------------------------------------------------
  // Verification tokens.

  datatype Token = Token(id: TokenId, user: UserId, createdAt: Time, expiresAt: Time, used: bool)

  /** `EmailVerificationToken.is_expired`: strictly past the expiry. */
  predicate IsExpired(t: Token, now: Time)
  {
    now > t.expiresAt
  }

  /** `EmailVerificationToken.is_valid`. */
  predicate IsValid(t: Token, now: Time)
  {
    !t.used && !IsExpired(t, now)
  }

  /** `EmailVerificationToken.save`: an unset expiry becomes 24 hours after
      `now`; a set one is kept. */
  function ExpiryOnSave(expiresAt: Option<Time>, now: Time): Time
  {
    if expiresAt.None? then now + DAY else expiresAt.value
  }

  /** The token objects.create(user=u) stores at `now`. */
  function NewToken(id: TokenId, u: UserId, now: Time): Token
  {
    Token(id, u, now, ExpiryOnSave(None, now), false)
  }

  /** A fresh token is valid from its creation up to and including the moment
      24 hours later, and expired from then on; saving it again keeps its
      expiry. */
  lemma NewTokenLifetime(id: TokenId, u: UserId, now: Time, t: Time)
    ensures now <= t <= now + DAY ==> IsValid(NewToken(id, u, now), t)
    ensures t > now + DAY ==> IsExpired(NewToken(id, u, now), t) && !IsValid(NewToken(id, u, now), t)
    ensures ExpiryOnSave(Some(NewToken(id, u, now).expiresAt), t) == now + DAY
  {
  }

  // ---------------------------------------------------------------------------
  // The manager's role filters.

  function ActiveWithRole(users: map<UserId, User>, role: Role): (r: set<UserId>)
    ensures forall id :: id in r <==> id in users && users[id].isActive && users[id].role == role
  {
    set id | id in users && users[id].isActive && users[id].role == role
  }

  /** `UserManager.get_patient`. */
  function GetPatient(users: map<UserId, User>): set<UserId>
  {
    ActiveWithRole(users, Patient)
  }

  /** `UserManager.get_consultants`. */
  function GetConsultants(users: map<UserId, User>): set<UserId>
  {
    ActiveWithRole(users, Consultant)
  }

  /** The two filters never share a user, and a deactivated user is in
      neither. */
  lemma FiltersDisjoint(users: map<UserId, User>, id: UserId)
    ensures GetPatient(users) !! GetConsultants(users)
    ensures id in users && !users[id].isActive ==> id !in GetPatient(users) && id !in GetConsultants(users)
  {
  }
}
