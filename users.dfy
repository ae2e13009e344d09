/** The `users` table and the service that reads and updates it. */
module Users {
  import opened Common

  /** Exactly four roles. */
  datatype UserRole = RegularUser | HostUser | Admin | SuperAdmin

  /** The value stored in the enum column. */
  function RoleName(r: UserRole): string {
    match r
    case RegularUser => "user"
    case HostUser => "host"
    case Admin => "admin"
    case SuperAdmin => "superadmin"
  }

  /** One row. Nullable columns are `Option`s; `password` holds the bcrypt
      hash the service stored, never the text the caller sent. */
  datatype User = User(
    id: string,
    firstName: string,
    lastName: string,
    email: string,
    password: Option<string>,
    role: UserRole,
    isVerified: bool,
    isBanned: bool,
    twoFactorEnabled: bool,
    twoFactorSecret: Option<string>,
    profileImage: Option<string>,
    phoneNumber: Option<string>,
    preferredLanguage: string,
    points: int,
    level: int,
    stripeCustomerId: Option<string>)

  /** The columns a caller supplies when registering a user: any column may
      be given, the names and the email always are. */
  datatype UserDraft = UserDraft(
    firstName: string,
    lastName: string,
    email: string,
    password: Option<string>,
    role: Option<UserRole>,
    isVerified: Option<bool>,
    isBanned: Option<bool>,
    twoFactorEnabled: Option<bool>,
    twoFactorSecret: Option<string>,
    profileImage: Option<string>,
    phoneNumber: Option<string>,
    preferredLanguage: Option<string>,
    points: Option<int>,
    level: Option<int>,
    stripeCustomerId: Option<string>)

  /** A partial update: only the present fields are written; for a
      nullable column, `Some(None)` writes null. */
  datatype UserPatch = UserPatch(
    firstName: Option<string>,
    lastName: Option<string>,
    email: Option<string>,
    password: Option<Option<string>>,
    role: Option<UserRole>,
    isVerified: Option<bool>,
    isBanned: Option<bool>,
    twoFactorEnabled: Option<bool>,
    twoFactorSecret: Option<Option<string>>,
    profileImage: Option<Option<string>>,
    phoneNumber: Option<Option<string>>,
    preferredLanguage: Option<string>,
    points: Option<int>,
    level: Option<int>,
    stripeCustomerId: Option<Option<string>>)

  /** The row a draft becomes: the columns given, and the column defaults
      for everything left out (role USER, not verified, not banned, no
      two-factor, language "es", 0 points, level 1, nullable columns null). */
  function NewUser(id: string, d: UserDraft): (u: User)
    ensures u.id == id && u.email == d.email
    ensures u.firstName == d.firstName && u.lastName == d.lastName
    ensures u.password == d.password
    ensures u.role == d.role.GetOr(RegularUser)
    ensures u.isVerified == d.isVerified.GetOr(false) && u.isBanned == d.isBanned.GetOr(false)
    ensures u.twoFactorEnabled == d.twoFactorEnabled.GetOr(false) && u.twoFactorSecret == d.twoFactorSecret
    ensures u.profileImage == d.profileImage && u.phoneNumber == d.phoneNumber
    ensures u.preferredLanguage == d.preferredLanguage.GetOr("es")
    ensures u.points == d.points.GetOr(0) && u.level == d.level.GetOr(1)
    ensures u.stripeCustomerId == d.stripeCustomerId
  {
    User(id, d.firstName, d.lastName, d.email, d.password, d.role.GetOr(RegularUser),
         d.isVerified.GetOr(false), d.isBanned.GetOr(false), d.twoFactorEnabled.GetOr(false),
         d.twoFactorSecret, d.profileImage, d.phoneNumber, d.preferredLanguage.GetOr("es"),
         d.points.GetOr(0), d.level.GetOr(1), d.stripeCustomerId)
  }

  /** The draft `create` saves: a non-empty password is replaced by its
      hash `hashed`; an absent or empty one is saved as given. */
  function HashedDraft(d: UserDraft, hashed: string): (e: UserDraft)
    ensures !Blank(d.password) ==> e.password == Some(hashed)
    ensures Blank(d.password) ==> e.password == d.password
    ensures e.(password := d.password) == d
  {
    if Blank(d.password) then d else d.(password := Some(hashed))
  }

  /** The patch `update` writes: a non-empty password is replaced by its
      hash `hashed`; null, an empty one or none at all is written as given. */
  function HashedPatch(p: UserPatch, hashed: string): (q: UserPatch)
    ensures p.password.Some? && !Blank(p.password.value) ==> q.password == Some(Some(hashed))
    ensures !(p.password.Some? && !Blank(p.password.value)) ==> q.password == p.password
    ensures q.(password := p.password) == p
  {
    if p.password.Some? && !Blank(p.password.value) then p.(password := Some(Some(hashed))) else p
  }

  /** A password given at registration is never stored as sent: the row
      holds the hash, and only an empty password stays empty. */
  lemma StoredPasswordIsHash(id: string, d: UserDraft, hashed: string)
    requires d.password.Some?
    ensures var u := NewUser(id, HashedDraft(d, hashed));
            u.password == Some(hashed) || (u.password == Some("") && d.password == Some(""))
  {}

  /** A draft that gives only the names and the email. */
  function PlainDraft(firstName: string, lastName: string, email: string): UserDraft {
    UserDraft(firstName, lastName, email, None, None, None, None, None, None, None, None, None, None, None, None)
  }

  /** A user registered with only names and email is a plain USER: not
      verified, not banned, no two-factor, Spanish, no points, level 1, and
      every nullable column null. */
  lemma PlainUserDefaults(id: string, firstName: string, lastName: string, email: string, hashed: string)
    ensures var u := NewUser(id, HashedDraft(PlainDraft(firstName, lastName, email), hashed));
            && u.role == RegularUser && !u.isVerified && !u.isBanned && !u.twoFactorEnabled
            && u.preferredLanguage == "es" && u.points == 0 && u.level == 1
            && u.password.None? && u.twoFactorSecret.None? && u.profileImage.None?
            && u.phoneNumber.None? && u.stripeCustomerId.None?
  {}

  /** What `registerUser` passes: the names, the email and the password,
      with the role USER. */
  function RegisterDraft(firstName: string, lastName: string, email: string, password: string): UserDraft {
    PlainDraft(firstName, lastName, email).(password := Some(password), role := Some(RegularUser))
  }

  /** A registered user is an unverified USER whose non-empty password is
      stored as its hash. */
  lemma RegisteredUser(id: string, firstName: string, lastName: string, email: string, password: string, hashed: string)
    requires password != ""
    ensures var u := NewUser(id, HashedDraft(RegisterDraft(firstName, lastName, email, password), hashed));
            && u.role == RegularUser && !u.isVerified && !u.twoFactorEnabled
            && u.password == Some(hashed) && u.email == email
  {}

  /** What `validateOAuthUser` passes for a new account: the names and the
      email, the role USER, and verified. */
  function OAuthDraft(firstName: string, lastName: string, email: string): UserDraft {
    PlainDraft(firstName, lastName, email).(role := Some(RegularUser), isVerified := Some(true))
  }

  /** An account created from an OAuth profile is a verified USER with no
      password. */
  lemma OAuthUserVerified(id: string, firstName: string, lastName: string, email: string, hashed: string)
    ensures var u := NewUser(id, HashedDraft(OAuthDraft(firstName, lastName, email), hashed));
            u.role == RegularUser && u.isVerified && u.password.None? && u.email == email
  {}

  /** Overwrites the fields the patch supplies and keeps the rest. */
  function ApplyUserPatch(u: User, p: UserPatch): (v: User)
    ensures v.id == u.id
    ensures v.firstName == p.firstName.GetOr(u.firstName)
    ensures v.lastName == p.lastName.GetOr(u.lastName)
    ensures v.email == p.email.GetOr(u.email)
    ensures v.password == p.password.GetOr(u.password)
    ensures v.role == p.role.GetOr(u.role)
    ensures v.isVerified == p.isVerified.GetOr(u.isVerified) && v.isBanned == p.isBanned.GetOr(u.isBanned)
    ensures v.twoFactorEnabled == p.twoFactorEnabled.GetOr(u.twoFactorEnabled)
    ensures v.twoFactorSecret == p.twoFactorSecret.GetOr(u.twoFactorSecret)
    ensures v.profileImage == p.profileImage.GetOr(u.profileImage)
    ensures v.phoneNumber == p.phoneNumber.GetOr(u.phoneNumber)
    ensures v.preferredLanguage == p.preferredLanguage.GetOr(u.preferredLanguage)
    ensures v.points == p.points.GetOr(u.points) && v.level == p.level.GetOr(u.level)
    ensures v.stripeCustomerId == p.stripeCustomerId.GetOr(u.stripeCustomerId)
  {
    u.(firstName := p.firstName.GetOr(u.firstName),
       lastName := p.lastName.GetOr(u.lastName),
       email := p.email.GetOr(u.email),
       password := p.password.GetOr(u.password),
       role := p.role.GetOr(u.role),
       isVerified := p.isVerified.GetOr(u.isVerified),
       isBanned := p.isBanned.GetOr(u.isBanned),
       twoFactorEnabled := p.twoFactorEnabled.GetOr(u.twoFactorEnabled),
       twoFactorSecret := p.twoFactorSecret.GetOr(u.twoFactorSecret),
       profileImage := p.profileImage.GetOr(u.profileImage),
       phoneNumber := p.phoneNumber.GetOr(u.phoneNumber),
       preferredLanguage := p.preferredLanguage.GetOr(u.preferredLanguage),
       points := p.points.GetOr(u.points),
       level := p.level.GetOr(u.level),
       stripeCustomerId := p.stripeCustomerId.GetOr(u.stripeCustomerId))
  }

  /** A patch that writes nothing. */
  function EmptyPatch(): UserPatch {
    UserPatch(None, None, None, None, None, None, None, None, None, None, None, None, None, None, None)
  }

  /** A patch that only stores the payment gateway's customer id. */
  function CustomerIdPatch(customerId: string): UserPatch {
    EmptyPatch().(stripeCustomerId := Some(Some(customerId)))
  }

  /** Storing the customer id changes that column only. */
  lemma CustomerIdPatchOnly(u: User, customerId: string, hashed: string)
    ensures ApplyUserPatch(u, HashedPatch(CustomerIdPatch(customerId), hashed)) == u.(stripeCustomerId := Some(customerId))
  {}

  /** What `enableTwoFactor` writes: the flag on and the secret stored. */
  function EnableTwoFactorPatch(secret: string): UserPatch {
    EmptyPatch().(twoFactorEnabled := Some(true), twoFactorSecret := Some(Some(secret)))
  }

  /** What `disableTwoFactor` writes: the flag off and the secret null. */
  function DisableTwoFactorPatch(): UserPatch {
    EmptyPatch().(twoFactorEnabled := Some(false), twoFactorSecret := Some(None))
  }

  /** Enabling two-factor sign-in changes the flag and the secret only, and
      disabling it afterwards leaves the row as it would be with two-factor
      never enabled and no secret. */
  lemma TwoFactorPatches(u: User, secret: string, hashed: string)
    ensures ApplyUserPatch(u, HashedPatch(EnableTwoFactorPatch(secret), hashed))
            == u.(twoFactorEnabled := true, twoFactorSecret := Some(secret))
    ensures ApplyUserPatch(u, HashedPatch(DisableTwoFactorPatch(), hashed))
            == u.(twoFactorEnabled := false, twoFactorSecret := None)
    ensures ApplyUserPatch(ApplyUserPatch(u, EnableTwoFactorPatch(secret)), DisableTwoFactorPatch())
            == ApplyUserPatch(u, DisableTwoFactorPatch())
  {}

  /** Applying the same update twice is applying it once. */
  lemma UserPatchIdempotent(u: User, p: UserPatch)
    ensures ApplyUserPatch(ApplyUserPatch(u, p), p) == ApplyUserPatch(u, p)
  {}

  /** Whether some user other than `except` already has this email, as the
      database compares emails (ignoring letter case). */
  predicate EmailTaken(users: map<string, User>, email: string, except: Option<string>) {
    exists id :: id in users && SameText(users[id].email, email) && except != Some(id)
  }

  /** An email that differs from a stored one only in letter case is taken:
      the lookup by email finds the stored row. */
  lemma CaseVariantTaken(users: map<string, User>, id: string)
    requires id in users && users[id].email == "ana@x.com"
    ensures EmailTaken(users, "Ana@x.com", None)
  {
    CaseVariantsAlike();
    SameTextEquivalence("Ana@x.com", "ana@x.com", "ana@x.com");
  }

  /** The table with `delta` added to one user's points; every other
      column and every other user stay as they were. */
  function Credited(users: map<string, User>, id: string, delta: int): (r: map<string, User>)
    requires id in users
    ensures r.Keys == users.Keys
    ensures r[id].points == users[id].points + delta && r[id].(points := users[id].points) == users[id]
    ensures forall k :: k in users && k != id ==> r[k] == users[k]
  {
    users[id := users[id].(points := users[id].points + delta)]
  }

  /** No two users have emails the database compares as equal (the column
      has a unique index). */
  ghost predicate EmailsUnique(users: map<string, User>) {
    forall a, b :: a in users && b in users && SameText(users[a].email, users[b].email) ==> a == b
  }

  class UsersService {
    var users: map<string, User>

    ghost predicate Valid()
      reads this
    {
      && (forall id :: id in users ==> users[id].id == id)
      && EmailsUnique(users)
    }

    constructor ()
      ensures Valid() && users == map[]
    {
      users := map[];
    }

    /** `findById`: the row, or NotFound. */
    function FindById(id: string): (r: Result<User>)
      reads this
      ensures r.Ok? <==> id in users
      ensures r.Ok? ==> r.value == users[id]
      ensures r.Err? ==> r.error.NotFound?
    {
      if id in users then Ok(users[id]) else Err(NotFound("User with ID " + id + " not found"))
    }

    /** `create`: refuses an email already in use (ignoring letter case),
        otherwise inserts one row under a fresh id, with a non-empty
        password replaced by `hashed`, the bcrypt hash of it. */
    method Create(d: UserDraft, hashed: string) returns (r: Result<User>)
      requires Valid()
      modifies this
      ensures Valid()
      ensures r.Err? <==> EmailTaken(old(users), d.email, None)
      ensures r.Err? ==> r.error.Conflict? && users == old(users)
      ensures r.Ok? ==> r.value.id !in old(users) && r.value == NewUser(r.value.id, HashedDraft(d, hashed))
      ensures r.Ok? ==> users == old(users)[r.value.id := r.value]
    {
      if EmailTaken(users, d.email, None) {
        return Err(Conflict("User with email " + d.email + " already exists"));
      }
      FreshIdExists(users.Keys);
      var id :| id !in users;
      var u := NewUser(id, HashedDraft(d, hashed));
      users := users[id := u];
      r := Ok(u);
    }

    /** `update`: the user must exist; a non-empty password is replaced by
        `hashed`, its bcrypt hash; the unique email index rejects an email
        another user holds (ignoring letter case); the stored row is
        returned. */
    method Update(id: string, p: UserPatch, hashed: string) returns (r: Result<User>)
      requires Valid()
      modifies this
      ensures Valid()
      ensures r.Err? <==> id !in old(users) || (p.email.Some? && EmailTaken(old(users), p.email.value, Some(id)))
      ensures r.Err? ==> users == old(users)
      ensures r.Err? && id !in old(users) ==> r.error.NotFound?
      ensures r.Err? && id in old(users) ==> r.error == UniqueViolation("email")
      ensures r.Ok? ==> users == old(users)[id := ApplyUserPatch(old(users)[id], HashedPatch(p, hashed))]
                        && r.value == users[id]
    {
      if id !in users {
        return Err(NotFound("User with ID " + id + " not found"));
      }
      if p.email.Some? && EmailTaken(users, p.email.value, Some(id)) {
        return Err(UniqueViolation("email"));
      }
      users := users[id := ApplyUserPatch(users[id], HashedPatch(p, hashed))];
      r := Ok(users[id]);
    }

    /** `delete`: removes an existing row. */
    method Delete(id: string) returns (r: Result<()>)
      requires Valid()
      modifies this
      ensures Valid()
      ensures r.Ok? <==> id in old(users)
      ensures r.Ok? ==> users == old(users) - {id}
      ensures r.Err? ==> r.error.NotFound? && users == old(users)
    {
      if id !in users {
        return Err(NotFound("User with ID " + id + " not found"));
      }
      users := users - {id};
      r := Ok(());
    }

    /** `updateRole`: sets the role of an existing user. */
    method UpdateRole(id: string, role: UserRole) returns (r: Result<User>)
      requires Valid()
      modifies this
      ensures Valid()
      ensures r.Ok? <==> id in old(users)
      ensures r.Ok? ==> users == old(users)[id := old(users)[id].(role := role)] && r.value == users[id]
      ensures r.Err? ==> r.error.NotFound? && users == old(users)
    {
      if id !in users {
        return Err(NotFound("User with ID " + id + " not found"));
      }
      users := users[id := users[id].(role := role)];
      r := Ok(users[id]);
    }

    /** `verifyUser`: sets isVerified and nothing else. */
    method VerifyUser(id: string) returns (r: Result<User>)
      requires Valid()
      modifies this
      ensures Valid()
      ensures r.Ok? <==> id in old(users)
      ensures r.Ok? ==> users == old(users)[id := old(users)[id].(isVerified := true)] && r.value == users[id]
      ensures r.Err? ==> r.error.NotFound? && users == old(users)
    {
      if id !in users {
        return Err(NotFound("User with ID " + id + " not found"));
      }
      users := users[id := users[id].(isVerified := true)];
      r := Ok(users[id]);
    }

    /** `banUser`: sets isBanned and nothing else. */
    method BanUser(id: string) returns (r: Result<User>)
      requires Valid()
      modifies this
      ensures Valid()
      ensures r.Ok? <==> id in old(users)
      ensures r.Ok? ==> users == old(users)[id := old(users)[id].(isBanned := true)] && r.value == users[id]
      ensures r.Err? ==> r.error.NotFound? && users == old(users)
    {
      if id !in users {
        return Err(NotFound("User with ID " + id + " not found"));
      }
      users := users[id := users[id].(isBanned := true)];
      r := Ok(users[id]);
    }

    /** `unbanUser`: clears isBanned and nothing else. */
    method UnbanUser(id: string) returns (r: Result<User>)
      requires Valid()
      modifies this
      ensures Valid()
      ensures r.Ok? <==> id in old(users)
      ensures r.Ok? ==> users == old(users)[id := old(users)[id].(isBanned := false)] && r.value == users[id]
      ensures r.Err? ==> r.error.NotFound? && users == old(users)
    {
      if id !in users {
        return Err(NotFound("User with ID " + id + " not found"));
      }
      users := users[id := users[id].(isBanned := false)];
      r := Ok(users[id]);
    }

    /** `updatePoints`: adds `delta` (which may be negative) to the user's
        points and changes nothing else. */
    method UpdatePoints(id: string, delta: int) returns (r: Result<User>)
      requires Valid()
      modifies this
      ensures Valid()
      ensures r.Ok? <==> id in old(users)
      ensures r.Ok? ==> users == Credited(old(users), id, delta)
      ensures r.Ok? ==> r.value == users[id]
      ensures r.Err? ==> r.error.NotFound? && users == old(users)
    {
      if id !in users {
        return Err(NotFound("User with ID " + id + " not found"));
      }
      users := Credited(users, id, delta);
      r := Ok(users[id]);
    }
  }
}
