/** AppUserService: user accounts keyed by id and found by username
    ignoring case, login, and the reset-code flow for a forgotten password
    (at most one code per user). */
module Accounts {
  import opened Common
  import opened Requests

  type UserId = string

  /** What the password encoder stores. The encoder is modelled as an
      injective function from raw passwords to stored values; the stored
      value is never the raw string itself. */
  datatype PasswordHash = Hash(secret: string)

  function Encode(raw: string): PasswordHash
  {
    Hash(raw)
  }

  /** PasswordEncoder.matches: the raw password encodes to the stored value. */
  predicate Matches(raw: string, encoded: PasswordHash)
  {
    Encode(raw) == encoded
  }

  /** The encoder tells different passwords apart. */
  lemma EncodeInjective(a: string, b: string)
    ensures Encode(a) == Encode(b) <==> a == b
    ensures Matches(a, Encode(b)) <==> a == b
  {
  }

  datatype AppUser = AppUser(id: UserId, username: string, password: PasswordHash, firstName: string, lastName: string)

  /** The reset code record of a user, stored under the user's id. */
  datatype ResetCode = ResetCode(code: string, expiresAt: int)

  const EmailExists: string := "Email already exists."
  const InvalidCredentials: string := "Invalid email or password."
  const InvalidCode: string := "Invalid username or code."
  const PasswordsDiffer: string := "New passwords do not match."
  const UserNotFound: string := "User not found."
  const NullUser: string := "User cannot be null."

  /** The length of a reset code. */
  const CodeLength: nat := 6

  /** How long after issue a code nominally expires. */
  const CodeLifetime: int := 10 * Minute

  /** Every user is stored under its own id and no two users share a
      username ignoring case. */
  ghost predicate WellFormed(users: map<UserId, AppUser>)
  {
    && (forall id :: id in users ==> users[id].id == id)
    && (forall a, b :: a in users && b in users && EqualsIgnoreCase(users[a].username, users[b].username) ==> a == b)
  }

  /** findByUsernameIgnoreCase / existsByUsernameIgnoreCase. */
  predicate UsernameTaken(users: map<UserId, AppUser>, username: string)
  {
    exists id :: id in users && EqualsIgnoreCase(users[id].username, username)
  }

  function FindByUsername(users: map<UserId, AppUser>, username: string): (r: Option<AppUser>)
    requires WellFormed(users)
    ensures r.Some? <==> UsernameTaken(users, username)
    ensures r.Some? ==> r.value.id in users && users[r.value.id] == r.value && EqualsIgnoreCase(r.value.username, username)
  {
    if UsernameTaken(users, username) then
      var id :| id in users && EqualsIgnoreCase(users[id].username, username);
      EqualsIgnoreCaseBasics(users[id].username, username);
      Some(users[id])
    else
      None
  }

  /** A username, in any letter case, names at most one stored user. */
  lemma OnlyOneUserPerUsername(users: map<UserId, AppUser>, id: UserId, username: string)
    requires WellFormed(users) && id in users && EqualsIgnoreCase(users[id].username, username)
    ensures forall other :: other in users && EqualsIgnoreCase(users[other].username, username) ==> other == id
  {
    forall other | other in users && EqualsIgnoreCase(users[other].username, username)
      ensures other == id
    {
      EqualsIgnoreCaseBasics(users[other].username, username);
      EqualsIgnoreCaseBasics(users[id].username, username);
      assert EqualsIgnoreCase(users[other].username, users[id].username);
    }
  }

  /** login: the user found by username whose stored password matches; an
      unknown username and a wrong password fail with the same
      unauthorized error. */
  function Login(users: map<UserId, AppUser>, req: LoginRequest): (r: Result<AppUser>)
    requires WellFormed(users)
    ensures r.Success? <==>
      exists id :: id in users && EqualsIgnoreCase(users[id].username, req.username) && Matches(req.password, users[id].password)
    ensures r.Success? ==> r.value in users.Values && Matches(req.password, r.value.password)
    ensures r.Success? ==> EqualsIgnoreCase(r.value.username, req.username)
    ensures r.Success? ==> FindByUsername(users, req.username) == Some(r.value)
    ensures r.Failure? ==> r.error == Http(Unauthorized, InvalidCredentials)
  {
    var found := FindByUsername(users, req.username);
    if found.None? then Failure(Http(Unauthorized, InvalidCredentials))
    else if !Matches(req.password, found.value.password) then
      OnlyOneUserPerUsername(users, found.value.id, req.username);
      Failure(Http(Unauthorized, InvalidCredentials))
    else
      Success(found.value)
  }

  /** findById: the user with that id, or not-found. */
  function FindById(users: map<UserId, AppUser>, id: UserId): (r: Result<AppUser>)
    ensures r.Success? <==> id in users
    ensures r.Success? ==> r.value == users[id]
    ensures r.Failure? ==> r.error == Http(NotFound, UserNotFound)
  {
    if id in users then Success(users[id]) else Failure(Http(NotFound, UserNotFound))
  }

  /** The code a run of random draws, each in [0, 26), spells: one upper-case
      letter per draw. */
  function CodeOf(draws: seq<int>): (code: string)
    requires forall i :: 0 <= i < |draws| ==> 0 <= draws[i] < 26
    ensures |code| == |draws|
    ensures forall i :: 0 <= i < |code| ==> 'A' <= code[i] <= 'Z' && code[i] as int - 'A' as int == draws[i]
  {
    seq(|draws|, i requires 0 <= i < |draws| => ('A' as int + draws[i]) as char)
  }

  /** generateRandomCode: appends one letter per random draw, `length`
      times, so the code has exactly `length` upper-case letters. */
  method GenerateRandomCode(length: nat, draws: seq<int>) returns (code: string)
    requires length <= |draws|
    requires forall i :: 0 <= i < |draws| ==> 0 <= draws[i] < 26
    ensures |code| == length
    ensures forall i :: 0 <= i < |code| ==> 'A' <= code[i] <= 'Z'
    ensures code == CodeOf(draws[..length])
  {
    code := "";
    var i := 0;
    while i < length
      invariant 0 <= i <= length
      invariant code == CodeOf(draws[..i])
    {
      code := code + [('A' as int + draws[i]) as char];
      i := i + 1;
    }
  }

  /** The code check of changePassword: the stored code equals the given one
      ignoring case and its expiry is not before ten minutes ago. */
  predicate CodeAccepted(rc: ResetCode, code: string, now: int)
  {
    EqualsIgnoreCase(rc.code, code) && !(rc.expiresAt < now - 10 * Minute)
  }

  /** A code issued at `issuedAt` expires nominally ten minutes later, but
      the check subtracts another ten minutes from the current time, so the
      code is accepted for twenty minutes after issue, that moment included,
      and never after. */
  lemma CodeUsableForTwentyMinutes(code: string, issuedAt: int, now: int)
    ensures CodeAccepted(ResetCode(code, issuedAt + CodeLifetime), code, now) <==> now <= issuedAt + 20 * Minute
    ensures CodeAccepted(ResetCode(code, issuedAt + CodeLifetime), code, issuedAt + 15 * Minute)
  {
    EqualsIgnoreCaseBasics(code, code);
  }

  /** A code typed in lower case is accepted as well. */
  lemma CodeIgnoresCase(expiresAt: int, now: int)
    requires now - 10 * Minute <= expiresAt
    ensures CodeAccepted(ResetCode("ABCDEF", expiresAt), "abcdef", now)
  {
    assert Lower("ABCDEF") == "abcdef";
    assert Lower("abcdef") == "abcdef";
  }

  /** A user registered under a username fresh to the table can log in with
      that username in any letter case and the registered password, and
      with no other password. */
  lemma RegisterThenLogin(users: map<UserId, AppUser>, user: AppUser, raw: string, typed: string, other: string)
    requires WellFormed(users) && user.id !in users
    requires !UsernameTaken(users, user.username)
    requires user.password == Encode(raw) && EqualsIgnoreCase(typed, user.username)
    requires other != raw
    ensures WellFormed(users[user.id := user])
    ensures Login(users[user.id := user], LoginRequest(typed, raw)) == Success(user)
    ensures Login(users[user.id := user], LoginRequest(typed, other)) == Failure(Http(Unauthorized, InvalidCredentials))
  {
    var after := users[user.id := user];
    AddKeepsWellFormed(users, user);
    EqualsIgnoreCaseBasics(typed, user.username);
    assert user.id in after && EqualsIgnoreCase(after[user.id].username, typed);
  }

  /** Storing a user whose username nobody else has keeps the table well formed. */
  lemma AddKeepsWellFormed(users: map<UserId, AppUser>, user: AppUser)
    requires WellFormed(users) && user.id !in users
    requires !UsernameTaken(users, user.username)
    ensures WellFormed(users[user.id := user])
  {
    var after := users[user.id := user];
    forall a, b | a in after && b in after && EqualsIgnoreCase(after[a].username, after[b].username)
      ensures a == b
    {
      EqualsIgnoreCaseBasics(after[a].username, after[b].username);
    }
  }

  /** After a password change the new password logs in and a different old
      one no longer does. */
  lemma ChangeThenLogin(users: map<UserId, AppUser>, id: UserId, newPassword: string, oldPassword: string)
    requires WellFormed(users) && id in users
    requires oldPassword != newPassword
    ensures var after := users[id := users[id].(password := Encode(newPassword))];
      && WellFormed(after)
      && Login(after, LoginRequest(users[id].username, newPassword)).Success?
      && Login(after, LoginRequest(users[id].username, oldPassword)).Failure?
  {
    var after := users[id := users[id].(password := Encode(newPassword))];
    EqualsIgnoreCaseBasics(users[id].username, users[id].username);
    assert after[id].username == users[id].username;
  }

  /** The account tables: users by id and reset codes by user id. */
  class AccountStore {
    var users: map<UserId, AppUser>
    var resetCodes: map<UserId, ResetCode>

    ghost predicate Valid()
      reads this
    {
      WellFormed(users)
    }

    constructor ()
      ensures Valid() && users == map[] && resetCodes == map[]
    {
      users := map[];
      resetCodes := map[];
    }

    /** register: conflict when the username is taken ignoring case; otherwise
        a new user with the encoded password is stored under a fresh id. The
        two passwords of the request are never compared. */
    method Register(req: RegisterRequest, freshId: UserId) returns (r: Result<AppUser>)
      requires Valid()
      requires freshId !in users
      modifies this
      ensures Valid()
      ensures resetCodes == old(resetCodes)
      ensures old(UsernameTaken(users, req.username)) ==>
        r == Failure(Http(Conflict, EmailExists)) && users == old(users)
      ensures !old(UsernameTaken(users, req.username)) ==>
        && r == Success(AppUser(freshId, req.username, Encode(req.password), req.firstName, req.lastName))
        && users == old(users)[freshId := r.value]
    {
      if UsernameTaken(users, req.username) {
        return Failure(Http(Conflict, EmailExists));
      }
      var user := AppUser(freshId, req.username, Encode(req.password), req.firstName, req.lastName);
      forall id | id in users
        ensures !EqualsIgnoreCase(users[id].username, user.username)
      {
        EqualsIgnoreCaseBasics(users[id].username, user.username);
      }
      AddKeepsWellFormed(users, user);
      users := users[freshId := user];
      r := Success(user);
    }

    /** forgotPassword: an unknown username changes nothing and reports
        nothing; for a known user the one code record is created or reused
        with a fresh six-letter code expiring ten minutes from now, and
        saved before the mail is sent, so a failing mail leaves it saved and
        propagates. */
    method ForgotPassword(username: string, now: int, draws: seq<int>, mail: Outcome) returns (r: Outcome)
      requires Valid()
      requires CodeLength <= |draws|
      requires forall i :: 0 <= i < |draws| ==> 0 <= draws[i] < 26
      modifies this
      ensures Valid() && users == old(users)
      ensures !UsernameTaken(users, username) ==> r == Ok && resetCodes == old(resetCodes)
      ensures UsernameTaken(users, username) ==>
        var user := FindByUsername(users, username).value;
        && r == mail
        && resetCodes == old(resetCodes)[user.id := ResetCode(CodeOf(draws[..CodeLength]), now + CodeLifetime)]
    {
      var found := FindByUsername(users, username);
      if found.None? {
        return Ok;
      }
      var code := GenerateRandomCode(CodeLength, draws);
      resetCodes := resetCodes[found.value.id := ResetCode(code, now + CodeLifetime)];
      r := mail;
    }

    /** changePassword: the same bad-request error, and no change, for an
        unknown user, a missing code, a wrong code or an expired one; then a
        new-password mismatch fails and leaves the code in place; otherwise
        the encoded new password is stored and the code deleted, whatever
        the confirmation mail does. */
    method ChangePassword(req: ChangePasswordRequest, now: int, mail: Outcome) returns (r: Outcome)
      requires Valid()
      modifies this
      ensures Valid()
      ensures var found := old(FindByUsername(users, req.username));
        found.None? || found.value.id !in old(resetCodes)
        || !CodeAccepted(old(resetCodes)[found.value.id], req.code, now) ==>
          r == Fail(Http(BadRequest, InvalidCode)) && users == old(users) && resetCodes == old(resetCodes)
      ensures var found := old(FindByUsername(users, req.username));
        && found.Some? && found.value.id in old(resetCodes)
        && CodeAccepted(old(resetCodes)[found.value.id], req.code, now)
        && req.newPassword != req.verifyNewPassword ==>
          r == Fail(Http(BadRequest, PasswordsDiffer)) && users == old(users) && resetCodes == old(resetCodes)
      ensures var found := old(FindByUsername(users, req.username));
        && found.Some? && found.value.id in old(resetCodes)
        && CodeAccepted(old(resetCodes)[found.value.id], req.code, now)
        && req.newPassword == req.verifyNewPassword ==>
          && r == Ok
          && users == old(users)[found.value.id := found.value.(password := Encode(req.newPassword))]
          && resetCodes == old(resetCodes) - {found.value.id}
    {
      var found := FindByUsername(users, req.username);
      if found.None? {
        return Fail(Http(BadRequest, InvalidCode));
      }
      var user := found.value;
      if user.id !in resetCodes {
        return Fail(Http(BadRequest, InvalidCode));
      }
      var rc := resetCodes[user.id];
      if !EqualsIgnoreCase(rc.code, req.code) || rc.expiresAt < now - 10 * Minute {
        return Fail(Http(BadRequest, InvalidCode));
      }
      if req.newPassword != req.verifyNewPassword {
        return Fail(Http(BadRequest, PasswordsDiffer));
      }
      users := users[user.id := user.(password := Encode(req.newPassword))];
      resetCodes := resetCodes - {user.id};
      // The confirmation mail's failure is caught and only logged.
      r := Ok;
    }

    /** deleteAccount: bad-request for no user, not-found for an id that is
        not stored; otherwise the user row is deleted. The reset-code row
        (`@MapsId`) and every portfolio (`user_id`, not null) hold a foreign
        key to the user and nothing cascades, so the database refuses the
        delete while either exists and nothing is removed. The portfolio
        table is not part of this store: `portfolioOwners` is the set of
        owners of the stored portfolios. */
    method DeleteAccount(user: Option<AppUser>, portfolioOwners: set<UserId>) returns (r: Outcome)
      requires Valid()
      modifies this
      ensures Valid() && resetCodes == old(resetCodes)
      ensures user.None? ==> r == Fail(Http(BadRequest, NullUser)) && users == old(users)
      ensures user.Some? && user.value.id !in old(users) ==>
        r == Fail(Http(NotFound, UserNotFound)) && users == old(users)
      ensures user.Some? && user.value.id in old(users) ==>
        var referenced := user.value.id in old(resetCodes) || user.value.id in portfolioOwners;
        && (referenced ==> r == Fail(IntegrityViolation) && users == old(users))
        && (!referenced ==> r == Ok && users == old(users) - {user.value.id})
    {
      if user.None? {
        return Fail(Http(BadRequest, NullUser));
      }
      if user.value.id !in users {
        return Fail(Http(NotFound, UserNotFound));
      }
      if user.value.id in resetCodes || user.value.id in portfolioOwners {
        return Fail(IntegrityViolation);
      }
      users := users - {user.value.id};
      r := Ok;
    }
  }
}
