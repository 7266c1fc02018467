/**
 * The `/auth` routes over the `users` table: registration with its
 * duplicate-email check, login, and the profile update with its
 * email-in-use check. Password hashing and comparison are opaque
 * functions; so is token verification (`decode`, see module Tokens).
 *
 * The invariant: no two users share an email.
 */
module Auth {
  import opened Wrappers
  import opened Tokens
  import opened Seqs

  /** A row of the `users` table; `passwordHash` is what bcrypt produced. */
  datatype User = User(id: nat, name: string, email: string, passwordHash: string, role: Option<string>, avatarUrl: Option<string>)

  /** `SELECT * FROM users WHERE email = ?`, first row. */
  function FindByEmail(us: seq<User>, email: string): Option<User> {
    FindFirst(us, (u: User) => u.email == email)
  }

  /** `SELECT * FROM users WHERE email = ? AND id != ?` finds a row. */
  predicate EmailTakenByOther(us: seq<User>, email: string, id: nat) {
    exists k :: 0 <= k < |us| && us[k].email == email && us[k].id != id
  }

  /** `SELECT id, name, email, role, avatar_url FROM users WHERE id = ?`, first row. */
  function FindById(us: seq<User>, id: nat): Option<User> {
    FindFirst(us, (u: User) => u.id == id)
  }

  /** `UPDATE users SET name = ?, email = ?, avatar_url = ? WHERE id = ?`. */
  function WithProfile(us: seq<User>, id: nat, name: string, email: string, avatarUrl: Option<string>): (r: seq<User>)
    ensures |r| == |us|
    ensures forall k :: 0 <= k < |us| ==>
              r[k] == if us[k].id == id then us[k].(name := name, email := email, avatarUrl := avatarUrl) else us[k]
  {
    seq(|us|, k requires 0 <= k < |us| =>
      if us[k].id == id then us[k].(name := name, email := email, avatarUrl := avatarUrl) else us[k])
  }

  /** No two rows share an email. */
  predicate UniqueEmails(us: seq<User>) {
    forall i, j :: 0 <= i < j < |us| ==> us[i].email != us[j].email
  }

  /** Ids are handed out in increasing order below the auto-increment counter. */
  predicate IdsBelow(us: seq<User>, nextId: nat) {
    && (forall i, j :: 0 <= i < j < |us| ==> us[i].id < us[j].id)
    && (forall i :: 0 <= i < |us| ==> us[i].id < nextId)
  }

  /** `req.body.avatar_url || null`: an empty string is stored as `NULL`. */
  function AvatarOrNull(avatarUrl: Option<string>): (r: Option<string>)
    ensures r == None <==> avatarUrl == None || avatarUrl == Some("")
    ensures r.Some? ==> r == avatarUrl
  {
    if avatarUrl == Some("") then None else avatarUrl
  }

  /** The user a registration appends can be found by its email afterwards, and it is the only one. */
  lemma FindAfterRegister(us: seq<User>, u: User)
    requires FindByEmail(us, u.email).None?
    ensures FindByEmail(us + [u], u.email) == Some(u)
  {
    if us != [] {
      assert (us + [u])[1..] == us[1..] + [u];
      FindAfterRegister(us[1..], u);
    }
  }

  /** With unique emails the email lookup names the one row with that email. */
  lemma FindByEmailUnique(us: seq<User>, k: nat)
    requires UniqueEmails(us) && k < |us|
    ensures FindByEmail(us, us[k].email) == Some(us[k])
  {
    if k > 0 {
      assert us[1..][k - 1] == us[k];
      FindByEmailUnique(us[1..], k - 1);
    }
  }

  /** A profile update that passed the email-in-use check keeps emails unique, given unique ids. */
  lemma WithProfileKeepsUniqueEmails(us: seq<User>, id: nat, name: string, email: string, avatarUrl: Option<string>)
    requires UniqueEmails(us)
    requires forall i, j :: 0 <= i < j < |us| ==> us[i].id < us[j].id
    requires !EmailTakenByOther(us, email, id)
    ensures UniqueEmails(WithProfile(us, id, name, email, avatarUrl))
  {
    var r := WithProfile(us, id, name, email, avatarUrl);
    forall i, j | 0 <= i < j < |us| ensures r[i].email != r[j].email {
      if us[i].id == id {
        assert us[j].id != id;
      }
    }
  }

  // ---------------------------------------------------------------- results

  datatype RegisterResult = Registered(userId: nat) | UserExists {
    function Code(): int {
      if Registered? then 201 else 400
    }
  }

  /** Both login failures answer 400 with the same `Invalid credentials` message. */
  datatype LoginResult = LoggedIn(payload: Claims, user: User) | InvalidCredentials {
    function Code(): int {
      if LoggedIn? then 200 else 400
    }
  }

  /** The updated row is re-read by id; `None` when the token's id names no row. */
  datatype ProfileResult = ProfileUpdated(user: Option<User>) | NoTokenGiven | TokenNotValid | EmailInUse {
    function Code(): int {
      if ProfileUpdated? then 200 else if EmailInUse? then 400 else 401
    }
  }

  /** The `users` table and the auto-increment counter of `users.id`. */
  class UserTable {
    var users: seq<User>
    var nextId: nat
    /** The column default of `users.role`, which registration does not set. */
    const defaultRole: Option<string>

    ghost predicate Valid()
      reads this
    {
      UniqueEmails(users) && IdsBelow(users, nextId)
    }

    constructor (defaultRole: Option<string>)
      ensures Valid()
      ensures users == [] && nextId == 1 && this.defaultRole == defaultRole
    {
      users, nextId := [], 1;
      this.defaultRole := defaultRole;
    }

    /**
     * POST `/register`: 400 and no insert when a user already has that
     * email; otherwise one new row holding the hash of the password, not
     * the password, and the avatar or `NULL`.
     */
    method Register(name: string, email: string, password: string, avatarUrl: Option<string>, hash: string -> string)
      returns (res: RegisterResult)
      requires Valid()
      modifies this
      ensures Valid()
      ensures res.UserExists? <==> FindByEmail(old(users), email).Some?
      ensures res.UserExists? ==> users == old(users) && nextId == old(nextId)
      ensures res.Registered? ==>
                && res.userId == old(nextId) && nextId == old(nextId) + 1
                && users == old(users) + [User(res.userId, name, email, hash(password), defaultRole, AvatarOrNull(avatarUrl))]
    {
      var existing := FindByEmail(users, email);
      if existing.Some? {
        return UserExists;
      }
      var id := nextId;
      users := users + [User(id, name, email, hash(password), defaultRole, AvatarOrNull(avatarUrl))];
      nextId := nextId + 1;
      return Registered(id);
    }

    /**
     * POST `/login`: an unknown email and a password that does not match
     * the stored hash fail alike; otherwise the token payload is the
     * user's id and role. `compare` stands for `bcrypt.compare`.
     */
    method Login(email: string, password: string, compare: (string, string) -> bool) returns (res: LoginResult)
      ensures res.InvalidCredentials? <==>
                FindByEmail(users, email).None? || !compare(password, FindByEmail(users, email).value.passwordHash)
      ensures res.LoggedIn? ==>
                && res.user == FindByEmail(users, email).value
                && res.payload == Claims(res.user.id, res.user.role)
    {
      var found := FindByEmail(users, email);
      if found.None? {
        return InvalidCredentials;
      }
      var user := found.value;
      if !compare(password, user.passwordHash) {
        return InvalidCredentials;
      }
      return LoggedIn(Claims(user.id, user.role), user);
    }

    /**
     * PUT `/profile`: no header is 401; a token that is missing or does not
     * verify is 401 `Token is not valid`; an email held by another user is
     * 400; otherwise the caller's row gets the new name, email and avatar
     * and is read back. Keeping one's own email is allowed.
     */
    method UpdateProfile(header: Option<string>, decode: string -> Option<Claims>,
                         name: string, email: string, avatarUrl: Option<string>)
      returns (res: ProfileResult)
      requires Valid()
      modifies this`users
      ensures Valid()
      ensures res.NoTokenGiven? <==> Falsy(header)
      ensures res.TokenNotValid? <==> !Falsy(header) && BearerClaims(header.value, decode).None?
      ensures res.EmailInUse? <==>
                !Falsy(header) && BearerClaims(header.value, decode).Some?
                && EmailTakenByOther(old(users), email, BearerClaims(header.value, decode).value.id)
      ensures res.ProfileUpdated? ==>
                var id := BearerClaims(header.value, decode).value.id;
                users == WithProfile(old(users), id, name, email, avatarUrl) && res.user == FindById(users, id)
      ensures !res.ProfileUpdated? ==> users == old(users)
    {
      if Falsy(header) {
        return NoTokenGiven;
      }
      var decoded := BearerClaims(header.value, decode);
      if decoded.None? {
        return TokenNotValid;
      }
      var userId := decoded.value.id;
      if EmailTakenByOther(users, email, userId) {
        return EmailInUse;
      }
      WithProfileKeepsUniqueEmails(users, userId, name, email, avatarUrl);
      users := WithProfile(users, userId, name, email, avatarUrl);
      var updated := FindById(users, userId);
      return ProfileUpdated(updated);
    }
  }
}
