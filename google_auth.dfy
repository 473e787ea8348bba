/**
 * The Google strategy's verify callback (api/config/passport.js): a
 * find-or-create decision keyed on the Google id and gated by the mode the
 * OAuth `state` parameter carries. The OAuth handshake itself is not modelled:
 * the callback receives the profile it produced.
 */
module GoogleAuth {
  import opened Wrappers
  import opened Http
  import opened UtcDates
  import opened Seqs
  import opened UserModel
  import opened Store

  /** The fields of the Google profile the callback reads; `emails` and `photos` hold their `value`s. */
  datatype Profile = Profile(id: string, displayName: Option<string>, emails: seq<string>, photos: seq<string>)

  /** `done(null, user)`, `done(null, false, { message })`, or `done(err, null)`. */
  datatype AuthResult = LoggedIn(user: User, isNewUser: bool) | Rejected(message: string) | Failed

  const AccountNotFound: string := "Account not found. Please sign up first."

  /** `req.query.state || 'login'`. */
  function Mode(state: Option<string>): string {
    if Truthy(state) then state.value else "login"
  }

  /** `photos?.[0]?.value || ""`. */
  function ProfilePhoto(photos: seq<string>): string {
    if |photos| > 0 then photos[0] else ""
  }

  /** `User.findOne({ googleId })`. */
  function GoogleIdIndex(users: seq<User>, googleId: string): int {
    FindFirst(users, (u: User) => u.googleId == Some(googleId))
  }

  /** The unique index on `email` refuses a second user with the same address. */
  predicate EmailTaken(users: seq<User>, email: string) {
    exists i :: 0 <= i < |users| && users[i].email == email
  }

  /**
   * The document `User.create` would store for a new Google sign-up; the two
   * `new Date()` readings for `createdAt` and `lastLogin` are `now` and `later`.
   */
  function SignUp(id: ObjectId, profile: Profile, now: Instant, later: Instant): Option<User>
    requires |profile.emails| > 0
  {
    UserModel.Create(id, Some(profile.id), profile.displayName, Some(profile.emails[0]), None,
                     Some(ProfilePhoto(profile.photos)), now, later)
  }

  lemma UniqueAfterAdd(users: seq<User>, u: User)
    requires UniqueIndexes(users)
    requires !EmailTaken(users, u.email)
    requires forall j :: 0 <= j < |users| ==> users[j].googleId != u.googleId
    ensures UniqueIndexes(users + [u])
  {
    var r := users + [u];
    forall a, b | 0 <= a < b < |r|
      ensures r[a].email != r[b].email
      ensures r[a].googleId.Some? && r[b].googleId.Some? ==> r[a].googleId != r[b].googleId
    {
      if b == |users| {
        assert r[a] == users[a];
      } else {
        assert r[a] == users[a] && r[b] == users[b];
      }
    }
  }

  lemma UniqueAfterLogin(users: seq<User>, i: int, now: Instant)
    requires UniqueIndexes(users) && 0 <= i < |users|
    ensures UniqueIndexes(users[i := users[i].(lastLogin := now)])
  {
    var r := users[i := users[i].(lastLogin := now)];
    forall a, b | 0 <= a < b < |r|
      ensures r[a].email != r[b].email
      ensures r[a].googleId.Some? && r[b].googleId.Some? ==> r[a].googleId != r[b].googleId
    {
      assert r[a].email == users[a].email && r[a].googleId == users[a].googleId;
      assert r[b].email == users[b].email && r[b].googleId == users[b].googleId;
    }
  }

  /**
   * The verify callback. A profile without emails fails (the log line reads
   * `emails[0]`); a known Google id only moves `lastLogin`; an unknown one
   * creates exactly one user in `signup` mode, and is refused in every
   * other mode. A failed `create` (validation, duplicate email) is passed on as an error.
   * `now` and `later` are the clock's readings (a login reads it once).
   */
  method Verify(db: Database, state: Option<string>, profile: Profile, now: Instant, later: Instant) returns (r: AuthResult)
    requires db.Valid()
    modifies db
    ensures db.Valid()
    ensures db.categories == old(db.categories) && db.entries == old(db.entries)
    ensures |profile.emails| == 0 ==> r == Failed && db.users == old(db.users)
    ensures |profile.emails| > 0 && GoogleIdIndex(old(db.users), profile.id) >= 0 ==>
              var i := GoogleIdIndex(old(db.users), profile.id);
              && r == LoggedIn(old(db.users)[i].(lastLogin := now), false)
              && db.users == old(db.users)[i := r.user]
    ensures |profile.emails| > 0 && GoogleIdIndex(old(db.users), profile.id) < 0 && Mode(state) != "signup" ==>
              r == Rejected(AccountNotFound) && db.users == old(db.users)
    ensures |profile.emails| > 0 && GoogleIdIndex(old(db.users), profile.id) < 0 && Mode(state) == "signup" ==>
              var u := SignUp(old(db.nextId), profile, now, later);
              if u.Some? && !EmailTaken(old(db.users), u.value.email) then
                r == LoggedIn(u.value, true) && db.users == old(db.users) + [u.value]
              else
                r == Failed && db.users == old(db.users)
  {
    if |profile.emails| == 0 {
      return Failed;
    }
    var i := GoogleIdIndex(db.users, profile.id);
    if i >= 0 {
      r := RecordLogin(db, i, now);
    } else if Mode(state) == "signup" {
      r := CreateUser(db, profile, now, later);
    } else {
      r := Rejected(AccountNotFound);
    }
  }

  /** A returning user: `lastLogin` moves to `now` and the user is logged in. */
  method RecordLogin(db: Database, i: int, now: Instant) returns (r: AuthResult)
    requires db.Valid() && 0 <= i < |db.users|
    modifies db
    ensures db.Valid()
    ensures db.categories == old(db.categories) && db.entries == old(db.entries) && db.nextId == old(db.nextId)
    ensures r == LoggedIn(old(db.users)[i].(lastLogin := now), false)
    ensures db.users == old(db.users)[i := r.user]
  {
    var u := db.users[i].(lastLogin := now);
    UniqueAfterLogin(db.users, i, now);
    ghost var us := db.users;
    db.users := db.users[i := u];
    assert forall k :: 0 <= k < |db.users| ==> db.users[k].id == us[k].id;
    r := LoggedIn(u, false);
  }

  /** A `signup` with an unknown Google id: `User.create`, failing on validation or a taken email. */
  method CreateUser(db: Database, profile: Profile, now: Instant, later: Instant) returns (r: AuthResult)
    requires db.Valid() && |profile.emails| > 0 && GoogleIdIndex(db.users, profile.id) < 0
    modifies db
    ensures db.Valid()
    ensures db.categories == old(db.categories) && db.entries == old(db.entries)
    ensures var u := SignUp(old(db.nextId), profile, now, later);
            if u.Some? && !EmailTaken(old(db.users), u.value.email) then
              r == LoggedIn(u.value, true) && db.users == old(db.users) + [u.value]
            else
              r == Failed && db.users == old(db.users)
  {
    var id := db.FreshId();
    var u := SignUp(id, profile, now, later);
    if u.None? || EmailTaken(db.users, u.value.email) {
      return Failed;
    }
    UniqueAfterAdd(db.users, u.value);
    db.users := db.users + [u.value];
    r := LoggedIn(u.value, true);
  }

  /** Only the literal mode `signup` may create an account; a missing mode means login. */
  lemma OnlySignupCreates(state: Option<string>)
    ensures Mode(state) == "signup" <==> state == Some("signup")
    ensures !Truthy(state) ==> Mode(state) == "login"
  {
  }

  /**
   * A Google sign-up stores the Google id, display name, first email and
   * photo, needs no password, and takes each time from its own clock reading.
   */
  lemma SignUpFields(id: ObjectId, profile: Profile, now: Instant, later: Instant)
    requires |profile.emails| > 0 && profile.id != "" && Truthy(profile.displayName)
    requires NormalizeEmail(profile.emails[0]) != ""
    ensures var u := SignUp(id, profile, now, later);
            && u.Some? && u.value.googleId == Some(profile.id) && u.value.name == profile.displayName.value
            && u.value.email == NormalizeEmail(profile.emails[0]) && u.value.password.None?
            && u.value.profilePic == ProfilePhoto(profile.photos)
            && u.value.createdAt == now && u.value.lastLogin == later
  {
  }
}
