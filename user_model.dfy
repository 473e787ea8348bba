/**
 * The `User` schema (api/models/User.js): validity, the unique indexes, the
 * pre-save hashing hook and `comparePassword`. bcrypt is an opaque parameter.
 */
module UserModel {
  import opened Wrappers
  import opened Http
  import opened UtcDates
  import opened JsText

  datatype User = User(
    id: ObjectId,
    googleId: Option<string>,
    name: string,
    email: string,
    password: Option<string>,
    profilePic: string,
    createdAt: Instant,
    lastLogin: Instant)

  /** The `password` field's `required` function: `!this.googleId`. */
  predicate PasswordRequired(googleId: Option<string>) {
    !Truthy(googleId)
  }

  /** Required `name` and `email`; a password exactly when there is no Google id. */
  predicate Valid(u: User) {
    && u.name != ""
    && u.email != ""
    && (PasswordRequired(u.googleId) ==> Truthy(u.password))
  }

  /**
   * The unique index on `email`, and the sparse unique index on `googleId`:
   * documents without a Google id are not indexed, so any number may lack one.
   */
  ghost predicate UniqueIndexes(users: seq<User>) {
    forall i, j :: 0 <= i < j < |users| ==>
      && users[i].email != users[j].email
      && (users[i].googleId.Some? && users[j].googleId.Some? ==> users[i].googleId != users[j].googleId)
  }

  /** `toLowerCase` on ASCII letters; other characters are left as they are. */
  function LowerChar(c: char): char {
    if 'A' <= c <= 'Z' then (c as int - 'A' as int + 'a' as int) as char else c
  }

  function Lower(s: string): (r: string)
    ensures |r| == |s|
    ensures forall i :: 0 <= i < |s| ==> r[i] == LowerChar(s[i])
  {
    if s == [] then [] else [LowerChar(s[0])] + Lower(s[1..])
  }

  /** The `lowercase` and `trim` setters on `email`. */
  function NormalizeEmail(s: string): string {
    Lower(Trim(s))
  }

  lemma TrimmedEnds(s: string)
    ensures var r := Trim(s); r == [] || (!IsJsWhitespace(r[0]) && !IsJsWhitespace(r[|r| - 1]))
  {
    var t := TrimStart(s);
    var r := TrimEnd(t);
    if r != [] {
      assert r[0] == t[0];
    }
  }

  lemma {:induction false} TrimStartNoop(s: string)
    requires s == [] || !IsJsWhitespace(s[0])
    ensures TrimStart(s) == s
  {
  }

  lemma {:induction false} TrimEndNoop(s: string)
    requires s == [] || !IsJsWhitespace(s[|s| - 1])
    ensures TrimEnd(s) == s
  {
  }

  /** Storing an email twice changes nothing: the setters are idempotent. */
  lemma NormalizeEmailIdempotent(s: string)
    ensures NormalizeEmail(NormalizeEmail(s)) == NormalizeEmail(s)
  {
    var t := Trim(s);
    var n := Lower(t);
    TrimmedEnds(s);
    if n != [] {
      assert !IsJsWhitespace(n[0]) && !IsJsWhitespace(n[|n| - 1]);
    }
    TrimStartNoop(n);
    TrimEndNoop(n);
    assert Trim(n) == n;
    assert Lower(n) == n;
  }

  /**
   * `User.create({...})` with the given `createdAt` and `lastLogin` times:
   * the email is normalised, `profilePic` defaults to the empty string, and
   * `None` is a validation failure.
   */
  function Create(id: ObjectId, googleId: Option<string>, name: Option<string>, email: Option<string>,
                  password: Option<string>, profilePic: Option<string>,
                  createdAt: Instant, lastLogin: Instant): (r: Option<User>)
    ensures r.Some? ==> Valid(r.value)
    ensures r.Some? <==> Truthy(name) && email.Some? && NormalizeEmail(email.value) != ""
                         && (PasswordRequired(googleId) ==> Truthy(password))
    ensures r.Some? ==> && r.value.id == id && r.value.googleId == googleId && r.value.name == name.value
                        && r.value.email == NormalizeEmail(email.value) && r.value.password == password
                        && r.value.profilePic == profilePic.GetOr("")
                        && r.value.createdAt == createdAt && r.value.lastLogin == lastLogin
  {
    var u := User(id, googleId, name.GetOr(""), NormalizeEmail(email.GetOr("")), password,
                  profilePic.GetOr(""), createdAt, lastLogin);
    if Truthy(name) && email.Some? && Valid(u) then Some(u) else None
  }

  /**
   * The pre-save hook: the password is replaced by its hash only when it was
   * modified and is non-empty; `hash` stands for bcrypt with a fresh salt.
   */
  function PreSave(u: User, passwordModified: bool, hash: string -> string): (r: User)
    ensures r.(password := u.password) == u
    ensures r.password != u.password ==> passwordModified && Truthy(u.password)
    ensures passwordModified && Truthy(u.password) ==> r.password == Some(hash(u.password.value))
  {
    if !passwordModified || !Truthy(u.password) then u
    else u.(password := Some(hash(u.password.value)))
  }

  /**
   * `comparePassword(entered)`: false without consulting bcrypt when no
   * password is stored; otherwise bcrypt's verdict (`compare`).
   */
  function ComparePassword(u: User, entered: string, compare: (string, string) -> bool): (ok: bool)
    ensures !Truthy(u.password) ==> !ok
    ensures Truthy(u.password) ==> ok == compare(entered, u.password.value)
  {
    if !Truthy(u.password) then false else compare(entered, u.password.value)
  }

  /** A Google-only account never matches a password, whatever bcrypt would say. */
  lemma GoogleOnlyAccountRejectsPasswords(u: User, entered: string, compare: (string, string) -> bool)
    requires Valid(u) && u.password.None?
    ensures Truthy(u.googleId)
    ensures !ComparePassword(u, entered, compare)
  {
  }
}
