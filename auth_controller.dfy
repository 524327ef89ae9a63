/**
 * Registration and login (backend/src/controllers/authController.js) over an
 * in-memory user table standing in for the User collection. Password hashing
 * and `comparePassword` belong to the User model and are taken as given
 * functions; the signed JWT is represented by the user id it carries.
 */
module AuthController {
  import opened Wrappers
  import opened JsString

  type UserId = nat

  datatype User = User(id: UserId, username: string, email: string, passwordHash: string)

  /** The `user` object of a reply: id, username and email, and no password. */
  datatype UserView = UserView(id: UserId, username: string, email: string)

  /** `generateToken(id)`: a token whose payload is `{ id }`. */
  datatype Token = Token(userId: UserId)

  datatype AuthReply =
    | Authed(code: nat, token: Token, user: UserView)
    | Failed(code: nat, message: string)

  datatype RegisterBody = RegisterBody(username: Option<string>, email: Option<string>, password: Option<string>)

  datatype LoginBody = LoginBody(email: Option<string>, password: Option<string>)

  const MissingRegisterFields := "Missing required fields: username, email, and password are required"
  const UserExists := "User with this email or username already exists"
  const MissingLoginFields := "Email and password are required"
  const InvalidCredentials := "Invalid credentials"

  function View(u: User): (v: UserView)
    ensures v.id == u.id && v.username == u.username && v.email == u.email
  {
    UserView(u.id, u.username, u.email)
  }

  /** `User.findOne({ $or: [{ email }, { username }] })` finds someone. */
  predicate Taken(users: seq<User>, email: string, username: string) {
    exists u :: u in users && (u.email == email || u.username == username)
  }

  /** Index of the user `User.findOne({ email })` returns, if any. */
  function FindByEmail(users: seq<User>, email: string): (r: Option<nat>)
    ensures r.Some? ==> r.value < |users| && users[r.value].email == email
    ensures r.None? <==> forall i :: 0 <= i < |users| ==> users[i].email != email
  {
    if users == [] then None
    else if users[0].email == email then Some(0)
    else match FindByEmail(users[1..], email)
      case None => None
      case Some(k) => Some(k + 1)
  }

  /** No two users share an id, an email or a username. */
  predicate Distinct(users: seq<User>) {
    forall i, j :: 0 <= i < j < |users| ==>
      users[i].id != users[j].id && users[i].email != users[j].email
      && users[i].username != users[j].username
  }

  /**
   * The reply of `login` against a user table, given `matches`, the model's
   * `comparePassword(candidate, storedHash)`.
   */
  function LoginReply(users: seq<User>, body: LoginBody, matches: (string, string) -> bool): (r: AuthReply)
    ensures !Truthy(body.email) || !Truthy(body.password) ==> r == Failed(400, MissingLoginFields)
    ensures (Distinct(users) && Truthy(body.email) && Truthy(body.password)) ==>
      (r.Authed? <==> exists u :: (u in users && u.email == body.email.value
        && matches(body.password.value, u.passwordHash)))
    ensures r.Failed? && r.code != 400 ==> r == Failed(401, InvalidCredentials)
    ensures Truthy(body.email) && Truthy(body.password) && r.Failed? ==> r == Failed(401, InvalidCredentials)
    ensures r.Authed? ==> (r.code == 200 && exists u :: (u in users && u.email == body.email.value
      && matches(body.password.value, u.passwordHash) && r.token == Token(u.id) && r.user == View(u)))
  {
    if !Truthy(body.email) || !Truthy(body.password) then Failed(400, MissingLoginFields)
    else match FindByEmail(users, body.email.value)
      case None => Failed(401, InvalidCredentials)
      case Some(i) =>
        if !matches(body.password.value, users[i].passwordHash) then Failed(401, InvalidCredentials)
        else Authed(200, Token(users[i].id), View(users[i]))
  }

  /**
   * An unknown email and a wrong password for a known one draw the same reply,
   * so a failed login does not reveal whether the email is registered.
   */
  lemma {:induction false} LoginFailuresIndistinguishable(
    users: seq<User>, email: string, password: string, other: string,
    matches: (string, string) -> bool)
    requires Distinct(users) && email != "" && password != "" && other != ""
    requires forall u :: u in users ==> u.email != email
    requires exists u :: u in users && u.email == other && !matches(password, u.passwordHash)
    ensures LoginReply(users, LoginBody(Some(email), Some(password)), matches)
         == LoginReply(users, LoginBody(Some(other), Some(password)), matches)
  {
    var w :| w in users && w.email == other && !matches(password, w.passwordHash);
    var i := FindByEmail(users, other).value;
    var k :| 0 <= k < |users| && users[k] == w;
    assert i == k;
  }

  /**
   * A user just added by a successful registration can log in with the
   * password it registered with, provided `comparePassword` accepts a
   * password against its own hash.
   */
  lemma {:induction false} RegisteredUserCanLogIn(
    users: seq<User>, u: User, password: string, matches: (string, string) -> bool)
    requires forall v :: v in users ==> v.email != u.email
    requires u.email != "" && password != "" && matches(password, u.passwordHash)
    ensures LoginReply(users + [u], LoginBody(Some(u.email), Some(password)), matches)
         == Authed(200, Token(u.id), View(u))
  {
    var all := users + [u];
    assert all[|users|] == u;
    var i := FindByEmail(all, u.email);
    assert i.Some?;
  }

  /**
   * The refusal `register` answers with 400 before creating anyone, if any:
   * missing fields first, then an email or a username already taken.
   */
  function RegisterRefusal(users: seq<User>, body: RegisterBody): (r: Option<string>)
    ensures r == Some(MissingRegisterFields) <==>
      !Truthy(body.username) || !Truthy(body.email) || !Truthy(body.password)
    ensures r == Some(UserExists) <==>
      (Truthy(body.username) && Truthy(body.email) && Truthy(body.password)
       && Taken(users, body.email.value, body.username.value))
    ensures r.None? <==>
      (Truthy(body.username) && Truthy(body.email) && Truthy(body.password)
       && !Taken(users, body.email.value, body.username.value))
  {
    if !Truthy(body.username) || !Truthy(body.email) || !Truthy(body.password) then Some(MissingRegisterFields)
    else if Taken(users, body.email.value, body.username.value) then Some(UserExists)
    else None
  }

  /** The user table, with the model's hash and compare functions. */
  class UserStore {
    var users: seq<User>
    var nextId: UserId
    const hash: string -> string
    const matches: (string, string) -> bool

    ghost predicate Valid()
      reads this
    {
      Distinct(users) && forall i :: 0 <= i < |users| ==> users[i].id < nextId
    }

    constructor (hash: string -> string, matches: (string, string) -> bool)
      ensures Valid() && users == [] && nextId == 0
      ensures this.hash == hash && this.matches == matches
    {
      this.hash, this.matches := hash, matches;
      users, nextId := [], 0;
    }

    /** `register`: required fields, then uniqueness on email OR username, then one new user. */
    method Register(body: RegisterBody) returns (r: AuthReply)
      requires Valid()
      modifies this
      ensures Valid()
      ensures !Truthy(body.username) || !Truthy(body.email) || !Truthy(body.password) ==>
        r == Failed(400, MissingRegisterFields)
      ensures (Truthy(body.username) && Truthy(body.email) && Truthy(body.password)
        && Taken(old(users), body.email.value, body.username.value)) ==>
        r == Failed(400, UserExists)
      ensures r.Failed? ==> users == old(users) && nextId == old(nextId)
      ensures r.Failed? ==> r.code == 400 && RegisterRefusal(old(users), body) == Some(r.message)
      ensures r.Authed? <==> (Truthy(body.username) && Truthy(body.email) && Truthy(body.password)
        && !Taken(old(users), body.email.value, body.username.value))
      ensures r.Authed? ==> (Truthy(body.username) && Truthy(body.email) && Truthy(body.password)
        && !Taken(old(users), body.email.value, body.username.value)
        && var u := User(old(nextId), body.username.value, body.email.value, hash(body.password.value));
           users == old(users) + [u] && nextId == old(nextId) + 1
           && r == Authed(201, Token(u.id), View(u)))
    {
      if !Truthy(body.username) || !Truthy(body.email) || !Truthy(body.password) {
        return Failed(400, MissingRegisterFields);
      }
      var username, email, password := body.username.value, body.email.value, body.password.value;
      if Taken(users, email, username) {
        return Failed(400, UserExists);
      }
      var u := User(nextId, username, email, hash(password));
      users := users + [u];
      nextId := nextId + 1;
      r := Authed(201, Token(u.id), View(u));
    }

    /** `login`: the same 401 for an unknown email and a wrong password. */
    method Login(body: LoginBody) returns (r: AuthReply)
      ensures r == LoginReply(users, body, matches)
    {
      if !Truthy(body.email) || !Truthy(body.password) {
        return Failed(400, MissingLoginFields);
      }
      var found := FindByEmail(users, body.email.value);
      if found.None? {
        return Failed(401, InvalidCredentials);
      }
      var user := users[found.value];
      if !matches(body.password.value, user.passwordHash) {
        return Failed(401, InvalidCredentials);
      }
      r := Authed(200, Token(user.id), View(user));
    }
  }
}
