/**
 * The register and login handlers over the `users` table. Password hashing,
 * hash comparison and token signing are library calls, passed in as functions.
 */
module AuthController {
  import opened Base
  import opened Mailer
  import opened UserModel

  const WelcomeSubject: string := "MeetingApp'e Hoş Geldiniz 🎉"

  /** The fields of a register request body; any may be missing. */
  datatype RegisterBody = RegisterBody(
    firstName: Option<string>,
    lastName: Option<string>,
    email: Option<string>,
    phone: Option<string>,
    password: Option<string>)

  /** One register request: its body and the uploaded profile image, if any. */
  datatype Registration = Registration(body: RegisterBody, file: Option<string>)

  /** The claims a login token carries. */
  datatype Claims = Claims(id: nat, email: string)

  /**
   * The outcome of register on `users`, whose next key is `nextId`. A missing email
   * or password makes the lookup or the hashing throw, and a missing name or phone
   * fails validation: all three answer 500. A taken email answers 400.
   */
  function RegisterResult(users: seq<User>, nextId: nat, body: RegisterBody, file: Option<string>,
                          hash: string -> string): (r: Result<User>)
    ensures r == Err(BadRequest) <==> body.email.Some? && FindByEmail(users, body.email.value).Some?
    ensures r.Ok? <==> && body.email.Some? && FindByEmail(users, body.email.value).None?
                       && body.password.Some? && body.firstName.Some? && body.lastName.Some? && body.phone.Some?
    ensures r.Ok? ==> && r.value.id == nextId && r.value.email == body.email.value
                      && r.value.firstName == body.firstName.value && r.value.lastName == body.lastName.value
                      && r.value.phone == body.phone.value
                      && r.value.password == hash(body.password.value) && r.value.profileImage == file
    ensures r.Ok? ==> forall i :: 0 <= i < |users| ==> users[i].email != r.value.email
    ensures r.Err? && r.error != BadRequest ==> r.error == ServerError
  {
    if body.email.None? then Err(ServerError)
    else if FindByEmail(users, body.email.value).Some? then Err(BadRequest)
    else if body.password.None? then Err(ServerError)
    else if body.firstName.None? || body.lastName.None? || body.phone.None? then Err(ServerError)
    else Ok(User(nextId, body.firstName.value, body.lastName.value, body.email.value,
                 body.phone.value, hash(body.password.value), file))
  }

  /** The table after a register outcome: the new row appended, or unchanged. */
  function Inserted(users: seq<User>, r: Result<User>): seq<User> {
    if r.Ok? then users + [r.value] else users
  }

  /** The key counter after a register outcome. */
  function NextKey(nextId: nat, r: Result<User>): nat {
    if r.Ok? then nextId + 1 else nextId
  }

  /** One register keeps emails unique and keys issued in order. */
  lemma RegisterKeepsTable(users: seq<User>, nextId: nat, body: RegisterBody, file: Option<string>,
                           hash: string -> string)
    requires UniqueEmails(users) && KeysIssued(users, nextId)
    ensures var r := RegisterResult(users, nextId, body, file, hash);
            UniqueEmails(Inserted(users, r)) && KeysIssued(Inserted(users, r), NextKey(nextId, r))
  {
  }

  /** The table after a run of register requests. */
  function RegisterAll(users: seq<User>, nextId: nat, regs: seq<Registration>, hash: string -> string): seq<User>
    decreases |regs|
  {
    if regs == [] then users
    else
      var r := RegisterResult(users, nextId, regs[0].body, regs[0].file, hash);
      RegisterAll(Inserted(users, r), NextKey(nextId, r), regs[1..], hash)
  }

  /** After any run of register requests, no two users share an email and no two share a key. */
  lemma {:induction false} RegisterAllKeepsTable(users: seq<User>, nextId: nat, regs: seq<Registration>,
                                                 hash: string -> string)
    requires UniqueEmails(users) && KeysIssued(users, nextId)
    ensures UniqueEmails(RegisterAll(users, nextId, regs, hash))
    ensures forall i, j :: 0 <= i < j < |RegisterAll(users, nextId, regs, hash)| ==>
              RegisterAll(users, nextId, regs, hash)[i].id != RegisterAll(users, nextId, regs, hash)[j].id
    decreases |regs|
  {
    if regs != [] {
      var r := RegisterResult(users, nextId, regs[0].body, regs[0].file, hash);
      RegisterKeepsTable(users, nextId, regs[0].body, regs[0].file, hash);
      RegisterAllKeepsTable(Inserted(users, r), NextKey(nextId, r), regs[1..], hash);
    }
  }

  /** A field of a JSON request body: absent, `null`, or a string. */
  datatype JsonField = Absent | Null | Text(value: string)

  /**
   * The outcome of login. An absent email makes the lookup throw (500); a `null`
   * email is looked up as `IS NULL` and finds nobody, since every stored email is
   * a string (404). An unknown email answers 404; a password that is not a string
   * makes the comparison throw (500); a password that does not match the stored
   * hash answers 400; otherwise a token carrying that user's id and email.
   */
  function LoginResult(users: seq<User>, email: JsonField, password: JsonField,
                       matches: (string, string) -> bool, sign: Claims -> string): (r: Result<string>)
    ensures r == Err(NotFound) <==> email.Null? || (email.Text? && FindByEmail(users, email.value).None?)
    ensures r == Err(BadRequest) <==>
              && email.Text? && password.Text? && FindByEmail(users, email.value).Some?
              && !matches(password.value, FindByEmail(users, email.value).value.password)
    ensures r.Ok? ==> && email.Text? && password.Text?
                      && var u := FindByEmail(users, email.value);
                      && u.Some? && matches(password.value, u.value.password)
                      && r.value == sign(Claims(u.value.id, u.value.email))
    ensures (&& email.Text? && password.Text? && FindByEmail(users, email.value).Some?
             && matches(password.value, FindByEmail(users, email.value).value.password)) ==> r.Ok?
  {
    match email
    case Absent => Err(ServerError)
    case Null => Err(NotFound)
    case Text(e) =>
      match FindByEmail(users, e)
      case None => Err(NotFound)
      case Some(u) =>
        if !password.Text? then Err(ServerError)
        else if !matches(password.value, u.password) then Err(BadRequest)
        else Ok(sign(Claims(u.id, u.email)))
  }

  /** Someone who has just registered can log in with the same email and password. */
  lemma RegisterThenLogin(users: seq<User>, nextId: nat, body: RegisterBody, file: Option<string>,
                          hash: string -> string, matches: (string, string) -> bool, sign: Claims -> string)
    requires forall p :: matches(p, hash(p))
    requires RegisterResult(users, nextId, body, file, hash).Ok?
    ensures LoginResult(Inserted(users, RegisterResult(users, nextId, body, file, hash)),
                        Text(body.email.value), Text(body.password.value), matches, sign)
            == Ok(sign(Claims(nextId, body.email.value)))
  {
    var r := RegisterResult(users, nextId, body, file, hash);
    FindAppended(users, r.value);
  }

  /** The welcome mail register sends to the new user. */
  function WelcomeMail(u: User): Mail {
    Mail([u.email], WelcomeSubject, Welcome(u.firstName, u.lastName))
  }

  /** The welcome mail of a successful register goes to the registering address alone and greets the registrant by name. */
  lemma WelcomeGreetsRegistrant(users: seq<User>, nextId: nat, body: RegisterBody, file: Option<string>,
                                hash: string -> string)
    requires RegisterResult(users, nextId, body, file, hash).Ok?
    ensures WelcomeMail(RegisterResult(users, nextId, body, file, hash).value)
            == Mail([body.email.value], WelcomeSubject, Welcome(body.firstName.value, body.lastName.value))
  {
  }

  /** The users table with the library functions it relies on and the shared mail transport. */
  class UserTable {
    var users: seq<User>
    var nextId: nat
    const transport: Transport
    /** bcrypt.hash, bcrypt.compare and jwt.sign, as functions. */
    const hash: string -> string
    const matches: (string, string) -> bool
    const sign: Claims -> string

    /** Emails are unique, keys issued in order, and a password always matches its own hash. */
    ghost predicate Valid()
      reads this
    {
      UniqueEmails(users) && KeysIssued(users, nextId) && forall p :: matches(p, hash(p))
    }

    constructor(transport: Transport, hash: string -> string, matches: (string, string) -> bool,
                sign: Claims -> string)
      requires forall p :: matches(p, hash(p))
      ensures Valid() && users == [] && nextId == 1
      ensures this.transport == transport && this.hash == hash && this.matches == matches && this.sign == sign
    {
      users := [];
      nextId := 1;
      this.transport := transport;
      this.hash := hash;
      this.matches := matches;
      this.sign := sign;
    }

    /** register: rejects a taken email, otherwise stores the user with the hashed password and mails a welcome. */
    method Register(body: RegisterBody, file: Option<string>) returns (r: Result<User>)
      requires Valid()
      modifies this, transport
      ensures Valid()
      ensures r == RegisterResult(old(users), old(nextId), body, file, hash)
      ensures users == Inserted(old(users), r) && nextId == NextKey(old(nextId), r)
      ensures transport.outbox == old(transport.outbox) + (if r.Ok? then [WelcomeMail(r.value)] else [])
    {
      if body.email.None? {
        return Err(ServerError);
      }
      var exist := FindByEmail(users, body.email.value);
      if exist.Some? {
        return Err(BadRequest);
      }
      if body.password.None? {
        return Err(ServerError);
      }
      var hashed := hash(body.password.value);
      if body.firstName.None? || body.lastName.None? || body.phone.None? {
        return Err(ServerError);
      }
      var user := User(nextId, body.firstName.value, body.lastName.value, body.email.value,
                       body.phone.value, hashed, file);
      RegisterKeepsTable(users, nextId, body, file, hash);
      users := users + [user];
      nextId := nextId + 1;
      transport.SendMail(WelcomeMail(user));
      r := Ok(user);
    }

    /** login: a read-only lookup; it never changes the users table. */
    method Login(email: JsonField, password: JsonField) returns (r: Result<string>)
      ensures r == LoginResult(users, email, password, matches, sign)
    {
      if email.Absent? {
        return Err(ServerError);
      }
      if email.Null? {
        return Err(NotFound);
      }
      var user := FindByEmail(users, email.value);
      if user.None? {
        return Err(NotFound);
      }
      if !password.Text? {
        return Err(ServerError);
      }
      var matched := matches(password.value, user.value.password);
      if !matched {
        return Err(BadRequest);
      }
      r := Ok(sign(Claims(user.value.id, user.value.email)));
    }
  }
}
