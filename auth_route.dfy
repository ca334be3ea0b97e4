/** The account API route (src/app/api/auth/route.ts): a module-level, in-memory
    `users` array that `POST` grows on "signup" and searches on "login".
    The token and the cookie are not built; a response instead names the
    claims its token would carry, and `signs` says whether signing the token
    and setting the cookie complete or throw. */
module AuthRoute {
  import opened Values

  /** One account record, as pushed by signup: the fields are the JSON values
      the request carried, whatever their type. */
  datatype User = User(id: int, email: Value, password: Value, name: Value,
                       isEmailVerified: bool, isAdmin: bool)

  /** The claims signed into the `session` cookie. */
  datatype Claims = Claims(userId: int, email: Value, isAdmin: bool)

  datatype Body = Success | Failure(error: string)

  /** An HTTP response; `session` holds the claims of the cookie it sets, if any. */
  datatype Response = Response(status: int, body: Body, session: Option<Claims>)

  /** The parsed JSON body: `action` plus the fields the actions read, each
      `None` when the body lacks it (it reads as `undefined`). A body that is
      a number, a string or an array has none of them. */
  datatype AuthRequest = AuthRequest(action: Option<Value>, email: Option<Value>,
                                     password: Option<Value>, name: Option<Value>)

  /** `!x` for a field that may be `undefined`. */
  predicate FalsyEntry(x: Option<Value>)
  {
    x.None? || FalsyValue(x.value)
  }

  /** `a === b` between a stored value and one from a later request: objects
      and arrays parsed from different bodies are never the same object. */
  predicate StrictEquals(a: Value, b: Value)
  {
    a == b && !a.Composite?
  }

  /** `action === name` */
  predicate ActionIs(request: AuthRequest, name: string)
  {
    request.action == Some(Str(name))
  }

  function ErrorResponse(status: int, message: string): Response
  {
    Response(status, Failure(message), None)
  }

  function SessionOf(u: User): Claims
  {
    Claims(u.id, u.email, u.isAdmin)
  }

  /** What the table looks like when it has only ever been grown by signup:
      the record at index i has id i + 1, its fields were all truthy, it was
      created verified and not an administrator, and no two records hold
      strictly equal emails. */
  ghost predicate ValidUsers(users: seq<User>)
  {
    && (forall i :: 0 <= i < |users| ==>
          && users[i].id == i + 1
          && !FalsyValue(users[i].email) && !FalsyValue(users[i].password) && !FalsyValue(users[i].name)
          && users[i].isEmailVerified && !users[i].isAdmin)
    && (forall i, j :: 0 <= i < j < |users| ==> !StrictEquals(users[i].email, users[j].email))
  }

  /** `users.find(u => u.email === email)` finds something. */
  predicate EmailTaken(users: seq<User>, email: Value)
  {
    exists u :: u in users && StrictEquals(u.email, email)
  }

  /** `!email || !password || !name` */
  predicate MissingFields(email: Option<Value>, password: Option<Value>, name: Option<Value>)
  {
    FalsyEntry(email) || FalsyEntry(password) || FalsyEntry(name)
  }

  /** The "signup" action on a table: its response and the table afterwards.
      The record is pushed before the token is signed, so a throw while
      signing or setting the cookie answers 500 with the record kept. */
  function SignupResult(users: seq<User>, email: Option<Value>, password: Option<Value>,
                        name: Option<Value>, signs: bool): (r: (Response, seq<User>))
    ensures MissingFields(email, password, name) ==>
              r == (ErrorResponse(400, "Missing required fields"), users)
    ensures !MissingFields(email, password, name) && EmailTaken(users, email.value) ==>
              r == (ErrorResponse(400, "Email already registered"), users)
    ensures r.1 != users <==> !MissingFields(email, password, name) && !EmailTaken(users, email.value)
    ensures r.0.status == 200 <==> r.1 != users && signs
    ensures r.1 != users ==>
              && |r.1| == |users| + 1 && r.1[..|users|] == users
              && r.1[|users|] == User(|users| + 1, email.value, password.value, name.value, true, false)
              && r.0 == if signs then Response(200, Success, Some(SessionOf(r.1[|users|])))
                        else ErrorResponse(500, "Something went wrong")
  {
    if MissingFields(email, password, name) then
      (ErrorResponse(400, "Missing required fields"), users)
    else if EmailTaken(users, email.value) then
      (ErrorResponse(400, "Email already registered"), users)
    else
      var newUser := User(|users| + 1, email.value, password.value, name.value, true, false);
      assert (users + [newUser])[|users|] == newUser;
      if signs then (Response(200, Success, Some(SessionOf(newUser))), users + [newUser])
      else (ErrorResponse(500, "Something went wrong"), users + [newUser])
  }

  /** `u.email === email && u.password === password` */
  predicate HoldsCredentials(u: User, email: Option<Value>, password: Option<Value>)
  {
    email.Some? && StrictEquals(u.email, email.value) && password.Some? && StrictEquals(u.password, password.value)
  }

  /** `users.find(u => u.email === email && u.password === password)` finds something. */
  predicate HasCredentials(users: seq<User>, email: Option<Value>, password: Option<Value>)
  {
    exists u :: u in users && HoldsCredentials(u, email, password)
  }

  /** The index of the first record at or after `from` holding both credentials. */
  function FirstWithCredentialsFrom(users: seq<User>, email: Option<Value>, password: Option<Value>,
                                    from: nat): (r: Option<nat>)
    decreases |users| - from
    ensures r.Some? ==> from <= r.value < |users| && HoldsCredentials(users[r.value], email, password)
    ensures r.Some? ==> forall j :: from <= j < r.value ==> !HoldsCredentials(users[j], email, password)
    ensures r.None? ==> forall j :: from <= j < |users| ==> !HoldsCredentials(users[j], email, password)
  {
    if from >= |users| then None
    else if HoldsCredentials(users[from], email, password) then Some(from)
    else FirstWithCredentialsFrom(users, email, password, from + 1)
  }

  /** `users.find(u => u.email === email && u.password === password)`, as an index. */
  function FirstWithCredentials(users: seq<User>, email: Option<Value>, password: Option<Value>): (r: Option<nat>)
    ensures r.Some? ==> r.value < |users| && HoldsCredentials(users[r.value], email, password)
    ensures r.Some? ==> forall j :: 0 <= j < r.value ==> !HoldsCredentials(users[j], email, password)
    ensures r.None? <==> !HasCredentials(users, email, password)
  {
    var r := FirstWithCredentialsFrom(users, email, password, 0);
    assert r.Some? ==> users[r.value] in users;
    r
  }

  /** The "login" action: the session of the first record holding both
      credentials, or 401. */
  function LoginResult(users: seq<User>, email: Option<Value>, password: Option<Value>, signs: bool): (r: Response)
    ensures !HasCredentials(users, email, password) ==> r == ErrorResponse(401, "Invalid credentials")
    ensures HasCredentials(users, email, password) && !signs ==> r == ErrorResponse(500, "Something went wrong")
    ensures r.status == 200 <==> HasCredentials(users, email, password) && signs
    ensures r.status == 200 ==>
              exists i :: 0 <= i < |users| && r == Response(200, Success, Some(SessionOf(users[i])))
                          && HoldsCredentials(users[i], email, password)
  {
    match FirstWithCredentials(users, email, password)
    case None => ErrorResponse(401, "Invalid credentials")
    case Some(k) =>
      if signs then Response(200, Success, Some(SessionOf(users[k])))
      else ErrorResponse(500, "Something went wrong")
  }

  /** The whole `POST` handler: a body that does not parse (or is `null`)
      gives 500; "signup" and "login" are handled; any other action is
      rejected. */
  function PostResult(users: seq<User>, request: Option<AuthRequest>, signs: bool): (r: (Response, seq<User>))
    ensures request.None? ==> r == (ErrorResponse(500, "Something went wrong"), users)
    ensures request.Some? && !ActionIs(request.value, "signup") && !ActionIs(request.value, "login") ==>
              r == (ErrorResponse(400, "Invalid action"), users)
    ensures request.Some? && ActionIs(request.value, "login") ==>
              r.1 == users && (r.0.status == 200 <==> HasCredentials(users, request.value.email, request.value.password) && signs)
    // Only a signup grows the table, by one record, and a rejected request leaves it alone.
    ensures r.1 != users ==> request.Some? && ActionIs(request.value, "signup") && |r.1| == |users| + 1
    ensures r.0.status == 400 || r.0.status == 401 ==> r.1 == users
    // A failing signup keeps its record only when signing or the cookie threw after the push.
    ensures r.1 != users && r.0.status != 200 ==> !signs && r.0 == ErrorResponse(500, "Something went wrong")
  {
    match request
    case None => (ErrorResponse(500, "Something went wrong"), users)
    case Some(req) =>
      if ActionIs(req, "signup") then
        SignupResult(users, req.email, req.password, req.name, signs)
      else if ActionIs(req, "login") then
        (LoginResult(users, req.email, req.password, signs), users)
      else
        (ErrorResponse(400, "Invalid action"), users)
  }

  /** A signup that pushes keeps the table valid: the new email is fresh and
      truthy, and the new id is the new length. */
  lemma {:induction false} SignupKeepsValid(users: seq<User>, email: Option<Value>,
                                            password: Option<Value>, name: Option<Value>, signs: bool)
    requires ValidUsers(users)
    ensures ValidUsers(SignupResult(users, email, password, name, signs).1)
  {
    var (resp, users') := SignupResult(users, email, password, name, signs);
    if users' != users {
      forall i | 0 <= i < |users|
        ensures !StrictEquals(users'[i].email, users'[|users|].email)
      {
        assert users'[i] == users[i];
        assert users[i] in users;
      }
    }
  }

  /** Every action keeps the table valid, whether or not signing throws. */
  lemma {:induction false} PostKeepsValid(users: seq<User>, request: Option<AuthRequest>, signs: bool)
    requires ValidUsers(users)
    ensures ValidUsers(PostResult(users, request, signs).1)
  {
    if request.Some? && ActionIs(request.value, "signup") {
      SignupKeepsValid(users, request.value.email, request.value.password, request.value.name, signs);
    }
  }

  /** In a valid table the record holding an email is unique, so a login
      with a stored email and its password (neither an object nor an array)
      names exactly that record. */
  lemma {:induction false} LoginNamesTheAccount(users: seq<User>, email: Value, password: Value, i: nat)
    requires ValidUsers(users)
    requires i < |users| && users[i].email == email && users[i].password == password
    requires !email.Composite? && !password.Composite?
    ensures PostResult(users, Some(AuthRequest(Some(Str("login")), Some(email), Some(password), None)), true).0
            == Response(200, Success, Some(Claims(i + 1, email, false)))
  {
    assert users[i] in users && HoldsCredentials(users[i], Some(email), Some(password));
    var k := FirstWithCredentials(users, Some(email), Some(password)).value;
    assert StrictEquals(users[k].email, users[i].email);
  }

  /** A signup whose fields are all truthy strings and whose email is not yet
      stored is accepted, even when signing then throws: the record stays. */
  lemma {:induction false} SignupPushesBeforeSigning(users: seq<User>, email: string, password: string,
                                                     name: string, signs: bool)
    requires email != "" && password != "" && name != ""
    requires forall u :: u in users ==> u.email != Str(email)
    ensures var r := PostResult(users, Some(AuthRequest(Some(Str("signup")), Some(Str(email)), Some(Str(password)), Some(Str(name)))), signs);
            r.1 == users + [User(|users| + 1, Str(email), Str(password), Str(name), true, false)]
            && (r.0.status == 200 <==> signs)
  {
    var r := PostResult(users, Some(AuthRequest(Some(Str("signup")), Some(Str(email)), Some(Str(password)), Some(Str(name)))), signs);
    assert !EmailTaken(users, Str(email));
    assert r.1[..|users|] == users;
    assert r.1 == r.1[..|users|] + [r.1[|users|]];
  }

  /** The in-memory account table of the route module. */
  class AccountTable {
    var users: seq<User>

    ghost predicate Valid()
      reads this
    {
      ValidUsers(users)
    }

    constructor ()
      ensures Valid() && users == []
    {
      users := [];
    }

    /** `users.find(u => u.email === email)`: the index of the first record with that email. */
    method FindByEmail(email: Value) returns (k: Option<nat>)
      ensures k.Some? ==> k.value < |users| && StrictEquals(users[k.value].email, email)
      ensures k.Some? ==> forall j :: 0 <= j < k.value ==> !StrictEquals(users[j].email, email)
      ensures k.None? ==> !EmailTaken(users, email)
    {
      var i := 0;
      while i < |users|
        invariant 0 <= i <= |users|
        invariant forall j :: 0 <= j < i ==> !StrictEquals(users[j].email, email)
      {
        if StrictEquals(users[i].email, email) {
          return Some(i);
        }
        i := i + 1;
      }
      return None;
    }

    /** `users.find(u => u.email === email && u.password === password)`. */
    method FindByCredentials(email: Option<Value>, password: Option<Value>) returns (k: Option<nat>)
      ensures k == FirstWithCredentials(users, email, password)
    {
      var i := 0;
      while i < |users|
        invariant 0 <= i <= |users|
        invariant forall j :: 0 <= j < i ==> !HoldsCredentials(users[j], email, password)
      {
        if HoldsCredentials(users[i], email, password) {
          return Some(i);
        }
        i := i + 1;
      }
      return None;
    }

    method Signup(email: Option<Value>, password: Option<Value>, name: Option<Value>, signs: bool)
      returns (resp: Response)
      requires Valid()
      modifies this
      ensures Valid()
      ensures (resp, users) == SignupResult(old(users), email, password, name, signs)
    {
      if MissingFields(email, password, name) {
        return ErrorResponse(400, "Missing required fields");
      }
      var existing := FindByEmail(email.value);
      if existing.Some? {
        assert users[existing.value] in users;
        return ErrorResponse(400, "Email already registered");
      }
      var newUser := User(|users| + 1, email.value, password.value, name.value, true, false);
      SignupKeepsValid(users, email, password, name, signs);
      users := users + [newUser];
      if signs {
        resp := Response(200, Success, Some(SessionOf(newUser)));
      } else {
        resp := ErrorResponse(500, "Something went wrong");
      }
    }

    /** The "login" action: never changes the table. */
    method Login(email: Option<Value>, password: Option<Value>, signs: bool) returns (resp: Response)
      requires Valid()
      ensures resp == LoginResult(users, email, password, signs)
      ensures resp.status == 200 <==> HasCredentials(users, email, password) && signs
      ensures !HasCredentials(users, email, password) ==> resp == ErrorResponse(401, "Invalid credentials")
    {
      var k := FindByCredentials(email, password);
      if k.None? {
        return ErrorResponse(401, "Invalid credentials");
      }
      if signs {
        resp := Response(200, Success, Some(SessionOf(users[k.value])));
      } else {
        resp := ErrorResponse(500, "Something went wrong");
      }
    }

    method Post(request: Option<AuthRequest>, signs: bool) returns (resp: Response)
      requires Valid()
      modifies this
      ensures Valid()
      ensures (resp, users) == PostResult(old(users), request, signs)
      ensures old(users) == users || (request.Some? && ActionIs(request.value, "signup"))
      ensures resp.status == 400 || resp.status == 401 ==> users == old(users)
      ensures users != old(users) && resp.status != 200 ==> !signs
      ensures request.Some? && ActionIs(request.value, "login") ==>
                (resp.status == 200 <==> HasCredentials(users, request.value.email, request.value.password) && signs)
    {
      if request.None? {
        return ErrorResponse(500, "Something went wrong");
      }
      var req := request.value;
      if ActionIs(req, "signup") {
        resp := Signup(req.email, req.password, req.name, signs);
      } else if ActionIs(req, "login") {
        resp := Login(req.email, req.password, signs);
      } else {
        resp := ErrorResponse(400, "Invalid action");
      }
    }
  }
}
