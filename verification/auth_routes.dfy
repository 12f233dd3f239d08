/** The user endpoints (backend/routes/authroutes.js): signup, login,
    profile lookup, user listing and profile update. Passwords are
    compared in plain text, as stored. */
module AuthRoutes {
  import opened Wrappers
  import opened UserModel
  import opened Store
  import opened Filtering

  /** The credential `POST /api/login` accepts as the administrator. */
  const AdminPhone := "1111111111"
  const AdminPassword := "admin"
  /** The phone `GET /api/users` leaves out of its listing. */
  const HiddenPhone := "111"

  datatype Response =
    | Registered(message: string)
    | LoggedIn(message: string, isAdmin: bool)
    | Profile(user: PublicUser)
    | UserList(users: seq<PublicUser>)
    | Failed(status: int, error: string)
  {
    function Status(): int {
      if Failed? then status else 200
    }
  }

  const UserNotFound := "User not found"

  /** `POST /api/signup`: stores the body as a new user, unconditionally. */
  function Signup(st: Store, body: User): (r: Step<Response>)
    ensures r.state.(users := st.users) == st
    ensures r.response == Registered("User registered successfully!")
    ensures |r.state.users| == |st.users| + 1
    ensures r.state.users[..|st.users|] == st.users && r.state.users[|st.users|] == body
  {
    var users := st.users + [body];
    assert users[..|st.users|] == st.users;
    Step(Registered("User registered successfully!"), st.(users := users))
  }

  /** Whether some stored user has exactly this phone and password. */
  function HasCredentials(users: seq<User>, phone: string, password: string): (b: bool)
    ensures b <==> exists i :: 0 <= i < |users| && users[i].phone == Some(phone) && users[i].password == Some(password)
    decreases |users|
  {
    if |users| == 0 then false
    else if users[0].phone == Some(phone) && users[0].password == Some(password) then true
    else
      var rest := HasCredentials(users[1..], phone, password);
      assert forall i :: 1 <= i < |users| ==> users[i] == users[1..][i - 1];
      rest
  }

  /** `POST /api/login`. The administrator credential is accepted without
      reading the store; any other pair must match one stored user. */
  function Login(st: Store, phone: string, password: string): (r: Step<Response>)
    ensures r.state == st
    ensures phone == AdminPhone && password == AdminPassword ==>
      r.response == LoggedIn("Admin login successful!", true)
    ensures !(phone == AdminPhone && password == AdminPassword) ==>
      && (r.response.LoggedIn? <==>
            exists i :: 0 <= i < |st.users| && st.users[i].phone == Some(phone) && st.users[i].password == Some(password))
      && (r.response.LoggedIn? ==> r.response == LoggedIn("Login successful!", false))
      && (!r.response.LoggedIn? ==> r.response == Failed(401, "Invalid phone or password"))
  {
    if phone == AdminPhone && password == AdminPassword then
      Step(LoggedIn("Admin login successful!", true), st)
    else if HasCredentials(st.users, phone, password) then
      Step(LoggedIn("Login successful!", false), st)
    else
      Step(Failed(401, "Invalid phone or password"), st)
  }

  /** The administrator login answers the same whatever the store holds. */
  lemma AdminLoginIgnoresStore(a: Store, b: Store)
    ensures Login(a, AdminPhone, AdminPassword).response == Login(b, AdminPhone, AdminPassword).response
  {
  }

  /** `users[i]` is the first user with this phone. */
  ghost predicate FirstMatch(users: seq<User>, phone: string, i: int) {
    && 0 <= i < |users|
    && users[i].phone == Some(phone)
    && forall j :: 0 <= j < i ==> users[j].phone != Some(phone)
  }

  /** The first stored user with this phone: what `findOne({ phone })` returns. */
  function FirstWithPhone(users: seq<User>, phone: string): (r: Option<nat>)
    ensures r.None? <==> forall i :: 0 <= i < |users| ==> users[i].phone != Some(phone)
    ensures r.Some? ==> r.value < |users| && users[r.value].phone == Some(phone)
    ensures r.Some? ==> forall j :: 0 <= j < r.value ==> users[j].phone != Some(phone)
    decreases |users|
  {
    if |users| == 0 then None
    else if users[0].phone == Some(phone) then Some(0)
    else
      match FirstWithPhone(users[1..], phone)
      case None =>
        assert forall i :: 1 <= i < |users| ==> users[i] == users[1..][i - 1];
        None
      case Some(i) => Some(i + 1)
  }

  /** `GET /api/user/profile/:phone`: the first user with that phone,
      without the password. */
  function GetProfile(st: Store, phone: string): (r: Step<Response>)
    ensures r.state == st
    ensures r.response.Profile? <==> exists i :: 0 <= i < |st.users| && st.users[i].phone == Some(phone)
    ensures r.response.Profile? ==>
      exists i :: FirstMatch(st.users, phone, i) && r.response.user == Public(st.users[i])
    ensures !r.response.Profile? ==> r.response == Failed(404, UserNotFound)
  {
    match FirstWithPhone(st.users, phone)
    case None => Step(Failed(404, UserNotFound), st)
    case Some(i) => Step(Profile(Public(st.users[i])), st)
  }

  /** The query `{ phone: { $ne: "111" } }`; `$ne` also matches a user
      with no phone. */
  predicate Shown(u: User) {
    u.phone != Some(HiddenPhone)
  }

  /** The users `find({ phone: { $ne: "111" } })` returns, without their
      passwords: one entry per matching user, in natural order. */
  function Visible(users: seq<User>): (r: seq<PublicUser>)
    ensures |r| == |Filter(users, Shown)|
    ensures forall i :: 0 <= i < |r| ==> r[i] == Public(Filter(users, Shown)[i])
    ensures forall i :: 0 <= i < |r| ==> r[i].phone != Some(HiddenPhone)
    ensures forall p :: p in r <==> exists u :: u in users && Shown(u) && Public(u) == p
    decreases |users|
  {
    if |users| == 0 then []
    else
      var init, last := users[..|users| - 1], users[|users| - 1];
      assert users == init + [last];
      assert Filter(users, Shown) == Filter(init, Shown) + (if Shown(last) then [last] else []);
      Visible(init) + (if Shown(last) then [Public(last)] else [])
  }

  /** `GET /api/users`. */
  function ListUsers(st: Store): (r: Step<Response>)
    ensures r.state == st
    ensures r.response.UserList?
    ensures |r.response.users| == |Filter(st.users, Shown)|
    ensures forall i :: 0 <= i < |r.response.users| ==> r.response.users[i] == Public(Filter(st.users, Shown)[i])
    ensures forall i :: 0 <= i < |r.response.users| ==> r.response.users[i].phone != Some(HiddenPhone)
    ensures forall p :: p in r.response.users <==>
      exists u :: u in st.users && Shown(u) && Public(u) == p
  {
    Step(UserList(Visible(st.users)), st)
  }

  /** `after` is `before` with only user `i`'s name, age and gender replaced. */
  ghost predicate UpdatedAt(before: seq<User>, after: seq<User>, i: int,
                            name: Option<string>, age: Option<int>, gender: Option<string>) {
    && |after| == |before|
    && 0 <= i < |before|
    && (forall j :: 0 <= j < |before| && j != i ==> after[j] == before[j])
    && after[i] == User(name, age, gender, before[i].phone, before[i].password)
  }

  /** `PUT /api/user/update/:phone`: sets name, age and gender of the first
      user with that phone (an absent field is unset); phone and password
      stay, and every other user is untouched. */
  function UpdateUser(st: Store, phone: string, name: Option<string>, age: Option<int>, gender: Option<string>)
    : (r: Step<Response>)
    ensures r.state.(users := st.users) == st
    ensures (forall i :: 0 <= i < |st.users| ==> st.users[i].phone != Some(phone)) ==>
      r == Step(Failed(404, UserNotFound), st)
    ensures (exists i :: 0 <= i < |st.users| && st.users[i].phone == Some(phone)) ==>
      && |r.state.users| == |st.users|
      && exists i :: && FirstMatch(st.users, phone, i)
                     && UpdatedAt(st.users, r.state.users, i, name, age, gender)
                     && r.response == Profile(Public(r.state.users[i]))
    ensures r.response.Profile? ==>
      exists i :: FirstMatch(st.users, phone, i) && r.response.user == Public(r.state.users[i])
  {
    match FirstWithPhone(st.users, phone)
    case None => Step(Failed(404, UserNotFound), st)
    case Some(i) =>
      var user := st.users[i].(name := name, age := age, gender := gender);
      var users := st.users[i := user];
      assert FirstMatch(st.users, phone, i) && UpdatedAt(st.users, users, i, name, age, gender);
      Step(Profile(Public(user)), st.(users := users))
  }

  /** Signup does not look for an existing phone: every signup adds one
      more user with the body's phone. */
  lemma SignupKeepsDuplicates(st: Store, body: User)
    ensures var users := Signup(st, body).state.users;
            multiset(users)[body] == multiset(st.users)[body] + 1
  {
    assert Signup(st, body).state.users == st.users + [body];
  }
}
