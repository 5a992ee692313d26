/** The authentication route (backend/routes/auth.js): login by
    normalised email with one error for every credential failure, and
    registration through a fixed chain of checks, role-specific field
    copying and the schema's validation on save. The request body is
    modelled by its fields, with the empty string for a missing or falsy
    one. */
module Auth {
  import opened Common
  import opened UserSchema

  const InvalidCredentials: string := "Invalid email or password"

  /** The value `findOne({ email: email.toLowerCase() })` matches: the route
      lower-cases the input, and casting the filter runs the email path's
      lowercase and trim setters, so the key is the stored form of it. */
  function QueryEmail(email: string): string {
    NormalizeEmail(Lower(email))
  }

  /** POST /login. */
  function Login(users: seq<User>, email: string, password: string, hash: string -> string)
    : (r: Response<PublicUser>)
    ensures email == "" || password == "" ==> r == Error(400, "Email and password are required")
    ensures r.Ok? <==>
              email != "" && password != "" && FindUserByEmail(users, QueryEmail(email)).Some?
              && PasswordMatches(hash, users[FindUserByEmail(users, QueryEmail(email)).value].password, password)
    ensures r.Ok? ==> r == Ok(200, Profile(users[FindUserByEmail(users, QueryEmail(email)).value]))
    ensures r.Error? && email != "" && password != "" ==> r == Error(401, InvalidCredentials)
  {
    if email == "" || password == "" then Error(400, "Email and password are required")
    else match FindUserByEmail(users, QueryEmail(email))
      case None => Error(401, InvalidCredentials)
      case Some(k) =>
        if PasswordMatches(hash, users[k].password, password) then Ok(200, Profile(users[k]))
        else Error(401, InvalidCredentials)
  }

  /** An unknown email and a wrong password give the same reply, so a
      failed login does not tell whether the account exists. */
  lemma LoginFailuresAlike(users: seq<User>, email: string, password: string, hash: string -> string)
    requires email != "" && password != ""
    ensures !EmailTaken(users, QueryEmail(email)) ==>
              Login(users, email, password, hash) == Error(401, InvalidCredentials)
    ensures (forall i :: 0 <= i < |users| && users[i].email == QueryEmail(email) ==>
               !PasswordMatches(hash, users[i].password, password)) ==>
              Login(users, email, password, hash) == Error(401, InvalidCredentials)
  {
  }

  /** In a valid collection the account with the normalised email is the
      only candidate: login succeeds exactly when the password matches its
      hash, and then returns that account's profile. */
  lemma LoginAccount(users: seq<User>, email: string, password: string, hash: string -> string, i: nat)
    requires UsersValid(users) && i < |users| && users[i].email == QueryEmail(email)
    requires email != "" && password != ""
    ensures Login(users, email, password, hash) ==
              if hash(password) == users[i].password then Ok(200, Profile(users[i]))
              else Error(401, InvalidCredentials)
  {
    assert EmailTaken(users, QueryEmail(email)) by { assert users[i].email == QueryEmail(email); }
    var k := FindUserByEmail(users, QueryEmail(email)).value;
    UniqueEmailAt(users, i, k);
  }

  // ---------------------------------------------------------------------
  // Registration
  // ---------------------------------------------------------------------

  /** The register body; `graduationYear` is the parsed number, `None`
      when absent. */
  datatype RegisterBody = RegisterBody(
    email: string, password: string, name: string, role: string, major: string,
    graduationYear: Option<int>, phone: string, company: string, position: string)

  const MissingFields: string := "Email, password, name, and role are required"
  const InvalidRole: string := "Invalid role. Must be student or recruiter"
  const StudentDomain: string := "@student.bubt.edu"
  const WrongDomain: string := "Student email must be from @student.bubt.edu domain"
  const ShortPassword: string := "Password must be at least 6 characters long"
  const AlreadyExists: string := "User already exists with this email"

  predicate Missing(b: RegisterBody) {
    b.email == "" || b.password == "" || b.name == "" || b.role == ""
  }

  predicate SelfRegisterRole(role: string) {
    role == "student" || role == "recruiter"
  }

  predicate BadStudentDomain(b: RegisterBody) {
    b.role == "student" && !Contains(Lower(b.email), StudentDomain)
  }

  /** The guard chain, in source order: the first failing check's message,
      `None` when every check passes. Each message is given exactly when
      its own check fails and every earlier one passed. */
  function RegisterCheck(users: seq<User>, b: RegisterBody): (r: Option<string>)
    ensures r == Some(MissingFields) <==> Missing(b)
    ensures r == Some(InvalidRole) <==> !Missing(b) && !SelfRegisterRole(b.role)
    ensures r == Some(WrongDomain) <==> !Missing(b) && SelfRegisterRole(b.role) && BadStudentDomain(b)
    ensures r == Some(ShortPassword) <==>
              !Missing(b) && SelfRegisterRole(b.role) && !BadStudentDomain(b) && Utf16Length(b.password) < MinPasswordLength
    ensures r == Some(AlreadyExists) <==>
              !Missing(b) && SelfRegisterRole(b.role) && !BadStudentDomain(b)
              && Utf16Length(b.password) >= MinPasswordLength && EmailTaken(users, QueryEmail(b.email))
    ensures r.None? <==>
              !Missing(b) && SelfRegisterRole(b.role) && !BadStudentDomain(b)
              && Utf16Length(b.password) >= MinPasswordLength && !EmailTaken(users, QueryEmail(b.email))
    ensures r.None? ==> ParseRole(b.role).Some?
  {
    if Missing(b) then Some(MissingFields)
    else if !SelfRegisterRole(b.role) then Some(InvalidRole)
    else if BadStudentDomain(b) then Some(WrongDomain)
    else if Utf16Length(b.password) < MinPasswordLength then Some(ShortPassword)
    else if FindUserByEmail(users, QueryEmail(b.email)).Some? then Some(AlreadyExists)
    else None
  }

  /** Nobody can register as an admin. */
  lemma AdminCannotRegister(users: seq<User>, b: RegisterBody)
    requires b.role == "admin"
    ensures RegisterCheck(users, b).Some?
  {
  }

  /** The domain check is a substring test: an address that merely
      mentions the student domain, before any other host, passes. */
  lemma DomainCheckIsSubstring(b: RegisterBody, local: string, rest: string)
    requires b.role == "student" && Lower(b.email) == local + StudentDomain + rest
    ensures !BadStudentDomain(b)
  {
    var e := Lower(b.email);
    assert e[|local|..][..|StudentDomain|] == StudentDomain;
    ContainsAt(e, StudentDomain, |local|);
  }

  /** A truthy string field, through the schema's trim setter. */
  function Given(t: string): Option<string> {
    if t != "" then Some(Trim(t)) else None
  }

  /** The document register builds: the lower-cased email through the
      email setters (the same key the existence check looks up), the plain password (hashed on save), and only the
      optional fields of the caller's role. */
  function NewUserRecord(b: RegisterBody, role: Role, id: string, now: int): (u: User)
    requires role == Student || role == Recruiter
    ensures u.id == id && u.role == role && u.email == NormalizeEmail(Lower(b.email))
    ensures u.password == b.password && u.name == Trim(b.name) && u.createdAt == now
    ensures role == Student ==> u.company.None? && u.position.None?
    ensures role == Student ==> u.major == Given(b.major) && u.phone == Given(b.phone)
    ensures role == Student && b.graduationYear.Some? && b.graduationYear.value != 0 ==>
              u.graduationYear == b.graduationYear
    ensures role == Recruiter ==> u.major.None? && u.graduationYear.None?
    ensures role == Recruiter ==>
              u.company == Given(b.company) && u.position == Given(b.position) && u.phone == Given(b.phone)
    ensures u.graduationYear.Some? ==> role == Student && u.graduationYear.value != 0
    ensures u.profileComplete == DefaultProfileComplete && u.resume.None? && u.skills == []
    ensures u.certificates == [] && u.projects == [] && u.experience == [] && u.socialLinks.None?
  {
    var student := role == Student;
    User(id, NormalizeEmail(Lower(b.email)), b.password, Trim(b.name), role,
         if student then Given(b.major) else None,
         if student && b.graduationYear.Some? && b.graduationYear.value != 0 then b.graduationYear else None,
         None, DefaultProfileComplete, Given(b.phone), [], None, [], [], [], None,
         if student then None else Given(b.company),
         if student then None else Given(b.position),
         now)
  }

  /** `errors.join(', ')`. */
  function Join(parts: seq<string>, sep: string): string {
    if parts == [] then ""
    else if |parts| == 1 then parts[0]
    else parts[0] + sep + Join(parts[1..], sep)
  }

  /** A record that passed validation is a valid stored user. */
  lemma NewUserValid(b: RegisterBody, role: Role, id: string, now: int, hash: string -> string)
    requires role == Student || role == Recruiter
    requires id != "" && ValidationErrors(NewUserRecord(b, role, id, now)) == []
    ensures UserValid(NewUserRecord(b, role, id, now).(password := hash(b.password)))
  {
    NormalizeEmailIdempotent(Lower(b.email));
    TrimIdempotent(b.name);
  }

  /** Appending a valid user with a new id and a new email keeps the
      collection valid. */
  lemma AppendKeepsUsersValid(users: seq<User>, u: User)
    requires UsersValid(users) && UserValid(u) && !EmailTaken(users, u.email)
    requires forall i :: 0 <= i < |users| ==> users[i].id != u.id
    ensures UsersValid(users + [u])
  {
    var r := users + [u];
    var n := |users|;
    assert r[n] == u;
    forall i, j | 0 <= i < j < |r| ensures r[i].email != r[j].email && r[i].id != r[j].id {
      assert r[i] == users[i];
      if j < n {
        assert r[j] == users[j];
      }
    }
    forall i | 0 <= i < |r| ensures UserValid(r[i]) {
      if i < n {
        assert r[i] == users[i];
      }
    }
  }

  /** POST /register. The existence check looks up the same normalised
      email the document stores, so once the guards pass the only failure
      left is the schema's validation. */
  method Register(users: UserCollection, b: RegisterBody, hash: string -> string, freshId: string, now: int)
    returns (r: Response<PublicUser>)
    requires users.Valid() && freshId != ""
    requires forall i :: 0 <= i < |users.users| ==> users.users[i].id != freshId
    modifies users
    ensures users.Valid()
    ensures RegisterCheck(old(users.users), b).Some? ==>
              r == Error(400, RegisterCheck(old(users.users), b).value) && users.users == old(users.users)
    ensures RegisterCheck(old(users.users), b).None? ==>
              var u := NewUserRecord(b, ParseRole(b.role).value, freshId, now);
              var stored := u.(password := hash(b.password));
              (ValidationErrors(u) != [] ==>
                 r == Error(400, Join(ValidationErrors(u), ", ")) && users.users == old(users.users))
              && (ValidationErrors(u) == [] ==>
                    r == Ok(201, Profile(stored)) && users.users == old(users.users) + [stored])
  {
    var before := users.users;
    var check := RegisterCheck(before, b);
    if check.Some? {
      return Error(400, check.value);
    }
    var role := ParseRole(b.role).value;
    var u := NewUserRecord(b, role, freshId, now);
    var doc := new UserDocument.New(u);
    var errors := doc.Save(hash);
    assert users.users == before;
    if errors != [] {
      return Error(400, Join(errors, ", "));
    }
    var stored := doc.record;
    assert stored == u.(password := hash(b.password));
    assert !EmailTaken(before, u.email);
    NewUserValid(b, role, freshId, now, hash);
    AppendKeepsUsersValid(before, stored);
    users.users := before + [stored];
    r := Ok(201, Profile(stored));
  }

  /** Registering and then logging in with the same email and password
      finds the new account and returns its profile. */
  lemma RegisterThenLogin(users: seq<User>, b: RegisterBody, hash: string -> string, freshId: string, now: int)
    requires UsersValid(users) && freshId != ""
    requires forall i :: 0 <= i < |users| ==> users[i].id != freshId
    requires RegisterCheck(users, b).None?
    requires ValidationErrors(NewUserRecord(b, ParseRole(b.role).value, freshId, now)) == []
    ensures var stored := NewUserRecord(b, ParseRole(b.role).value, freshId, now).(password := hash(b.password));
            Login(users + [stored], b.email, b.password, hash) == Ok(200, Profile(stored))
  {
    var role := ParseRole(b.role).value;
    var stored := NewUserRecord(b, role, freshId, now).(password := hash(b.password));
    NewUserValid(b, role, freshId, now, hash);
    AppendKeepsUsersValid(users, stored);
    var all := users + [stored];
    assert all[|users|] == stored;
    LoginAccount(all, b.email, b.password, hash, |users|);
  }

  /** A recruiter address of blanks passes every guard but trims to the
      empty string, which the schema's required validator rejects. */
  lemma BlankRecruiterEmailRejected()
    ensures ValidationErrors(NewUserRecord(
              RegisterBody("  ", "secret", "R", "recruiter", "", None, "", "", ""), Recruiter, "u1", 0))
            == ["Path `email` is required."]
  {
    var b := RegisterBody("  ", "secret", "R", "recruiter", "", None, "", "", "");
    assert Lower("  ") == "  ";
    assert TrimStart("  ") == "";
    assert Trim("  ") == "";
    assert Trim("R") == "R";
  }
}
