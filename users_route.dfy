/** The users route (backend/routes/users.js): the listing newest first,
    lookup by id, and the whitelist update that copies only the allowed
    keys a body carries and replaces the password only when a non-empty
    one is given. Every reply carries the public projection, which has no
    password. */
module UsersRoute {
  import opened Common
  import opened UserSchema

  const ServerError: string := "Internal server error"

  function CreatedKey(): User -> int {
    (u: User) => u.createdAt
  }

  function ProfileOf(): User -> PublicUser {
    (u: User) => Profile(u)
  }

  /** The user with the password blanked, to state that replies never
      depend on it. */
  function Strip(): User -> User {
    (u: User) => u.(password := "")
  }

  /** The profiles of a permutation are the profiles of the original. */
  lemma ProfilesOfPermutation(a: seq<User>, b: seq<User>)
    requires multiset(a) == multiset(b)
    ensures |a| == |b|
    ensures forall k :: 0 <= k < |b| ==> Profile(b[k]) in Map(a, ProfileOf())
    ensures forall i :: 0 <= i < |a| ==> exists k :: 0 <= k < |b| && Map(a, ProfileOf())[i] == Profile(b[k])
  {
    assert |a| == |multiset(a)| == |multiset(b)| == |b|;
    var body := Map(a, ProfileOf());
    forall k | 0 <= k < |b| ensures Profile(b[k]) in body {
      assert b[k] in multiset(a);
      var m :| 0 <= m < |a| && a[m] == b[k];
      assert body[m] == Profile(b[k]);
    }
    forall i | 0 <= i < |a| ensures exists k :: 0 <= k < |b| && body[i] == Profile(b[k]) {
      assert a[i] in multiset(b);
      var k :| 0 <= k < |b| && b[k] == a[i];
      assert body[i] == Profile(b[k]);
    }
  }

  /** GET /: every user, newest first, as the public projection. */
  function ListUsers(users: seq<User>): (r: Response<seq<PublicUser>>)
    ensures r.Ok? && r.code == 200 && |r.body| == |users|
    ensures forall k :: 0 <= k < |users| ==> Profile(users[k]) in r.body
    ensures forall i :: 0 <= i < |r.body| ==> exists k :: 0 <= k < |users| && r.body[i] == Profile(users[k])
  {
    var sorted := SortDesc(users, CreatedKey());
    ProfilesOfPermutation(sorted, users);
    var body := Map(sorted, ProfileOf());
    Ok(200, body)
  }

  /** The listing is in creation order, newest first: it projects a
      permutation of the users whose `createdAt` never increases. */
  lemma ListUsersNewestFirst(users: seq<User>)
    ensures exists s :: multiset(s) == multiset(users) && SortedDesc(s, CreatedKey())
                        && ListUsers(users).body == Map(s, ProfileOf())
  {
    var s := SortDesc(users, CreatedKey());
    assert ListUsers(users).body == Map(s, ProfileOf());
  }

  /** The listing is the same whatever the stored password hashes are. */
  lemma {:induction false} ListUsersIgnoresPasswords(users: seq<User>, others: seq<User>)
    requires Map(users, Strip()) == Map(others, Strip())
    ensures ListUsers(users) == ListUsers(others)
  {
    SortDescMap(users, CreatedKey(), Strip());
    SortDescMap(others, CreatedKey(), Strip());
    var a := SortDesc(users, CreatedKey());
    var b := SortDesc(others, CreatedKey());
    assert Map(a, Strip()) == Map(b, Strip());
    assert |a| == |Map(a, Strip())| == |b|;
    forall i | 0 <= i < |a| ensures Profile(a[i]) == Profile(b[i]) {
      assert Map(a, Strip())[i] == Map(b, Strip())[i];
      ProfileIgnoresPassword(a[i], "");
      ProfileIgnoresPassword(b[i], "");
    }
    assert Map(a, ProfileOf()) == Map(b, ProfileOf());
  }

  /** GET /:id. */
  function GetUser(users: seq<User>, id: string): (r: Response<PublicUser>)
    ensures FindUserById(users, id).None? <==> r == Error(404, "User not found")
    ensures r.Ok? ==> exists k :: 0 <= k < |users| && users[k].id == id && r == Ok(200, Profile(users[k]))
  {
    match FindUserById(users, id)
    case None => Error(404, "User not found")
    case Some(k) => Ok(200, Profile(users[k]))
  }

  // ---------------------------------------------------------------------
  // Update
  // ---------------------------------------------------------------------

  /** The update body: `None` for a key the body does not carry, and the
      empty string for a missing or empty password. A carried
      `graduationYear` is a number or, for the empty string the profile
      form sends, `None`: Mongoose casts it to null. */
  datatype UserPatch = UserPatch(
    name: Option<string>, major: Option<string>, graduationYear: Option<Option<int>>,
    resume: Option<string>, profileComplete: Option<bool>, phone: Option<string>,
    skills: Option<seq<string>>, gpa: Option<string>, company: Option<string>,
    position: Option<string>, password: string)

  const AllowedUpdates: seq<string> :=
    ["name", "major", "graduationYear", "resume", "profileComplete", "phone", "skills", "gpa",
     "company", "position"]

  /** A carried key's value, or the current one. */
  function KeepOr<T>(o: Option<T>, current: T): T {
    if o.Some? then o.value else current
  }

  /** A carried string key through the trim setter, or the current value. */
  function TrimmedOr(o: Option<string>, current: Option<string>): Option<string> {
    if o.Some? then Some(Trim(o.value)) else current
  }

  function SkillsOr(o: Option<seq<string>>, current: seq<string>): seq<string> {
    if o.Some? then TrimEach(o.value) else current
  }

  function YearOr(o: Option<Option<int>>, current: Option<int>): Option<int> {
    if o.Some? then o.value else current
  }

  function NameOr(o: Option<string>, current: string): string {
    if o.Some? then Trim(o.value) else current
  }

  /** One step of the whitelist loop: `user[field] = body[field]` through
      the schema's trim setters, when the body carries the key. */
  function AssignAllowed(u: User, p: UserPatch, field: string): User {
    if field == "name" then u.(name := NameOr(p.name, u.name))
    else if field == "major" then u.(major := TrimmedOr(p.major, u.major))
    else if field == "graduationYear" then u.(graduationYear := YearOr(p.graduationYear, u.graduationYear))
    else if field == "resume" then u.(resume := TrimmedOr(p.resume, u.resume))
    else if field == "profileComplete" then u.(profileComplete := KeepOr(p.profileComplete, u.profileComplete))
    else if field == "phone" then u.(phone := TrimmedOr(p.phone, u.phone))
    else if field == "skills" then u.(skills := SkillsOr(p.skills, u.skills))
    else if field == "gpa" then u.(gpa := TrimmedOr(p.gpa, u.gpa))
    else if field == "company" then u.(company := TrimmedOr(p.company, u.company))
    else if field == "position" then u.(position := TrimmedOr(p.position, u.position))
    else u
  }

  function AssignAll(u: User, p: UserPatch, fields: seq<string>): User
    decreases |fields|
  {
    if fields == [] then u else AssignAll(AssignAllowed(u, p, fields[0]), p, fields[1..])
  }

  /** Reference definition of the whitelist update, field by field: a key
      the body carries replaces the value, every other field stays. */
  function Patched(u: User, p: UserPatch): (r: User)
    ensures r.id == u.id && r.email == u.email && r.password == u.password && r.role == u.role
    ensures r.certificates == u.certificates && r.projects == u.projects
    ensures r.experience == u.experience && r.socialLinks == u.socialLinks && r.createdAt == u.createdAt
  {
    u.(name := NameOr(p.name, u.name),
       major := TrimmedOr(p.major, u.major),
       graduationYear := YearOr(p.graduationYear, u.graduationYear),
       resume := TrimmedOr(p.resume, u.resume),
       profileComplete := KeepOr(p.profileComplete, u.profileComplete),
       phone := TrimmedOr(p.phone, u.phone),
       skills := SkillsOr(p.skills, u.skills),
       gpa := TrimmedOr(p.gpa, u.gpa),
       company := TrimmedOr(p.company, u.company),
       position := TrimmedOr(p.position, u.position))
  }

  /** The loop over the whitelist computes the reference update. */
  lemma {:induction false} AllowedUpdatesPatch(u: User, p: UserPatch)
    ensures AssignAll(u, p, AllowedUpdates) == Patched(u, p)
  {
    var f := AllowedUpdates;
    var u1 := AssignAllowed(u, p, f[0]);
    var u2 := AssignAllowed(u1, p, f[1]);
    var u3 := AssignAllowed(u2, p, f[2]);
    var u4 := AssignAllowed(u3, p, f[3]);
    var u5 := AssignAllowed(u4, p, f[4]);
    var u6 := AssignAllowed(u5, p, f[5]);
    var u7 := AssignAllowed(u6, p, f[6]);
    var u8 := AssignAllowed(u7, p, f[7]);
    var u9 := AssignAllowed(u8, p, f[8]);
    var u10 := AssignAllowed(u9, p, f[9]);
    assert AssignAll(u10, p, f[10..]) == u10;
    assert AssignAll(u9, p, f[9..]) == u10;
    assert AssignAll(u8, p, f[8..]) == u10;
    assert AssignAll(u7, p, f[7..]) == u10;
    assert AssignAll(u6, p, f[6..]) == u10;
    assert AssignAll(u5, p, f[5..]) == u10;
    assert AssignAll(u4, p, f[4..]) == u10;
    assert AssignAll(u3, p, f[3..]) == u10;
    assert AssignAll(u2, p, f[2..]) == u10;
    assert AssignAll(u1, p, f[1..]) == u10;
    assert f[0..] == f;
  }

  /** The document after the update body: the whitelist, then the
      password when a non-empty one is given. */
  function Edited(u: User, p: UserPatch): (r: User)
    ensures r.password == if p.password != "" then p.password else u.password
    ensures r.(password := u.password) == Patched(u, p)
  {
    Patched(u, p).(password := if p.password != "" then p.password else u.password)
  }

  /** What the update stores once validation passes: the new password
      hashed, an unchanged one kept as stored. */
  function StoredAfterUpdate(u: User, p: UserPatch, hash: string -> string): (r: User)
    ensures p.password != "" ==> r == Patched(u, p).(password := hash(p.password))
    ensures p.password == "" ==> r == Patched(u, p)
  {
    if p.password != "" then Edited(u, p).(password := hash(p.password)) else Edited(u, p)
  }

  /** An update keeps the collection valid when the new name passes
      validation: the name is trimmed and every other validated field
      (id, email, experience) is unchanged. */
  lemma UpdateKeepsUsersValid(users: seq<User>, k: nat, p: UserPatch, hash: string -> string)
    requires UsersValid(users) && k < |users| && ValidationErrors(Edited(users[k], p)) == []
    ensures UsersValid(users[k := StoredAfterUpdate(users[k], p, hash)])
  {
    var before := users[k];
    var u := StoredAfterUpdate(before, p, hash);
    assert PassesValidation(Edited(before, p));
    assert u.name == Edited(before, p).name == NameOr(p.name, before.name);
    assert u.id == before.id && u.email == before.email && u.experience == before.experience;
    if p.name.Some? {
      TrimIdempotent(p.name.value);
    }
    assert NameTrimmed(u.name);
    var r := users[k := u];
    forall i | 0 <= i < |r| ensures r[i].id == users[i].id && r[i].email == users[i].email && UserValid(r[i]) {
    }
  }

  /** The whitelist loop over a loaded document. */
  method ApplyWhitelist(doc: UserDocument, p: UserPatch)
    modifies doc
    ensures doc.record == Patched(old(doc.record), p)
    ensures doc.passwordModified == old(doc.passwordModified)
  {
    ghost var start := doc.record;
    var rest := AllowedUpdates;
    while rest != []
      invariant doc.passwordModified == old(doc.passwordModified)
      invariant AssignAll(doc.record, p, rest) == AssignAll(start, p, AllowedUpdates)
      decreases |rest|
    {
      doc.record := AssignAllowed(doc.record, p, rest[0]);
      rest := rest[1..];
    }
    AllowedUpdatesPatch(start, p);
  }

  /** PUT /:id. */
  method UpdateUser(users: UserCollection, id: string, p: UserPatch, hash: string -> string)
    returns (r: Response<PublicUser>)
    requires users.Valid()
    modifies users
    ensures users.Valid()
    ensures FindUserById(old(users.users), id).None? ==>
              r == Error(404, "User not found") && users.users == old(users.users)
    ensures FindUserById(old(users.users), id).Some? ==>
              var k := FindUserById(old(users.users), id).value;
              var u := old(users.users)[k];
              (ValidationErrors(Edited(u, p)) != [] ==>
                 r == Error(500, ServerError) && users.users == old(users.users))
              && (ValidationErrors(Edited(u, p)) == [] ==>
                    users.users == old(users.users)[k := StoredAfterUpdate(u, p, hash)]
                    && r == Ok(200, Profile(StoredAfterUpdate(u, p, hash))))
  {
    var found := FindUserById(users.users, id);
    if found.None? {
      return Error(404, "User not found");
    }
    var k := found.value;
    var u := users.users[k];
    var doc := new UserDocument.Load(u);
    ApplyWhitelist(doc, p);
    if p.password != "" {
      doc.SetPassword(p.password);
    }
    var errors := doc.Save(hash);
    if errors != [] {
      return Error(500, ServerError);
    }
    UpdateKeepsUsersValid(users.users, k, p, hash);
    users.users := users.users[k := doc.record];
    r := Ok(200, Profile(doc.record));
  }
}
