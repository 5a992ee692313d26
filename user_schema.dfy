/** The user document (backend/models/User.js): roles, the role-specific
    profile fields, email normalisation, the password hook that hashes on
    save, and the serialisations that leave the password out. Password
    hashing is a parameter `hash`: bcrypt is outside the model. */
module UserSchema {
  import opened Common

  datatype Role = Student | Recruiter | Admin

  function RoleName(r: Role): string {
    match r
    case Student => "student"
    case Recruiter => "recruiter"
    case Admin => "admin"
  }

  function ParseRole(t: string): Option<Role> {
    if t == "student" then Some(Student)
    else if t == "recruiter" then Some(Recruiter)
    else if t == "admin" then Some(Admin)
    else None
  }

  /** The role enumeration is exactly student, recruiter and admin. */
  lemma ParseRoleExact(t: string)
    ensures ParseRole(t).Some? <==> t in ["student", "recruiter", "admin"]
    ensures ParseRole(t).Some? ==> RoleName(ParseRole(t).value) == t
  {}

  lemma ParseRoleName(r: Role)
    ensures ParseRole(RoleName(r)) == Some(r)
  {}

  const ExperienceTypeNames: seq<string> := ["Full-time", "Part-time", "Internship", "Volunteer", "Freelance"]

  predicate ValidExperienceType(t: string) {
    t in ExperienceTypeNames
  }

  datatype Certificate = Certificate(
    name: string, issuer: string, issueDate: Option<int>, expiryDate: Option<int>,
    credentialId: string, credentialUrl: string)

  datatype Project = Project(
    name: string, description: string, technologies: seq<string>, projectUrl: string,
    githubUrl: string, startDate: Option<int>, endDate: Option<int>, current: bool)

  datatype Experience = Experience(
    title: string, company: string, expType: Option<string>, location: string,
    startDate: Option<int>, endDate: Option<int>, current: bool, description: string)

  datatype SocialLinks = SocialLinks(
    github: string, linkedin: string, twitter: string, medium: string,
    portfolio: string, website: string)

  /** A stored user. `password` holds the hash once the document is saved. */
  datatype User = User(
    id: string,
    email: string,
    password: string,
    name: string,
    role: Role,
    major: Option<string>,
    graduationYear: Option<int>,
    resume: Option<string>,
    profileComplete: bool,
    phone: Option<string>,
    skills: seq<string>,
    gpa: Option<string>,
    certificates: seq<Certificate>,
    projects: seq<Project>,
    experience: seq<Experience>,
    socialLinks: Option<SocialLinks>,
    company: Option<string>,
    position: Option<string>,
    createdAt: int)

  const MinPasswordLength: nat := 6

  /** profileComplete's schema default. */
  const DefaultProfileComplete: bool := false

  /** The email field's setters: lower-cased and trimmed. */
  function NormalizeEmail(e: string): string {
    Trim(Lower(e))
  }

  predicate IsLowerChars(s: string) {
    forall i :: 0 <= i < |s| ==> LowerChar(s[i]) == s[i]
  }

  lemma LowerOfLowerChars(s: string)
    requires IsLowerChars(s)
    ensures Lower(s) == s
  {}

  lemma LowerCharsOfLower(s: string)
    ensures IsLowerChars(Lower(s))
  {}

  lemma {:induction false} TrimEndKeepsLowerChars(s: string)
    requires IsLowerChars(s)
    ensures IsLowerChars(TrimEnd(s))
  {
    var r := TrimEnd(s);
    TrimEndIsPrefix(s);
    assert forall i :: 0 <= i < |r| ==> r[i] == s[i];
  }

  lemma {:induction false} TrimKeepsLowerChars(s: string)
    requires IsLowerChars(s)
    ensures IsLowerChars(Trim(s))
  {
    var t := TrimStart(s);
    TrimStartIsSuffix(s);
    assert forall i :: 0 <= i < |t| ==> t[i] == s[|s| - |t| + i];
    TrimEndKeepsLowerChars(t);
  }

  /** A stored email is a fixed point of the setters, so normalising it
      again changes nothing. */
  lemma {:induction false} NormalizeEmailIdempotent(e: string)
    ensures NormalizeEmail(NormalizeEmail(e)) == NormalizeEmail(e)
  {
    var l := Lower(e);
    LowerCharsOfLower(e);
    TrimKeepsLowerChars(l);
    LowerOfLowerChars(Trim(l));
    TrimIdempotent(l);
  }

  predicate ExperienceTypesValid(exps: seq<Experience>) {
    forall i :: 0 <= i < |exps| ==> exps[i].expType.Some? ==> ValidExperienceType(exps[i].expType.value)
  }

  predicate EmailNormalized(e: string) {
    e != "" && e == NormalizeEmail(e)
  }

  predicate NameTrimmed(n: string) {
    n != "" && n == Trim(n)
  }

  /** What the validators and setters guarantee of a saved document. */
  predicate UserValid(u: User) {
    u.id != "" && EmailNormalized(u.email) && NameTrimmed(u.name) && ExperienceTypesValid(u.experience)
  }

  // ---------------------------------------------------------------------
  // Validation
  // ---------------------------------------------------------------------

  /** What Mongoose's validators accept: the three required strings are
      non-empty, the password meets the minimum length, and every
      experience type is in its enumeration. The role is a `Role`, so its
      enumeration holds by construction. */
  predicate PassesValidation(u: User) {
    u.email != "" && u.password != "" && Utf16Length(u.password) >= MinPasswordLength && u.name != ""
    && ExperienceTypesValid(u.experience)
  }

  /** The enumeration errors of the experience entries, in list order. */
  function ExperienceErrors(exps: seq<Experience>): (errs: seq<string>)
    ensures errs == [] <==> ExperienceTypesValid(exps)
  {
    if exps == [] then []
    else
      (if exps[0].expType.Some? && !ValidExperienceType(exps[0].expType.value)
       then ["`" + exps[0].expType.value + "` is not a valid enum value for path `type`."]
       else [])
      + ExperienceErrors(exps[1..])
  }

  function PasswordErrors(p: string): (errs: seq<string>)
    ensures errs == [] <==> p != "" && Utf16Length(p) >= MinPasswordLength
  {
    if p == "" then ["Path `password` is required."]
    else if Utf16Length(p) < MinPasswordLength then
      ["Path `password` (`" + p + "`) is shorter than the minimum allowed length (6)."]
    else []
  }

  /** The trim setter strips every ECMAScript white space character, so a
      name led by an ideographic space is stored without it. */
  lemma NameTrimsIdeographicSpace()
    ensures Trim("\U{3000}Bob") == "Bob"
  {
    assert TrimStart("\U{3000}Bob") == "Bob" by {
      assert "\U{3000}Bob"[1..] == "Bob";
    }
    TrimKeepsUnpadded("Bob");
    TrimStartIsSuffix("Bob");
  }

  /** `minlength` counts UTF-16 code units: three characters outside the
      Basic Multilingual Plane are six units long and meet the minimum,
      while three plain letters do not. */
  lemma AstralPasswordMeetsMinimum()
    ensures PasswordErrors("\U{1F600}\U{1F600}\U{1F600}") == []
    ensures PasswordErrors("abc") != []
  {
    var p := "\U{1F600}\U{1F600}\U{1F600}";
    assert p[1..][1..][1..] == [];
    assert Utf16Length(p[1..][1..]) == 2;
    assert Utf16Length(p) == 6;
  }

  /** The messages of the failing validators, one per path, in schema
      order. */
  function ValidationErrors(u: User): (errs: seq<string>)
    ensures errs == [] <==> PassesValidation(u)
  {
    (if u.email == "" then ["Path `email` is required."] else [])
    + PasswordErrors(u.password)
    + (if u.name == "" then ["Path `name` is required."] else [])
    + ExperienceErrors(u.experience)
  }

  /** A saved user has a name and an email, as the application snapshot
      needs. */
  lemma ValidUserHasNameAndEmail(u: User)
    requires UserValid(u)
    ensures u.name != "" && u.email != ""
  {}

  /** The collection invariant: validators hold, ids and the (normalised)
      emails are unique. */
  predicate UsersValid(users: seq<User>) {
    && UniqueEmails(users) && UniqueUserIds(users)
    && forall i :: 0 <= i < |users| ==> UserValid(users[i])
  }

  predicate UniqueEmails(users: seq<User>) {
    forall i, j :: 0 <= i < j < |users| ==> users[i].email != users[j].email
  }

  /** Two positions holding the same email are the same position. */
  lemma UniqueEmailAt(users: seq<User>, i: nat, k: nat)
    requires UniqueEmails(users) && i < |users| && k < |users|
    requires users[i].email == users[k].email
    ensures i == k
  {
  }

  predicate UniqueUserIds(users: seq<User>) {
    forall i, j :: 0 <= i < j < |users| ==> users[i].id != users[j].id
  }

  predicate EmailTaken(users: seq<User>, email: string) {
    exists i :: 0 <= i < |users| && users[i].email == email
  }

  /** `findOne({ email })`: the first user with exactly this stored email. */
  function FindUserByEmail(users: seq<User>, email: string): (r: Option<nat>)
    ensures r.Some? ==> r.value < |users| && users[r.value].email == email
    ensures r.None? <==> !EmailTaken(users, email)
  {
    FindFirst(users, (u: User) => u.email == email)
  }

  /** `findById`. */
  function FindUserById(users: seq<User>, id: string): (r: Option<nat>)
    ensures r.Some? ==> r.value < |users| && users[r.value].id == id
    ensures r.None? ==> forall k :: 0 <= k < |users| ==> users[k].id != id
  {
    FindFirst(users, (u: User) => u.id == id)
  }

  /** `bcrypt.compare`: the candidate's hash is the stored one. */
  predicate PasswordMatches(hash: string -> string, stored: string, candidate: string) {
    hash(candidate) == stored
  }

  // ---------------------------------------------------------------------
  // Serialisations
  // ---------------------------------------------------------------------

  /** `toJSON`: the document with the password key deleted. */
  datatype UserJson = UserJson(
    id: string, email: string, name: string, role: Role,
    major: Option<string>, graduationYear: Option<int>, resume: Option<string>,
    profileComplete: bool, phone: Option<string>, skills: seq<string>, gpa: Option<string>,
    certificates: seq<Certificate>, projects: seq<Project>, experience: seq<Experience>,
    socialLinks: Option<SocialLinks>, company: Option<string>, position: Option<string>,
    createdAt: int)

  function ToJSON(u: User): (j: UserJson)
    ensures j.id == u.id && j.email == u.email && j.name == u.name && j.role == u.role
    ensures j.major == u.major && j.graduationYear == u.graduationYear && j.resume == u.resume
    ensures j.profileComplete == u.profileComplete && j.phone == u.phone && j.skills == u.skills
    ensures j.gpa == u.gpa && j.certificates == u.certificates && j.projects == u.projects
    ensures j.experience == u.experience && j.socialLinks == u.socialLinks
    ensures j.company == u.company && j.position == u.position && j.createdAt == u.createdAt
  {
    UserJson(u.id, u.email, u.name, u.role, u.major, u.graduationYear, u.resume,
             u.profileComplete, u.phone, u.skills, u.gpa, u.certificates, u.projects,
             u.experience, u.socialLinks, u.company, u.position, u.createdAt)
  }

  /** The password never reaches the serialised user: two documents that
      differ only in their password serialise identically. */
  lemma ToJSONIgnoresPassword(u: User, p: string)
    ensures ToJSON(u.(password := p)) == ToJSON(u)
  {}

  /** The user object the auth and users routes send (id, email, name,
      role and the profile fields); it has no password key. */
  datatype PublicUser = PublicUser(
    id: string, email: string, name: string, role: string,
    major: Option<string>, graduationYear: Option<int>, resume: Option<string>,
    profileComplete: bool, phone: Option<string>, skills: seq<string>, gpa: Option<string>,
    company: Option<string>, position: Option<string>)

  function Profile(u: User): (p: PublicUser)
    ensures p.id == u.id && p.email == u.email && p.name == u.name && p.role == RoleName(u.role)
    ensures p.major == u.major && p.graduationYear == u.graduationYear && p.resume == u.resume
    ensures p.profileComplete == u.profileComplete && p.phone == u.phone && p.skills == u.skills
    ensures p.gpa == u.gpa && p.company == u.company && p.position == u.position
  {
    PublicUser(u.id, u.email, u.name, RoleName(u.role), u.major, u.graduationYear, u.resume,
               u.profileComplete, u.phone, u.skills, u.gpa, u.company, u.position)
  }

  lemma ProfileIgnoresPassword(u: User, p: string)
    ensures Profile(u.(password := p)) == Profile(u)
  {}

  // ---------------------------------------------------------------------
  // Documents and the collection
  // ---------------------------------------------------------------------

  /** A loaded or new user document, with Mongoose's record of whether the
      password path was modified since the last save. */
  class UserDocument {
    var record: User
    var passwordModified: bool

    /** A document read from the collection: nothing is modified yet. */
    constructor Load(u: User)
      ensures record == u && !passwordModified
    {
      record := u;
      passwordModified := false;
    }

    /** A new document: every path, the password included, counts as
        modified. */
    constructor New(u: User)
      ensures record == u && passwordModified
    {
      record := u;
      passwordModified := true;
    }

    /** `user.password = p`. */
    method SetPassword(p: string)
      modifies this
      ensures record == old(record).(password := p) && passwordModified
    {
      record := record.(password := p);
      passwordModified := true;
    }

    /** `save()`: validation runs first, over every path of the document;
        on failure nothing is written and the errors are returned. On
        success the pre-save hook replaces the password by its hash only
        when the password was modified (otherwise the stored hash is left
        alone), and afterwards nothing counts as modified. */
    method Save(hash: string -> string) returns (errors: seq<string>)
      modifies this
      ensures errors == ValidationErrors(old(record))
      ensures errors != [] ==> record == old(record) && passwordModified == old(passwordModified)
      ensures errors == [] && old(passwordModified) ==>
                record == old(record).(password := hash(old(record).password))
      ensures errors == [] && !old(passwordModified) ==> record == old(record)
      ensures errors == [] ==> !passwordModified
    {
      errors := ValidationErrors(record);
      if errors != [] {
        return;
      }
      if passwordModified {
        record := record.(password := hash(record.password));
      }
      passwordModified := false;
    }
  }

  /** Saving twice hashes at most once: a save that fails changes nothing,
      and the save after a successful one sees an unmodified password and
      keeps the hash. */
  method SaveTwice(doc: UserDocument, hash: string -> string)
    modifies doc
    ensures doc.record.password ==
      if ValidationErrors(old(doc.record)) == [] && old(doc.passwordModified)
      then hash(old(doc.record.password)) else old(doc.record.password)
  {
    var first := doc.Save(hash);
    var second := doc.Save(hash);
  }

  /** The `users` collection, in insertion order. */
  class UserCollection {
    var users: seq<User>

    /** Saved documents pass the validators, and the unique index on the
        (normalised) email holds, as do unique ids. */
    ghost predicate Valid()
      reads this
    {
      UsersValid(users)
    }

    constructor ()
      ensures Valid() && users == []
    {
      users := [];
    }
  }
}
