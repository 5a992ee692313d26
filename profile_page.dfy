/** The student's profile editor (app/dashboard/student/profile/page.js):
    the form loaded from the session user, the skill list, the
    experience / project / certificate lists with their add, update and
    remove handlers, a project's technologies, the save request with its
    computed `profileComplete`, and cancel. A project is an object that
    the handlers for technologies change in place; every other handler
    replaces the form with an updated copy. The resume PDF is not part of
    this model. */
module ProfilePage {
  import opened Common
  import opened UserSchema
  import UsersRoute
  import opened FormLists

  /** The technology list of a project; a project without one has none. */
  function TechList(e: Entry): (r: seq<string>)
    ensures "technologies" in e && e["technologies"].Texts? ==> r == e["technologies"].texts
    ensures "technologies" !in e ==> r == []
  {
    if "technologies" in e && e["technologies"].Texts? then e["technologies"].texts else []
  }

  /** A project whose technologies, if present, are a list. */
  predicate TechnologiesWellFormed(e: Entry) {
    "technologies" in e ==> e["technologies"].Texts?
  }

  /** A project object of the form. Copies of the project list share these
      objects, so a change made here is seen through every copy. */
  class ProjectRecord {
    var fields: Entry

    constructor (fields: Entry)
      ensures this.fields == fields
    {
      this.fields := fields;
    }

    /** `addProjectTechnology` on this project: blank input is ignored; a
        missing list is created; the trimmed input is pushed unless already
        there. */
    method AddTechnology(tech: string)
      requires TechnologiesWellFormed(fields)
      modifies this
      ensures TechnologiesWellFormed(fields)
      ensures Trim(tech) == "" ==> fields == old(fields)
      ensures Trim(tech) != "" ==>
                fields == old(fields)["technologies" := Texts(AddTrimmed(TechList(old(fields)), tech))]
      ensures NoDup(TechList(old(fields))) ==> NoDup(TechList(fields))
    {
      if NoDup(TechList(fields)) {
        AddTrimmedNoDup(TechList(fields), tech);
      }
      var t := Trim(tech);
      if t == "" {
        return;
      }
      if "technologies" !in fields {
        fields := fields["technologies" := Texts([])];
      }
      var list := fields["technologies"].texts;
      if t !in list {
        fields := fields["technologies" := Texts(list + [t])];
      }
    }

    /** `removeProjectTechnology` on this project. The list must exist:
        the source calls `filter` on it unguarded. */
    method RemoveTechnology(tech: string)
      requires "technologies" in fields && fields["technologies"].Texts?
      modifies this
      ensures fields == old(fields)["technologies" := Texts(Without(TechList(old(fields)), tech))]
      ensures tech !in TechList(fields)
    {
      fields := fields["technologies" := Texts(Without(fields["technologies"].texts, tech))];
    }
  }

  const EmptyLinks: SocialLinks := SocialLinks("", "", "", "", "", "")

  /** `formData`. The graduation year is `None` for the empty field. */
  datatype ProfileForm = ProfileForm(
    name: string, major: string, graduationYear: Option<int>, resume: string, phone: string,
    gpa: string, skills: seq<string>, certificates: seq<Entry>, projects: seq<ProjectRecord>,
    experience: seq<Entry>, socialLinks: SocialLinks)

  const EmptyForm: ProfileForm := ProfileForm("", "", None, "", "", "", [], [], [], [], EmptyLinks)

  /** A year field from a stored number: `year || ''`. */
  function YearField(y: Option<int>): (r: Option<int>)
    ensures r.Some? <==> y.Some? && y.value != 0
    ensures r.Some? ==> r == y
  {
    if y.Some? && y.value != 0 then y else None
  }

  /** The form built from the session user (on load and on cancel):
      each field is the user's, or empty. The session user is the public
      projection kept in the cookie, which has no certificates, projects,
      experience or links, so those always start empty. */
  function FormOf(user: Option<PublicUser>): (f: ProfileForm)
    ensures user.None? ==> f == EmptyForm
    ensures f.certificates == [] && f.projects == [] && f.experience == [] && f.socialLinks == EmptyLinks
    ensures user.Some? ==>
              f.name == user.value.name && f.major == user.value.major.GetOr("")
              && f.graduationYear == YearField(user.value.graduationYear)
              && f.resume == user.value.resume.GetOr("") && f.phone == user.value.phone.GetOr("")
              && f.gpa == user.value.gpa.GetOr("") && f.skills == user.value.skills
  {
    match user
    case None => EmptyForm
    case Some(u) =>
      ProfileForm(u.name, u.major.GetOr(""), YearField(u.graduationYear), u.resume.GetOr(""),
                  u.phone.GetOr(""), u.gpa.GetOr(""), u.skills, [], [], [], EmptyLinks)
  }

  /** `!!(name && major && graduationYear && resume)`. */
  function ProfileComplete(f: ProfileForm): bool {
    f.name != "" && f.major != "" && f.graduationYear.Some? && f.resume != ""
  }

  /** The PUT body as the users route reads it: every form field is
      present (the empty year as null), with the computed
      `profileComplete`, and no company, position or password. The lists
      other than skills are sent too, but no whitelisted key reads them. */
  function SavePatch(f: ProfileForm): (p: UsersRoute.UserPatch)
    ensures p.name == Some(f.name) && p.major == Some(f.major) && p.graduationYear == Some(f.graduationYear)
    ensures p.resume == Some(f.resume) && p.phone == Some(f.phone) && p.gpa == Some(f.gpa)
    ensures p.skills == Some(f.skills) && p.profileComplete == Some(ProfileComplete(f))
    ensures p.company.None? && p.position.None? && p.password == ""
  {
    UsersRoute.UserPatch(Some(f.name), Some(f.major), Some(f.graduationYear), Some(f.resume),
                         Some(ProfileComplete(f)), Some(f.phone), Some(f.skills), Some(f.gpa), None, None, "")
  }

  /** What a save stores: the page's completeness flag as computed, the
      text fields trimmed, and the password, email, role and the lists
      the whitelist omits untouched. */
  lemma SaveStores(u: User, f: ProfileForm)
    ensures var r := UsersRoute.Patched(u, SavePatch(f));
            r.profileComplete == ProfileComplete(f)
            && r.name == Trim(f.name) && r.major == Some(Trim(f.major))
            && r.graduationYear == f.graduationYear && r.resume == Some(Trim(f.resume))
            && r.skills == TrimEach(f.skills)
            && r.password == u.password && r.email == u.email && r.role == u.role
            && r.certificates == u.certificates && r.projects == u.projects
            && r.experience == u.experience && r.socialLinks == u.socialLinks
  {
  }

  /** The flag is computed before the setters trim: a blank major counts
      as given, and the stored profile is complete with an empty major. */
  lemma CompleteWithBlankMajor(u: User)
    ensures var f := EmptyForm.(name := "A", major := " ", graduationYear := Some(2025), resume := "r");
            ProfileComplete(f)
            && UsersRoute.Patched(u, SavePatch(f)).major == Some("")
            && UsersRoute.Patched(u, SavePatch(f)).profileComplete
  {
    assert TrimStart(" ") == "";
    assert Trim(" ") == "";
  }

  /** The settled save request. */
  datatype SaveReply = Saved(updated: PublicUser) | Failed

  /** The page's state. `user` is the session user. */
  class StudentProfile {
    var user: Option<PublicUser>
    var form: ProfileForm
    var newSkill: string
    var isEditing: bool
    var isLoading: bool

    /** The state once loading has finished. */
    constructor (user: Option<PublicUser>)
      ensures this.user == user && form == FormOf(user)
      ensures newSkill == "" && !isEditing && !isLoading
    {
      this.user := user;
      form := FormOf(user);
      newSkill := "";
      isEditing := false;
      isLoading := false;
    }

    /** `addSkill`: the trimmed input joins the skills when new and
        non-empty, and then the input is cleared. */
    method AddSkill()
      modifies this
      ensures form == old(form).(skills := AddTrimmed(old(form).skills, old(newSkill)))
      ensures newSkill == if form.skills != old(form).skills then "" else old(newSkill)
      ensures user == old(user) && isEditing == old(isEditing) && isLoading == old(isLoading)
    {
      var t := Trim(newSkill);
      if t != "" && t !in form.skills {
        form := form.(skills := form.skills + [t]);
        newSkill := "";
      }
    }

    /** `removeSkill`. */
    method RemoveSkill(skill: string)
      modifies this
      ensures form == old(form).(skills := Without(old(form).skills, skill))
      ensures user == old(user) && newSkill == old(newSkill)
      ensures isEditing == old(isEditing) && isLoading == old(isLoading)
    {
      form := form.(skills := Without(form.skills, skill));
    }

    method AddExperience()
      modifies this
      ensures form == old(form).(experience := AddEntry(old(form).experience, DefaultExperience))
      ensures user == old(user) && newSkill == old(newSkill)
      ensures isEditing == old(isEditing) && isLoading == old(isLoading)
    {
      form := form.(experience := AddEntry(form.experience, DefaultExperience));
    }

    method UpdateExperience(i: nat, field: string, value: FormValue)
      requires i < |form.experience|
      modifies this
      ensures form == old(form).(experience := UpdateAt(old(form).experience, i, field, value))
      ensures user == old(user) && newSkill == old(newSkill)
      ensures isEditing == old(isEditing) && isLoading == old(isLoading)
    {
      form := form.(experience := UpdateAt(form.experience, i, field, value));
    }

    method RemoveExperience(i: nat)
      modifies this
      ensures form == old(form).(experience := RemoveAt(old(form).experience, i))
      ensures user == old(user) && newSkill == old(newSkill)
      ensures isEditing == old(isEditing) && isLoading == old(isLoading)
    {
      form := form.(experience := RemoveAt(form.experience, i));
    }

    method AddCertificate()
      modifies this
      ensures form == old(form).(certificates := AddEntry(old(form).certificates, DefaultCertificate))
      ensures user == old(user) && newSkill == old(newSkill)
      ensures isEditing == old(isEditing) && isLoading == old(isLoading)
    {
      form := form.(certificates := AddEntry(form.certificates, DefaultCertificate));
    }

    method UpdateCertificate(i: nat, field: string, value: FormValue)
      requires i < |form.certificates|
      modifies this
      ensures form == old(form).(certificates := UpdateAt(old(form).certificates, i, field, value))
      ensures user == old(user) && newSkill == old(newSkill)
      ensures isEditing == old(isEditing) && isLoading == old(isLoading)
    {
      form := form.(certificates := UpdateAt(form.certificates, i, field, value));
    }

    method RemoveCertificate(i: nat)
      modifies this
      ensures form == old(form).(certificates := RemoveAt(old(form).certificates, i))
      ensures user == old(user) && newSkill == old(newSkill)
      ensures isEditing == old(isEditing) && isLoading == old(isLoading)
    {
      form := form.(certificates := RemoveAt(form.certificates, i));
    }

    /** `addProject`: a new project object with the default fields at the end. */
    method AddProject()
      modifies this
      ensures |form.projects| == |old(form).projects| + 1
      ensures form.projects[..|old(form).projects|] == old(form).projects
      ensures fresh(form.projects[|old(form).projects|])
      ensures form.projects[|old(form).projects|].fields == DefaultProject
      ensures form == old(form).(projects := form.projects)
      ensures user == old(user) && newSkill == old(newSkill)
      ensures isEditing == old(isEditing) && isLoading == old(isLoading)
    {
      var p := new ProjectRecord(DefaultProject);
      form := form.(projects := form.projects + [p]);
    }

    /** `updateProject`: `{ ...updated[i], [field]: value }` is a new object
        at index i; the old object is left as it was. */
    method UpdateProject(i: nat, field: string, value: FormValue)
      requires i < |form.projects|
      modifies this
      ensures |form.projects| == |old(form).projects|
      ensures fresh(form.projects[i])
      ensures form.projects[i].fields == old(form.projects[i].fields)[field := value]
      ensures forall k :: 0 <= k < |form.projects| && k != i ==> form.projects[k] == old(form).projects[k]
      ensures form == old(form).(projects := form.projects)
      ensures user == old(user) && newSkill == old(newSkill)
      ensures isEditing == old(isEditing) && isLoading == old(isLoading)
    {
      var p := new ProjectRecord(form.projects[i].fields[field := value]);
      form := form.(projects := form.projects[i := p]);
    }

    method RemoveProject(i: nat)
      modifies this
      ensures form == old(form).(projects := RemoveAt(old(form).projects, i))
      ensures user == old(user) && newSkill == old(newSkill)
      ensures isEditing == old(isEditing) && isLoading == old(isLoading)
    {
      form := form.(projects := RemoveAt(form.projects, i));
    }

    /** `addProjectTechnology`: the project object at index i changes in
        place; the form keeps the very same objects. */
    method AddProjectTechnology(i: nat, tech: string)
      requires i < |form.projects| && TechnologiesWellFormed(form.projects[i].fields)
      modifies form.projects[i]
      ensures form == old(form)
      ensures Trim(tech) == "" ==> form.projects[i].fields == old(form.projects[i].fields)
      ensures Trim(tech) != "" ==>
                form.projects[i].fields
                == old(form.projects[i].fields)["technologies" :=
                     Texts(AddTrimmed(TechList(old(form.projects[i].fields)), tech))]
    {
      form.projects[i].AddTechnology(tech);
    }

    /** `removeProjectTechnology`, in place as well. */
    method RemoveProjectTechnology(i: nat, tech: string)
      requires i < |form.projects|
      requires "technologies" in form.projects[i].fields && form.projects[i].fields["technologies"].Texts?
      modifies form.projects[i]
      ensures form == old(form)
      ensures form.projects[i].fields
           == old(form.projects[i].fields)["technologies" := Texts(Without(TechList(old(form.projects[i].fields)), tech))]
    {
      form.projects[i].RemoveTechnology(tech);
    }

    /** `handleSave`: without a session user nothing is sent; otherwise
        the form goes out as a whitelist patch for the user's id, a saved
        reply becomes the session user and ends editing, and loading is
        over either way. */
    method HandleSave(reply: SaveReply) returns (sent: Option<(string, UsersRoute.UserPatch)>)
      modifies this
      ensures form == old(form) && newSkill == old(newSkill)
      ensures old(user).None? ==>
                sent.None? && user == old(user) && isEditing == old(isEditing) && isLoading == old(isLoading)
      ensures old(user).Some? ==> sent == Some((old(user).value.id, SavePatch(old(form)))) && !isLoading
      ensures old(user).Some? && reply.Saved? ==> user == Some(reply.updated) && !isEditing
      ensures old(user).Some? && reply.Failed? ==> user == old(user) && isEditing == old(isEditing)
    {
      if user.None? {
        return None;
      }
      isLoading := true;
      sent := Some((user.value.id, SavePatch(form)));
      if reply.Saved? {
        user := Some(reply.updated);
        isEditing := false;
      }
      isLoading := false;
    }

    /** `handleCancel`: the form is rebuilt from the session user, the
        skill input is cleared and editing ends. */
    method HandleCancel()
      modifies this
      ensures form == FormOf(old(user)) && newSkill == "" && !isEditing
      ensures user == old(user) && isLoading == old(isLoading)
    {
      form := FormOf(user);
      newSkill := "";
      isEditing := false;
    }
  }

  /** Cancel does not bring back edited lists: whatever the form held, the
      rebuilt form has no certificates, projects or experience. */
  lemma CancelDropsLists(user: Option<PublicUser>)
    ensures FormOf(user).certificates == [] && FormOf(user).experience == [] && FormOf(user).projects == []
  {
  }

  /** Saving right after cancelling writes back the session user's own
      values, apart from the trim setters and the completeness flag. */
  lemma SaveAfterCancel(u: PublicUser)
    requires u.major.Some? && u.resume.Some?
    ensures SavePatch(FormOf(Some(u))).name == Some(u.name)
    ensures SavePatch(FormOf(Some(u))).major == u.major
    ensures SavePatch(FormOf(Some(u))).profileComplete ==
              Some(u.name != "" && u.major.value != "" && YearField(u.graduationYear).Some? && u.resume.value != "")
  {
  }
}
