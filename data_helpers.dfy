/** The in-memory data layer (lib/data.js): the seed users and jobs and
    the lookup helpers over them. The user records are never changed; the
    jobs array is the one the in-memory applications route mutates, so the
    job helpers take its current contents as a parameter. A key a seed
    record lacks is the empty string (or `None`, `[]`). The long prose
    values of the seed (descriptions, requirements, benefits, resumes,
    cover letters) are abbreviated to their opening words. */
module DataHelpers {
  import opened Common
  import opened JobSchema

  /** A seed user record: student, recruiter or admin. */
  datatype Member = Member(
    id: string,
    email: string,
    password: string,
    name: string,
    major: string,
    graduationYear: Option<int>,
    resume: string,
    profileComplete: bool,
    applications: seq<string>,
    phone: string,
    skills: seq<string>,
    gpa: string,
    company: string,
    position: string,
    jobs: seq<string>)

  /** `{ ...user, role }`. */
  datatype Tagged = Tagged(member: Member, role: string)

  // ---------------------------------------------------------------------
  // Seed data
  // ---------------------------------------------------------------------

  function StudentRecord(id: string, email: string, name: string, major: string, year: int,
                         resume: string, complete: bool, apps: seq<string>, phone: string,
                         skills: seq<string>, gpa: string): Member {
    Member(id, email, "password123", name, major, Some(year), resume, complete, apps, phone,
           skills, gpa, "", "", [])
  }

  function RecruiterRecord(id: string, email: string, name: string, company: string,
                           position: string, jobs: seq<string>, phone: string): Member {
    Member(id, email, "password123", name, "", None, "", false, [], phone, [], "", company,
           position, jobs)
  }

  const SeedStudent1: Member :=
    StudentRecord("student1", "john.doe@student.bubt.edu", "John Doe",
      "Computer Science & Engineering", 2025, "Passionate full-stack developer", true,
      ["job1", "job3", "job4"], "+880 1712-345678",
      ["React", "Node.js", "Python", "MongoDB", "JavaScript", "TypeScript"], "3.85")

  const SeedStudent2: Member :=
    StudentRecord("student2", "jane.smith@student.bubt.edu", "Jane Smith",
      "Business Administration", 2024, "Dynamic marketing professional", true,
      ["job2", "job5"], "+880 1798-765432",
      ["Digital Marketing", "Content Creation", "Analytics", "Social Media", "Adobe Creative Suite"], "3.92")

  const SeedStudent3: Member :=
    StudentRecord("student3", "mike.johnson@student.bubt.edu", "Mike Johnson",
      "Electrical & Electronic Engineering", 2025, "Electronics enthusiast", false,
      ["job6"], "+880 1634-567890",
      ["Arduino", "Raspberry Pi", "C/C++", "Circuit Design", "IoT"], "3.67")

  const SeedStudent4: Member :=
    StudentRecord("student4", "sarah.ahmed@student.bubt.edu", "Sarah Ahmed",
      "Textile Engineering", 2024, "Textile engineering student", true,
      ["job7"], "+880 1876-543210",
      ["Quality Control", "Textile Technology", "Sustainability", "CAD Design"], "3.78")

  const SeedStudent5: Member :=
    StudentRecord("student5", "rahul.hasan@student.bubt.edu", "Rahul Hasan",
      "Civil Engineering", 2025, "Aspiring civil engineer", true,
      ["job8"], "+880 1923-456789",
      ["AutoCAD", "Project Management", "Structural Design", "Site Management"], "3.71")

  /** The students, in seed order. */
  const SeedStudents: seq<Member> := [SeedStudent1, SeedStudent2, SeedStudent3, SeedStudent4, SeedStudent5]

  const SeedRecruiter1: Member :=
    RecruiterRecord("recruiter1", "hr@techcorp.com", "Sarah Wilson", "TechCorp Bangladesh",
      "Senior HR Manager", ["job1", "job2"], "+880 1711-234567")

  const SeedRecruiter2: Member :=
    RecruiterRecord("recruiter2", "recruiter2@company.com", "David Chen", "Innovatix Solutions",
      "Head of Talent Acquisition", ["job3", "job4"], "+880 1812-345678")

  const SeedRecruiter3: Member :=
    RecruiterRecord("recruiter3", "recruiter3@company.com", "Fatima Rahman", "Digital Dynamics Ltd",
      "Recruitment Specialist", ["job5", "job6"], "+880 1934-567890")

  /** The recruiters, in seed order. */
  const SeedRecruiters: seq<Member> := [SeedRecruiter1, SeedRecruiter2, SeedRecruiter3]

  const SeedAdmin: Member :=
    Member("admin1", "admin@bubt.edu", "admin123", "Admin User", "", None, "", false, [], "", [],
           "", "", "", [])

  function SeedJob(id: string, title: string, company: string, description: string,
                   requirements: string, benefits: string, department: string, jobType: string,
                   salary: string, skills: seq<string>, postedBy: string, posted: int,
                   deadline: int, apps: seq<Application>): Job {
    Job(id, title, company, description, requirements, Some(benefits), Some(department), jobType,
        "Dhaka, Bangladesh", Some(salary), skills, postedBy, posted, Some(deadline), apps)
  }

  const SeedJob1: Job :=
    SeedJob("job1", "Frontend Developer", "TechCorp Bangladesh",
      "We are looking for a passionate Frontend Developer", "Bachelor's degree in Computer Science",
      "Competitive salary", "Engineering", "Full-time", "BDT 60,000 - 80,000",
      ["React", "JavaScript", "HTML/CSS", "TypeScript", "Git"], "recruiter1", 20240201, 20240301,
      [Application("app1", "student1", "John Doe", "john.doe@student.bubt.edu", 20240205, "Interview",
                   "I am very interested in this position"),
       Application("app4", "student3", "Mike Johnson", "mike.johnson@student.bubt.edu", 20240203, "Pending",
                   "Although my background is in electronics")])

  const SeedJob2: Job :=
    SeedJob("job2", "Marketing Intern", "TechCorp Bangladesh",
      "Exciting opportunity for marketing students", "Currently pursuing degree in Marketing",
      "Stipend", "Marketing", "Internship", "BDT 15,000 (stipend)",
      ["Social Media", "Content Creation", "Analytics", "Communication"], "recruiter1", 20240202, 20240225,
      [Application("app2", "student2", "Jane Smith", "jane.smith@student.bubt.edu", 20240206, "Reviewed",
                   "I am excited about this marketing internship opportunity")])

  const SeedJob3: Job :=
    SeedJob("job3", "Software Engineer", "Innovatix Solutions",
      "Join our innovative software development team", "Bachelor's degree in Computer Science",
      "Competitive salary", "Engineering", "Full-time", "BDT 70,000 - 90,000",
      ["Python", "Java", "Node.js", "MongoDB", "AWS", "Docker"], "recruiter2", 20240203, 20240305,
      [Application("app3", "student1", "John Doe", "john.doe@student.bubt.edu", 20240207, "Pending",
                   "I would love to join your innovative team")])

  const SeedJob4: Job :=
    SeedJob("job4", "UI/UX Designer", "Innovatix Solutions",
      "We are seeking a creative UI/UX Designer", "Bachelor's degree in Design",
      "Competitive salary", "Design", "Full-time", "BDT 55,000 - 75,000",
      ["Figma", "Adobe XD", "Photoshop", "User Research", "Prototyping"], "recruiter2", 20240204, 20240310,
      [])

  const SeedJob5: Job :=
    SeedJob("job5", "Digital Marketing Specialist", "Digital Dynamics Ltd",
      "Looking for a Digital Marketing Specialist", "Bachelor's degree in Marketing",
      "Competitive salary", "Marketing", "Full-time", "BDT 45,000 - 65,000",
      ["Google Ads", "Facebook Ads", "SEO", "Analytics", "Content Marketing"], "recruiter3", 20240205, 20240315,
      [Application("app5", "student2", "Jane Smith", "jane.smith@student.bubt.edu", 20240208, "Pending",
                   "My experience in digital marketing")])

  const SeedJob6: Job :=
    SeedJob("job6", "Electronics Engineer", "Digital Dynamics Ltd",
      "Join our hardware team as an Electronics Engineer", "Bachelor's degree in Electrical/Electronics Engineering",
      "Competitive salary", "Hardware", "Full-time", "BDT 50,000 - 70,000",
      ["Circuit Design", "PCB Layout", "Arduino", "Embedded Systems", "IoT"], "recruiter3", 20240206, 20240320,
      [Application("app6", "student3", "Mike Johnson", "mike.johnson@student.bubt.edu", 20240209, "Reviewed",
                   "My background in electronics engineering")])

  const SeedJob7: Job :=
    SeedJob("job7", "Quality Control Manager", "Textile Innovations Ltd",
      "Seeking an experienced Quality Control Manager", "Bachelor's degree in Textile Engineering",
      "Competitive salary", "Quality Assurance", "Full-time", "BDT 55,000 - 75,000",
      ["Quality Control", "Testing Procedures", "ISO Standards", "Team Leadership"], "recruiter1", 20240207, 20240325,
      [Application("app7", "student4", "Sarah Ahmed", "sarah.ahmed@student.bubt.edu", 20240210, "Interview",
                   "My textile engineering background")])

  const SeedJob8: Job :=
    SeedJob("job8", "Project Engineer", "Construction Solutions Ltd",
      "Looking for a Project Engineer", "Bachelor's degree in Civil Engineering",
      "Competitive salary", "Engineering", "Full-time", "BDT 40,000 - 60,000",
      ["Project Management", "AutoCAD", "Construction Management", "Team Coordination"], "recruiter2", 20240208, 20240330,
      [Application("app8", "student5", "Rahul Hasan", "rahul.hasan@student.bubt.edu", 20240211, "Pending",
                   "My civil engineering education")])

  /** The jobs, in seed order. */
  const SeedJobs: seq<Job> := [SeedJob1, SeedJob2, SeedJob3, SeedJob4, SeedJob5, SeedJob6, SeedJob7, SeedJob8]

  /** The seed already obeys the one-application-per-student rule. */
  lemma SeedNoDuplicateApplicants()
    ensures forall i :: 0 <= i < |SeedJobs| ==> NoDuplicateApplicants(SeedJobs[i].applications)
  {
    assert SeedJobs[0].applications[0].studentId != SeedJobs[0].applications[1].studentId;
  }

  // ---------------------------------------------------------------------
  // Users
  // ---------------------------------------------------------------------

  /** `find(u => u.email === email)`: first exact match. */
  function FindMemberByEmail(ms: seq<Member>, email: string): (r: Option<nat>)
    ensures r.Some? ==> r.value < |ms| && ms[r.value].email == email
    ensures r.Some? ==> forall k :: 0 <= k < r.value ==> ms[k].email != email
    ensures r.None? ==> forall k :: 0 <= k < |ms| ==> ms[k].email != email
  {
    FindFirst(ms, (m: Member) => m.email == email)
  }

  /** `find(s => s.id === id)`: first match. */
  function FindMemberById(ms: seq<Member>, id: string): (r: Option<nat>)
    ensures r.Some? ==> r.value < |ms| && ms[r.value].id == id
    ensures r.Some? ==> forall k :: 0 <= k < r.value ==> ms[k].id != id
    ensures r.None? ==> forall k :: 0 <= k < |ms| ==> ms[k].id != id
  {
    FindFirst(ms, (m: Member) => m.id == id)
  }

  predicate HasEmail(ms: seq<Member>, email: string) {
    exists k :: 0 <= k < |ms| && ms[k].email == email
  }

  /** `getUserByEmail`: students first, then recruiters, then the admin;
      the first exact (case-sensitive) match wins and is tagged with its
      role. */
  function GetUserByEmail(students: seq<Member>, recruiters: seq<Member>, admin: Member,
                          email: string): (r: Option<Tagged>)
    ensures r.Some? ==> r.value.member.email == email
    ensures r.None? <==> !HasEmail(students, email) && !HasEmail(recruiters, email) && admin.email != email
    ensures r.Some? && r.value.role == "student" <==> HasEmail(students, email)
    ensures r.Some? && r.value.role == "recruiter" <==> !HasEmail(students, email) && HasEmail(recruiters, email)
    ensures r.Some? && r.value.role == "admin" <==>
              !HasEmail(students, email) && !HasEmail(recruiters, email) && admin.email == email
    ensures r.Some? && r.value.role == "student" ==>
              r.value.member == students[FindMemberByEmail(students, email).value]
    ensures r.Some? && r.value.role == "recruiter" ==>
              r.value.member == recruiters[FindMemberByEmail(recruiters, email).value]
    ensures r.Some? && r.value.role == "admin" ==> r.value.member == admin
  {
    match FindMemberByEmail(students, email)
    case Some(i) => Some(Tagged(students[i], "student"))
    case None =>
      match FindMemberByEmail(recruiters, email)
      case Some(i) => Some(Tagged(recruiters[i], "recruiter"))
      case None => if admin.email == email then Some(Tagged(admin, "admin")) else None
  }

  /** Matching is exact: an address that differs from every seed address
      only in letter case finds nobody. */
  lemma GetUserByEmailCaseSensitive()
    ensures GetUserByEmail(SeedStudents, SeedRecruiters, SeedAdmin, "John.Doe@student.bubt.edu").None?
    ensures GetUserByEmail(SeedStudents, SeedRecruiters, SeedAdmin, "john.doe@student.bubt.edu").Some?
  {
    var e := "John.Doe@student.bubt.edu";
    assert FindMemberByEmail(SeedStudents, e).None? by {
      forall k | 0 <= k < |SeedStudents| ensures SeedStudents[k].email != e {
        assert SeedStudents[k].email[0] != e[0];
      }
    }
    assert FindMemberByEmail(SeedRecruiters, e).None? by {
      forall k | 0 <= k < |SeedRecruiters| ensures SeedRecruiters[k].email != e {
        assert SeedRecruiters[k].email[0] != e[0];
      }
    }
    assert SeedAdmin.email[0] != e[0];
    assert FindMemberByEmail(SeedStudents, "john.doe@student.bubt.edu") == Some(0);
  }

  // ---------------------------------------------------------------------
  // Jobs
  // ---------------------------------------------------------------------

  /** `getJobById`: the first job with that id, if any. */
  function GetJobById(jobs: seq<Job>, id: string): (r: Option<Job>)
    ensures r.Some? ==> r.value in jobs && r.value.id == id
    ensures r.Some? ==> exists k :: 0 <= k < |jobs| && jobs[k] == r.value && forall m :: 0 <= m < k ==> jobs[m].id != id
    ensures r.None? <==> forall k :: 0 <= k < |jobs| ==> jobs[k].id != id
  {
    match FindJob(jobs, id)
    case None => None
    case Some(k) => Some(jobs[k])
  }

  function PostedBy(recruiterId: string): Job -> bool {
    (j: Job) => j.postedBy == recruiterId
  }

  /** `getJobsByRecruiter`: exactly the jobs posted by that recruiter, in
      their original order. */
  function GetJobsByRecruiter(jobs: seq<Job>, recruiterId: string): (r: seq<Job>)
    ensures forall j :: j in r <==> j in jobs && j.postedBy == recruiterId
    ensures IsSubseq(r, jobs)
  {
    FilterEach(jobs, PostedBy(recruiterId));
    FilterIsSubseq(jobs, PostedBy(recruiterId));
    Filter(jobs, PostedBy(recruiterId))
  }

  // ---------------------------------------------------------------------
  // Applications of a student
  // ---------------------------------------------------------------------

  /** One row of a student's application list. */
  datatype StudentEntry = StudentEntry(
    jobId: string, jobTitle: string, company: string, appliedDate: int, status: string)

  /** The row for a job, built from the student's first application in it. */
  function EntryFor(j: Job, studentId: string): (e: StudentEntry)
    requires HasApplied(j.applications, studentId)
    ensures e.jobId == j.id && e.jobTitle == j.title && e.company == j.company
  {
    var k := FindApplicationOf(j.applications, studentId).value;
    StudentEntry(j.id, j.title, j.company, j.applications[k].appliedDate, j.applications[k].status)
  }

  /** The row copies the date and status of the student's first
      application in the job. */
  lemma EntryForFirstApplication(j: Job, studentId: string)
    requires HasApplied(j.applications, studentId)
    ensures exists k :: 0 <= k < |j.applications| && j.applications[k].studentId == studentId
              && EntryFor(j, studentId).appliedDate == j.applications[k].appliedDate
              && EntryFor(j, studentId).status == j.applications[k].status
              && forall m :: 0 <= m < k ==> j.applications[m].studentId != studentId
  {
    var k := FindApplicationOf(j.applications, studentId).value;
    assert j.applications[k].studentId == studentId;
  }

  function EntriesFor(js: seq<Job>, studentId: string): (r: seq<StudentEntry>)
    requires forall i :: 0 <= i < |js| ==> HasApplied(js[i].applications, studentId)
    ensures |r| == |js|
  {
    if js == [] then [] else [EntryFor(js[0], studentId)] + EntriesFor(js[1..], studentId)
  }

  /** The rows follow the jobs: row i is the row for job i. */
  lemma {:induction false} EntriesForAt(js: seq<Job>, studentId: string, i: nat)
    requires forall i :: 0 <= i < |js| ==> HasApplied(js[i].applications, studentId)
    requires i < |js|
    ensures EntriesFor(js, studentId)[i] == EntryFor(js[i], studentId)
  {
    if i > 0 {
      EntriesForAt(js[1..], studentId, i - 1);
    }
  }

  function Applicant(studentId: string): Job -> bool {
    (j: Job) => HasApplied(j.applications, studentId)
  }

  function AppliedJobs(jobs: seq<Job>, studentId: string): (r: seq<Job>)
    ensures forall i :: 0 <= i < |r| ==> HasApplied(r[i].applications, studentId)
  {
    FilterEach(jobs, Applicant(studentId));
    var r := Filter(jobs, Applicant(studentId));
    assert forall i :: 0 <= i < |r| ==> r[i] in r;
    r
  }

  /** The filter keeps exactly the jobs holding an application by the student. */
  lemma AppliedJobsMembers(jobs: seq<Job>, studentId: string)
    ensures forall j :: j in AppliedJobs(jobs, studentId) <==> j in jobs && HasApplied(j.applications, studentId)
  {
    FilterEach(jobs, Applicant(studentId));
  }

  /** `getApplicationsByStudent`: filter the jobs holding an application
      by the student, then map each to its row. */
  function ApplicationsByStudent(jobs: seq<Job>, studentId: string): (r: seq<StudentEntry>)
    ensures |r| <= |jobs|
  {
    EntriesFor(AppliedJobs(jobs, studentId), studentId)
  }

  lemma {:induction false} EntriesForAppend(a: seq<Job>, b: seq<Job>, studentId: string)
    requires forall i :: 0 <= i < |a| ==> HasApplied(a[i].applications, studentId)
    requires forall i :: 0 <= i < |b| ==> HasApplied(b[i].applications, studentId)
    ensures forall i :: 0 <= i < |a + b| ==> HasApplied((a + b)[i].applications, studentId)
    ensures EntriesFor(a + b, studentId) == EntriesFor(a, studentId) + EntriesFor(b, studentId)
  {
    forall i | 0 <= i < |a + b| ensures HasApplied((a + b)[i].applications, studentId) {
      if i < |a| { assert (a + b)[i] == a[i]; } else { assert (a + b)[i] == b[i - |a|]; }
    }
    if a != [] {
      assert (a + b)[1..] == a[1..] + b;
      EntriesForAppend(a[1..], b, studentId);
      assert EntriesFor(a + b, studentId)
          == [EntryFor(a[0], studentId)] + EntriesFor(a[1..] + b, studentId);
    } else {
      assert a + b == b;
    }
  }

  /** A single job contributes its row exactly when it holds an application
      by the student. */
  lemma ApplicationsByStudentSingle(j: Job, studentId: string)
    ensures ApplicationsByStudent([j], studentId)
         == if HasApplied(j.applications, studentId) then [EntryFor(j, studentId)] else []
  {
    assert [j][1..] == [];
    var applied := AppliedJobs([j], studentId);
    AppliedJobsMembers([j], studentId);
    assert applied == if HasApplied(j.applications, studentId) then [j] else [];
  }

  /** The rows follow job order: the list of a concatenation is the
      concatenation of the lists. */
  lemma ApplicationsByStudentAppend(a: seq<Job>, b: seq<Job>, studentId: string)
    ensures ApplicationsByStudent(a + b, studentId)
         == ApplicationsByStudent(a, studentId) + ApplicationsByStudent(b, studentId)
  {
    FilterAppend(a, b, Applicant(studentId));
    EntriesForAppend(AppliedJobs(a, studentId), AppliedJobs(b, studentId), studentId);
  }

  /** The row for a job whose first application by the student was found. */
  lemma EntryForFound(j: Job, studentId: string)
    requires FindApplicationOf(j.applications, studentId).Some?
    ensures HasApplied(j.applications, studentId)
    ensures var app := j.applications[FindApplicationOf(j.applications, studentId).value];
            EntryFor(j, studentId) == StudentEntry(j.id, j.title, j.company, app.appliedDate, app.status)
  {
  }

  /** One more job extends the list by that job's row, if it has one. */
  lemma ApplicationsByStudentStep(jobs: seq<Job>, i: nat, studentId: string)
    requires i < |jobs|
    ensures ApplicationsByStudent(jobs[..i + 1], studentId)
         == ApplicationsByStudent(jobs[..i], studentId)
            + if HasApplied(jobs[i].applications, studentId) then [EntryFor(jobs[i], studentId)] else []
  {
    assert jobs[..i + 1] == jobs[..i] + [jobs[i]];
    ApplicationsByStudentAppend(jobs[..i], [jobs[i]], studentId);
    ApplicationsByStudentSingle(jobs[i], studentId);
  }

  /** Every job holding an application by the student contributes its row. */
  lemma ApplicationsByStudentComplete(jobs: seq<Job>, studentId: string, k: nat)
    requires k < |jobs| && HasApplied(jobs[k].applications, studentId)
    ensures EntryFor(jobs[k], studentId) in ApplicationsByStudent(jobs, studentId)
  {
    var sel := AppliedJobs(jobs, studentId);
    AppliedJobsMembers(jobs, studentId);
    assert jobs[k] in sel;
    var m :| 0 <= m < |sel| && sel[m] == jobs[k];
    EntriesForAt(sel, studentId, m);
    assert ApplicationsByStudent(jobs, studentId)[m] == EntryFor(jobs[k], studentId);
  }

  /** Every row comes from a job holding an application by the student. */
  lemma ApplicationsByStudentSound(jobs: seq<Job>, studentId: string, e: StudentEntry)
    requires e in ApplicationsByStudent(jobs, studentId)
    ensures exists k :: 0 <= k < |jobs| && HasApplied(jobs[k].applications, studentId)
              && e == EntryFor(jobs[k], studentId)
  {
    var sel := AppliedJobs(jobs, studentId);
    AppliedJobsMembers(jobs, studentId);
    var r := ApplicationsByStudent(jobs, studentId);
    var m :| 0 <= m < |r| && r[m] == e;
    EntriesForAt(sel, studentId, m);
    assert e == EntryFor(sel[m], studentId);
    assert sel[m] in jobs;
    var k :| 0 <= k < |jobs| && jobs[k] == sel[m];
  }

  // ---------------------------------------------------------------------
  // Applications of a job
  // ---------------------------------------------------------------------

  /** One row of a job's applicant list, with the student's details. */
  datatype JobEntry = JobEntry(
    id: string, studentId: string, studentName: string, studentMajor: string,
    studentEmail: string, studentResume: string, appliedDate: int, status: string,
    coverLetter: string)

  /** JavaScript's `a || b` on strings. */
  function OrElse(a: string, b: string): string {
    if a != "" then a else b
  }

  /** An application joined with the student record found by its id:
      name, major and email fall back to 'Unknown', the resume to ''. */
  function LiveEntry(app: Application, students: seq<Member>): (e: JobEntry)
    ensures e.id == app.id && e.studentId == app.studentId && e.appliedDate == app.appliedDate
    ensures e.status == app.status && e.coverLetter == app.coverLetter
    ensures FindMemberById(students, app.studentId).None? ==>
              e.studentName == "Unknown" && e.studentMajor == "Unknown" && e.studentEmail == "Unknown"
              && e.studentResume == ""
    ensures FindMemberById(students, app.studentId).Some? ==>
              var s := students[FindMemberById(students, app.studentId).value];
              e.studentName == OrElse(s.name, "Unknown") && e.studentMajor == OrElse(s.major, "Unknown")
              && e.studentEmail == OrElse(s.email, "Unknown") && e.studentResume == s.resume
  {
    match FindMemberById(students, app.studentId)
    case None => JobEntry(app.id, app.studentId, "Unknown", "Unknown", "Unknown", "",
                          app.appliedDate, app.status, app.coverLetter)
    case Some(k) =>
      var s := students[k];
      JobEntry(app.id, app.studentId, OrElse(s.name, "Unknown"), OrElse(s.major, "Unknown"),
               OrElse(s.email, "Unknown"), s.resume, app.appliedDate, app.status, app.coverLetter)
  }

  function LiveEntries(apps: seq<Application>, students: seq<Member>): (r: seq<JobEntry>)
    ensures |r| == |apps|
    ensures forall i :: 0 <= i < |apps| ==> r[i] == LiveEntry(apps[i], students)
  {
    if apps == [] then [] else [LiveEntry(apps[0], students)] + LiveEntries(apps[1..], students)
  }

  /** `getApplicationsByJob`: nothing for an unknown job, otherwise one row
      per application in order, joined with the live student record. */
  function ApplicationsByJob(jobs: seq<Job>, students: seq<Member>, jobId: string): (r: seq<JobEntry>)
    ensures FindJob(jobs, jobId).None? ==> r == []
    ensures FindJob(jobs, jobId).Some? ==>
              var apps := jobs[FindJob(jobs, jobId).value].applications;
              |r| == |apps| && forall i :: 0 <= i < |apps| ==> r[i] == LiveEntry(apps[i], students)
  {
    match FindJob(jobs, jobId)
    case None => []
    case Some(k) => LiveEntries(jobs[k].applications, students)
  }

  /** The row ignores the name and email stored in the application: it
      shows the student record as it is now. */
  lemma LiveEntryIgnoresSnapshot(app: Application, students: seq<Member>, name: string, email: string)
    ensures LiveEntry(app.(studentName := name, studentEmail := email), students) == LiveEntry(app, students)
  {}

  /** ...and follows that record when it changes. */
  lemma LiveEntryFollowsStudent(app: Application, students: seq<Member>, k: nat, name: string)
    requires k < |students| && FindMemberById(students, app.studentId) == Some(k) && name != ""
    ensures LiveEntry(app, students[k := students[k].(name := name)]).studentName == name
  {
    var s2 := students[k := students[k].(name := name)];
    assert FindMemberById(s2, app.studentId) == Some(k) by {
      var p := (m: Member) => m.id == app.studentId;
      forall i | 0 <= i < |students| ensures p(students[i]) == p(s2[i]) {
        assert students[i].id == s2[i].id;
      }
      FindFirstAgree(students, p, s2, p);
    }
  }

  // ---------------------------------------------------------------------
  // The module-level arrays
  // ---------------------------------------------------------------------

  /** The module's exported arrays: the users are fixed, the jobs array
      (and the application lists inside it) is shared, mutable state. */
  class MemoryStore {
    var jobs: seq<Job>
    const students: seq<Member>
    const recruiters: seq<Member>
    const admin: Member

    /** The one-application-per-student rule in every job. */
    ghost predicate Valid()
      reads this
    {
      forall i :: 0 <= i < |jobs| ==> NoDuplicateApplicants(jobs[i].applications)
    }

    /** The state at module load: the seed constants. */
    constructor ()
      ensures jobs == SeedJobs && students == SeedStudents && recruiters == SeedRecruiters
      ensures admin == SeedAdmin
      ensures Valid()
    {
      jobs := SeedJobs;
      students := SeedStudents;
      recruiters := SeedRecruiters;
      admin := SeedAdmin;
      SeedNoDuplicateApplicants();
    }
  }
}
