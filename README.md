# BUBT career and internship board: a verified model of its core

BUBT-DX is a job board for the Bangladesh University of Business and
Technology. Students browse jobs and apply, recruiters post jobs and review
applicants, and an admin oversees both. Each job document embeds its ordered
list of applications. There are two back ends over this data:

- an Express/MongoDB server (`backend/`);
- an in-memory variant (`lib/data.js` behind `app/api/applications`).

The Next.js dashboard pages keep client-side lists over the jobs and
applications.

This project models, in Dafny:

- the job and user schemas: the enumerations, required fields, defaults and
  setters, the re-hash-on-modify rule, and `toJSON`;
- the backend jobs, applications, auth and users routes. The store is a class
  holding the collection, and each route is a method over it;
- the in-memory helpers and their seed data;
- the in-memory applications route;
- the dashboard route guard;
- the list logic of the eight dashboard pages:
  - flattening, search, filters and counters;
  - the duplicate-free skill lists;
  - the index-based edits of profile lists, with the project objects as a class
    whose technology list changes in place;
  - the `profileComplete` flag;
  - the apply set;
  - the submit guards;
  - the badges.

The main invariant is kept by every write of both back ends: no job holds two
applications from the same student.

Dates are opaque ordered integers. Password hashing is a function parameter
`hash`. What a server, cookie or `fetch` answers is a parameter of the handler
that consumes it. `trim` strips exactly ECMAScript's white space and line terminators
(`Common.IsSpace`), and a string's `length` and a schema `minlength` count
UTF-16 code units (`Common.Utf16Length`).

Two behaviours of the code worth noting:

- The backend list-by-job joins the student record live (`populate`), just as
  the in-memory one does. It does not use the name and email snapshot.
- `PUT /api/users/:id` copies `profileComplete` from the body and never
  recomputes it. It is the profile page that computes it.

## Model

| member | source | states |
|---|---|---|
| JobSchema.ParseStatusName | backend/models/Job.js:21-25 | every application status has a name that parses back to it, and that name passes the enum validator |
| JobSchema.ParseStatusExact | backend/models/Job.js:21-25 | a status string is accepted iff it is one of Pending, Reviewed, Interview, Accepted, Rejected, and then names exactly that status |
| JobSchema.DefaultStatusValid | backend/models/Job.js:24 | the default status is Pending and is itself valid |
| JobSchema.ParseJobTypeExact | backend/models/Job.js:60-64 | a job type is accepted iff it is Full-time, Part-time, Contract or Internship |
| JobSchema.ParseJobTypeName | backend/models/Job.js:60-64 | every job type name parses back to its type |
| JobSchema.FindApplicationOf | backend/routes/applications.js:94-96 | the index found holds an application by the student and no earlier one does; nothing is found iff the student has no application |
| JobSchema.FindApplicationById | backend/routes/applications.js:176 | the first application with the id, or none exists |
| JobSchema.FindJob | backend/routes/jobs.js:61 | the first job with the id, or none exists |
| JobSchema.NewApplication | backend/models/Job.js:17-25 | a new application gets status Pending, the given date and the given student id, name and email |
| JobSchema.AppendKeepsNoDuplicates | backend/routes/applications.js:94-123 | appending an application by a student with none keeps the list free of duplicate students |
| JobSchema.SetStatusKeepsNoDuplicates | backend/routes/applications.js:184 | overwriting one status keeps the list free of duplicate students |
| JobSchema.ReplaceKeepsStoreValid | backend/routes/jobs.js:184 | replacing a job by a valid document with the same id keeps the store invariant: unique ids, valid documents, no duplicate applicants |
| JobSchema.AppendKeepsJobValid | backend/models/Job.js:90 | appending a valid application keeps the job valid |
| JobSchema.SetStatusKeepsJobValid | backend/models/Job.js:21-25 | setting an enum status keeps the job valid |
| JobSchema.TotalApplicationsAppend | app/dashboard/recruiter/page.js:65-68 | the application total of a concatenation of job lists is the sum of the totals |
| JobSchema.JobCollection.constructor | backend/models/Job.js:99 | an empty collection satisfies the store invariant |
| UserSchema.ParseRoleExact | backend/models/User.js:22-26 | a role is accepted iff it is student, recruiter or admin |
| UserSchema.ParseRoleName | backend/models/User.js:22-26 | every role name parses back to its role |
| UserSchema.LowerOfLowerChars | backend/models/User.js:10 | lower-casing a string with no upper-case letter changes nothing |
| UserSchema.LowerCharsOfLower | backend/models/User.js:10 | a lower-cased string has no upper-case letter |
| UserSchema.TrimEndKeepsLowerChars | backend/models/User.js:9 | trimming the end keeps a string free of upper-case letters |
| UserSchema.TrimKeepsLowerChars | backend/models/User.js:9 | trimming keeps a string free of upper-case letters |
| UserSchema.NormalizeEmailIdempotent | backend/models/User.js:5-11 | the email setters are idempotent: a stored email is a fixed point of lower-case plus trim |
| UserSchema.ExperienceErrors | backend/models/User.js:77-80 | there are no enum errors iff every experience type is Full-time, Part-time, Internship, Volunteer or Freelance |
| UserSchema.PasswordErrors | backend/models/User.js:12-16 | there are no password errors iff the password is present and at least 6 UTF-16 code units long |
| UserSchema.ValidationErrors | backend/models/User.js:4-106 | there are no validation errors iff every required field, enum and length rule of the schema holds |
| UserSchema.ValidUserHasNameAndEmail | backend/models/User.js:5-21 | a saved user has a non-empty name and email |
| UserSchema.FindUserByEmail | backend/routes/auth.js:17 | the index found holds exactly that stored email; nothing is found iff no user has it |
| UserSchema.UniqueEmailAt | backend/models/User.js:8 | under the unique email index two positions holding the same email are one position |
| UserSchema.FindUserById | backend/routes/users.js:39 | the index found has the id, or no user has it |
| UserSchema.ToJSON | backend/models/User.js:128-132 | the serialised user carries every stored field except the password |
| UserSchema.ToJSONIgnoresPassword | backend/models/User.js:128-132 | the serialisation is the same whatever the password, so it cannot reveal it |
| UserSchema.Profile | backend/routes/auth.js:37-51 | the user object the routes send holds id, email, name, role name and the profile fields of the stored user |
| UserSchema.ProfileIgnoresPassword | backend/routes/users.js:115-132 | the user object the routes send does not depend on the password |
| UserSchema.UserDocument.Load | backend/models/User.js:109-112 | a loaded document has no modified password |
| UserSchema.UserDocument.New | backend/models/User.js:109-112 | a new document counts its password as modified |
| UserSchema.UserDocument.SetPassword | backend/routes/users.js:108-110 | assigning the password marks it modified and changes nothing else |
| UserSchema.UserDocument.Save | backend/models/User.js:109-120 | validation runs first and a failing save changes nothing; the password is re-hashed iff it was modified, otherwise the stored hash is kept; afterwards nothing is modified |
| UserSchema.SaveTwice | backend/models/User.js:109-120 | two saves in a row hash a new password once, not twice |
| UserSchema.UserCollection.constructor | backend/models/User.js:134 | an empty collection satisfies the user invariant: valid documents, unique ids and unique normalised emails |
| Auth.Login | backend/routes/auth.js:6-52 | 400 without email or password; success iff the normalised (lower-cased, trimmed) email is stored and the password matches, with the public projection of that user; every other failure is 401 with one message |
| Auth.LoginFailuresAlike | backend/routes/auth.js:19-32 | an unknown email and a wrong password for a known email give the identical reply |
| Auth.LoginAccount | backend/routes/auth.js:17-35 | in a valid collection the account found is the one whose stored email is the normalised input |
| Auth.RegisterCheck | backend/routes/auth.js:76-110 | each guard message is returned iff the earlier guards pass and it fails, in the order required fields, role, domain, length in UTF-16 code units, duplicate; passing all means the role is student or recruiter |
| Auth.AdminCannotRegister | backend/routes/auth.js:83-87 | registering with role admin is always refused |
| Auth.DomainCheckIsSubstring | backend/routes/auth.js:90-94 | any lower-cased address containing @student.bubt.edu anywhere passes the domain check |
| Auth.NewUserRecord | backend/routes/auth.js:113-129 | the new user has the normalised email and the trimmed name; a student gets only major, graduation year and phone, a recruiter only company, position and phone; the profile defaults hold |
| Auth.NewUserValid | backend/models/User.js:109-120 | a record that passes validation, stored with its hashed password, is a valid user |
| Auth.AppendKeepsUsersValid | backend/models/User.js:8 | appending a valid user with a new id and a new email keeps the collection invariant |
| Auth.Register | backend/routes/auth.js:62-175 | a failed guard gives 400 with its message and no change; a validation failure gives 400 with the joined messages; otherwise exactly the hashed new user is appended and its projection returned with 201 |
| Auth.RegisterThenLogin | backend/routes/auth.js:6-175 | after a successful registration, logging in with the same email and password returns the new account's profile |
| Auth.BlankRecruiterEmailRejected | backend/routes/auth.js:76-133 | a blank recruiter email passes every guard but trims to empty and fails validation |
| BackendApplications.RowFor | backend/routes/applications.js:45-57 | an applicant row carries the application's id, date, status and letter with the live student's id, name and email, with major falling back to Unknown and resume to empty |
| BackendApplications.PopulatedRows | backend/routes/applications.js:36-58 | the rows exist iff every applicant's student document exists, one row per application in order |
| BackendApplications.ListByStudent | backend/routes/applications.js:13-31 | the forEach/push loop returns the in-memory reference listing of the student's jobs |
| BackendApplications.Get | backend/routes/applications.js:7-72 | student wins over job; unknown job gives 404, a missing student document 500, neither parameter 400 |
| BackendApplications.Apply | backend/routes/applications.js:75-148 | 400 without ids, 404 for an unknown job, 400 for a second application checked before the student lookup, 404 for an unknown student; the request succeeds exactly when every guard passes, and success appends exactly one Pending application with the student's name and email; every error leaves the store unchanged; the store invariant holds |
| BackendApplications.SetStatus | backend/routes/applications.js:151-207 | 400 for missing fields or a status outside the enum before any lookup, 404 for an unknown job or application; the request succeeds exactly when every guard passes, and success overwrites only that application's status; errors change nothing |
| BackendApplications.AnyStatusReachable | backend/routes/applications.js:161-185 | from any current status, every enum status keeps the application valid |
| BackendJobs.Selected | backend/routes/jobs.js:12-20 | exactly the recruiter's jobs, or every job without a recruiter |
| BackendJobs.PostersExistMultiset | backend/routes/jobs.js:14-15 | whether every poster exists does not depend on the order of the jobs |
| BackendJobs.ListJobs | backend/routes/jobs.js:7-56 | success iff every selected job's poster exists; the list is a permutation of the selection sorted newest first; otherwise 500 |
| BackendJobs.ListJobsMembers | backend/routes/jobs.js:9-46 | a job is listed iff it is stored and matches the recruiter filter, with its applications as stored |
| BackendJobs.GetJob | backend/routes/jobs.js:59-109 | 404 for an unknown id; otherwise the first job with the id, or 500 if its poster is missing |
| Common.Utf16Length | backend/routes/auth.js:97 | a string's JavaScript length is at least its character count and at most twice it, and equals it when no character lies outside the Basic Multilingual Plane |
| UserSchema.NameTrimsIdeographicSpace | backend/models/User.js:17-21 | the name setter strips a leading ideographic space, as every ECMAScript white space character is trimmed |
| UserSchema.AstralPasswordMeetsMinimum | backend/models/User.js:12-16 | a password of three characters outside the Basic Multilingual Plane is six code units long and passes minlength, and three letters fail it |
| Common.TrimEach | backend/models/Job.js:74-77 | each skill is trimmed, in order; the user schema's skills setter (backend/models/User.js:47-50) is the same map |
| BackendJobs.CastJobAsWritten | backend/routes/jobs.js:122-131 | the created job takes the query's recruiter over any body value and keeps a body applications array |
| BackendJobs.CastJob | backend/routes/jobs.js:122-152 | the corrected cast is the as-written cast with no applications; posting date defaults to now |
| BackendJobs.CreateAsWrittenAdmitsDuplicates | backend/routes/jobs.js:122-132 | as written, a valid created job can hold two applications from one student |
| BackendJobs.CreateKeepsStoreValid | backend/routes/jobs.js:131-132 | a valid job from the corrected cast with a fresh id keeps the store invariant |
| BackendJobs.CreateJob | backend/routes/jobs.js:112-160 | 400 and no change without postedBy; 500 and no change when the job fails validation; otherwise exactly the corrected job is appended, and the reply is 201 with no applications, or 500 if the poster is missing |
| BackendJobs.Assign | backend/routes/jobs.js:176 | assigning an updatable key never touches id, postedBy or applications |
| BackendJobs.ApplyFieldsKeepsProtected | backend/routes/jobs.js:174-178 | after any update body the id, postedBy and applications are unchanged |
| BackendJobs.AssignKeepsOthers | backend/routes/jobs.js:176 | assigning one key leaves every other key as it was |
| BackendJobs.ApplyFieldsKeepsAbsent | backend/routes/jobs.js:174-178 | a key the body does not carry keeps its stored value |
| BackendJobs.ApplyFieldsLast | backend/routes/jobs.js:174-178 | keys are applied in body order, so the last occurrence of a key wins |
| BackendJobs.UpdateJob | backend/routes/jobs.js:163-225 | 404 and no change for an unknown id; 500 and no change when the updated job fails validation; otherwise exactly that job is replaced by the copied-fields update and returned, or 500 if its poster is missing |
| BackendJobs.RemoveKeepsStoreValid | backend/routes/jobs.js:238 | removing one job keeps the store invariant |
| BackendJobs.RemoveExactly | backend/routes/jobs.js:238 | removing the found job removes exactly the jobs with that id and keeps the others |
| BackendJobs.DeleteJob | backend/routes/jobs.js:228-254 | 404 and no change for an unknown id; otherwise exactly that job goes, with its applications, and the others stay in order |
| DataHelpers.SeedNoDuplicateApplicants | lib/data.js:147-428 | no seed job holds two applications from one student |
| DataHelpers.FindMemberByEmail | lib/data.js:433-437 | the first record with exactly that email, or none has it |
| DataHelpers.FindMemberById | lib/data.js:478 | the first record with that id, or none has it |
| DataHelpers.GetUserByEmail | lib/data.js:431-444 | students first, then recruiters, then the admin; the first match is returned tagged with its role; no match iff no record has the email |
| DataHelpers.GetUserByEmailCaseSensitive | lib/data.js:433-441 | matching is exact: a capitalised seed address finds nobody, the stored one finds the student |
| DataHelpers.GetJobById | lib/data.js:446-448 | the first job with the id, or nothing iff no job has it |
| DataHelpers.GetJobsByRecruiter | lib/data.js:450-452 | exactly the jobs posted by the recruiter, in original order |
| DataHelpers.EntryFor | lib/data.js:459-469 | a student's row names the job: its id, title and company |
| DataHelpers.EntryForFirstApplication | lib/data.js:459-469 | the row copies the date and status of the student's first application in that job |
| DataHelpers.EntriesFor | lib/data.js:459-470 | one row per job |
| DataHelpers.EntriesForAt | lib/data.js:459-470 | the rows follow the jobs: row i is the row built for job i |
| DataHelpers.AppliedJobs | lib/data.js:455-458 | every job kept holds an application by the student |
| DataHelpers.AppliedJobsMembers | lib/data.js:455-458 | exactly the jobs holding an application by the student are kept |
| DataHelpers.ApplicationsByStudent | lib/data.js:454-471 | at most one row per job |
| DataHelpers.EntriesForAppend | lib/data.js:459-470 | the rows of a concatenation are the rows of each part |
| DataHelpers.ApplicationsByStudentAppend | lib/data.js:454-471 | the listing follows job order: the listing of a concatenation is the listing of each part |
| DataHelpers.ApplicationsByStudentStep | lib/data.js:454-471 | one more job extends the listing by that job's row exactly when it holds an application by the student |
| DataHelpers.EntryForFound | lib/data.js:459-469 | when the student's first application is found, the row is built from that application's date and status |
| DataHelpers.ApplicationsByStudentComplete | lib/data.js:454-471 | every job holding an application by the student contributes its row |
| DataHelpers.ApplicationsByStudentSound | lib/data.js:454-471 | every row comes from a job holding an application by the student |
| DataHelpers.LiveEntry | lib/data.js:477-485 | the row keeps the application's own keys and takes name, major and email from the student record live, falling back to Unknown, and resume to empty |
| DataHelpers.LiveEntries | lib/data.js:477-486 | one row per application, in order |
| DataHelpers.ApplicationsByJob | lib/data.js:473-487 | an unknown job gives no rows; otherwise one live row per application of the first job with the id |
| DataHelpers.LiveEntryIgnoresSnapshot | lib/data.js:478-485 | the name and email stored in the application never reach the row |
| DataHelpers.LiveEntryFollowsStudent | lib/data.js:478-481 | renaming the student renames the row |
| Common.FindFirstAgree | lib/data.js:478 | a first-match lookup depends only on what its test sees of each record, so renaming a student leaves the id lookup unchanged |
| DataHelpers.MemoryStore.constructor | lib/data.js:4-428 | the module state starts as the seed users and jobs and satisfies the no-duplicate-applicant invariant |
| MemoryApplications.Get | app/api/applications/route.js:11-37 | student wins over job; error iff neither is given, and then 400 |
| MemoryApplications.PushedApplication | app/api/applications/route.js:70-74 | the pushed entry has the student id, today's date, status Pending and no id |
| MemoryApplications.Post | app/api/applications/route.js:40-85 | 400 without ids, 404 for an unknown job, 400 for a second application; the request succeeds exactly when every guard passes, and success appends one entry to that job only; errors change nothing; the invariant holds |
| MemoryApplications.Put | app/api/applications/route.js:88-126 | 400 for missing fields, 404 for an unknown job or id; the request succeeds exactly when every guard passes, and success assigns any status string to the first application with the id and nothing else; errors change nothing |
| MemoryApplications.PushedIsNeverFound | app/api/applications/route.js:70-109 | an entry POST pushed can never be found by PUT with a non-empty id |
| Middleware.Decide | middleware.js:3-54 | an unprotected path passes; a protected path without a readable session redirects; with a session it passes iff each matching prefix's role check passes |
| Middleware.PrefixesDisjoint | middleware.js:7-11 | no path starts with two of the dashboard prefixes |
| Middleware.DashboardRole | middleware.js:28-47 | each dashboard admits exactly a session with its own role |
| Middleware.NextMeansAuthorised | middleware.js:17-53 | a protected path that passes had a session with a student, recruiter or admin role |
| Middleware.StudentsPathGuarded | middleware.js:13-29 | /dashboard/students is a student route: refused to a recruiter, passed for a student |
| UsersRoute.ProfilesOfPermutation | backend/routes/users.js:8-25 | reordering the users reorders their profiles and nothing more |
| UsersRoute.ListUsers | backend/routes/users.js:6-34 | every user's public projection is listed and nothing else, one per user |
| UsersRoute.ListUsersNewestFirst | backend/routes/users.js:8 | the listing projects a permutation of the users sorted by creation time, newest first |
| UsersRoute.ListUsersIgnoresPasswords | backend/routes/users.js:8-25 | the listing does not depend on any stored password |
| UsersRoute.GetUser | backend/routes/users.js:37-73 | 404 iff no user has the id; otherwise the projection of a user with it |
| UsersRoute.Patched | backend/routes/users.js:87-105 | id, email, password, role, the four unlisted lists and the timestamps never change |
| UsersRoute.AllowedUpdatesPatch | backend/routes/users.js:101-105 | the loop over the whitelist computes the reference field-by-field update |
| UsersRoute.Edited | backend/routes/users.js:101-110 | the password is replaced iff a non-empty one is supplied; everything else is the whitelist update |
| UsersRoute.StoredAfterUpdate | backend/routes/users.js:108-112 | a supplied password is stored hashed; otherwise the stored hash is kept |
| UsersRoute.UpdateKeepsUsersValid | backend/routes/users.js:112 | an update that passes validation keeps the collection invariant |
| UsersRoute.ApplyWhitelist | backend/routes/users.js:101-105 | the loop on a document stores the whitelist update and leaves the password unmodified |
| UsersRoute.UpdateUser | backend/routes/users.js:76-144 | 404 and no change for an unknown id; a failing validation changes nothing; otherwise just that user is replaced by the stored update and its projection without password returned |
| FormLists.AddTrimmed | app/dashboard/student/profile/page.js:189-197 | a blank or present skill leaves the list unchanged; otherwise the trimmed skill is appended |
| FormLists.AddTrimmedNoDup | app/dashboard/student/profile/page.js:189-197 | adding keeps a duplicate-free list duplicate-free |
| FormLists.AddTrimmedMembers | app/dashboard/student/profile/page.js:189-197 | after adding the list holds exactly the old skills and the non-blank trimmed input |
| FormLists.AddTrimmedIdempotent | app/dashboard/student/profile/page.js:189-197 | adding the same input twice is adding it once |
| FormLists.Without | app/dashboard/student/profile/page.js:199-204 | every occurrence of the skill goes and the others stay, in order |
| FormLists.WithoutKeepsNoDup | app/dashboard/student/profile/page.js:199-204 | removing keeps a duplicate-free list duplicate-free |
| FormLists.WithoutUndoesAdd | app/dashboard/recruiter/jobs/new/page.js:56-65 | removing a skill just added restores the list |
| FormLists.AddEntry | app/dashboard/student/profile/page.js:207-316 | the add handlers append one default entry at the end |
| FormLists.UpdateAt | app/dashboard/student/profile/page.js:226-324 | only the named field of entry i changes; its other fields, the other entries and the length are kept |
| FormLists.RemoveAt | app/dashboard/student/profile/page.js:234-331 | exactly entry i goes and the rest keep their order; an index past the end changes nothing |
| FormLists.RemoveUndoesAdd | app/dashboard/student/profile/page.js:207-239 | removing the entry just added restores the list |
| FormLists.RemoveAtIsSubseq | app/dashboard/student/profile/page.js:234-239 | removing by index keeps the others in order |
| ApplicantsPage.Tagged | app/dashboard/recruiter/applicants/page.js:75-84 | a job contributes one row per application, in order, each tagged with the job's title, id and company |
| ApplicantsPage.CollectApplications | app/dashboard/recruiter/applicants/page.js:73-87 | the nested loop computes the reference flattening |
| ApplicantsPage.FlattenAppend | app/dashboard/recruiter/applicants/page.js:73-87 | the rows of a concatenation of jobs are the rows of each part |
| ApplicantsPage.FlattenLength | app/dashboard/recruiter/applicants/page.js:73-87 | there is one row per application over all jobs |
| ApplicantsPage.FlattenAt | app/dashboard/recruiter/applicants/page.js:73-87 | job order then application order: application k of job i sits after all rows of earlier jobs and k rows of its own job |
| ApplicantsPage.FlattenSound | app/dashboard/recruiter/applicants/page.js:73-87 | every row is some job's application tagged with that job |
| ApplicantsPage.Visible | app/dashboard/recruiter/applicants/page.js:103-126 | the shown rows are a subsequence of all rows, and a row is shown iff it matches the lower-cased term in name, title or company and the status filter unless it is all |
| ApplicantsPage.VisibleUnfiltered | app/dashboard/recruiter/applicants/page.js:104-125 | no term and the all filter show every row |
| ApplicantsPage.EmptySearchKeepsAll | app/dashboard/recruiter/applicants/page.js:107-118 | searching for the empty term would keep every row anyway |
| ApplicantsPage.UpdateApplicationStatus | app/dashboard/recruiter/applicants/page.js:128-160 | nothing changes unless the response is ok; then the length is kept, only rows with the id change and only in their status, and the open row follows |
| ApplicantsPage.UpdateIdempotent | app/dashboard/recruiter/applicants/page.js:142-155 | repeating an update changes nothing more |
| ApplicantsPage.Counts | app/dashboard/recruiter/applicants/page.js:192-201 | all is the row count and each card is the number of rows whose status is exactly that card's status |
| ApplicantsPage.CountsBound | app/dashboard/recruiter/applicants/page.js:192-201 | the four cards sum to at most all, and to less once a row is Accepted |
| ApplicantsPage.OfferedUpdates | app/dashboard/recruiter/applicants/page.js:514-565 | the enabled buttons are exactly Reviewed, Interview and Rejected minus the current status |
| ApplicantsPage.OfferedAreValid | app/dashboard/recruiter/applicants/page.js:514-565 | every status the page can request is valid for the backend, differs from the current one and is neither Accepted nor Pending |
| ProfilePage.TechList | app/dashboard/student/profile/page.js:276-288 | the technology list of a project, empty when the project has none |
| ProfilePage.ProjectRecord.constructor | app/dashboard/student/profile/page.js:242-259 | a project object holds the given fields |
| ProfilePage.ProjectRecord.AddTechnology | app/dashboard/student/profile/page.js:276-288 | blank input changes nothing; otherwise the trimmed technology is added in place unless present, and a duplicate-free list stays duplicate-free |
| ProfilePage.ProjectRecord.RemoveTechnology | app/dashboard/student/profile/page.js:290-298 | the technology is filtered out of the project's list in place |
| ProfilePage.YearField | app/dashboard/student/profile/page.js:85-104 | a stored year shows iff it is set and non-zero |
| ProfilePage.FormOf | app/dashboard/student/profile/page.js:85-187 | no user gives the empty form; otherwise the fields come from the session user and the lists it lacks are empty |
| ProfilePage.SavePatch | app/dashboard/student/profile/page.js:127-141 | the body carries every form field and the computed completeness flag, and no password |
| ProfilePage.SaveStores | app/dashboard/student/profile/page.js:123-162 | a save stores the computed flag and the trimmed text fields, and keeps password, email, role and the lists the whitelist omits |
| ProfilePage.CompleteWithBlankMajor | app/dashboard/student/profile/page.js:135-140 | a blank major counts as given, so a complete profile can be stored with an empty major |
| ProfilePage.StudentProfile.constructor | app/dashboard/student/profile/page.js:85-110 | after loading the form is built from the session user and nothing is being edited |
| ProfilePage.StudentProfile.AddSkill | app/dashboard/student/profile/page.js:189-197 | the skills become the add-trimmed list and the input clears only when a skill was added |
| ProfilePage.StudentProfile.RemoveSkill | app/dashboard/student/profile/page.js:199-204 | the skills lose every occurrence of the skill; nothing else changes |
| ProfilePage.StudentProfile.AddExperience | app/dashboard/student/profile/page.js:207-224 | one default experience entry is appended; nothing else changes |
| ProfilePage.StudentProfile.UpdateExperience | app/dashboard/student/profile/page.js:226-232 | only the field of experience entry i changes |
| ProfilePage.StudentProfile.RemoveExperience | app/dashboard/student/profile/page.js:234-239 | exactly experience entry i goes |
| ProfilePage.StudentProfile.AddCertificate | app/dashboard/student/profile/page.js:301-316 | one default certificate is appended; nothing else changes |
| ProfilePage.StudentProfile.UpdateCertificate | app/dashboard/student/profile/page.js:318-324 | only the field of certificate i changes |
| ProfilePage.StudentProfile.RemoveCertificate | app/dashboard/student/profile/page.js:326-331 | exactly certificate i goes |
| ProfilePage.StudentProfile.AddProject | app/dashboard/student/profile/page.js:242-259 | a new project object with the default fields is appended and the earlier objects are kept |
| ProfilePage.StudentProfile.UpdateProject | app/dashboard/student/profile/page.js:261-267 | project i is replaced by a new object with the field set; the other objects are kept |
| ProfilePage.StudentProfile.RemoveProject | app/dashboard/student/profile/page.js:269-274 | exactly project i goes |
| ProfilePage.StudentProfile.AddProjectTechnology | app/dashboard/student/profile/page.js:276-288 | the project object at i changes in place, without a new list, as its AddTechnology states |
| ProfilePage.StudentProfile.RemoveProjectTechnology | app/dashboard/student/profile/page.js:290-298 | the project object at i loses the technology in place |
| ProfilePage.StudentProfile.HandleSave | app/dashboard/student/profile/page.js:123-162 | no session user sends nothing; otherwise the save body is sent, a success replaces the user and ends editing, a failure keeps both, and loading always ends |
| ProfilePage.StudentProfile.HandleCancel | app/dashboard/student/profile/page.js:164-187 | the form is rebuilt from the session user, the skill input clears and editing ends |
| ProfilePage.CancelDropsLists | app/dashboard/student/profile/page.js:164-187 | after cancel, certificates, experience and projects are empty whatever the form held |
| ProfilePage.SaveAfterCancel | app/dashboard/student/profile/page.js:123-187 | saving right after cancel writes back the session user's own name and major and a flag computed from them |
| StudentJobsPage.SearchJobs | app/dashboard/student/jobs/page.js:83-91 | the kept jobs are a subsequence; a job is kept iff the lower-cased term occurs in its title, company or description; the empty term keeps all |
| StudentJobsPage.EmptyTermKeepsAll | app/dashboard/student/jobs/page.js:84-89 | filtering with the empty term keeps every job |
| StudentJobsPage.AppliedSet | app/dashboard/student/jobs/page.js:61-64 | the set holds exactly the job ids of the student's applications |
| StudentJobsPage.AppliedSetOfStudent | app/dashboard/student/jobs/page.js:61-64 | built from the student listing, the set holds exactly the ids of jobs with an application by the student |
| StudentJobsPage.WithApplication | app/api/applications/route.js:76 | the store after apply has one more application in job k and nothing else changed |
| StudentJobsPage.AppliedSetAfterApply | app/dashboard/student/jobs/page.js:109-110 | applying adds exactly that job's id to the set rebuilt from the store |
| StudentJobsPage.HasAppliedAfter | app/dashboard/student/jobs/page.js:109-110 | after the POST a job holds an application by the student iff it is the job applied to or already held one |
| StudentJobsPage.RefusalAlert | app/dashboard/student/jobs/page.js:111-115 | the refusal alert is the server's error, or a non-empty default |
| StudentJobsPage.BrowseJobs.constructor | app/dashboard/student/jobs/page.js:39-64 | the applied set starts as the set of the student's applied job ids |
| StudentJobsPage.BrowseJobs.HandleApply | app/dashboard/student/jobs/page.js:93-122 | without a user nothing is sent or changed; otherwise (job, student) is sent, a created application adds the job to the set and hides its Apply button, a refusal or network failure keeps the set, each outcome shows its alert, and the applying flag is reset |
| NewJobPage.ProxyRecruiter | app/api/jobs/route.js:42-48 | the recruiter is postedBy, else recruiter, from the query, and is non-empty when found |
| NewJobPage.ProxyRefusal | app/api/jobs/route.js:44-49 | the proxy refuses iff no recruiter is in the query, with Recruiter ID is required |
| NewJobPage.SubmitAsWrittenRefused | app/dashboard/recruiter/jobs/new/page.js:95-101 | as written, the proxy refuses every submit |
| NewJobPage.SubmitRequestForwardsRecruiter | app/api/jobs/route.js:42-51 | the corrected request passes the guard with the signed-in recruiter and carries the same body |
| NewJobPage.FailureMessage | app/dashboard/recruiter/jobs/new/page.js:103-108 | the error shown is the server's error, or a non-empty default |
| NewJobPage.NewJobPosting.constructor | app/dashboard/recruiter/jobs/new/page.js:36-46 | the form starts empty with no skills |
| NewJobPage.NewJobPosting.AddSkill | app/dashboard/recruiter/jobs/new/page.js:56-61 | the skills become the add-trimmed list and stay duplicate-free; the input clears when a skill was added |
| NewJobPage.NewJobPosting.RemoveSkill | app/dashboard/recruiter/jobs/new/page.js:63-65 | the skill is filtered out and the list stays duplicate-free |
| NewJobPage.NewJobPosting.HandleSubmit | app/dashboard/recruiter/jobs/new/page.js:67-115 | no cookie asks to log in again and sends nothing; an unreadable cookie or unreachable server shows the network error; with a session the corrected request is sent, an ok reply navigates to the job list, a refusal shows the server's error or a default; the form is kept and submitting always ends |
| RecruiterJobsPage.StatusBadge | app/dashboard/recruiter/jobs/page.js:89-96 | No Applications iff 0, Few Applications iff 1 to 4, Popular iff 5 or more |
| RecruiterJobsPage.BadgeMonotone | app/dashboard/recruiter/jobs/page.js:89-96 | more applications never give a lower badge |
| RecruiterJobsPage.DeleteJobLocally | app/dashboard/recruiter/jobs/page.js:72-87 | a failure keeps the list; a success keeps exactly the jobs with another id, in order |
| RecruiterJobsPage.FilterLowersTotal | app/dashboard/recruiter/jobs/page.js:317-322 | dropping jobs never raises the application total |
| RecruiterJobsPage.DeleteLowersTotal | app/dashboard/recruiter/jobs/page.js:78-79 | a local delete never raises the application total |
| RecruiterJobsPage.AverageApplications | app/dashboard/recruiter/jobs/page.js:358-368 | 0 with no jobs; otherwise the total divided by the job count, rounded to the nearest integer with halves up |
| RecruiterDashboard.PendingAtMostTotal | app/dashboard/recruiter/page.js:69-76 | pending applications never exceed the total |
| RecruiterDashboard.PendingMatchesApplicantList | app/dashboard/recruiter/page.js:69-72 | the pending count equals the Pending count of the flattened applicant list |
| RecruiterDashboard.DashboardStats | app/dashboard/recruiter/page.js:63-76 | totalJobs is the job count, totalApplications the applicant-list length, and pending is at most that and equals the list's Pending count |
| Common.Recent | app/dashboard/recruiter/page.js:105 | at most the first three jobs, in returned order; the student dashboard's recent applications (app/dashboard/student/page.js:92) are the same slice |
| StudentDashboard.StatsFor | app/dashboard/student/page.js:64-81 | total is the list length, each card counts exact matches, the cards sum to at most the total and to less when another status occurs |
| StudentDashboard.AcceptedAsWrittenIsZero | app/dashboard/student/page.js:69-71 | as written, over stored statuses, the accepted card is always 0 |
| StudentDashboard.AcceptedCountsInterviews | app/dashboard/student/page.js:69-71 | corrected, the accepted card is positive iff some application is at Interview |
| StudentDashboard.CountStatusPresent | app/dashboard/student/page.js:69-71 | a status that occurs has a positive count |
| StudentDashboard.BadgeFor | app/dashboard/student/page.js:395-411 | the interview badge iff the status is the interview name, pending iff Pending, rejected for every other status |
| StudentDashboard.InterviewShownAsRejected | app/dashboard/student/page.js:395-411 | as written, a stored Interview status shows the rejected label |
| StudentDashboard.BadgeMatchesCard | app/dashboard/student/page.js:69-71 | corrected, the accepted count is positive iff some application shows the interview badge of lines 395-411 |
| StudentApplicationsPage.StatusBadge | app/dashboard/student/applications/page.js:58-69 | the badge text is the status; Pending, Interview Scheduled and Rejected get named variants, and any other status is outlined |
| StudentApplicationsPage.Summarize | app/dashboard/student/applications/page.js:101-240 | the header is the count, statistics show iff the list is non-empty, the cards count exact matches and sum to at most the count |
| StudentApplicationsPage.InterviewCardOverStoredStatuses | app/dashboard/student/applications/page.js:58-240 | over stored statuses the Interview Scheduled card is 0, and a stored Interview shows as an outlined raw badge |

## Left out

- MongoDB mechanics are not modelled: ObjectId format and `CastError` replies, the unique index as a race, duplicate-key error 11000, and exceptions other than a missing populated document (thrown errors become 500 only there). Every request is one atomic step; concurrent check-then-push is out of scope.
- Password hashing and comparison are the `hash` parameter: bcrypt and salts are foreign code.
- Date formatting (`toISOString().split('T')[0]`), `new Date()` stamps and `Date.now` defaults are opaque integers or parameters.
- `parseInt` of the graduation year is not modelled: the register body carries the parsed number, so non-numeric input is outside the model.
- Mongoose strict mode drops unknown body keys, so `recruiterId` and `status` in a job body are not stored; the model's job bodies have only schema keys.
- BackendJobs.UpdateJob: null values and body `_id` typing, and query-side setters, are not modelled; update body keys are typed schema keys.
- BackendJobs.ListJobs: the order among jobs with the same posting date is not fixed, since a sort of Mongo results promises none; the list is stated as a newest-first permutation.
- The in-memory variant has no job update or delete: app/api/jobs/[id]/route.js proxies those to the backend, so `MemoryApplications` has only GET, POST and PUT.
- The seed's long prose values (descriptions, requirements, benefits, resumes, cover letters) are abbreviated to their first words; ids, emails, statuses and other keys are as in lib/data.js.
- Common.Lower: maps only A-Z to a-z, while `toLowerCase` also lower-cases letters of other scripts (and may lengthen a string, as for U+0130). Every lower-casing member inherits this: UserSchema.NormalizeEmail, Auth.QueryEmail and so the email match of Auth.Login and Auth.RegisterCheck, the stored email of Auth.NewUserRecord, the student-domain check, ApplicantsPage.Visible and StudentJobsPage.SearchJobs.
- Auth.Register: the register reply has no `resume` key, like the source. Both email lookups match the input lower-cased and trimmed, because the filter is cast through the email path's setters; so the duplicate-key reply (error 11000) only arises from concurrent registrations, which are not modelled.
- BackendJobs.CreateJob: models the corrected create, which stores the cast body with an empty applications list; the create as written, which spreads `applications` from the body, is CastJobAsWritten, and CreateAsWrittenAdmitsDuplicates shows what it lets through (see Findings).
- NewJobPage.NewJobPosting.HandleSubmit: models the corrected submit, which also sends the recruiter as the `postedBy` query parameter; the page as written sends no query, and SubmitAsWrittenRefused shows the proxy refuses it with 400 (see Findings).
- The route handlers are module-level methods that take the store objects as parameters, not Express routers.
- RecruiterJobsPage.AverageApplications: models `Math.round` of the exact quotient; floating-point error in the division is not modelled.
- `?.length || 0` for a missing applications list is not modelled, because the model's jobs always carry their list.
- FormLists.UpdateAt: requires an index inside the list; the source would write past the end and pad the array, which no page button can do.
- ProfilePage.ProjectRecord.RemoveTechnology: requires the technology list to exist, since the source throws on a project that lacks it; a technologies value that is not a list is not modelled.
- ProfilePage.FormOf: the session user is the public projection, which has no certificates, projects, experience or social links, so loading and cancel give empty lists, as in the source.
- React's state batching, StrictMode double invocation of updaters (AddTrimmedIdempotent shows that it is harmless for the skills) and the intermediate `isApplying`/`isLoading` renders are not modelled; each handler is one step from one settled state to the next.
- HandleApply, HandleSubmit and HandleSave take the server's outcome as a parameter; fetch, cookies and JSON parsing are not modelled (the cookie is its parsed outcome).
- The PDF resume generator, the admin dashboard, the recruiter's this-week count, the proxies other than the jobs POST guard, the layouts and all JSX are out of scope: they are rendering, wall-clock or network code.
- backend/models/Application.js is not part of this model: no route uses it.

## Findings

| source | as written | input that shows it | evidently intended | confidence | as-written member | corrected member |
|---|---|---|---|---|---|---|
| backend/routes/jobs.js:122-131 | create spreads the whole body into the new job, so a body `applications` array is stored | a POST whose body holds two applications with the same studentId | a new job starts with no applications, as the 201 reply (line 152) and the update's protected keys assume | not executed | BackendJobs.CreateAsWrittenAdmitsDuplicates | BackendJobs.CreateKeepsStoreValid |
| app/dashboard/recruiter/jobs/new/page.js:95-101 | the page posts to /api/jobs with the recruiter only in the body, while the proxy reads it only from the query (app/api/jobs/route.js:42-48) | any submit by a signed-in recruiter | the recruiter is also sent as the `postedBy` query parameter | not executed | NewJobPage.SubmitAsWrittenRefused | NewJobPage.SubmitRequestForwardsRecruiter |
| app/dashboard/student/page.js:69-71,395-411 | the accepted card and the interview badge test `Interview Scheduled`, a status no writer stores | an application whose status is `Interview`, as in the seed of lib/data.js | they test the stored `Interview` status | not executed | StudentDashboard.InterviewShownAsRejected | StudentDashboard.BadgeMatchesCard |
