/** The recruiter's applicant list (app/dashboard/recruiter/applicants/page.js):
    every application of the recruiter's jobs flattened into one list of
    rows tagged with their job, the search and status filter over it, the
    local status update after a successful request, and the counts of the
    status cards. */
module ApplicantsPage {
  import opened Common
  import opened JobSchema

  /** `{ ...app, jobTitle: job.title, jobId: job.id, company: job.company }`. */
  datatype Row = Row(app: Application, jobTitle: string, jobId: string, company: string)

  function TagWith(j: Job): Application -> Row {
    (a: Application) => Row(a, j.title, j.id, j.company)
  }

  /** The rows one job contributes, in application order. */
  function Tagged(j: Job): (r: seq<Row>)
    ensures |r| == |j.applications|
    ensures forall k :: 0 <= k < |r| ==> r[k] == Row(j.applications[k], j.title, j.id, j.company)
  {
    Map(j.applications, TagWith(j))
  }

  /** Reference definition of the flattening: the rows of the jobs before
      the last, then the last job's rows. */
  function Flatten(jobs: seq<Job>): seq<Row> {
    if jobs == [] then [] else Flatten(jobs[..|jobs| - 1]) + Tagged(jobs[|jobs| - 1])
  }

  /** The nested `forEach` that pushes every tagged application onto
      `allApplications`. */
  method CollectApplications(jobs: seq<Job>) returns (all: seq<Row>)
    ensures all == Flatten(jobs)
  {
    all := [];
    var i := 0;
    while i < |jobs|
      invariant 0 <= i <= |jobs|
      invariant all == Flatten(jobs[..i])
    {
      var job := jobs[i];
      var m := 0;
      while m < |job.applications|
        invariant 0 <= m <= |job.applications|
        invariant all == Flatten(jobs[..i]) + Tagged(job)[..m]
      {
        assert Tagged(job)[..m + 1] == Tagged(job)[..m] + [Tagged(job)[m]];
        all := all + [Row(job.applications[m], job.title, job.id, job.company)];
        m := m + 1;
      }
      assert Tagged(job)[..m] == Tagged(job);
      assert jobs[..i + 1][..i] == jobs[..i];
      i := i + 1;
    }
    assert jobs[..i] == jobs;
  }

  /** The rows of a concatenation are the rows of each part, in order. */
  lemma {:induction false} FlattenAppend(a: seq<Job>, b: seq<Job>)
    ensures Flatten(a + b) == Flatten(a) + Flatten(b)
    decreases |b|
  {
    if b == [] {
      assert a + b == a;
    } else {
      var last := |b| - 1;
      var init, t := b[..last], Tagged(b[last]);
      assert (a + b)[..|a + b| - 1] == a + init;
      assert (a + b)[|a + b| - 1] == b[last];
      assert Flatten(a + b) == Flatten(a + init) + t;
      assert Flatten(b) == Flatten(init) + t;
      FlattenAppend(a, init);
      assert Flatten(a + init) + t == Flatten(a) + (Flatten(init) + t);
    }
  }

  /** One row per application over all the jobs. */
  lemma {:induction false} FlattenLength(jobs: seq<Job>)
    ensures |Flatten(jobs)| == TotalApplications(jobs)
    decreases |jobs|
  {
    if jobs != [] {
      FlattenLength(jobs[..|jobs| - 1]);
    }
  }

  /** Job order, then application order: application k of job i is the
      row right after the rows of the jobs before i and the first k
      applications of job i. */
  lemma FlattenAt(jobs: seq<Job>, i: nat, k: nat)
    requires i < |jobs| && k < |jobs[i].applications|
    ensures TotalApplications(jobs[..i]) + k < |Flatten(jobs)|
    ensures Flatten(jobs)[TotalApplications(jobs[..i]) + k]
         == Row(jobs[i].applications[k], jobs[i].title, jobs[i].id, jobs[i].company)
  {
    var pre, upto, rest := jobs[..i], jobs[..i + 1], jobs[i + 1..];
    var t := Tagged(jobs[i]);
    assert upto[..i] == pre && upto[i] == jobs[i];
    assert Flatten(upto) == Flatten(pre) + t;
    assert jobs == upto + rest;
    FlattenAppend(upto, rest);
    FlattenLength(pre);
    var n := TotalApplications(pre);
    assert |Flatten(pre)| == n;
    var whole := Flatten(upto) + Flatten(rest);
    assert whole[n + k] == Flatten(upto)[n + k] == t[k];
  }

  /** Every row is an application of one of the jobs, tagged with that job. */
  lemma {:induction false} FlattenSound(jobs: seq<Job>, r: Row)
    requires r in Flatten(jobs)
    ensures exists i, k :: 0 <= i < |jobs| && 0 <= k < |jobs[i].applications|
              && r == Row(jobs[i].applications[k], jobs[i].title, jobs[i].id, jobs[i].company)
    decreases |jobs|
  {
    var last := |jobs| - 1;
    var init := jobs[..last];
    if r in Flatten(init) {
      FlattenSound(init, r);
      var i, k :| 0 <= i < |init| && 0 <= k < |init[i].applications|
                  && r == Row(init[i].applications[k], init[i].title, init[i].id, init[i].company);
      assert init[i] == jobs[i];
    } else {
      var k :| 0 <= k < |Tagged(jobs[last])| && Tagged(jobs[last])[k] == r;
      assert r == Row(jobs[last].applications[k], jobs[last].title, jobs[last].id, jobs[last].company);
    }
  }

  // ---------------------------------------------------------------------
  // Search and status filter
  // ---------------------------------------------------------------------

  /** Case-insensitive match of the term in the student's name, the job
      title or the company. */
  predicate SearchHit(term: string, r: Row) {
    Contains(Lower(r.app.studentName), Lower(term))
    || Contains(Lower(r.jobTitle), Lower(term))
    || Contains(Lower(r.company), Lower(term))
  }

  function Searched(term: string): Row -> bool {
    (r: Row) => SearchHit(term, r)
  }

  function StatusIs(st: string): Row -> bool {
    (r: Row) => r.app.status == st
  }

  /** The filter effect: the search when the term is non-empty, then the
      status filter unless it is `all`. */
  function Visible(all: seq<Row>, term: string, statusFilter: string): (r: seq<Row>)
    ensures IsSubseq(r, all)
    ensures forall x :: x in r <==>
              x in all && (term == "" || SearchHit(term, x))
              && (statusFilter == "all" || x.app.status == statusFilter)
  {
    var searched := if term != "" then Filter(all, Searched(term)) else all;
    FilterEach(all, Searched(term));
    FilterEach(searched, StatusIs(statusFilter));
    FilterIsSubseq(all, Searched(term));
    FilterIsSubseq(searched, StatusIs(statusFilter));
    SelfIsSubseq(all);
    if statusFilter != "all" then
      IsSubseqTrans(Filter(searched, StatusIs(statusFilter)), searched, all);
      Filter(searched, StatusIs(statusFilter))
    else searched
  }

  /** With no term and the `all` filter the full list is shown. */
  lemma VisibleUnfiltered(all: seq<Row>)
    ensures Visible(all, "", "all") == all
  {
  }

  /** The `if (searchTerm)` guard changes nothing: the empty term occurs in
      every field, so searching for it keeps every row. */
  lemma EmptySearchKeepsAll(all: seq<Row>)
    ensures Filter(all, Searched("")) == all
  {
    forall i | 0 <= i < |all| ensures Searched("")(all[i]) {
      ContainsEmpty(Lower(all[i].app.studentName));
    }
    FilterAll(all, Searched(""));
  }

  // ---------------------------------------------------------------------
  // Local status update
  // ---------------------------------------------------------------------

  /** `{ ...app, status: newStatus }` where the id matches. */
  function Mark(r: Row, id: string, st: string): Row {
    if r.app.id == id then r.(app := r.app.(status := st)) else r
  }

  function MarkWith(id: string, st: string): Row -> Row {
    (r: Row) => Mark(r, id, st)
  }

  /** What the page holds: the full list and the row open in the dialog. */
  datatype View = View(applications: seq<Row>, selected: Option<Row>)

  /** `updateApplicationStatus` once the request has settled: only an ok
      response touches the local state, and then only rows with the id,
      and in them only the status. */
  function UpdateApplicationStatus(v: View, id: string, st: string, ok: bool): (w: View)
    ensures !ok ==> w == v
    ensures |w.applications| == |v.applications|
    ensures ok ==> forall i :: 0 <= i < |v.applications| ==>
              var before, after := v.applications[i], w.applications[i];
              (before.app.id == id ==> after.app.status == st)
              && (before.app.id != id ==> after == before)
              && after.(app := after.app.(status := before.app.status)) == before
    ensures ok && v.selected.Some? && v.selected.value.app.id == id ==>
              w.selected == Some(v.selected.value.(app := v.selected.value.app.(status := st)))
    ensures ok && (v.selected.None? || v.selected.value.app.id != id) ==> w.selected == v.selected
  {
    if !ok then v
    else View(Map(v.applications, MarkWith(id, st)),
              if v.selected.Some? then Some(Mark(v.selected.value, id, st)) else None)
  }

  /** Repeating an update is harmless. */
  lemma UpdateIdempotent(v: View, id: string, st: string)
    ensures UpdateApplicationStatus(UpdateApplicationStatus(v, id, st, true), id, st, true)
         == UpdateApplicationStatus(v, id, st, true)
  {
    var w := UpdateApplicationStatus(v, id, st, true);
    var w2 := UpdateApplicationStatus(w, id, st, true);
    assert w2.applications == w.applications;
  }

  // ---------------------------------------------------------------------
  // Status cards and buttons
  // ---------------------------------------------------------------------

  datatype StatusCounts = StatusCounts(all: nat, pending: nat, reviewed: nat, interview: nat, rejected: nat)

  const CardStatuses: seq<string> := ["Pending", "Reviewed", "Interview", "Rejected"]

  function RowStatus(): Row -> string {
    (r: Row) => r.app.status
  }

  /** `statusCounts`: the total and four exact-match counts, one per card. */
  function Counts(rows: seq<Row>): (c: StatusCounts)
    ensures c.all == |rows|
    ensures c.pending == CountStatus(rows, RowStatus(), "Pending")
    ensures c.reviewed == CountStatus(rows, RowStatus(), "Reviewed")
    ensures c.interview == CountStatus(rows, RowStatus(), "Interview")
    ensures c.rejected == CountStatus(rows, RowStatus(), "Rejected")
  {
    StatusCounts(|rows|,
      CountStatus(rows, RowStatus(), "Pending"), CountStatus(rows, RowStatus(), "Reviewed"),
      CountStatus(rows, RowStatus(), "Interview"), CountStatus(rows, RowStatus(), "Rejected"))
  }

  /** Accepted has no card, so the four cards never add up to more than the
      total, and fall short of it once some row is Accepted. */
  lemma CountsBound(rows: seq<Row>)
    ensures var c := Counts(rows);
            c.pending + c.reviewed + c.interview + c.rejected <= c.all
    ensures var c := Counts(rows);
            (exists i :: 0 <= i < |rows| && rows[i].app.status == "Accepted") ==>
              c.pending + c.reviewed + c.interview + c.rejected < c.all
  {
    var c := Counts(rows);
    var f := RowStatus();
    assert CardStatuses[3..][1..] == [];
    assert SumCounts(rows, f, CardStatuses[3..]) == c.rejected;
    assert CardStatuses[2..][1..] == CardStatuses[3..];
    assert SumCounts(rows, f, CardStatuses[2..]) == c.interview + c.rejected;
    assert CardStatuses[1..][1..] == CardStatuses[2..];
    assert SumCounts(rows, f, CardStatuses[1..]) == c.reviewed + c.interview + c.rejected;
    assert SumCounts(rows, f, CardStatuses) == c.pending + c.reviewed + c.interview + c.rejected;
    SumCountsBound(rows, RowStatus(), CardStatuses);
  }

  /** The dialog's three buttons; the Accepted status is never issued here. */
  const IssuableStatuses: seq<string> := ["Reviewed", "Interview", "Rejected"]

  /** The buttons enabled for a row: the issuable statuses other than its
      current one. */
  function OfferedUpdates(current: string): (r: seq<string>)
    ensures forall t :: t in r <==> t in IssuableStatuses && t != current
  {
    FilterEach(IssuableStatuses, (t: string) => t != current);
    Filter(IssuableStatuses, (t: string) => t != current)
  }

  /** Every status the page can request is one the backend accepts, differs
      from the row's current status, and is not Accepted or Pending. */
  lemma OfferedAreValid(current: string, t: string)
    requires t in OfferedUpdates(current)
    ensures ValidStatus(t) && t != current && t != "Accepted" && t != "Pending"
  {
  }
}
