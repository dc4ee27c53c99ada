/**
 * The derived queries `JobProvider` exposes beside `dispatch`: the filtered
 * job list, saved jobs, membership tests, lookups by id and the
 * application statistics. Each is a pure function of the state.
 */
module Queries {
  import opened Wrappers
  import opened Text
  import opened Lists
  import opened Domain
  import opened Reducer

  /** The search test on an already lower-cased term: title, company, description or any skill contains it. */
  predicate SearchHit(term: string, j: Job) {
    || Contains(Lower(j.title), term)
    || Contains(Lower(j.company), term)
    || Contains(Lower(j.description), term)
    || exists k | 0 <= k < |j.skills| :: Contains(Lower(j.skills[k]), term)
  }

  predicate PassesSearch(f: Filters, j: Job) {
    f.search == "" || SearchHit(Lower(f.search), j)
  }

  predicate PassesLocation(f: Filters, j: Job) {
    f.location == "" || Contains(Lower(j.location), Lower(f.location))
  }

  predicate PassesJobType(f: Filters, j: Job) {
    |f.jobType| == 0 || j.jobType in f.jobType
  }

  predicate PassesLevel(f: Filters, j: Job) {
    |f.experienceLevel| == 0 || j.experienceLevel in f.experienceLevel
  }

  predicate PassesCategory(f: Filters, j: Job) {
    f.category == "" || j.category == f.category
  }

  predicate PassesSalary(f: Filters, j: Job) {
    j.salaryMin >= f.salaryRange.0 && j.salaryMax <= f.salaryRange.1
  }

  /** The reference definition of a match: every filter test holds. */
  predicate Matches(f: Filters, j: Job) {
    && PassesSearch(f, j) && PassesLocation(f, j) && PassesJobType(f, j)
    && PassesLevel(f, j) && PassesCategory(f, j) && PassesSalary(f, j)
  }

  /** The jobs of `jobs` that match `f`, in catalog order. */
  function MatchingJobs(jobs: seq<Job>, f: Filters): (r: seq<Job>)
    ensures forall j :: j in r <==> j in jobs && Matches(f, j)
    ensures IsSubsequence(r, jobs)
  {
    FilterIsSubsequence(jobs, (j: Job) => Matches(f, j));
    Filter(jobs, (j: Job) => Matches(f, j))
  }

  // The six filtering passes of `getFilteredJobs`, as the tests each pass applies.
  function SearchPass(f: Filters): Job -> bool { (j: Job) => SearchHit(Lower(f.search), j) }
  function LocationPass(f: Filters): Job -> bool { (j: Job) => Contains(Lower(j.location), Lower(f.location)) }
  function JobTypePass(f: Filters): Job -> bool { (j: Job) => j.jobType in f.jobType }
  function LevelPass(f: Filters): Job -> bool { (j: Job) => j.experienceLevel in f.experienceLevel }
  function CategoryPass(f: Filters): Job -> bool { (j: Job) => j.category == f.category }
  function SalaryPass(f: Filters): Job -> bool { (j: Job) => PassesSalary(f, j) }

  /** The conjunction of the first `k` passes' tests. */
  predicate PassesFirst(f: Filters, k: nat, j: Job) {
    && (k >= 1 ==> PassesSearch(f, j))
    && (k >= 2 ==> PassesLocation(f, j))
    && (k >= 3 ==> PassesJobType(f, j))
    && (k >= 4 ==> PassesLevel(f, j))
    && (k >= 5 ==> PassesCategory(f, j))
    && (k >= 6 ==> PassesSalary(f, j))
  }

  function PassedFirst(f: Filters, k: nat): Job -> bool {
    (j: Job) => PassesFirst(f, k, j)
  }

  /** One guarded pass turns "filtered by the first k-1 tests" into "filtered by the first k". */
  lemma GuardedPass(jobs: seq<Job>, prev: seq<Job>, guard: bool, test: Job -> bool,
                    before: Job -> bool, after: Job -> bool)
    requires prev == Filter(jobs, before)
    requires forall j :: after(j) == (before(j) && (guard ==> test(j)))
    ensures (if guard then Filter(prev, test) else prev) == Filter(jobs, after)
  {
    if guard {
      FilterThenFilter(jobs, before, test, after);
    } else {
      FilterAgree(jobs, before, after);
    }
  }

  /** Each pass adds its test, when enabled, to the ones before it; all six together are `Matches`. */
  lemma PassChain(f: Filters)
    ensures forall j :: PassedFirst(f, 1)(j) == (PassedFirst(f, 0)(j) && (f.search != "" ==> SearchPass(f)(j)))
    ensures forall j :: PassedFirst(f, 2)(j) == (PassedFirst(f, 1)(j) && (f.location != "" ==> LocationPass(f)(j)))
    ensures forall j :: PassedFirst(f, 3)(j) == (PassedFirst(f, 2)(j) && (|f.jobType| > 0 ==> JobTypePass(f)(j)))
    ensures forall j :: PassedFirst(f, 4)(j) == (PassedFirst(f, 3)(j) && (|f.experienceLevel| > 0 ==> LevelPass(f)(j)))
    ensures forall j :: PassedFirst(f, 5)(j) == (PassedFirst(f, 4)(j) && (f.category != "" ==> CategoryPass(f)(j)))
    ensures forall j :: PassedFirst(f, 6)(j) == (PassedFirst(f, 5)(j) && (true ==> SalaryPass(f)(j)))
    ensures forall j :: PassedFirst(f, 6)(j) == Matches(f, j)
  {
  }

  /**
   * `getFilteredJobs`: starting from a copy of the catalog, each enabled
   * pass narrows the list; the result is exactly the matching jobs, in
   * catalog order.
   */
  method GetFilteredJobs(s: State) returns (filtered: seq<Job>)
    ensures filtered == MatchingJobs(s.jobs, s.filters)
    ensures forall j :: j in filtered <==> j in s.jobs && Matches(s.filters, j)
    ensures IsSubsequence(filtered, s.jobs)
  {
    var f := s.filters;
    filtered := s.jobs;
    FilterKeepsAll(s.jobs, PassedFirst(f, 0));
    PassChain(f);

    ghost var prev := filtered;
    if f.search != "" {
      filtered := Filter(filtered, SearchPass(f));
    }
    GuardedPass(s.jobs, prev, f.search != "", SearchPass(f), PassedFirst(f, 0), PassedFirst(f, 1));

    prev := filtered;
    if f.location != "" {
      filtered := Filter(filtered, LocationPass(f));
    }
    GuardedPass(s.jobs, prev, f.location != "", LocationPass(f), PassedFirst(f, 1), PassedFirst(f, 2));

    prev := filtered;
    if |f.jobType| > 0 {
      filtered := Filter(filtered, JobTypePass(f));
    }
    GuardedPass(s.jobs, prev, |f.jobType| > 0, JobTypePass(f), PassedFirst(f, 2), PassedFirst(f, 3));

    prev := filtered;
    if |f.experienceLevel| > 0 {
      filtered := Filter(filtered, LevelPass(f));
    }
    GuardedPass(s.jobs, prev, |f.experienceLevel| > 0, LevelPass(f), PassedFirst(f, 3), PassedFirst(f, 4));

    prev := filtered;
    if f.category != "" {
      filtered := Filter(filtered, CategoryPass(f));
    }
    GuardedPass(s.jobs, prev, f.category != "", CategoryPass(f), PassedFirst(f, 4), PassedFirst(f, 5));

    prev := filtered;
    filtered := Filter(filtered, SalaryPass(f));
    GuardedPass(s.jobs, prev, true, SalaryPass(f), PassedFirst(f, 5), PassedFirst(f, 6));

    FilterAgree(s.jobs, PassedFirst(f, 6), (j: Job) => Matches(f, j));
  }

  /** `getSavedJobs`: the catalog jobs whose id is saved, in catalog order (not save order). */
  function SavedJobs(s: State): (r: seq<Job>)
    ensures forall j :: j in r <==> j in s.jobs && j.id in s.savedJobs
    ensures IsSubsequence(r, s.jobs)
  {
    FilterIsSubsequence(s.jobs, (j: Job) => j.id in s.savedJobs);
    Filter(s.jobs, (j: Job) => j.id in s.savedJobs)
  }

  /** `isJobSaved`: for a catalog job, saved exactly when it is among the saved jobs. */
  function IsJobSaved(s: State, jobId: int): (b: bool)
    ensures forall j :: j in s.jobs && j.id == jobId ==> (b <==> j in SavedJobs(s))
  {
    jobId in s.savedJobs
  }

  /** Toggling a catalog job's id flips both `isJobSaved` and its presence among the saved jobs. */
  lemma ToggleFlipsSaved(s: State, j: Job)
    requires j in s.jobs
    ensures var t := Reduce(s, ToggleSaveJob(j.id));
            && IsJobSaved(t, j.id) == !IsJobSaved(s, j.id)
            && (j in SavedJobs(t) <==> j !in SavedJobs(s))
  {
  }

  /** `applications.some(app => app.jobId === jobId)`. */
  function AnyForJob(apps: seq<Application>, jobId: int): (b: bool)
    ensures b <==> exists i :: 0 <= i < |apps| && apps[i].jobId == jobId
  {
    if apps == [] then false
    else if apps[0].jobId == jobId then true
    else
      var b := AnyForJob(apps[1..], jobId);
      assert b ==> exists i :: 0 <= i < |apps| && apps[i].jobId == jobId by {
        if b {
          var i :| 0 <= i < |apps[1..]| && apps[1..][i].jobId == jobId;
          assert apps[i + 1].jobId == jobId;
        }
      }
      assert (exists i :: 0 <= i < |apps| && apps[i].jobId == jobId) ==> b by {
        if exists i :: 0 <= i < |apps| && apps[i].jobId == jobId {
          var i :| 0 <= i < |apps| && apps[i].jobId == jobId;
          assert i > 0 && apps[1..][i - 1].jobId == jobId;
        }
      }
      b
  }

  /** `hasApplied`: some application is for the job. */
  function HasApplied(s: State, jobId: int): (b: bool)
    ensures b <==> exists app :: app in s.applications && app.jobId == jobId
  {
    AnyForJob(s.applications, jobId)
  }

  /** After APPLY_TO_JOB the job counts as applied to; a status update never changes that. */
  lemma AppliedAfterApply(s: State, a: Action, jobId: int, appId: int, status: string)
    requires a.ApplyToJob?
    ensures HasApplied(Reduce(s, a), a.jobId)
    ensures HasApplied(Reduce(s, UpdateApplicationStatus(appId, status)), jobId) == HasApplied(s, jobId)
  {
    var apps := Reduce(s, a).applications;
    assert apps[|apps| - 1].jobId == a.jobId;
    var upd := Reduce(s, UpdateApplicationStatus(appId, status)).applications;
    assert forall i :: 0 <= i < |upd| ==> upd[i].jobId == s.applications[i].jobId by {
      forall i | 0 <= i < |upd| ensures upd[i].jobId == s.applications[i].jobId {
        assert upd[i].(status := s.applications[i].status) == s.applications[i];
      }
    }
  }

  /** `getJobById` on a numeric id: the first catalog job with that id, or nothing. */
  function JobById(s: State, id: int): (r: Option<Job>)
    ensures r.None? <==> forall i :: 0 <= i < |s.jobs| ==> s.jobs[i].id != id
    ensures r.Some? ==> r.value in s.jobs && r.value.id == id
    ensures r.Some? ==> exists i :: 0 <= i < |s.jobs| && s.jobs[i] == r.value
                                    && forall k :: 0 <= k < i ==> s.jobs[k].id != id
  {
    Find(s.jobs, (j: Job) => j.id == id)
  }

  /** `getCompanyById` on a numeric id: the first company with that id, or nothing. */
  function CompanyById(s: State, id: int): (r: Option<Company>)
    ensures r.None? <==> forall i :: 0 <= i < |s.companies| ==> s.companies[i].id != id
    ensures r.Some? ==> r.value in s.companies && r.value.id == id
    ensures r.Some? ==> exists i :: 0 <= i < |s.companies| && s.companies[i] == r.value
                                    && forall k :: 0 <= k < i ==> s.companies[k].id != id
  {
    Find(s.companies, (c: Company) => c.id == id)
  }

  /** `getJobsByCompany`: the catalog jobs of one company, in catalog order. */
  function JobsByCompany(s: State, companyId: int): (r: seq<Job>)
    ensures forall j :: j in r <==> j in s.jobs && j.companyId == companyId
    ensures IsSubsequence(r, s.jobs)
  {
    FilterIsSubsequence(s.jobs, (j: Job) => j.companyId == companyId);
    Filter(s.jobs, (j: Job) => j.companyId == companyId)
  }

  datatype ApplicationStats = ApplicationStats(
    total: nat, pending: nat, reviewing: nat, interview: nat, rejected: nat, accepted: nat)

  /** The status of each application, in order. */
  function Statuses(apps: seq<Application>): (r: seq<string>)
    ensures |r| == |apps|
    ensures forall i :: 0 <= i < |apps| ==> r[i] == apps[i].status
  {
    if apps == [] then [] else [apps[0].status] + Statuses(apps[1..])
  }

  /** The predicate `app => app.status === status`. */
  function StatusIs(status: string): Application -> bool {
    (app: Application) => app.status == status
  }

  /** Filtering on a status keeps as many applications as that status occurs. */
  lemma {:induction false} FilterStatusCount(apps: seq<Application>, status: string)
    ensures |Filter(apps, StatusIs(status))| == multiset(Statuses(apps))[status]
  {
    if apps != [] {
      FilterStatusCount(apps[1..], status);
      assert Statuses(apps) == [apps[0].status] + Statuses(apps[1..]);
    }
  }

  /**
   * `apps.filter(app => app.status === status).length`: the number of
   * applications whose status is `status`.
   */
  function CountStatus(apps: seq<Application>, status: string): (n: nat)
    ensures n == multiset(Statuses(apps))[status]
    ensures n <= |apps|
  {
    FilterStatusCount(apps, status);
    |Filter(apps, StatusIs(status))|
  }

  /** The five statuses an application moves through. */
  predicate KnownStatus(status: string) {
    status in {"pending", "reviewing", "interview", "rejected", "accepted"}
  }

  /** `getApplicationStats`. */
  function GetApplicationStats(s: State): (st: ApplicationStats)
    ensures st.total == |s.applications|
    ensures var m := multiset(Statuses(s.applications));
            && st.pending == m["pending"] && st.reviewing == m["reviewing"]
            && st.interview == m["interview"] && st.rejected == m["rejected"]
            && st.accepted == m["accepted"]
  {
    ApplicationStats(
      |s.applications|,
      CountStatus(s.applications, "pending"),
      CountStatus(s.applications, "reviewing"),
      CountStatus(s.applications, "interview"),
      CountStatus(s.applications, "rejected"),
      CountStatus(s.applications, "accepted"))
  }

  /** Counting over a concatenation adds up. */
  lemma CountStatusAppend(a: seq<Application>, b: seq<Application>, status: string)
    ensures CountStatus(a + b, status) == CountStatus(a, status) + CountStatus(b, status)
  {
    FilterAppend(a, b, StatusIs(status));
  }

  /** The count of a one-element list. */
  lemma CountStatusSingle(app: Application, status: string)
    ensures CountStatus([app], status) == if app.status == status then 1 else 0
  {
    assert [app][1..] == [];
  }

  /** The five status counters add up to the total when every status is one of the five. */
  lemma {:induction false} StatsSumToTotal(apps: seq<Application>)
    requires forall i :: 0 <= i < |apps| ==> KnownStatus(apps[i].status)
    ensures CountStatus(apps, "pending") + CountStatus(apps, "reviewing")
            + CountStatus(apps, "interview") + CountStatus(apps, "rejected")
            + CountStatus(apps, "accepted") == |apps|
  {
    if apps != [] {
      var rest := apps[1..];
      StatsSumToTotal(rest);
      assert multiset(Statuses(apps)) == multiset{apps[0].status} + multiset(Statuses(rest)) by {
        assert Statuses(apps) == [apps[0].status] + Statuses(rest);
      }
      assert KnownStatus(apps[0].status);
    }
  }

  lemma StatsTotalIsSum(s: State)
    requires forall i :: 0 <= i < |s.applications| ==> KnownStatus(s.applications[i].status)
    ensures var st := GetApplicationStats(s);
            st.pending + st.reviewing + st.interview + st.rejected + st.accepted == st.total
  {
    StatsSumToTotal(s.applications);
  }

  /** The applications for one job. */
  function ForJob(apps: seq<Application>, jobId: int): seq<Application> {
    Filter(apps, (app: Application) => app.jobId == jobId)
  }

  /**
   * Applying to a job not yet applied to and then moving the new
   * application (whose clock id no earlier application carries) to
   * "interview": exactly one application for that job exists and it is in
   * "interview"; the total and the interview counter each grow by one and
   * every other counter is as before.
   */
  lemma ApplyThenInterview(s: State, jobId: int, coverLetter: Option<string>, clockId: int, clockTime: string)
    requires !HasApplied(s, jobId)
    requires forall i :: 0 <= i < |s.applications| ==> s.applications[i].id != clockId
    ensures var s2 := Reduce(Reduce(s, ApplyToJob(jobId, coverLetter, None, clockId, clockTime)),
                             UpdateApplicationStatus(clockId, "interview"));
            var before := GetApplicationStats(s);
            var after := GetApplicationStats(s2);
            && |ForJob(s2.applications, jobId)| == 1
            && ForJob(s2.applications, jobId)[0].status == "interview"
            && after.total == before.total + 1
            && after.interview == before.interview + 1
            && after.pending == before.pending && after.reviewing == before.reviewing
            && after.rejected == before.rejected && after.accepted == before.accepted
  {
    var a := ApplyToJob(jobId, coverLetter, None, clockId, clockTime);
    var moved := NewApplication(s, a).(status := "interview");
    ApplyThenMove(s, a, "interview");
    CountAfterAppend(s.applications, moved, "pending");
    CountAfterAppend(s.applications, moved, "reviewing");
    CountAfterAppend(s.applications, moved, "interview");
    CountAfterAppend(s.applications, moved, "rejected");
    CountAfterAppend(s.applications, moved, "accepted");
    OnlyApplicationForJob(s.applications, moved, jobId);
  }

  /** Applying with a fresh clock id and then moving that application leaves the new application, moved, at the end. */
  lemma ApplyThenMove(s: State, a: Action, status: string)
    requires a.ApplyToJob?
    requires forall i :: 0 <= i < |s.applications| ==> s.applications[i].id != a.clockId
    ensures Reduce(Reduce(s, a), UpdateApplicationStatus(a.clockId, status)).applications
            == s.applications + [NewApplication(s, a).(status := status)]
  {
    var app := NewApplication(s, a);
    var s1 := Reduce(s, a);
    assert s1.applications == s.applications + [app];
    assert Reduce(s1, UpdateApplicationStatus(a.clockId, status)).applications
        == SetStatus(s.applications + [app], app.id, status);
    SetStatusOfNewest(s.applications, app, status);
  }

  /** Setting the status by the id only the newest application carries changes only that one. */
  lemma SetStatusOfNewest(apps: seq<Application>, app: Application, status: string)
    requires forall i :: 0 <= i < |apps| ==> apps[i].id != app.id
    ensures SetStatus(apps + [app], app.id, status) == apps + [app.(status := status)]
  {
    var r := SetStatus(apps + [app], app.id, status);
    forall i | 0 <= i < |r| ensures r[i] == (apps + [app.(status := status)])[i] {
      if i < |apps| {
        assert (apps + [app])[i] == apps[i];
      } else {
        assert (apps + [app])[i] == app;
      }
    }
  }

  lemma CountAfterAppend(apps: seq<Application>, app: Application, status: string)
    ensures CountStatus(apps + [app], status)
            == CountStatus(apps, status) + (if app.status == status then 1 else 0)
  {
    CountStatusAppend(apps, [app], status);
    CountStatusSingle(app, status);
  }

  /** Appending one application for a job nobody applied to yet makes it the only one for that job. */
  lemma OnlyApplicationForJob(apps: seq<Application>, app: Application, jobId: int)
    requires !AnyForJob(apps, jobId) && app.jobId == jobId
    ensures ForJob(apps + [app], jobId) == [app]
  {
    FilterAppend(apps, [app], (x: Application) => x.jobId == jobId);
    NoneForJob(apps, jobId);
    assert [app][1..] == [];
  }

  lemma NoneForJob(apps: seq<Application>, jobId: int)
    requires !AnyForJob(apps, jobId)
    ensures ForJob(apps, jobId) == []
  {
    var r := ForJob(apps, jobId);
    if r != [] {
      assert false;
    }
  }
}
