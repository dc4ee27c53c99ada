/**
 * `jobReducer` and the initial state of the job-board store: a total
 * transition function from a state and an action to the next state.
 */
module Reducer {
  import opened Wrappers
  import opened Lists
  import opened Domain

  /** The upper salary bound of the default filters. */
  const SalaryCeiling: int := 300000

  /** The filters RESET_FILTERS installs, also the initial filters. */
  function DefaultFilters(): Filters {
    Filters("", "", [], [], (0, SalaryCeiling), "")
  }

  function EmptyResume(): Resume {
    Resume(PersonalInfo("", "", "", "", "", ""), [], [], [], [])
  }

  /**
   * The store's first state when browser storage holds nothing: the static
   * catalog, no saved jobs, no applications, nobody signed in, an empty
   * resume, the default filters and no toasts.
   */
  function InitialState(jobs: seq<Job>, companies: seq<Company>): (s: State)
    ensures s.jobs == jobs && s.companies == companies
    ensures s.savedJobs == [] && s.applications == [] && s.user.None? && s.toasts == []
    ensures s.filters == Filters("", "", [], [], (0, 300000), "")
    ensures s.resume.experience == [] && s.resume.education == []
    ensures s.resume.skills == [] && s.resume.projects == []
    ensures s.resume.personalInfo == PersonalInfo("", "", "", "", "", "")
  {
    State(jobs, companies, [], [], None, EmptyResume(), DefaultFilters(), [])
  }

  /** Shallow merge `{ ...f, ...p }` of a partial filters object. */
  function MergeFilters(f: Filters, p: FiltersPatch): (r: Filters)
    ensures p.search.Some? ==> r.search == p.search.value
    ensures p.search.None? ==> r.search == f.search
    ensures p.location.Some? ==> r.location == p.location.value
    ensures p.location.None? ==> r.location == f.location
    ensures p.jobType.Some? ==> r.jobType == p.jobType.value
    ensures p.jobType.None? ==> r.jobType == f.jobType
    ensures p.experienceLevel.Some? ==> r.experienceLevel == p.experienceLevel.value
    ensures p.experienceLevel.None? ==> r.experienceLevel == f.experienceLevel
    ensures p.salaryRange.Some? ==> r.salaryRange == p.salaryRange.value
    ensures p.salaryRange.None? ==> r.salaryRange == f.salaryRange
    ensures p.category.Some? ==> r.category == p.category.value
    ensures p.category.None? ==> r.category == f.category
  {
    Filters(
      p.search.GetOr(f.search),
      p.location.GetOr(f.location),
      p.jobType.GetOr(f.jobType),
      p.experienceLevel.GetOr(f.experienceLevel),
      p.salaryRange.GetOr(f.salaryRange),
      p.category.GetOr(f.category))
  }

  /** Shallow merge `{ ...info, ...p }` of a partial personal-info object. */
  function MergePersonalInfo(info: PersonalInfo, p: PersonalInfoPatch): (r: PersonalInfo)
    ensures p.fullName.Some? ==> r.fullName == p.fullName.value
    ensures p.fullName.None? ==> r.fullName == info.fullName
    ensures p.email.Some? ==> r.email == p.email.value
    ensures p.email.None? ==> r.email == info.email
    ensures p.phone.Some? ==> r.phone == p.phone.value
    ensures p.phone.None? ==> r.phone == info.phone
    ensures p.location.Some? ==> r.location == p.location.value
    ensures p.location.None? ==> r.location == info.location
    ensures p.title.Some? ==> r.title == p.title.value
    ensures p.title.None? ==> r.title == info.title
    ensures p.summary.Some? ==> r.summary == p.summary.value
    ensures p.summary.None? ==> r.summary == info.summary
  {
    PersonalInfo(
      p.fullName.GetOr(info.fullName),
      p.email.GetOr(info.email),
      p.phone.GetOr(info.phone),
      p.location.GetOr(info.location),
      p.title.GetOr(info.title),
      p.summary.GetOr(info.summary))
  }

  /** Shallow merge `{ ...resume, ...p }` of a partial resume object. */
  function MergeResume(r0: Resume, p: ResumePatch): (r: Resume)
    ensures p.personalInfo.Some? ==> r.personalInfo == p.personalInfo.value
    ensures p.personalInfo.None? ==> r.personalInfo == r0.personalInfo
    ensures p.experience.Some? ==> r.experience == p.experience.value
    ensures p.experience.None? ==> r.experience == r0.experience
    ensures p.education.Some? ==> r.education == p.education.value
    ensures p.education.None? ==> r.education == r0.education
    ensures p.skills.Some? ==> r.skills == p.skills.value
    ensures p.skills.None? ==> r.skills == r0.skills
    ensures p.projects.Some? ==> r.projects == p.projects.value
    ensures p.projects.None? ==> r.projects == r0.projects
  {
    Resume(
      p.personalInfo.GetOr(r0.personalInfo),
      p.experience.GetOr(r0.experience),
      p.education.GetOr(r0.education),
      p.skills.GetOr(r0.skills),
      p.projects.GetOr(r0.projects))
  }

  /** Merging the same patch twice is merging it once. */
  lemma MergeFiltersIdempotent(f: Filters, p: FiltersPatch)
    ensures MergeFilters(MergeFilters(f, p), p) == MergeFilters(f, p)
  {
  }

  /** The ids of a sub-list, in order. */
  function Ids<T>(s: seq<Entry<T>>): (r: seq<int>)
    ensures |r| == |s|
    ensures forall i :: 0 <= i < |s| ==> r[i] == s[i].id
  {
    if s == [] then [] else [s[0].id] + Ids(s[1..])
  }

  /**
   * `list.map(x => x.id === e.id ? e : x)`: every element carrying `e`'s id
   * is replaced wholesale by `e`; the others, the length and the order stay.
   */
  function ReplaceById<T>(s: seq<Entry<T>>, e: Entry<T>): (r: seq<Entry<T>>)
    ensures |r| == |s|
    ensures forall i :: 0 <= i < |s| && s[i].id == e.id ==> r[i] == e
    ensures forall i :: 0 <= i < |s| && s[i].id != e.id ==> r[i] == s[i]
  {
    if s == [] then []
    else [if s[0].id == e.id then e else s[0]] + ReplaceById(s[1..], e)
  }

  /** Replacing keeps the sequence of ids, so an update never adds, drops or re-keys an entry. */
  lemma ReplaceByIdKeepsIds<T>(s: seq<Entry<T>>, e: Entry<T>)
    ensures Ids(ReplaceById(s, e)) == Ids(s)
  {
  }

  /** Replacing twice with the same entry is replacing once. */
  lemma ReplaceByIdIdempotent<T>(s: seq<Entry<T>>, e: Entry<T>)
    ensures ReplaceById(ReplaceById(s, e), e) == ReplaceById(s, e)
  {
  }

  /** An update whose id is in no entry leaves the list unchanged. */
  lemma ReplaceByIdAbsent<T>(s: seq<Entry<T>>, e: Entry<T>)
    requires e.id !in Ids(s)
    ensures ReplaceById(s, e) == s
  {
    forall i | 0 <= i < |s| ensures s[i].id != e.id {
      assert Ids(s)[i] == s[i].id;
    }
  }

  /** The predicate `x => x.id !== id`. */
  function IdDiffers<T>(id: int): Entry<T> -> bool {
    (x: Entry<T>) => x.id != id
  }

  /** `list.filter(x => x.id !== id)`: every entry with that id removed, the rest kept in order. */
  function DeleteById<T(==,!new)>(s: seq<Entry<T>>, id: int): (r: seq<Entry<T>>)
    ensures forall x :: x in r <==> x in s && x.id != id
    ensures forall x: Entry<T> :: x.id != id ==> multiset(r)[x] == multiset(s)[x]
    ensures IsSubsequence(r, s)
    ensures (forall x :: x in s ==> x.id != id) ==> r == s
  {
    var r := Filter(s, IdDiffers(id));
    FilterIsSubsequence(s, IdDiffers(id));
    FilterCounts(s, IdDiffers(id));
    assert (forall x :: x in s ==> x.id != id) ==> r == s by {
      if forall x :: x in s ==> x.id != id { FilterKeepsAll(s, IdDiffers(id)); }
    }
    r
  }

  /** Deleting is idempotent: a second delete of the same id changes nothing. */
  lemma DeleteByIdIdempotent<T(!new)>(s: seq<Entry<T>>, id: int)
    ensures DeleteById(DeleteById(s, id), id) == DeleteById(s, id)
  {
  }

  /**
   * `apps.map(app => app.id === id ? { ...app, status } : app)`: only the
   * status of the matching applications changes.
   */
  function SetStatus(apps: seq<Application>, id: int, status: string): (r: seq<Application>)
    ensures |r| == |apps|
    ensures forall i :: 0 <= i < |apps| ==> r[i].(status := apps[i].status) == apps[i]
    ensures forall i :: 0 <= i < |apps| && apps[i].id == id ==> r[i].status == status
    ensures forall i :: 0 <= i < |apps| && apps[i].id != id ==> r[i] == apps[i]
  {
    if apps == [] then []
    else [if apps[0].id == id then apps[0].(status := status) else apps[0]]
         + SetStatus(apps[1..], id, status)
  }

  /** The application APPLY_TO_JOB creates. */
  function NewApplication(s: State, a: Action): (app: Application)
    requires a.ApplyToJob?
    ensures app.id == a.clockId && app.jobId == a.jobId && app.appliedAt == a.clockTime
    ensures app.status == "pending"
    ensures a.coverLetter.None? ==> app.coverLetter == ""
    ensures a.coverLetter.Some? ==> app.coverLetter == a.coverLetter.value
    ensures a.attachedResume.None? ==> app.resume == s.resume
    ensures a.attachedResume.Some? ==> app.resume == a.attachedResume.value
  {
    Application(a.clockId, a.jobId, a.clockTime, "pending",
                a.coverLetter.GetOr(""), a.attachedResume.GetOr(s.resume))
  }

  /** The predicate `toast => toast.id !== id`. */
  function ToastDiffers(id: int): Toast -> bool {
    (t: Toast) => t.id != id
  }

  function WithResume(s: State, r: Resume): State {
    s.(resume := r)
  }

  /** True for the actions that rewrite the resume slice. */
  predicate EditsResume(a: Action) {
    || a.UpdateResume? || a.UpdatePersonalInfo?
    || a.AddExperience? || a.UpdateExperience? || a.DeleteExperience?
    || a.AddEducation? || a.UpdateEducation? || a.DeleteEducation?
    || a.AddSkill? || a.RemoveSkill?
    || a.AddProject? || a.UpdateProject? || a.DeleteProject?
  }

  /**
   * `jobReducer`. Every action rewrites one slice of the state; the catalog
   * is never touched, every other slice is carried over, and an
   * unrecognised action returns the state itself. Inside the resume, each
   * action rewrites one field and spreads the others over unchanged;
   * UPDATE_RESUME alone may rewrite several.
   */
  function Reduce(s: State, a: Action): (r: State)
    ensures r.jobs == s.jobs && r.companies == s.companies
    ensures !(a.SetFilters? || a.ResetFilters?) ==> r.filters == s.filters
    ensures !a.ToggleSaveJob? ==> r.savedJobs == s.savedJobs
    ensures !(a.ApplyToJob? || a.UpdateApplicationStatus?) ==> r.applications == s.applications
    ensures !(a.Login? || a.Logout?) ==> r.user == s.user
    ensures !EditsResume(a) ==> r.resume == s.resume
    ensures !(a.UpdateResume? || a.UpdatePersonalInfo?) ==> r.resume.personalInfo == s.resume.personalInfo
    ensures !(a.UpdateResume? || a.AddExperience? || a.UpdateExperience? || a.DeleteExperience?) ==>
              r.resume.experience == s.resume.experience
    ensures !(a.UpdateResume? || a.AddEducation? || a.UpdateEducation? || a.DeleteEducation?) ==>
              r.resume.education == s.resume.education
    ensures !(a.UpdateResume? || a.AddSkill? || a.RemoveSkill?) ==> r.resume.skills == s.resume.skills
    ensures !(a.UpdateResume? || a.AddProject? || a.UpdateProject? || a.DeleteProject?) ==>
              r.resume.projects == s.resume.projects
    ensures !(a.AddToast? || a.RemoveToast?) ==> r.toasts == s.toasts
    ensures a.Unrecognized? ==> r == s
  {
    var res := s.resume;
    match a
    case SetFilters(p) => s.(filters := MergeFilters(s.filters, p))
    case ResetFilters => s.(filters := DefaultFilters())
    case ToggleSaveJob(id) => s.(savedJobs := Toggle(s.savedJobs, id))
    case ApplyToJob(_, _, _, _, _) => s.(applications := s.applications + [NewApplication(s, a)])
    case UpdateApplicationStatus(id, status) => s.(applications := SetStatus(s.applications, id, status))
    case Login(u) => s.(user := Some(u))
    case Logout => s.(user := None)
    case UpdateResume(p) => WithResume(s, MergeResume(res, p))
    case UpdatePersonalInfo(p) => WithResume(s, res.(personalInfo := MergePersonalInfo(res.personalInfo, p)))
    case AddExperience(e) => WithResume(s, res.(experience := res.experience + [e]))
    case UpdateExperience(e) => WithResume(s, res.(experience := ReplaceById(res.experience, e)))
    case DeleteExperience(id) => WithResume(s, res.(experience := DeleteById(res.experience, id)))
    case AddEducation(e) => WithResume(s, res.(education := res.education + [e]))
    case UpdateEducation(e) => WithResume(s, res.(education := ReplaceById(res.education, e)))
    case DeleteEducation(id) => WithResume(s, res.(education := DeleteById(res.education, id)))
    case AddSkill(skill) =>
      if skill in res.skills then s else WithResume(s, res.(skills := res.skills + [skill]))
    case RemoveSkill(skill) => WithResume(s, res.(skills := Without(res.skills, skill)))
    case AddProject(p) => WithResume(s, res.(projects := res.projects + [p]))
    case UpdateProject(p) => WithResume(s, res.(projects := ReplaceById(res.projects, p)))
    case DeleteProject(id) => WithResume(s, res.(projects := DeleteById(res.projects, id)))
    case AddToast(t) => s.(toasts := s.toasts + [t])
    case RemoveToast(id) => s.(toasts := Filter(s.toasts, ToastDiffers(id)))
    case Unrecognized(_) => s
  }

  /** RESET_FILTERS installs exactly the default filters, whatever the state was. */
  lemma ResetFiltersExact(s: State)
    ensures Reduce(s, ResetFilters).filters == Filters("", "", [], [], (0, 300000), "")
    ensures Reduce(s, ResetFilters) == s.(filters := InitialState(s.jobs, s.companies).filters)
  {
  }

  /**
   * SET_FILTERS replaces the filters by their merge with the patch, so only
   * the keys the patch names change; an empty patch changes nothing and
   * the same patch twice is the patch once.
   */
  lemma SetFiltersOverridesPresentKeys(s: State, p: FiltersPatch)
    ensures Reduce(s, SetFilters(p)) == s.(filters := MergeFilters(s.filters, p))
    ensures p == FiltersPatch(None, None, None, None, None, None) ==> Reduce(s, SetFilters(p)) == s
    ensures Reduce(Reduce(s, SetFilters(p)), SetFilters(p)) == Reduce(s, SetFilters(p))
  {
    MergeFiltersIdempotent(s.filters, p);
  }

  /**
   * UPDATE_PERSONAL_INFO replaces only the personal info, by its key-by-key
   * merge with the payload; an empty payload changes nothing and the same
   * payload twice is the payload once.
   */
  lemma UpdatePersonalInfoSemantics(s: State, p: PersonalInfoPatch)
    ensures Reduce(s, UpdatePersonalInfo(p))
            == s.(resume := s.resume.(personalInfo := MergePersonalInfo(s.resume.personalInfo, p)))
    ensures p == PersonalInfoPatch(None, None, None, None, None, None) ==> Reduce(s, UpdatePersonalInfo(p)) == s
    ensures Reduce(Reduce(s, UpdatePersonalInfo(p)), UpdatePersonalInfo(p)) == Reduce(s, UpdatePersonalInfo(p))
  {
  }

  /**
   * UPDATE_RESUME replaces only the resume, by its shallow merge with the
   * payload; an empty payload changes nothing and the same payload twice
   * is the payload once.
   */
  lemma UpdateResumeSemantics(s: State, p: ResumePatch)
    ensures Reduce(s, UpdateResume(p)) == s.(resume := MergeResume(s.resume, p))
    ensures p == ResumePatch(None, None, None, None, None) ==> Reduce(s, UpdateResume(p)) == s
    ensures Reduce(Reduce(s, UpdateResume(p)), UpdateResume(p)) == Reduce(s, UpdateResume(p))
  {
  }

  /**
   * TOGGLE_SAVE_JOB: a saved id is removed wherever it occurs and the
   * others keep their order; an unsaved id is appended at the end.
   * Toggling twice restores membership, and restores the list exactly
   * when the id was not saved.
   */
  lemma ToggleSaveJobSemantics(s: State, id: int)
    ensures var saved := Reduce(s, ToggleSaveJob(id)).savedJobs;
            && (id in saved <==> id !in s.savedJobs)
            && (forall y :: y != id ==> (y in saved <==> y in s.savedJobs))
            && (id in s.savedJobs ==> IsSubsequence(saved, s.savedJobs) && id !in saved)
            && (id !in s.savedJobs ==> saved == s.savedJobs + [id])
    ensures var twice := Reduce(Reduce(s, ToggleSaveJob(id)), ToggleSaveJob(id)).savedJobs;
            && (forall y :: y in twice <==> y in s.savedJobs)
            && (id !in s.savedJobs ==> twice == s.savedJobs)
  {
    ToggleTwiceMembership(s.savedJobs, id);
    if id !in s.savedJobs { ToggleTwiceAbsent(s.savedJobs, id); }
  }

  /** LOGIN signs the payload user in, whoever was signed in before; nothing else changes. */
  lemma LoginSemantics(s: State, u: User)
    ensures Reduce(s, Login(u)) == s.(user := Some(u))
    ensures Reduce(s, Login(u)).user.Some? && Reduce(s, Login(u)).user.value == u
  {
  }

  /** LOGOUT leaves nobody signed in and changes nothing else; a second LOGOUT changes nothing. */
  lemma LogoutSemantics(s: State)
    ensures Reduce(s, Logout) == s.(user := None)
    ensures Reduce(Reduce(s, Logout), Logout) == Reduce(s, Logout)
  {
  }

  /**
   * REMOVE_TOAST drops every toast with the id, keeps every copy of the
   * others in their order, and changes nothing for an unknown id.
   */
  lemma RemoveToastSemantics(s: State, id: int)
    ensures var ts := Reduce(s, RemoveToast(id)).toasts;
            && (forall t :: t in ts <==> t in s.toasts && t.id != id)
            && (forall t: Toast :: t.id != id ==> multiset(ts)[t] == multiset(s.toasts)[t])
            && IsSubsequence(ts, s.toasts)
            && ((forall t :: t in s.toasts ==> t.id != id) ==> ts == s.toasts)
    ensures Reduce(s, RemoveToast(id)) == s.(toasts := Reduce(s, RemoveToast(id)).toasts)
  {
    var ts := Filter(s.toasts, ToastDiffers(id));
    assert Reduce(s, RemoveToast(id)) == s.(toasts := ts);
    FilterCounts(s.toasts, ToastDiffers(id));
    FilterIsSubsequence(s.toasts, ToastDiffers(id));
    if forall t :: t in s.toasts ==> t.id != id {
      FilterKeepsAll(s.toasts, ToastDiffers(id));
    }
  }

  /**
   * ADD_SKILL: a skill already listed returns the very same state; a new
   * one is appended after the untouched earlier skills. Adding a skill
   * twice leaves exactly one copy. Only the skills change.
   */
  lemma AddSkillSemantics(s: State, skill: string)
    ensures Reduce(s, AddSkill(skill)) == s.(resume := s.resume.(skills := Reduce(s, AddSkill(skill)).resume.skills))
    ensures skill in s.resume.skills ==> Reduce(s, AddSkill(skill)) == s
    ensures skill !in s.resume.skills ==>
              Reduce(s, AddSkill(skill)).resume.skills == s.resume.skills + [skill]
    ensures var twice := Reduce(Reduce(s, AddSkill(skill)), AddSkill(skill)).resume.skills;
            && twice == AddIfAbsent(s.resume.skills, skill)
            && (skill !in s.resume.skills ==> multiset(twice)[skill] == 1)
  {
    AddIfAbsentTwice(s.resume.skills, skill);
  }

  /**
   * REMOVE_SKILL drops every copy of the skill, keeps every copy of the
   * others in order, and is a no-op for an unlisted skill. Only the skills
   * change.
   */
  lemma RemoveSkillSemantics(s: State, skill: string)
    ensures Reduce(s, RemoveSkill(skill)) == s.(resume := s.resume.(skills := Reduce(s, RemoveSkill(skill)).resume.skills))
    ensures var skills := Reduce(s, RemoveSkill(skill)).resume.skills;
            && skill !in skills
            && IsSubsequence(skills, s.resume.skills)
            && (forall x :: x != skill ==> (x in skills <==> x in s.resume.skills))
            && (skill !in s.resume.skills ==> skills == s.resume.skills)
  {
  }

  /**
   * DELETE_EXPERIENCE removes every entry with the id, keeps the rest in
   * order, and leaves the resume unchanged for an unknown id. Only the
   * experience list changes.
   */
  lemma DeleteExperienceSemantics(s: State, id: int)
    ensures Reduce(s, DeleteExperience(id)) == s.(resume := s.resume.(experience := Reduce(s, DeleteExperience(id)).resume.experience))
    ensures var r := Reduce(s, DeleteExperience(id)).resume;
            && (forall x :: x in r.experience <==> x in s.resume.experience && x.id != id)
            && IsSubsequence(r.experience, s.resume.experience)
            && (id !in Ids(s.resume.experience) ==> r == s.resume)
  {
    assert Reduce(s, DeleteExperience(id)).resume
        == s.resume.(experience := DeleteById(s.resume.experience, id));
    IdsMembers(s.resume.experience, id);
  }

  /** DELETE_EDUCATION: as DELETE_EXPERIENCE, on the education list. */
  lemma DeleteEducationSemantics(s: State, id: int)
    ensures Reduce(s, DeleteEducation(id)) == s.(resume := s.resume.(education := Reduce(s, DeleteEducation(id)).resume.education))
    ensures var r := Reduce(s, DeleteEducation(id)).resume;
            && (forall x :: x in r.education <==> x in s.resume.education && x.id != id)
            && IsSubsequence(r.education, s.resume.education)
            && (id !in Ids(s.resume.education) ==> r == s.resume)
  {
    assert Reduce(s, DeleteEducation(id)).resume
        == s.resume.(education := DeleteById(s.resume.education, id));
    IdsMembers(s.resume.education, id);
  }

  /** DELETE_PROJECT: as DELETE_EXPERIENCE, on the project list. */
  lemma DeleteProjectSemantics(s: State, id: int)
    ensures Reduce(s, DeleteProject(id)) == s.(resume := s.resume.(projects := Reduce(s, DeleteProject(id)).resume.projects))
    ensures var r := Reduce(s, DeleteProject(id)).resume;
            && (forall x :: x in r.projects <==> x in s.resume.projects && x.id != id)
            && IsSubsequence(r.projects, s.resume.projects)
            && (id !in Ids(s.resume.projects) ==> r == s.resume)
  {
    assert Reduce(s, DeleteProject(id)).resume
        == s.resume.(projects := DeleteById(s.resume.projects, id));
    IdsMembers(s.resume.projects, id);
  }

  lemma IdsMembers<T(!new)>(s: seq<Entry<T>>, id: int)
    ensures id !in Ids(s) ==> forall x :: x in s ==> x.id != id
  {
    if id !in Ids(s) {
      forall x | x in s ensures x.id != id {
        var i :| 0 <= i < |s| && s[i] == x;
        assert Ids(s)[i] == x.id;
      }
    }
  }

  /**
   * UPDATE_EXPERIENCE keeps the length, the order and the ids of the list,
   * and replaces wholesale exactly the entries with the payload's id. Only
   * the experience list changes.
   */
  lemma UpdateExperienceSemantics(s: State, e: Experience)
    ensures Reduce(s, UpdateExperience(e)) == s.(resume := s.resume.(experience := Reduce(s, UpdateExperience(e)).resume.experience))
    ensures var xs := Reduce(s, UpdateExperience(e)).resume.experience;
            && Ids(xs) == Ids(s.resume.experience)
            && (forall i :: 0 <= i < |xs| ==>
                  xs[i] == if s.resume.experience[i].id == e.id then e else s.resume.experience[i])
  {
    assert Reduce(s, UpdateExperience(e)).resume.experience == ReplaceById(s.resume.experience, e);
    ReplaceByIdKeepsIds(s.resume.experience, e);
  }

  /** UPDATE_EDUCATION: as UPDATE_EXPERIENCE, on the education list. */
  lemma UpdateEducationSemantics(s: State, d: Education)
    ensures Reduce(s, UpdateEducation(d)) == s.(resume := s.resume.(education := Reduce(s, UpdateEducation(d)).resume.education))
    ensures var xs := Reduce(s, UpdateEducation(d)).resume.education;
            && Ids(xs) == Ids(s.resume.education)
            && (forall i :: 0 <= i < |xs| ==>
                  xs[i] == if s.resume.education[i].id == d.id then d else s.resume.education[i])
  {
    assert Reduce(s, UpdateEducation(d)).resume.education == ReplaceById(s.resume.education, d);
    ReplaceByIdKeepsIds(s.resume.education, d);
  }

  /** UPDATE_PROJECT: as UPDATE_EXPERIENCE, on the project list. */
  lemma UpdateProjectSemantics(s: State, p: Project)
    ensures Reduce(s, UpdateProject(p)) == s.(resume := s.resume.(projects := Reduce(s, UpdateProject(p)).resume.projects))
    ensures var xs := Reduce(s, UpdateProject(p)).resume.projects;
            && Ids(xs) == Ids(s.resume.projects)
            && (forall i :: 0 <= i < |xs| ==>
                  xs[i] == if s.resume.projects[i].id == p.id then p else s.resume.projects[i])
  {
    assert Reduce(s, UpdateProject(p)).resume.projects == ReplaceById(s.resume.projects, p);
    ReplaceByIdKeepsIds(s.resume.projects, p);
  }

  /**
   * APPLY_TO_JOB appends exactly one application, pending, with the cover
   * letter defaulting to "" and the resume to the current one; earlier
   * applications are untouched.
   */
  lemma ApplyToJobSemantics(s: State, a: Action)
    requires a.ApplyToJob?
    ensures var apps := Reduce(s, a).applications;
            && |apps| == |s.applications| + 1
            && apps[..|s.applications|] == s.applications
            && apps[|s.applications|].status == "pending"
            && apps[|s.applications|].jobId == a.jobId
            && apps[|s.applications|].coverLetter == a.coverLetter.GetOr("")
            && apps[|s.applications|].resume == a.attachedResume.GetOr(s.resume)
  {
  }

  /** UPDATE_APPLICATION_STATUS changes only the status of the matching applications. */
  lemma UpdateStatusSemantics(s: State, id: int, status: string)
    ensures var apps := Reduce(s, UpdateApplicationStatus(id, status)).applications;
            && |apps| == |s.applications|
            && (forall i :: 0 <= i < |apps| ==>
                  apps[i].(status := s.applications[i].status) == s.applications[i])
            && (forall i :: 0 <= i < |apps| && s.applications[i].id == id ==> apps[i].status == status)
            && (forall i :: 0 <= i < |apps| && s.applications[i].id != id ==> apps[i] == s.applications[i])
  {
  }

  /**
   * The uniqueness the store keeps: saved ids form a set and so do the
   * resume's skills.
   */
  predicate Invariant(s: State) {
    NoDup(s.savedJobs) && NoDup(s.resume.skills)
  }

  /** UPDATE_RESUME is the one action that can install an arbitrary skills list. */
  predicate KeepsSkillsUnique(a: Action) {
    a.UpdateResume? && a.resumePatch.skills.Some? ==> NoDup(a.resumePatch.skills.value)
  }

  lemma InitialStateInvariant(jobs: seq<Job>, companies: seq<Company>)
    ensures Invariant(InitialState(jobs, companies))
  {
  }

  /** Every action keeps the saved ids and the skills free of duplicates. */
  lemma ReducePreservesInvariant(s: State, a: Action)
    requires Invariant(s) && KeepsSkillsUnique(a)
    ensures Invariant(Reduce(s, a))
  {
    match a
    case ToggleSaveJob(id) => ToggleKeepsNoDup(s.savedJobs, id);
    case AddSkill(skill) => AddIfAbsentKeepsNoDup(s.resume.skills, skill);
    case RemoveSkill(skill) => SubsequenceKeepsNoDup(Without(s.resume.skills, skill), s.resume.skills);
    case _ =>
  }
}
