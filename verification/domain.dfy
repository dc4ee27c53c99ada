/**
 * The records held by the job-board store: catalog entries, the resume
 * and its sub-lists, applications, the user, the filters, toasts, the
 * whole state tree, and the closed set of actions the reducer accepts.
 */
module Domain {
  import opened Wrappers

  /** A catalog job. `postedAt` is the instant its ISO date denotes, as an integer timestamp. */
  datatype Job = Job(
    id: int,
    title: string,
    company: string,
    companyId: int,
    location: string,
    jobType: string,
    experienceLevel: string,
    category: string,
    salaryMin: int,
    salaryMax: int,
    description: string,
    skills: seq<string>,
    postedAt: int,
    applicants: int,
    featured: bool)

  datatype Company = Company(id: int, name: string, industry: string, location: string)

  datatype PersonalInfo = PersonalInfo(
    fullName: string,
    email: string,
    phone: string,
    location: string,
    title: string,
    summary: string)

  /** An item of one of the resume's sub-lists, keyed by the numeric id it was given when added. */
  datatype Entry<T> = Entry(id: int, item: T)

  datatype ExperienceItem = ExperienceItem(
    title: string,
    company: string,
    location: string,
    startDate: string,
    endDate: string,
    current: bool,
    description: string)

  datatype EducationItem = EducationItem(
    degree: string,
    school: string,
    location: string,
    startDate: string,
    endDate: string,
    description: string)

  datatype ProjectItem = ProjectItem(
    name: string,
    description: string,
    link: string,
    technologies: string)

  type Experience = Entry<ExperienceItem>
  type Education = Entry<EducationItem>
  type Project = Entry<ProjectItem>

  datatype Resume = Resume(
    personalInfo: PersonalInfo,
    experience: seq<Experience>,
    education: seq<Education>,
    skills: seq<string>,
    projects: seq<Project>)

  /** An application; `resume` is the resume attached when it was submitted. */
  datatype Application = Application(
    id: int,
    jobId: int,
    appliedAt: string,
    status: string,
    coverLetter: string,
    resume: Resume)

  datatype User = User(id: int, name: string, email: string, avatar: Option<string>)

  datatype Filters = Filters(
    search: string,
    location: string,
    jobType: seq<string>,
    experienceLevel: seq<string>,
    salaryRange: (int, int),
    category: string)

  datatype Toast = Toast(id: int, kind: string, title: Option<string>, message: string)

  datatype State = State(
    jobs: seq<Job>,
    companies: seq<Company>,
    savedJobs: seq<int>,
    applications: seq<Application>,
    user: Option<User>,
    resume: Resume,
    filters: Filters,
    toasts: seq<Toast>)

  /** A partial filters object: the keys that are present override, the others are kept. */
  datatype FiltersPatch = FiltersPatch(
    search: Option<string>,
    location: Option<string>,
    jobType: Option<seq<string>>,
    experienceLevel: Option<seq<string>>,
    salaryRange: Option<(int, int)>,
    category: Option<string>)

  /** A partial personal-info object. */
  datatype PersonalInfoPatch = PersonalInfoPatch(
    fullName: Option<string>,
    email: Option<string>,
    phone: Option<string>,
    location: Option<string>,
    title: Option<string>,
    summary: Option<string>)

  /** A partial resume object. */
  datatype ResumePatch = ResumePatch(
    personalInfo: Option<PersonalInfo>,
    experience: Option<seq<Experience>>,
    education: Option<seq<Education>>,
    skills: Option<seq<string>>,
    projects: Option<seq<Project>>)

  /**
   * The action tags of the reducer. `ApplyToJob` carries the clock readings
   * the reducer takes itself (`Date.now()` for the id, the ISO time);
   * `Unrecognized` stands for any other tag.
   */
  datatype Action =
    | SetFilters(filtersPatch: FiltersPatch)
    | ResetFilters
    | ToggleSaveJob(savedId: int)
    | ApplyToJob(jobId: int, coverLetter: Option<string>, attachedResume: Option<Resume>,
                 clockId: int, clockTime: string)
    | UpdateApplicationStatus(applicationId: int, newStatus: string)
    | Login(user: User)
    | Logout
    | UpdateResume(resumePatch: ResumePatch)
    | UpdatePersonalInfo(infoPatch: PersonalInfoPatch)
    | AddExperience(experience: Experience)
    | UpdateExperience(experience: Experience)
    | DeleteExperience(experienceId: int)
    | AddEducation(education: Education)
    | UpdateEducation(education: Education)
    | DeleteEducation(educationId: int)
    | AddSkill(skill: string)
    | RemoveSkill(skill: string)
    | AddProject(project: Project)
    | UpdateProject(project: Project)
    | DeleteProject(projectId: int)
    | AddToast(toast: Toast)
    | RemoveToast(toastId: int)
    | Unrecognized(tag: string)
}
