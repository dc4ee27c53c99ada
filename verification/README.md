# Job board store and pages, modelled in Dafny

This project models the logic of a client-side job-board application.

- **The store.** A central reducer (`jobReducer`) takes the state and an action to the next state. The state holds:
  - the job and company catalog;
  - the saved job ids;
  - the applications;
  - the signed-in user;
  - the resume, with its experience, education, skills and project lists;
  - the search filters;
  - the toasts.

  The store keeps one state field and replaces it on every dispatch.
- **Derived queries.** These read the store: the filtered job list, saved jobs, "has applied", lookups by id, and application statistics.
- **Page logic.** Four pages build actions for the store or consume its output:
  - the filter side panel;
  - the sort switch of the job list;
  - the sign-in / sign-up form;
  - the resume builder, including its plain-text export.

Modules, one concept each:

| module | file | what it holds |
|---|---|---|
| `Wrappers` | wrappers.dfy | `Option` |
| `Text` | text.dfy | `trim`, ASCII `toLowerCase`, substring search, `join`, `split(c)[0]` |
| `Lists` | lists.dfy | `filter`, set-toggle, append-if-absent, `find`, subsequences, uniqueness |
| `Domain` | domain.dfy | the records of the state tree and the closed set of actions |
| `Reducer` | reducer.dfy | `jobReducer`, `initialState`, the shallow merges, and the per-action semantics lemmas |
| `StoreModule` | store.dfy | the store as a class with one `state` field, `Dispatch` and `AddToast` |
| `Queries` | queries.dfy | `getFilteredJobs`, shown equal to a reference conjunction of all six filter tests, plus the other derived queries |
| `JobFilters` | job_filters.dfy | the toggle, salary and clear handlers, and `hasActiveFilters` |
| `JobsPage` | jobs_page.dfy | the sort switch: an in-place stable insertion sort on an array, proved against a functional sort |
| `Auth` | auth.dfy | `validateForm` as a method filling an error map, the email pattern, and the user records for form and social sign-in |
| `ResumePage` | resume_page.dfy | `handleAddSkill`, the add-or-update submit branch, and `downloadResume` |

`downloadResume` is a method that appends piece by piece, with one loop per list, and is proved equal to a declarative `ResumeText`.

Clock readings are parameters, never read by the model:
- `clockId` stands for `Date.now()`.
- `clockTime` stands for `new Date().toISOString()`.

Browser storage, timers, the DOM and rendering are not modelled.

The store's uniqueness invariant covers two lists: no duplicate saved ids and no duplicate skills. Every action keeps it except one: UPDATE_RESUME can install any skills list. So `Dispatch` promises the invariant only for actions that satisfy `KeepsSkillsUnique`: UPDATE_RESUME is the one action that needs it, and it must bring a duplicate-free skills list. The reducer itself never removes such duplicates.

## Model

| member | source | states |
|---|---|---|
| Text.Trim | src/pages/Resume.jsx:140-141 | The result is empty exactly when the input is all white space. Otherwise it starts and ends with a non-space character. It is a contiguous piece of the input. |
| Text.TrimCutsOnlySpace | src/pages/Resume.jsx:140-141 | The input is white space, then the result, then white space: `trim` removes nothing else. Together with the non-space ends above, this fixes the result exactly. |
| Text.Lower | src/context/JobContext.jsx:248-260 | Same length as the input. Each character is mapped by the ASCII lower-casing of `LowerChar`. |
| Text.LowerChar | src/context/JobContext.jsx:248 | `A`-`Z` map to `a`-`z`, each letter to its own lower-case form (code point plus 32). Every other character is unchanged. |
| Text.Join | src/pages/Resume.jsx:213 | `join` of no strings is empty. `join` of one string is that string. |
| Text.JoinSplit | src/pages/Resume.jsx:213 | Cut anywhere between two parts, the joined text is the join of the front parts, one separator, and the join of the back parts. So every part appears in order with exactly one separator between neighbours. |
| Text.JoinLength | src/pages/Resume.jsx:213 | The joined length is the sum of the parts' lengths plus one separator between each pair. |
| Text.BeforeFirst | src/pages/Auth.jsx:66 | `split(c)[0]`: a prefix of the input without `c`. When shorter than the input, it is followed by `c`. |
| Lists.Filter | src/context/JobContext.jsx:60 | Never longer than the input. It keeps exactly the members that pass the test. |
| Lists.Without | src/context/JobContext.jsx:179 | Removes every copy of `x` and keeps every copy of every other value, as an order-preserving subsequence. It is the identity when `x` is absent. |
| Lists.Toggle | src/context/JobContext.jsx:58-61 | Present: every copy is removed, leaving a shorter subsequence. Absent: appended at the end. Every other value keeps its number of copies. |
| Lists.ToggleTwiceMembership | src/context/JobContext.jsx:56-63 | Toggling the same value twice restores the membership of every value. |
| Lists.ToggleTwiceAbsent | src/context/JobContext.jsx:56-63 | When the value was absent, toggling twice restores the list exactly. |
| Lists.ToggleKeepsNoDup | src/context/JobContext.jsx:56-63 | A toggle keeps a duplicate-free list duplicate-free. |
| Lists.AddIfAbsent | src/context/JobContext.jsx:162-172 | The old list is a prefix of the result. The length grows by one exactly when the value was absent, and the value then occurs exactly once. |
| Lists.AddIfAbsentTwice | src/context/JobContext.jsx:162-172 | Adding twice is adding once. A new value ends up with exactly one copy. |
| Lists.AddIfAbsentKeepsNoDup | src/context/JobContext.jsx:162-172 | Append-if-absent keeps a duplicate-free list duplicate-free. |
| Lists.FilterCounts | src/context/JobContext.jsx:60 | Filtering keeps every copy of each value that passes and no copy of a value that fails. |
| Lists.Find | src/context/JobContext.jsx:309-316 | Nothing exactly when no element passes. Otherwise the result is an element that passes. |
| Reducer.InitialState | src/context/JobContext.jsx:7-36 | Empty storage gives: the catalog, no saved jobs or applications, no user, an empty resume whose six personal-info fields are all empty, the default filters and no toasts. |
| Reducer.MergeFilters | src/context/JobContext.jsx:40-41 | `{...filters, ...payload}`: every key present in the payload overrides. Every absent key is kept. |
| Reducer.MergeFiltersIdempotent | src/context/JobContext.jsx:40-41 | Merging the same payload twice is merging it once. |
| Reducer.MergePersonalInfo | src/context/JobContext.jsx:95-102 | The same key-by-key override for personal info. |
| Reducer.MergeResume | src/context/JobContext.jsx:92-93 | The same key-by-key override for the resume. |
| Reducer.ReplaceById | src/context/JobContext.jsx:118-120 | Same length. Each element with the payload's id becomes the payload. Every other element stays in place. |
| Reducer.ReplaceByIdKeepsIds | src/context/JobContext.jsx:113-122 | An update never adds, drops, reorders or re-keys an entry. |
| Reducer.ReplaceByIdIdempotent | src/context/JobContext.jsx:113-122 | Applying the same update twice is applying it once. |
| Reducer.ReplaceByIdAbsent | src/context/JobContext.jsx:113-122 | An update with an unknown id leaves the list unchanged. |
| Reducer.DeleteById | src/context/JobContext.jsx:124-131 | Keeps exactly the members with a different id, every copy of each, as a subsequence. It is the identity when no member has the id. |
| Reducer.DeleteByIdIdempotent | src/context/JobContext.jsx:124-131 | A second delete of the same id changes nothing. |
| Reducer.SetStatus | src/context/JobContext.jsx:77-84 | Same length. Applications with the id get the new status. Nothing else changes. |
| Reducer.NewApplication | src/context/JobContext.jsx:65-75 | The new application: the clock id and time, status `pending`, the cover letter defaulting to empty, the resume defaulting to the current one. |
| Reducer.Reduce | src/context/JobContext.jsx:38-221 | The catalog never changes. Each slice changes only under its own actions. Inside the resume, each field changes only under its own actions or UPDATE_RESUME. An unrecognised action returns the state itself. |
| Reducer.ResetFiltersExact | src/context/JobContext.jsx:43-54 | RESET_FILTERS installs exactly the default filters, whatever they were before. It changes nothing else. |
| Reducer.SetFiltersOverridesPresentKeys | src/context/JobContext.jsx:40-41 | SET_FILTERS replaces only the filters, by their key-by-key merge with the payload. An empty payload leaves the state unchanged. Dispatching the same SET_FILTERS twice equals dispatching it once. |
| Reducer.ToggleSaveJobSemantics | src/context/JobContext.jsx:56-63 | A saved id is removed everywhere, the other ids keeping their order. An unsaved id is appended. A double toggle restores membership, and restores the list exactly when the id was unsaved. |
| Reducer.LoginSemantics | src/context/JobContext.jsx:86-87 | LOGIN makes the payload the signed-in user, whoever was signed in before. Nothing else changes. |
| Reducer.LogoutSemantics | src/context/JobContext.jsx:89-90 | LOGOUT leaves nobody signed in and changes nothing else. A second LOGOUT changes nothing. |
| Reducer.RemoveToastSemantics | src/context/JobContext.jsx:215-216 | Every toast with the id is removed. Every copy of the other toasts is kept, in order. An unknown id changes nothing. Only the toasts change. |
| Reducer.UpdateResumeSemantics | src/context/JobContext.jsx:92-93 | UPDATE_RESUME replaces only the resume, by its shallow merge with the payload. An empty payload changes nothing. The same payload twice is the payload once. |
| Reducer.UpdatePersonalInfoSemantics | src/context/JobContext.jsx:95-102 | UPDATE_PERSONAL_INFO replaces only the personal info, by its key-by-key merge with the payload. An empty payload changes nothing. The same payload twice is the payload once. |
| Reducer.AddSkillSemantics | src/context/JobContext.jsx:162-172 | A listed skill returns the same state. A new skill is appended after the untouched earlier skills. Adding twice leaves one copy. Only the skills change. |
| Reducer.RemoveSkillSemantics | src/context/JobContext.jsx:174-181 | Every copy is removed and the rest keep their order. An unlisted skill changes nothing. Only the skills change. |
| Reducer.DeleteExperienceSemantics | src/context/JobContext.jsx:124-131 | Removes every entry with the id, keeps the rest in order, and is a no-op for an unknown id. Only the experience list changes. |
| Reducer.DeleteEducationSemantics | src/context/JobContext.jsx:153-160 | The same for education: only the education list changes. |
| Reducer.DeleteProjectSemantics | src/context/JobContext.jsx:203-210 | The same for projects: only the project list changes. |
| Reducer.UpdateExperienceSemantics | src/context/JobContext.jsx:113-122 | Keeps the length, order and ids. Replaces wholesale exactly the entries with the payload's id. Only the experience list changes. |
| Reducer.UpdateEducationSemantics | src/context/JobContext.jsx:142-151 | The same for education: only the education list changes. |
| Reducer.UpdateProjectSemantics | src/context/JobContext.jsx:192-201 | The same for projects: only the project list changes. |
| Reducer.ApplyToJobSemantics | src/context/JobContext.jsx:65-75 | Appends exactly one pending application with the defaults. Earlier applications are untouched. |
| Reducer.UpdateStatusSemantics | src/context/JobContext.jsx:77-84 | Only the status of matching applications changes. Length and order are preserved. |
| Reducer.InitialStateInvariant | src/context/JobContext.jsx:7-36 | The initial state has no duplicate saved ids and no duplicate skills. |
| Reducer.ReducePreservesInvariant | src/context/JobContext.jsx:38-221 | Every action keeps saved ids and skills duplicate-free, provided UPDATE_RESUME does not install a list with duplicates. |
| StoreModule.Store.constructor | src/context/JobContext.jsx:223-224 | The store starts in the initial state, which satisfies the invariant. |
| StoreModule.Store.Dispatch | src/context/JobContext.jsx:224 | The new state is the reducer's result on the old state. The invariant is kept. |
| StoreModule.Store.AddToast | src/context/JobContext.jsx:336-338 | Appends the toast stamped with the clock id. Nothing else in the state changes. |
| Queries.MatchingJobs | src/context/JobContext.jsx:244-291 | Exactly the catalog jobs that pass every filter test, as a subsequence of the catalog. |
| Queries.GetFilteredJobs | src/context/JobContext.jsx:244-291 | The six successive filter passes equal the reference `MatchingJobs`. The result keeps catalog order and contains exactly the jobs passing all tests. |
| Queries.SavedJobs | src/context/JobContext.jsx:293-296 | Exactly the catalog jobs whose id is saved, in catalog order. |
| Queries.IsJobSaved | src/context/JobContext.jsx:299-301 | For a catalog job, `isJobSaved` holds exactly when the job is among the saved jobs. |
| Queries.ToggleFlipsSaved | src/context/JobContext.jsx:298-301 | Toggling a catalog job flips `isJobSaved` and its presence among the saved jobs. |
| Queries.AnyForJob | src/context/JobContext.jsx:304-306 | True exactly when some application carries the job id. |
| Queries.HasApplied | src/context/JobContext.jsx:304-306 | True exactly when some application is for the job. |
| Queries.AppliedAfterApply | src/context/JobContext.jsx:303-306 | After APPLY_TO_JOB the job counts as applied to. A status update never changes `hasApplied`. |
| Queries.JobById | src/context/JobContext.jsx:308-311 | Nothing exactly when no catalog job has the id. Otherwise the first catalog job with that id. |
| Queries.CompanyById | src/context/JobContext.jsx:313-316 | The same over the companies: nothing exactly when no company has the id, otherwise the first company with it. |
| Queries.JobsByCompany | src/context/JobContext.jsx:318-321 | Exactly the catalog jobs of that company, in catalog order. |
| Queries.CountStatus | src/context/JobContext.jsx:326-330 | The count is the number of times the status occurs among the applications' statuses, and never exceeds the number of applications. |
| Queries.GetApplicationStats | src/context/JobContext.jsx:323-333 | `total` is the number of applications. Each of the five counters is its status's multiplicity in the multiset of application statuses. |
| Queries.StatsSumToTotal | src/context/JobContext.jsx:324-333 | When every status is one of the five, the five counters add up to the number of applications. |
| Queries.StatsTotalIsSum | src/context/JobContext.jsx:324-333 | The same fact, stated on the stats record. |
| Queries.ApplyThenInterview | src/context/JobContext.jsx:65-84 | Applying to a new job and then moving that application to `interview` gives one application for the job, in `interview`. `total` and `interview` each grow by one and the other counters are unchanged. |
| Queries.SetStatusOfNewest | src/context/JobContext.jsx:77-84 | A status update by the id only the newest application carries changes that one alone. |
| JobFilters.HandleJobTypeToggle | src/components/job/JobFilters.jsx:11-17 | The action is SET_FILTERS naming `jobType` alone. The clicked type is in the new list exactly when it was not in the current one; every other type is in it exactly when it was before. |
| JobFilters.HandleExperienceToggle | src/components/job/JobFilters.jsx:19-25 | The same for `experienceLevel`. |
| JobFilters.HandleLocationChange | src/components/job/JobFilters.jsx:27-29 | In every state, the action sets the location to the typed value and changes nothing else. |
| JobFilters.HandleSalaryChange | src/components/job/JobFilters.jsx:31-34 | In every state, the action sets the salary range to `[0, value]` and changes nothing else. |
| JobFilters.HandleClearFilters | src/components/job/JobFilters.jsx:36-38 | In every state, the action restores the default filters and changes nothing else. |
| JobFilters.HasActiveFilters | src/components/job/JobFilters.jsx:40-44 | Active exactly when the filters differ from the defaults in the job types, levels, location or salary ceiling. Search, category and the salary floor do not count. |
| JobFilters.JobTypeToggleSemantics | src/components/job/JobFilters.jsx:11-17 | Set-toggle of the job type: removes all copies or appends. Other filter keys are unchanged. A double toggle restores membership. |
| JobFilters.ExperienceToggleSemantics | src/components/job/JobFilters.jsx:19-25 | The same set-toggle on the experience levels. Other filter keys are unchanged. |
| JobFilters.SalaryChangeSemantics | src/components/job/JobFilters.jsx:31-34 | The range becomes `[0, value]` and no other key changes. The panel is then active exactly when the ceiling moved or another filter is active. |
| JobFilters.ClearFiltersDeactivates | src/components/job/JobFilters.jsx:36-44 | After "Clear all" the filters are the defaults and no filter is active. |
| JobFilters.ActiveIgnoresSearchAndCategory | src/components/job/JobFilters.jsx:40-44 | Search text and category never affect `hasActiveFilters`. |
| JobFilters.ToggleOnActivates | src/components/job/JobFilters.jsx:11-44 | Toggling on a type or level that was not selected makes the panel active. |
| JobsPage.ParseSortKey | src/pages/Jobs.jsx:17-31 | Each of the four known keys selects its own order. Any other string selects none. |
| JobsPage.Compare | src/pages/Jobs.jsx:19-28 | Each comparator is the difference of the job ranks under its key. |
| JobsPage.SortOnCorrect | src/pages/Jobs.jsx:13-35 | The functional sort yields an ordered permutation of its input. |
| JobsPage.SortOnStable | src/pages/Jobs.jsx:13-35 | Jobs with equal keys keep their input order, as in a stable `Array.prototype.sort`. |
| JobsPage.SortBy | src/pages/Jobs.jsx:13-35 | For every key, the result is sorted by that key's comparator and is a permutation of the input. |
| JobsPage.SortByStable | src/pages/Jobs.jsx:13-35 | Ties under a key keep their input order. |
| JobsPage.InsertKeepsSorted | src/pages/Jobs.jsx:19-28 | Inserting at the computed position keeps the list sorted. |
| JobsPage.InsertPermutes | src/pages/Jobs.jsx:19-28 | Inserting adds exactly the inserted job to the multiset. |
| JobsPage.InsertStable | src/pages/Jobs.jsx:19-28 | The inserted job goes after every earlier job with an equal key. |
| JobsPage.InsertInPlace | src/pages/Jobs.jsx:19-28 | Shifting in place gives the functional insertion of `a[i]` into the sorted prefix. The suffix is untouched. |
| JobsPage.SortJobs | src/pages/Jobs.jsx:19-28 | The in-place array sort leaves exactly the functional stable sort of the old contents. |
| JobsPage.SortedMeans | src/pages/Jobs.jsx:18-29 | `recent` gives non-increasing `postedAt`. `salary-high` gives non-increasing `salaryMax`. `salary-low` gives non-decreasing `salaryMin`. `applicants` gives non-increasing `applicants`. |
| JobsPage.DisplayedJobs | src/pages/Jobs.jsx:13-35 | The shown list is a permutation of `getFilteredJobs()`, sorted per key with the orders above. An unknown key leaves the filtered order unchanged. |
| Auth.EmailShapeMatchesPattern | src/pages/Auth.jsx:44 | Reading the email at its first `@` decides the pattern `^[^\s@]+@[^\s@]+\.[^\s@]+$`: a split elsewhere never matches when that one fails. |
| Auth.EmailShape | src/pages/Auth.jsx:44 | The search-free check the model runs accepts exactly the strings the pattern matches. |
| Auth.AcceptedEmailShape | src/pages/Auth.jsx:44 | An accepted email has no white space, a non-empty local part, and no second `@`. Its domain has a dot that is neither its first nor its last character. |
| Auth.BlankEmailFailsPattern | src/pages/Auth.jsx:42-46 | A blank email never matches the pattern. |
| Auth.ValidateForm | src/pages/Auth.jsx:35-56 | Exactly the right error keys are set, with the right messages. The name error is sign-up only. The pattern runs on the untrimmed email. The length check applies only to a non-empty password. The form is valid exactly when no key is set, which is exactly when it is acceptable. |
| Auth.NewUser | src/pages/Auth.jsx:64-69 | The user carries the clock id, the email unchanged and no avatar. The name is the entered name, or else `split('@')[0]` of the email: the text before its first `@`, followed by that `@` or the end. |
| Auth.AcceptedUserHasName | src/pages/Auth.jsx:61-69 | A user built from an accepted form always has a non-empty name. |
| Auth.HandleSubmit | src/pages/Auth.jsx:58-71 | LOGIN is dispatched exactly when the form is acceptable, with that user. |
| Auth.SocialUser | src/pages/Auth.jsx:88-95 | The name is `<provider> User` and the email is `user@<lower-cased provider>.com`. |
| Auth.SocialSignIn | src/pages/Auth.jsx:88-97 | Social sign-in dispatches LOGIN with that user. |
| Auth.SocialSignInEffect | src/pages/Auth.jsx:88-97 | Dispatching the social sign-in makes the provider's user the signed-in user, named `<provider> User`, and changes nothing else. |
| Auth.SocialEmailIsValid | src/pages/Auth.jsx:88-95 | For a provider name without white space or `@`, the social email passes the form's own email check. |
| ResumePage.HandleAddSkill | src/pages/Resume.jsx:139-144 | Dispatches ADD_SKILL with the trimmed text. It does nothing exactly when the input trims to empty. |
| ResumePage.AddSkillKeepsSkillsClean | src/pages/Resume.jsx:139-144 | Skills entered through the page are never blank and never padded with white space. |
| ResumePage.AddSkillTwiceOneCopy | src/pages/Resume.jsx:139-144 | Entering the same new skill twice leaves exactly one copy. |
| ResumePage.Submit | src/pages/Resume.jsx:68-91 | A truthy form id means an update with the form as it is. Otherwise it is an add with the fresh clock id. |
| ResumePage.ExperienceSubmit | src/pages/Resume.jsx:68-91 | UPDATE_EXPERIENCE for a truthy id, ADD_EXPERIENCE with the clock id otherwise. The form is reset to its empty template. |
| ResumePage.EducationSubmit | src/pages/Resume.jsx:104-126 | The same for education. |
| ResumePage.ProjectSubmit | src/pages/Resume.jsx:151-171 | The same for projects. |
| ResumePage.ExperienceSubmitEffect | src/pages/Resume.jsx:68-91 | An update rewrites exactly the entries with the form's id and keeps the ids. An add appends one entry with the clock id. The rest of the resume is untouched. |
| ResumePage.EducationSubmitEffect | src/pages/Resume.jsx:104-126 | The same for education. |
| ResumePage.ProjectSubmitEffect | src/pages/Resume.jsx:151-171 | The same for projects. |
| ResumePage.ResumeFileName | src/pages/Resume.jsx:231 | `<full name>_resume.txt`, falling back to `resume_resume.txt` when the name is empty. |
| ResumePage.EntryInPlace | src/pages/Resume.jsx:194-198 | Each entry's text sits, contiguously and in list order, between the texts of the entries before and after it. |
| ResumePage.ResumeText | src/pages/Resume.jsx:184-226 | The export always starts with the name line, the title line with a blank line, and the contact line. |
| ResumePage.ExperienceEntryShown | src/pages/Resume.jsx:193-200 | Every experience entry's text occurs in the export. |
| ResumePage.CurrentShowsPresent | src/pages/Resume.jsx:196 | A current position prints `Present` in place of its end date. |
| ResumePage.SkillsLineShown | src/pages/Resume.jsx:212-214 | For a non-empty list, the SKILLS line with the skills joined by `, ` occurs in the export. Its length is the skills' total plus the separators. |
| ResumePage.SectionPresence | src/pages/Resume.jsx:189-225 | Each section is emitted exactly when its data is non-empty. List blocks open with their heading. |
| ResumePage.OptionalLines | src/pages/Resume.jsx:202-225 | The education description line is present when the description is non-empty; without it the entry is the two fixed lines and a blank line. The project `Technologies:` line is present when its field is non-empty; with the field empty, the entry is the name, description and optional `Link:` line alone. The same holds the other way round for the `Link:` line. |
| ResumePage.BareResumeText | src/pages/Resume.jsx:184-226 | With no summary and empty lists, the export is the header alone. |
| ResumePage.AppendExperience | src/pages/Resume.jsx:194-198 | The experience loop appends the entries' texts in list order. |
| ResumePage.AppendEducation | src/pages/Resume.jsx:203-209 | The education loop appends the entries' texts in list order. |
| ResumePage.AppendProjects | src/pages/Resume.jsx:218-224 | The project loop appends the entries' texts in list order. |
| ResumePage.DownloadText | src/pages/Resume.jsx:184-226 | The piece-by-piece text equals `ResumeText`, whose sections are: header, summary, experience, education, skills, projects. |

## Left out

- Browser storage. The `localStorage` reads behind the initial state and the persistence effects are browser I/O. The model starts from the defaults used when storage is empty.
- Clock reads. `Date.now()` and `new Date().toISOString()` are parameters (`clockId`, `clockTime`). Two toasts or entries created in the same millisecond share an id in the source; the model does not rule this out either.
- Toast expiry. The `setTimeout` in `addToast` that later dispatches REMOVE_TOAST is asynchronous timing and is not modelled. REMOVE_TOAST itself is a reducer case and is modelled.
- The DOM side of the download: the Blob, the object URL and the temporary link. Only the text and the file name are modelled.
- Page glue: the toasts the pages show after submit or delete, navigation after sign-in, clearing the skill input, and the edit and delete handlers that only dispatch or set a form. These are not modelled beyond the actions they dispatch.
- The pages outside the core (Home, Companies, JobDetail, Profile, Applications, SavedJobs, JobCard, Navbar, Footer, Toast) and the static catalog data are not part of this model.
- Job fields that no modelled code reads (requirements, benefits, logo) and company fields other than the id, name, industry and location are not modelled.
- Text.Lower: only ASCII letters are lower-cased, because the full Unicode case mapping of `toLowerCase` is out of scope.
- Auth.ValidateForm: a password's length counts characters, not the UTF-16 code units JavaScript counts. The two differ only for characters outside the Basic Multilingual Plane.
- Queries.JobById: `parseInt` on the id argument is the identity on integer ids. The same holds for CompanyById and JobsByCompany. String route parameters and NaN are not modelled.
- JobFilters.HandleSalaryChange: the slider value is an integer, so a `parseInt` that yields NaN is not modelled.
- Queries.MatchingJobs: the filter lists are always present. So `filters.jobType || []`, the optional chaining in `hasActiveFilters` and the `if (salaryRange)` guard always take the present-value branch.
- JobsPage.SortedMeans: `postedAt` is the integer timestamp its date denotes. An unparsable date, which sorts as NaN in the source, is not modelled.
- StoreModule.Store.Dispatch: the invariant is promised only when UPDATE_RESUME brings a duplicate-free skills list. That action replaces the list wholesale and can bring duplicates.
- Numbers are unbounded integers. Salaries, counts and timestamps never reach JavaScript's floating-point precision limits in this application.
