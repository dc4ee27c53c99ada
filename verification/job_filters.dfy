/**
 * The filter side panel: the multi-select toggles, the salary slider, the
 * "Clear all" button and the test that decides whether that button shows.
 * Each handler builds the action it dispatches from the current filters.
 */
module JobFilters {
  import opened Wrappers
  import opened Lists
  import opened Domain
  import opened Reducer

  function OnlyJobType(types: seq<string>): FiltersPatch {
    FiltersPatch(None, None, Some(types), None, None, None)
  }

  function OnlyExperienceLevel(levels: seq<string>): FiltersPatch {
    FiltersPatch(None, None, None, Some(levels), None, None)
  }

  /**
   * `handleJobTypeToggle`: SET_FILTERS naming `jobType` alone, whose value
   * holds the clicked type exactly when the current filters do not, and
   * every other type as the current filters do.
   */
  function HandleJobTypeToggle(f: Filters, jobType: string): (a: Action)
    ensures a.SetFilters? && a.filtersPatch.jobType.Some?
    ensures a.filtersPatch == OnlyJobType(a.filtersPatch.jobType.value)
    ensures jobType in a.filtersPatch.jobType.value <==> jobType !in f.jobType
    ensures forall t :: t != jobType ==> (t in a.filtersPatch.jobType.value <==> t in f.jobType)
  {
    SetFilters(OnlyJobType(Toggle(f.jobType, jobType)))
  }

  /** `handleExperienceToggle`: the same toggle, on `experienceLevel` alone. */
  function HandleExperienceToggle(f: Filters, level: string): (a: Action)
    ensures a.SetFilters? && a.filtersPatch.experienceLevel.Some?
    ensures a.filtersPatch == OnlyExperienceLevel(a.filtersPatch.experienceLevel.value)
    ensures level in a.filtersPatch.experienceLevel.value <==> level !in f.experienceLevel
    ensures forall t :: t != level ==>
              (t in a.filtersPatch.experienceLevel.value <==> t in f.experienceLevel)
  {
    SetFilters(OnlyExperienceLevel(Toggle(f.experienceLevel, level)))
  }

  /** `handleLocationChange`: whatever the state, the location becomes `value` and nothing else changes. */
  function HandleLocationChange(value: string): (a: Action)
    ensures forall s: State :: Reduce(s, a) == s.(filters := s.filters.(location := value))
  {
    SetFilters(FiltersPatch(None, Some(value), None, None, None, None))
  }

  /** `handleSalaryChange`: whatever the state, the range becomes `[0, value]` and nothing else changes. */
  function HandleSalaryChange(value: int): (a: Action)
    ensures forall s: State :: Reduce(s, a) == s.(filters := s.filters.(salaryRange := (0, value)))
  {
    SetFilters(FiltersPatch(None, None, None, None, Some((0, value)), None))
  }

  /** `handleClearFilters`: whatever the state, the default filters return and nothing else changes. */
  function HandleClearFilters(): (a: Action)
    ensures forall s: State :: Reduce(s, a) == s.(filters := DefaultFilters())
  {
    ResetFilters
  }

  /**
   * `hasActiveFilters`: job types, levels, location or a moved salary
   * ceiling; search, category and the salary floor do not count. Active
   * exactly when the filters differ from the defaults in a key that counts.
   */
  function HasActiveFilters(f: Filters): (b: bool)
    ensures b <==> f.(search := "", category := "", salaryRange := (0, f.salaryRange.1)) != DefaultFilters()
  {
    || |f.jobType| > 0
    || |f.experienceLevel| > 0
    || f.location != ""
    || f.salaryRange.1 != SalaryCeiling
  }

  /**
   * Toggling a job type removes every copy of it when present and appends
   * it otherwise; every other filter key is left as it was, and toggling
   * twice restores the membership of every type.
   */
  lemma JobTypeToggleSemantics(s: State, jobType: string)
    ensures var f := Reduce(s, HandleJobTypeToggle(s.filters, jobType)).filters;
            && f == s.filters.(jobType := f.jobType)
            && (jobType in f.jobType <==> jobType !in s.filters.jobType)
            && (forall t :: t != jobType ==> (t in f.jobType <==> t in s.filters.jobType))
            && (jobType !in s.filters.jobType ==> f.jobType == s.filters.jobType + [jobType])
    ensures var s1 := Reduce(s, HandleJobTypeToggle(s.filters, jobType));
            var f2 := Reduce(s1, HandleJobTypeToggle(s1.filters, jobType)).filters;
            && f2 == s.filters.(jobType := f2.jobType)
            && (forall t :: t in f2.jobType <==> t in s.filters.jobType)
  {
    ToggleTwiceMembership(s.filters.jobType, jobType);
  }

  /** The same set-toggle on `experienceLevel`, leaving every other filter key unchanged. */
  lemma ExperienceToggleSemantics(s: State, level: string)
    ensures var f := Reduce(s, HandleExperienceToggle(s.filters, level)).filters;
            && f == s.filters.(experienceLevel := f.experienceLevel)
            && (level in f.experienceLevel <==> level !in s.filters.experienceLevel)
            && (forall t :: t != level ==> (t in f.experienceLevel <==> t in s.filters.experienceLevel))
            && (level !in s.filters.experienceLevel ==>
                  f.experienceLevel == s.filters.experienceLevel + [level])
    ensures var s1 := Reduce(s, HandleExperienceToggle(s.filters, level));
            var f2 := Reduce(s1, HandleExperienceToggle(s1.filters, level)).filters;
            && f2 == s.filters.(experienceLevel := f2.experienceLevel)
            && (forall t :: t in f2.experienceLevel <==> t in s.filters.experienceLevel)
  {
    ToggleTwiceMembership(s.filters.experienceLevel, level);
  }

  /** A salary change pins the lower bound at 0 and touches no other key. */
  lemma SalaryChangeSemantics(s: State, value: int)
    ensures var f := Reduce(s, HandleSalaryChange(value)).filters;
            && f.salaryRange.0 == 0 && f.salaryRange.1 == value
            && f == s.filters.(salaryRange := (0, value))
    ensures HasActiveFilters(Reduce(s, HandleSalaryChange(value)).filters) <==>
              value != 300000 || HasActiveFilters(s.filters.(salaryRange := (0, 300000)))
  {
  }

  /** After "Clear all" no filter is active, whatever the filters were. */
  lemma ClearFiltersDeactivates(s: State)
    ensures !HasActiveFilters(Reduce(s, HandleClearFilters()).filters)
    ensures Reduce(s, HandleClearFilters()).filters == Filters("", "", [], [], (0, 300000), "")
  {
  }

  /** Search text and category never make the panel active. */
  lemma ActiveIgnoresSearchAndCategory(f: Filters, search: string, category: string)
    ensures HasActiveFilters(f.(search := search, category := category)) == HasActiveFilters(f)
  {
  }

  /** Toggling a type or level that was not selected always makes the panel active. */
  lemma ToggleOnActivates(s: State, jobType: string, level: string)
    ensures jobType !in s.filters.jobType ==>
              HasActiveFilters(Reduce(s, HandleJobTypeToggle(s.filters, jobType)).filters)
    ensures level !in s.filters.experienceLevel ==>
              HasActiveFilters(Reduce(s, HandleExperienceToggle(s.filters, level)).filters)
  {
  }
}
