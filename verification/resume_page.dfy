/**
 * The resume builder page: the skill input handler, the add-or-update
 * decision of the three sub-list editors, and the plain-text export.
 * The clock value used as a fresh entry id is a parameter.
 */
module ResumePage {
  import opened Wrappers
  import opened Text
  import opened Domain
  import opened Reducer

  // ---------------------------------------------------------------------
  // Skills
  // ---------------------------------------------------------------------

  /** `handleAddSkill`: dispatches ADD_SKILL with the trimmed input, or nothing when it trims to empty. */
  function HandleAddSkill(input: string): (a: Option<Action>)
    ensures a.None? <==> AllSpace(input)
    ensures a.Some? ==> a.value == AddSkill(Trim(input))
  {
    var skill := Trim(input);
    if skill != "" then Some(AddSkill(skill)) else None
  }

  /** A skill as the input handler produces it: non-empty, no white space at either end. */
  predicate CleanSkill(skill: string) {
    skill != "" && !IsSpace(skill[0]) && !IsSpace(skill[|skill| - 1])
  }

  /** Skills entered through the page stay clean: no blank or padded skill ever reaches the list. */
  lemma AddSkillKeepsSkillsClean(s: State, input: string)
    requires forall x :: x in s.resume.skills ==> CleanSkill(x)
    ensures var a := HandleAddSkill(input);
            a.Some? ==> forall x :: x in Reduce(s, a.value).resume.skills ==> CleanSkill(x)
  {
    var skill := Trim(input);
    if skill != "" {
      assert CleanSkill(skill);
      AddSkillSemantics(s, skill);
      var skills := Reduce(s, AddSkill(skill)).resume.skills;
      if skill !in s.resume.skills {
        forall x | x in skills ensures CleanSkill(x) {
          if x != skill {
            assert x in s.resume.skills;
          }
        }
      }
    }
  }

  /** Entering the same text twice leaves one copy of the trimmed skill. */
  lemma AddSkillTwiceOneCopy(s: State, input: string)
    requires !AllSpace(input) && Trim(input) !in s.resume.skills
    ensures var a := HandleAddSkill(input).value;
            multiset(Reduce(Reduce(s, a), a).resume.skills)[Trim(input)] == 1
  {
    AddSkillSemantics(s, Trim(input));
  }

  // ---------------------------------------------------------------------
  // Sub-list editors
  // ---------------------------------------------------------------------

  /** An editor form: `id` is null for a new item and the edited entry's id otherwise. */
  datatype Form<T> = Form(id: Option<int>, item: T)

  /** JavaScript truthiness of the form's id: present and not zero. */
  predicate Truthy(id: Option<int>) {
    id.Some? && id.value != 0
  }

  /** The entry a submit sends, and whether it is an update. */
  datatype Submission<T> = Submission(entry: Entry<T>, isUpdate: bool)

  /**
   * The branch every `handle*Submit` takes: a truthy id sends the form as
   * it is, for an update; otherwise the form is sent with a fresh id, for
   * an add.
   */
  function Submit<T>(form: Form<T>, clockId: int): (r: Submission<T>)
    ensures r.isUpdate <==> Truthy(form.id)
    ensures r.entry.item == form.item
    ensures r.isUpdate ==> r.entry.id == form.id.value
    ensures !r.isUpdate ==> r.entry.id == clockId
  {
    if Truthy(form.id) then Submission(Entry(form.id.value, form.item), true)
    else Submission(Entry(clockId, form.item), false)
  }

  function EmptyExperienceForm(): Form<ExperienceItem> {
    Form(None, ExperienceItem("", "", "", "", "", false, ""))
  }

  function EmptyEducationForm(): Form<EducationItem> {
    Form(None, EducationItem("", "", "", "", "", ""))
  }

  function EmptyProjectForm(): Form<ProjectItem> {
    Form(None, ProjectItem("", "", "", ""))
  }

  /** `handleExperienceSubmit`: the action dispatched and the form it leaves behind. */
  function ExperienceSubmit(form: Form<ExperienceItem>, clockId: int): (r: (Action, Form<ExperienceItem>))
    ensures Truthy(form.id) ==> r.0 == UpdateExperience(Entry(form.id.value, form.item))
    ensures !Truthy(form.id) ==> r.0 == AddExperience(Entry(clockId, form.item))
    ensures r.1.id.None? && r.1 == EmptyExperienceForm()
  {
    var sub := Submit(form, clockId);
    (if sub.isUpdate then UpdateExperience(sub.entry) else AddExperience(sub.entry), EmptyExperienceForm())
  }

  /** `handleEducationSubmit`. */
  function EducationSubmit(form: Form<EducationItem>, clockId: int): (r: (Action, Form<EducationItem>))
    ensures Truthy(form.id) ==> r.0 == UpdateEducation(Entry(form.id.value, form.item))
    ensures !Truthy(form.id) ==> r.0 == AddEducation(Entry(clockId, form.item))
    ensures r.1.id.None? && r.1 == EmptyEducationForm()
  {
    var sub := Submit(form, clockId);
    (if sub.isUpdate then UpdateEducation(sub.entry) else AddEducation(sub.entry), EmptyEducationForm())
  }

  /** `handleProjectSubmit`. */
  function ProjectSubmit(form: Form<ProjectItem>, clockId: int): (r: (Action, Form<ProjectItem>))
    ensures Truthy(form.id) ==> r.0 == UpdateProject(Entry(form.id.value, form.item))
    ensures !Truthy(form.id) ==> r.0 == AddProject(Entry(clockId, form.item))
    ensures r.1.id.None? && r.1 == EmptyProjectForm()
  {
    var sub := Submit(form, clockId);
    (if sub.isUpdate then UpdateProject(sub.entry) else AddProject(sub.entry), EmptyProjectForm())
  }

  /**
   * Submitting the experience form: an update rewrites exactly the entries
   * with the form's id and keeps the list's ids; an add appends one entry
   * with the fresh id. The rest of the resume is untouched.
   */
  lemma ExperienceSubmitEffect(s: State, form: Form<ExperienceItem>, clockId: int)
    ensures var r := Reduce(s, ExperienceSubmit(form, clockId).0).resume;
            && r.education == s.resume.education && r.skills == s.resume.skills
            && r.projects == s.resume.projects && r.personalInfo == s.resume.personalInfo
    ensures var xs := Reduce(s, ExperienceSubmit(form, clockId).0).resume.experience;
            Truthy(form.id) ==>
              && Ids(xs) == Ids(s.resume.experience)
              && forall i :: 0 <= i < |xs| ==>
                   xs[i] == if s.resume.experience[i].id == form.id.value
                            then Entry(form.id.value, form.item) else s.resume.experience[i]
    ensures var xs := Reduce(s, ExperienceSubmit(form, clockId).0).resume.experience;
            !Truthy(form.id) ==> xs == s.resume.experience + [Entry(clockId, form.item)]
  {
    if Truthy(form.id) {
      UpdateExperienceSemantics(s, Entry(form.id.value, form.item));
    }
  }

  /** Submitting the education form. */
  lemma EducationSubmitEffect(s: State, form: Form<EducationItem>, clockId: int)
    ensures var r := Reduce(s, EducationSubmit(form, clockId).0).resume;
            && r.experience == s.resume.experience && r.skills == s.resume.skills
            && r.projects == s.resume.projects && r.personalInfo == s.resume.personalInfo
    ensures var xs := Reduce(s, EducationSubmit(form, clockId).0).resume.education;
            Truthy(form.id) ==>
              && Ids(xs) == Ids(s.resume.education)
              && forall i :: 0 <= i < |xs| ==>
                   xs[i] == if s.resume.education[i].id == form.id.value
                            then Entry(form.id.value, form.item) else s.resume.education[i]
    ensures var xs := Reduce(s, EducationSubmit(form, clockId).0).resume.education;
            !Truthy(form.id) ==> xs == s.resume.education + [Entry(clockId, form.item)]
  {
    if Truthy(form.id) {
      UpdateEducationSemantics(s, Entry(form.id.value, form.item));
    }
  }

  /** Submitting the project form. */
  lemma ProjectSubmitEffect(s: State, form: Form<ProjectItem>, clockId: int)
    ensures var r := Reduce(s, ProjectSubmit(form, clockId).0).resume;
            && r.experience == s.resume.experience && r.education == s.resume.education
            && r.skills == s.resume.skills && r.personalInfo == s.resume.personalInfo
    ensures var xs := Reduce(s, ProjectSubmit(form, clockId).0).resume.projects;
            Truthy(form.id) ==>
              && Ids(xs) == Ids(s.resume.projects)
              && forall i :: 0 <= i < |xs| ==>
                   xs[i] == if s.resume.projects[i].id == form.id.value
                            then Entry(form.id.value, form.item) else s.resume.projects[i]
    ensures var xs := Reduce(s, ProjectSubmit(form, clockId).0).resume.projects;
            !Truthy(form.id) ==> xs == s.resume.projects + [Entry(clockId, form.item)]
  {
    if Truthy(form.id) {
      UpdateProjectSemantics(s, Entry(form.id.value, form.item));
    }
  }

  // ---------------------------------------------------------------------
  // Plain-text export
  // ---------------------------------------------------------------------

  /** The name line, the title line followed by a blank line, and the contact line followed by a blank line. */
  function Header(p: PersonalInfo): string {
    (p.fullName + "\n")
    + (p.title + "\n\n")
    + ("Contact: " + p.email + " | " + p.phone + " | " + p.location + "\n\n")
  }

  function SummaryBlock(p: PersonalInfo): string {
    if p.summary != "" then "SUMMARY\n" + p.summary + "\n\n" else ""
  }

  function ExperienceText(e: Experience): string {
    var x := e.item;
    (x.title + " at " + x.company + "\n")
    + (x.startDate + " - " + (if x.current then "Present" else x.endDate) + " | " + x.location + "\n")
    + (x.description + "\n\n")
  }

  function EducationText(e: Education): string {
    var x := e.item;
    (x.degree + " - " + x.school + "\n")
    + (x.startDate + " - " + x.endDate + " | " + x.location + "\n")
    + (if x.description != "" then x.description + "\n" else "")
    + "\n"
  }

  function ProjectText(p: Project): string {
    var x := p.item;
    (x.name + "\n")
    + (x.description + "\n")
    + (if x.technologies != "" then "Technologies: " + x.technologies + "\n" else "")
    + (if x.link != "" then "Link: " + x.link + "\n" else "")
    + "\n"
  }

  /** The texts of the entries of `xs`, in list order. */
  function Concat<T>(xs: seq<T>, text: T -> string): string {
    if xs == [] then "" else Concat(xs[..|xs| - 1], text) + text(xs[|xs| - 1])
  }

  /** A list's block: its heading and its entries, or nothing for an empty list. */
  function Block<T>(heading: string, xs: seq<T>, text: T -> string): string {
    if xs == [] then "" else heading + Concat(xs, text)
  }

  function SkillsBlock(skills: seq<string>): string {
    if skills == [] then "" else "SKILLS\n" + Join(skills, ", ") + "\n\n"
  }

  /**
   * The text `downloadResume` saves: header, then summary, experience,
   * education, skills and projects. It always starts with the name line,
   * the title line, a blank line and the contact line.
   */
  function ResumeText(r: Resume): (t: string)
    ensures IsPrefix(Header(r.personalInfo), t)
  {
    var p := r.personalInfo;
    var t0 := Header(p);
    var t1 := t0 + SummaryBlock(p);
    var t2 := t1 + Block("EXPERIENCE\n", r.experience, ExperienceText);
    var t3 := t2 + Block("EDUCATION\n", r.education, EducationText);
    var t4 := t3 + SkillsBlock(r.skills);
    assert IsPrefix(t0, t0);
    PrefixExtend(t0, t0, SummaryBlock(p));
    PrefixExtend(t0, t1, Block("EXPERIENCE\n", r.experience, ExperienceText));
    PrefixExtend(t0, t2, Block("EDUCATION\n", r.education, EducationText));
    PrefixExtend(t0, t3, SkillsBlock(r.skills));
    PrefixExtend(t0, t4, Block("PROJECTS\n", r.projects, ProjectText));
    t4 + Block("PROJECTS\n", r.projects, ProjectText)
  }

  /** The download's file name: the full name, or `resume` when it is empty, then `_resume.txt`. */
  function ResumeFileName(fullName: string): (name: string)
    ensures fullName == "" ==> name == "resume_resume.txt"
    ensures fullName != "" ==> IsPrefix(fullName, name) && name[|fullName|..] == "_resume.txt"
  {
    (if fullName != "" then fullName else "resume") + "_resume.txt"
  }

  /** `Concat` of a split list is the concatenation of the parts. */
  lemma {:induction false} ConcatAppend<T>(xs: seq<T>, ys: seq<T>, text: T -> string)
    ensures Concat(xs + ys, text) == Concat(xs, text) + Concat(ys, text)
    decreases |ys|
  {
    if ys == [] {
      assert xs + ys == xs;
    } else {
      var init, last := ys[..|ys| - 1], ys[|ys| - 1];
      assert (xs + ys)[..|xs + ys| - 1] == xs + init;
      assert (xs + ys)[|xs + ys| - 1] == last;
      ConcatAppend(xs, init, text);
      AppendAssoc(Concat(xs, text), Concat(init, text), text(last));
    }
  }

  /** Entries are printed in list order, each as one contiguous piece of text. */
  lemma EntryInPlace<T>(xs: seq<T>, i: int, text: T -> string)
    requires 0 <= i < |xs|
    ensures Concat(xs, text) == Concat(xs[..i], text) + text(xs[i]) + Concat(xs[i + 1..], text)
  {
    var front, back := xs[..i + 1], xs[i + 1..];
    assert xs == front + back;
    assert front[..i] == xs[..i];
    ConcatAppend(front, back, text);
  }

  /** Every experience entry's text appears in the export. */
  lemma ExperienceEntryShown(r: Resume, i: int)
    requires 0 <= i < |r.experience|
    ensures Contains(ResumeText(r), ExperienceText(r.experience[i]))
  {
    var p := r.personalInfo;
    var e := ExperienceText(r.experience[i]);
    var entries := Concat(r.experience, ExperienceText);
    EntryInPlace(r.experience, i, ExperienceText);
    ContainsMiddle(Concat(r.experience[..i], ExperienceText), e, Concat(r.experience[i + 1..], ExperienceText));
    ContainsPrepend("EXPERIENCE\n", entries, e);
    var block := Block("EXPERIENCE\n", r.experience, ExperienceText);
    ContainsPrepend(Header(p) + SummaryBlock(p), block, e);
    var t1 := Header(p) + SummaryBlock(p) + block;
    ContainsAppend(t1, Block("EDUCATION\n", r.education, EducationText), e);
    var t2 := t1 + Block("EDUCATION\n", r.education, EducationText);
    ContainsAppend(t2, SkillsBlock(r.skills), e);
    ContainsAppend(t2 + SkillsBlock(r.skills), Block("PROJECTS\n", r.projects, ProjectText), e);
  }

  /** A current position prints `Present` where its end date would go. */
  lemma CurrentShowsPresent(e: Experience)
    requires e.item.current
    ensures Contains(ExperienceText(e), e.item.startDate + " - Present | " + e.item.location + "\n")
  {
    var x := e.item;
    var first := x.title + " at " + x.company + "\n";
    var line := x.startDate + " - " + "Present" + " | " + x.location + "\n";
    assert line == x.startDate + " - Present | " + x.location + "\n";
    ContainsMiddle(first, line, x.description + "\n\n");
  }

  /** The skills line lists every skill, in order, separated by a comma and a space. */
  lemma SkillsLineShown(r: Resume)
    requires r.skills != []
    ensures Contains(ResumeText(r), "SKILLS\n" + Join(r.skills, ", ") + "\n\n")
    ensures |Join(r.skills, ", ")| == TotalLength(r.skills) + 2 * (|r.skills| - 1)
  {
    var before := Header(r.personalInfo) + SummaryBlock(r.personalInfo)
                  + Block("EXPERIENCE\n", r.experience, ExperienceText)
                  + Block("EDUCATION\n", r.education, EducationText);
    ContainsMiddle(before, SkillsBlock(r.skills), Block("PROJECTS\n", r.projects, ProjectText));
    JoinLength(r.skills, ", ");
  }

  /** Each section is emitted exactly when its data is there, and a list block opens with its heading. */
  lemma SectionPresence(r: Resume)
    ensures SummaryBlock(r.personalInfo) != "" <==> r.personalInfo.summary != ""
    ensures Block("EXPERIENCE\n", r.experience, ExperienceText) != "" <==> r.experience != []
    ensures Block("EDUCATION\n", r.education, EducationText) != "" <==> r.education != []
    ensures SkillsBlock(r.skills) != "" <==> r.skills != []
    ensures Block("PROJECTS\n", r.projects, ProjectText) != "" <==> r.projects != []
    ensures r.experience != [] ==> IsPrefix("EXPERIENCE\n", Block("EXPERIENCE\n", r.experience, ExperienceText))
    ensures r.education != [] ==> IsPrefix("EDUCATION\n", Block("EDUCATION\n", r.education, EducationText))
    ensures r.projects != [] ==> IsPrefix("PROJECTS\n", Block("PROJECTS\n", r.projects, ProjectText))
  {
    var e := Concat(r.experience, ExperienceText);
    var d := Concat(r.education, EducationText);
    var q := Concat(r.projects, ProjectText);
    assert ("EXPERIENCE\n" + e)[..11] == "EXPERIENCE\n";
    assert ("EDUCATION\n" + d)[..10] == "EDUCATION\n";
    assert ("PROJECTS\n" + q)[..9] == "PROJECTS\n";
  }

  /** The optional education and project lines: present with their field, absent without it. */
  lemma OptionalLines(e: Education, p: Project)
    ensures e.item.description != "" ==> Contains(EducationText(e), e.item.description + "\n")
    ensures e.item.description == "" ==>
              EducationText(e) == (e.item.degree + " - " + e.item.school + "\n")
                                  + (e.item.startDate + " - " + e.item.endDate + " | " + e.item.location + "\n")
                                  + "\n"
    ensures p.item.technologies != "" ==>
              Contains(ProjectText(p), "Technologies: " + p.item.technologies + "\n")
    ensures p.item.link != "" ==> Contains(ProjectText(p), "Link: " + p.item.link + "\n")
    ensures p.item.technologies == "" ==>
              ProjectText(p) == (p.item.name + "\n") + (p.item.description + "\n")
                                + (if p.item.link != "" then "Link: " + p.item.link + "\n" else "") + "\n"
    ensures p.item.link == "" ==>
              ProjectText(p) == (p.item.name + "\n") + (p.item.description + "\n")
                                + (if p.item.technologies != "" then "Technologies: " + p.item.technologies + "\n" else "")
                                + "\n"
  {
    var x, y := e.item, p.item;
    var head := (x.degree + " - " + x.school + "\n") + (x.startDate + " - " + x.endDate + " | " + x.location + "\n");
    if x.description != "" {
      ContainsMiddle(head, x.description + "\n", "\n");
    } else {
      AppendEmpty(head, "");
    }
    var first := (y.name + "\n") + (y.description + "\n");
    var tech := if y.technologies != "" then "Technologies: " + y.technologies + "\n" else "";
    var link := if y.link != "" then "Link: " + y.link + "\n" else "";
    if y.technologies != "" {
      ContainsMiddle(first, tech, link + "\n");
      AppendAssoc(first + tech, link, "\n");
    }
    if y.link != "" {
      ContainsMiddle(first + tech, link, "\n");
    }
    if y.technologies == "" {
      AppendEmpty(first, tech);
    }
    if y.link == "" {
      AppendEmpty(first + tech, link);
    }
  }

  /** With no summary and empty lists the export is the header alone. */
  lemma BareResumeText(r: Resume)
    requires r.personalInfo.summary == ""
    requires r.experience == [] && r.education == [] && r.skills == [] && r.projects == []
    ensures ResumeText(r) == Header(r.personalInfo)
  {
  }

  /** The `resume.experience.forEach` loop: appends each entry's three lines. */
  method AppendExperience(content0: string, xs: seq<Experience>) returns (content: string)
    ensures content == content0 + Concat(xs, ExperienceText)
  {
    content := content0;
    var i := 0;
    while i < |xs|
      invariant 0 <= i <= |xs|
      invariant content == content0 + Concat(xs[..i], ExperienceText)
    {
      var exp := xs[i].item;
      var head := exp.title + " at " + exp.company + "\n";
      var dates := exp.startDate + " - " + (if exp.current then "Present" else exp.endDate) + " | " + exp.location + "\n";
      var body := exp.description + "\n\n";
      ghost var before := content;
      content := content + head;
      content := content + dates;
      AppendAssoc(before, head, dates);
      content := content + body;
      AppendAssoc(before, head + dates, body);
      AppendAssoc(content0, Concat(xs[..i], ExperienceText), ExperienceText(xs[i]));
      assert xs[..i + 1][..i] == xs[..i];
      i := i + 1;
    }
    assert xs[..i] == xs;
  }

  /** The `resume.education.forEach` loop: the description line only when there is one. */
  method AppendEducation(content0: string, xs: seq<Education>) returns (content: string)
    ensures content == content0 + Concat(xs, EducationText)
  {
    content := content0;
    var i := 0;
    while i < |xs|
      invariant 0 <= i <= |xs|
      invariant content == content0 + Concat(xs[..i], EducationText)
    {
      var edu := xs[i].item;
      var head := edu.degree + " - " + edu.school + "\n";
      var dates := edu.startDate + " - " + edu.endDate + " | " + edu.location + "\n";
      ghost var before := content;
      content := content + head;
      content := content + dates;
      AppendAssoc(before, head, dates);
      ghost var entry := head + dates;
      ghost var desc := if edu.description != "" then edu.description + "\n" else "";
      if edu.description != "" {
        content := content + (edu.description + "\n");
      } else {
        AppendEmpty(entry, desc);
      }
      AppendAssoc(before, entry, desc);
      entry := entry + desc;
      content := content + "\n";
      AppendAssoc(before, entry, "\n");
      AppendAssoc(content0, Concat(xs[..i], EducationText), EducationText(xs[i]));
      assert xs[..i + 1][..i] == xs[..i];
      i := i + 1;
    }
    assert xs[..i] == xs;
  }

  /** The `resume.projects.forEach` loop: the technologies and link lines only when present. */
  method AppendProjects(content0: string, xs: seq<Project>) returns (content: string)
    ensures content == content0 + Concat(xs, ProjectText)
  {
    content := content0;
    var i := 0;
    while i < |xs|
      invariant 0 <= i <= |xs|
      invariant content == content0 + Concat(xs[..i], ProjectText)
    {
      var proj := xs[i].item;
      ghost var before := content;
      content := content + (proj.name + "\n");
      content := content + (proj.description + "\n");
      AppendAssoc(before, proj.name + "\n", proj.description + "\n");
      ghost var entry := (proj.name + "\n") + (proj.description + "\n");
      ghost var tech := if proj.technologies != "" then "Technologies: " + proj.technologies + "\n" else "";
      if proj.technologies != "" {
        content := content + ("Technologies: " + proj.technologies + "\n");
      } else {
        AppendEmpty(entry, tech);
      }
      AppendAssoc(before, entry, tech);
      entry := entry + tech;
      ghost var link := if proj.link != "" then "Link: " + proj.link + "\n" else "";
      if proj.link != "" {
        content := content + ("Link: " + proj.link + "\n");
      } else {
        AppendEmpty(entry, link);
      }
      AppendAssoc(before, entry, link);
      entry := entry + link;
      content := content + "\n";
      AppendAssoc(before, entry, "\n");
      AppendAssoc(content0, Concat(xs[..i], ProjectText), ProjectText(xs[i]));
      assert xs[..i + 1][..i] == xs[..i];
      i := i + 1;
    }
    assert xs[..i] == xs;
  }

  /**
   * `downloadResume`, without the Blob and link: builds the text piece by
   * piece, with one loop per list.
   */
  method DownloadText(r: Resume) returns (content: string)
    ensures content == ResumeText(r)
  {
    var p := r.personalInfo;
    content := p.fullName + "\n";
    content := content + (p.title + "\n\n");
    content := content + ("Contact: " + p.email + " | " + p.phone + " | " + p.location + "\n\n");
    ghost var done := Header(p);

    if p.summary != "" {
      content := content + ("SUMMARY\n" + p.summary + "\n\n");
    } else {
      AppendEmpty(done, SummaryBlock(p));
    }
    done := done + SummaryBlock(p);

    if |r.experience| > 0 {
      content := content + "EXPERIENCE\n";
      content := AppendExperience(content, r.experience);
      AppendAssoc(done, "EXPERIENCE\n", Concat(r.experience, ExperienceText));
    } else {
      AppendEmpty(done, Block("EXPERIENCE\n", r.experience, ExperienceText));
    }
    done := done + Block("EXPERIENCE\n", r.experience, ExperienceText);

    if |r.education| > 0 {
      content := content + "EDUCATION\n";
      content := AppendEducation(content, r.education);
      AppendAssoc(done, "EDUCATION\n", Concat(r.education, EducationText));
    } else {
      AppendEmpty(done, Block("EDUCATION\n", r.education, EducationText));
    }
    done := done + Block("EDUCATION\n", r.education, EducationText);

    if |r.skills| > 0 {
      content := content + ("SKILLS\n" + Join(r.skills, ", ") + "\n\n");
    } else {
      AppendEmpty(done, SkillsBlock(r.skills));
    }
    done := done + SkillsBlock(r.skills);

    if |r.projects| > 0 {
      content := content + "PROJECTS\n";
      content := AppendProjects(content, r.projects);
      AppendAssoc(done, "PROJECTS\n", Concat(r.projects, ProjectText));
    } else {
      AppendEmpty(done, Block("PROJECTS\n", r.projects, ProjectText));
    }
  }
}
