/**
 The Careers screen: the job-type filter over active openings, the "Post Job
 Opening" form with its job-type picker and one-requirement-per-line field, and
 the application form's Submit guard.
 */
module Careers {
  import opened Wrappers
  import opened Sequences
  import Text
  import opened Models
  import SampleData

  const All := "All"

  /** Chips above the list. */
  const FilterJobTypes: seq<string> := [All, "Full-time", "Part-time", "Contract"]

  /** Choices the "Job Type" picker of the posting form offers. */
  const PostJobTypes: seq<string> := ["Full-time", "Part-time", "Contract"]

  /** A career the list shows under chip `selected`. */
  predicate Listed(c: Career, selected: string) {
    c.isActive && (selected == All || c.jobType == selected)
  }

  /**
   `filteredCareers`: drop inactive openings, then keep those of the selected job
   type unless "All" is selected. The result is exactly the listed careers, in the
   order of the query, with their multiplicities.
   */
  function FilteredCareers(careers: seq<Career>, selected: string): (r: seq<Career>)
    ensures IsSubseq(r, careers)
    ensures forall c :: c in r <==> c in careers && Listed(c, selected)
    ensures forall c :: multiset(r)[c] == if Listed(c, selected) then multiset(careers)[c] else 0
  {
    var isActive := (c: Career) => c.isActive;
    var listed := (c: Career) => Listed(c, selected);
    var active := Filter(careers, isActive);
    if selected == All then
      FilterExtensional(careers, isActive, listed);
      active
    else
      var ofType := (c: Career) => c.jobType == selected;
      FilterFilter(careers, isActive, ofType, listed);
      Filter(active, ofType)
  }

  /** Under "All" the list is the active careers in their original order. */
  lemma AllShowsActive(careers: seq<Career>)
    ensures FilteredCareers(careers, All) == Filter(careers, (c: Career) => c.isActive)
  {
  }

  /** An inactive career is never listed, whatever chip is selected. */
  lemma InactiveNeverListed(careers: seq<Career>, selected: string, c: Career)
    requires !c.isActive
    ensures c !in FilteredCareers(careers, selected)
  {
  }

  // ------------------------------------------------------------- posting a job

  /** A requirement line worth keeping. */
  predicate NonEmptyLine(line: string) {
    line != ""
  }

  /**
   The requirements text split at line breaks, with empty lines dropped: every
   non-empty line is kept, as often as it occurs and in its order, and nothing else.
   */
  function RequirementLines(text: string): (r: seq<string>)
    ensures forall k :: 0 <= k < |r| ==> r[k] != "" && '\n' !in r[k]
    ensures IsSubseq(r, Text.Split(text, '\n'))
    ensures forall l :: multiset(r)[l] == if l != "" then multiset(Text.Split(text, '\n'))[l] else 0
  {
    var lines := Text.Split(text, '\n');
    var r := Filter(lines, NonEmptyLine);
    forall k | 0 <= k < |r|
      ensures r[k] != "" && '\n' !in r[k]
    {
      assert r[k] in r;
      var j :| 0 <= j < |lines| && lines[j] == r[k];
    }
    r
  }

  /**
   Lines typed with blank ones among them come back as exactly the non-blank
   lines, in order.
   */
  lemma RequirementLinesDropBlanks(lines: seq<string>)
    requires |lines| >= 1
    requires forall k :: 0 <= k < |lines| ==> '\n' !in lines[k]
    ensures RequirementLines(Text.Join(lines, '\n')) == Filter(lines, NonEmptyLine)
  {
    Text.SplitJoin(lines, '\n');
  }

  /**
   Typing non-empty, newline-free requirements one per line and posting gives back
   exactly those requirements, in order.
   */
  lemma RequirementLinesRoundTrip(lines: seq<string>)
    requires forall k :: 0 <= k < |lines| ==> lines[k] != "" && '\n' !in lines[k]
    ensures RequirementLines(Text.Join(lines, '\n')) == lines
  {
    if |lines| == 0 {
      assert Text.Split("", '\n') == [""];
    } else {
      Text.SplitJoin(lines, '\n');
      FilterKeepsAll(lines, NonEmptyLine);
    }
  }

  datatype PostForm = PostForm(
    jobTitle: string,
    department: string,
    location: string,
    jobType: string,
    jobDescription: string,
    requirements: string,
    salary: string)

  /** The form as it opens: every field empty, job type "Full-time". */
  const NewPostForm: PostForm := PostForm("", "", "", "Full-time", "", "", "")

  /** One user interaction with the posting form. */
  datatype PostEdit =
    | EditJobTitle(text: string)
    | EditDepartment(text: string)
    | EditLocation(text: string)
    | PickJobType(choice: string)
    | EditJobDescription(text: string)
    | EditRequirements(text: string)
    | EditSalary(text: string)

  /** The picker can only produce one of its listed choices. */
  predicate Offered(e: PostEdit) {
    e.PickJobType? ==> e.choice in PostJobTypes
  }

  function ApplyPostEdit(f: PostForm, e: PostEdit): PostForm
    requires Offered(e)
  {
    match e
    case EditJobTitle(t) => f.(jobTitle := t)
    case EditDepartment(t) => f.(department := t)
    case EditLocation(t) => f.(location := t)
    case PickJobType(t) => f.(jobType := t)
    case EditJobDescription(t) => f.(jobDescription := t)
    case EditRequirements(t) => f.(requirements := t)
    case EditSalary(t) => f.(salary := t)
  }

  /** Any run of interactions keeps the job type among the picker's choices. */
  function ApplyPostEdits(f: PostForm, edits: seq<PostEdit>): (r: PostForm)
    requires f.jobType in PostJobTypes
    requires forall k :: 0 <= k < |edits| ==> Offered(edits[k])
    ensures r.jobType in PostJobTypes
    decreases |edits|
  {
    if |edits| == 0 then f
    else ApplyPostEdits(ApplyPostEdit(f, edits[0]), edits[1..])
  }

  /** The Post button is disabled while the job title is empty. */
  predicate PostDisabled(f: PostForm): (r: bool)
    ensures f == NewPostForm ==> r
    ensures f.jobTitle != "" ==> !r
  {
    f.jobTitle == ""
  }

  /**
   `saveCareer`, reachable only through the enabled Post button: the new career
   copies the text fields, takes its requirements from the non-empty lines, is
   dated `now` and is active.
   */
  function Post(f: PostForm, now: Date): (r: Option<Career>)
    ensures r.Some? <==> f.jobTitle != ""
    ensures r.Some? ==> r.value.isActive && r.value.postedDate == now
    ensures r.Some? ==> r.value.jobTitle == f.jobTitle && r.value.jobType == f.jobType
    ensures r.Some? ==> r.value.department == f.department && r.value.location == f.location
    ensures r.Some? ==> r.value.jobDescription == f.jobDescription && r.value.salary == f.salary
    ensures r.Some? ==> r.value.requirements == RequirementLines(f.requirements)
  {
    if PostDisabled(f) then None
    else Some(NewCareer(f.jobTitle, f.department, f.location, f.jobType, f.jobDescription,
                        RequirementLines(f.requirements), f.salary, now))
  }

  /**
   A career posted from the form, after any interactions, has one of the three job
   types and is active; it is then listed under "All" and under its own job type.
   */
  lemma PostedCareerIsListed(careers: seq<Career>, edits: seq<PostEdit>, now: Date)
    requires forall k :: 0 <= k < |edits| ==> Offered(edits[k])
    requires !PostDisabled(ApplyPostEdits(NewPostForm, edits))
    ensures var c := Post(ApplyPostEdits(NewPostForm, edits), now).value;
      && c.jobType in PostJobTypes && c.isActive
      && c in FilteredCareers(careers + [c], All)
      && c in FilteredCareers(careers + [c], c.jobType)
  {
    var f := ApplyPostEdits(NewPostForm, edits);
    var c := Post(f, now).value;
    assert c in careers + [c];
    assert Listed(c, All) && Listed(c, c.jobType);
  }

  // --------------------------------------------------------- applying for a job

  datatype ApplicationForm = ApplicationForm(fullName: string, email: string, phone: string, coverLetter: string)

  /** The application form as it opens: every field empty. */
  const NewApplicationForm: ApplicationForm := ApplicationForm("", "", "", "")

  /** Submit Application is disabled while the name or the e-mail is empty; phone and cover letter are optional. */
  predicate SubmitDisabled(f: ApplicationForm): (r: bool)
    ensures f == NewApplicationForm ==> r
  {
    f.fullName == "" || f.email == ""
  }

  /** Which application forms can be submitted depends on the name and the e-mail alone. */
  lemma SubmitIgnoresOptionalFields(f: ApplicationForm, phone: string, coverLetter: string)
    ensures SubmitDisabled(f.(phone := phone, coverLetter := coverLetter)) == SubmitDisabled(f)
    ensures !SubmitDisabled(ApplicationForm("a", "b", "", ""))
  {
  }

  // ------------------------------------------------------------ on seeded data

  /** All three sample openings are active, so "All" lists every one of them. */
  lemma SeededAllListsEverything(now: Date)
    ensures FilteredCareers(SampleData.Seeded(now).careers, All) == SampleData.Seeded(now).careers
  {
    var cs := SampleData.Seeded(now).careers;
    SampleData.SampleCareersActive(now);
    FilterKeepsAll(cs, (c: Career) => c.isActive);
  }
}
