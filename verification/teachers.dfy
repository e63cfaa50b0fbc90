/**
 The Teachers screen: subject chips built from the teachers on record, the
 subject-and-search filter, and the "Add Teacher" form.
 */
module Teachers {
  import opened Wrappers
  import opened Sequences
  import opened Text
  import opened Numerals
  import opened Ordering
  import opened Models
  import SampleData

  const All := "All"

  function SubjectsOf(ts: seq<Teacher>): (r: seq<string>)
    ensures forall y :: y in r <==> exists t :: t in ts && t.subject == y
  {
    var r := seq(|ts|, i requires 0 <= i < |ts| => ts[i].subject);
    assert forall i :: 0 <= i < |ts| ==> r[i] == ts[i].subject;
    r
  }

  /**
   `subjects`: the distinct subjects plus "All", ascending and without
   repetition, and nothing else.
   */
  function Subjects(ts: seq<Teacher>): (r: seq<string>)
    ensures StrictlySorted(r)
    ensures All in r
    ensures forall y :: y in r <==> y == All || exists t :: t in ts && t.subject == y
  {
    SortedDistinct(SubjectsOf(ts) + [All])
  }

  /** The chip list is the only strictly sorted list of those subjects, whatever order the `Set` yields them in. */
  lemma SubjectsCanonical(ts: seq<Teacher>, chips: seq<string>)
    requires StrictlySorted(chips)
    requires forall y :: y in chips <==> y == All || exists t :: t in ts && t.subject == y
    ensures chips == Subjects(ts)
  {
    SortedUnique(chips, Subjects(ts));
  }

  /** A teacher whose subject or name contains the search text, ignoring case. */
  predicate MatchesSearch(t: Teacher, search: string) {
    ContainsIgnoringCase(t.name, search) || ContainsIgnoringCase(t.subject, search)
  }

  /** A teacher the list shows for the selected chip and the search text. */
  predicate Shown(t: Teacher, subject: string, search: string) {
    && (subject == All || t.subject == subject)
    && (search == "" || MatchesSearch(t, search))
  }

  /**
   `filteredTeachers`: narrow to the selected subject unless it is "All", then to
   the search text unless it is empty. The result is exactly the teachers shown,
   in query order, with their multiplicities.
   */
  function FilteredTeachers(ts: seq<Teacher>, subject: string, search: string): (r: seq<Teacher>)
    ensures IsSubseq(r, ts)
    ensures forall t :: t in r <==> t in ts && Shown(t, subject, search)
    ensures forall t :: multiset(r)[t] == if Shown(t, subject, search) then multiset(ts)[t] else 0
  {
    var shown := (t: Teacher) => Shown(t, subject, search);
    var ofSubject := (t: Teacher) => t.subject == subject;
    var found := (t: Teacher) => MatchesSearch(t, search);
    var bySubject := if subject != All then Filter(ts, ofSubject) else ts;
    if search != "" then
      if subject != All then
        FilterFilter(ts, ofSubject, found, shown);
        Filter(bySubject, found)
      else
        FilterExtensional(ts, found, shown);
        Filter(bySubject, found)
    else
      if subject != All then
        FilterExtensional(ts, ofSubject, shown);
        bySubject
      else
        FilterKeepsAll(ts, shown);
        bySubject
  }

  /** With "All" selected and no search text the whole list is shown unchanged. */
  lemma NoFilterShowsAll(ts: seq<Teacher>)
    ensures FilteredTeachers(ts, All, "") == ts
  {
    FilterKeepsAll(ts, (t: Teacher) => Shown(t, All, ""));
  }

  /** The search ignores case: upper-casing letters of the search text changes nothing. */
  lemma SearchIgnoresCase(ts: seq<Teacher>, subject: string, search: string, search': string)
    requires search != "" && search' != ""
    requires Lower(search) == Lower(search')
    ensures FilteredTeachers(ts, subject, search) == FilteredTeachers(ts, subject, search')
  {
    FilterExtensional(ts, (t: Teacher) => Shown(t, subject, search), (t: Teacher) => Shown(t, subject, search'));
    assert forall t :: t in FilteredTeachers(ts, subject, search) <==> t in FilteredTeachers(ts, subject, search');
    FilteredIsFilter(ts, subject, search);
    FilteredIsFilter(ts, subject, search');
  }

  /** The two-stage filter is a single filter by `Shown`. */
  lemma FilteredIsFilter(ts: seq<Teacher>, subject: string, search: string)
    ensures FilteredTeachers(ts, subject, search) == Filter(ts, (t: Teacher) => Shown(t, subject, search))
  {
    var shown := (t: Teacher) => Shown(t, subject, search);
    var ofSubject := (t: Teacher) => t.subject == subject;
    var found := (t: Teacher) => MatchesSearch(t, search);
    if search != "" {
      if subject != All {
        FilterFilter(ts, ofSubject, found, shown);
      } else {
        FilterExtensional(ts, found, shown);
      }
    } else {
      if subject != All {
        FilterExtensional(ts, ofSubject, shown);
      } else {
        FilterKeepsAll(ts, shown);
      }
    }
  }

  // ------------------------------------------------------------- adding a teacher

  datatype TeacherForm = TeacherForm(
    name: string,
    subject: string,
    qualification: string,
    experience: string,
    bio: string,
    email: string,
    phoneNumber: string)

  /** The form as it opens: every field empty. */
  const NewTeacherForm: TeacherForm := TeacherForm("", "", "", "", "", "", "")

  /**
   Save is disabled while the name or the subject is empty, so on the opening
   form; the five other fields are optional.
   */
  predicate SaveDisabled(f: TeacherForm): (r: bool)
    ensures f == NewTeacherForm ==> r
    ensures f.name != "" && f.subject != "" ==> !r
  {
    f.name == "" || f.subject == ""
  }

  /**
   `saveTeacher`, reachable only through the enabled Save button. The years of
   experience are `Int(experience) ?? 0`: text that `Int` rejects (not a numeral,
   or a numeral outside the 64-bit range) is stored as 0. The other text fields
   are copied and the new teacher has no profile image.
   */
  function SaveTeacher(f: TeacherForm): (r: Option<Teacher>)
    ensures r.Some? <==> f.name != "" && f.subject != ""
    ensures r.Some? ==> r.value.name == f.name && r.value.subject == f.subject
    ensures r.Some? ==> r.value.qualification == f.qualification && r.value.bio == f.bio
    ensures r.Some? ==> r.value.email == f.email && r.value.phoneNumber == f.phoneNumber
    ensures r.Some? ==> r.value.profileImageName.None?
    ensures r.Some? && ParseInt(f.experience).None? ==> r.value.experience == 0
    ensures r.Some? && ParseInt(f.experience).Some? ==> r.value.experience == ParseInt(f.experience).value
    ensures r.Some? ==> IntMin <= r.value.experience <= IntMax
  {
    if SaveDisabled(f) then None
    else Some(Teacher(f.name, f.subject, f.qualification, ParseOr(f.experience, 0), f.bio,
                      f.email, f.phoneNumber, None))
  }

  /** Entering a number of years stores exactly that number. */
  lemma SavedExperienceRoundTrip(f: TeacherForm, years: int)
    requires !SaveDisabled(f)
    requires IntMin <= years <= IntMax
    ensures SaveTeacher(f.(experience := Show(years))).value.experience == years
  {
    ParseShow(years);
  }

  /** A year count too large for `Int`, such as 99999999999999999999, is stored as 0. */
  lemma OversizedExperienceIsZero(f: TeacherForm, years: int)
    requires !SaveDisabled(f)
    requires years > IntMax
    ensures SaveTeacher(f.(experience := Show(years))).value.experience == 0
  {
    OutOfRangeRejected(years);
  }

  // ------------------------------------------------------------ on seeded data

  const SeededChips: seq<string> := [All, "Computer Science", "English Literature", "Mathematics", "Science"]

  lemma SeededChipsSorted()
    ensures StrictlySorted(SeededChips)
  {
    var c := SeededChips;
    assert Less(c[0], c[1]) && Less(c[0], c[2]) && Less(c[0], c[3]) && Less(c[0], c[4]);
    assert Less(c[1], c[2]) && Less(c[1], c[3]) && Less(c[1], c[4]);
    assert Less(c[2], c[3]) && Less(c[2], c[4]);
    assert Less(c[3], c[4]);
  }

  lemma SampleSubjectsOf()
    ensures SubjectsOf(SampleData.SampleTeachers) == ["Mathematics", "Science", "English Literature", "Computer Science"]
  {
  }

  /** The seeded chips read All, Computer Science, English Literature, Mathematics, Science. */
  lemma SeededSubjects(now: Date)
    ensures Subjects(SampleData.Seeded(now).teachers) == SeededChips
  {
    SampleData.PopulateAppends(EmptyStore, now);
    assert SampleData.Seeded(now).teachers == SampleData.SampleTeachers;
    SampleSubjectsOf();
    SeededChipsSorted();
    SortedUnique(SeededChips, Subjects(SampleData.SampleTeachers));
  }
}
