/**
 The Schools screen: the name-or-address search and the "Add School" form.
 */
module Schools {
  import opened Wrappers
  import opened Sequences
  import opened Text
  import opened Numerals
  import opened Models

  /** A school whose name or address contains the search text, ignoring case. */
  predicate MatchesSearch(s: School, search: string) {
    ContainsIgnoringCase(s.name, search) || ContainsIgnoringCase(s.address, search)
  }

  /**
   `filteredSchools`: every school while the search text is empty, otherwise
   exactly the matching schools, in query order, with their multiplicities.
   */
  function FilteredSchools(schools: seq<School>, search: string): (r: seq<School>)
    ensures IsSubseq(r, schools)
    ensures search == "" ==> r == schools
    ensures search != "" ==> forall s :: s in r <==> s in schools && MatchesSearch(s, search)
    ensures search != "" ==> forall s :: multiset(r)[s] == if MatchesSearch(s, search) then multiset(schools)[s] else 0
  {
    if search == "" then
      SubseqRefl(schools);
      schools
    else Filter(schools, (s: School) => MatchesSearch(s, search))
  }

  // -------------------------------------------------------------- adding a school

  datatype SchoolForm = SchoolForm(
    name: string,
    address: string,
    phoneNumber: string,
    email: string,
    schoolDescription: string,
    establishedYear: string)

  /** The form as it opens: empty text fields, the year field pre-filled with the current year. */
  function NewSchoolForm(currentYear: int): (r: SchoolForm)
    ensures r.name == "" && r.address == "" && r.phoneNumber == "" && r.email == "" && r.schoolDescription == ""
    ensures SaveDisabled(r)
    ensures IntMin <= currentYear <= IntMax ==> ParseInt(r.establishedYear) == Some(currentYear)
  {
    var r := SchoolForm("", "", "", "", "", Show(currentYear));
    assert IntMin <= currentYear <= IntMax ==> ParseInt(r.establishedYear) == Some(currentYear) by {
      if IntMin <= currentYear <= IntMax {
        ParseShow(currentYear);
      }
    }
    r
  }

  /** Save is disabled while the name or the address is empty. */
  predicate SaveDisabled(f: SchoolForm) {
    f.name == "" || f.address == ""
  }

  /**
   `saveSchool`, reachable only through the enabled Save button. The year is
   `Int(establishedYear) ?? 2000`: a numeral in the 64-bit range is stored as its
   value, anything else as 2000. The other text fields are copied and the new school
   has no logo.
   */
  function SaveSchool(f: SchoolForm): (r: Option<School>)
    ensures r.Some? <==> f.name != "" && f.address != ""
    ensures r.Some? ==> r.value.name == f.name && r.value.address == f.address
    ensures r.Some? ==> r.value.phoneNumber == f.phoneNumber && r.value.email == f.email
    ensures r.Some? ==> r.value.schoolDescription == f.schoolDescription
    ensures r.Some? && ParseInt(f.establishedYear).None? ==> r.value.establishedYear == 2000
    ensures r.Some? && ParseInt(f.establishedYear).Some? ==> r.value.establishedYear == ParseInt(f.establishedYear).value
    ensures r.Some? ==> r.value.logoImageName.None?
  {
    if SaveDisabled(f) then None
    else Some(School(f.name, f.address, f.phoneNumber, f.email, f.schoolDescription, None,
                     ParseOr(f.establishedYear, 2000)))
  }

  /** A year outside the 64-bit range, though all digits, is stored as 2000. */
  lemma OversizedYearIs2000(f: SchoolForm, year: int)
    requires !SaveDisabled(f)
    requires year > IntMax || year < IntMin
    ensures SaveSchool(f.(establishedYear := Show(year))).value.establishedYear == 2000
  {
    OutOfRangeRejected(year);
  }

  /** Typing a year stores that year verbatim, and the school is then in the unfiltered list with it. */
  lemma SavedYearRoundTrip(schools: seq<School>, f: SchoolForm, year: int)
    requires !SaveDisabled(f)
    requires IntMin <= year <= IntMax
    ensures var s := SaveSchool(f.(establishedYear := Show(year))).value;
      s.establishedYear == year && s in FilteredSchools(schools + [s], "")
  {
    ParseShow(year);
  }

  /** Leaving the pre-filled year untouched stores the current year. */
  lemma UntouchedYearIsCurrent(f: SchoolForm, currentYear: int)
    requires f.establishedYear == NewSchoolForm(currentYear).establishedYear
    requires !SaveDisabled(f)
    requires IntMin <= currentYear <= IntMax
    ensures SaveSchool(f).value.establishedYear == currentYear
  {
    ParseShow(currentYear);
  }

  /** Concretely: "2015" is stored as 2015; "MMXV" and "" fall back to 2000. */
  lemma SavedYearExamples(f: SchoolForm)
    requires !SaveDisabled(f)
    ensures SaveSchool(f.(establishedYear := "2015")).value.establishedYear == 2015
    ensures SaveSchool(f.(establishedYear := "MMXV")).value.establishedYear == 2000
    ensures SaveSchool(f.(establishedYear := "")).value.establishedYear == 2000
  {
    assert Show(2015) == "2015";
    ParseShow(2015);
    assert !IsNumeral("MMXV") by {
      assert !IsDigit("MMXV"[0]);
    }
  }
}
