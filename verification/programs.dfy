/**
 The Programs screen: the age-group chip filter and the "Add Program" form.
 */
module Programs {
  import opened Wrappers
  import opened Sequences
  import opened Text
  import opened Models
  import SampleData

  const All := "All"

  /** Chips above the list. */
  const Categories: seq<string> := [All, "Primary", "Secondary", "Advanced"]

  /**
   `filteredPrograms`: every program under "All", otherwise exactly those whose age
   group contains the chip title as a case-sensitive substring, in query order.
   */
  function FilteredPrograms(programs: seq<Program>, selected: string): (r: seq<Program>)
    ensures IsSubseq(r, programs)
    ensures selected == All ==> r == programs
    ensures selected != All ==> forall p :: p in r <==> p in programs && Contains(p.ageGroup, selected)
    ensures selected != All ==> forall p :: multiset(r)[p] == if Contains(p.ageGroup, selected) then multiset(programs)[p] else 0
  {
    if selected == All then
      SubseqRefl(programs);
      programs
    else Filter(programs, (p: Program) => Contains(p.ageGroup, selected))
  }

  // ------------------------------------------------------------- adding a program

  datatype ProgramForm = ProgramForm(
    name: string,
    description: string,
    duration: string,
    ageGroup: string,
    fee: string,
    curriculum: string)

  /** Save is disabled while the name is empty; every other field is optional. */
  predicate SaveDisabled(f: ProgramForm) {
    f.name == ""
  }

  /**
   `saveProgram`, reachable only through the enabled Save button. The fee text is
   parsed as a `Double` with fallback 0; that floating-point parse is not modelled
   here, so the caller supplies its result as `fee`.
   */
  function SaveProgram(f: ProgramForm, fee: real): (r: Option<Program>)
    ensures r.Some? <==> f.name != ""
    ensures r.Some? ==> r.value.name == f.name && r.value.ageGroup == f.ageGroup && r.value.fee == fee
    ensures r.Some? ==> r.value.programDescription == f.description && r.value.duration == f.duration
    ensures r.Some? ==> r.value.curriculum == f.curriculum && r.value.imageName.None?
  {
    if SaveDisabled(f) then None
    else Some(Program(f.name, f.description, f.duration, f.ageGroup, fee, f.curriculum, None))
  }

  /** A program saved with an age group is found under every chip its age group contains. */
  lemma SavedProgramIsListed(programs: seq<Program>, f: ProgramForm, fee: real, chip: string)
    requires !SaveDisabled(f)
    requires chip == All || Contains(f.ageGroup, chip)
    ensures var p := SaveProgram(f, fee).value; p in FilteredPrograms(programs + [p], chip)
  {
    var p := SaveProgram(f, fee).value;
    assert p in programs + [p];
  }

  // ------------------------------------------------------------ on seeded data

  /** No sample age group ("Ages 6-12", "Ages 13-16", "Ages 14-18") mentions "Primary", "Secondary" or "Advanced". */
  lemma SampleAgeGroupsMatchNoChip(p: Program, chip: string)
    requires p in SampleData.SamplePrograms
    requires chip in Categories[1..]
    ensures !Contains(p.ageGroup, chip)
  {
    assert p.ageGroup in ["Ages 6-12", "Ages 13-16", "Ages 14-18"];
    assert chip in ["Primary", "Secondary", "Advanced"];
    forall g, c | g in ["Ages 6-12", "Ages 13-16", "Ages 14-18"] && c in ["Primary", "Secondary", "Advanced"]
      ensures !Contains(g, c)
    {
      NoChipInAgeGroup(g, c);
    }
  }

  /** A chip title never occurs in an "Ages …" label. */
  lemma NoChipInAgeGroup(g: string, c: string)
    requires g in ["Ages 6-12", "Ages 13-16", "Ages 14-18"]
    requires c in ["Primary", "Secondary", "Advanced"]
    ensures !Contains(g, c)
  {
    if Contains(g, c) {
      ContainsIffOccurs(g, c);
      var i :| OccursAt(g, c, i);
      OccurrenceStart(g, c, i);
      assert false;
    }
  }

  lemma OccurrenceStart(g: string, c: string, i: int)
    requires OccursAt(g, c, i) && |c| >= 2
    ensures g[i] == c[0] && g[i + 1] == c[1]
  {
    assert g[i..i + |c|] == c;
  }

  /** On the seeded store the "Primary", "Secondary" and "Advanced" chips each show an empty list. */
  lemma SeededChipsShowNothing(now: Date, chip: string)
    requires chip in Categories[1..]
    ensures FilteredPrograms(SampleData.Seeded(now).programs, chip) == []
  {
    SampleData.PopulateAppends(EmptyStore, now);
    var ps := SampleData.Seeded(now).programs;
    assert ps == SampleData.SamplePrograms;
    var r := FilteredPrograms(ps, chip);
    if |r| > 0 {
      assert r[0] in r;
      SampleAgeGroupsMatchNoChip(r[0], chip);
      assert false;
    }
  }
}
