/**
 The Activities screen: the category chip filter, the colour and icon each
 category is drawn with, and the "Add Activity" form with its category picker.
 */
module Activities {
  import opened Wrappers
  import opened Sequences
  import opened Models
  import SampleData

  const All := "All"

  /** Chips above the list. */
  const Categories: seq<string> := [All, "Sports", "Arts", "Cultural", "Academic"]

  /** Choices the "Category" picker of the form offers: the chips without "All". */
  const PickerCategories: seq<string> := ["Sports", "Arts", "Cultural", "Academic"]

  /**
   `filteredActivities`: every activity under "All", otherwise exactly those whose
   category equals the chip title, in query order, with their multiplicities.
   */
  function FilteredActivities(activities: seq<Activity>, selected: string): (r: seq<Activity>)
    ensures IsSubseq(r, activities)
    ensures selected == All ==> r == activities
    ensures selected != All ==> forall a :: a in r <==> a in activities && a.category == selected
    ensures selected != All ==> forall a :: multiset(r)[a] == if a.category == selected then multiset(activities)[a] else 0
  {
    if selected == All then
      SubseqRefl(activities);
      activities
    else Filter(activities, (a: Activity) => a.category == selected)
  }

  /** A chip other than the listed categories (say "Music") shows nothing on a store holding only listed categories. */
  lemma UnknownChipShowsNothing(activities: seq<Activity>, selected: string)
    requires selected !in Categories
    requires forall k :: 0 <= k < |activities| ==> activities[k].category in PickerCategories
    ensures FilteredActivities(activities, selected) == []
  {
  }

  // ------------------------------------------------------------ card styling

  datatype Color = Green | Purple | Orange | Blue | Gray

  /** The card's accent colour: one per listed category, gray for anything else. */
  function CategoryColor(category: string): (c: Color)
    ensures c == Gray <==> category !in PickerCategories
  {
    match category
    case "Sports" => Green
    case "Arts" => Purple
    case "Cultural" => Orange
    case "Academic" => Blue
    case _ => Gray
  }

  /** The card's SF Symbol: one per listed category, a star for anything else. */
  function CategoryIcon(category: string): (icon: string)
    ensures icon == "star.fill" <==> category !in PickerCategories
  {
    match category
    case "Sports" => "sportscourt.fill"
    case "Arts" => "paintpalette.fill"
    case "Cultural" => "theatermasks.fill"
    case "Academic" => "book.fill"
    case _ => "star.fill"
  }

  /** The category a colour stands for, if any: the inverse of `CategoryColor` on the listed categories. */
  function ColorCategory(c: Color): (r: Option<string>)
    ensures r.Some? <==> c != Gray
    ensures r.Some? ==> r.value in PickerCategories
  {
    match c
    case Green => Some("Sports")
    case Purple => Some("Arts")
    case Orange => Some("Cultural")
    case Blue => Some("Academic")
    case Gray => None
  }

  /** The colour alone tells which listed category a card belongs to. */
  lemma ColorIdentifiesCategory(category: string)
    ensures category in PickerCategories <==> ColorCategory(CategoryColor(category)) == Some(category)
  {
  }

  /** Two different listed categories never share a colour or an icon. */
  lemma StylesDistinct(a: string, b: string)
    requires a in PickerCategories && b in PickerCategories && a != b
    ensures CategoryColor(a) != CategoryColor(b)
    ensures CategoryIcon(a) != CategoryIcon(b)
  {
  }

  // ----------------------------------------------------------- adding an activity

  datatype ActivityForm = ActivityForm(
    title: string,
    description: string,
    category: string,
    schedule: string,
    location: string)

  /** The form as it opens: every field empty, category "Sports". */
  const NewActivityForm: ActivityForm := ActivityForm("", "", "Sports", "", "")

  /** One user interaction with the form. */
  datatype ActivityEdit =
    | EditTitle(text: string)
    | EditDescription(text: string)
    | PickCategory(choice: string)
    | EditSchedule(text: string)
    | EditLocation(text: string)

  /** The picker can only produce one of its listed choices. */
  predicate Offered(e: ActivityEdit) {
    e.PickCategory? ==> e.choice in PickerCategories
  }

  function ApplyActivityEdit(f: ActivityForm, e: ActivityEdit): ActivityForm
    requires Offered(e)
  {
    match e
    case EditTitle(t) => f.(title := t)
    case EditDescription(t) => f.(description := t)
    case PickCategory(t) => f.(category := t)
    case EditSchedule(t) => f.(schedule := t)
    case EditLocation(t) => f.(location := t)
  }

  /** Any run of interactions keeps the category among the picker's choices. */
  function ApplyActivityEdits(f: ActivityForm, edits: seq<ActivityEdit>): (r: ActivityForm)
    requires f.category in PickerCategories
    requires forall k :: 0 <= k < |edits| ==> Offered(edits[k])
    ensures r.category in PickerCategories
    decreases |edits|
  {
    if |edits| == 0 then f
    else ApplyActivityEdits(ApplyActivityEdit(f, edits[0]), edits[1..])
  }

  /** Save is disabled while the title is empty. */
  predicate SaveDisabled(f: ActivityForm) {
    f.title == ""
  }

  /** `saveActivity`, reachable only through the enabled Save button; the new activity has no images. */
  function SaveActivity(f: ActivityForm): (r: Option<Activity>)
    ensures r.Some? <==> f.title != ""
    ensures r.Some? ==> r.value.title == f.title && r.value.category == f.category
    ensures r.Some? ==> r.value.schedule == f.schedule && r.value.location == f.location
    ensures r.Some? ==> r.value.activityDescription == f.description
    ensures r.Some? ==> r.value.imageNames == []
  {
    if SaveDisabled(f) then None
    else Some(Activity(f.title, f.description, f.category, f.schedule, f.location, []))
  }

  /**
   An activity saved from the form, after any interactions, has a listed category
   and so a colour other than gray; it is shown under "All" and under its own chip.
   */
  lemma SavedActivityIsListed(activities: seq<Activity>, edits: seq<ActivityEdit>)
    requires forall k :: 0 <= k < |edits| ==> Offered(edits[k])
    requires !SaveDisabled(ApplyActivityEdits(NewActivityForm, edits))
    ensures var a := SaveActivity(ApplyActivityEdits(NewActivityForm, edits)).value;
      && a.category in Categories && CategoryColor(a.category) != Gray
      && a in FilteredActivities(activities + [a], All)
      && a in FilteredActivities(activities + [a], a.category)
  {
    var f := ApplyActivityEdits(NewActivityForm, edits);
    var a := SaveActivity(f).value;
    assert a.category in PickerCategories;
    ListedUnderOwnChip(activities, a);
  }

  lemma ListedUnderOwnChip(activities: seq<Activity>, a: Activity)
    requires a.category in PickerCategories
    ensures a.category in Categories && CategoryColor(a.category) != Gray
    ensures a in FilteredActivities(activities + [a], All)
    ensures a in FilteredActivities(activities + [a], a.category)
  {
    assert a in activities + [a];
  }

  // ------------------------------------------------------------ on seeded data

  /** On the seeded store the "Sports" chip shows Football Training and nothing else. */
  lemma SeededSports(now: Date)
    ensures FilteredActivities(SampleData.Seeded(now).activities, "Sports") == [SampleData.FootballTraining]
  {
    SampleData.PopulateAppends(EmptyStore, now);
    SampleData.SampleActivityCategories();
    FilterSingle(SampleData.SampleActivities, (a: Activity) => a.category == "Sports", 0);
  }

  /** Four activities, one per listed category: each chip shows exactly the one of its category. */
  lemma OnePerCategory(acts: seq<Activity>, chip: string)
    requires |acts| == 4
    requires acts[0].category == "Sports" && acts[1].category == "Arts"
    requires acts[2].category == "Academic" && acts[3].category == "Cultural"
    requires chip in PickerCategories
    ensures var shown := FilteredActivities(acts, chip);
      |shown| == 1 && shown[0].category == chip
  {
    var p := (a: Activity) => a.category == chip;
    if chip == "Sports" {
      FilterSingle(acts, p, 0);
    } else if chip == "Arts" {
      FilterSingle(acts, p, 1);
    } else if chip == "Academic" {
      FilterSingle(acts, p, 2);
    } else {
      FilterSingle(acts, p, 3);
    }
  }

  /** On the seeded store every listed category shows exactly one activity, the sample one of that category. */
  lemma SeededOnePerCategory(now: Date, chip: string)
    requires chip in PickerCategories
    ensures var shown := FilteredActivities(SampleData.Seeded(now).activities, chip);
      |shown| == 1 && shown[0].category == chip
  {
    SampleData.PopulateAppends(EmptyStore, now);
    SampleData.SampleActivityCategories();
    OnePerCategory(SampleData.SampleActivities, chip);
  }
}
