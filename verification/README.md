# School catalog: a Dafny model

This project models the rules of a SwiftUI/SwiftData school app. The app shows six catalogs: schools, teachers, programs, activities, news and career openings. Each catalog has chip or search filters and an "add" form. It also has an AI-assistant chat with canned replies, an admin login and a contact form. A seeder fills a store with sample records when it is called; the app itself never calls it.

The model lifts the pure logic out of the views:

- the list filters and the sorted chip lists with "All" added;
- the Save/Post/Publish/Send/Login button guards;
- the `Int(text) ?? default` fallbacks;
- the one-requirement-per-line splitter;
- the keyword reply selector, the send rule and the typing-dot counter;
- the login and contact-form transitions;
- the seeder.

The records are immutable datatypes. The store is one sequence per record type, in insertion order. Every operation is a pure function.

Modules:

- `Wrappers`, `Sequences`, `Text`, `Numerals` and `Ordering` model the library behaviour the views rely on:
  - `filter` as an order-keeping subsequence;
  - ASCII case folding, substring search, `trimmingCharacters(in: .whitespacesAndNewlines)` and `components(separatedBy:)`;
  - Swift's `Int(String)` parse;
  - `Array(Set(...)).sorted()` on strings.
- `Models` holds the six records and the store.
- `SampleData` is the seeder.
- One module per screen: `Careers`, `Teachers`, `Schools`, `Programs`, `Activities`, `News`, `Chatbot`, `AdminLogin`, `Contact`.

Dates are whole seconds, and the current time `now` is a parameter. The app's `Date()` and `UUID()` values, and the `timestamp` fields, are not represented.

## Model

| member | source | states |
|---|---|---|
| Models.NewCareer | School/Models/Career.swift:25-36 | a career built without `isActive` is active and keeps the given title, type, requirements and date |
| SampleData.CreateSampleSchools | School/Helpers/SampleData.swift:12-43 | appends exactly three schools, Binnazhara, Al Noor, International in that order, and leaves every other collection and the old schools untouched |
| SampleData.CreateSampleTeachers | School/Helpers/SampleData.swift:45-86 | appends exactly four teachers after the existing ones and changes nothing else |
| SampleData.CreateSamplePrograms | School/Helpers/SampleData.swift:88-125 | appends exactly four programs after the existing ones and changes nothing else |
| SampleData.CreateSampleActivities | School/Helpers/SampleData.swift:127-160 | appends exactly four activities after the existing ones and changes nothing else |
| SampleData.CreateSampleNews | School/Helpers/SampleData.swift:162-188 | appends exactly three articles after the existing ones and changes nothing else |
| SampleData.CreateSampleCareers | School/Helpers/SampleData.swift:190-240 | appends exactly three careers, every one of them active, and changes nothing else |
| SampleData.PopulateAllSampleData | School/Helpers/SampleData.swift:242-249 | seeding adds 21 records in total |
| SampleData.PopulateAppends | School/Helpers/SampleData.swift:242-249 | seeding appends each sample list to whatever that collection already held, in creator order |
| SampleData.SeededCounts | School/Helpers/SampleData.swift:242-249 | an empty store seeds to 3 schools, 4 teachers, 4 programs, 4 activities, 3 articles and 3 careers |
| SampleData.SeedingTwiceDuplicates | School/Helpers/SampleData.swift:242-249 | there is no existence check: seeding twice yields every sample list twice and doubles the store size |
| SampleData.SampleCareersActive | School/Helpers/SampleData.swift:192-236 | every seeded career is active because none passes `isActive` |
| SampleData.SampleNewsDates | School/Helpers/SampleData.swift:165-185 | the sample articles are dated 7, 3 and 1 days back, so newest first they read Annual Day, Sports Facilities, Science Competition |
| Careers.FilteredCareers | School/Views/Corporate/CareersView.swift:17-24 | the list is the order-keeping subsequence of exactly the active careers of the chosen job type ("All": any type), with multiplicities |
| Careers.AllShowsActive | School/Views/Corporate/CareersView.swift:18-21 | under "All" the list equals the active careers in their original order |
| Careers.InactiveNeverListed | School/Views/Corporate/CareersView.swift:18 | an inactive career never appears, whatever the chip |
| Careers.RequirementLines | School/Views/Corporate/CareersView.swift:321 | the requirements are the lines in order with the empty ones removed: every non-empty line is kept as often as it occurs, and none is empty or holds a line break |
| Careers.RequirementLinesDropBlanks | School/Views/Corporate/CareersView.swift:321 | lines typed with blank ones among them come back as exactly the non-blank lines, in order |
| Careers.RequirementLinesRoundTrip | School/Views/Corporate/CareersView.swift:321 | non-empty lines without line breaks, joined with "\n", split back to exactly those lines |
| Careers.ApplyPostEdits | School/Views/Corporate/CareersView.swift:265-270 | any run of form interactions keeps the job type among Full-time, Part-time and Contract |
| Careers.PostDisabled | School/Views/Corporate/CareersView.swift:314 | Post is disabled on the opening form and enabled whenever the job title is non-empty, whatever the other fields hold |
| Careers.Post | School/Views/Corporate/CareersView.swift:314-335 | posting succeeds iff the job title is non-empty; the career is active, dated now, and has the form's title, department, location, type, description, salary and split requirements |
| Careers.PostedCareerIsListed | School/Views/Corporate/CareersView.swift:262-335 | a career posted from the form (default Full-time) has one of the three types, is active, and is listed under "All" and under its type |
| Careers.SubmitDisabled | School/Views/Corporate/CareersView.swift:237 | Submit Application is disabled on the opening application form |
| Careers.SubmitIgnoresOptionalFields | School/Views/Corporate/CareersView.swift:237 | the Submit guard depends only on full name and e-mail; phone and cover letter are optional |
| Careers.SeededAllListsEverything | School/Views/Corporate/CareersView.swift:17-24 | on the seeded store "All" lists every sample opening |
| Teachers.SubjectsOf | School/Views/Corporate/TeachersView.swift:17 | the mapped list holds exactly the teachers' subjects |
| Teachers.Subjects | School/Views/Corporate/TeachersView.swift:16-20 | the chips are strictly ascending, contain "All", and hold exactly "All" plus each teacher's subject |
| Teachers.SubjectsCanonical | School/Views/Corporate/TeachersView.swift:16-20 | any strictly sorted list of those subjects is the chip list, so it does not depend on the set's iteration order |
| Teachers.FilteredTeachers | School/Views/Corporate/TeachersView.swift:22-37 | the list is the order-keeping subsequence of exactly the teachers of the chosen subject that match the search, with multiplicities |
| Teachers.FilteredIsFilter | School/Views/Corporate/TeachersView.swift:22-37 | the two successive filters equal one filter by the combined condition |
| Teachers.NoFilterShowsAll | School/Views/Corporate/TeachersView.swift:23-36 | with "All" and an empty search the list equals the input |
| Teachers.SearchIgnoresCase | School/Views/Corporate/TeachersView.swift:29-34 | two searches that differ only in letter case show the same list |
| Teachers.SaveDisabled | School/Views/Corporate/TeachersView.swift:306 | Save is disabled on the opening form and enabled whenever name and subject are non-empty, whatever the five optional fields hold |
| Teachers.SaveTeacher | School/Views/Corporate/TeachersView.swift:306-324 | saving succeeds iff name and subject are non-empty; experience that `Int` rejects (a non-numeral, or a numeral outside the 64-bit range) is stored as 0, a numeral in range as its value; qualification, bio, e-mail and phone are copied and there is no image |
| Teachers.OversizedExperienceIsZero | School/Views/Corporate/TeachersView.swift:317 | a count typed as digits but beyond the 64-bit range is stored as 0 |
| Teachers.SavedExperienceRoundTrip | School/Views/Corporate/TeachersView.swift:317 | typing any 64-bit year count stores exactly that count |
| Teachers.SeededSubjects | School/Views/Corporate/TeachersView.swift:16-20 | on the seeded store the chips read All, Computer Science, English Literature, Mathematics, Science |
| Schools.FilteredSchools | School/Views/Corporate/SchoolsListView.swift:15-23 | an empty search returns the input unchanged; otherwise exactly the schools whose name or address contains the text ignoring case, in order, with multiplicities |
| Schools.SaveSchool | School/Views/Corporate/SchoolsListView.swift:265-283 | saving succeeds iff name and address are non-empty; a year that `Int` rejects (a non-numeral, or a numeral outside the 64-bit range) is stored as 2000, a numeral in range as its value; phone, e-mail and description are copied and there is no logo |
| Schools.OversizedYearIs2000 | School/Views/Corporate/SchoolsListView.swift:278 | a year typed as digits but outside the 64-bit range is stored as 2000 |
| Schools.SavedYearRoundTrip | School/Views/Corporate/SchoolsListView.swift:278 | typing any 64-bit year stores exactly that year, and the school shows in the unfiltered list |
| Schools.NewSchoolForm | School/Views/Corporate/SchoolsListView.swift:225-229 | the add-school form opens with empty text fields and Save disabled, and its pre-filled year text parses back to the current year |
| Schools.UntouchedYearIsCurrent | School/Views/Corporate/SchoolsListView.swift:229 | leaving the pre-filled year untouched stores the current year |
| Schools.SavedYearExamples | School/Views/Corporate/SchoolsListView.swift:278 | "2015" is stored as 2015; "MMXV" and "" are stored as 2000 |
| Programs.FilteredPrograms | School/Views/Corporate/ProgramsView.swift:17-22 | "All" returns every program; otherwise exactly the programs whose age group contains the chip title case-sensitively, in order, with multiplicities |
| Programs.SaveProgram | School/Views/Corporate/ProgramsView.swift:274-291 | saving succeeds iff the name is non-empty; it copies name, description, duration, age group and curriculum, takes the given fee, and has no image |
| Programs.SavedProgramIsListed | School/Views/Corporate/ProgramsView.swift:17-22 | a saved program shows under "All" and under every chip its age group contains |
| Programs.SampleAgeGroupsMatchNoChip | School/Helpers/SampleData.swift:88-125 | no sample age group contains "Primary", "Secondary" or "Advanced" |
| Programs.SeededChipsShowNothing | School/Views/Corporate/ProgramsView.swift:15-21 | on the seeded store the Primary, Secondary and Advanced chips each show an empty list |
| Activities.FilteredActivities | School/Views/Corporate/ActivitiesView.swift:17-22 | "All" returns every activity; otherwise exactly the activities of that category, in order, with multiplicities |
| Activities.CategoryColor | School/Views/Corporate/ActivitiesView.swift:73-81 | the colour is gray exactly for categories outside Sports, Arts, Cultural and Academic |
| Activities.CategoryIcon | School/Views/Corporate/ActivitiesView.swift:122-130 | the icon is "star.fill" exactly for categories outside the four listed ones |
| Activities.ColorIdentifiesCategory | School/Views/Corporate/ActivitiesView.swift:73-81 | the colour maps back to the category exactly for the four listed categories |
| Activities.StylesDistinct | School/Views/Corporate/ActivitiesView.swift:73-130 | two different listed categories never share a colour or an icon |
| Activities.ApplyActivityEdits | School/Views/Corporate/ActivitiesView.swift:225-243 | any run of form interactions keeps the category among the four picker choices |
| Activities.SaveActivity | School/Views/Corporate/ActivitiesView.swift:264-280 | saving succeeds iff the title is non-empty; it copies title, description, category, schedule and location and has no images |
| Activities.SavedActivityIsListed | School/Views/Corporate/ActivitiesView.swift:223-280 | an activity saved from the form (default Sports) has a listed category, a non-gray colour, and shows under "All" and under its chip |
| Activities.SeededSports | School/Views/Corporate/ActivitiesView.swift:21 | on the seeded store "Sports" shows exactly Football Training |
| Activities.OnePerCategory | School/Views/Corporate/ActivitiesView.swift:17-22 | on four activities, one per listed category, each chip shows exactly one activity, of its own category |
| Activities.SeededOnePerCategory | School/Helpers/SampleData.swift:130-155 | on the seeded store each of Sports, Arts, Cultural and Academic shows exactly one activity, of that category |
| SampleData.SampleActivityCategories | School/Helpers/SampleData.swift:127-160 | the four sample activities are Football Training (Sports), then one each of Arts, Academic and Cultural |
| News.NewsQuery | School/Views/Corporate/NewsListView.swift:12 | the feed is a newest-first rearrangement of the stored articles |
| News.TiesKeepInsertionOrder | School/Views/Corporate/NewsListView.swift:12 | in this model two articles with the same date come out in the order they were stored |
| News.NewestFirstUnique | School/Views/Corporate/NewsListView.swift:12 | with distinct dates there is only one newest-first rearrangement |
| News.QueryIsTheNewestFirstArrangement | School/Views/Corporate/NewsListView.swift:12 | with distinct dates any newest-first rearrangement of the store is the feed |
| News.Categories | School/Views/Corporate/NewsListView.swift:15-19 | the chips are strictly ascending, contain "All", and hold exactly "All" plus each article's category |
| News.CategoriesIgnoreOrder | School/Views/Corporate/NewsListView.swift:15-19 | the chips depend only on which articles are stored, not on their order |
| News.FilteredNews | School/Views/Corporate/NewsListView.swift:21-26 | "All" returns every article; otherwise exactly those of that category, in order, with multiplicities |
| News.FilteredNewsNewestFirst | School/Views/Corporate/NewsListView.swift:12-26 | whatever the chip, the list shown stays newest first |
| News.EveryChipShowsSomething | School/Views/Corporate/NewsListView.swift:15-26 | every chip other than "All" shows at least one article |
| News.ApplyNewsEdits | School/Views/Corporate/NewsListView.swift:147-166 | any run of form interactions keeps the category among the five picker choices |
| News.Publish | School/Views/Corporate/NewsListView.swift:187-203 | publishing succeeds iff title and content are non-empty; it copies title, content, author, category and chosen date and has no images |
| News.PublishedArticleIsListed | School/Views/Corporate/NewsListView.swift:144-203 | a published article (default General) has a picker category, gets a chip, and is listed under it |
| News.SeededCategories | School/Views/Corporate/NewsListView.swift:15-19 | on the seeded store the chips read Academic, All, Events, Sports |
| News.InsertOldest | School/Views/Corporate/NewsListView.swift:12 | an article older than all listed ones is placed last |
| News.SeededFeed | School/Views/Corporate/NewsListView.swift:12 | on the seeded store the feed reads Annual Day, Sports Facilities, Science Competition |
| Chatbot.FirstMatch | School/Views/Corporate/ChatbotView.swift:104-117 | the index found is a mentioned group with no mentioned group before it; none is found iff no group is mentioned |
| Chatbot.SelectIsFirstMatch | School/Views/Corporate/ChatbotView.swift:104-120 | walking the keyword table in order gives the reply of the first mentioned group, or the fallback |
| Chatbot.MentionsIff | School/Views/Corporate/ChatbotView.swift:104-116 | a group is mentioned iff one of its keywords is a substring |
| Chatbot.Respond | School/Views/Corporate/ChatbotView.swift:104-120 | the keyword if-chain on the lower-cased message always answers with one of the eight canned replies |
| Chatbot.RespondIsSelect | School/Views/Corporate/ChatbotView.swift:104-120 | the if-chain equals walking the keyword table in priority order |
| Chatbot.GenerateResponse | School/Views/Corporate/ChatbotView.swift:101-121 | the reply is one of the eight fixed strings and equals the table walk over the lower-cased message |
| Chatbot.ResponseIsFirstMatch | School/Views/Corporate/ChatbotView.swift:104-120 | the reply belongs to the first group the message mentions, and it is the fallback iff no group is mentioned |
| Chatbot.ResponseIgnoresCase | School/Views/Corporate/ChatbotView.swift:102 | the reply to a message equals the reply to its lower-cased form |
| Chatbot.ThisGetsGreeting | School/Views/Corporate/ChatbotView.swift:116-117 | matching is by substring: "this" gets the greeting |
| Chatbot.SendMessage | School/Views/Corporate/ChatbotView.swift:84-93 | whitespace-only input changes nothing; otherwise exactly one user message with the trimmed text is appended, the input is cleared and the typing indicator is shown |
| Chatbot.DeliverReply | School/Views/Corporate/ChatbotView.swift:94-98 | the delayed step hides the indicator and appends exactly the reply to the question |
| Chatbot.ExchangeAddsTwo | School/Views/Corporate/ChatbotView.swift:84-99 | a full exchange appends the trimmed question and then its reply, and ends with an empty input and no indicator |
| Chatbot.WhitespaceOnlyAppendsNothing | School/Views/Corporate/ChatbotView.swift:68-86 | whitespace-only input passes the button guard but appends nothing |
| Chatbot.SentTextIgnoresSurroundingBlanks | School/Views/Corporate/ChatbotView.swift:85-89 | inputs that trim to the same text append the same message |
| Chatbot.Tick | School/Views/Corporate/ChatbotView.swift:173-175 | from 0..3 a tick stays in 0..3, counting up and wrapping 3 to 0 |
| Chatbot.DotsAfter | School/Views/Corporate/ChatbotView.swift:154-175 | the counter always stays in 0..3 |
| Chatbot.DotsCycle | School/Views/Corporate/ChatbotView.swift:154-175 | after k ticks the counter reads k mod 4 |
| Chatbot.LitDotsAfter | School/Views/Corporate/ChatbotView.swift:160-175 | after k ticks exactly the first k mod 4 dots are opaque |
| AdminLogin.LoginDisabled | School/Views/Corporate/AdminLoginView.swift:73 | Login is disabled on the opening screen and never disabled when the accepted pair is typed |
| AdminLogin.Login | School/Views/Corporate/AdminLoginView.swift:105-112 | logged in iff already so or the pair is exactly admin/admin123; the alert is set otherwise; username and password unchanged |
| AdminLogin.LoggedInOnlyWithCredentials | School/Views/Corporate/AdminLoginView.swift:73-112 | a run of interactions ends logged in only if Login was pressed while the fields held exactly admin/admin123 |
| AdminLogin.CredentialsLogIn | School/Views/Corporate/AdminLoginView.swift:107-108 | typing admin/admin123 and pressing Login logs in |
| AdminLogin.WrongCaseRefused | School/Views/Corporate/AdminLoginView.swift:107-111 | the check is case-sensitive: "Admin" is refused and raises the alert |
| Contact.CanSend | School/Views/Corporate/ContactView.swift:90 | the opening form cannot be sent |
| Contact.SubjectOptional | School/Views/Corporate/ContactView.swift:90 | the subject field never changes whether Send is enabled |
| Contact.SendMessage | School/Views/Corporate/ContactView.swift:122-125 | sending only shows the alert; every field is kept |
| Contact.ClearForm | School/Views/Corporate/ContactView.swift:127-132 | clearing empties the four fields, keeps the alert flag, and disables Send |
| Contact.ClearFormIdempotent | School/Views/Corporate/ContactView.swift:127-132 | clearing twice equals clearing once |
| Contact.AcknowledgeAlert | School/Views/Corporate/ContactView.swift:112-115 | OK returns the form to its opening state |
| Contact.FieldsKeptUntilOK | School/Views/Corporate/ContactView.swift:90-125 | after any run of interactions without OK, each field holds its starting text or the text of its last edit |
| Contact.UntouchedFieldKept | School/Views/Corporate/ContactView.swift:90-125 | a run without OK and without edits of a field leaves that field unchanged, however often Send is pressed |
| Contact.SendThenOK | School/Views/Corporate/ContactView.swift:90-132 | sending a complete message and pressing OK returns the form to its opening state |
| Sequences.Filter | School/Views/Corporate/ActivitiesView.swift:21 | a filter result is a subsequence holding exactly the elements that pass, each as often as in the input |
| Sequences.FilterSingle | School/Views/Corporate/ActivitiesView.swift:21 | when exactly one element passes, the filter keeps just that element |
| Sequences.FilterFilter | School/Views/Corporate/TeachersView.swift:25-33 | filtering twice equals filtering once by both conditions |
| Sequences.SubseqKeepsOrder | School/Views/Corporate/NewsListView.swift:21-26 | a subsequence of a newest-first list is newest first |
| Text.Lower | School/Views/Corporate/ChatbotView.swift:102 | lower-casing keeps the length and folds every upper-case ASCII letter |
| Text.ContainsIffOccurs | School/Views/Corporate/ProgramsView.swift:21 | `contains` holds iff the needle occurs at some position |
| Text.SkipLeading | School/Views/Corporate/ChatbotView.swift:85 | the leading-whitespace scan stops at the first character that is not white space, and everything it passed is white space |
| Text.SkipTrailing | School/Views/Corporate/ChatbotView.swift:85 | the trailing-whitespace scan stops after the last character that is not white space, and everything it passed is white space |
| Text.TrimEmptyIff | School/Views/Corporate/ChatbotView.swift:85-86 | trimming yields the empty string exactly when the input is all white space |
| Text.TrimSpec | School/Views/Corporate/ChatbotView.swift:85 | trimming yields a slice with no white space at either end, and is empty iff the input is all white space |
| Text.Split | School/Views/Corporate/CareersView.swift:321 | splitting yields at least one piece, none containing the separator |
| Text.JoinSplit | School/Views/Corporate/CareersView.swift:321 | joining the pieces with the separator gives back the text |
| Text.SplitJoin | School/Views/Corporate/CareersView.swift:321 | splitting separator-free pieces joined by the separator gives back those pieces |
| Numerals.ParseInt | School/Views/Corporate/TeachersView.swift:317 | a parse succeeds exactly on an optionally signed run of ASCII digits whose value lies in the 64-bit range, and yields that value |
| Numerals.ParseExamples | School/Views/Corporate/TeachersView.swift:317 | "+15" parses to 15, "007" to 7 and "-0" to 0; " 7" is rejected |
| Numerals.OutOfRangeRejected | School/Views/Corporate/SchoolsListView.swift:278 | the decimal text of a value outside the 64-bit range is a numeral, yet the parse rejects it |
| Numerals.ParseShow | School/Views/Corporate/SchoolsListView.swift:229-278 | the decimal text of any 64-bit integer parses back to it |
| Numerals.ParseOr | School/Views/Corporate/TeachersView.swift:317 | `Int(text) ?? fallback`: the fallback exactly when the parse fails, otherwise the parsed value |
| Numerals.ParseOrNonNumeral | School/Views/Corporate/SchoolsListView.swift:278 | text that is not a numeral yields the fallback |
| Ordering.SortedDistinct | School/Views/Corporate/TeachersView.swift:17-19 | the result is strictly ascending and holds exactly the input's elements |
| Ordering.SortedUnique | School/Views/Corporate/NewsListView.swift:16-18 | two strictly ascending lists with the same elements are equal |

## Left out

- All SwiftUI layout, styling and navigation are left out, as are the card, detail and chip views and the home, about and more screens: they have no behaviour beyond display. The typing indicator's dot opacity is kept because it depends on the counter.
- SwiftData persistence is left out: `insert`, `save`, and the error that the seeder's `save()` swallows. The store is plain sequences that creators append to.
- The `@Query` order of every catalog except news is left out. Those lists are taken in whatever order the store holds them. The news query is modelled as a newest-first insertion sort; the app's order among articles with equal dates is unspecified.
- The seeder itself is modelled, but no screen or app start-up calls `populateAllSampleData`; it exists for developers to call by hand. The `Seeded*` lemmas describe the store after such an explicit call on an empty store, not what a user sees on first launch.
- `UUID()`, `Date()` and the records' `timestamp` fields are left out. Dates are whole seconds, and the current time is a parameter. `Calendar` year extraction is replaced by a `currentYear` parameter.
- The program fee parse `Double(fee) ?? 0` and the `"$%.0f"` display are left out because they are floating point. `Programs.SaveProgram` takes the already-parsed fee as a real number.
- The 1.5-second reply delay and the 0.5-second timer are concurrency and timing. Delivering a reply (`Chatbot.DeliverReply`) and one timer tick (`Chatbot.Tick`) are plain transitions; their interleaving with other input is not modelled.
- Chatbot.GenerateResponse: `lowercased()` is modelled as ASCII A–Z folding. Locale-aware and non-ASCII case mapping are left out.
- Schools.FilteredSchools and Teachers.FilteredTeachers: `localizedCaseInsensitiveContains` is modelled as substring search after ASCII folding. Locale and diacritic rules are left out.
- Text.TrimSpec: white space is the Unicode White_Space character set, compared per character. Grapheme clusters are not modelled.
- Teachers.Subjects, Teachers.FilteredTeachers, News.Categories, Activities.FilteredActivities and every other string equality: Swift's `String ==`, `Set` and `sorted()` use Unicode canonical equivalence, so a precomposed "é" and "e" followed by U+0301 are one subject in the app. The model compares code-point sequences and treats them as two. Unicode normalisation is left out.
- Ordering.SortedDistinct: `sorted()` is modelled as lexicographic order on character code points. Swift's `String` comparison agrees on the ASCII texts used here.
- Navigating from the login screen to the admin dashboard, and back, is left out (navigation). The dashboard itself is not part of this model.
- The application form's `submitApplication` does nothing beyond dismissing, so only its Submit guard is modelled.
