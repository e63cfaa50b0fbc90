/**
 The sample-data seeder: six creators, each appending a fixed list of records to
 the store, and `populateAllSampleData`, which runs all six. No creator looks at
 what the store already holds. `now` stands for `Date()` at seeding time.
 */
module SampleData {
  import opened Wrappers
  import opened Models

  const SampleSchools: seq<School> := [
    School("Binnazhara School", "123 Education Street, City Center", "+1 (555) 111-2222",
           "info@binnazhara.edu",
           "Binnazhara School provides excellence in education with state-of-the-art facilities and experienced faculty. We focus on holistic development of students through academic excellence and extracurricular activities.",
           None, 2005),
    School("Al Noor School", "456 Knowledge Avenue, East District", "+1 (555) 333-4444",
           "contact@alnoor.edu",
           "Al Noor School is dedicated to nurturing young minds through innovative teaching methods and comprehensive curriculum. We emphasize both traditional values and modern education.",
           None, 2010),
    School("International School", "789 Global Plaza, West Zone", "+1 (555) 555-6666",
           "admissions@international.edu",
           "International School offers world-class education following international curriculum standards. Our diverse community prepares students for global citizenship.",
           None, 2015)
  ]

  const SampleTeachers: seq<Teacher> := [
    Teacher("Dr. Sarah Johnson", "Mathematics", "PhD in Mathematics Education", 15,
            "Dr. Johnson has dedicated her career to making mathematics accessible and engaging for students of all levels. She specializes in innovative teaching methods.",
            "s.johnson@school.edu", "+1 (555) 111-1111", None),
    Teacher("Prof. Ahmed Khan", "Science", "MSc in Physics", 12,
            "Professor Khan brings his passion for science to the classroom, inspiring students to explore the wonders of the natural world through hands-on experiments.",
            "a.khan@school.edu", "+1 (555) 222-2222", None),
    Teacher("Ms. Maria Garcia", "English Literature", "MA in English", 10,
            "Ms. Garcia loves helping students discover the joy of reading and writing. She creates an engaging environment where creativity flourishes.",
            "m.garcia@school.edu", "+1 (555) 333-3333", None),
    Teacher("Mr. David Lee", "Computer Science", "MS in Computer Science", 8,
            "Mr. Lee is passionate about preparing students for the digital age. He teaches programming, web development, and emerging technologies.",
            "d.lee@school.edu", "+1 (555) 444-4444", None)
  ]

  const SamplePrograms: seq<Program> := [
    Program("Primary Education",
            "Comprehensive primary education focusing on foundational skills in reading, writing, mathematics, and social development.",
            "6 Years", "Ages 6-12", 5000.0, "National Curriculum", None),
    Program("Secondary Education",
            "Advanced secondary education preparing students for higher education with focus on critical thinking and academic excellence.",
            "4 Years", "Ages 13-16", 7000.0, "International Baccalaureate", None),
    Program("STEM Program",
            "Specialized program in Science, Technology, Engineering, and Mathematics with hands-on learning and project-based curriculum.",
            "2 Years", "Ages 14-18", 8500.0, "Advanced STEM Curriculum", None),
    Program("Arts & Humanities",
            "Comprehensive arts education including visual arts, music, drama, and literature with focus on creative expression.",
            "2 Years", "Ages 14-18", 6500.0, "Arts & Humanities Curriculum", None)
  ]

  const FootballTraining: Activity :=
    Activity("Football Training",
             "Professional football training for students of all skill levels. Develop teamwork, fitness, and sportsmanship.",
             "Sports", "Mon, Wed, Fri 4:00-6:00 PM", "School Sports Ground", [])

  const SampleActivities: seq<Activity> := [
    FootballTraining,
    Activity("Art Club",
             "Explore various art forms including painting, sketching, and sculpture. Express your creativity and learn from experienced artists.",
             "Arts", "Tue, Thu 3:30-5:30 PM", "Art Studio, Building A", []),
    Activity("Science Fair",
             "Annual science fair where students showcase innovative projects and experiments. Compete for prizes and recognition.",
             "Academic", "March 15-17, All Day", "Main Auditorium", []),
    Activity("Cultural Festival",
             "Celebrate diversity through music, dance, and traditional performances from various cultures.",
             "Cultural", "Every Semester", "School Campus", [])
  ]

  /** The four sample activities are Football Training, then one each of Arts, Academic and Cultural. */
  lemma SampleActivityCategories()
    ensures |SampleActivities| == 4 && SampleActivities[0] == FootballTraining
    ensures SampleActivities[0].category == "Sports" && SampleActivities[1].category == "Arts"
    ensures SampleActivities[2].category == "Academic" && SampleActivities[3].category == "Cultural"
  {
  }

  /** The sample articles, each dated relative to the seeding time: 7, 3 and 1 days before it. */
  const RelativeSampleNews: seq<NewsArticle> :=
    [
      NewsArticle("School Wins National Science Competition",
                  "Our students brought home the first prize in the National Science Competition held last week. The team's innovative project on renewable energy impressed the judges and demonstrated excellence in scientific research. This achievement reflects the dedication of our students and the quality of our science program.",
                  "Admin Team", -SecondsPerDay * 7, "Academic", []),
      NewsArticle("New Sports Facilities Inaugurated",
                  "We are excited to announce the opening of our new state-of-the-art sports facilities, including an Olympic-size swimming pool, indoor basketball court, and modern gymnasium. These facilities will provide our students with world-class training opportunities.",
                  "Sports Department", -SecondsPerDay * 3, "Sports", []),
      NewsArticle("Annual Day Celebration 2025",
                  "Join us for our Annual Day celebration featuring performances by students, awards ceremony, and cultural programs. The event will showcase the talents and achievements of our students throughout the year. Parents and guests are warmly invited.",
                  "Events Committee", -SecondsPerDay * 1, "Events", [])
    ]

  /** The sample articles as `createSampleNews` builds them at time `now`. */
  function SampleNews(now: Date): (r: seq<NewsArticle>)
    ensures |r| == 3
  {
    seq(3, i requires 0 <= i < 3 =>
      RelativeSampleNews[i].(publishedDate := now + RelativeSampleNews[i].publishedDate))
  }

  /** The sample openings, posted 14, 10 and 5 days before the seeding time; `isActive` is left at its default. */
  const RelativeSampleCareers: seq<Career> :=
    [
      NewCareer("Mathematics Teacher", "Academic", "Binnazhara School", "Full-time",
                "We are looking for an experienced Mathematics teacher to join our academic team. The ideal candidate will have a passion for teaching and ability to inspire students.",
                ["Bachelor's degree in Mathematics or Education",
                 "Minimum 3 years teaching experience",
                 "Strong communication skills",
                 "Ability to use technology in teaching"],
                "$45,000 - $60,000", -SecondsPerDay * 14),
      NewCareer("School Administrator", "Administration", "Al Noor School", "Full-time",
                "Seeking a dedicated school administrator to manage daily operations, coordinate with staff, and ensure smooth functioning of school activities.",
                ["Master's degree in Education Administration",
                 "5+ years in school management",
                 "Leadership and organizational skills",
                 "Experience with school management systems"],
                "$55,000 - $75,000", -SecondsPerDay * 10),
      NewCareer("Sports Coach", "Physical Education", "International School", "Part-time",
                "Part-time sports coach needed for afternoon training sessions. Focus on football and athletics training for middle and high school students.",
                ["Coaching certification",
                 "Experience with youth sports",
                 "First aid certified",
                 "Excellent interpersonal skills"],
                "$25,000 - $35,000", -SecondsPerDay * 5)
    ]

  /** The sample openings as `createSampleCareers` builds them at time `now`. */
  function SampleCareers(now: Date): (r: seq<Career>)
    ensures |r| == 3
  {
    seq(3, i requires 0 <= i < 3 =>
      RelativeSampleCareers[i].(postedDate := now + RelativeSampleCareers[i].postedDate))
  }

  function SchoolNames(s: seq<School>): seq<string> {
    seq(|s|, i requires 0 <= i < |s| => s[i].name)
  }

  function ArticleTitles(s: seq<NewsArticle>): seq<string> {
    seq(|s|, i requires 0 <= i < |s| => s[i].title)
  }

  /** `createSampleSchools`: appends the three schools, in order, and touches nothing else. */
  function CreateSampleSchools(st: Store): (r: Store)
    ensures |r.schools| == |st.schools| + 3
    ensures r.schools[..|st.schools|] == st.schools
    ensures SchoolNames(r.schools[|st.schools|..]) == ["Binnazhara School", "Al Noor School", "International School"]
    ensures r.(schools := st.schools) == st
  {
    var r := st.(schools := st.schools + SampleSchools);
    assert r.schools[|st.schools|..] == SampleSchools;
    r
  }

  /** `createSampleTeachers`: appends four teachers. */
  function CreateSampleTeachers(st: Store): (r: Store)
    ensures |r.teachers| == |st.teachers| + 4
    ensures r.teachers[..|st.teachers|] == st.teachers
    ensures r.(teachers := st.teachers) == st
  {
    st.(teachers := st.teachers + SampleTeachers)
  }

  /** `createSamplePrograms`: appends four programs. */
  function CreateSamplePrograms(st: Store): (r: Store)
    ensures |r.programs| == |st.programs| + 4
    ensures r.programs[..|st.programs|] == st.programs
    ensures r.(programs := st.programs) == st
  {
    st.(programs := st.programs + SamplePrograms)
  }

  /** `createSampleActivities`: appends four activities. */
  function CreateSampleActivities(st: Store): (r: Store)
    ensures |r.activities| == |st.activities| + 4
    ensures r.activities[..|st.activities|] == st.activities
    ensures r.(activities := st.activities) == st
  {
    st.(activities := st.activities + SampleActivities)
  }

  /** `createSampleNews`: appends three articles. */
  function CreateSampleNews(st: Store, now: Date): (r: Store)
    ensures |r.news| == |st.news| + 3
    ensures r.news[..|st.news|] == st.news
    ensures r.(news := st.news) == st
  {
    st.(news := st.news + SampleNews(now))
  }

  /** `createSampleCareers`: appends three careers, all of them active. */
  function CreateSampleCareers(st: Store, now: Date): (r: Store)
    ensures |r.careers| == |st.careers| + 3
    ensures r.careers[..|st.careers|] == st.careers
    ensures forall i :: |st.careers| <= i < |r.careers| ==> r.careers[i].isActive
    ensures r.(careers := st.careers) == st
  {
    st.(careers := st.careers + SampleCareers(now))
  }

  /**
   `populateAllSampleData`: the six creators in their fixed order. The trailing
   `save()` and its swallowed error are persistence and are not modelled.
   */
  function PopulateAllSampleData(st: Store, now: Date): (r: Store)
    ensures Size(r) == Size(st) + 21
  {
    var s1 := CreateSampleSchools(st);
    var s2 := CreateSampleTeachers(s1);
    var s3 := CreateSamplePrograms(s2);
    var s4 := CreateSampleActivities(s3);
    var s5 := CreateSampleNews(s4, now);
    CreateSampleCareers(s5, now)
  }

  /** Seeding appends the sample lists to whatever each collection held before. */
  lemma PopulateAppends(st: Store, now: Date)
    ensures PopulateAllSampleData(st, now) == Store(
      st.schools + SampleSchools,
      st.teachers + SampleTeachers,
      st.programs + SamplePrograms,
      st.activities + SampleActivities,
      st.news + SampleNews(now),
      st.careers + SampleCareers(now))
  {
  }

  /** The store after the seeder is called on an empty one. */
  function Seeded(now: Date): Store {
    PopulateAllSampleData(EmptyStore, now)
  }

  /** Seeding an empty store gives 3 schools, 4 teachers, 4 programs, 4 activities, 3 articles and 3 careers. */
  lemma SeededCounts(now: Date)
    ensures |Seeded(now).schools| == 3 && |Seeded(now).teachers| == 4
    ensures |Seeded(now).programs| == 4 && |Seeded(now).activities| == 4
    ensures |Seeded(now).news| == 3 && |Seeded(now).careers| == 3
    ensures Size(Seeded(now)) == 21
  {
  }

  /** There is no existence check: seeding a second time duplicates every collection. */
  lemma SeedingTwiceDuplicates(now1: Date, now2: Date)
    ensures var twice := PopulateAllSampleData(Seeded(now1), now2);
      && twice.schools == SampleSchools + SampleSchools
      && twice.teachers == SampleTeachers + SampleTeachers
      && twice.programs == SamplePrograms + SamplePrograms
      && twice.activities == SampleActivities + SampleActivities
      && twice.news == SampleNews(now1) + SampleNews(now2)
      && twice.careers == SampleCareers(now1) + SampleCareers(now2)
      && Size(twice) == 2 * Size(Seeded(now1))
  {
    PopulateAppends(EmptyStore, now1);
    PopulateAppends(Seeded(now1), now2);
  }

  /** Every sample career is active, because none passes `isActive`. */
  lemma SampleCareersActive(now: Date)
    ensures forall c :: c in Seeded(now).careers ==> c.isActive
  {
    PopulateAppends(EmptyStore, now);
  }

  /** The sample articles get strictly increasing dates, so newest first they read Annual Day, Sports Facilities, Science Competition. */
  lemma SampleNewsDates(now: Date)
    ensures var n := SampleNews(now);
      n[0].publishedDate < n[1].publishedDate < n[2].publishedDate
    ensures ArticleTitles([SampleNews(now)[2], SampleNews(now)[1], SampleNews(now)[0]]) ==
      ["Annual Day Celebration 2025", "New Sports Facilities Inaugurated", "School Wins National Science Competition"]
  {
  }
}
