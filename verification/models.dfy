/**
 The six catalog records and the store that holds them. Identifiers and creation
 timestamps (`UUID()`, `Date()`) are not modelled; dates are whole seconds.
 */
module Models {
  import opened Wrappers

  type Date = int

  const SecondsPerDay: int := 86400

  datatype School = School(
    name: string,
    address: string,
    phoneNumber: string,
    email: string,
    schoolDescription: string,
    logoImageName: Option<string>,
    establishedYear: int)

  datatype Teacher = Teacher(
    name: string,
    subject: string,
    qualification: string,
    experience: int,
    bio: string,
    email: string,
    phoneNumber: string,
    profileImageName: Option<string>)

  /** `fee` is a `Double` in the app; it is carried as a real number here. */
  datatype Program = Program(
    name: string,
    programDescription: string,
    duration: string,
    ageGroup: string,
    fee: real,
    curriculum: string,
    imageName: Option<string>)

  datatype Activity = Activity(
    title: string,
    activityDescription: string,
    category: string,
    schedule: string,
    location: string,
    imageNames: seq<string>)

  datatype NewsArticle = NewsArticle(
    title: string,
    content: string,
    author: string,
    publishedDate: Date,
    category: string,
    imageNames: seq<string>)

  datatype Career = Career(
    jobTitle: string,
    department: string,
    location: string,
    jobType: string,
    jobDescription: string,
    requirements: seq<string>,
    salary: string,
    postedDate: Date,
    isActive: bool)

  /** The `Career` initializer, whose `isActive` parameter defaults to true. */
  function NewCareer(jobTitle: string, department: string, location: string, jobType: string,
                     jobDescription: string, requirements: seq<string>, salary: string,
                     postedDate: Date): (c: Career)
    ensures c.isActive
    ensures c.jobTitle == jobTitle && c.jobType == jobType && c.requirements == requirements
    ensures c.department == department && c.location == location
    ensures c.jobDescription == jobDescription && c.salary == salary
    ensures c.postedDate == postedDate
  {
    Career(jobTitle, department, location, jobType, jobDescription, requirements, salary, postedDate, true)
  }

  /** The persistent store: one insertion-ordered list per record type. */
  datatype Store = Store(
    schools: seq<School>,
    teachers: seq<Teacher>,
    programs: seq<Program>,
    activities: seq<Activity>,
    news: seq<NewsArticle>,
    careers: seq<Career>)

  const EmptyStore: Store := Store([], [], [], [], [], [])

  /** Number of records of all six types. */
  function Size(st: Store): nat {
    |st.schools| + |st.teachers| + |st.programs| + |st.activities| + |st.news| + |st.careers|
  }
}
