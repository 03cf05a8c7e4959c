/** The rows of the database tables the core reads and writes, as values.
    Columns the core never looks at are left out; every datatype below lists
    the columns in the order the table declares them. */
module Models {

  import opened Common

  /** A `DATE` value. */
  datatype Date = Date(year: int, month: int, day: int)

  /** A `DATETIME` value (seconds resolution). */
  datatype DateTime = DateTime(date: Date, hour: int, minute: int, second: int)

  /** Days in `month` of `year` in the proleptic Gregorian calendar. */
  function DaysInMonth(year: int, month: int): (n: int)
    requires 1 <= month <= 12
    ensures 28 <= n <= 31
    ensures month == 2 ==> (n == 29 <==> (year % 4 == 0 && (year % 100 != 0 || year % 400 == 0)))
  {
    if month == 2 then (if year % 4 == 0 && (year % 100 != 0 || year % 400 == 0) then 29 else 28)
    else if month == 4 || month == 6 || month == 9 || month == 11 then 30
    else 31
  }

  /** A date Python's `datetime.date` accepts: years 1..9999 and a day that
      exists in its month. */
  predicate ValidDate(d: Date) {
    1 <= d.year <= 9999 && 1 <= d.month <= 12 && 1 <= d.day <= DaysInMonth(d.year, d.month)
  }

  /** The calendar position of a date as one integer, for ORDER BY. */
  function DateKey(d: Date): int {
    (d.year * 13 + d.month) * 32 + d.day
  }

  /** Later dates have larger keys. */
  lemma DateKeyOrdersDates(a: Date, b: Date)
    requires 1 <= a.month <= 12 && 1 <= b.month <= 12 && 1 <= a.day <= 31 && 1 <= b.day <= 31
    requires a.year < b.year || (a.year == b.year && (a.month < b.month || (a.month == b.month && a.day < b.day)))
    ensures DateKey(a) < DateKey(b)
  {
  }

  /** The position of an instant as one integer, for ORDER BY. */
  function InstantKey(t: DateTime): int {
    ((DateKey(t.date) * 24 + t.hour) * 60 + t.minute) * 60 + t.second
  }

  datatype UserType = Personal | CompanyEmployee | UniversityStaff

  /** The claims a route reads from a verified token: `payload.get("user_id")`
      and `payload.get("user_type")`, each possibly absent. */
  datatype Caller = Caller(userId: Option<string>, userType: Option<string>)

  /** `users`. */
  datatype User = User(userId: string, userType: Option<UserType>, name: Option<string>,
                       phone: Option<string>, email: Option<string>, points: int)

  /** `personalusers`. */
  datatype PersonalUser = PersonalUser(userId: string, birthDate: Option<Date>,
                                       gender: Option<string>, profileAddr: Option<string>)

  /** `company_users`. */
  datatype CompanyUser = CompanyUser(userId: string, companyId: int)

  /** `companies`. */
  datatype Company = Company(id: int, companyName: Option<string>)

  /** `company_likes_personal`. */
  datatype CompanyLike = CompanyLike(
    id: int, companyId: int, userId: string, message: string,
    contactEmail: Option<string>, contactPhone: Option<string>, suggestedPosition: Option<string>,
    companyName: Option<string>, hrManagerName: Option<string>, createdAt: Option<DateTime>)

  datatype ApplicationStatus =
    | PreparingDocuments | DocumentsSubmitted | DocumentsUnderReview | DocumentsPassed | DocumentsFailed
    | PreparingTest | TestCompleted | TestUnderReview | TestPassed | TestFailed
    | PreparingAssignment | AssignmentSubmitted | AssignmentUnderReview | AssignmentPassed | AssignmentFailed
    | PreparingInterview | InterviewCompleted | InterviewUnderReview | InterviewPassed | InterviewFailed
    | FinalAccepted | FinalRejected | OfferDeclined

  /** `company_applications`. */
  datatype CompanyApplication = CompanyApplication(
    id: int, userId: string, companyName: string, position: string, applicationDate: DateTime,
    status: ApplicationStatus, createdAt: DateTime, updatedAt: DateTime)

  datatype ScheduleType =
    | DocumentDeadline | DocumentResultAnnouncement | TestDate | TestResultAnnouncement
    | AssignmentDeadline | InterviewDate | InterviewResultAnnouncement | FinalResultAnnouncement

  /** `application_schedules`. */
  datatype ApplicationSchedule = ApplicationSchedule(
    id: int, applicationId: int, scheduleType: ScheduleType, startDate: DateTime, endDate: DateTime,
    notes: Option<string>, isCompleted: bool, createdAt: DateTime, updatedAt: DateTime)

  datatype DocumentType = Resume | CoverLetter | Portfolio | Certificate | OtherDocument

  /** `application_documents`. */
  datatype ApplicationDocument = ApplicationDocument(
    id: int, applicationId: int, documentType: DocumentType, fileName: string, filePath: string,
    fileSize: Option<int>, originalName: Option<string>, uploadedAt: DateTime)

  datatype ExperienceLevel = Entry | Experienced
  datatype OverallEvaluation = Positive | Neutral | Negative
  datatype Difficulty = Easy | Medium | Hard
  datatype FinalResult = FinalPass | SecondPass | FirstPass | Fail

  /** `job_reviews`. */
  datatype JobReview = JobReview(
    id: int, userId: string, applicationId: Option<int>, companyName: string,
    experienceLevel: ExperienceLevel, interviewDate: Date, overallEvaluation: OverallEvaluation,
    difficulty: Difficulty, interviewReview: string, finalResult: FinalResult,
    createdAt: DateTime, updatedAt: DateTime)

  /** `job_positions`. */
  datatype JobPosition = JobPosition(id: int, jobReviewId: int, position: string)

  /** `interview_questions`. */
  datatype InterviewQuestion = InterviewQuestion(id: int, jobReviewId: int, question: string)

  datatype ActivityType = Contest | Club | Intern

  /** `skills`. */
  datatype Skill = Skill(userId: string, skillName: Option<string>)

  /** `projects`. */
  datatype Project = Project(userId: string, projectName: Option<string>, description: Option<string>,
                             startDate: Option<Date>, endDate: Option<Date>)

  /** `activities`. */
  datatype Activity = Activity(userId: string, activityType: Option<ActivityType>, title: Option<string>,
                               detail: Option<string>, date: Option<Date>)

  /** `certificates`. */
  datatype CertificateRow = CertificateRow(userId: string, certName: Option<string>, score: Option<string>,
                                           date: Option<Date>)

  /** `educations`. */
  datatype Education = Education(userId: string, schoolName: Option<string>, major: Option<string>,
                                 admissionYear: Option<Date>, graduationYear: Option<Date>,
                                 status: Option<string>, score: Option<real>)

  /** `hopes`. */
  datatype Hope = Hope(userId: string, company: Option<string>, job: Option<string>, region: Option<string>)
}
