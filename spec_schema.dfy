/** The bodies of the spec endpoints: the `parse_date` validator every date
    field runs first, the activity-type enum, and the list and object
    defaults of `SpecCreateUpdate`. */
module SpecSchema {

  import opened Common
  import opened Models
  import opened Text
  import CompanyCrud

  const DateFormatError := "날짜 형식은 YYYY-MM-DD이어야 합니다."

  function ActivityTypeName(e: ActivityType): string {
    match e
    case Contest => "contest"
    case Club => "club"
    case Intern => "intern"
  }

  /** `ActivityType(s)`: the member whose value is `s`, if any. */
  function ParseActivityType(s: string): (r: Option<ActivityType>)
    ensures forall e :: r == Some(e) <==> ActivityTypeName(e) == s
  {
    if s == "contest" then Some(Contest)
    else if s == "club" then Some(Club)
    else if s == "intern" then Some(Intern)
    else None
  }

  /** What `%m` matches: `1[0-2]|0[1-9]|[1-9]`. */
  predicate MonthToken(t: string) {
    (|t| == 1 && '1' <= t[0] <= '9')
    || (|t| == 2 && ((t[0] == '0' && '1' <= t[1] <= '9') || (t[0] == '1' && '0' <= t[1] <= '2')))
  }

  /** What `%d` matches: `3[01]|[12]\d|0[1-9]|[1-9]| [1-9]`. */
  predicate DayToken(t: string) {
    (|t| == 1 && '1' <= t[0] <= '9')
    || (|t| == 2 && ((t[0] == '0' && '1' <= t[1] <= '9')
                     || ((t[0] == '1' || t[0] == '2') && IsDigit(t[1]))
                     || (t[0] == '3' && (t[1] == '0' || t[1] == '1'))
                     || (t[0] == ' ' && '1' <= t[1] <= '9')))
  }

  /** `int(t)` for a month or day token; `int` ignores a leading space. */
  function TokenValue(t: string): (n: nat)
    requires MonthToken(t) || DayToken(t)
    ensures 1 <= n <= 31
    ensures MonthToken(t) ==> n <= 12
  {
    if |t| == 1 then DigitValue(t[0])
    else if t[0] == ' ' then DigitValue(t[1])
    else DigitValue(t[0]) * 10 + DigitValue(t[1])
  }

  /** `datetime.strptime(s, "%Y-%m-%d").date()`: four digits of year, a dash,
      a month token, a dash and a day token filling the rest of the string,
      and a date that exists (year 1 or later, day within its month). */
  function ParseIsoDate(s: string): (r: Option<Date>)
    ensures r.Some? ==> ValidDate(r.value)
    ensures r.Some? ==> 8 <= |s| <= 10 && s[4] == '-' && AllDigits(s[..4]) && r.value.year == DigitsValue(s[..4])
  {
    if |s| < 8 || s[4] != '-' || !AllDigits(s[..4]) then None
    else
      var k := if s[6] == '-' then 6 else 7;
      if s[k] != '-' || !MonthToken(s[5..k]) || !DayToken(s[k + 1..]) then None
      else
        var date := Date(DigitsValue(s[..4]), TokenValue(s[5..k]), TokenValue(s[k + 1..]));
        if ValidDate(date) then Some(date) else None
  }

  /** What reaches a `mode='before'` date validator: JSON null, a `date`
      object, a string, or any other value (a number, a boolean, ...). */
  datatype DateInput = NoDate | DateValue(date: Date) | DateText(text: string) | OtherValue

  /** `parse_date`: `None` and `date` values pass unchanged; a string must
      parse as `%Y-%m-%d`; anything else fails with the same message. */
  function ParseDate(v: DateInput): (r: Result<Option<Date>, string>)
    ensures v.NoDate? ==> r == Ok(None)
    ensures v.DateValue? ==> r == Ok(Some(v.date))
    ensures v.OtherValue? ==> r == Err(DateFormatError)
    ensures v.DateText? ==> (r.Ok? <==> ParseIsoDate(v.text).Some?)
    ensures v.DateText? && r.Ok? ==> r.value.Some? && ValidDate(r.value.value)
    ensures r.Err? ==> r.error == DateFormatError
  {
    match v
    case NoDate => Ok(None)
    case DateValue(d) => Ok(Some(d))
    case DateText(s) =>
      (match ParseIsoDate(s)
       case None => Err(DateFormatError)
       case Some(d) => Ok(Some(d)))
    case OtherValue => Err(DateFormatError)
  }

  /** A zero-padded month or day token holds the number it reads as. */
  lemma PaddedToken(n: nat, t: string)
    requires 1 <= n <= 31 && t == Padded(n, 2)
    ensures |t| == 2 && DayToken(t) && TokenValue(t) == n
    ensures n <= 12 ==> MonthToken(t)
  {
    Pow10Values();
    PaddedValue(n, 2);
    TwoDigits(t);
  }

  /** `ParseIsoDate` on four digits, a dash, two-character month and day tokens. */
  lemma ParseJoined(y: string, m: string, dd: string)
    requires |y| == 4 && AllDigits(y) && |m| == 2 && MonthToken(m) && |dd| == 2 && DayToken(dd)
    ensures var date := Date(DigitsValue(y), TokenValue(m), TokenValue(dd));
            ParseIsoDate(y + ['-'] + m + ['-'] + dd) == if ValidDate(date) then Some(date) else None
  {
    var s := y + ['-'] + m + ['-'] + dd;
    assert s[..4] == y && s[5..7] == m && s[8..] == dd && s[4] == '-' && s[7] == '-' && s[6] == m[1];
  }

  /** Every date Python can hold survives `strftime("%Y-%m-%d")` followed by
      `parse_date`: the format the API writes is the format it reads. */
  lemma FormattedDateParses(d: Date)
    requires ValidDate(d)
    ensures ParseIsoDate(CompanyCrud.FormatDate(d)) == Some(d)
  {
    Pow10Values();
    var y, m, dd := Padded(d.year, 4), Padded(d.month, 2), Padded(d.day, 2);
    PaddedValue(d.year, 4);
    PaddedToken(d.month, m);
    PaddedToken(d.day, dd);
    ParseJoined(y, m, dd);
    assert CompanyCrud.FormatDate(d) == y + ['-'] + m + ['-'] + dd;
  }

  /** `Skill`. */
  datatype SkillItem = SkillItem(skillName: Option<string>)

  /** `Project`. */
  datatype ProjectItem = ProjectItem(projectName: Option<string>, description: Option<string>,
                                     startDate: Option<Date>, endDate: Option<Date>)

  /** `Activity`. */
  datatype ActivityItem = ActivityItem(activityType: Option<ActivityType>, title: Option<string>,
                                       detail: Option<string>, activityDate: Option<Date>)

  /** `Certificate`. */
  datatype CertificateItem = CertificateItem(certName: Option<string>, score: Option<string>,
                                             certificateDate: Option<Date>)

  /** `Education`. */
  datatype EducationItem = EducationItem(
    schoolName: Option<string>, major: Option<string>, admissionYear: Option<Date>,
    graduationYear: Option<Date>, status: Option<string>, score: Option<real>)

  /** `Hope`. */
  datatype HopeItem = HopeItem(company: Option<string>, job: Option<string>, region: Option<string>)

  /** `PersonalInfo`. */
  datatype PersonalInfo = PersonalInfo(
    name: Option<string>, phone: Option<string>, email: Option<string>, birthDate: Option<Date>,
    gender: Option<string>, profileAddr: Option<string>)

  /** Why a spec item was refused. */
  datatype ItemError = BadDate | UnknownActivityType

  /** `Project` with its two dates validated. */
  function MakeProject(projectName: Option<string>, description: Option<string>, startDate: DateInput,
                       endDate: DateInput): (r: Result<ProjectItem, ItemError>)
    ensures r.Ok? <==> ParseDate(startDate).Ok? && ParseDate(endDate).Ok?
    ensures r.Ok? ==> r.value.projectName == projectName && r.value.description == description
                      && Ok(r.value.startDate) == ParseDate(startDate) && Ok(r.value.endDate) == ParseDate(endDate)
    ensures r.Err? ==> r.error == BadDate
  {
    var s := ParseDate(startDate);
    var e := ParseDate(endDate);
    if s.Err? || e.Err? then Err(BadDate) else Ok(ProjectItem(projectName, description, s.value, e.value))
  }

  /** `Activity`: the type must be one of the three values when given, and
      the date must pass `parse_date`. */
  function MakeActivity(activityType: Option<string>, title: Option<string>, detail: Option<string>,
                        activityDate: DateInput): (r: Result<ActivityItem, ItemError>)
    ensures r.Ok? <==> (activityType.None? || ParseActivityType(activityType.value).Some?)
                       && ParseDate(activityDate).Ok?
    ensures r.Ok? ==> r.value.title == title && r.value.detail == detail
                      && Ok(r.value.activityDate) == ParseDate(activityDate)
                      && (r.value.activityType.None? <==> activityType.None?)
                      && (activityType.Some? ==> ActivityTypeName(r.value.activityType.value) == activityType.value)
    ensures r.Err? ==> (r.error == UnknownActivityType <==>
                          activityType.Some? && ParseActivityType(activityType.value).None?)
  {
    var t := if activityType.Some? then ParseActivityType(activityType.value) else None;
    var d := ParseDate(activityDate);
    if activityType.Some? && t.None? then Err(UnknownActivityType)
    else if d.Err? then Err(BadDate)
    else Ok(ActivityItem(t, title, detail, d.value))
  }

  /** `Certificate` with its date validated. */
  function MakeCertificate(certName: Option<string>, score: Option<string>, certificateDate: DateInput)
    : (r: Result<CertificateItem, ItemError>)
    ensures r.Ok? <==> ParseDate(certificateDate).Ok?
    ensures r.Ok? ==> r.value.certName == certName && r.value.score == score
                      && Ok(r.value.certificateDate) == ParseDate(certificateDate)
    ensures r.Err? ==> r.error == BadDate
  {
    var d := ParseDate(certificateDate);
    if d.Err? then Err(BadDate) else Ok(CertificateItem(certName, score, d.value))
  }

  /** `Education` with its two dates validated. */
  function MakeEducation(schoolName: Option<string>, major: Option<string>, admissionYear: DateInput,
                         graduationYear: DateInput, status: Option<string>, score: Option<real>)
    : (r: Result<EducationItem, ItemError>)
    ensures r.Ok? <==> ParseDate(admissionYear).Ok? && ParseDate(graduationYear).Ok?
    ensures r.Ok? ==> r.value.schoolName == schoolName && r.value.major == major && r.value.status == status
                      && r.value.score == score && Ok(r.value.admissionYear) == ParseDate(admissionYear)
                      && Ok(r.value.graduationYear) == ParseDate(graduationYear)
    ensures r.Err? ==> r.error == BadDate
  {
    var a := ParseDate(admissionYear);
    var g := ParseDate(graduationYear);
    if a.Err? || g.Err? then Err(BadDate) else Ok(EducationItem(schoolName, major, a.value, g.value, status, score))
  }

  /** `PersonalInfo` with its birth date validated. */
  function MakePersonalInfo(name: Option<string>, phone: Option<string>, email: Option<string>,
                            birthDate: DateInput, gender: Option<string>, profileAddr: Option<string>)
    : (r: Result<PersonalInfo, ItemError>)
    ensures r.Ok? <==> ParseDate(birthDate).Ok?
    ensures r.Ok? ==> r.value.name == name && r.value.phone == phone && r.value.email == email
                      && r.value.gender == gender && r.value.profileAddr == profileAddr
                      && Ok(r.value.birthDate) == ParseDate(birthDate)
    ensures r.Err? ==> r.error == BadDate
  {
    var b := ParseDate(birthDate);
    if b.Err? then Err(BadDate) else Ok(PersonalInfo(name, phone, email, b.value, gender, profileAddr))
  }

  /** A body field as sent: left out, an explicit `null`, or a value. */
  datatype Sent<T> = Absent | Null | Value(value: T)

  /** `SpecCreateUpdate`: `None` is a field that is null after defaults. */
  datatype SpecBody = SpecBody(
    skills: Option<seq<SkillItem>>, projects: Option<seq<ProjectItem>>,
    activities: Option<seq<ActivityItem>>, certificates: Option<seq<CertificateItem>>,
    education: Option<EducationItem>, hope: Option<HopeItem>)

  /** A list field of `SpecCreateUpdate`: `[]` when left out. */
  function ListDefault<T>(f: Sent<seq<T>>): (r: Option<seq<T>>)
    ensures f.Absent? ==> r == Some([])
    ensures f.Null? ==> r.None?
    ensures f.Value? ==> r == Some(f.value)
  {
    match f
    case Absent => Some([])
    case Null => None
    case Value(v) => Some(v)
  }

  /** An object field of `SpecCreateUpdate`: `None` when left out or null. */
  function ObjectDefault<T>(f: Sent<T>): (r: Option<T>)
    ensures r.None? <==> !f.Value?
    ensures f.Value? ==> r == Some(f.value)
  {
    match f
    case Value(v) => Some(v)
    case _ => None
  }

  function MakeSpecBody(skills: Sent<seq<SkillItem>>, projects: Sent<seq<ProjectItem>>,
                        activities: Sent<seq<ActivityItem>>, certificates: Sent<seq<CertificateItem>>,
                        education: Sent<EducationItem>, hope: Sent<HopeItem>): (r: SpecBody)
    ensures r.skills == ListDefault(skills) && r.projects == ListDefault(projects)
    ensures r.activities == ListDefault(activities) && r.certificates == ListDefault(certificates)
    ensures r.education == ObjectDefault(education) && r.hope == ObjectDefault(hope)
  {
    SpecBody(ListDefault(skills), ListDefault(projects), ListDefault(activities), ListDefault(certificates),
             ObjectDefault(education), ObjectDefault(hope))
  }

  /** `xs or []`. */
  function OrEmpty<T>(xs: Option<seq<T>>): (r: seq<T>)
    ensures xs.None? ==> r == []
    ensures xs.Some? ==> r == xs.value
  {
    if xs.Some? then xs.value else []
  }

  /** A list left out and a list sent as null are both saved as no rows. */
  lemma AbsentAndNullListsAlike<T>(f: Sent<seq<T>>)
    requires !f.Value?
    ensures OrEmpty(ListDefault(f)) == []
  {
  }
}
