/** The company side of the service: the profile cards company staff browse
    and the likes a company leaves on personal users. */
module CompanyCrud {

  import opened Common
  import opened Models
  import opened Text

  /** The tables these operations read without changing them. */
  datatype Directory = Directory(
    users: seq<User>, personalUsers: seq<PersonalUser>, companyUsers: seq<CompanyUser>,
    companies: seq<Company>, educations: seq<Education>, hopes: seq<Hope>,
    activities: seq<Activity>, skills: seq<Skill>)

  const NotEmployee := "유효한 회사 직원이 아닙니다."
  const CompanyMissing := "회사 정보를 찾을 수 없습니다."
  const TargetMissing := "대상 사용자를 찾을 수 없습니다."
  const AlreadyLiked := "이미 찜한 사용자입니다."
  const UnknownName := "알 수 없음"

  // ---------------------------------------------------------------- age

  /** The (month, day) of `a` comes strictly before that of `b`. */
  predicate EarlierInYear(a: Date, b: Date) {
    a.month < b.month || (a.month == b.month && a.day < b.day)
  }

  /** `a` is on or before `b`, comparing year, then month, then day. */
  predicate OnOrBefore(a: Date, b: Date) {
    a.year < b.year || (a.year == b.year && !EarlierInYear(b, a))
  }

  /** The birthday `n` years after `birth`. */
  function Anniversary(birth: Date, n: int): Date {
    Date(birth.year + n, birth.month, birth.day)
  }

  /** The age on `today` in completed years: the `n`-th birthday has passed
      and the next one has not. `None` without a birth date. */
  function Age(birth: Option<Date>, today: Date): (r: Option<int>)
    ensures r.None? <==> birth.None?
    ensures r.Some? ==> OnOrBefore(Anniversary(birth.value, r.value), today)
                        && !OnOrBefore(Anniversary(birth.value, r.value + 1), today)
  {
    match birth
    case None => None
    case Some(b) =>
      var age := today.year - b.year;
      Some(if EarlierInYear(today, b) then age - 1 else age)
  }

  /** Only one number of completed years fits a birth date and a day. */
  lemma AgeIsUnique(birth: Date, today: Date, n: int)
    requires OnOrBefore(Anniversary(birth, n), today) && !OnOrBefore(Anniversary(birth, n + 1), today)
    ensures Age(Some(birth), today) == Some(n)
  {
  }

  // ------------------------------------------------------- career label

  /** The user's activities of type intern. */
  function InternActivities(activities: seq<Activity>, userId: string): (r: seq<Activity>)
    ensures forall a :: a in r <==> a in activities && a.userId == userId && a.activityType == Some(Intern)
  {
    Filter(activities, (a: Activity) => a.userId == userId && a.activityType == Some(Intern))
  }

  const NoCareer := "경력 없음"
  const OneInternship := "인턴 1회"
  const TwoInternships := "인턴 2회"
  const ManyInternships := "인턴 3회 이상"
  const SomeCareer := "경력 있음"

  /** The career label of a list of internships. The fallback label
      "경력 있음" is never produced: every length takes one of the first four
      branches. */
  function CareerPeriod(interns: seq<Activity>): (r: string)
    ensures r == NoCareer <==> |interns| == 0
    ensures r != SomeCareer
    ensures r == NoCareer || r == OneInternship || r == TwoInternships || r == ManyInternships
  {
    if |interns| == 0 then NoCareer
    else if |interns| == 1 then OneInternship
    else if |interns| == 2 then TwoInternships
    else if |interns| >= 3 then ManyInternships
    else SomeCareer
  }

  /** Two label lists agree exactly when their lengths agree once capped at 3. */
  lemma CareerPeriodCounts(a: seq<Activity>, b: seq<Activity>)
    ensures CareerPeriod(a) == CareerPeriod(b) <==> Min(|a|, 3) == Min(|b|, 3)
  {
    assert OneInternship[3] != TwoInternships[3];
    assert |ManyInternships| != |OneInternship| && |ManyInternships| != |TwoInternships|;
  }

  // ------------------------------------------------------------- skills

  /** The name a skill row contributes to the list: none when null or empty. */
  function NameIfSet(s: Skill): seq<string> {
    if s.skillName.Some? && s.skillName.value != "" then [s.skillName.value] else []
  }

  /** `[s.skill_name for s in rows if s.skill_name]`. */
  function NamesOf(rows: seq<Skill>): (r: seq<string>)
    ensures |r| <= |rows|
    ensures forall x :: x in r <==> x != "" && exists k :: 0 <= k < |rows| && rows[k].skillName == Some(x)
  {
    if rows == [] then []
    else
      var rest := NamesOf(rows[1..]);
      assert forall k :: 1 <= k < |rows| ==> rows[k] == rows[1..][k - 1];
      match rows[0].skillName
      case Some(n) => if n != "" then [n] + rest else rest
      case None => rest
  }

  /** The first row's name, if set, leads the list. */
  lemma NamesOfFront(rows: seq<Skill>)
    requires rows != []
    ensures NamesOf(rows) == NameIfSet(rows[0]) + NamesOf(rows[1..])
  {
  }

  /** Of at most two rows, the list is each row's name in turn. */
  lemma NamesOfAtMostTwo(rows: seq<Skill>)
    requires |rows| <= 2
    ensures NamesOf(rows) == (if |rows| >= 1 then NameIfSet(rows[0]) else [])
                             + (if |rows| >= 2 then NameIfSet(rows[1]) else [])
  {
    if |rows| >= 1 {
      NamesOfFront(rows);
      if |rows| == 2 {
        NamesOfFront(rows[1..]);
        assert rows[1..][1..] == [];
      }
    }
  }

  /** The user's skill rows in table order. */
  function UserSkillRows(skills: seq<Skill>, userId: string): (r: seq<Skill>)
    ensures forall x :: x in r <==> x in skills && x.userId == userId
  {
    Filter(skills, (s: Skill) => s.userId == userId)
  }

  /** The names of the user's first two skill rows, empty names dropped. */
  function SkillNames(skills: seq<Skill>, userId: string): (r: seq<string>)
    ensures |r| <= 2
    ensures forall x :: x in r ==> x != "" && Skill(userId, Some(x)) in skills
    ensures var mine := UserSkillRows(skills, userId);
            forall k :: 0 <= k < |mine| && k < 2 && mine[k].skillName.Some? && mine[k].skillName.value != "" ==>
              mine[k].skillName.value in r
  {
    var mine := UserSkillRows(skills, userId);
    var first := Window(mine, 0, 2);
    forall x | x in NamesOf(first) ensures Skill(userId, Some(x)) in skills {
      var k :| 0 <= k < |first| && first[k].skillName == Some(x);
      assert first[k] in mine;
    }
    NamesOf(first)
  }

  /** The skill list is the name of the user's first skill row, then that of
      the second, each only when set and not empty. */
  lemma SkillNamesFirstTwo(skills: seq<Skill>, userId: string)
    ensures var mine := UserSkillRows(skills, userId);
            SkillNames(skills, userId)
            == (if |mine| >= 1 then NameIfSet(mine[0]) else []) + (if |mine| >= 2 then NameIfSet(mine[1]) else [])
  {
    NamesOfAtMostTwo(Window(UserSkillRows(skills, userId), 0, 2));
  }

  // ------------------------------------------------------- profile card

  /** One entry of the random user list. */
  datatype PersonalUserCard = PersonalUserCard(
    userId: string, name: Option<string>, gender: Option<string>, age: Option<int>,
    major: Option<string>, job: Option<string>, careerPeriod: string, skills: seq<string>)

  /** `.first()` of the user's `users` row, read for its name. */
  function NameOf(users: seq<User>, userId: string): (r: Option<string>)
    ensures r.Some? ==> exists k :: 0 <= k < |users| && users[k].userId == userId && users[k].name == r
    ensures (forall k :: 0 <= k < |users| ==> users[k].userId != userId) ==> r.None?
    ensures forall k :: 0 <= k < |users| && users[k].userId == userId
                        && (forall j :: 0 <= j < k ==> users[j].userId != userId)
                        ==> r == users[k].name
  {
    match FindFirst(users, (u: User) => u.userId == userId)
    case Some(i) => users[i].name
    case None => None
  }

  /** The major of the user's first education row. */
  function MajorOf(educations: seq<Education>, userId: string): (r: Option<string>)
    ensures r.Some? ==> exists k :: 0 <= k < |educations| && educations[k].userId == userId
                                    && educations[k].major == r
    ensures (forall k :: 0 <= k < |educations| ==> educations[k].userId != userId) ==> r.None?
    ensures forall k :: 0 <= k < |educations| && educations[k].userId == userId
                        && (forall j :: 0 <= j < k ==> educations[j].userId != userId)
                        ==> r == educations[k].major
  {
    match FindFirst(educations, (e: Education) => e.userId == userId)
    case Some(i) => educations[i].major
    case None => None
  }

  /** The job of the user's first hope row. */
  function JobOf(hopes: seq<Hope>, userId: string): (r: Option<string>)
    ensures r.Some? ==> exists k :: 0 <= k < |hopes| && hopes[k].userId == userId && hopes[k].job == r
    ensures (forall k :: 0 <= k < |hopes| ==> hopes[k].userId != userId) ==> r.None?
    ensures forall k :: 0 <= k < |hopes| && hopes[k].userId == userId
                        && (forall j :: 0 <= j < k ==> hopes[j].userId != userId)
                        ==> r == hopes[k].job
  {
    match FindFirst(hopes, (h: Hope) => h.userId == userId)
    case Some(i) => hopes[i].job
    case None => None
  }

  /** `_get_user_complete_data`: the card of one personal user. */
  function UserDetails(d: Directory, p: PersonalUser, today: Date): PersonalUserCard {
    PersonalUserCard(p.userId, NameOf(d.users, p.userId), p.gender, Age(p.birthDate, today),
                     MajorOf(d.educations, p.userId), JobOf(d.hopes, p.userId),
                     CareerPeriod(InternActivities(d.activities, p.userId)), SkillNames(d.skills, p.userId))
  }

  /** The user id belongs to a `users` row of type personal. */
  predicate IsPersonalAccount(users: seq<User>, userId: string) {
    exists k :: 0 <= k < |users| && users[k].userId == userId && users[k].userType == Some(Personal)
  }

  /** The `personalusers` rows joined to a personal `users` row. */
  function PersonalCandidates(d: Directory): (r: seq<PersonalUser>)
    ensures forall p :: p in r <==> p in d.personalUsers && IsPersonalAccount(d.users, p.userId)
  {
    Filter(d.personalUsers, (p: PersonalUser) => IsPersonalAccount(d.users, p.userId))
  }

  /** The cards of `ps`, in order. */
  function Cards(d: Directory, ps: seq<PersonalUser>, today: Date): (r: seq<PersonalUserCard>)
    ensures |r| == |ps|
    ensures forall k :: 0 <= k < |ps| ==> r[k] == UserDetails(d, ps[k], today)
  {
    seq(|ps|, k requires 0 <= k < |ps| => UserDetails(d, ps[k], today))
  }

  /** What `ORDER BY rand() LIMIT limit` can return from `candidates`: at
      most `limit` distinct rows (by primary key) drawn from them, short of
      `limit` only when every candidate was drawn. */
  predicate IsDraw(candidates: seq<PersonalUser>, picked: seq<PersonalUser>, limit: int) {
    |picked| <= limit
    && (forall k :: 0 <= k < |picked| ==> picked[k] in candidates)
    && (forall i, j :: 0 <= i < j < |picked| ==> picked[i].userId != picked[j].userId)
    && (|picked| < limit ==> forall c :: c in candidates ==> c in picked)
  }

  /** A draw of distinct rows never holds more rows than there are to draw. */
  lemma {:induction false} DrawFitsCandidates(candidates: seq<PersonalUser>, picked: seq<PersonalUser>)
    requires forall k :: 0 <= k < |picked| ==> picked[k] in candidates
    requires forall i, j :: 0 <= i < j < |picked| ==> picked[i].userId != picked[j].userId
    ensures |picked| <= |candidates|
  {
    if picked != [] {
      var last := picked[|picked| - 1];
      var j :| 0 <= j < |candidates| && candidates[j] == last;
      var rest := RemoveAt(candidates, j);
      var front := picked[..|picked| - 1];
      forall k | 0 <= k < |front| ensures front[k] in rest {
        var i :| 0 <= i < |candidates| && candidates[i] == front[k];
        assert front[k].userId != last.userId;
        assert i != j;
        assert rest[if i < j then i else i - 1] == front[k];
      }
      DrawFitsCandidates(rest, front);
    }
  }

  /** `get_random_personal_users_with_details`: one card per personal user
      the database drew. The draw itself is `picked`. */
  method RandomPersonalUsersWithDetails(d: Directory, picked: seq<PersonalUser>, today: Date)
    returns (result: seq<PersonalUserCard>)
    ensures result == Cards(d, picked, today)
  {
    result := [];
    for i := 0 to |picked|
      invariant |result| == i
      invariant forall k :: 0 <= k < i ==> result[k] == UserDetails(d, picked[k], today)
    {
      result := result + [UserDetails(d, picked[i], today)];
    }
  }

  // -------------------------------------------------------- company id

  /** `get_company_id_by_user_id`: the company of the user's first
      `company_users` row; `None` when the user or the link is missing. */
  function CompanyIdOf(d: Directory, userId: string): (r: Option<int>)
    ensures r.Some? <==> (exists k :: 0 <= k < |d.users| && d.users[k].userId == userId)
                         && exists k :: 0 <= k < |d.companyUsers| && d.companyUsers[k].userId == userId
    ensures r.Some? ==> exists k :: 0 <= k < |d.companyUsers| && d.companyUsers[k].userId == userId
                                    && d.companyUsers[k].companyId == r.value
  {
    if FindFirst(d.users, (u: User) => u.userId == userId).None? then None
    else match FindFirst(d.companyUsers, (c: CompanyUser) => c.userId == userId)
      case None => None
      case Some(i) => Some(d.companyUsers[i].companyId)
  }

  /** The company id when it passes `if not company_id`: 0 counts as none. */
  function EmployerOf(d: Directory, userId: string): (r: Option<int>)
    ensures r.Some? <==> CompanyIdOf(d, userId).Some? && CompanyIdOf(d, userId).value != 0
    ensures r.Some? ==> r == CompanyIdOf(d, userId)
  {
    match CompanyIdOf(d, userId)
    case Some(c) => if c != 0 then Some(c) else None
    case None => None
  }

  // --------------------------------------------------------------- likes

  /** The company with this id exists. */
  predicate CompanyExists(d: Directory, companyId: int) {
    exists k :: 0 <= k < |d.companies| && d.companies[k].id == companyId
  }

  /** The target is a personal user: a `personalusers` row joined to a
      `users` row of type personal. */
  predicate TargetIsPersonal(d: Directory, userId: string) {
    (exists k :: 0 <= k < |d.personalUsers| && d.personalUsers[k].userId == userId)
    && IsPersonalAccount(d.users, userId)
  }

  /** The company already likes the user. */
  predicate Liked(rows: seq<CompanyLike>, companyId: int, userId: string) {
    exists k :: 0 <= k < |rows| && rows[k].companyId == companyId && rows[k].userId == userId
  }

  /** The `ValueError` `create_company_like` raises, if any: its four checks
      in order, the first failing one giving the message. */
  function LikeError(d: Directory, rows: seq<CompanyLike>, companyUserId: string, targetUserId: string)
    : (r: Option<string>)
    ensures r == Some(NotEmployee) <==> EmployerOf(d, companyUserId).None?
    ensures r == Some(CompanyMissing) <==>
              EmployerOf(d, companyUserId).Some? && !CompanyExists(d, EmployerOf(d, companyUserId).value)
    ensures r == Some(TargetMissing) <==>
              EmployerOf(d, companyUserId).Some? && CompanyExists(d, EmployerOf(d, companyUserId).value)
              && !TargetIsPersonal(d, targetUserId)
    ensures r == Some(AlreadyLiked) <==>
              EmployerOf(d, companyUserId).Some? && CompanyExists(d, EmployerOf(d, companyUserId).value)
              && TargetIsPersonal(d, targetUserId) && Liked(rows, EmployerOf(d, companyUserId).value, targetUserId)
    ensures r.None? || r == Some(NotEmployee) || r == Some(CompanyMissing) || r == Some(TargetMissing)
            || r == Some(AlreadyLiked)
  {
    match EmployerOf(d, companyUserId)
    case None => Some(NotEmployee)
    case Some(c) =>
      if FindFirst(d.companies, (x: Company) => x.id == c).None? then Some(CompanyMissing)
      else if !TargetIsPersonal(d, targetUserId) then Some(TargetMissing)
      else if FindFirst(rows, (l: CompanyLike) => l.companyId == c && l.userId == targetUserId).Some? then
        Some(AlreadyLiked)
      else None
  }

  /** `company.company_name` of the company the like is for. */
  function CompanyNameOf(d: Directory, companyId: int): (r: Option<string>)
    requires CompanyExists(d, companyId)
    ensures exists k :: 0 <= k < |d.companies| && d.companies[k].id == companyId && d.companies[k].companyName == r
  {
    var i := FindFirst(d.companies, (x: Company) => x.id == companyId);
    d.companies[i.value].companyName
  }

  /** No company likes the same user twice. */
  ghost predicate OneLikePerPair(rows: seq<CompanyLike>) {
    forall i, j :: 0 <= i < j < |rows| ==>
      !(rows[i].companyId == rows[j].companyId && rows[i].userId == rows[j].userId)
  }

  /** Rows with no creation time sort as if created at instant 0. */
  function LikeKey(l: CompanyLike): int {
    if l.createdAt.Some? then InstantKey(l.createdAt.value) else 0
  }

  function OfCompany(companyId: int): CompanyLike -> bool {
    (l: CompanyLike) => l.companyId == companyId
  }

  /** `get_company_likes_count`: 0 for a caller without a company. */
  function CompanyLikeCount(d: Directory, rows: seq<CompanyLike>, companyUserId: string): (n: nat)
    ensures EmployerOf(d, companyUserId).None? ==> n == 0
    ensures n <= |rows|
    ensures EmployerOf(d, companyUserId).Some? ==> n == |Filter(rows, OfCompany(EmployerOf(d, companyUserId).value))|
  {
    match EmployerOf(d, companyUserId)
    case None => 0
    case Some(c) => |Filter(rows, OfCompany(c))|
  }

  /** The rows `get_company_likes` reads: the caller's company's likes,
      newest first, then OFFSET/LIMIT; none for a caller without a company. */
  function CompanyLikeRows(d: Directory, rows: seq<CompanyLike>, companyUserId: string, limit: nat, offset: nat)
    : (r: seq<CompanyLike>)
    ensures EmployerOf(d, companyUserId).None? ==> r == []
    ensures EmployerOf(d, companyUserId).Some? ==>
              r == Window(NewestOrder(rows, OfCompany(EmployerOf(d, companyUserId).value), LikeKey), offset, limit)
    ensures forall x :: x in r ==> x in rows && EmployerOf(d, companyUserId) == Some(x.companyId)
    ensures forall i, j :: 0 <= i < j < |r| ==> LikeKey(r[i]) >= LikeKey(r[j])
    ensures var n := CompanyLikeCount(d, rows, companyUserId);
            |r| == Min(limit, if offset <= n then n - offset else 0)
  {
    match EmployerOf(d, companyUserId)
    case None => []
    case Some(c) => NewestFirst(rows, OfCompany(c), LikeKey, offset, limit)
  }

  /** The first page large enough holds every like of the company. */
  lemma FirstPageHoldsAll(d: Directory, rows: seq<CompanyLike>, companyUserId: string, limit: nat)
    requires limit >= |rows|
    ensures |CompanyLikeRows(d, rows, companyUserId, limit, 0)| == CompanyLikeCount(d, rows, companyUserId)
    ensures EmployerOf(d, companyUserId).Some? ==>
              multiset(CompanyLikeRows(d, rows, companyUserId, limit, 0))
              == multiset(Filter(rows, OfCompany(EmployerOf(d, companyUserId).value)))
  {
  }

  /** A page number within the page count shows at least one like. */
  lemma PageInRangeIsNotEmpty(d: Directory, rows: seq<CompanyLike>, companyUserId: string, limit: int, page: int)
    requires limit >= 1 && page >= 1
    requires CompanyLikeCount(d, rows, companyUserId) > 0
    requires page <= PageCount(CompanyLikeCount(d, rows, companyUserId), limit)
    ensures 1 <= |CompanyLikeRows(d, rows, companyUserId, limit, PageOffset(page, limit))| <= limit
  {
    var total := CompanyLikeCount(d, rows, companyUserId);
    var pages := PageCount(total, limit);
    MulMono(page - 1, 0, limit);
    MulMono(pages - 1, page - 1, limit);
    assert (page - 1) * limit < total;
  }

  /** Three fields joined by `sep`. */
  function Join3(a: string, b: string, c: string, sep: char): (r: string)
    ensures |r| == |a| + |b| + |c| + 2
    ensures r[|a|] == sep && r[|a| + 1 + |b|] == sep
    ensures r[..|a|] == a && r[|a| + 1..|a| + 1 + |b|] == b && r[|a| + 2 + |b|..] == c
  {
    a + [sep] + b + [sep] + c
  }

  /** Two fields joined by `sep`. */
  function Join2(a: string, b: string, sep: char): (r: string)
    ensures |r| == |a| + |b| + 1 && r[|a|] == sep
    ensures r[..|a|] == a && r[|a| + 1..] == b
  {
    a + [sep] + b
  }

  /** `strftime("%Y-%m-%d")`: the year in four digits, the month and the day
      in two, each reading back as its number. */
  function FormatDate(date: Date): (r: string)
    ensures 0 <= date.year < 10000 && 0 <= date.month < 100 && 0 <= date.day < 100 ==>
              |r| == 10 && r[4] == '-' && r[7] == '-'
              && AllDigits(r[..4]) && DigitsValue(r[..4]) == date.year
              && AllDigits(r[5..7]) && DigitsValue(r[5..7]) == date.month
              && AllDigits(r[8..]) && DigitsValue(r[8..]) == date.day
  {
    Pow10Values();
    var r := Join3(Padded(date.year, 4), Padded(date.month, 2), Padded(date.day, 2), '-');
    if 0 <= date.year && 0 <= date.month && 0 <= date.day then
      PaddedValue(date.year, 4); PaddedValue(date.month, 2); PaddedValue(date.day, 2); r
    else r
  }

  /** `strftime("%H:%M:%S")`: hours, minutes and seconds in two digits each. */
  function FormatTime(hour: int, minute: int, second: int): (r: string)
    ensures 0 <= hour < 100 && 0 <= minute < 100 && 0 <= second < 100 ==>
              |r| == 8 && r[2] == ':' && r[5] == ':'
              && AllDigits(r[..2]) && DigitsValue(r[..2]) == hour
              && AllDigits(r[3..5]) && DigitsValue(r[3..5]) == minute
              && AllDigits(r[6..]) && DigitsValue(r[6..]) == second
  {
    Pow10Values();
    var r := Join3(Padded(hour, 2), Padded(minute, 2), Padded(second, 2), ':');
    if 0 <= hour && 0 <= minute && 0 <= second then
      PaddedValue(hour, 2); PaddedValue(minute, 2); PaddedValue(second, 2); r
    else r
  }

  /** `strftime("%Y-%m-%d %H:%M:%S")`: the date, a space and the time. */
  function FormatDateTime(t: DateTime): (r: string)
    ensures 0 <= t.date.year < 10000 && 0 <= t.date.month < 100 && 0 <= t.date.day < 100
            && 0 <= t.hour < 100 && 0 <= t.minute < 100 && 0 <= t.second < 100 ==>
              |r| == 19 && r[..10] == FormatDate(t.date) && r[10] == ' '
              && r[11..] == FormatTime(t.hour, t.minute, t.second)
  {
    Join2(FormatDate(t.date), FormatTime(t.hour, t.minute, t.second), ' ')
  }

  /** One entry of the likes list. */
  datatype LikeView = LikeView(
    id: int, targetUserId: string, targetUserName: Option<string>, message: string,
    contactEmail: Option<string>, contactPhone: Option<string>, suggestedPosition: Option<string>,
    companyName: Option<string>, hrManagerName: Option<string>, createdAt: Option<string>)

  /** The target's name as listed: the name on the user's `users` row, or
      "알 수 없음" when there is no such row. */
  function TargetName(users: seq<User>, userId: string): (r: Option<string>)
    ensures (forall k :: 0 <= k < |users| ==> users[k].userId != userId) ==> r == Some(UnknownName)
    ensures (exists k :: 0 <= k < |users| && users[k].userId == userId) ==>
              exists k :: 0 <= k < |users| && users[k].userId == userId && users[k].name == r
  {
    match FindFirst(users, (u: User) => u.userId == userId)
    case Some(i) => users[i].name
    case None => Some(UnknownName)
  }

  /** A like as listed, with its creation time as text. */
  function LikeViewOf(users: seq<User>, l: CompanyLike): LikeView {
    LikeView(l.id, l.userId, TargetName(users, l.userId), l.message, l.contactEmail, l.contactPhone,
             l.suggestedPosition, l.companyName, l.hrManagerName,
             if l.createdAt.Some? then Some(FormatDateTime(l.createdAt.value)) else None)
  }

  /** The listed form of each like of `page`, in order. */
  function LikeViews(users: seq<User>, page: seq<CompanyLike>): (r: seq<LikeView>)
    ensures |r| == |page|
    ensures forall k :: 0 <= k < |page| ==> r[k] == LikeViewOf(users, page[k])
  {
    seq(|page|, k requires 0 <= k < |page| => LikeViewOf(users, page[k]))
  }

  /** The loop of `get_company_likes` that builds the listed form of each row
      of a page, in order. */
  method ViewsOf(users: seq<User>, page: seq<CompanyLike>) returns (result: seq<LikeView>)
    ensures result == LikeViews(users, page)
  {
    ghost var views := LikeViews(users, page);
    result := [];
    for i := 0 to |page|
      invariant result == views[..i]
    {
      PrefixStep(views, i);
      result := result + [LikeViewOf(users, page[i])];
    }
    assert views[..|page|] == views;
  }

  /** Ids are distinct and below the next id, and no pair repeats. */
  ghost predicate LikesValid(rows: seq<CompanyLike>, nextId: int) {
    nextId >= 1
    && (forall k :: 0 <= k < |rows| ==> 1 <= rows[k].id < nextId)
    && (forall i, j :: 0 <= i < j < |rows| ==> rows[i].id != rows[j].id)
    && OneLikePerPair(rows)
  }

  /** Adding a like for a pair not yet liked, under the next id, keeps the
      table valid. */
  lemma AppendKeepsLikesValid(rows: seq<CompanyLike>, nextId: int, l: CompanyLike)
    requires LikesValid(rows, nextId) && l.id == nextId && !Liked(rows, l.companyId, l.userId)
    ensures LikesValid(rows + [l], nextId + 1)
  {
    var r := rows + [l];
    assert forall k :: 0 <= k < |rows| ==> r[k] == rows[k];
  }

  /** Deleting a row keeps the table valid and removes its id. */
  lemma RemoveKeepsLikesValid(rows: seq<CompanyLike>, nextId: int, i: nat)
    requires LikesValid(rows, nextId) && i < |rows|
    ensures LikesValid(RemoveAt(rows, i), nextId)
    ensures forall x :: x in RemoveAt(rows, i) ==> x.id != rows[i].id
  {
    var r := RemoveAt(rows, i);
    forall a, b | 0 <= a < b < |r|
      ensures r[a].id != r[b].id
      ensures !(r[a].companyId == r[b].companyId && r[a].userId == r[b].userId)
    {
      var a' := if a < i then a else a + 1;
      var b' := if b < i then b else b + 1;
      assert r[a] == rows[a'] && r[b] == rows[b'] && a' < b';
    }
    forall x | x in r ensures x.id != rows[i].id {
      var k :| 0 <= k < |r| && r[k] == x;
      assert x == rows[if k < i then k else k + 1];
    }
  }

  /** `company_likes_personal`. Likes enter only through `Create`, which
      refuses a second like of the same user by the same company. */
  class LikeTable {
    var rows: seq<CompanyLike>
    var nextId: int

    ghost predicate Valid()
      reads this
    {
      LikesValid(rows, nextId)
    }

    constructor ()
      ensures Valid() && rows == [] && nextId == 1
    {
      rows := [];
      nextId := 1;
    }

    /** `create_company_like`: on the first failing check the error message
        and an unchanged table; otherwise a new like with the company's
        name and the current time. */
    method Create(d: Directory, companyUserId: string, targetUserId: string, message: string,
                  contactEmail: Option<string>, contactPhone: Option<string>,
                  suggestedPosition: Option<string>, hrManagerName: Option<string>, now: DateTime)
      returns (r: Result<CompanyLike, string>)
      requires Valid()
      modifies this
      ensures Valid()
      ensures r.Err? <==> LikeError(d, old(rows), companyUserId, targetUserId).Some?
      ensures r.Err? ==> r.error == LikeError(d, old(rows), companyUserId, targetUserId).value
                         && rows == old(rows) && nextId == old(nextId)
      ensures r.Ok? ==>
                var l := r.value;
                EmployerOf(d, companyUserId) == Some(l.companyId) && CompanyExists(d, l.companyId)
                && l.companyName == CompanyNameOf(d, l.companyId)
                && l == CompanyLike(old(nextId), l.companyId, targetUserId, message, contactEmail, contactPhone,
                                    suggestedPosition, l.companyName, hrManagerName, Some(now))
                && rows == old(rows) + [l] && nextId == old(nextId) + 1
    {
      var error := LikeError(d, rows, companyUserId, targetUserId);
      if error.Some? {
        return Err(error.value);
      }
      var c := EmployerOf(d, companyUserId).value;
      var l := CompanyLike(nextId, c, targetUserId, message, contactEmail, contactPhone, suggestedPosition,
                           CompanyNameOf(d, c), hrManagerName, Some(now));
      AppendKeepsLikesValid(rows, nextId, l);
      rows := rows + [l];
      nextId := nextId + 1;
      r := Ok(l);
    }

    /** `get_company_likes`: the listed form of each row of the page. */
    method CompanyLikes(d: Directory, companyUserId: string, limit: nat, offset: nat)
      returns (result: seq<LikeView>)
      ensures result == LikeViews(d.users, CompanyLikeRows(d, rows, companyUserId, limit, offset))
    {
      var page := CompanyLikeRows(d, rows, companyUserId, limit, offset);
      result := ViewsOf(d.users, page);
    }

    /** `delete_company_like`: removes the like with this id when it belongs
        to the caller's company; otherwise nothing changes. */
    method Delete(d: Directory, companyUserId: string, likeId: int) returns (ok: bool)
      requires Valid()
      modifies this
      ensures Valid() && nextId == old(nextId)
      ensures ok <==> EmployerOf(d, companyUserId).Some?
                      && exists k :: 0 <= k < |old(rows)| && old(rows)[k].id == likeId
                                     && old(rows)[k].companyId == EmployerOf(d, companyUserId).value
      ensures !ok ==> rows == old(rows)
      ensures ok ==> exists k :: 0 <= k < |old(rows)| && old(rows)[k].id == likeId && rows == RemoveAt(old(rows), k)
      ensures forall x :: x in rows ==> x.id != likeId || !ok
    {
      var employer := EmployerOf(d, companyUserId);
      if employer.None? {
        return false;
      }
      var c := employer.value;
      var found := FindFirst(rows, (l: CompanyLike) => l.id == likeId && l.companyId == c);
      if found.None? {
        return false;
      }
      var i := found.value;
      RemoveKeepsLikesValid(rows, nextId, i);
      rows := RemoveAt(rows, i);
      ok := true;
    }
  }
}
