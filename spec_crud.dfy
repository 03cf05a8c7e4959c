/** A personal user's spec: six tables keyed by `user_id`, saved by
    replacing everything the user had, and read back either with the user's
    personal information or, for anyone else, without it. */
module SpecCrud {

  import opened Common
  import opened Models
  import opened SpecSchema

  const SavedMessage := "스펙이 성공적으로 저장되었습니다."

  /** `skills`, `projects`, `activities`, `certificates`, `educations` and
      `hopes`, each in table order. */
  datatype SpecTables = SpecTables(
    skills: seq<Skill>, projects: seq<Project>, activities: seq<Activity>,
    certificates: seq<CertificateRow>, educations: seq<Education>, hopes: seq<Hope>)

  function OwnedBy<T>(owner: T -> string, userId: string): T -> bool {
    (x: T) => owner(x) == userId
  }

  function NotOwnedBy<T>(owner: T -> string, userId: string): T -> bool {
    (x: T) => owner(x) != userId
  }

  function SkillOwner(x: Skill): string { x.userId }
  function ProjectOwner(x: Project): string { x.userId }
  function ActivityOwner(x: Activity): string { x.userId }
  function CertificateOwner(x: CertificateRow): string { x.userId }
  function EducationOwner(x: Education): string { x.userId }
  function HopeOwner(x: Hope): string { x.userId }

  // The rows `create_or_update_all_spec` builds from the body's items.

  function SkillRow(userId: string, it: SkillItem): Skill {
    Skill(userId, it.skillName)
  }

  function ProjectRow(userId: string, it: ProjectItem): Project {
    Project(userId, it.projectName, it.description, it.startDate, it.endDate)
  }

  /** `type=activity.type.value if activity.type else None`. */
  function ActivityRow(userId: string, it: ActivityItem): Activity {
    Activity(userId, it.activityType, it.title, it.detail, it.activityDate)
  }

  function CertificateRowOf(userId: string, it: CertificateItem): CertificateRow {
    CertificateRow(userId, it.certName, it.score, it.certificateDate)
  }

  function EducationRow(userId: string, it: EducationItem): Education {
    Education(userId, it.schoolName, it.major, it.admissionYear, it.graduationYear, it.status, it.score)
  }

  function HopeRow(userId: string, it: HopeItem): Hope {
    Hope(userId, it.company, it.job, it.region)
  }

  function SkillRows(userId: string, items: seq<SkillItem>): (r: seq<Skill>)
    ensures forall x :: x in r ==> x.userId == userId
    ensures |r| == |items| && SkillItems(r) == items
  {
    seq(|items|, k requires 0 <= k < |items| => SkillRow(userId, items[k]))
  }

  function ProjectRows(userId: string, items: seq<ProjectItem>): (r: seq<Project>)
    ensures forall x :: x in r ==> x.userId == userId
    ensures |r| == |items| && ProjectItems(r) == items
  {
    seq(|items|, k requires 0 <= k < |items| => ProjectRow(userId, items[k]))
  }

  function ActivityRows(userId: string, items: seq<ActivityItem>): (r: seq<Activity>)
    ensures forall x :: x in r ==> x.userId == userId
    ensures |r| == |items| && ActivityItems(r) == items
  {
    seq(|items|, k requires 0 <= k < |items| => ActivityRow(userId, items[k]))
  }

  function CertificateRows(userId: string, items: seq<CertificateItem>): (r: seq<CertificateRow>)
    ensures forall x :: x in r ==> x.userId == userId
    ensures |r| == |items| && CertificateItems(r) == items
  {
    seq(|items|, k requires 0 <= k < |items| => CertificateRowOf(userId, items[k]))
  }

  // The schema objects `get_all_spec` and `get_public_spec` build from rows.

  function SkillItemOf(r: Skill): SkillItem {
    SkillItem(r.skillName)
  }

  function ProjectItemOf(r: Project): ProjectItem {
    ProjectItem(r.projectName, r.description, r.startDate, r.endDate)
  }

  function ActivityItemOf(r: Activity): ActivityItem {
    ActivityItem(r.activityType, r.title, r.detail, r.date)
  }

  function CertificateItemOf(r: CertificateRow): CertificateItem {
    CertificateItem(r.certName, r.score, r.date)
  }

  function EducationItemOf(r: Education): EducationItem {
    EducationItem(r.schoolName, r.major, r.admissionYear, r.graduationYear, r.status, r.score)
  }

  function HopeItemOf(r: Hope): HopeItem {
    HopeItem(r.company, r.job, r.region)
  }

  function SkillItems(rows: seq<Skill>): seq<SkillItem> {
    seq(|rows|, k requires 0 <= k < |rows| => SkillItemOf(rows[k]))
  }

  function ProjectItems(rows: seq<Project>): seq<ProjectItem> {
    seq(|rows|, k requires 0 <= k < |rows| => ProjectItemOf(rows[k]))
  }

  function ActivityItems(rows: seq<Activity>): seq<ActivityItem> {
    seq(|rows|, k requires 0 <= k < |rows| => ActivityItemOf(rows[k]))
  }

  function CertificateItems(rows: seq<CertificateRow>): seq<CertificateItem> {
    seq(|rows|, k requires 0 <= k < |rows| => CertificateItemOf(rows[k]))
  }

  /** `if user.educations: user.educations[0]`. */
  function FirstEducation(rows: seq<Education>): (r: Option<EducationItem>)
    ensures r.Some? <==> rows != []
  {
    if rows == [] then None else Some(EducationItemOf(rows[0]))
  }

  /** `if user.hopes: user.hopes[0]`. */
  function FirstHope(rows: seq<Hope>): (r: Option<HopeItem>)
    ensures r.Some? <==> rows != []
  {
    if rows == [] then None else Some(HopeItemOf(rows[0]))
  }

  /** The six tables after the deletes of `create_or_update_all_spec`. */
  function Cleared(t: SpecTables, userId: string): SpecTables {
    SpecTables(Filter(t.skills, NotOwnedBy(SkillOwner, userId)),
               Filter(t.projects, NotOwnedBy(ProjectOwner, userId)),
               Filter(t.activities, NotOwnedBy(ActivityOwner, userId)),
               Filter(t.certificates, NotOwnedBy(CertificateOwner, userId)),
               Filter(t.educations, NotOwnedBy(EducationOwner, userId)),
               Filter(t.hopes, NotOwnedBy(HopeOwner, userId)))
  }

  /** `if spec_data.education: db.add(Education(...))`. */
  function EducationRows(userId: string, o: Option<EducationItem>): (r: seq<Education>)
    ensures forall x :: x in r ==> x.userId == userId
  {
    if o.Some? then [EducationRow(userId, o.value)] else []
  }

  /** `if spec_data.hope: db.add(Hope(...))`. */
  function HopeRows(userId: string, o: Option<HopeItem>): (r: seq<Hope>)
    ensures forall x :: x in r ==> x.userId == userId
  {
    if o.Some? then [HopeRow(userId, o.value)] else []
  }

  /** The six tables after `create_or_update_all_spec` went through: the
      user's old rows gone, one new row per item appended, and an education
      or hope row only when the body has one. */
  function Saved(t: SpecTables, b: SpecBody, userId: string): (r: SpecTables)
    ensures |r.skills| == |Cleared(t, userId).skills| + |OrEmpty(b.skills)|
    ensures |r.educations| == |Cleared(t, userId).educations| + (if b.education.Some? then 1 else 0)
  {
    var c := Cleared(t, userId);
    SpecTables(c.skills + SkillRows(userId, OrEmpty(b.skills)),
               c.projects + ProjectRows(userId, OrEmpty(b.projects)),
               c.activities + ActivityRows(userId, OrEmpty(b.activities)),
               c.certificates + CertificateRows(userId, OrEmpty(b.certificates)),
               c.educations + EducationRows(userId, b.education),
               c.hopes + HopeRows(userId, b.hope))
  }

  predicate UserExists(users: seq<User>, userId: string) {
    exists x :: x in users && x.userId == userId
  }

  /** Whether the body asks for any row to be inserted. */
  predicate HasRows(b: SpecBody) {
    OrEmpty(b.skills) != [] || OrEmpty(b.projects) != [] || OrEmpty(b.activities) != []
    || OrEmpty(b.certificates) != [] || b.education.Some? || b.hope.Some?
  }

  /** The save failed: every new row names a user the `users.user_id`
      foreign key does not know. */
  datatype SaveError = ConstraintViolation

  /** `PersonalSpecAll`. */
  datatype PersonalSpec = PersonalSpec(
    personalInfo: Option<PersonalInfo>, skills: seq<SkillItem>, projects: seq<ProjectItem>,
    activities: seq<ActivityItem>, certificates: seq<CertificateItem>,
    education: Option<EducationItem>, hope: Option<HopeItem>)

  /** `PublicSpecAll`: there is no field for personal information. */
  datatype PublicSpec = PublicSpec(
    skills: seq<SkillItem>, projects: seq<ProjectItem>, activities: seq<ActivityItem>,
    certificates: seq<CertificateItem>, education: Option<EducationItem>, hope: Option<HopeItem>)

  /** What a user missing from `users` gets. */
  const NoPersonalSpec := PersonalSpec(None, [], [], [], [], None, None)
  const NoPublicSpec := PublicSpec([], [], [], [], None, None)

  /** `PersonalInfo` from the `users` row and, when there is one, the
      `personalusers` row (`uselist=False`: the first with that user id). */
  function PersonalInfoOf(user: User, personals: seq<PersonalUser>): (r: PersonalInfo)
    ensures r.name == user.name && r.phone == user.phone && r.email == user.email
    ensures (forall p :: p in personals ==> p.userId != user.userId) ==>
              r.birthDate.None? && r.gender.None? && r.profileAddr.None?
    ensures forall k :: 0 <= k < |personals| && personals[k].userId == user.userId
                        && (forall j :: 0 <= j < k ==> personals[j].userId != user.userId) ==>
              r.birthDate == personals[k].birthDate && r.gender == personals[k].gender
              && r.profileAddr == personals[k].profileAddr
  {
    match FindFirst(personals, (p: PersonalUser) => p.userId == user.userId)
    case None => PersonalInfo(user.name, user.phone, user.email, None, None, None)
    case Some(i) =>
      var p := personals[i];
      PersonalInfo(user.name, user.phone, user.email, p.birthDate, p.gender, p.profileAddr)
  }

  /** The user's rows of each table, as the relationships load them. */
  function OwnRows(t: SpecTables, userId: string): SpecTables {
    SpecTables(Filter(t.skills, OwnedBy(SkillOwner, userId)),
               Filter(t.projects, OwnedBy(ProjectOwner, userId)),
               Filter(t.activities, OwnedBy(ActivityOwner, userId)),
               Filter(t.certificates, OwnedBy(CertificateOwner, userId)),
               Filter(t.educations, OwnedBy(EducationOwner, userId)),
               Filter(t.hopes, OwnedBy(HopeOwner, userId)))
  }

  /** The spec without personal information, from the user's own rows. */
  function PublicOf(own: SpecTables): (r: PublicSpec)
    ensures |r.skills| == |own.skills| && |r.projects| == |own.projects|
    ensures |r.activities| == |own.activities| && |r.certificates| == |own.certificates|
    ensures r.education.Some? <==> own.educations != []
    ensures r.hope.Some? <==> own.hopes != []
  {
    PublicSpec(SkillItems(own.skills), ProjectItems(own.projects), ActivityItems(own.activities),
               CertificateItems(own.certificates), FirstEducation(own.educations), FirstHope(own.hopes))
  }

  /** `get_all_spec`: nothing for a missing user; otherwise the personal
      information and every row of the user, the first education and hope only. */
  function GetAllSpec(users: seq<User>, personals: seq<PersonalUser>, t: SpecTables, userId: string)
    : (r: PersonalSpec)
    ensures !UserExists(users, userId) ==> r == NoPersonalSpec
    ensures r.personalInfo.Some? <==> UserExists(users, userId)
    ensures r.personalInfo.Some? ==>
              exists x :: x in users && x.userId == userId && r.personalInfo.value == PersonalInfoOf(x, personals)
    ensures UserExists(users, userId) ==>
              var p := PublicOf(OwnRows(t, userId));
              r.skills == p.skills && r.projects == p.projects && r.activities == p.activities
              && r.certificates == p.certificates && r.education == p.education && r.hope == p.hope
  {
    match FindFirst(users, (x: User) => x.userId == userId)
    case None => NoPersonalSpec
    case Some(i) =>
      var p := PublicOf(OwnRows(t, userId));
      PersonalSpec(Some(PersonalInfoOf(users[i], personals)), p.skills, p.projects, p.activities,
                   p.certificates, p.education, p.hope)
  }

  /** `get_public_spec`: the same rows, never any personal information. */
  function GetPublicSpec(users: seq<User>, t: SpecTables, userId: string): (r: PublicSpec)
    ensures !UserExists(users, userId) ==> r == NoPublicSpec
    ensures UserExists(users, userId) ==> r == PublicOf(OwnRows(t, userId))
  {
    match FindFirst(users, (x: User) => x.userId == userId)
    case None => NoPublicSpec
    case Some(_) => PublicOf(OwnRows(t, userId))
  }

  /** The public spec is the owner's spec with the personal information taken off. */
  lemma PublicSpecIsAllSpecWithoutInfo(users: seq<User>, personals: seq<PersonalUser>, t: SpecTables,
                                       userId: string)
    ensures var a := GetAllSpec(users, personals, t, userId);
            GetPublicSpec(users, t, userId)
              == PublicSpec(a.skills, a.projects, a.activities, a.certificates, a.education, a.hope)
  {
  }

  /** Replacing one user's rows of a table, as seen through a WHERE on the owner. */
  lemma {:induction false} ReplacedRows<T(!new)>(rows: seq<T>, added: seq<T>, owner: T -> string,
                                                 userId: string, other: string)
    requires forall x :: x in added ==> owner(x) == userId
    ensures Filter(Filter(rows, NotOwnedBy(owner, userId)) + added, OwnedBy(owner, other))
              == if other == userId then added else Filter(rows, OwnedBy(owner, other))
  {
    var kept := Filter(rows, NotOwnedBy(owner, userId));
    FilterAppend(kept, added, OwnedBy(owner, other));
    if other == userId {
      FilterNoneKept(kept, OwnedBy(owner, other));
      FilterAllKept(added, OwnedBy(owner, other));
    } else {
      FilterOfFilter(rows, NotOwnedBy(owner, userId), OwnedBy(owner, other));
      FilterNoneKept(added, OwnedBy(owner, other));
    }
  }

  /** Replacing one user's rows twice is replacing them once. */
  lemma {:induction false} ReplaceTwice<T(!new)>(rows: seq<T>, added: seq<T>, owner: T -> string, userId: string)
    requires forall x :: x in added ==> owner(x) == userId
    ensures Filter(Filter(rows, NotOwnedBy(owner, userId)) + added, NotOwnedBy(owner, userId)) + added
              == Filter(rows, NotOwnedBy(owner, userId)) + added
  {
    var kept := Filter(rows, NotOwnedBy(owner, userId));
    var np := NotOwnedBy(owner, userId);
    FilterAppend(kept, added, np);
    assert forall x :: x in kept ==> np(x);
    FilterAllKept(kept, np);
    assert forall x :: x in added ==> !np(x);
    FilterNoneKept(added, np);
    assert Filter(kept + added, np) == kept;
  }

  /** What a save wrote: the user's own rows afterwards are exactly the body's. */
  lemma SavedOwnRows(t: SpecTables, b: SpecBody, userId: string)
    ensures OwnRows(Saved(t, b, userId), userId)
              == SpecTables(SkillRows(userId, OrEmpty(b.skills)), ProjectRows(userId, OrEmpty(b.projects)),
                            ActivityRows(userId, OrEmpty(b.activities)),
                            CertificateRows(userId, OrEmpty(b.certificates)),
                            EducationRows(userId, b.education),
                            HopeRows(userId, b.hope))
  {
    ReplacedRows(t.skills, SkillRows(userId, OrEmpty(b.skills)), SkillOwner, userId, userId);
    ReplacedRows(t.projects, ProjectRows(userId, OrEmpty(b.projects)), ProjectOwner, userId, userId);
    ReplacedRows(t.activities, ActivityRows(userId, OrEmpty(b.activities)), ActivityOwner, userId, userId);
    ReplacedRows(t.certificates, CertificateRows(userId, OrEmpty(b.certificates)), CertificateOwner, userId, userId);
    ReplacedRows(t.educations, EducationRows(userId, b.education),
                 EducationOwner, userId, userId);
    ReplacedRows(t.hopes, HopeRows(userId, b.hope), HopeOwner, userId, userId);
  }

  /** Reading a spec back after saving it gives what was saved: every list
      (a null one as empty), and the education and hope exactly as sent. */
  lemma SaveThenRead(users: seq<User>, personals: seq<PersonalUser>, t: SpecTables, b: SpecBody, userId: string)
    requires UserExists(users, userId)
    ensures var r := GetAllSpec(users, personals, Saved(t, b, userId), userId);
            r.skills == OrEmpty(b.skills) && r.projects == OrEmpty(b.projects)
            && r.activities == OrEmpty(b.activities) && r.certificates == OrEmpty(b.certificates)
            && r.education == b.education && r.hope == b.hope
  {
    SavedOwnRows(t, b, userId);
  }

  /** A save leaves every other user's rows as they were. */
  lemma SavedOthersRows(t: SpecTables, b: SpecBody, userId: string, other: string)
    requires other != userId
    ensures OwnRows(Saved(t, b, userId), other) == OwnRows(t, other)
  {
    ReplacedRows(t.skills, SkillRows(userId, OrEmpty(b.skills)), SkillOwner, userId, other);
    ReplacedRows(t.projects, ProjectRows(userId, OrEmpty(b.projects)), ProjectOwner, userId, other);
    ReplacedRows(t.activities, ActivityRows(userId, OrEmpty(b.activities)), ActivityOwner, userId, other);
    ReplacedRows(t.certificates, CertificateRows(userId, OrEmpty(b.certificates)), CertificateOwner, userId, other);
    ReplacedRows(t.educations, EducationRows(userId, b.education), EducationOwner, userId, other);
    ReplacedRows(t.hopes, HopeRows(userId, b.hope), HopeOwner, userId, other);
  }

  /** A save touches no other user's spec. */
  lemma SaveKeepsOthers(users: seq<User>, personals: seq<PersonalUser>, t: SpecTables, b: SpecBody,
                        userId: string, other: string)
    requires other != userId
    ensures GetAllSpec(users, personals, Saved(t, b, userId), other) == GetAllSpec(users, personals, t, other)
  {
    SavedOthersRows(t, b, userId, other);
  }

  /** Saving the same body twice leaves the tables as saving it once. */
  lemma SaveIdempotent(t: SpecTables, b: SpecBody, userId: string)
    ensures Saved(Saved(t, b, userId), b, userId) == Saved(t, b, userId)
  {
    ReplaceTwice(t.skills, SkillRows(userId, OrEmpty(b.skills)), SkillOwner, userId);
    ReplaceTwice(t.projects, ProjectRows(userId, OrEmpty(b.projects)), ProjectOwner, userId);
    ReplaceTwice(t.activities, ActivityRows(userId, OrEmpty(b.activities)), ActivityOwner, userId);
    ReplaceTwice(t.certificates, CertificateRows(userId, OrEmpty(b.certificates)), CertificateOwner, userId);
    ReplaceTwice(t.educations, EducationRows(userId, b.education),
                 EducationOwner, userId);
    ReplaceTwice(t.hopes, HopeRows(userId, b.hope), HopeOwner, userId);
  }

  /** The six spec tables. */
  class SpecStore {
    var skills: seq<Skill>
    var projects: seq<Project>
    var activities: seq<Activity>
    var certificates: seq<CertificateRow>
    var educations: seq<Education>
    var hopes: seq<Hope>

    function Tables(): SpecTables
      reads this
    {
      SpecTables(skills, projects, activities, certificates, educations, hopes)
    }

    constructor ()
      ensures Tables() == SpecTables([], [], [], [], [], [])
    {
      skills, projects, activities, certificates, educations, hopes := [], [], [], [], [], [];
    }

    /** `create_or_update_all_spec`: the six deletes are committed first;
        the inserts then fail together when the user is not in `users`,
        and otherwise append the body's rows. */
    method Save(users: seq<User>, b: SpecBody, userId: string) returns (r: Result<string, SaveError>)
      modifies this
      ensures r.Ok? <==> UserExists(users, userId) || !HasRows(b)
      ensures r.Ok? ==> r.value == SavedMessage && Tables() == Saved(old(Tables()), b, userId)
      ensures r.Err? ==> r.error == ConstraintViolation && Tables() == Cleared(old(Tables()), userId)
    {
      Clear(userId);
      ghost var c := Tables();
      if !UserExists(users, userId) && HasRows(b) {
        return Err(ConstraintViolation);
      }
      AddSkills(userId, OrEmpty(b.skills));
      AddProjects(userId, OrEmpty(b.projects));
      AddActivities(userId, OrEmpty(b.activities));
      AddCertificates(userId, OrEmpty(b.certificates));
      AddEducation(userId, b.education);
      AddHope(userId, b.hope);
      assert skills == c.skills + SkillRows(userId, OrEmpty(b.skills));
      assert projects == c.projects + ProjectRows(userId, OrEmpty(b.projects));
      assert activities == c.activities + ActivityRows(userId, OrEmpty(b.activities));
      assert certificates == c.certificates + CertificateRows(userId, OrEmpty(b.certificates));
      r := Ok(SavedMessage);
    }

    /** The six `DELETE ... WHERE user_id = ...`, committed. */
    method Clear(userId: string)
      modifies this
      ensures Tables() == Cleared(old(Tables()), userId)
    {
      skills := Filter(skills, NotOwnedBy(SkillOwner, userId));
      projects := Filter(projects, NotOwnedBy(ProjectOwner, userId));
      activities := Filter(activities, NotOwnedBy(ActivityOwner, userId));
      certificates := Filter(certificates, NotOwnedBy(CertificateOwner, userId));
      educations := Filter(educations, NotOwnedBy(EducationOwner, userId));
      hopes := Filter(hopes, NotOwnedBy(HopeOwner, userId));
    }

    /** `if spec_data.education: db.add(Education(...))`. */
    method AddEducation(userId: string, o: Option<EducationItem>)
      modifies this
      ensures educations == old(educations) + EducationRows(userId, o)
      ensures skills == old(skills) && projects == old(projects) && activities == old(activities)
      ensures certificates == old(certificates) && hopes == old(hopes)
    {
      if o.Some? {
        educations := educations + [EducationRow(userId, o.value)];
      }
    }

    /** `if spec_data.hope: db.add(Hope(...))`. */
    method AddHope(userId: string, o: Option<HopeItem>)
      modifies this
      ensures hopes == old(hopes) + HopeRows(userId, o)
      ensures skills == old(skills) && projects == old(projects) && activities == old(activities)
      ensures certificates == old(certificates) && educations == old(educations)
    {
      if o.Some? {
        hopes := hopes + [HopeRow(userId, o.value)];
      } else {
        assert hopes + [] == hopes;
      }
    }

    /** `for skill in spec_data.skills or []: db.add(Skill(...))`. */
    method AddSkills(userId: string, items: seq<SkillItem>)
      modifies this
      ensures skills == old(skills) + SkillRows(userId, items)
      ensures projects == old(projects) && activities == old(activities) && certificates == old(certificates)
      ensures educations == old(educations) && hopes == old(hopes)
    {
      for k := 0 to |items|
        invariant skills == old(skills) + SkillRows(userId, items[..k])
        invariant projects == old(projects) && activities == old(activities) && certificates == old(certificates)
        invariant educations == old(educations) && hopes == old(hopes)
      {
        assert SkillRows(userId, items[..k + 1]) == SkillRows(userId, items[..k]) + [SkillRow(userId, items[k])];
        skills := skills + [SkillRow(userId, items[k])];
      }
      assert items[..|items|] == items;
    }

    method AddProjects(userId: string, items: seq<ProjectItem>)
      modifies this
      ensures projects == old(projects) + ProjectRows(userId, items)
      ensures skills == old(skills) && activities == old(activities) && certificates == old(certificates)
      ensures educations == old(educations) && hopes == old(hopes)
    {
      for k := 0 to |items|
        invariant projects == old(projects) + ProjectRows(userId, items[..k])
        invariant skills == old(skills) && activities == old(activities) && certificates == old(certificates)
        invariant educations == old(educations) && hopes == old(hopes)
      {
        assert ProjectRows(userId, items[..k + 1])
               == ProjectRows(userId, items[..k]) + [ProjectRow(userId, items[k])];
        projects := projects + [ProjectRow(userId, items[k])];
      }
      assert items[..|items|] == items;
    }

    method AddActivities(userId: string, items: seq<ActivityItem>)
      modifies this
      ensures activities == old(activities) + ActivityRows(userId, items)
      ensures skills == old(skills) && projects == old(projects) && certificates == old(certificates)
      ensures educations == old(educations) && hopes == old(hopes)
    {
      for k := 0 to |items|
        invariant activities == old(activities) + ActivityRows(userId, items[..k])
        invariant skills == old(skills) && projects == old(projects) && certificates == old(certificates)
        invariant educations == old(educations) && hopes == old(hopes)
      {
        assert ActivityRows(userId, items[..k + 1])
               == ActivityRows(userId, items[..k]) + [ActivityRow(userId, items[k])];
        activities := activities + [ActivityRow(userId, items[k])];
      }
      assert items[..|items|] == items;
    }

    method AddCertificates(userId: string, items: seq<CertificateItem>)
      modifies this
      ensures certificates == old(certificates) + CertificateRows(userId, items)
      ensures skills == old(skills) && projects == old(projects) && activities == old(activities)
      ensures educations == old(educations) && hopes == old(hopes)
    {
      for k := 0 to |items|
        invariant certificates == old(certificates) + CertificateRows(userId, items[..k])
        invariant skills == old(skills) && projects == old(projects) && activities == old(activities)
        invariant educations == old(educations) && hopes == old(hopes)
      {
        assert CertificateRows(userId, items[..k + 1])
               == CertificateRows(userId, items[..k]) + [CertificateRowOf(userId, items[k])];
        certificates := certificates + [CertificateRowOf(userId, items[k])];
      }
      assert items[..|items|] == items;
    }
  }
}
