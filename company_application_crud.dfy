/** The `company_applications` table and its crud helpers: create with the
    default status, owner-scoped update and delete, and the owner's listings. */
module CompanyApplicationCrud {

  import opened Common
  import opened Models

  /** One explicitly set field of `CompanyApplicationUpdate`. */
  datatype ApplicationField =
    | SetCompanyName(companyName: string)
    | SetPosition(position: string)
    | SetApplicationDate(applicationDate: DateTime)
    | SetStatus(status: ApplicationStatus)

  /** `setattr(row, field, value)`. */
  function ApplyField(a: CompanyApplication, f: ApplicationField): CompanyApplication {
    match f
    case SetCompanyName(v) => a.(companyName := v)
    case SetPosition(v) => a.(position := v)
    case SetApplicationDate(v) => a.(applicationDate := v)
    case SetStatus(v) => a.(status := v)
  }

  /** The `setattr` loop over `update_data.items()`, in order. */
  function ApplyFields(a: CompanyApplication, fs: seq<ApplicationField>): (r: CompanyApplication)
    ensures r.id == a.id && r.userId == a.userId && r.createdAt == a.createdAt && r.updatedAt == a.updatedAt
    ensures (forall k :: 0 <= k < |fs| ==> !fs[k].SetCompanyName?) ==> r.companyName == a.companyName
    ensures (forall k :: 0 <= k < |fs| ==> !fs[k].SetPosition?) ==> r.position == a.position
    ensures (forall k :: 0 <= k < |fs| ==> !fs[k].SetApplicationDate?) ==> r.applicationDate == a.applicationDate
    ensures (forall k :: 0 <= k < |fs| ==> !fs[k].SetStatus?) ==> r.status == a.status
    ensures |fs| > 0 && fs[|fs| - 1].SetStatus? ==> r.status == fs[|fs| - 1].status
    ensures |fs| > 0 && fs[|fs| - 1].SetCompanyName? ==> r.companyName == fs[|fs| - 1].companyName
  {
    if fs == [] then a else ApplyField(ApplyFields(a, fs[..|fs| - 1]), fs[|fs| - 1])
  }

  function CompanyNameWrite(f: ApplicationField): Option<string> {
    if f.SetCompanyName? then Some(f.companyName) else None
  }

  function PositionWrite(f: ApplicationField): Option<string> {
    if f.SetPosition? then Some(f.position) else None
  }

  function ApplicationDateWrite(f: ApplicationField): Option<DateTime> {
    if f.SetApplicationDate? then Some(f.applicationDate) else None
  }

  function StatusWrite(f: ApplicationField): Option<ApplicationStatus> {
    if f.SetStatus? then Some(f.status) else None
  }

  /** Field by field, the updated row holds the last value written to that
      field, or the old value when nothing was written to it. */
  lemma {:induction false} ApplyFieldsWritesLast(a: CompanyApplication, fs: seq<ApplicationField>)
    ensures ApplyFields(a, fs) == a.(companyName := LastWrite(fs, CompanyNameWrite, a.companyName),
                                     position := LastWrite(fs, PositionWrite, a.position),
                                     applicationDate := LastWrite(fs, ApplicationDateWrite, a.applicationDate),
                                     status := LastWrite(fs, StatusWrite, a.status))
  {
    if fs != [] {
      ApplyFieldsWritesLast(a, fs[..|fs| - 1]);
    }
  }

  /** The stored row after an update: `updated_at` moves to `now` only when
      some column actually changed, since only then is an UPDATE issued. */
  function Patched(a: CompanyApplication, fs: seq<ApplicationField>, now: DateTime): (r: CompanyApplication)
    ensures r.id == a.id && r.userId == a.userId && r.createdAt == a.createdAt
    ensures fs == [] ==> r == a
  {
    var b := ApplyFields(a, fs);
    if b == a then a else b.(updatedAt := now)
  }

  /** The row filter `id == application_id AND user_id == user_id`. */
  function Owned(id: int, userId: string): CompanyApplication -> bool {
    (a: CompanyApplication) => a.id == id && a.userId == userId
  }

  /** The table after `update_company_application`. */
  function Updated(rows: seq<CompanyApplication>, id: int, userId: string,
                   fs: seq<ApplicationField>, now: DateTime): (r: seq<CompanyApplication>)
    ensures |r| == |rows|
    ensures forall k :: 0 <= k < |rows| && !(rows[k].id == id && rows[k].userId == userId) ==> r[k] == rows[k]
    ensures FindFirst(rows, Owned(id, userId)).None? ==> r == rows
    ensures forall k :: 0 <= k < |rows| ==> r[k].id == rows[k].id && r[k].userId == rows[k].userId
    ensures forall k :: 0 <= k < |rows| && rows[k].id == id && rows[k].userId == userId
                        && (forall j :: 0 <= j < k ==> !(rows[j].id == id && rows[j].userId == userId))
                        ==> r[k] == Patched(rows[k], fs, now)
  {
    match FindFirst(rows, Owned(id, userId))
    case None => rows
    case Some(i) => rows[i := Patched(rows[i], fs, now)]
  }

  /** Ids are distinct and below the next id the table will hand out. */
  ghost predicate IdsBelow(rows: seq<CompanyApplication>, nextId: int) {
    (forall k :: 0 <= k < |rows| ==> 1 <= rows[k].id < nextId)
    && forall i, j :: 0 <= i < j < |rows| ==> rows[i].id != rows[j].id
  }

  function CreatedKey(a: CompanyApplication): int { InstantKey(a.createdAt) }

  /** The row filter `user_id == user_id`. */
  function OwnedBy(userId: string): CompanyApplication -> bool {
    (a: CompanyApplication) => a.userId == userId
  }

  /** The row filter `user_id == user_id AND status == status`. */
  function WithStatus(userId: string, status: ApplicationStatus): CompanyApplication -> bool {
    (a: CompanyApplication) => a.userId == userId && a.status == status
  }

  /** `get_user_company_applications`: the user's rows, newest first, then OFFSET/LIMIT. */
  function UserApplications(rows: seq<CompanyApplication>, userId: string, skip: nat, limit: nat)
    : (r: seq<CompanyApplication>)
    ensures r == Window(NewestOrder(rows, OwnedBy(userId), CreatedKey), skip, limit)
    ensures |r| <= limit
    ensures forall x :: x in r ==> x in rows && x.userId == userId
    ensures forall i, j :: 0 <= i < j < |r| ==> InstantKey(r[i].createdAt) >= InstantKey(r[j].createdAt)
    ensures |r| == Min(limit, if skip <= UserApplicationCount(rows, userId) then UserApplicationCount(rows, userId) - skip else 0)
  {
    NewestFirst(rows, OwnedBy(userId), CreatedKey, skip, limit)
  }

  /** `get_user_company_applications_count`. */
  function UserApplicationCount(rows: seq<CompanyApplication>, userId: string): (n: nat)
    ensures n == |Filter(rows, OwnedBy(userId))| && n <= |rows|
    ensures n == |NewestOrder(rows, OwnedBy(userId), CreatedKey)|
  {
    |Filter(rows, OwnedBy(userId))|
  }

  /** `get_applications_by_status`: as above, narrowed to one status. */
  function ApplicationsByStatus(rows: seq<CompanyApplication>, userId: string, status: ApplicationStatus,
                                skip: nat, limit: nat)
    : (r: seq<CompanyApplication>)
    ensures r == Window(NewestOrder(rows, WithStatus(userId, status), CreatedKey), skip, limit)
    ensures |r| <= limit
    ensures forall x :: x in r ==> x in rows && x.userId == userId && x.status == status
    ensures forall i, j :: 0 <= i < j < |r| ==> InstantKey(r[i].createdAt) >= InstantKey(r[j].createdAt)
    ensures var n := |Filter(rows, WithStatus(userId, status))|;
            |r| == Min(limit, if skip <= n then n - skip else 0)
    ensures skip == 0 && limit >= |rows| ==> multiset(r) == multiset(Filter(rows, WithStatus(userId, status)))
  {
    NewestFirst(rows, WithStatus(userId, status), CreatedKey, skip, limit)
  }

  /** The `company_applications` table. */
  class ApplicationTable {
    var rows: seq<CompanyApplication>
    var nextId: int

    ghost predicate Valid()
      reads this
    {
      nextId >= 1 && IdsBelow(rows, nextId)
    }

    constructor ()
      ensures Valid() && rows == [] && nextId == 1
    {
      rows := [];
      nextId := 1;
    }

    /** `create_company_application`: the status is always "preparing_documents". */
    method Create(companyName: string, position: string, applicationDate: DateTime, userId: string, now: DateTime)
      returns (a: CompanyApplication)
      requires Valid()
      modifies this
      ensures Valid()
      ensures a == CompanyApplication(old(nextId), userId, companyName, position, applicationDate,
                                      PreparingDocuments, now, now)
      ensures rows == old(rows) + [a] && nextId == old(nextId) + 1
    {
      a := CompanyApplication(nextId, userId, companyName, position, applicationDate, PreparingDocuments, now, now);
      rows := rows + [a];
      nextId := nextId + 1;
    }

    /** `get_company_application`. */
    function Get(id: int): (r: Option<CompanyApplication>)
      reads this
      ensures r.Some? <==> exists k :: 0 <= k < |rows| && rows[k].id == id
      ensures r.Some? ==> r.value in rows && r.value.id == id
    {
      match FindFirst(rows, (a: CompanyApplication) => a.id == id)
      case None => None
      case Some(i) => Some(rows[i])
    }

    /** `update_company_application`: `None` unless the id and the owner both
        match; otherwise the explicitly set fields are written in order. */
    method Update(id: int, userId: string, fs: seq<ApplicationField>, now: DateTime)
      returns (r: Option<CompanyApplication>)
      requires Valid()
      modifies this
      ensures Valid() && nextId == old(nextId)
      ensures rows == Updated(old(rows), id, userId, fs, now)
      ensures r.Some? <==> exists k :: 0 <= k < |old(rows)| && old(rows)[k].id == id && old(rows)[k].userId == userId
      ensures r.Some? ==> r.value in rows && r.value.id == id && r.value.userId == userId
      ensures r.Some? ==> r.value == Patched(old(rows)[FindFirst(old(rows), Owned(id, userId)).value], fs, now)
    {
      var found := FindFirst(rows, Owned(id, userId));
      if found.None? {
        return None;
      }
      var i := found.value;
      var row := rows[i];
      for k := 0 to |fs|
        invariant row == ApplyFields(rows[i], fs[..k])
      {
        assert fs[..k + 1][..k] == fs[..k];
        row := ApplyField(row, fs[k]);
      }
      assert fs[..|fs|] == fs;
      if row != rows[i] {
        row := row.(updatedAt := now);
      }
      rows := rows[i := row];
      r := Some(row);
    }

    /** `delete_company_application`: true exactly when an owned row with that
        id existed; that row is then gone and every other row stays. */
    method Delete(id: int, userId: string) returns (ok: bool)
      requires Valid()
      modifies this
      ensures Valid() && nextId == old(nextId)
      ensures rows == DeleteFirst(old(rows), Owned(id, userId))
      ensures ok <==> exists k :: 0 <= k < |old(rows)| && old(rows)[k].id == id && old(rows)[k].userId == userId
      ensures forall x :: x in rows ==> !(x.id == id && x.userId == userId)
    {
      var found := FindFirst(rows, Owned(id, userId));
      assert AtMostOne(rows, Owned(id, userId));
      DeleteFirstLeavesNone(rows, Owned(id, userId));
      ghost var before := rows;
      rows := DeleteFirst(rows, Owned(id, userId));
      ok := found.Some?;
      assert forall k :: 0 <= k < |rows| ==> rows[k] in before;
    }
  }
}
