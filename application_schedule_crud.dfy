/** The `application_schedules` table: creation under an application,
    (schedule id, application id)-scoped update, delete and completion, and the
    ordered listings, including the user's monthly calendar. */
module ApplicationScheduleCrud {

  import opened Common
  import opened Models

  /** One explicitly set field of `ApplicationScheduleUpdate`. */
  datatype ScheduleField =
    | SetScheduleType(scheduleType: ScheduleType)
    | SetStartDate(startDate: DateTime)
    | SetEndDate(endDate: DateTime)
    | SetNotes(notes: Option<string>)
    | SetIsCompleted(isCompleted: bool)

  function ApplyField(s: ApplicationSchedule, f: ScheduleField): ApplicationSchedule {
    match f
    case SetScheduleType(v) => s.(scheduleType := v)
    case SetStartDate(v) => s.(startDate := v)
    case SetEndDate(v) => s.(endDate := v)
    case SetNotes(v) => s.(notes := v)
    case SetIsCompleted(v) => s.(isCompleted := v)
  }

  /** The `setattr` loop over the set fields, in order. */
  function ApplyFields(s: ApplicationSchedule, fs: seq<ScheduleField>): (r: ApplicationSchedule)
    ensures r.id == s.id && r.applicationId == s.applicationId && r.createdAt == s.createdAt
    ensures r.updatedAt == s.updatedAt
    ensures (forall k :: 0 <= k < |fs| ==> !fs[k].SetScheduleType?) ==> r.scheduleType == s.scheduleType
    ensures (forall k :: 0 <= k < |fs| ==> !fs[k].SetStartDate?) ==> r.startDate == s.startDate
    ensures (forall k :: 0 <= k < |fs| ==> !fs[k].SetEndDate?) ==> r.endDate == s.endDate
    ensures (forall k :: 0 <= k < |fs| ==> !fs[k].SetNotes?) ==> r.notes == s.notes
    ensures (forall k :: 0 <= k < |fs| ==> !fs[k].SetIsCompleted?) ==> r.isCompleted == s.isCompleted
    ensures |fs| > 0 && fs[|fs| - 1].SetIsCompleted? ==> r.isCompleted == fs[|fs| - 1].isCompleted
  {
    if fs == [] then s else ApplyField(ApplyFields(s, fs[..|fs| - 1]), fs[|fs| - 1])
  }

  function ScheduleTypeWrite(f: ScheduleField): Option<ScheduleType> {
    if f.SetScheduleType? then Some(f.scheduleType) else None
  }

  function StartDateWrite(f: ScheduleField): Option<DateTime> {
    if f.SetStartDate? then Some(f.startDate) else None
  }

  function EndDateWrite(f: ScheduleField): Option<DateTime> {
    if f.SetEndDate? then Some(f.endDate) else None
  }

  function NotesWrite(f: ScheduleField): Option<Option<string>> {
    if f.SetNotes? then Some(f.notes) else None
  }

  function IsCompletedWrite(f: ScheduleField): Option<bool> {
    if f.SetIsCompleted? then Some(f.isCompleted) else None
  }

  /** Field by field, the updated row holds the last value written to that
      field, or the old value when nothing was written to it. */
  lemma {:induction false} ApplyFieldsWritesLast(s: ApplicationSchedule, fs: seq<ScheduleField>)
    ensures ApplyFields(s, fs) == s.(scheduleType := LastWrite(fs, ScheduleTypeWrite, s.scheduleType),
                                     startDate := LastWrite(fs, StartDateWrite, s.startDate),
                                     endDate := LastWrite(fs, EndDateWrite, s.endDate),
                                     notes := LastWrite(fs, NotesWrite, s.notes),
                                     isCompleted := LastWrite(fs, IsCompletedWrite, s.isCompleted))
  {
    if fs != [] {
      var init, f := fs[..|fs| - 1], fs[|fs| - 1];
      ApplyFieldsWritesLast(s, init);
      assert ApplyFields(s, fs) == ApplyField(ApplyFields(s, init), f);
    }
  }

  /** The row as stored after `update_application_schedule`: `updated_at`
      moves only when some column changed. */
  function Patched(s: ApplicationSchedule, fs: seq<ScheduleField>, now: DateTime): (r: ApplicationSchedule)
    ensures r.id == s.id && r.applicationId == s.applicationId && r.createdAt == s.createdAt
    ensures fs == [] ==> r == s
  {
    var b := ApplyFields(s, fs);
    if b == s then s else b.(updatedAt := now)
  }

  /** The row as stored after `mark_schedule_completed`. */
  function Completed(s: ApplicationSchedule, isCompleted: bool, now: DateTime): (r: ApplicationSchedule)
    ensures r.isCompleted == isCompleted
    ensures r.id == s.id && r.applicationId == s.applicationId && r.startDate == s.startDate
    ensures s.isCompleted == isCompleted ==> r == s
    ensures s.isCompleted != isCompleted ==> r == s.(isCompleted := isCompleted, updatedAt := now)
  {
    if s.isCompleted == isCompleted then s else s.(isCompleted := isCompleted, updatedAt := now)
  }

  /** The filter `id == schedule_id AND application_id == application_id`. */
  function Scoped(id: int, applicationId: int): ApplicationSchedule -> bool {
    (s: ApplicationSchedule) => s.id == id && s.applicationId == applicationId
  }

  /** The table after `update_application_schedule`. */
  function Updated(rows: seq<ApplicationSchedule>, id: int, applicationId: int,
                   fs: seq<ScheduleField>, now: DateTime): (r: seq<ApplicationSchedule>)
    ensures |r| == |rows|
    ensures forall k :: 0 <= k < |rows| && !(rows[k].id == id && rows[k].applicationId == applicationId) ==>
              r[k] == rows[k]
    ensures FindFirst(rows, Scoped(id, applicationId)).None? ==> r == rows
    ensures forall k :: 0 <= k < |rows| ==> r[k].id == rows[k].id && r[k].applicationId == rows[k].applicationId
    ensures forall k :: 0 <= k < |rows| && rows[k].id == id && rows[k].applicationId == applicationId
                        && (forall j :: 0 <= j < k ==> !(rows[j].id == id && rows[j].applicationId == applicationId))
                        ==> r[k] == Patched(rows[k], fs, now)
  {
    match FindFirst(rows, Scoped(id, applicationId))
    case None => rows
    case Some(i) => rows[i := Patched(rows[i], fs, now)]
  }

  /** The table after `mark_schedule_completed`. */
  function CompletedRows(rows: seq<ApplicationSchedule>, id: int, applicationId: int,
                         isCompleted: bool, now: DateTime): (r: seq<ApplicationSchedule>)
    ensures |r| == |rows|
    ensures forall k :: 0 <= k < |rows| && !(rows[k].id == id && rows[k].applicationId == applicationId) ==>
              r[k] == rows[k]
    ensures FindFirst(rows, Scoped(id, applicationId)).None? ==> r == rows
    ensures FindFirst(rows, Scoped(id, applicationId)).Some? ==>
              r[FindFirst(rows, Scoped(id, applicationId)).value].isCompleted == isCompleted
    ensures forall k :: 0 <= k < |rows| ==> r[k].id == rows[k].id && r[k].applicationId == rows[k].applicationId
    ensures forall k :: 0 <= k < |rows| && rows[k].id == id && rows[k].applicationId == applicationId
                        && (forall j :: 0 <= j < k ==> !(rows[j].id == id && rows[j].applicationId == applicationId))
                        ==> r[k] == Completed(rows[k], isCompleted, now)
  {
    match FindFirst(rows, Scoped(id, applicationId))
    case None => rows
    case Some(i) => rows[i := Completed(rows[i], isCompleted, now)]
  }

  function StartKey(s: ApplicationSchedule): int { InstantKey(s.startDate) }

  /** The filter `application_id == application_id`. */
  function OfApplication(applicationId: int): ApplicationSchedule -> bool {
    (s: ApplicationSchedule) => s.applicationId == applicationId
  }

  /** The filter `application_id == application_id AND schedule_type == t`. */
  function OfApplicationAndType(applicationId: int, t: ScheduleType): ApplicationSchedule -> bool {
    (s: ApplicationSchedule) => s.applicationId == applicationId && s.scheduleType == t
  }

  /** `get_application_schedules`: the application's schedules, earliest start first. */
  function ApplicationSchedules(rows: seq<ApplicationSchedule>, applicationId: int): (r: seq<ApplicationSchedule>)
    ensures multiset(r) == multiset(Filter(rows, OfApplication(applicationId)))
    ensures forall x :: x in r ==> x in rows && x.applicationId == applicationId
    ensures forall i, j :: 0 <= i < j < |r| ==> InstantKey(r[i].startDate) <= InstantKey(r[j].startDate)
  {
    OldestFirst(rows, OfApplication(applicationId), StartKey)
  }

  /** `get_schedules_by_type`: every schedule of that application and type,
      earliest start first. */
  function SchedulesByType(rows: seq<ApplicationSchedule>, applicationId: int, t: ScheduleType)
    : (r: seq<ApplicationSchedule>)
    ensures multiset(r) == multiset(Filter(rows, OfApplicationAndType(applicationId, t)))
    ensures forall x :: x in r ==> x in rows && x.applicationId == applicationId && x.scheduleType == t
    ensures forall i, j :: 0 <= i < j < |r| ==> InstantKey(r[i].startDate) <= InstantKey(r[j].startDate)
  {
    OldestFirst(rows, OfApplicationAndType(applicationId, t), StartKey)
  }

  /** One row of `get_user_schedules_by_month`. */
  datatype CalendarEntry = CalendarEntry(companyName: string, scheduleType: ScheduleType,
                                         startDate: DateTime, endDate: DateTime, notes: Option<string>)

  /** The application a schedule hangs off, by the join condition. */
  function ApplicationOf(apps: seq<CompanyApplication>, s: ApplicationSchedule): (r: Option<CompanyApplication>)
    ensures r.Some? ==> r.value in apps && r.value.id == s.applicationId
    ensures r.None? ==> forall a :: a in apps ==> a.id != s.applicationId
  {
    match FindFirst(apps, (a: CompanyApplication) => a.id == s.applicationId)
    case None => None
    case Some(i) => Some(apps[i])
  }

  /** The join and WHERE clause of the monthly view: the schedule's
      application is the user's and the schedule starts in that month. */
  predicate InUserMonth(apps: seq<CompanyApplication>, userId: string, year: int, month: int, s: ApplicationSchedule) {
    ApplicationOf(apps, s).Some? && ApplicationOf(apps, s).value.userId == userId
    && s.startDate.date.year == year && s.startDate.date.month == month
  }

  function Entries(apps: seq<CompanyApplication>, ss: seq<ApplicationSchedule>): (r: seq<CalendarEntry>)
    requires forall s :: s in ss ==> ApplicationOf(apps, s).Some?
    ensures |r| == |ss|
    ensures forall k :: 0 <= k < |ss| ==>
              r[k] == CalendarEntry(ApplicationOf(apps, ss[k]).value.companyName, ss[k].scheduleType,
                                    ss[k].startDate, ss[k].endDate, ss[k].notes)
  {
    if ss == [] then []
    else
      [CalendarEntry(ApplicationOf(apps, ss[0]).value.companyName, ss[0].scheduleType,
                     ss[0].startDate, ss[0].endDate, ss[0].notes)] + Entries(apps, ss[1..])
  }

  /** The schedules the monthly view reports, earliest first. */
  function MonthRows(rows: seq<ApplicationSchedule>, apps: seq<CompanyApplication>,
                     userId: string, year: int, month: int): (ss: seq<ApplicationSchedule>)
    ensures forall k :: 0 <= k < |ss| ==> ss[k] in rows && InUserMonth(apps, userId, year, month, ss[k])
    ensures forall i, j :: 0 <= i < j < |ss| ==> InstantKey(ss[i].startDate) <= InstantKey(ss[j].startDate)
    ensures |ss| == |Filter(rows, (s: ApplicationSchedule) => InUserMonth(apps, userId, year, month, s))|
    ensures multiset(ss) == multiset(Filter(rows, (s: ApplicationSchedule) => InUserMonth(apps, userId, year, month, s)))
  {
    var ss := OldestFirst(rows, (s: ApplicationSchedule) => InUserMonth(apps, userId, year, month, s), StartKey);
    assert |ss| == |multiset(ss)|;
    ss
  }

  /** `get_user_schedules_by_month`: every schedule of the user's applications
      starting in the given year and month, earliest first, with the company name. */
  function UserSchedulesByMonth(rows: seq<ApplicationSchedule>, apps: seq<CompanyApplication>,
                                userId: string, year: int, month: int): (r: seq<CalendarEntry>)
    ensures forall k :: 0 <= k < |r| ==> r[k].startDate.date.year == year && r[k].startDate.date.month == month
    ensures forall i, j :: 0 <= i < j < |r| ==> InstantKey(r[i].startDate) <= InstantKey(r[j].startDate)
    ensures |r| == |Filter(rows, (s: ApplicationSchedule) => InUserMonth(apps, userId, year, month, s))|
    ensures exists ss :: multiset(ss) == multiset(Filter(rows, (s: ApplicationSchedule) => InUserMonth(apps, userId, year, month, s)))
                         && (forall s :: s in ss ==> ApplicationOf(apps, s).Some?) && r == Entries(apps, ss)
  {
    var ss := MonthRows(rows, apps, userId, year, month);
    Entries(apps, ss)
  }

  ghost predicate IdsBelow(rows: seq<ApplicationSchedule>, nextId: int) {
    (forall k :: 0 <= k < |rows| ==> 1 <= rows[k].id < nextId)
    && forall i, j :: 0 <= i < j < |rows| ==> rows[i].id != rows[j].id
  }

  /** The `application_schedules` table. */
  class ScheduleTable {
    var rows: seq<ApplicationSchedule>
    var nextId: int

    ghost predicate Valid()
      reads this
    {
      nextId >= 1 && IdsBelow(rows, nextId)
    }

    constructor ()
      ensures Valid() && rows == [] && nextId == 1
    {
      rows := [];
      nextId := 1;
    }

    /** `create_application_schedule`: not completed, stamped `now`. */
    method Create(scheduleType: ScheduleType, startDate: DateTime, endDate: DateTime, notes: Option<string>,
                  applicationId: int, now: DateTime)
      returns (s: ApplicationSchedule)
      requires Valid()
      modifies this
      ensures Valid()
      ensures s == ApplicationSchedule(old(nextId), applicationId, scheduleType, startDate, endDate, notes, false, now, now)
      ensures rows == old(rows) + [s] && nextId == old(nextId) + 1
    {
      s := ApplicationSchedule(nextId, applicationId, scheduleType, startDate, endDate, notes, false, now, now);
      rows := rows + [s];
      nextId := nextId + 1;
    }

    /** `get_application_schedule`. */
    function Get(id: int): (r: Option<ApplicationSchedule>)
      reads this
      ensures r.Some? <==> exists k :: 0 <= k < |rows| && rows[k].id == id
      ensures r.Some? ==> r.value in rows && r.value.id == id
    {
      match FindFirst(rows, (s: ApplicationSchedule) => s.id == id)
      case None => None
      case Some(i) => Some(rows[i])
    }

    /** `update_application_schedule`. */
    method Update(id: int, applicationId: int, fs: seq<ScheduleField>, now: DateTime)
      returns (r: Option<ApplicationSchedule>)
      requires Valid()
      modifies this
      ensures Valid() && nextId == old(nextId)
      ensures rows == Updated(old(rows), id, applicationId, fs, now)
      ensures r.Some? <==> FindFirst(old(rows), Scoped(id, applicationId)).Some?
      ensures r.Some? ==> r.value in rows && r.value.id == id && r.value.applicationId == applicationId
      ensures r.Some? ==> r.value == Patched(old(rows)[FindFirst(old(rows), Scoped(id, applicationId)).value], fs, now)
    {
      var found := FindFirst(rows, Scoped(id, applicationId));
      if found.None? {
        return None;
      }
      var i := found.value;
      var row := rows[i];
      for k := 0 to |fs|
        invariant row == ApplyFields(rows[i], fs[..k])
      {
        assert fs[..k + 1][..k] == fs[..k];
        row := ApplyField(row, fs[k]);
      }
      assert fs[..|fs|] == fs;
      if row != rows[i] {
        row := row.(updatedAt := now);
      }
      rows := rows[i := row];
      r := Some(row);
    }

    /** `mark_schedule_completed`: only `is_completed` is written. */
    method MarkCompleted(id: int, applicationId: int, isCompleted: bool, now: DateTime)
      returns (r: Option<ApplicationSchedule>)
      requires Valid()
      modifies this
      ensures Valid() && nextId == old(nextId)
      ensures rows == CompletedRows(old(rows), id, applicationId, isCompleted, now)
      ensures r.Some? <==> FindFirst(old(rows), Scoped(id, applicationId)).Some?
      ensures r.Some? ==> r.value in rows && r.value.isCompleted == isCompleted
      ensures r.Some? ==>
                r.value == Completed(old(rows)[FindFirst(old(rows), Scoped(id, applicationId)).value], isCompleted, now)
    {
      var found := FindFirst(rows, Scoped(id, applicationId));
      if found.None? {
        return None;
      }
      var i := found.value;
      var row := Completed(rows[i], isCompleted, now);
      rows := rows[i := row];
      r := Some(row);
    }

    /** `delete_application_schedule`. */
    method Delete(id: int, applicationId: int) returns (ok: bool)
      requires Valid()
      modifies this
      ensures Valid() && nextId == old(nextId)
      ensures rows == DeleteFirst(old(rows), Scoped(id, applicationId))
      ensures ok <==> FindFirst(old(rows), Scoped(id, applicationId)).Some?
      ensures forall x :: x in rows ==> !(x.id == id && x.applicationId == applicationId)
    {
      var found := FindFirst(rows, Scoped(id, applicationId));
      assert AtMostOne(rows, Scoped(id, applicationId));
      DeleteFirstLeavesNone(rows, Scoped(id, applicationId));
      ghost var before := rows;
      rows := DeleteFirst(rows, Scoped(id, applicationId));
      ok := found.Some?;
      assert forall k :: 0 <= k < |rows| ==> rows[k] in before;
    }

    /** The application's rows as the ORM's `delete-orphan` cascade removes
        them when the application itself is deleted. */
    method DeleteForApplication(applicationId: int)
      requires Valid()
      modifies this
      ensures Valid() && nextId == old(nextId)
      ensures rows == Filter(old(rows), (s: ApplicationSchedule) => s.applicationId != applicationId)
      ensures forall x :: x in rows ==> x.applicationId != applicationId
    {
      ghost var before := rows;
      var keep := (s: ApplicationSchedule) => s.applicationId != applicationId;
      ghost var key := (s: ApplicationSchedule) => s.id;
      assert DistinctBy(rows, key);
      FilterKeepsDistinct(rows, keep, key);
      rows := Filter(rows, keep);
      assert DistinctBy(rows, key);
      assert forall k :: 0 <= k < |rows| ==> rows[k] in before;
    }
  }
}
