/** The `/applications` endpoints: the personal-user guard, the paged
    listings, the monthly calendar, the detail view, document upload, download
    and view, and the schedule endpoints, over the three tables. */
module CompanyApplicationRoutes {

  import opened Common
  import opened Models
  import opened Text
  import opened Validation
  import opened CompanyApplicationCrud
  import opened ApplicationScheduleCrud
  import opened ApplicationDocumentCrud
  import JobReviewCrud

  const PersonalOnly := HttpError(403, "개인 사용자만 접근할 수 있습니다.")
  const ApplicationNotFound := HttpError(404, "지원 정보를 찾을 수 없습니다.")
  const NoAccess := HttpError(403, "접근 권한이 없습니다.")
  const CreateFailed := HttpError(500, "지원 등록에 실패했습니다.")
  const InvalidYear := HttpError(400, "유효하지 않은 연도입니다.")
  const InvalidMonth := HttpError(400, "유효하지 않은 월입니다.")
  const CountMismatch := HttpError(400, "파일 개수와 문서 타입 개수가 일치하지 않습니다.")
  const DocumentNotFound := HttpError(404, "서류를 찾을 수 없습니다.")
  const FileMissing := HttpError(404, "파일이 존재하지 않습니다.")
  const NoSchedules := HttpError(400, "최소 하나의 일정을 입력해야 합니다.")
  const ScheduleNotFound := HttpError(404, "일정을 찾을 수 없습니다.")
  const OctetStream := "application/octet-stream"
  /** The fetch size the by-status endpoint counts with. */
  const StatusCountWindow := 1000

  function BadDocumentType(t: string): HttpError {
    HttpError(400, "잘못된 문서 타입입니다: " + t)
  }

  /** The first check of every endpoint: only `"personal"` callers pass. */
  function RequirePersonal(caller: Caller): (r: Option<HttpError>)
    ensures r.None? <==> caller.userType == Some("personal")
    ensures r.Some? ==> r.value == PersonalOnly
  {
    if caller.userType != Some("personal") then Some(PersonalOnly) else None
  }

  /** The row is the caller's: `application.user_id != user_id` fails for a
      token without a user id. */
  predicate Owns(caller: Caller, a: CompanyApplication) {
    caller.userId == Some(a.userId)
  }

  /** The guard of every per-application endpoint: personal caller, then the
      application by id (404), then its owner (403). */
  function Authorize(apps: seq<CompanyApplication>, caller: Caller, applicationId: int): (r: Option<HttpError>)
    ensures caller.userType != Some("personal") <==> r == Some(PersonalOnly)
    ensures r == Some(ApplicationNotFound) <==>
              caller.userType == Some("personal") && forall k :: 0 <= k < |apps| ==> apps[k].id != applicationId
    ensures r.None? ==> exists k :: 0 <= k < |apps| && apps[k].id == applicationId && Owns(caller, apps[k])
    ensures r.None? || r == Some(PersonalOnly) || r == Some(ApplicationNotFound) || r == Some(NoAccess)
  {
    if caller.userType != Some("personal") then Some(PersonalOnly)
    else match FindFirst(apps, (a: CompanyApplication) => a.id == applicationId)
      case None => Some(ApplicationNotFound)
      case Some(i) => if !Owns(caller, apps[i]) then Some(NoAccess) else None
  }

  /** With distinct ids, a personal caller passes the guard exactly when the
      application exists and is theirs. */
  lemma AuthorizeOwner(apps: seq<CompanyApplication>, caller: Caller, applicationId: int)
    requires forall i, j :: 0 <= i < j < |apps| ==> apps[i].id != apps[j].id
    requires caller.userType == Some("personal")
    ensures Authorize(apps, caller, applicationId).None? <==>
              exists k :: 0 <= k < |apps| && apps[k].id == applicationId && Owns(caller, apps[k])
  {
    var f := FindFirst(apps, (a: CompanyApplication) => a.id == applicationId);
    if exists k :: 0 <= k < |apps| && apps[k].id == applicationId && Owns(caller, apps[k]) {
      var k :| 0 <= k < |apps| && apps[k].id == applicationId && Owns(caller, apps[k]);
      assert f.Some?;
      assert f.value == k;
    }
  }

  /** `CompanyApplicationListResponse`. */
  datatype ApplicationListResponse = ApplicationListResponse(
    totalCount: int, page: int, pageSize: int, totalPages: int, applications: seq<CompanyApplication>)

  /** The rows of the caller; a token without a user id matches none. */
  function CallerApplications(rows: seq<CompanyApplication>, caller: Caller, skip: nat, limit: nat)
    : (r: seq<CompanyApplication>)
    ensures caller.userId.None? ==> r == []
    ensures caller.userId.Some? ==>
              r == Window(NewestOrder(rows, OwnedBy(caller.userId.value), CreatedKey), skip, limit)
              && var n := UserApplicationCount(rows, caller.userId.value);
                 |r| == Min(limit, if skip <= n then n - skip else 0)
    ensures |r| <= limit
    ensures forall x :: x in r ==> x in rows && Owns(caller, x)
  {
    if caller.userId.None? then [] else UserApplications(rows, caller.userId.value, skip, limit)
  }

  /** `GET /applications/`: the caller's page of applications, newest first. */
  function MyApplications(rows: seq<CompanyApplication>, caller: Caller, page: int, pageSize: int)
    : (r: Result<ApplicationListResponse, HttpError>)
    ensures caller.userType != Some("personal") ==> r == Err(PersonalOnly)
    ensures caller.userType == Some("personal") && ValidatePaginationParams(page, pageSize).Some? ==>
              r == Err(ValidatePaginationParams(page, pageSize).value)
    ensures r.Ok? <==> caller.userType == Some("personal") && page >= 1 && 1 <= pageSize <= MaxPageSize
    ensures r.Ok? ==>
              var v := r.value;
              v.page == page && v.pageSize == pageSize
              && v.applications == CallerApplications(rows, caller, PageOffset(page, pageSize), pageSize)
              && v.totalCount == (if caller.userId.None? then 0 else UserApplicationCount(rows, caller.userId.value))
              && v.totalPages == PageCount(v.totalCount, pageSize)
  {
    if caller.userType != Some("personal") then Err(PersonalOnly)
    else if ValidatePaginationParams(page, pageSize).Some? then Err(ValidatePaginationParams(page, pageSize).value)
    else
      var total := if caller.userId.None? then 0 else UserApplicationCount(rows, caller.userId.value);
      Ok(ApplicationListResponse(total, page, pageSize, PageCount(total, pageSize),
                                 CallerApplications(rows, caller, PageOffset(page, pageSize), pageSize)))
  }

  /** One page of a user's applications with one status, counted over a
      fetch of at most 1000 rows. */
  function StatusListing(rows: seq<CompanyApplication>, userId: string, status: ApplicationStatus,
                         page: int, pageSize: int)
    : (v: ApplicationListResponse)
    requires page >= 1 && pageSize >= 1
    ensures v.page == page && v.pageSize == pageSize
    ensures v.totalCount == Min(StatusCountWindow, |Filter(rows, WithStatus(userId, status))|)
    ensures v.applications == Window(NewestOrder(rows, WithStatus(userId, status), CreatedKey),
                                     PageOffset(page, pageSize), pageSize)
    ensures |v.applications| <= pageSize
    ensures forall x :: x in v.applications ==> x in rows && x.userId == userId && x.status == status
    ensures v.totalPages == PageCount(v.totalCount, pageSize)
  {
    var total := |ApplicationsByStatus(rows, userId, status, 0, StatusCountWindow)|;
    ApplicationListResponse(total, page, pageSize, PageCount(total, pageSize),
                            ApplicationsByStatus(rows, userId, status, PageOffset(page, pageSize), pageSize))
  }

  /** `GET /applications/status/{status}` as written. The path parameter
      `status` shadows the `fastapi.status` module inside the handler, so
      building the 403 or 400 exception reads `HTTP_403_FORBIDDEN` or
      `HTTP_400_BAD_REQUEST` off an `ApplicationStatus` member; that raises
      AttributeError, which the server answers with a 500. The listing itself
      is as for the other endpoints; the total is the length of a fetch
      limited to 1000 rows. */
  function ApplicationsWithStatus(rows: seq<CompanyApplication>, caller: Caller, status: ApplicationStatus,
                                  page: int, pageSize: int)
    : (r: Result<ApplicationListResponse, HttpError>)
    ensures caller.userType != Some("personal") ==> r == Err(InternalServerError)
    ensures ValidatePaginationParams(page, pageSize).Some? ==> r == Err(InternalServerError)
    ensures r.Ok? <==> caller.userType == Some("personal") && page >= 1 && 1 <= pageSize <= MaxPageSize
    ensures r.Ok? ==> r.value.page == page && r.value.pageSize == pageSize
    ensures r.Ok? ==> r.value.totalCount == (if caller.userId.None? then 0
                                             else Min(StatusCountWindow, |Filter(rows, WithStatus(caller.userId.value, status))|))
    ensures r.Ok? && caller.userId.Some? ==>
              r.value.applications == Window(NewestOrder(rows, WithStatus(caller.userId.value, status), CreatedKey),
                                             PageOffset(page, pageSize), pageSize)
    ensures r.Ok? ==> 0 <= r.value.totalCount <= StatusCountWindow && |r.value.applications| <= pageSize
    ensures r.Ok? ==> forall x :: x in r.value.applications ==> x in rows && Owns(caller, x) && x.status == status
    ensures r.Ok? ==> r.value.totalPages == PageCount(r.value.totalCount, pageSize)
  {
    if caller.userType != Some("personal") then Err(InternalServerError)
    else if ValidatePaginationParams(page, pageSize).Some? then Err(InternalServerError)
    else if caller.userId.None? then Ok(ApplicationListResponse(0, page, pageSize, 0, []))
    else Ok(StatusListing(rows, caller.userId.value, status, page, pageSize))
  }

  /** `GET /applications/status/{status}` as evidently intended: the guards
      answer 403 and 400 with their messages, exactly as on `GET /applications/`. */
  function ApplicationsWithStatusCorrected(rows: seq<CompanyApplication>, caller: Caller, status: ApplicationStatus,
                                           page: int, pageSize: int)
    : (r: Result<ApplicationListResponse, HttpError>)
    ensures caller.userType != Some("personal") ==> r == Err(PersonalOnly)
    ensures caller.userType == Some("personal") && ValidatePaginationParams(page, pageSize).Some? ==>
              r == Err(ValidatePaginationParams(page, pageSize).value)
    ensures r.Ok? <==> caller.userType == Some("personal") && page >= 1 && 1 <= pageSize <= MaxPageSize
    ensures r.Ok? ==> r.value.totalCount == (if caller.userId.None? then 0
                                             else Min(StatusCountWindow, |Filter(rows, WithStatus(caller.userId.value, status))|))
    ensures r.Ok? && caller.userId.Some? ==>
              r.value.applications == Window(NewestOrder(rows, WithStatus(caller.userId.value, status), CreatedKey),
                                             PageOffset(page, pageSize), pageSize)
    ensures r.Ok? ==> forall x :: x in r.value.applications ==> x in rows && Owns(caller, x) && x.status == status
  {
    if caller.userType != Some("personal") then Err(PersonalOnly)
    else if ValidatePaginationParams(page, pageSize).Some? then Err(ValidatePaginationParams(page, pageSize).value)
    else if caller.userId.None? then Ok(ApplicationListResponse(0, page, pageSize, 0, []))
    else Ok(StatusListing(rows, caller.userId.value, status, page, pageSize))
  }

  /** The two answer alike whenever the request is let through, and the
      as-written endpoint turns every refusal of the intended one into a 500. */
  lemma StatusGuardsAnswer500(rows: seq<CompanyApplication>, caller: Caller, status: ApplicationStatus,
                              page: int, pageSize: int)
    ensures var intended := ApplicationsWithStatusCorrected(rows, caller, status, page, pageSize);
            var written := ApplicationsWithStatus(rows, caller, status, page, pageSize);
            (intended.Ok? ==> written == intended)
            && (intended.Err? ==> written == Err(InternalServerError) && intended.error.status != 500)
  {
  }

  /** A company caller asking for its "documents submitted" applications is told 500
      where 403 was meant. */
  lemma CompanyCallerGets500(rows: seq<CompanyApplication>)
    ensures ApplicationsWithStatus(rows, Caller(Some("c1"), Some("company")), DocumentsSubmitted, 1, 10) == Err(InternalServerError)
    ensures ApplicationsWithStatusCorrected(rows, Caller(Some("c1"), Some("company")), DocumentsSubmitted, 1, 10) == Err(PersonalOnly)
  {
  }

  /** `MonthlyCalendarResponse`. */
  datatype MonthlyCalendar = MonthlyCalendar(year: int, month: int, schedules: seq<CalendarEntry>)

  /** `GET /applications/calendar/{year}/{month}`. */
  function MonthlyCalendarOf(schedules: seq<ApplicationSchedule>, apps: seq<CompanyApplication>, caller: Caller,
                             year: int, month: int)
    : (r: Result<MonthlyCalendar, HttpError>)
    ensures caller.userType != Some("personal") ==> r == Err(PersonalOnly)
    ensures caller.userType == Some("personal") && !(2000 <= year <= 2100) ==> r == Err(InvalidYear)
    ensures caller.userType == Some("personal") && 2000 <= year <= 2100 && !(1 <= month <= 12) ==> r == Err(InvalidMonth)
    ensures r.Ok? <==> caller.userType == Some("personal") && 2000 <= year <= 2100 && 1 <= month <= 12
    ensures r.Ok? ==> r.value.year == year && r.value.month == month
    ensures r.Ok? && caller.userId.None? ==> r.value.schedules == []
    ensures r.Ok? && caller.userId.Some? ==>
              r.value.schedules == UserSchedulesByMonth(schedules, apps, caller.userId.value, year, month)
    ensures r.Ok? ==> forall k :: 0 <= k < |r.value.schedules| ==>
                        r.value.schedules[k].startDate.date.year == year
                        && r.value.schedules[k].startDate.date.month == month
    ensures r.Ok? ==> forall i, j :: 0 <= i < j < |r.value.schedules| ==>
                        InstantKey(r.value.schedules[i].startDate) <= InstantKey(r.value.schedules[j].startDate)
  {
    if caller.userType != Some("personal") then Err(PersonalOnly)
    else if year < 2000 || year > 2100 then Err(InvalidYear)
    else if month < 1 || month > 12 then Err(InvalidMonth)
    else if caller.userId.None? then Ok(MonthlyCalendar(year, month, []))
    else Ok(MonthlyCalendar(year, month, UserSchedulesByMonth(schedules, apps, caller.userId.value, year, month)))
  }

  /** `/applications/{aid}/documents/{did}/{action}`. */
  function DocumentUrl(applicationId: int, documentId: int, action: string): (r: string)
    ensures StartsWith(r, "/applications/") && EndsWith(r, "/" + action)
  {
    var head := "/applications/";
    var tail := "/" + action;
    var r := head + (IntToString(applicationId) + "/documents/" + IntToString(documentId)) + tail;
    assert r[..|head|] == head;
    assert r[|r| - |tail|..] == tail;
    r
  }

  /** `ApplicationDocumentResponse` with its two URLs set. */
  datatype DocumentWithUrls = DocumentWithUrls(document: ApplicationDocument, downloadUrl: string, viewUrl: string)

  /** `CompanyApplicationDetailResponse`. */
  datatype ApplicationDetail = ApplicationDetail(
    application: CompanyApplication, documents: seq<DocumentWithUrls>, schedules: seq<ApplicationSchedule>)

  /** The documents the relationship loads for an application, in table order. */
  function DocumentsOf(docs: seq<ApplicationDocument>, applicationId: int): (r: seq<ApplicationDocument>)
    ensures forall x :: x in r <==> x in docs && x.applicationId == applicationId
  {
    Filter(docs, (d: ApplicationDocument) => d.applicationId == applicationId)
  }

  /** The loop that sets `download_url` and `view_url` on every document. */
  method AddUrls(applicationId: int, ds: seq<ApplicationDocument>) returns (withUrls: seq<DocumentWithUrls>)
    ensures |withUrls| == |ds|
    ensures forall k :: 0 <= k < |ds| ==>
              withUrls[k].document == ds[k]
              && withUrls[k].downloadUrl == DocumentUrl(applicationId, ds[k].id, "download")
              && withUrls[k].viewUrl == DocumentUrl(applicationId, ds[k].id, "view")
  {
    withUrls := [];
    for k := 0 to |ds|
      invariant |withUrls| == k
      invariant forall j :: 0 <= j < k ==>
                  withUrls[j] == DocumentWithUrls(ds[j], DocumentUrl(applicationId, ds[j].id, "download"),
                                                  DocumentUrl(applicationId, ds[j].id, "view"))
    {
      withUrls := withUrls + [DocumentWithUrls(ds[k], DocumentUrl(applicationId, ds[k].id, "download"),
                                               DocumentUrl(applicationId, ds[k].id, "view"))];
    }
  }

  /** `GET /applications/{application_id}`: the owner's application with every
      document given its download and view URLs and the schedules sorted by
      start. */
  method ApplicationDetailOf(apps: seq<CompanyApplication>, docs: seq<ApplicationDocument>,
                             schedules: seq<ApplicationSchedule>, caller: Caller, applicationId: int)
    returns (r: Result<ApplicationDetail, HttpError>)
    ensures r.Err? <==> Authorize(apps, caller, applicationId).Some?
    ensures r.Err? ==> r.error == Authorize(apps, caller, applicationId).value
    ensures r.Ok? ==> r.value.application in apps && r.value.application.id == applicationId
                      && Owns(caller, r.value.application)
    ensures r.Ok? ==>
              var ds := DocumentsOf(docs, applicationId);
              |r.value.documents| == |ds|
              && forall k :: 0 <= k < |ds| ==>
                   r.value.documents[k].document == ds[k]
                   && r.value.documents[k].downloadUrl == DocumentUrl(applicationId, ds[k].id, "download")
                   && r.value.documents[k].viewUrl == DocumentUrl(applicationId, ds[k].id, "view")
    ensures r.Ok? ==> multiset(r.value.schedules) ==
                        multiset(Filter(schedules, OfApplication(applicationId)))
    ensures r.Ok? ==> forall i, j :: 0 <= i < j < |r.value.schedules| ==>
                        InstantKey(r.value.schedules[i].startDate) <= InstantKey(r.value.schedules[j].startDate)
  {
    var guard := Authorize(apps, caller, applicationId);
    if guard.Some? {
      return Err(guard.value);
    }
    var i := FindFirst(apps, (a: CompanyApplication) => a.id == applicationId).value;
    var withUrls := AddUrls(applicationId, DocumentsOf(docs, applicationId));
    r := Ok(ApplicationDetail(apps[i], withUrls, ApplicationSchedules(schedules, applicationId)));
  }

  // ---------------------------------------------------------------------------
  // Documents

  const DocumentTypes: map<string, DocumentType> :=
    map["resume" := Resume, "cover_letter" := CoverLetter, "portfolio" := Portfolio,
        "certificate" := Certificate, "other" := OtherDocument]

  /** `DocumentType(doc_type)`: the enum by its value. */
  function ParseDocumentType(t: string): (r: Option<DocumentType>)
    ensures r.Some? ==> DocumentTypeName(r.value) == t
  {
    if t in DocumentTypes then Some(DocumentTypes[t]) else None
  }

  function DocumentTypeName(d: DocumentType): string {
    match d
    case Resume => "resume"
    case CoverLetter => "cover_letter"
    case Portfolio => "portfolio"
    case Certificate => "certificate"
    case OtherDocument => "other"
  }

  /** Every document type parses back from its value. */
  lemma DocumentTypeRoundTrip(d: DocumentType)
    ensures ParseDocumentType(DocumentTypeName(d)) == Some(d)
  {
  }

  /** `f"uploads/applications/{application_id}/documents"`. */
  function UploadDir(applicationId: int): string {
    "uploads/applications/" + IntToString(applicationId) + "/documents"
  }

  /** The stored file name: the uuid, with the original's text after its last
      '.' appended when there is a '.' and that text is not empty. */
  function StoredName(uuid: string, fileName: string): (r: string)
    ensures StartsWith(r, uuid)
    ensures '.' !in fileName || AfterLast(fileName, '.') == "" ==> r == uuid
  {
    var extension := if '.' in fileName then AfterLast(fileName, '.') else "";
    if extension != "" then uuid + "." + extension else uuid
  }

  /** The text after the last '.' of `a + "." + b`, when `b` holds no '.', is `b`. */
  lemma {:induction false} AfterLastOfJoin(a: string, b: string)
    requires '.' !in b
    ensures AfterLast(a + "." + b, '.') == b
    decreases |b|
  {
    var s := a + "." + b;
    if b == [] {
      assert s[|s| - 1] == '.';
    } else {
      var front := b[..|b| - 1];
      assert s[..|s| - 1] == a + "." + front;
      assert b[|b| - 1] in b;
      assert '.' !in front by {
        forall k | 0 <= k < |front| ensures front[k] != '.' {
          assert front[k] == b[k];
        }
      }
      AfterLastOfJoin(a, front);
      assert b == front + [b[|b| - 1]];
    }
  }

  /** A stored name with an extension keeps the original's extension, so a
      uuid free of '.' cannot change the type the view endpoint reports. */
  lemma StoredNameKeepsExtension(uuid: string, fileName: string)
    requires '.' !in uuid && '.' in fileName && AfterLast(fileName, '.') != ""
    ensures AfterLast(StoredName(uuid, fileName), '.') == AfterLast(fileName, '.')
    ensures MediaTypeFor(StoredName(uuid, fileName)) == MediaTypeFor(fileName)
  {
    AfterLastOfJoin(uuid, AfterLast(fileName, '.'));
  }

  /** An uploaded file: its original name and the length of its content. */
  datatype UploadFile = UploadFile(fileName: string, size: nat)

  /** The row `upload_documents` creates for one file. */
  function UploadedDocument(applicationId: int, id: int, file: UploadFile, t: DocumentType, uuid: string,
                            now: DateTime): ApplicationDocument
  {
    var name := StoredName(uuid, file.fileName);
    ApplicationDocument(id, applicationId, t, name, UploadDir(applicationId) + "/" + name,
                        Some(file.size), Some(file.fileName), now)
  }

  /** `DocumentType(t)` of every type in the form. */
  function ParsedTypes(types: seq<string>): (r: seq<Option<DocumentType>>)
    ensures |r| == |types| && forall k :: 0 <= k < |types| ==> r[k] == ParseDocumentType(types[k])
  {
    seq(|types|, k requires 0 <= k < |types| => ParseDocumentType(types[k]))
  }

  /** How many files an upload records: those before the first type that
      does not parse, or all of them. */
  function RecordedCount(parsed: seq<Option<DocumentType>>): (n: nat)
    ensures n <= |parsed|
    ensures forall k :: 0 <= k < n ==> parsed[k].Some?
    ensures n < |parsed| ==> parsed[n].None?
  {
    match FindFirst(parsed, (o: Option<DocumentType>) => o.None?)
    case None => |parsed|
    case Some(bad) => bad
  }

  /** The position of the first type that does not parse. */
  function FirstInvalidType(types: seq<string>): (r: Option<nat>)
    ensures r.None? <==> forall k :: 0 <= k < |types| ==> ParseDocumentType(types[k]).Some?
    ensures r.Some? ==> r.value < |types| && ParseDocumentType(types[r.value]).None?
                        && forall k :: 0 <= k < r.value ==> ParseDocumentType(types[k]).Some?
    ensures r.None? <==> RecordedCount(ParsedTypes(types)) == |types|
    ensures r.Some? ==> r.value == RecordedCount(ParsedTypes(types))
  {
    var n := RecordedCount(ParsedTypes(types));
    if n == |types| then None else Some(n)
  }

  /** The first `n` rows an upload records. */
  function Uploads(applicationId: int, firstId: int, files: seq<UploadFile>, parsed: seq<Option<DocumentType>>,
                   uuids: seq<string>, now: DateTime, n: nat): (r: seq<ApplicationDocument>)
    requires n <= |files| && n <= |parsed| && n <= |uuids|
    requires forall k :: 0 <= k < n ==> parsed[k].Some?
    ensures |r| == n
    ensures forall k :: 0 <= k < n ==>
              r[k] == UploadedDocument(applicationId, firstId + k, files[k], parsed[k].value, uuids[k], now)
  {
    seq(n, k requires 0 <= k < n =>
      UploadedDocument(applicationId, firstId + k, files[k], parsed[k].value, uuids[k], now))
  }

  /** Recording one more file appends its row. */
  lemma UploadsStep(applicationId: int, firstId: int, files: seq<UploadFile>, parsed: seq<Option<DocumentType>>,
                    uuids: seq<string>, now: DateTime, k: nat)
    requires k < |files| && k < |parsed| && k < |uuids|
    requires forall j :: 0 <= j <= k ==> parsed[j].Some?
    ensures Uploads(applicationId, firstId, files, parsed, uuids, now, k + 1)
            == Uploads(applicationId, firstId, files, parsed, uuids, now, k)
               + [UploadedDocument(applicationId, firstId + k, files[k], parsed[k].value, uuids[k], now)]
  {
    var a := Uploads(applicationId, firstId, files, parsed, uuids, now, k);
    var b := Uploads(applicationId, firstId, files, parsed, uuids, now, k + 1);
    forall j | 0 <= j < k
      ensures b[j] == a[j]
    {
    }
    AppendOne(a, b, UploadedDocument(applicationId, firstId + k, files[k], parsed[k].value, uuids[k], now));
  }

  /** One turn of the loop of `upload_documents`: the file is stored under
      its fresh name and recorded. */
  method RecordUpload(table: DocumentTable, applicationId: int, file: UploadFile, t: DocumentType,
                      uuid: string, now: DateTime)
    returns (d: ApplicationDocument)
    requires table.Valid()
    modifies table
    ensures table.Valid()
    ensures d == UploadedDocument(applicationId, old(table.nextId), file, t, uuid, now)
    ensures table.rows == old(table.rows) + [d] && table.nextId == old(table.nextId) + 1
  {
    var name := StoredName(uuid, file.fileName);
    d := table.Create(DocumentCreate(t, name, Some(file.fileName)), applicationId,
                      UploadDir(applicationId) + "/" + name, Some(file.size), now);
  }

  /** The count of recorded files is the length of the leading run of
      parsed types. */
  lemma RecordedCountIs(parsed: seq<Option<DocumentType>>, k: nat)
    requires k <= |parsed| && forall j :: 0 <= j < k ==> parsed[j].Some?
    requires k == |parsed| || parsed[k].None?
    ensures RecordedCount(parsed) == k
  {
  }

  /** Rows appended with consecutive fresh ids keep the table's ids below
      its counter and distinct. */
  lemma AppendedRowsKeepIds(before: seq<ApplicationDocument>, firstId: int, created: seq<ApplicationDocument>)
    requires firstId >= 1 && ApplicationDocumentCrud.IdsBelow(before, firstId)
    requires forall j :: 0 <= j < |created| ==> created[j].id == firstId + j
    ensures ApplicationDocumentCrud.IdsBelow(before + created, firstId + |created|)
  {
    var rows := before + created;
    forall i | 0 <= i < |rows|
      ensures 1 <= rows[i].id < firstId + |created|
    {
      if i >= |before| {
        assert rows[i] == created[i - |before|];
      }
    }
    forall i, j | 0 <= i < j < |rows|
      ensures rows[i].id != rows[j].id
    {
      if j >= |before| {
        assert rows[j] == created[j - |before|];
        if i >= |before| {
          assert rows[i] == created[i - |before|];
        }
      }
    }
  }

  /** The rows an upload records take the ids from `firstId` up. */
  lemma UploadsKeepIds(before: seq<ApplicationDocument>, applicationId: int, firstId: int, files: seq<UploadFile>,
                       parsed: seq<Option<DocumentType>>, uuids: seq<string>, now: DateTime, n: nat)
    requires n <= |files| && n <= |parsed| && n <= |uuids|
    requires forall k :: 0 <= k < n ==> parsed[k].Some?
    requires firstId >= 1 && ApplicationDocumentCrud.IdsBelow(before, firstId)
    ensures ApplicationDocumentCrud.IdsBelow(before + Uploads(applicationId, firstId, files, parsed, uuids, now, n),
                                             firstId + n)
  {
    AppendedRowsKeepIds(before, firstId, Uploads(applicationId, firstId, files, parsed, uuids, now, n));
  }

  /** The loop of `upload_documents`: files are recorded in order until the
      first type that does not parse. */
  method RecordUntilInvalid(table: DocumentTable, applicationId: int, files: seq<UploadFile>,
                            parsed: seq<Option<DocumentType>>, uuids: seq<string>, now: DateTime)
    returns (created: seq<ApplicationDocument>)
    requires table.Valid()
    requires |parsed| == |files| && |uuids| == |files|
    modifies table
    ensures table.Valid()
    ensures created == Uploads(applicationId, old(table.nextId), files, parsed, uuids, now, RecordedCount(parsed))
    ensures table.rows == old(table.rows) + created
  {
    ghost var before := table.rows;
    ghost var firstId := table.nextId;
    created := [];
    var k := 0;
    while k < |files| && parsed[k].Some?
      invariant k <= |files|
      invariant forall j :: 0 <= j < k ==> parsed[j].Some?
      invariant created == Uploads(applicationId, firstId, files, parsed, uuids, now, k)
      invariant table.rows == before + created && table.nextId == firstId + k
    {
      UploadsKeepIds(before, applicationId, firstId, files, parsed, uuids, now, k);
      UploadsStep(applicationId, firstId, files, parsed, uuids, now, k);
      var d := RecordUpload(table, applicationId, files[k], parsed[k].value, uuids[k], now);
      assert d == UploadedDocument(applicationId, firstId + k, files[k], parsed[k].value, uuids[k], now);
      created := created + [d];
      k := k + 1;
    }
    UploadsKeepIds(before, applicationId, firstId, files, parsed, uuids, now, k);
    RecordedCountIs(parsed, k);
  }

  /** `upload_documents` once the counts agree: 400 for the first type that
      does not parse, with the files before it recorded. */
  method RecordUploads(table: DocumentTable, applicationId: int, files: seq<UploadFile>, documentTypes: seq<string>,
                       uuids: seq<string>, now: DateTime)
    returns (r: Result<seq<ApplicationDocument>, HttpError>)
    requires table.Valid()
    requires |documentTypes| == |files| && |uuids| == |files|
    modifies table
    ensures table.Valid()
    ensures table.rows == old(table.rows) + Uploads(applicationId, old(table.nextId), files, ParsedTypes(documentTypes),
                                                    uuids, now, RecordedCount(ParsedTypes(documentTypes)))
    ensures r.Ok? <==> FirstInvalidType(documentTypes).None?
    ensures r.Ok? ==> r.value == Uploads(applicationId, old(table.nextId), files, ParsedTypes(documentTypes), uuids, now,
                                         |files|)
    ensures r.Err? ==> r.error == BadDocumentType(documentTypes[FirstInvalidType(documentTypes).value])
  {
    var created := RecordUntilInvalid(table, applicationId, files, ParsedTypes(documentTypes), uuids, now);
    var bad := FirstInvalidType(documentTypes);
    if bad.Some? {
      r := Err(BadDocumentType(documentTypes[bad.value]));
    } else {
      r := Ok(created);
    }
  }

  /** `POST /applications/{application_id}/documents`. Each file is stored under
      a fresh name (`uuids[k]` for the k-th) and recorded as it goes; a type
      that does not parse stops the loop with 400, leaving the rows already
      recorded in place. */
  method UploadDocuments(table: DocumentTable, apps: seq<CompanyApplication>, caller: Caller, applicationId: int,
                         files: seq<UploadFile>, documentTypes: seq<string>, uuids: seq<string>, now: DateTime)
    returns (r: Result<seq<ApplicationDocument>, HttpError>)
    requires table.Valid()
    requires |uuids| == |files|
    modifies table
    ensures table.Valid()
    ensures Authorize(apps, caller, applicationId).Some? ==>
              r == Err(Authorize(apps, caller, applicationId).value) && table.rows == old(table.rows)
    ensures Authorize(apps, caller, applicationId).None? && |files| != |documentTypes| ==>
              r == Err(CountMismatch) && table.rows == old(table.rows)
    ensures Authorize(apps, caller, applicationId).None? && |files| == |documentTypes| ==>
              table.rows == old(table.rows) + Uploads(applicationId, old(table.nextId), files,
                                                      ParsedTypes(documentTypes), uuids, now,
                                                      RecordedCount(ParsedTypes(documentTypes)))
              && (r.Ok? <==> FirstInvalidType(documentTypes).None?)
              && (r.Ok? ==> r.value == Uploads(applicationId, old(table.nextId), files, ParsedTypes(documentTypes),
                                               uuids, now, |files|))
              && (r.Err? ==> r.error == BadDocumentType(documentTypes[FirstInvalidType(documentTypes).value]))
  {
    var guard := Authorize(apps, caller, applicationId);
    if guard.Some? {
      return Err(guard.value);
    }
    if |files| != |documentTypes| {
      return Err(CountMismatch);
    }
    r := RecordUploads(table, applicationId, files, documentTypes, uuids, now);
  }

  /** The MIME table of the view endpoint, by lower-cased extension. */
  const MediaTypes: map<string, string> := map[
    "pdf" := "application/pdf",
    "jpg" := "image/jpeg",
    "jpeg" := "image/jpeg",
    "png" := "image/png",
    "gif" := "image/gif",
    "txt" := "text/plain",
    "doc" := "application/msword",
    "docx" := "application/vnd.openxmlformats-officedocument.wordprocessingml.document",
    "xls" := "application/vnd.ms-excel",
    "xlsx" := "application/vnd.openxmlformats-officedocument.spreadsheetml.sheet"
  ]

  /** The media type for a stored file name: the table entry of the lower-cased
      text after its last '.', or `application/octet-stream`. */
  function MediaTypeFor(fileName: string): (r: string)
    ensures r == OctetStream || r in MediaTypes.Values
    ensures Lower(AfterLast(fileName, '.')) !in MediaTypes ==> r == OctetStream
  {
    var extension := Lower(AfterLast(fileName, '.'));
    if extension in MediaTypes then MediaTypes[extension] else OctetStream
  }

  /** The media type of a name is looked up by the lower-cased text after
      its last '.'. */
  lemma MediaTypeOfJoin(stem: string, ext: string)
    requires '.' !in ext
    ensures MediaTypeFor(stem + "." + ext) == if Lower(ext) in MediaTypes then MediaTypes[Lower(ext)] else OctetStream
  {
    AfterLastOfJoin(stem, ext);
  }

  /** `document.original_name or document.file_name`. */
  function DisplayName(d: ApplicationDocument): (r: string)
    ensures d.originalName.Some? && d.originalName.value != "" ==> r == d.originalName.value
    ensures d.originalName.None? || d.originalName.value == "" ==> r == d.fileName
  {
    if d.originalName.Some? && d.originalName.value != "" then d.originalName.value else d.fileName
  }

  /** A file the download and view endpoints answer with. */
  datatype FileAnswer = FileAnswer(path: string, fileName: string, mediaType: string)

  /** `get_application_document` scoped to the application. */
  function DocumentIn(docs: seq<ApplicationDocument>, applicationId: int, documentId: int)
    : (r: Option<ApplicationDocument>)
    ensures r.Some? ==> r.value in docs && r.value.id == documentId && r.value.applicationId == applicationId
  {
    match FindFirst(docs, (d: ApplicationDocument) => d.id == documentId)
    case None => None
    case Some(i) => if docs[i].applicationId == applicationId then Some(docs[i]) else None
  }

  /** The checks shared by download and view, then the file. `fileExists` is
      what `os.path.exists` reports. */
  function ServedDocument(apps: seq<CompanyApplication>, docs: seq<ApplicationDocument>, caller: Caller,
                          applicationId: int, documentId: int, fileExists: string -> bool)
    : (r: Result<ApplicationDocument, HttpError>)
    ensures Authorize(apps, caller, applicationId).Some? ==> r == Err(Authorize(apps, caller, applicationId).value)
    ensures Authorize(apps, caller, applicationId).None? && DocumentIn(docs, applicationId, documentId).None? ==>
              r == Err(DocumentNotFound)
    ensures r.Ok? ==> Authorize(apps, caller, applicationId).None?
                      && Some(r.value) == DocumentIn(docs, applicationId, documentId) && fileExists(r.value.filePath)
    ensures r.Err? && r.error == FileMissing ==> !fileExists(DocumentIn(docs, applicationId, documentId).value.filePath)
  {
    if Authorize(apps, caller, applicationId).Some? then Err(Authorize(apps, caller, applicationId).value)
    else match DocumentIn(docs, applicationId, documentId)
      case None => Err(DocumentNotFound)
      case Some(d) => if !fileExists(d.filePath) then Err(FileMissing) else Ok(d)
  }

  /** `GET …/download`: always `application/octet-stream`. */
  function DownloadDocument(apps: seq<CompanyApplication>, docs: seq<ApplicationDocument>, caller: Caller,
                            applicationId: int, documentId: int, fileExists: string -> bool)
    : (r: Result<FileAnswer, HttpError>)
    ensures r.Err? <==> ServedDocument(apps, docs, caller, applicationId, documentId, fileExists).Err?
    ensures r.Ok? ==>
              var d := ServedDocument(apps, docs, caller, applicationId, documentId, fileExists).value;
              r.value == FileAnswer(d.filePath, DisplayName(d), OctetStream)
  {
    match ServedDocument(apps, docs, caller, applicationId, documentId, fileExists)
    case Err(e) => Err(e)
    case Ok(d) => Ok(FileAnswer(d.filePath, DisplayName(d), OctetStream))
  }

  /** `GET …/view`: the media type comes from the stored file name. */
  function ViewDocument(apps: seq<CompanyApplication>, docs: seq<ApplicationDocument>, caller: Caller,
                        applicationId: int, documentId: int, fileExists: string -> bool)
    : (r: Result<FileAnswer, HttpError>)
    ensures r.Err? <==> ServedDocument(apps, docs, caller, applicationId, documentId, fileExists).Err?
    ensures r.Ok? ==>
              var d := ServedDocument(apps, docs, caller, applicationId, documentId, fileExists).value;
              r.value == FileAnswer(d.filePath, DisplayName(d), MediaTypeFor(d.fileName))
  {
    match ServedDocument(apps, docs, caller, applicationId, documentId, fileExists)
    case Err(e) => Err(e)
    case Ok(d) => Ok(FileAnswer(d.filePath, DisplayName(d), MediaTypeFor(d.fileName)))
  }

  /** An uploaded file is viewed with the type of its original extension. */
  lemma UploadedViewType(applicationId: int, id: int, file: UploadFile, t: DocumentType, uuid: string,
                         now: DateTime)
    requires '.' !in uuid && '.' in file.fileName && AfterLast(file.fileName, '.') != ""
    ensures MediaTypeFor(UploadedDocument(applicationId, id, file, t, uuid, now).fileName) == MediaTypeFor(file.fileName)
    ensures DisplayName(UploadedDocument(applicationId, id, file, t, uuid, now)) == file.fileName
  {
    StoredNameKeepsExtension(uuid, file.fileName);
  }

  /** `DELETE /applications/{aid}/documents/{did}`. */
  method DeleteDocument(table: DocumentTable, apps: seq<CompanyApplication>, caller: Caller,
                        applicationId: int, documentId: int)
    returns (r: Option<HttpError>)
    requires table.Valid()
    modifies table
    ensures table.Valid()
    ensures Authorize(apps, caller, applicationId).Some? ==>
              r == Authorize(apps, caller, applicationId) && table.rows == old(table.rows)
    ensures Authorize(apps, caller, applicationId).None? ==>
              table.rows == DeleteFirst(old(table.rows), ApplicationDocumentCrud.Scoped(documentId, applicationId))
              && (r.None? <==> FindFirst(old(table.rows), ApplicationDocumentCrud.Scoped(documentId, applicationId)).Some?)
              && (r.Some? ==> r.value == DocumentNotFound)
  {
    r := Authorize(apps, caller, applicationId);
    if r.Some? {
      return;
    }
    var ok := table.Delete(documentId, applicationId);
    if !ok {
      r := Some(DocumentNotFound);
    }
  }

  // ---------------------------------------------------------------------------
  // Applications

  /** `CompanyApplicationCreate`. */
  datatype ApplicationCreate = ApplicationCreate(companyName: string, position: string, applicationDate: DateTime)

  /** `POST /applications/`: a token without a user id fails the NOT NULL
      owner column, which the handler turns into 500. */
  method CreateApplication(table: ApplicationTable, caller: Caller, create: ApplicationCreate, now: DateTime)
    returns (r: Result<CompanyApplication, HttpError>)
    requires table.Valid()
    modifies table
    ensures table.Valid()
    ensures caller.userType != Some("personal") ==> r == Err(PersonalOnly) && table.rows == old(table.rows)
    ensures caller.userType == Some("personal") && caller.userId.None? ==>
              r == Err(CreateFailed) && table.rows == old(table.rows)
    ensures r.Ok? <==> caller.userType == Some("personal") && caller.userId.Some?
    ensures r.Ok? ==> r.value == CompanyApplication(old(table.nextId), caller.userId.value, create.companyName,
                                                    create.position, create.applicationDate, PreparingDocuments,
                                                    now, now)
                      && Owns(caller, r.value) && table.rows == old(table.rows) + [r.value]
    ensures r.Err? ==> table.rows == old(table.rows)
  {
    if caller.userType != Some("personal") {
      return Err(PersonalOnly);
    }
    if caller.userId.None? {
      return Err(CreateFailed);
    }
    var a := table.Create(create.companyName, create.position, create.applicationDate, caller.userId.value, now);
    return Ok(a);
  }

  /** `PUT /applications/{application_id}`. */
  method UpdateApplication(table: ApplicationTable, caller: Caller, applicationId: int,
                           fs: seq<ApplicationField>, now: DateTime)
    returns (r: Result<CompanyApplication, HttpError>)
    requires table.Valid()
    modifies table
    ensures table.Valid()
    ensures caller.userType != Some("personal") ==> r == Err(PersonalOnly) && table.rows == old(table.rows)
    ensures caller.userType == Some("personal") && caller.userId.None? ==>
              r == Err(ApplicationNotFound) && table.rows == old(table.rows)
    ensures caller.userType == Some("personal") && caller.userId.Some? ==>
              table.rows == CompanyApplicationCrud.Updated(old(table.rows), applicationId, caller.userId.value, fs, now)
              && (r.Ok? <==> exists k :: 0 <= k < |old(table.rows)| && old(table.rows)[k].id == applicationId
                                         && Owns(caller, old(table.rows)[k]))
              && (r.Err? ==> r.error == ApplicationNotFound)
  {
    if caller.userType != Some("personal") {
      return Err(PersonalOnly);
    }
    if caller.userId.None? {
      return Err(ApplicationNotFound);
    }
    var updated := table.Update(applicationId, caller.userId.value, fs, now);
    if updated.None? {
      return Err(ApplicationNotFound);
    }
    return Ok(updated.value);
  }

  /** `DELETE /applications/{application_id}`: the application goes, and with
      it, through the relationship cascade, its documents and schedules; a
      review written about it stays, with its `application_id` set to NULL
      and its `updated_at` moved to `now`. */
  method DeleteApplication(apps: ApplicationTable, docs: DocumentTable, schedules: ScheduleTable,
                           reviews: JobReviewCrud.ReviewStore, caller: Caller, applicationId: int, now: DateTime)
    returns (r: Option<HttpError>)
    requires apps.Valid() && docs.Valid() && schedules.Valid() && reviews.Valid()
    modifies apps, docs, schedules, reviews
    ensures apps.Valid() && docs.Valid() && schedules.Valid() && reviews.Valid()
    ensures r.None? <==> caller.userType == Some("personal") && caller.userId.Some?
                         && exists k :: 0 <= k < |old(apps.rows)| && old(apps.rows)[k].id == applicationId
                                        && Owns(caller, old(apps.rows)[k])
    ensures r.Some? ==> r == RequirePersonal(caller) || r == Some(ApplicationNotFound)
    ensures r.Some? ==> apps.rows == old(apps.rows) && docs.rows == old(docs.rows) && schedules.rows == old(schedules.rows)
                        && reviews.reviews == old(reviews.reviews)
    ensures r.None? ==>
              apps.rows == DeleteFirst(old(apps.rows), Owned(applicationId, caller.userId.value))
              && docs.rows == Filter(old(docs.rows), (d: ApplicationDocument) => d.applicationId != applicationId)
              && schedules.rows == Filter(old(schedules.rows), (s: ApplicationSchedule) => s.applicationId != applicationId)
              && reviews.reviews == JobReviewCrud.Detached(old(reviews.reviews), applicationId, now)
    ensures reviews.positions == old(reviews.positions) && reviews.questions == old(reviews.questions)
  {
    r := RequirePersonal(caller);
    if r.Some? {
      return;
    }
    if caller.userId.None? {
      return Some(ApplicationNotFound);
    }
    var ok := apps.Delete(applicationId, caller.userId.value);
    if !ok {
      return Some(ApplicationNotFound);
    }
    docs.DeleteForApplication(applicationId);
    schedules.DeleteForApplication(applicationId);
    reviews.DetachApplication(applicationId, now);
  }

  // ---------------------------------------------------------------------------
  // Schedules

  /** `ApplicationScheduleCreate`. */
  datatype ScheduleCreate = ScheduleCreate(scheduleType: ScheduleType, startDate: DateTime, endDate: DateTime,
                                           notes: Option<string>)

  /** `POST /applications/{application_id}/schedules`: one row per item, in order. */
  method CreateSchedules(table: ScheduleTable, apps: seq<CompanyApplication>, caller: Caller, applicationId: int,
                         items: seq<ScheduleCreate>, now: DateTime)
    returns (r: Result<seq<ApplicationSchedule>, HttpError>)
    requires table.Valid()
    modifies table
    ensures table.Valid()
    ensures Authorize(apps, caller, applicationId).Some? ==>
              r == Err(Authorize(apps, caller, applicationId).value)
    ensures Authorize(apps, caller, applicationId).None? && items == [] ==> r == Err(NoSchedules)
    ensures r.Err? ==> table.rows == old(table.rows)
    ensures r.Ok? <==> Authorize(apps, caller, applicationId).None? && items != []
    ensures r.Ok? ==> |r.value| == |items| && table.rows == old(table.rows) + r.value
                      && forall k :: 0 <= k < |items| ==>
                           r.value[k] == ApplicationSchedule(old(table.nextId) + k, applicationId, items[k].scheduleType,
                                                             items[k].startDate, items[k].endDate, items[k].notes,
                                                             false, now, now)
  {
    var guard := Authorize(apps, caller, applicationId);
    if guard.Some? {
      return Err(guard.value);
    }
    if items == [] {
      return Err(NoSchedules);
    }
    ghost var before := table.rows;
    ghost var firstId := table.nextId;
    var created: seq<ApplicationSchedule> := [];
    for k := 0 to |items|
      invariant table.Valid()
      invariant |created| == k && table.rows == before + created && table.nextId == firstId + k
      invariant forall j :: 0 <= j < k ==>
                  created[j] == ApplicationSchedule(firstId + j, applicationId, items[j].scheduleType,
                                                    items[j].startDate, items[j].endDate, items[j].notes,
                                                    false, now, now)
    {
      var s := table.Create(items[k].scheduleType, items[k].startDate, items[k].endDate, items[k].notes,
                            applicationId, now);
      created := created + [s];
    }
    return Ok(created);
  }

  /** `ApplicationScheduleListResponse`. */
  datatype ScheduleList = ScheduleList(totalCount: int, schedules: seq<ApplicationSchedule>)

  /** `GET /applications/{application_id}/schedules`. */
  function ScheduleListOf(rows: seq<ApplicationSchedule>, apps: seq<CompanyApplication>, caller: Caller,
                          applicationId: int)
    : (r: Result<ScheduleList, HttpError>)
    ensures r.Err? <==> Authorize(apps, caller, applicationId).Some?
    ensures r.Ok? ==> r.value.totalCount == |r.value.schedules|
                      && multiset(r.value.schedules) ==
                         multiset(Filter(rows, OfApplication(applicationId)))
                      && forall i, j :: 0 <= i < j < |r.value.schedules| ==>
                           InstantKey(r.value.schedules[i].startDate) <= InstantKey(r.value.schedules[j].startDate)
  {
    if Authorize(apps, caller, applicationId).Some? then Err(Authorize(apps, caller, applicationId).value)
    else
      var ss := ApplicationSchedules(rows, applicationId);
      Ok(ScheduleList(|ss|, ss))
  }

  /** `PUT /applications/{aid}/schedules/{sid}`. */
  method UpdateSchedule(table: ScheduleTable, apps: seq<CompanyApplication>, caller: Caller, applicationId: int,
                        scheduleId: int, fs: seq<ScheduleField>, now: DateTime)
    returns (r: Result<ApplicationSchedule, HttpError>)
    requires table.Valid()
    modifies table
    ensures table.Valid()
    ensures Authorize(apps, caller, applicationId).Some? ==>
              r == Err(Authorize(apps, caller, applicationId).value) && table.rows == old(table.rows)
    ensures Authorize(apps, caller, applicationId).None? ==>
              table.rows == ApplicationScheduleCrud.Updated(old(table.rows), scheduleId, applicationId, fs, now)
              && (r.Ok? <==> FindFirst(old(table.rows), ApplicationScheduleCrud.Scoped(scheduleId, applicationId)).Some?)
              && (r.Err? ==> r.error == ScheduleNotFound)
  {
    var guard := Authorize(apps, caller, applicationId);
    if guard.Some? {
      return Err(guard.value);
    }
    var updated := table.Update(scheduleId, applicationId, fs, now);
    if updated.None? {
      return Err(ScheduleNotFound);
    }
    return Ok(updated.value);
  }

  /** `PATCH /applications/{aid}/schedules/{sid}/complete`. */
  method CompleteSchedule(table: ScheduleTable, apps: seq<CompanyApplication>, caller: Caller, applicationId: int,
                          scheduleId: int, now: DateTime)
    returns (r: Result<ApplicationSchedule, HttpError>)
    requires table.Valid()
    modifies table
    ensures table.Valid()
    ensures Authorize(apps, caller, applicationId).Some? ==>
              r == Err(Authorize(apps, caller, applicationId).value) && table.rows == old(table.rows)
    ensures Authorize(apps, caller, applicationId).None? ==>
              table.rows == CompletedRows(old(table.rows), scheduleId, applicationId, true, now)
              && (r.Ok? <==> FindFirst(old(table.rows), ApplicationScheduleCrud.Scoped(scheduleId, applicationId)).Some?)
              && (r.Ok? ==> r.value.isCompleted)
              && (r.Ok? ==>
                    var i := FindFirst(old(table.rows), ApplicationScheduleCrud.Scoped(scheduleId, applicationId)).value;
                    r.value == Completed(old(table.rows)[i], true, now))
              && (r.Err? ==> r.error == ScheduleNotFound)
  {
    var guard := Authorize(apps, caller, applicationId);
    if guard.Some? {
      return Err(guard.value);
    }
    var done := table.MarkCompleted(scheduleId, applicationId, true, now);
    if done.None? {
      return Err(ScheduleNotFound);
    }
    return Ok(done.value);
  }

  /** `DELETE /applications/{aid}/schedules/{sid}`. */
  method DeleteSchedule(table: ScheduleTable, apps: seq<CompanyApplication>, caller: Caller, applicationId: int,
                        scheduleId: int)
    returns (r: Option<HttpError>)
    requires table.Valid()
    modifies table
    ensures table.Valid()
    ensures Authorize(apps, caller, applicationId).Some? ==>
              r == Authorize(apps, caller, applicationId) && table.rows == old(table.rows)
    ensures Authorize(apps, caller, applicationId).None? ==>
              table.rows == DeleteFirst(old(table.rows), ApplicationScheduleCrud.Scoped(scheduleId, applicationId))
              && (r.None? <==> FindFirst(old(table.rows), ApplicationScheduleCrud.Scoped(scheduleId, applicationId)).Some?)
              && (r.Some? ==> r.value == ScheduleNotFound)
  {
    r := Authorize(apps, caller, applicationId);
    if r.Some? {
      return;
    }
    var ok := table.Delete(scheduleId, applicationId);
    if !ok {
      r := Some(ScheduleNotFound);
    }
  }
}
