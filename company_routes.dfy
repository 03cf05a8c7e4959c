/** The `/company` endpoints: the random profile list, and creating, listing
    and cancelling the likes of the caller's company. */
module CompanyRoutes {

  import opened Common
  import opened Models
  import opened Text
  import opened CompanyCrud

  const CompanyOnly := HttpError(403, "회사 직원만 접근할 수 있습니다.")
  const TooManyUsers := HttpError(400, "최대 6명까지만 조회할 수 있습니다.")
  const UserMissing := HttpError(404, "사용자 정보를 찾을 수 없습니다.")
  const PageTooSmall := HttpError(400, "페이지 번호는 1 이상이어야 합니다.")
  const TooManyLikes := HttpError(400, "최대 24개까지만 조회할 수 있습니다.")
  const LikeNotFound := HttpError(404, "찜 정보를 찾을 수 없거나 삭제 권한이 없습니다.")
  const LikeCreatedMessage := "찜하기가 완료되었습니다."
  const LikeCancelledMessage := "찜이 취소되었습니다."
  const MaxRandomUsers := 6
  const MaxLikesPerPage := 24

  function PageOutOfRange(totalPages: int): HttpError {
    HttpError(400, "페이지 번호가 범위를 벗어났습니다. (최대: " + IntToString(totalPages) + ")")
  }

  /** The first check of every endpoint, `not user_id or user_type !=
      "company"`: an absent and an empty user id both fail. */
  function RequireCompany(caller: Caller): (r: Option<HttpError>)
    ensures r.None? <==> caller.userId.Some? && caller.userId.value != "" && caller.userType == Some("company")
    ensures r.Some? ==> r.value == CompanyOnly
  {
    if caller.userId.None? || caller.userId.value == "" || caller.userType != Some("company") then Some(CompanyOnly)
    else None
  }

  /** `PersonalUserListResponse`. */
  datatype PersonalUserList = PersonalUserList(users: seq<PersonalUserCard>, totalCount: int)

  /** `GET /company/personal-users/random`: at most 6 may be asked for; a
      negative limit passes the route's check and is refused by the
      database (`LIMIT -1`). `picked` is the database's random draw. */
  method RandomPersonalUsersList(d: Directory, caller: Caller, limit: int, picked: seq<PersonalUser>, today: Date)
    returns (r: Result<PersonalUserList, HttpError>)
    requires limit >= 0 ==> IsDraw(PersonalCandidates(d), picked, limit)
    ensures RequireCompany(caller).Some? ==> r == Err(CompanyOnly)
    ensures RequireCompany(caller).None? && limit > MaxRandomUsers ==> r == Err(TooManyUsers)
    ensures RequireCompany(caller).None? && limit < 0 ==> r == Err(InternalServerError)
    ensures r.Ok? <==> RequireCompany(caller).None? && 0 <= limit <= MaxRandomUsers
    ensures r.Ok? ==> r.value.users == Cards(d, picked, today) && r.value.totalCount == |PersonalCandidates(d)|
    ensures r.Ok? ==> |r.value.users| <= limit && |r.value.users| <= r.value.totalCount
    ensures r.Ok? ==> forall i, j :: 0 <= i < j < |r.value.users| ==> r.value.users[i].userId != r.value.users[j].userId
  {
    if RequireCompany(caller).Some? {
      return Err(CompanyOnly);
    }
    if limit > MaxRandomUsers {
      return Err(TooManyUsers);
    }
    if limit < 0 {
      return Err(InternalServerError);
    }
    var users := RandomPersonalUsersWithDetails(d, picked, today);
    DrawFitsCandidates(PersonalCandidates(d), picked);
    r := Ok(PersonalUserList(users, |PersonalCandidates(d)|));
  }

  /** `CompanyLikeCreate`. */
  datatype LikeRequest = LikeRequest(
    targetUserId: string, message: string, contactEmail: Option<string>, contactPhone: Option<string>,
    suggestedPosition: Option<string>)

  /** The answer to a created like. */
  datatype LikeCreated = LikeCreated(message: string, likeId: int)

  /** The caller's `users` row, whose name signs the like. */
  function CurrentUser(users: seq<User>, userId: string): (r: Option<User>)
    ensures r.None? <==> forall k :: 0 <= k < |users| ==> users[k].userId != userId
    ensures r.Some? ==> r.value in users && r.value.userId == userId
  {
    match FindFirst(users, (u: User) => u.userId == userId)
    case Some(i) => Some(users[i])
    case None => None
  }

  /** `POST /company/likes`: the company guard, then the caller's user row
      (404), then `create_company_like`, whose `ValueError` becomes a 400
      carrying its message. */
  method CreateLike(d: Directory, likes: LikeTable, caller: Caller, body: LikeRequest, now: DateTime)
    returns (r: Result<LikeCreated, HttpError>)
    requires likes.Valid()
    modifies likes
    ensures likes.Valid()
    ensures r.Err? ==> likes.rows == old(likes.rows) && likes.nextId == old(likes.nextId)
    ensures RequireCompany(caller).Some? ==> r == Err(CompanyOnly)
    ensures RequireCompany(caller).None? && CurrentUser(d.users, caller.userId.value).None? ==> r == Err(UserMissing)
    ensures RequireCompany(caller).None? && CurrentUser(d.users, caller.userId.value).Some? ==>
              var error := LikeError(d, old(likes.rows), caller.userId.value, body.targetUserId);
              (r.Err? <==> error.Some?) && (r.Err? ==> r.error == HttpError(400, error.value))
    ensures r.Ok? ==>
              r.value == LikeCreated(LikeCreatedMessage, old(likes.nextId))
              && |likes.rows| == |old(likes.rows)| + 1 && likes.rows[..|old(likes.rows)|] == old(likes.rows)
              && var l := likes.rows[|old(likes.rows)|];
                 EmployerOf(d, caller.userId.value) == Some(l.companyId) && CompanyExists(d, l.companyId)
                 && l == CompanyLike(old(likes.nextId), l.companyId, body.targetUserId, body.message,
                                     body.contactEmail, body.contactPhone, body.suggestedPosition,
                                     CompanyNameOf(d, l.companyId),
                                     CurrentUser(d.users, caller.userId.value).value.name, Some(now))
  {
    if RequireCompany(caller).Some? {
      return Err(CompanyOnly);
    }
    var userId := caller.userId.value;
    var current := CurrentUser(d.users, userId);
    if current.None? {
      return Err(UserMissing);
    }
    var created := likes.Create(d, userId, body.targetUserId, body.message, body.contactEmail, body.contactPhone,
                                body.suggestedPosition, current.value.name, now);
    match created
    case Err(message) =>
      r := Err(HttpError(400, message));
    case Ok(l) =>
      assert likes.rows[..|old(likes.rows)|] == old(likes.rows);
      r := Ok(LikeCreated(LikeCreatedMessage, l.id));
  }

  /** `CompanyLikeListResponse`. */
  datatype LikeList = LikeList(likes: seq<LikeView>, totalCount: int, pageSize: int, currentPage: int, totalPages: int)

  /** `(total + limit - 1) // limit if total > 0 else 1`; `None` where this
      divides by zero. */
  function TotalPages(total: nat, limit: int): (r: Option<int>)
    ensures r.None? <==> total > 0 && limit == 0
    ensures total == 0 ==> r == Some(1)
    ensures total > 0 && limit >= 1 ==> r == Some(PageCount(total, limit))
  {
    if total == 0 then Some(1)
    else if limit == 0 then None
    else Some(FloorDiv(total + limit - 1, limit))
  }

  /** What `GET /company/likes` answers, check by check: the company guard,
      page < 1, limit > 24; then the page of likes (a negative LIMIT is
      refused by the database, and is never sent for a caller without a
      company), the count, the page count (a division by zero when the
      limit is 0 and there are likes), and the range check on the page. */
  function LikesListAnswer(d: Directory, rows: seq<CompanyLike>, caller: Caller, page: int, limit: int)
    : (r: Result<LikeList, HttpError>)
    ensures RequireCompany(caller).Some? ==> r == Err(CompanyOnly)
    ensures RequireCompany(caller).None? && page < 1 ==> r == Err(PageTooSmall)
    ensures RequireCompany(caller).None? && page >= 1 && limit > MaxLikesPerPage ==> r == Err(TooManyLikes)
    ensures RequireCompany(caller).None? && page >= 1 && limit <= MaxLikesPerPage ==>
              var userId := caller.userId.value;
              var total := CompanyLikeCount(d, rows, userId);
              (EmployerOf(d, userId).Some? && limit < 0 ==> r == Err(InternalServerError))
              && (total > 0 && limit == 0 ==> r == Err(InternalServerError))
              && (total > 0 && limit >= 1 && page > PageCount(total, limit) ==>
                    r == Err(PageOutOfRange(PageCount(total, limit))))
              && (r.Ok? <==> !(EmployerOf(d, userId).Some? && limit < 0)
                             && (total == 0 || (limit >= 1 && page <= PageCount(total, limit))))
    ensures r.Ok? ==> RequireCompany(caller).None? && page >= 1 && limit <= MaxLikesPerPage
  {
    if RequireCompany(caller).Some? then Err(CompanyOnly)
    else if page < 1 then Err(PageTooSmall)
    else if limit > MaxLikesPerPage then Err(TooManyLikes)
    else
      var userId := caller.userId.value;
      if EmployerOf(d, userId).Some? && limit < 0 then Err(InternalServerError)
      else
        var likes := if limit < 0 then [] else LikeViews(d.users, CompanyLikeRows(d, rows, userId, limit, PageOffset(page, limit)));
        var total := CompanyLikeCount(d, rows, userId);
        match TotalPages(total, limit)
        case None => Err(InternalServerError)
        case Some(totalPages) =>
          if page > totalPages && total > 0 then Err(PageOutOfRange(totalPages))
          else Ok(LikeList(likes, total, limit, page, totalPages))
  }

  /** An accepted listing echoes the page and the limit, counts the
      company's likes, and shows the requested window of them. */
  lemma AcceptedListing(d: Directory, rows: seq<CompanyLike>, caller: Caller, page: int, limit: int)
    requires LikesListAnswer(d, rows, caller, page, limit).Ok?
    ensures RequireCompany(caller).None? && 1 <= page && limit <= MaxLikesPerPage
    ensures var v := LikesListAnswer(d, rows, caller, page, limit).value;
            var userId := caller.userId.value;
            var total := CompanyLikeCount(d, rows, userId);
            v.totalCount == total && v.pageSize == limit && v.currentPage == page
            && (total > 0 ==> limit >= 1 && v.totalPages == PageCount(total, limit) && page <= v.totalPages)
            && (total == 0 ==> v.totalPages == 1 && v.likes == [])
            && (limit >= 0 ==> v.likes == LikeViews(d.users, CompanyLikeRows(d, rows, userId, limit, PageOffset(page, limit))))
  {
    var total := CompanyLikeCount(d, rows, caller.userId.value);
    if total == 0 && limit >= 0 {
      assert |CompanyLikeRows(d, rows, caller.userId.value, limit, PageOffset(page, limit))| == 0;
    }
  }

  /** Every page the listing accepts while the company has likes holds at
      least one like, and the pages cover all of them. */
  lemma AcceptedPageIsNotEmpty(d: Directory, rows: seq<CompanyLike>, caller: Caller, page: int, limit: int)
    requires LikesListAnswer(d, rows, caller, page, limit).Ok?
    requires CompanyLikeCount(d, rows, caller.userId.value) > 0
    ensures var v := LikesListAnswer(d, rows, caller, page, limit).value;
            1 <= |v.likes| <= limit && v.totalPages * limit >= v.totalCount
  {
    AcceptedListing(d, rows, caller, page, limit);
    PageInRangeIsNotEmpty(d, rows, caller.userId.value, limit, page);
  }

  /** A company without likes gets the one empty first page, whatever
      non-negative limit it asks for. */
  lemma NoLikesOnePage(d: Directory, rows: seq<CompanyLike>, caller: Caller, limit: int)
    requires RequireCompany(caller).None? && 0 <= limit <= MaxLikesPerPage
    requires CompanyLikeCount(d, rows, caller.userId.value) == 0
    ensures LikesListAnswer(d, rows, caller, 1, limit) == Ok(LikeList([], 0, limit, 1, 1))
  {
    var shown := CompanyLikeRows(d, rows, caller.userId.value, limit, 0);
    assert |shown| == 0;
  }

  /** The limit 0 fails with a server error once the company has likes. */
  lemma ZeroLimitFails(d: Directory, rows: seq<CompanyLike>, caller: Caller, page: int)
    requires RequireCompany(caller).None? && page >= 1
    requires CompanyLikeCount(d, rows, caller.userId.value) > 0
    ensures LikesListAnswer(d, rows, caller, page, 0) == Err(InternalServerError)
  {
  }

  /** `GET /company/likes`. */
  method LikesList(d: Directory, likes: LikeTable, caller: Caller, page: int, limit: int)
    returns (r: Result<LikeList, HttpError>)
    ensures r == LikesListAnswer(d, likes.rows, caller, page, limit)
  {
    if RequireCompany(caller).Some? {
      return Err(CompanyOnly);
    }
    if page < 1 {
      return Err(PageTooSmall);
    }
    if limit > MaxLikesPerPage {
      return Err(TooManyLikes);
    }
    var userId := caller.userId.value;
    var likesData: seq<LikeView> := [];
    if limit >= 0 {
      likesData := likes.CompanyLikes(d, userId, limit, PageOffset(page, limit));
    } else if EmployerOf(d, userId).Some? {
      return Err(InternalServerError);
    }
    var total := CompanyLikeCount(d, likes.rows, userId);
    var pages := TotalPages(total, limit);
    if pages.None? {
      return Err(InternalServerError);
    }
    var totalPages := pages.value;
    if page > totalPages && total > 0 {
      return Err(PageOutOfRange(totalPages));
    }
    r := Ok(LikeList(likesData, total, limit, page, totalPages));
  }

  /** `DELETE /company/likes/{like_id}`: 404 unless the like exists and
      belongs to the caller's company. */
  method DeleteLike(d: Directory, likes: LikeTable, caller: Caller, likeId: int) returns (r: Result<string, HttpError>)
    requires likes.Valid()
    modifies likes
    ensures likes.Valid() && likes.nextId == old(likes.nextId)
    ensures RequireCompany(caller).Some? ==> r == Err(CompanyOnly)
    ensures RequireCompany(caller).None? ==>
              (r.Ok? <==> EmployerOf(d, caller.userId.value).Some?
                          && exists k :: 0 <= k < |old(likes.rows)| && old(likes.rows)[k].id == likeId
                                         && old(likes.rows)[k].companyId == EmployerOf(d, caller.userId.value).value)
              && (r.Err? ==> r.error == LikeNotFound)
    ensures r.Err? ==> likes.rows == old(likes.rows)
    ensures r.Ok? ==> r.value == LikeCancelledMessage
                      && exists k :: 0 <= k < |old(likes.rows)| && old(likes.rows)[k].id == likeId
                                     && likes.rows == RemoveAt(old(likes.rows), k)
  {
    if RequireCompany(caller).Some? {
      return Err(CompanyOnly);
    }
    var ok := likes.Delete(d, caller.userId.value, likeId);
    if !ok {
      return Err(LikeNotFound);
    }
    r := Ok(LikeCancelledMessage);
  }
}
