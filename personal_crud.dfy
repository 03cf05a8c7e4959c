/** The personal user's side of company likes: who liked them, and the guard
    that admits only personal users with a profile row. */
module PersonalCrud {

  import opened Common
  import opened Models
  import CompanyCrud

  const PersonalOnly := "개인 사용자만 접근 가능합니다."
  const PersonalNotFound := "개인 사용자 정보를 찾을 수 없습니다."

  function TargetsUser(userId: string): CompanyLike -> bool {
    (l: CompanyLike) => l.userId == userId
  }

  /** `get_company_likes_by_user`: the likes whose target is the user, newest first. */
  function CompanyLikesByUser(rows: seq<CompanyLike>, userId: string): (r: seq<CompanyLike>)
    ensures forall x :: x in r <==> x in rows && x.userId == userId
    ensures forall i, j :: 0 <= i < j < |r| ==> CompanyCrud.LikeKey(r[i]) >= CompanyCrud.LikeKey(r[j])
    ensures multiset(r) == multiset(Filter(rows, TargetsUser(userId)))
  {
    AllNewestFirst(rows, TargetsUser(userId), CompanyCrud.LikeKey)
  }

  /** `get_company_likes_count_by_user`: the number of likes targeting the user. */
  function CompanyLikesCountByUser(rows: seq<CompanyLike>, userId: string): (n: nat)
    ensures n <= |rows|
    ensures n == |CompanyLikesByUser(rows, userId)|
  {
    |Filter(rows, TargetsUser(userId))|
  }

  /** `validate_and_get_personal_user`: a caller whose type is not
      `"personal"` is refused with 403 whatever the tables hold; a personal
      caller without a `personalusers` row gets 404; otherwise the first row
      with that user id. */
  function ValidateAndGetPersonalUser(personals: seq<PersonalUser>, userId: string, userType: string)
    : (r: Result<PersonalUser, HttpError>)
    ensures userType != "personal" ==> r == Err(HttpError(403, PersonalOnly))
    ensures userType == "personal" && (forall p :: p in personals ==> p.userId != userId)
            ==> r == Err(HttpError(404, PersonalNotFound))
    ensures r.Ok? <==> userType == "personal" && exists p :: p in personals && p.userId == userId
    ensures r.Ok? ==> r.value in personals && r.value.userId == userId
    ensures r.Ok? ==> exists k :: 0 <= k < |personals| && personals[k] == r.value
                                 && forall j :: 0 <= j < k ==> personals[j].userId != userId
  {
    if userType != "personal" then Err(HttpError(403, PersonalOnly))
    else
      match FindFirst(personals, (p: PersonalUser) => p.userId == userId)
      case None => Err(HttpError(404, PersonalNotFound))
      case Some(i) => Ok(personals[i])
  }

  /** `get_company_likes_with_count`: one query, counted and then listed
      newest first, so the count is the length of the list. */
  function CompanyLikesWithCount(rows: seq<CompanyLike>, userId: string): (r: (seq<CompanyLike>, nat))
    ensures r.1 == |r.0|
    ensures forall x :: x in r.0 <==> x in rows && x.userId == userId
    ensures forall i, j :: 0 <= i < j < |r.0| ==> CompanyCrud.LikeKey(r.0[i]) >= CompanyCrud.LikeKey(r.0[j])
    ensures multiset(r.0) == multiset(Filter(rows, TargetsUser(userId)))
  {
    var likes := CompanyLikesByUser(rows, userId);
    (likes, CompanyLikesCountByUser(rows, userId))
  }
}
