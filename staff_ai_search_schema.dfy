/** The request and response shapes of the staff search endpoint, with the
    defaults and bounds their pydantic models declare. */
module StaffAiSearchSchema {

  import opened Common
  import opened Values

  /** `StudentQueryRequest` once validated. */
  datatype StudentQueryRequest = StudentQueryRequest(query: string, includeSensitiveInfo: bool, limit: int)

  const DefaultLimit := 100
  const MaxLimit := 1000

  /** Validation of a request body whose fields arrive already typed: `query`
      is required, `include_sensitive_info` defaults to false, `limit`
      defaults to 100 and must lie in 1..1000. The error names every field
      that failed. */
  function MakeRequest(query: Option<string>, includeSensitive: Option<bool>, limit: Option<int>)
    : (r: Result<StudentQueryRequest, set<string>>)
    ensures r.Ok? <==> query.Some? && (limit.None? || 1 <= limit.value <= MaxLimit)
    ensures r.Ok? ==> r.value.query == query.value
                      && r.value.includeSensitiveInfo == (includeSensitive == Some(true))
                      && r.value.limit == (if limit.Some? then limit.value else DefaultLimit)
    ensures r.Ok? ==> 1 <= r.value.limit <= MaxLimit
    ensures r.Err? ==> ("query" in r.error <==> query.None?)
                       && ("limit" in r.error <==> limit.Some? && !(1 <= limit.value <= MaxLimit))
  {
    var errors := (if query.None? then {"query"} else {})
      + (if limit.Some? && !(1 <= limit.value <= MaxLimit) then {"limit"} else {});
    if errors == {} then
      Ok(StudentQueryRequest(query.value, includeSensitive == Some(true), if limit.Some? then limit.value else DefaultLimit))
    else Err(errors)
  }

  /** `StudentData`: every field optional, `None` by default. */
  datatype StudentData = StudentData(
    userId: Option<string>, name: Option<string>, email: Option<string>, phone: Option<string>,
    schoolName: Option<string>, major: Option<string>, graduationYear: Option<string>,
    gpa: Option<real>, companyName: Option<string>, position: Option<string>,
    applicationStatus: Option<string>, finalResult: Option<string>,
    createdAt: Option<string>, updatedAt: Option<string>)

  /** An `Optional[str]` field: a missing key or `None` is `None`, text is
      kept, any other value fails validation. */
  function OptionalText(d: map<string, Value>, key: string): (r: Result<Option<string>, string>)
    ensures r == Ok(None) <==> key !in d || d[key].Null?
    ensures r.Ok? && r.value.Some? <==> key in d && d[key].Str?
    ensures r.Ok? && r.value.Some? ==> r.value.value == d[key].s
    ensures r.Err? ==> r.error == key
  {
    if key !in d then Ok(None)
    else match d[key]
      case Null => Ok(None)
      case Str(s) => Ok(Some(s))
      case _ => Err(key)
  }

  /** `Optional[float]` in pydantic's lax mode: integers, floats and booleans
      are accepted, a boolean as 1.0 or 0.0. */
  function OptionalReal(d: map<string, Value>, key: string): (r: Result<Option<real>, string>)
    ensures r == Ok(None) <==> key !in d || d[key].Null?
    ensures r.Ok? && r.value.Some? <==> key in d && (d[key].Int? || d[key].Num? || d[key].Bool?)
    ensures r.Ok? && r.value.Some? && d[key].Int? ==> r.value.value == d[key].i as real
    ensures r.Ok? && r.value.Some? && d[key].Num? ==> r.value.value == d[key].r
    ensures r.Ok? && r.value.Some? && d[key].Bool? ==> r.value.value == if d[key].b then 1.0 else 0.0
    ensures r.Err? ==> r.error == key
  {
    if key !in d then Ok(None)
    else match d[key]
      case Null => Ok(None)
      case Int(i) => Ok(Some(i as real))
      case Num(x) => Ok(Some(x))
      case Bool(b) => Ok(Some(if b then 1.0 else 0.0))
      case _ => Err(key)
  }

  /** Every field of `StudentData` accepts what `d` holds for it. */
  predicate FieldsValid(d: map<string, Value>) {
    OptionalText(d, "user_id").Ok? && OptionalText(d, "name").Ok? && OptionalText(d, "email").Ok?
    && OptionalText(d, "phone").Ok? && OptionalText(d, "school_name").Ok? && OptionalText(d, "major").Ok?
    && OptionalText(d, "graduation_year").Ok? && OptionalReal(d, "gpa").Ok?
    && OptionalText(d, "company_name").Ok? && OptionalText(d, "position").Ok?
    && OptionalText(d, "application_status").Ok? && OptionalText(d, "final_result").Ok?
    && OptionalText(d, "created_at").Ok? && OptionalText(d, "updated_at").Ok?
  }

  /** `StudentData(**d)`, or `None` when validation fails. Keys that are not
      fields are ignored. */
  function StudentDataOf(d: map<string, Value>): (r: Option<StudentData>)
    ensures r.Some? <==> FieldsValid(d)
    ensures r.Some? ==> r.value.userId == OptionalText(d, "user_id").value
                        && r.value.name == OptionalText(d, "name").value
  {
    if FieldsValid(d) then
      Some(StudentData(
        OptionalText(d, "user_id").value, OptionalText(d, "name").value,
        OptionalText(d, "email").value, OptionalText(d, "phone").value,
        OptionalText(d, "school_name").value, OptionalText(d, "major").value,
        OptionalText(d, "graduation_year").value, OptionalReal(d, "gpa").value,
        OptionalText(d, "company_name").value, OptionalText(d, "position").value,
        OptionalText(d, "application_status").value, OptionalText(d, "final_result").value,
        OptionalText(d, "created_at").value, OptionalText(d, "updated_at").value))
    else None
  }

  /** A record carrying only `user_id` and `name`, each text or `None`, is a
      valid `StudentData` with every other field `None`. */
  lemma TwoKeyRecordIsValid(d: map<string, Value>)
    requires d.Keys == {"user_id", "name"}
    requires (d["user_id"].Str? || d["user_id"].Null?) && (d["name"].Str? || d["name"].Null?)
    ensures StudentDataOf(d).Some?
    ensures var s := StudentDataOf(d).value;
            s.userId == (if d["user_id"].Str? then Some(d["user_id"].s) else None)
            && s.name == (if d["name"].Str? then Some(d["name"].s) else None)
            && s.email == None && s.phone == None && s.gpa == None && s.major == None
  {
  }

  /** `StudentQueryResponse` with its defaults: no data, count 0, and no
      query, description or error unless given. */
  datatype StudentQueryResponse = StudentQueryResponse(
    success: bool, data: seq<StudentData>, count: int,
    query: Option<string>, description: Option<string>, error: Option<string>)

  /** A failed response carrying only its error. */
  function Failure(error: string): (r: StudentQueryResponse)
    ensures !r.success && r.data == [] && r.count == 0
    ensures r.query.None? && r.description.None? && r.error == Some(error)
  {
    StudentQueryResponse(false, [], 0, None, None, Some(error))
  }
}
