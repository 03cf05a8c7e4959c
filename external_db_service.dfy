/** `ExternalDBService`: runs a query against the student database and maps
    each fetched row to a record holding only `user_id` and `name`. The
    database itself is outside the model: what it returns for a query arrives
    as a `Fetch`, and `json.loads` is the partial function `decode`. */
module ExternalDbService {

  import opened Common
  import opened Text
  import opened Values

  /** What executing and fetching a query gives: the column names and the
      rows, or the message of the exception the driver raised. */
  datatype Fetch = Fetched(columns: seq<string>, rows: seq<seq<Value>>) | Failed(message: string)

  /** The dictionary `execute_query` returns; `error` is present on failure only. */
  datatype QueryResult = QueryResult(
    success: bool, error: Option<string>, data: seq<map<string, Value>>, count: int, query: string)

  const QueryErrorPrefix := "데이터베이스 쿼리 실행 중 오류: "

  /** Every fetched row holds one value per column, as the driver returns them. */
  predicate RowsFit(columns: seq<string>, rows: seq<seq<Value>>) {
    forall k :: 0 <= k < |rows| ==> |rows[k]| == |columns|
  }

  /** A value with an `isoformat` method is replaced by the text it returns. */
  function Iso(v: Value): (r: Value)
    ensures !r.Temporal?
    ensures v.Temporal? ==> r == Str(v.iso)
    ensures !v.Temporal? ==> r == v
  {
    if v.Temporal? then Str(v.iso) else v
  }

  /** `row_dict` after the first `n` columns: a later column of the same name
      overwrites an earlier one. */
  function ColumnsDict(columns: seq<string>, row: seq<Value>, n: nat): (d: map<string, Value>)
    requires n <= |columns| && |row| == |columns|
    ensures forall j :: 0 <= j < n ==> columns[j] in d
  {
    if n == 0 then map[]
    else ColumnsDict(columns, row, n - 1)[columns[n - 1] := Iso(row[n - 1])]
  }

  /** The keys of `row_dict` are the column names. */
  lemma {:induction false} ColumnsDictKeys(columns: seq<string>, row: seq<Value>, n: nat)
    requires n <= |columns| && |row| == |columns|
    ensures ColumnsDict(columns, row, n).Keys == set j | 0 <= j < n :: columns[j]
  {
    if n > 0 {
      ColumnsDictKeys(columns, row, n - 1);
      assert (set j | 0 <= j < n :: columns[j]) == (set j | 0 <= j < n - 1 :: columns[j]) + {columns[n - 1]};
    }
  }

  /** A column's value is the one of its last occurrence among the columns. */
  lemma {:induction false} ColumnsDictValue(columns: seq<string>, row: seq<Value>, n: nat, j: nat)
    requires n <= |columns| && |row| == |columns| && j < n
    requires forall k :: j < k < n ==> columns[k] != columns[j]
    ensures ColumnsDict(columns, row, n)[columns[j]] == Iso(row[j])
  {
    if j < n - 1 {
      ColumnsDictValue(columns, row, n - 1, j);
    }
  }

  /** The column names whose single-column rows carry a JSON_OBJECT result. */
  predicate IsJsonColumn(name: string) {
    Contains(name, "지원현황") || Contains(name, "사용자정보")
  }

  /** A row with exactly one key, named like a JSON_OBJECT column and holding
      text, gets the decoded object's fields merged in; the decoded fields win.
      A value that does not decode to an object leaves the row as it is. */
  function MergeEmbeddedJson(columns: seq<string>, d: map<string, Value>,
                             decode: string -> Option<Value>): (r: map<string, Value>)
    requires |columns| > 0 && columns[0] in d
    ensures r == d || (|d| == 1 && IsJsonColumn(columns[0]) && d[columns[0]].Str?)
    ensures d.Keys <= r.Keys
    ensures forall k :: k in r && k !in d ==> |d| == 1
    ensures |d| == 1 && IsJsonColumn(columns[0]) && d[columns[0]].Str?
              && decode(d[columns[0]].s).Some? && decode(d[columns[0]].s).value.Obj? ==>
              var m := decode(d[columns[0]].s).value.fields;
              r.Keys == d.Keys + m.Keys
              && (forall k :: k in m ==> r[k] == m[k])
              && (forall k :: k in d && k !in m ==> r[k] == d[k])
    ensures (|d| == 1 && IsJsonColumn(columns[0]) && d[columns[0]].Str?
             && (decode(d[columns[0]].s).None? || !decode(d[columns[0]].s).value.Obj?))
            ==> r == d
    ensures !(|d| == 1 && IsJsonColumn(columns[0]) && d[columns[0]].Str?) ==> r == d
  {
    if |d| == 1 && IsJsonColumn(columns[0]) && d[columns[0]].Str? then
      match decode(d[columns[0]].s)
      case Some(Obj(m)) => d + m
      case _ => d
    else d
  }

  /** `mapped_dict`: exactly `user_id` and `name`. Each is the first truthy of
      its candidate keys; when none is truthy it is the last candidate's value,
      `None` when that key is missing. */
  function Record(d: map<string, Value>): (r: map<string, Value>)
    ensures r.Keys == {"user_id", "name"}
    ensures Truthy(Get(d, "user_id", Null)) ==> r["user_id"] == d["user_id"]
    ensures !Truthy(Get(d, "user_id", Null)) && Truthy(Get(d, "사용자ID", Null)) ==>
              r["user_id"] == d["사용자ID"]
    ensures !Truthy(Get(d, "user_id", Null)) && !Truthy(Get(d, "사용자ID", Null)) ==>
              r["user_id"] == Get(d, "user_id", Null)
    ensures Truthy(Get(d, "name", Null)) ==> r["name"] == d["name"]
    ensures !Truthy(Get(d, "name", Null)) && Truthy(Get(d, "이름", Null)) ==> r["name"] == d["이름"]
    ensures !Truthy(Get(d, "name", Null)) && !Truthy(Get(d, "이름", Null)) ==>
              r["name"] == Get(d, "사용자이름", Null)
  {
    map["user_id" := Or(Or(Get(d, "user_id", Null), Get(d, "사용자ID", Null)), Get(d, "user_id", Null)),
        "name" := Or(Or(Get(d, "name", Null), Get(d, "이름", Null)), Get(d, "사용자이름", Null))]
  }

  /** The record one fetched row becomes. */
  function MapRow(columns: seq<string>, row: seq<Value>, decode: string -> Option<Value>): map<string, Value>
    requires |row| == |columns|
  {
    var d := ColumnsDict(columns, row, |columns|);
    if |columns| > 0 then
      assert columns[0] in d;
      Record(MergeEmbeddedJson(columns, d, decode))
    else Record(d)
  }

  /** The inner loop of `execute_query`: one entry per column, in column order. */
  method RowDict(columns: seq<string>, row: seq<Value>) returns (rowDict: map<string, Value>)
    requires |row| == |columns|
    ensures rowDict == ColumnsDict(columns, row, |columns|)
  {
    rowDict := map[];
    for i := 0 to |columns|
      invariant rowDict == ColumnsDict(columns, row, i)
    {
      var value := row[i];
      if value.Temporal? {
        rowDict := rowDict[columns[i] := Str(value.iso)];
      } else {
        rowDict := rowDict[columns[i] := value];
      }
    }
  }

  /** `execute_query`: one record per fetched row, in fetch order; on a driver
      exception, a failure with no data that still echoes the query. */
  method ExecuteQuery(sql: string, fetch: Fetch, decode: string -> Option<Value>) returns (r: QueryResult)
    requires fetch.Fetched? ==> RowsFit(fetch.columns, fetch.rows)
    ensures fetch.Failed? ==> r == QueryResult(false, Some(QueryErrorPrefix + fetch.message), [], 0, sql)
    ensures fetch.Fetched? ==> r.success && r.error.None? && r.query == sql
                               && r.count == |r.data| == |fetch.rows|
    ensures fetch.Fetched? ==> forall k :: 0 <= k < |r.data| ==>
              r.data[k] == MapRow(fetch.columns, fetch.rows[k], decode)
  {
    match fetch
    case Failed(message) =>
      return QueryResult(false, Some(QueryErrorPrefix + message), [], 0, sql);
    case Fetched(columns, fetched) =>
      var rows: seq<map<string, Value>> := [];
      for k := 0 to |fetched|
        invariant |rows| == k
        invariant forall j :: 0 <= j < k ==> rows[j] == MapRow(columns, fetched[j], decode)
      {
        var row := fetched[k];
        var rowDict := RowDict(columns, row);
        if |columns| > 0 {
          assert columns[0] in rowDict;
          rowDict := MergeEmbeddedJson(columns, rowDict, decode);
        }
        rows := rows + [Record(rowDict)];
      }
      return QueryResult(true, None, rows, |rows|, sql);
  }

  /** No record carries a column other than `user_id` and `name`: `email`,
      `phone` and every other selected column are dropped. */
  lemma RecordsDropOtherColumns(columns: seq<string>, row: seq<Value>,
                                decode: string -> Option<Value>, c: string)
    requires |row| == |columns| && c != "user_id" && c != "name"
    ensures c !in MapRow(columns, row, decode)
  {
  }

  /** A `user_id` column that is the only column of that name and holds a
      truthy value other than a date is reported as is. */
  lemma {:induction false} UserIdColumnReported(columns: seq<string>, row: seq<Value>,
                                                decode: string -> Option<Value>, j: nat)
    requires |row| == |columns| && j < |columns| && columns[j] == "user_id"
    requires forall k :: 0 <= k < |columns| && k != j ==> columns[k] != "user_id"
    requires Truthy(row[j]) && !row[j].Temporal?
    requires |columns| > 1 || !IsJsonColumn("user_id")
    ensures MapRow(columns, row, decode)["user_id"] == row[j]
  {
    var d := ColumnsDict(columns, row, |columns|);
    ColumnsDictValue(columns, row, |columns|, j);
    if |columns| > 1 {
      var other := if j == 0 then 1 else 0;
      assert columns[other] in d && columns[other] != columns[j];
      assert {columns[other], columns[j]} <= d.Keys;
      assert |d| > 1 by {
        CardinalityOfTwo(d.Keys, columns[other], columns[j]);
      }
    }
  }

  lemma CardinalityOfTwo(s: set<string>, a: string, b: string)
    requires a in s && b in s && a != b
    ensures |s| > 1
  {
    assert s == (s - {a}) + {a};
    assert b in s - {a};
  }

  // ---------------------------------------------------------------------------
  // get_student_by_company / get_student_by_major
  // ---------------------------------------------------------------------------

  /** The text after the LIMIT count in both templates. */
  const TemplateEnd := "\n            "

  /** A template with its argument pasted verbatim between `LIKE '%` and `%'`
      and a closing `LIMIT <limit>`. */
  function LikeQuery(head: string, arg: string, tail: string, limit: int): (q: string)
    ensures OccursAt(q, |head|, "LIKE '%" + arg + "%'")
    ensures EndsWith(q, "LIMIT " + IntToString(limit) + TemplateEnd)
  {
    var like := "LIKE '%" + arg + "%'";
    var last := "LIMIT " + IntToString(limit) + TemplateEnd;
    Infix(head, like, tail + last);
    head + like + tail + last
  }

  const CompanyHead := "\n            SELECT \n                student_id, name, major, grade, \n"
    + "                company_name, job_position, employment_status,\n"
    + "                employment_date, gpa, graduation_year\n"
    + "            FROM students \n            WHERE company_name "
  const CompanyTail := " \n            AND employment_status = '취업완료'\n"
    + "            ORDER BY employment_date DESC\n            "

  /** The query `get_student_by_company` runs; the name is pasted in as is. */
  function CompanyQuery(companyName: string, limit: int): (q: string)
    ensures OccursAt(q, |CompanyHead|, "LIKE '%" + companyName + "%'")
    ensures EndsWith(q, "LIMIT " + IntToString(limit) + TemplateEnd)
  {
    LikeQuery(CompanyHead, companyName, CompanyTail, limit)
  }

  const MajorHead := "\n            SELECT \n                student_id, name, major, grade, \n"
    + "                company_name, job_position, employment_status,\n"
    + "                employment_date, gpa, graduation_year\n"
    + "            FROM students \n            WHERE major "
  const MajorTail := "\n            ORDER BY grade DESC, name ASC\n            "

  /** The query `get_student_by_major` runs; the major is pasted in as is. */
  function MajorQuery(major: string, limit: int): (q: string)
    ensures OccursAt(q, |MajorHead|, "LIKE '%" + major + "%'")
    ensures EndsWith(q, "LIMIT " + IntToString(limit) + TemplateEnd)
  {
    LikeQuery(MajorHead, major, MajorTail, limit)
  }

  lemma Infix(a: string, w: string, b: string)
    ensures OccursAt(a + w + b, |a|, w)
  {
  }
}
