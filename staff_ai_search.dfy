/** The `query_students` endpoint: translate the staff member's question into
    SQL, check it, drop the sensitive columns, cap the row count, run it and
    wrap the outcome in a `StudentQueryResponse`. The model reply and the
    database's answer are inputs; the elapsed time is not modelled. */
module StaffAiSearch {

  import opened Common
  import opened Text
  import opened Values
  import opened GeminiService
  import opened ExternalDbService
  import opened Redaction
  import opened StaffAiSearchSchema

  const TranslationFailedPrefix := "SQL 쿼리 생성 실패: "
  const UnsafeQueryError := "보안상 안전하지 않은 쿼리입니다."
  const DbFailedPrefix := "데이터베이스 조회 실패: "
  const InternalErrorPrefix := "서버 내부 오류: "

  /** The four rewrites of the projection, in order. */
  function RewriteColumns(columns: string): (r: string)
    ensures |r| <= |columns|
  {
    StripTrailingComma(CollapseCommas(DeleteWord(DeleteWord(columns, "EMAIL"), "PHONE")))
  }

  /** The query after the sensitive-column step. */
  function Redacted(q: string, includeSensitive: bool): (r: string)
    ensures includeSensitive || !(Contains(Lower(q), "email") || Contains(Lower(q), "phone")) ==> r == q
    ensures (forall n: Match :: !IsMatch(q, n)) ==> r == q
  {
    SearchIsFirst(q, 0);
    if includeSensitive || !(Contains(Lower(q), "email") || Contains(Lower(q), "phone")) then q
    else match Search(q, 0)
      case None => q
      case Some(m) => SubstituteAll(q, "SELECT " + RewriteColumns(q[m.group..m.groupEnd]) + " FROM")
  }

  /** When sensitive columns were not asked for and the lower-cased query
      mentions email or phone, the redaction substitutes the pattern with the
      projection of the match the search reports rewritten. */
  lemma RedactedIsSubstitution(q: string, m: Match)
    requires Search(q, 0) == Some(m)
    ensures m.group <= m.groupEnd <= |q|
    ensures Contains(Lower(q), "email") || Contains(Lower(q), "phone") ==>
              Redacted(q, false) == SubstituteAll(q, "SELECT " + RewriteColumns(q[m.group..m.groupEnd]) + " FROM")
  {
    SearchIsFirst(q, 0);
  }

  /** The same, spelled out: with `m` the match the matcher reports (tried
      before every other match), the text before `m` is kept, `m` becomes
      SELECT, the rewritten projection and FROM, and the substitution goes on
      after `m`'s FROM. */
  lemma RedactedRewritesFirstMatch(q: string, m: Match)
    requires IsMatch(q, m) && forall n: Match :: IsMatch(q, n) ==> TriedFirst(m, n)
    ensures m.start <= m.group <= m.groupEnd <= m.from + 4 <= |q|
    ensures var rep := "SELECT " + RewriteColumns(q[m.group..m.groupEnd]) + " FROM";
            Contains(Lower(q), "email") || Contains(Lower(q), "phone") ==>
              Redacted(q, false) == q[..m.start] + rep + SubstituteFrom(q, rep, m.from + 4)
  {
    SearchReportsFirst(q, m);
    RedactedIsSubstitution(q, m);
    SubstituteAtFirst(q, "SELECT " + RewriteColumns(q[m.group..m.groupEnd]) + " FROM", m);
  }

  /** The projection of the module's own example loses both contact columns
      and the separators after them. */
  lemma RewritesContactColumns(columns: string)
    requires columns == "name, email, phone, gpa"
    ensures RewriteColumns(columns) == "name, gpa"
  {
    DeletesEmail(columns);
    DeletesPhone("name, phone, gpa");
    KeepsTwoColumns("name, gpa");
  }

  lemma DeletesEmail(columns: string)
    requires columns == "name, email, phone, gpa"
    ensures DeleteWord(columns, "EMAIL") == "name, phone, gpa"
  {
    EmailNotBefore(columns);
    EmailAtSix(columns);
    EmailNotAfter(columns);
    DeleteWordOnce(columns, "EMAIL", 6);
    CutsEmail(columns);
  }

  lemma EmailNotBefore(columns: string)
    requires columns == "name, email, phone, gpa"
    ensures forall i :: 0 <= i < 6 ==> !CiOccursAt(columns, i, "EMAIL")
  {
    assert columns[0..3] == "nam" && columns[4..6] == ", ";
    NoOccurrenceStarts(columns, "EMAIL", 0, 3);
    assert !CiOccursAt(columns, 3, "EMAIL") by {
      assert UpperChar(columns[3 + 1]) != "EMAIL"[1];
    }
    NoOccurrenceStarts(columns, "EMAIL", 4, 6);
  }

  lemma EmailAtSix(columns: string)
    requires columns == "name, email, phone, gpa"
    ensures CiOccursAt(columns, 6, "EMAIL") && SeparatorEnd(columns, 11) == 13
  {
    assert WsEnd(columns, 13) == 13;
    assert WsEnd(columns, 12) == 13;
    assert WsEnd(columns, 11) == 11;
  }

  lemma EmailNotAfter(columns: string)
    requires columns == "name, email, phone, gpa"
    ensures forall i :: 13 <= i < |columns| ==> !CiOccursAt(columns, i, "EMAIL")
  {
    assert columns[13..17] == "phon" && columns[18..] == ", gpa";
    NoOccurrenceStarts(columns, "EMAIL", 13, 17);
    assert !CiOccursAt(columns, 17, "EMAIL") by {
      assert UpperChar(columns[17 + 1]) != "EMAIL"[1];
    }
    NoOccurrenceStarts(columns, "EMAIL", 18, |columns|);
  }

  lemma CutsEmail(columns: string)
    requires columns == "name, email, phone, gpa"
    ensures columns[..6] + columns[13..] == "name, phone, gpa"
  {
  }

  lemma DeletesPhone(columns: string)
    requires columns == "name, phone, gpa"
    ensures DeleteWord(columns, "PHONE") == "name, gpa"
  {
    PhoneOnceAtSix(columns);
    DeleteWordOnce(columns, "PHONE", 6);
    CutsPhone(columns);
  }

  lemma PhoneOnceAtSix(columns: string)
    requires columns == "name, phone, gpa"
    ensures CiOccursAt(columns, 6, "PHONE") && SeparatorEnd(columns, 11) == 13
    ensures forall i :: 0 <= i < 6 ==> !CiOccursAt(columns, i, "PHONE")
    ensures forall i :: 13 <= i < |columns| ==> !CiOccursAt(columns, i, "PHONE")
  {
    assert columns[0..6] == "name, ";
    NoOccurrenceStarts(columns, "PHONE", 0, 6);
    assert CiOccursAt(columns, 6, "PHONE");
    assert WsEnd(columns, 13) == 13;
    assert WsEnd(columns, 12) == 13;
    assert WsEnd(columns, 11) == 11;
  }

  lemma CutsPhone(columns: string)
    requires columns == "name, phone, gpa"
    ensures columns[..6] + columns[13..] == "name, gpa"
  {
  }

  /** A word cannot start where no character matches its first letter. */
  lemma NoOccurrenceStarts(s: string, w: string, a: nat, b: nat)
    requires |w| > 0 && a <= b <= |s|
    requires forall c :: c in s[a..b] ==> UpperChar(c) != w[0]
    ensures forall i :: a <= i < b ==> !CiOccursAt(s, i, w)
  {
    forall i | a <= i < b ensures !CiOccursAt(s, i, w) {
      assert s[i] == s[a..b][i - a];
      assert UpperChar(s[i + 0]) != w[0];
    }
  }

  lemma KeepsTwoColumns(columns: string)
    requires columns == "name, gpa"
    ensures StripTrailingComma(CollapseCommas(columns)) == columns
  {
    forall i | 0 <= i ensures !CommaPairAt(columns, i) {
      if i == 4 {
        assert WsEnd(columns, 6) == 6;
        assert WsEnd(columns, 5) == 6;
      }
    }
    CollapseCommasNone(columns, 0);
    assert !IsSpace(columns[8]) && columns[8] != ',';
    assert TrailingSpaces(columns) == 0;
  }

  /** The query of the module's own example: the contact columns leave the
      projection, and everything else stays. */
  lemma RedactsContactColumns(q: string, columns: string)
    requires columns == "name, email, phone, gpa" && q == "SELECT " + columns + " FROM t"
    ensures Redacted(q, false) == "SELECT " + "name, gpa" + " FROM t"
  {
    var rep := "SELECT " + RewriteColumns(q[7..30]) + " FROM";
    QueryRewritesOnce(q, columns);
    RewritesContactColumns(columns);
    assert rep == "SELECT " + "name, gpa" + " FROM";
    QueryTail(q, columns, rep);
    AppendsTable("name, gpa");
  }

  lemma QueryRewritesOnce(q: string, columns: string)
    requires columns == "name, email, phone, gpa" && q == "SELECT " + columns + " FROM t"
    ensures |q| == 37 && q[7..30] == columns
    ensures var rep := "SELECT " + RewriteColumns(q[7..30]) + " FROM";
            Redacted(q, false) == q[..0] + rep + SubstituteFrom(q, rep, 35)
  {
    var m := Match(0, 7, 30, 31);
    QueryMatch(q, columns);
    QueryHasOneMatch(q, columns);
    QueryMentionsEmail(q, columns);
    RedactedRewritesFirstMatch(q, m);
  }

  lemma AppendsTable(x: string)
    ensures "SELECT " + x + " FROM" + " t" == "SELECT " + x + " FROM t"
  {
    assert " FROM" + " t" == " FROM t";
  }

  lemma QueryMatch(q: string, columns: string)
    requires columns == "name, email, phone, gpa" && q == "SELECT " + columns + " FROM t"
    ensures IsMatch(q, Match(0, 7, 30, 31)) && q[7..30] == columns
  {
    assert CiOccursAt(q, 0, "SELECT");
    assert CiOccursAt(q, 31, "FROM");
  }

  lemma QueryHasOneMatch(q: string, columns: string)
    requires columns == "name, email, phone, gpa" && q == "SELECT " + columns + " FROM t"
    ensures forall n: Match :: IsMatch(q, n) ==> TriedFirst(Match(0, 7, 30, 31), n)
  {
    QueryOneSelect(q, columns);
    QueryOneFrom(q, columns);
    forall n: Match | IsMatch(q, n) ensures n == Match(0, 7, 30, 31) {
      assert !IsSpace(q[7]) && !IsSpace(q[29]);
    }
  }

  lemma QueryOneSelect(q: string, columns: string)
    requires columns == "name, email, phone, gpa" && q == "SELECT " + columns + " FROM t"
    ensures forall i :: 0 < i < |q| ==> !CiOccursAt(q, i, "SELECT")
  {
    assert q[1..7] == "ELECT " && q[7..30] == columns && q[30..] == " FROM t";
    NoOccurrenceStarts(q, "SELECT", 1, 7);
    NoOccurrenceStarts(q, "SELECT", 7, 30);
    NoOccurrenceStarts(q, "SELECT", 30, |q|);
  }

  lemma QueryOneFrom(q: string, columns: string)
    requires columns == "name, email, phone, gpa" && q == "SELECT " + columns + " FROM t"
    ensures forall i :: 0 <= i < |q| && i != 31 ==> !CiOccursAt(q, i, "FROM")
  {
    NoFromInSelect(q, columns);
    NoFromInColumns(q, columns);
    NoFromAfterFrom(q, columns);
    assert q[30..31] == " ";
    NoOccurrenceStarts(q, "FROM", 30, 31);
  }

  lemma NoFromInSelect(q: string, columns: string)
    requires columns == "name, email, phone, gpa" && q == "SELECT " + columns + " FROM t"
    ensures forall i :: 0 <= i < 7 ==> !CiOccursAt(q, i, "FROM")
  {
    assert q[..7] == "SELECT ";
    NoOccurrenceStarts(q, "FROM", 0, 7);
  }

  lemma NoFromInColumns(q: string, columns: string)
    requires columns == "name, email, phone, gpa" && q == "SELECT " + columns + " FROM t"
    ensures forall i :: 7 <= i < 30 ==> !CiOccursAt(q, i, "FROM")
  {
    assert q[7..30] == columns;
    NoOccurrenceStarts(q, "FROM", 7, 30);
  }

  lemma NoFromAfterFrom(q: string, columns: string)
    requires columns == "name, email, phone, gpa" && q == "SELECT " + columns + " FROM t"
    ensures forall i :: 32 <= i < |q| ==> !CiOccursAt(q, i, "FROM")
  {
    assert q[32..] == "ROM t";
    NoOccurrenceStarts(q, "FROM", 32, |q|);
  }

  lemma QueryMentionsEmail(q: string, columns: string)
    requires columns == "name, email, phone, gpa" && q == "SELECT " + columns + " FROM t"
    ensures Contains(Lower(q), "email")
  {
    assert q[13] == 'e' && q[14] == 'm' && q[15] == 'a' && q[16] == 'i' && q[17] == 'l';
    assert OccursAt(Lower(q), 13, "email");
  }

  lemma QueryTail(q: string, columns: string, rep: string)
    requires columns == "name, email, phone, gpa" && q == "SELECT " + columns + " FROM t"
    ensures q[..0] + rep + SubstituteFrom(q, rep, 35) == rep + " t"
  {
    SearchIsFirst(q, 35);
    assert q[35..] == " t";
  }

  /** The LIMIT step: a query whose lower-cased text has no "limit" loses its
      trailing semicolons and gets ` LIMIT <limit>;`. Afterwards "limit" is
      always there, so a second application changes nothing. */
  function WithLimit(q: string, limit: int): (r: string)
    ensures Contains(Lower(q), "limit") ==> r == q
    ensures Contains(Lower(r), "limit")
    ensures !Contains(Lower(q), "limit") ==>
              StartsWith(r, TrimEndChar(q, ';')) && EndsWith(r, " LIMIT " + IntToString(limit) + ";")
              && |r| == |TrimEndChar(q, ';')| + |" LIMIT " + IntToString(limit) + ";"|
  {
    if Contains(Lower(q), "limit") then q
    else
      LimitClauseFound(TrimEndChar(q, ';'), IntToString(limit));
      TrimEndChar(q, ';') + " LIMIT " + IntToString(limit) + ";"
  }

  /** The appended clause itself supplies the "limit" the test looks for. */
  lemma LimitClauseFound(p: string, n: string)
    ensures var r := p + " LIMIT " + n + ";";
            Contains(Lower(r), "limit") && StartsWith(r, p) && EndsWith(r, " LIMIT " + n + ";")
  {
    var r := p + " LIMIT " + n + ";";
    assert r == p + (" LIMIT " + n + ";");
    forall k | 0 <= k < 5 ensures Lower(r)[|p| + 1 + k] == "limit"[k] {
      assert r[|p| + 1 + k] == " LIMIT "[1 + k];
    }
    assert OccursAt(Lower(r), |p| + 1, "limit");
  }

  /** Appending the clause once is enough: a second pass changes nothing. */
  lemma WithLimitIdempotent(q: string, limit: int)
    ensures WithLimit(WithLimit(q, limit), limit) == WithLimit(q, limit)
  {
  }

  /** The query that reaches the database once the generated SQL passed. */
  function FinalQuery(sql: string, request: StudentQueryRequest): string {
    WithLimit(Redacted(sql, request.includeSensitiveInfo), request.limit)
  }

  /** The records as `StudentData`, or `None` when one fails validation. */
  function StudentsOf(records: seq<map<string, Value>>): (r: Option<seq<StudentData>>)
    ensures r.Some? <==> forall k :: 0 <= k < |records| ==> StudentDataOf(records[k]).Some?
    ensures r.Some? ==> |r.value| == |records|
                        && forall k :: 0 <= k < |records| ==> r.value[k] == StudentDataOf(records[k]).value
  {
    if records == [] then Some([])
    else
      match (StudentDataOf(records[0]), StudentsOf(records[1..]))
      case (Some(s), Some(rest)) =>
        assert forall k :: 1 <= k < |records| ==> records[k] == records[1..][k - 1];
        Some([s] + rest)
      case _ =>
        assert forall k :: 1 <= k < |records| ==> records[k] == records[1..][k - 1];
        None
  }

  /** `description` as an `Optional[str]`. */
  function DescriptionOf(v: Value): (r: Option<Option<string>>)
    ensures r.Some? <==> v.Str? || v.Null?
    ensures v.Str? ==> r == Some(Some(v.s))
  {
    match v
    case Str(s) => Some(Some(s))
    case Null => Some(None)
    case _ => None
  }

  /** The records the executor reports for a successful fetch. */
  function FetchedRecords(fetch: Fetch, decode: string -> Option<Value>): (r: seq<map<string, Value>>)
    requires fetch.Fetched? && RowsFit(fetch.columns, fetch.rows)
    ensures |r| == |fetch.rows|
    ensures forall k :: 0 <= k < |r| ==> r[k] == MapRow(fetch.columns, fetch.rows[k], decode)
  {
    seq(|fetch.rows|, k requires 0 <= k < |fetch.rows| => MapRow(fetch.columns, fetch.rows[k], decode))
  }

  /** Step 3: drop `email` and `phone` from the projection unless sensitive
      columns were asked for. */
  method RedactSensitive(sqlQuery: string, includeSensitive: bool) returns (r: string)
    ensures r == Redacted(sqlQuery, includeSensitive)
  {
    r := sqlQuery;
    if !includeSensitive {
      if Contains(Lower(sqlQuery), "email") || Contains(Lower(sqlQuery), "phone") {
        var found := Search(sqlQuery, 0);
        if found.Some? {
          var m := found.value;
          SearchIsFirst(sqlQuery, 0);
          var columns := sqlQuery[m.group..m.groupEnd];
          columns := DeleteWord(columns, "EMAIL");
          columns := DeleteWord(columns, "PHONE");
          columns := CollapseCommas(columns);
          columns := StripTrailingComma(columns);
          r := SubstituteAll(sqlQuery, "SELECT " + columns + " FROM");
        }
      }
    }
  }

  /** Step 4: append a LIMIT clause unless "limit" already occurs. */
  method AppendLimit(sqlQuery: string, limit: int) returns (r: string)
    ensures r == WithLimit(sqlQuery, limit)
  {
    r := sqlQuery;
    if !Contains(Lower(sqlQuery), "limit") {
      r := TrimEndChar(sqlQuery, ';') + " LIMIT " + IntToString(limit) + ";";
    }
  }

  /** Steps 5 and 6: run the final query and build the envelope. */
  method RunAndRespond(sqlQuery: string, description: Value, decode: string -> Option<Value>,
                       fetch: Fetch, validationText: string)
    returns (response: StudentQueryResponse)
    requires fetch.Fetched? ==> RowsFit(fetch.columns, fetch.rows)
    ensures fetch.Failed? ==>
              response == StudentQueryResponse(false, [], 0, Some(sqlQuery), None,
                                               Some(DbFailedPrefix + QueryErrorPrefix + fetch.message))
    ensures fetch.Fetched? ==>
              var data := StudentsOf(FetchedRecords(fetch, decode));
              var desc := DescriptionOf(description);
              (data.Some? && desc.Some? ==>
                response == StudentQueryResponse(true, data.value, |fetch.rows|, Some(sqlQuery), desc.value, None))
              && (data.None? || desc.None? ==> response == Failure(InternalErrorPrefix + validationText))
  {
    var dbResult := ExecuteQuery(sqlQuery, fetch, decode);
    if !dbResult.success {
      assert DbFailedPrefix + (QueryErrorPrefix + fetch.message) == DbFailedPrefix + QueryErrorPrefix + fetch.message;
      return StudentQueryResponse(false, [], 0, Some(sqlQuery), None, Some(DbFailedPrefix + dbResult.error.value));
    }
    assert dbResult.data == FetchedRecords(fetch, decode);
    var data := StudentsOf(dbResult.data);
    var desc := DescriptionOf(description);
    if data.None? || desc.None? {
      return Failure(InternalErrorPrefix + validationText);
    }
    return StudentQueryResponse(true, data.value, dbResult.count, Some(sqlQuery), desc.value, None);
  }

  /** `query_students`. `reply` is what the model answered for the request's
      question, `db` gives what the database returns for each query, and
      `validationText` stands for the message of pydantic's `ValidationError`
      when the success response cannot be built. */
  method QueryStudents(request: StudentQueryRequest, reply: ModelReply, decode: string -> Option<Value>,
                       db: string -> Fetch, validationText: string)
    returns (response: StudentQueryResponse)
    requires forall q :: db(q).Fetched? ==> RowsFit(db(q).columns, db(q).rows)
    ensures var t := ParseReply(reply, decode);
            t.NotTranslated? ==> response == Failure(TranslationFailedPrefix + t.error)
    ensures var t := ParseReply(reply, decode);
            t.Translated? && !t.sql.Str? ==>
              response == Failure(InternalErrorPrefix + NoAttributeMessage(t.sql, "upper"))
    ensures var t := ParseReply(reply, decode);
            t.Translated? && t.sql.Str? && !IsSafeQuery(t.sql.s) ==>
              response == StudentQueryResponse(false, [], 0, Some(t.sql.s), None, Some(UnsafeQueryError))
    ensures var t := ParseReply(reply, decode);
            t.Translated? && t.sql.Str? && IsSafeQuery(t.sql.s) ==>
              var q := FinalQuery(t.sql.s, request);
              (db(q).Failed? ==>
                 response == StudentQueryResponse(false, [], 0, Some(q), None,
                                                  Some(DbFailedPrefix + QueryErrorPrefix + db(q).message)))
              && (db(q).Fetched? ==>
                 var data := StudentsOf(FetchedRecords(db(q), decode));
                 var desc := DescriptionOf(t.description);
                 (data.Some? && desc.Some? ==>
                    response == StudentQueryResponse(true, data.value, |db(q).rows|, Some(q), desc.value, None))
                 && (data.None? || desc.None? ==> response == Failure(InternalErrorPrefix + validationText)))
  {
    var translation := ParseReply(reply, decode);
    if translation.NotTranslated? {
      return Failure(TranslationFailedPrefix + translation.error);
    }
    var sqlValue := translation.sql;
    if !sqlValue.Str? {
      // `sql_query.upper()` inside the validator raises AttributeError.
      return Failure(InternalErrorPrefix + NoAttributeMessage(sqlValue, "upper"));
    }
    var sqlQuery := sqlValue.s;
    var safe := ValidateSqlQuery(sqlQuery);
    if !safe {
      return StudentQueryResponse(false, [], 0, Some(sqlQuery), None, Some(UnsafeQueryError));
    }
    sqlQuery := RedactSensitive(sqlQuery, request.includeSensitiveInfo);
    sqlQuery := AppendLimit(sqlQuery, request.limit);
    response := RunAndRespond(sqlQuery, translation.description, decode, db(sqlQuery), validationText);
  }
}
