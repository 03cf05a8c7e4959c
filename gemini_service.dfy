/** The text-processing half of `GeminiService`: the SQL safety check and the
    extraction of a query from the language model's reply. The model call
    itself is outside the model: its reply arrives as a `ModelReply`, and
    `json.loads` is the partial function `decode`. */
module GeminiService {

  import opened Common
  import opened Text
  import opened Values

  // ---------------------------------------------------------------------------
  // validate_sql_query
  // ---------------------------------------------------------------------------

  /** The denylist, in the order it is searched. */
  const DangerousKeywords: seq<string> :=
    ["DROP", "DELETE", "INSERT", "UPDATE", "ALTER", "CREATE",
     "TRUNCATE", "EXEC", "EXECUTE", "UNION", "--", "/*", "*/"]

  /** One of the first `n` keywords of the denylist is a substring of `upper`. */
  predicate MentionsKeyword(upper: string, n: nat)
    requires n <= |DangerousKeywords|
  {
    n > 0 && (MentionsKeyword(upper, n - 1) || Contains(upper, DangerousKeywords[n - 1]))
  }

  /** Upper-cased text passes when, once stripped, it starts with SELECT and no
      keyword of the denylist is a substring of it. */
  predicate PassesChecks(upper: string) {
    StartsWith(Strip(upper), "SELECT") && !MentionsKeyword(upper, |DangerousKeywords|)
  }

  /** The verdict of `validate_sql_query`. */
  predicate IsSafeQuery(q: string) {
    PassesChecks(Upper(q))
  }

  /** The check as the service runs it: a prefix test, then one substring search
      per keyword with an early exit. */
  method ValidateSqlQuery(q: string) returns (ok: bool)
    ensures ok == IsSafeQuery(q)
  {
    var upper := Upper(q);
    if !StartsWith(Strip(upper), "SELECT") {
      return false;
    }
    for i := 0 to |DangerousKeywords|
      invariant !MentionsKeyword(upper, i)
    {
      if Contains(upper, DangerousKeywords[i]) {
        MentionsKeywordIff(upper, |DangerousKeywords|, i);
        return false;
      }
    }
    return true;
  }

  /** `MentionsKeyword` holds exactly when some keyword below `n` occurs. */
  lemma {:induction false} MentionsKeywordIff(upper: string, n: nat, k: nat)
    requires k < n <= |DangerousKeywords|
    ensures Contains(upper, DangerousKeywords[k]) ==> MentionsKeyword(upper, n)
    ensures !MentionsKeyword(upper, n) ==> !Contains(upper, DangerousKeywords[k])
  {
    if k < n - 1 {
      MentionsKeywordIff(upper, n - 1, k);
    }
  }

  lemma {:induction false} MentionsSomeKeyword(upper: string, n: nat)
    requires n <= |DangerousKeywords| && MentionsKeyword(upper, n)
    ensures exists k :: 0 <= k < n && Contains(upper, DangerousKeywords[k])
  {
    if !Contains(upper, DangerousKeywords[n - 1]) {
      MentionsSomeKeyword(upper, n - 1);
    }
  }

  /** A query whose stripped upper-cased text starts with SELECT and mentions
      none of the thirteen keywords is accepted. */
  lemma AcceptedWhenChecksPass(q: string)
    requires StartsWith(Strip(Upper(q)), "SELECT")
    requires forall k :: 0 <= k < |DangerousKeywords| ==> !Contains(Upper(q), DangerousKeywords[k])
    ensures IsSafeQuery(q)
  {
    if MentionsKeyword(Upper(q), |DangerousKeywords|) {
      MentionsSomeKeyword(Upper(q), |DangerousKeywords|);
    }
  }

  /** An accepted query mentions none of the keywords. */
  lemma AcceptedMentionsNoKeyword(q: string, k: nat)
    requires IsSafeQuery(q) && k < |DangerousKeywords|
    ensures !Contains(Upper(q), DangerousKeywords[k])
  {
    MentionsKeywordIff(Upper(q), |DangerousKeywords|, k);
  }

  /** The verdict sees only the upper-cased text. */
  lemma SafetyIgnoresCase(q: string)
    ensures IsSafeQuery(q) == IsSafeQuery(Upper(q))
  {
    UpperIdempotent(q);
  }

  /** Every denylisted word is matched case-insensitively anywhere in the query,
      inside identifiers and string literals too. */
  lemma {:induction false} KeywordAnywhereRejected(q: string, k: nat, i: nat)
    requires k < |DangerousKeywords| && CiOccursAt(q, i, DangerousKeywords[k])
    ensures !IsSafeQuery(q)
  {
    var upper := Upper(q);
    assert OccursAt(upper, i, DangerousKeywords[k]);
    MentionsKeywordIff(upper, |DangerousKeywords|, k);
  }

  /** Naming a `created_at` or `updated_at` column gets a query rejected, because
      CREATE and UPDATE are substrings of those names. */
  lemma {:induction false} TimestampColumnsRejected(q: string, i: nat)
    requires CiOccursAt(q, i, "CREATED_AT") || CiOccursAt(q, i, "UPDATED_AT")
    ensures !IsSafeQuery(q)
  {
    if CiOccursAt(q, i, "CREATED_AT") {
      CiOccursAtPrefix(q, i, "CREATED_AT", DangerousKeywords[5]);
      KeywordAnywhereRejected(q, 5, i);
    } else {
      CiOccursAtPrefix(q, i, "UPDATED_AT", DangerousKeywords[3]);
      KeywordAnywhereRejected(q, 3, i);
    }
  }

  /** A query that does not start with SELECT (after upper-casing and stripping)
      is rejected, whatever follows. */
  lemma NonSelectRejected(q: string)
    requires !StartsWith(Strip(Upper(q)), "SELECT")
    ensures !IsSafeQuery(q)
  {
  }

  /** There is no statement-separator check: two accepted queries joined by a
      semicolon form an accepted query. */
  lemma StackedStatementsAccepted(a: string, b: string)
    requires IsSafeQuery(a) && IsSafeQuery(b)
    ensures IsSafeQuery(a + ";" + b)
  {
    JoinedPrefix(a, b);
    forall k | 0 <= k < |DangerousKeywords|
      ensures !Contains(Upper(a + ";" + b), DangerousKeywords[k])
    {
      AcceptedMentionsNoKeyword(a, k);
      AcceptedMentionsNoKeyword(b, k);
      KeywordsHaveNoSemicolon(k);
      JoinedKeyword(a, b, DangerousKeywords[k]);
    }
    AcceptedWhenChecksPass(a + ";" + b);
  }

  lemma KeywordsHaveNoSemicolon(k: nat)
    requires k < |DangerousKeywords|
    ensures ';' !in DangerousKeywords[k]
  {
  }

  lemma JoinedPrefix(a: string, b: string)
    requires StartsWith(Strip(Upper(a)), "SELECT")
    ensures StartsWith(Strip(Upper(a + ";" + b)), "SELECT")
  {
    assert Upper(a + ";" + b) == Upper(a) + (";" + Upper(b));
    StripKeepsPrefixOnAppend(Upper(a), ";" + Upper(b), "SELECT");
  }

  lemma JoinedKeyword(a: string, b: string, w: string)
    requires ';' !in w && !Contains(Upper(a), w) && !Contains(Upper(b), w)
    ensures !Contains(Upper(a + ";" + b), w)
  {
    assert Upper(a + ";" + b) == Upper(a) + [';'] + Upper(b);
    if Contains(Upper(a + ";" + b), w) {
      ContainsAcrossSeparator(Upper(a), ';', Upper(b), w);
    }
  }

  /** The keywords owe their absence from `s` to one missing character each. */
  lemma KeywordsAbsent(s: string)
    requires 'D' !in s && 'I' !in s && 'U' !in s && 'A' !in s && 'R' !in s && 'X' !in s
    requires '-' !in s && '/' !in s && '*' !in s
    ensures forall k :: 0 <= k < |DangerousKeywords| ==> !Contains(s, DangerousKeywords[k])
  {
    forall k | 0 <= k < |DangerousKeywords|
      ensures !Contains(s, DangerousKeywords[k])
    {
      var j := if 5 <= k <= 8 then 1 else 0;
      if Contains(s, DangerousKeywords[k]) {
        ContainsHasEveryChar(s, DangerousKeywords[k], j);
      }
    }
  }

  /** A query whose upper-cased text `u` starts with SELECT, ends in a
      non-space character and lacks a letter of every keyword is accepted. */
  lemma AcceptedByLetters(q: string, u: string)
    requires Upper(q) == u && StartsWith(u, "SELECT") && !IsSpace(u[|u| - 1])
    requires 'D' !in u && 'I' !in u && 'U' !in u && 'A' !in u && 'R' !in u && 'X' !in u
    requires '-' !in u && '/' !in u && '*' !in u
    ensures IsSafeQuery(q)
  {
    assert u[0] == 'S';
    StripUnchanged(u);
    KeywordsAbsent(u);
    AcceptedWhenChecksPass(q);
  }

  /** The case of the leading SELECT does not matter. */
  lemma SelectCaseIrrelevant(rest: string)
    ensures IsSafeQuery("select" + rest) == IsSafeQuery("SELECT" + rest)
  {
    assert Upper("select" + rest) == Upper("SELECT" + rest);
  }

  /** A DROP after the semicolon is caught by the substring search. */
  lemma DropStatementRejected()
    ensures !IsSafeQuery("SELECT * FROM t; DROP TABLE t;")
  {
    var q := "SELECT * FROM t; DROP TABLE t;";
    assert CiOccursAt(q, 17, DangerousKeywords[0]);
    KeywordAnywhereRejected(q, 0, 17);
  }

  // ---------------------------------------------------------------------------
  // Reply parsing in generate_sql_query
  // ---------------------------------------------------------------------------

  /** What the model call produced: the reply's text, or the message of the
      exception raised while calling the model or reading the reply. */
  datatype ModelReply = Answered(text: string) | Raised(message: string)

  /** The dictionary `generate_sql_query` returns. `sql` and `description` are
      whatever the reply supplied, so they need not be strings. */
  datatype Translation =
    | Translated(sql: Value, description: Value, rawResponse: string)
    | NotTranslated(error: string, rawResponse: string)

  /** A regular-expression match `text[start..end]`. */
  datatype Span = Span(start: nat, end: nat)

  const AutoDescription := "자동 생성된 쿼리"
  const NoQueryError := "SQL 쿼리를 생성할 수 없습니다."
  const CallErrorPrefix := "Gemini API 호출 중 오류 발생: "

  /** `\{.*\}` (DOTALL) matches `t[i..e]`. */
  ghost predicate IsBraceMatch(t: string, i: int, e: int) {
    0 <= i && i + 2 <= e <= |t| && t[i] == '{' && t[e - 1] == '}'
  }

  /** `re.search(r'\{.*\}', t, re.DOTALL)`: the leftmost match, then the longest. */
  function BraceSpan(t: string): (r: Option<Span>)
    ensures r.Some? ==> IsBraceMatch(t, r.value.start, r.value.end)
    ensures r.Some? ==> forall i, e :: IsBraceMatch(t, i, e) ==>
              r.value.start <= i && (i == r.value.start ==> e <= r.value.end)
    ensures r.None? ==> forall i, e :: !IsBraceMatch(t, i, e)
  {
    match (IndexOfFrom(t, '{', 0), LastIndexOf(t, '}'))
    case (Some(i), Some(j)) => if i < j then Some(Span(i, j + 1)) else None
    case _ => None
  }

  /** `SELECT.*?;` (IGNORECASE, DOTALL) matches `t[i..e]`. */
  ghost predicate IsSelectMatch(t: string, i: int, e: int) {
    CiOccursAt(t, i, "SELECT") && i + 7 <= e <= |t| && t[e - 1] == ';'
  }

  /** `re.search(r'SELECT.*?;', t, re.IGNORECASE | re.DOTALL)`: the leftmost
      match, then the shortest. */
  function SelectSpan(t: string): (r: Option<Span>)
    ensures r.Some? ==> IsSelectMatch(t, r.value.start, r.value.end)
    ensures r.Some? ==> forall i, e :: IsSelectMatch(t, i, e) ==>
              r.value.start <= i && (i == r.value.start ==> r.value.end <= e)
    ensures r.None? ==> forall i, e :: !IsSelectMatch(t, i, e)
  {
    match CiFindFrom(t, "SELECT", 0)
    case None => None
    case Some(i) =>
      match IndexOfFrom(t, ';', i + 6)
      case None => None
      case Some(j) => Some(Span(i, j + 1))
  }

  /** The text a match covers. */
  function Matched(t: string, sp: Span): string
    requires sp.start <= sp.end <= |t|
  {
    t[sp.start..sp.end]
  }

  /** `json.loads` of the `{...}` span, when there is one and it decodes. */
  function DecodedSpan(text: string, decode: string -> Option<Value>): (r: Option<Value>)
    ensures r.Some? ==> BraceSpan(text).Some? && r == decode(Matched(text, BraceSpan(text).value))
    ensures BraceSpan(text).Some? ==> r == decode(Matched(text, BraceSpan(text).value))
  {
    match BraceSpan(text)
    case Some(sp) => decode(Matched(text, sp))
    case None => None
  }

  /** The reply-handling part of `generate_sql_query`. The reply is stripped; a
      decodable `{...}` span wins; otherwise the first SELECT...; span is the
      query; otherwise the translation fails. A decoded value that is not an
      object makes `.get` raise, which the outer handler reports. */
  function ParseReply(reply: ModelReply, decode: string -> Option<Value>): (r: Translation)
    ensures reply.Raised? ==> r == NotTranslated(CallErrorPrefix + reply.message, "")
    ensures r.Translated? ==> reply.Answered? && r.rawResponse == Strip(reply.text)
    ensures r.NotTranslated? && r.rawResponse != "" ==>
              reply.Answered? && r.rawResponse == Strip(reply.text) && r.error == NoQueryError
    ensures reply.Answered? && DecodedSpan(Strip(reply.text), decode).Some? ==>
              var v := DecodedSpan(Strip(reply.text), decode).value;
              (r.Translated? <==> v.Obj?)
              && (v.Obj? ==> r.sql == Get(v.fields, "sql", Str(""))
                             && r.description == Get(v.fields, "description", Str("")))
  {
    match reply
    case Raised(message) => NotTranslated(CallErrorPrefix + message, "")
    case Answered(raw) =>
      var text := Strip(raw);
      var decoded := DecodedSpan(text, decode);
      if decoded.Some? then
        match decoded.value
        case Obj(fields) =>
          Translated(Get(fields, "sql", Str("")), Get(fields, "description", Str("")), text)
        case other => NotTranslated(CallErrorPrefix + NoAttributeMessage(other, "get"), "")
      else
        match SelectSpan(text)
        case Some(sp) => Translated(Str(Strip(Matched(text, sp))), Str(AutoDescription), text)
        case None => NotTranslated(NoQueryError, text)
  }

  /** A span of `t` that starts with SELECT in some case and ends at the
      first semicolon after it needs no stripping and holds exactly one
      semicolon: its last character. */
  lemma SpanShape(t: string, i: nat, e: nat)
    requires i + 7 <= e <= |t| && CiOccursAt(t, i, "SELECT") && t[e - 1] == ';'
    requires forall k :: i + 6 <= k < e - 1 ==> t[k] != ';'
    ensures var q := t[i..e];
            Strip(q) == q && CiOccursAt(q, 0, "SELECT") && q[|q| - 1] == ';'
            && forall k :: 0 <= k < |q| - 1 ==> q[k] != ';'
  {
    var q := t[i..e];
    CiOccursAtSlice(t, i, e, i, "SELECT");
    forall k | 0 <= k < |q| - 1 ensures q[k] != ';' {
      assert q[k] == t[i + k];
      if k < 6 {
        assert UpperChar(q[k]) == "SELECT"[k];
      }
    }
    assert q[0] == 'S' || q[0] == 's' by {
      assert UpperChar(q[0]) == "SELECT"[0];
    }
    assert q[|q| - 1] == t[e - 1];
    StripUnchanged(q);
  }

  /** The SELECT...; span needs no stripping, starts with SELECT in some case,
      and holds exactly one semicolon: its last character. */
  lemma SelectSpanShape(t: string)
    requires SelectSpan(t).Some?
    ensures var sp := SelectSpan(t).value;
            var q := Matched(t, sp);
            Strip(q) == q && CiOccursAt(q, 0, "SELECT") && q[|q| - 1] == ';'
            && forall k :: 0 <= k < |q| - 1 ==> q[k] != ';'
  {
    var i := CiFindFrom(t, "SELECT", 0).value;
    var e := IndexOfFrom(t, ';', i + 6).value + 1;
    assert SelectSpan(t).value == Span(i, e);
    SpanShape(t, i, e);
  }

  /** Without a decodable object, a reply holding a SELECT...; span yields that
      span as the query, with the fixed description. */
  lemma {:induction false} FallbackExtraction(raw: string, decode: string -> Option<Value>)
    requires var text := Strip(raw);
             (BraceSpan(text).None? || decode(Matched(text, BraceSpan(text).value)).None?)
             && SelectSpan(text).Some?
    ensures var text := Strip(raw);
            var sp := SelectSpan(text).value;
            ParseReply(Answered(raw), decode)
              == Translated(Str(Matched(text, sp)), Str(AutoDescription), text)
  {
    SelectSpanShape(Strip(raw));
  }

  /** A decoded object carrying "sql" is a success whose query is that
      field, whatever the rest of the reply says. */
  lemma ObjectWithSqlIsSuccess(raw: string, decode: string -> Option<Value>, m: map<string, Value>)
    requires DecodedSpan(Strip(raw), decode) == Some(Obj(m))
    requires "sql" in m
    ensures ParseReply(Answered(raw), decode)
            == Translated(m["sql"], Get(m, "description", Str("")), Strip(raw))
  {
  }

  /** A decoded object without "sql" is still a success, with an empty query. */
  lemma ObjectWithoutSqlIsSuccess(raw: string, decode: string -> Option<Value>, m: map<string, Value>)
    requires BraceSpan(Strip(raw)).Some?
    requires decode(Matched(Strip(raw), BraceSpan(Strip(raw)).value)) == Some(Obj(m))
    requires "sql" !in m
    ensures ParseReply(Answered(raw), decode)
            == Translated(Str(""), Get(m, "description", Str("")), Strip(raw))
  {
  }

  /** A decoded value that is not an object is reported as a failed call with
      an empty raw response. */
  lemma NonObjectReplyFails(raw: string, decode: string -> Option<Value>)
    requires BraceSpan(Strip(raw)).Some?
    requires decode(Matched(Strip(raw), BraceSpan(Strip(raw)).value)).Some?
    requires !decode(Matched(Strip(raw), BraceSpan(Strip(raw)).value)).value.Obj?
    ensures ParseReply(Answered(raw), decode).NotTranslated?
    ensures ParseReply(Answered(raw), decode).rawResponse == ""
  {
  }

  /** With no decodable span (none found, or one that does not decode) and
      no SELECT...; span the result is the fixed failure carrying the stripped
      reply. */
  lemma NoQueryFound(raw: string, decode: string -> Option<Value>)
    requires forall i, e :: !IsSelectMatch(Strip(raw), i, e)
    requires DecodedSpan(Strip(raw), decode).None?
    ensures ParseReply(Answered(raw), decode) == NotTranslated(NoQueryError, Strip(raw))
  {
  }
}
