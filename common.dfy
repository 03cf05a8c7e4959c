/** Shared vocabulary of the model: optional values, results, HTTP errors,
    SQL-style OFFSET/LIMIT windows and the database's ORDER BY. */
module Common {

  datatype Option<+T> = None | Some(value: T)

  datatype Result<+T, +E> = Ok(value: T) | Err(error: E)

  /** An `HTTPException(status_code, detail)` raised by a route or a crud helper. */
  datatype HttpError = HttpError(status: int, detail: string)

  /** What FastAPI answers when a handler lets an unexpected exception escape. */
  const InternalServerError := HttpError(500, "Internal Server Error")

  function Min(a: int, b: int): int { if a <= b then a else b }

  /** A prefix one element longer. */
  lemma PrefixStep<T>(s: seq<T>, i: nat)
    requires i < |s|
    ensures s[..i + 1] == s[..i] + [s[i]]
  {
  }

  /** The value the last write in `fs` gives a field, where `pick` says what
      a write sets that field to; `otherwise` when no write sets it. */
  function LastWrite<F, T>(fs: seq<F>, pick: F -> Option<T>, otherwise: T): (r: T)
    ensures (forall k :: 0 <= k < |fs| ==> pick(fs[k]).None?) ==> r == otherwise
    ensures forall k :: 0 <= k < |fs| && pick(fs[k]).Some? && (forall j :: k < j < |fs| ==> pick(fs[j]).None?)
              ==> r == pick(fs[k]).value
  {
    if fs == [] then otherwise
    else match pick(fs[|fs| - 1])
      case Some(v) => v
      case None => LastWrite(fs[..|fs| - 1], pick, otherwise)
  }

  /** A sequence that agrees with `a` and then ends in `x` is `a + [x]`. */
  lemma AppendOne<T>(a: seq<T>, b: seq<T>, x: T)
    requires |b| == |a| + 1 && b[|a|] == x
    requires forall j :: 0 <= j < |a| ==> b[j] == a[j]
    ensures b == a + [x]
  {
  }

  /** A slice that starts one element later, with that element put back in front. */
  lemma ConsSlice<T>(s: seq<T>, k: nat, j: nat, rest: seq<T>)
    requires k < j <= |s|
    ensures [s[k]] + (s[k + 1..j] + rest) == s[k..j] + rest
  {
    assert s[k..j] == [s[k]] + s[k + 1..j];
  }

  /** `query.offset(offset).limit(limit)` applied to rows already in order. */
  function Window<T>(s: seq<T>, offset: nat, limit: nat): (r: seq<T>)
    ensures |r| <= limit && |r| <= |s|
    ensures forall k :: 0 <= k < |r| ==> offset + k < |s| && r[k] == s[offset + k]
    ensures |r| == Min(limit, if offset <= |s| then |s| - offset else 0)
  {
    var lo := Min(offset, |s|);
    var hi := Min(offset + limit, |s|);
    s[lo..hi]
  }

  /** Rows of `s` that satisfy `p`, in their original order (a SQL WHERE clause). */
  function Filter<T(!new)>(s: seq<T>, p: T -> bool): (r: seq<T>)
    ensures |r| <= |s|
    ensures forall x :: x in r <==> x in s && p(x)
    ensures multiset(r) <= multiset(s)
  {
    if s == [] then []
    else
      assert s == [s[0]] + s[1..];
      (if p(s[0]) then [s[0]] else []) + Filter(s[1..], p)
  }

  /** A WHERE clause over two runs of rows is the two filtered runs. */
  lemma {:induction false} FilterAppend<T(!new)>(a: seq<T>, b: seq<T>, p: T -> bool)
    ensures Filter(a + b, p) == Filter(a, p) + Filter(b, p)
  {
    if a == [] {
      assert a + b == b;
    } else {
      assert (a + b)[0] == a[0] && (a + b)[1..] == a[1..] + b;
      FilterAppend(a[1..], b, p);
    }
  }

  /** A WHERE clause every row satisfies keeps them all. */
  lemma {:induction false} FilterAllKept<T(!new)>(s: seq<T>, p: T -> bool)
    requires forall x :: x in s ==> p(x)
    ensures Filter(s, p) == s
  {
    if s != [] {
      assert forall x :: x in s[1..] ==> x in s;
      FilterAllKept(s[1..], p);
      assert s == [s[0]] + s[1..];
    }
  }

  /** A WHERE clause no row satisfies keeps none. */
  lemma FilterNoneKept<T(!new)>(s: seq<T>, p: T -> bool)
    requires forall x :: x in s ==> !p(x)
    ensures Filter(s, p) == []
  {
  }

  /** A WHERE clause that implies an earlier one makes the earlier one redundant. */
  lemma {:induction false} FilterOfFilter<T(!new)>(s: seq<T>, p: T -> bool, q: T -> bool)
    requires forall x :: q(x) ==> p(x)
    ensures Filter(Filter(s, p), q) == Filter(s, q)
  {
    if s != [] {
      var x, rest := s[0], s[1..];
      FilterOfFilter(rest, p, q);
      var head := if p(x) then [x] else [];
      assert Filter(s, p) == head + Filter(rest, p);
      assert Filter(s, q) == (if q(x) then [x] else []) + Filter(rest, q);
      FilterAppend(head, Filter(rest, p), q);
      assert Filter(head, q) == if q(x) then [x] else [];
    }
  }

  /** No two rows share a value of `key`, as for a primary key column. */
  ghost predicate DistinctBy<T>(s: seq<T>, key: T -> int) {
    forall i, j :: 0 <= i < j < |s| ==> key(s[i]) != key(s[j])
  }

  /** A WHERE clause keeps a key column's values distinct. */
  lemma {:induction false} FilterKeepsDistinct<T(!new)>(s: seq<T>, p: T -> bool, key: T -> int)
    requires DistinctBy(s, key)
    ensures DistinctBy(Filter(s, p), key)
  {
    if s != [] {
      var t := s[1..];
      assert DistinctBy(t, key) by {
        forall i, j | 0 <= i < j < |t| ensures key(t[i]) != key(t[j]) {
          assert t[i] == s[i + 1] && t[j] == s[j + 1];
        }
      }
      FilterKeepsDistinct(t, p, key);
      var ft := Filter(t, p);
      var r := Filter(s, p);
      if p(s[0]) {
        assert r == [s[0]] + ft;
        forall i, j | 0 <= i < j < |r| ensures key(r[i]) != key(r[j]) {
          assert r[j] == ft[j - 1];
          if i > 0 {
            assert r[i] == ft[i - 1];
          } else {
            assert ft[j - 1] in t;
            var m :| 0 <= m < |t| && t[m] == ft[j - 1];
            assert t[m] == s[m + 1];
          }
        }
      } else {
        assert r == ft;
      }
    }
  }

  /** `key` does not decrease along `s`. */
  ghost predicate SortedBy<T>(s: seq<T>, key: T -> int) {
    forall i, j :: 0 <= i < j < |s| ==> key(s[i]) <= key(s[j])
  }

  function InsertBy<T>(x: T, s: seq<T>, key: T -> int): (r: seq<T>)
    ensures multiset(r) == multiset(s) + multiset{x}
    ensures |r| == |s| + 1
  {
    if s == [] || key(x) < key(s[0]) then [x] + s
    else
      assert s == [s[0]] + s[1..];
      [s[0]] + InsertBy(x, s[1..], key)
  }

  lemma {:induction false} InsertBySorted<T>(x: T, s: seq<T>, key: T -> int)
    requires SortedBy(s, key)
    ensures SortedBy(InsertBy(x, s, key), key)
  {
    if s == [] || key(x) < key(s[0]) {
    } else {
      InsertBySorted(x, s[1..], key);
      var r := InsertBy(x, s, key);
      var t := InsertBy(x, s[1..], key);
      assert r == [s[0]] + t;
      forall k | 0 <= k < |t| ensures key(s[0]) <= key(t[k]) {
        assert t[k] in multiset(t);
        assert t[k] in multiset(s[1..]) + multiset{x};
        if t[k] in multiset(s[1..]) {
          var j :| 0 <= j < |s[1..]| && s[1..][j] == t[k];
          assert s[1 + j] == t[k];
        }
      }
    }
  }

  /** A sort by an integer key: the model of `ORDER BY key ASC`. The database
      leaves the order of rows with equal keys open; this is one such order. */
  function SortBy<T>(s: seq<T>, key: T -> int): (r: seq<T>)
    ensures multiset(r) == multiset(s)
    ensures |r| == |s|
  {
    if s == [] then []
    else
      assert s == [s[0]] + s[1..];
      InsertBy(s[0], SortBy(s[1..], key), key)
  }

  lemma {:induction false} SortBySorted<T>(s: seq<T>, key: T -> int)
    ensures SortedBy(SortBy(s, key), key)
  {
    if s != [] {
      SortBySorted(s[1..], key);
      InsertBySorted(s[0], SortBy(s[1..], key), key);
    }
  }

  /** `ORDER BY key DESC`. */
  function SortByDesc<T>(s: seq<T>, key: T -> int): (r: seq<T>)
    ensures multiset(r) == multiset(s)
    ensures |r| == |s|
    ensures SortedBy(r, x => -key(x))
  {
    SortBySorted(s, x => -key(x));
    SortBy(s, x => -key(x))
  }

  /** `ORDER BY key ASC`, with the sortedness stated. */
  function SortByAsc<T>(s: seq<T>, key: T -> int): (r: seq<T>)
    ensures multiset(r) == multiset(s)
    ensures |r| == |s|
    ensures SortedBy(r, key)
  {
    SortBySorted(s, key);
    SortBy(s, key)
  }

  /** Python's `a // b`: the quotient rounded toward negative infinity. */
  function FloorDiv(a: int, b: int): (q: int)
    requires b != 0
    ensures b > 0 ==> q * b <= a < q * b + b
    ensures b < 0 ==> q * b + b < a <= q * b
  {
    if b > 0 then a / b else (-a) / (-b)
  }

  /** `(total + size - 1) // size` for a positive size: the number of pages. */
  function PageCount(total: nat, size: int): (n: nat)
    requires size >= 1
    ensures n * size >= total
    ensures n == 0 || (n - 1) * size < total
  {
    (total + size - 1) / size
  }

  /** The page count is the least n with n * size >= total. */
  lemma PageCountLeast(total: nat, size: int, m: nat)
    requires size >= 1 && m * size >= total
    ensures PageCount(total, size) <= m
  {
    var n := PageCount(total, size);
    if n > m {
      assert (n - 1) * size >= m * size by {
        assert n - 1 >= m;
        MulMono(n - 1, m, size);
      }
    }
  }

  /** `(page - 1) * size`: where page `page` (counted from 1) of `size` rows
      starts. */
  function PageOffset(page: int, size: int): nat
    requires page >= 1 && size >= 0
  {
    MulMono(page - 1, 0, size);
    (page - 1) * size
  }

  lemma MulMono(a: int, b: int, c: int)
    requires a >= b && c >= 0
    ensures a * c >= b * c
  {
  }

  /** The position of the first row satisfying `p`: `.filter(p).first()`. */
  function FindFirst<T>(s: seq<T>, p: T -> bool): (r: Option<nat>)
    ensures r.Some? ==> r.value < |s| && p(s[r.value])
    ensures r.Some? ==> forall k :: 0 <= k < r.value ==> !p(s[k])
    ensures r.None? ==> forall k :: 0 <= k < |s| ==> !p(s[k])
  {
    if s == [] then None
    else if p(s[0]) then Some(0)
    else
      var r := FindFirst(s[1..], p);
      if r.Some? then Some(r.value + 1) else None
  }

  /** The table without its `i`-th row: `db.delete(row)`. */
  function RemoveAt<T>(s: seq<T>, i: nat): (r: seq<T>)
    requires i < |s|
    ensures |r| == |s| - 1
    ensures forall k :: 0 <= k < |r| ==> r[k] == if k < i then s[k] else s[k + 1]
    ensures multiset(r) + multiset{s[i]} == multiset(s)
  {
    assert s == s[..i] + [s[i]] + s[i + 1..];
    s[..i] + s[i + 1..]
  }

  /** At most one row satisfies `p`, as for a key column. */
  ghost predicate AtMostOne<T>(s: seq<T>, p: T -> bool) {
    forall i, j :: 0 <= i < |s| && 0 <= j < |s| && p(s[i]) && p(s[j]) ==> i == j
  }

  /** `.filter(p).first()` followed by `db.delete(row)` when a row was found. */
  function DeleteFirst<T>(s: seq<T>, p: T -> bool): (r: seq<T>)
    ensures FindFirst(s, p).None? ==> r == s
    ensures FindFirst(s, p).Some? ==>
              |r| == |s| - 1 && multiset(r) + multiset{s[FindFirst(s, p).value]} == multiset(s)
    ensures forall x :: x in r ==> x in s
  {
    match FindFirst(s, p)
    case None => s
    case Some(i) =>
      var r := RemoveAt(s, i);
      assert forall x :: x in r ==> x in multiset(s);
      r
  }

  /** Rows that do not satisfy `p` survive the delete. */
  lemma DeleteFirstKeepsOthers<T>(s: seq<T>, p: T -> bool, x: T)
    requires x in s && !p(x)
    ensures x in DeleteFirst(s, p)
  {
    var i := FindFirst(s, p);
    if i.Some? {
      assert x != s[i.value];
      assert x in multiset(s);
      assert x in multiset(DeleteFirst(s, p)) + multiset{s[i.value]};
    }
  }

  /** With a key filter, no row satisfying it remains after the delete. */
  lemma DeleteFirstLeavesNone<T>(s: seq<T>, p: T -> bool)
    requires AtMostOne(s, p)
    ensures forall x :: x in DeleteFirst(s, p) ==> !p(x)
  {
    var i := FindFirst(s, p);
    if i.Some? {
      var r := DeleteFirst(s, p);
      forall x | x in r ensures !p(x) {
        var k :| 0 <= k < |r| && r[k] == x;
        assert r[k] == if k < i.value then s[k] else s[k + 1];
      }
    }
  }

  /** `.filter(p).order_by(key.desc())` before any OFFSET/LIMIT: the one
      ordering of the matching rows that every page is cut from. */
  function NewestOrder<T(!new)>(s: seq<T>, p: T -> bool, key: T -> int): (r: seq<T>)
    ensures multiset(r) == multiset(Filter(s, p))
    ensures |r| == |Filter(s, p)|
    ensures forall x :: x in r ==> x in s && p(x)
    ensures forall i, j :: 0 <= i < j < |r| ==> key(r[i]) >= key(r[j])
  {
    var ordered := SortByDesc(Filter(s, p), key);
    OrderedRows(s, p, key, ordered);
    ordered
  }

  /** `.filter(p).order_by(key.desc()).offset(skip).limit(limit)`: a window
      of `NewestOrder`. */
  function NewestFirst<T(!new)>(s: seq<T>, p: T -> bool, key: T -> int, skip: nat, limit: nat): (r: seq<T>)
    ensures r == Window(NewestOrder(s, p, key), skip, limit)
    ensures |r| <= limit
    ensures forall x :: x in r ==> x in s && p(x)
    ensures forall i, j :: 0 <= i < j < |r| ==> key(r[i]) >= key(r[j])
    ensures skip == 0 && limit >= |s| ==> multiset(r) == multiset(Filter(s, p))
    ensures |r| == Min(limit, if skip <= |Filter(s, p)| then |Filter(s, p)| - skip else 0)
  {
    var ordered := NewestOrder(s, p, key);
    WindowOfOrdered(s, p, key, ordered, skip, limit);
    Window(ordered, skip, limit)
  }

  /** Two consecutive windows make up the window that spans both: pages cut
      from one ordering never overlap and leave no row out between them. */
  lemma WindowsFollowOn<T>(o: seq<T>, skip: nat, a: nat, b: nat)
    ensures Window(o, skip, a) + Window(o, skip + a, b) == Window(o, skip, a + b)
  {
    var lo, mid, hi := Min(skip, |o|), Min(skip + a, |o|), Min(skip + a + b, |o|);
    assert o[lo..hi] == o[lo..mid] + o[mid..hi];
  }

  /** Page after page of one listing: consecutive pages together are the
      longer page, so no matching row is shown twice or skipped. */
  lemma ConsecutivePages<T(!new)>(s: seq<T>, p: T -> bool, key: T -> int, skip: nat, a: nat, b: nat)
    ensures NewestFirst(s, p, key, skip, a) + NewestFirst(s, p, key, skip + a, b) == NewestFirst(s, p, key, skip, a + b)
  {
    WindowsFollowOn(NewestOrder(s, p, key), skip, a, b);
  }

  /** `.filter(p).order_by(key.desc()).all()`: every row that satisfies `p`, once, largest key first. */
  function AllNewestFirst<T(!new)>(s: seq<T>, p: T -> bool, key: T -> int): (r: seq<T>)
    ensures forall x :: x in r <==> x in s && p(x)
    ensures forall i, j :: 0 <= i < j < |r| ==> key(r[i]) >= key(r[j])
    ensures multiset(r) == multiset(Filter(s, p))
  {
    var r := NewestFirst(s, p, key, 0, |s|);
    assert forall x :: x in Filter(s, p) ==> x in multiset(r);
    r
  }

  lemma OrderedRows<T(!new)>(s: seq<T>, p: T -> bool, key: T -> int, ordered: seq<T>)
    requires multiset(ordered) == multiset(Filter(s, p)) && SortedBy(ordered, x => -key(x))
    ensures forall x :: x in ordered ==> x in s && p(x)
    ensures forall i, j :: 0 <= i < j < |ordered| ==> key(ordered[i]) >= key(ordered[j])
  {
    forall x | x in ordered ensures x in s && p(x) {
      assert x in multiset(ordered);
    }
  }

  lemma WindowOfOrdered<T>(s: seq<T>, p: T -> bool, key: T -> int, ordered: seq<T>, skip: nat, limit: nat)
    requires forall x :: x in ordered ==> x in s && p(x)
    requires forall i, j :: 0 <= i < j < |ordered| ==> key(ordered[i]) >= key(ordered[j])
    ensures var r := Window(ordered, skip, limit);
            (forall x :: x in r ==> x in s && p(x))
            && (forall i, j :: 0 <= i < j < |r| ==> key(r[i]) >= key(r[j]))
            && (skip == 0 && limit >= |ordered| ==> r == ordered)
  {
    var r := Window(ordered, skip, limit);
    forall x | x in r ensures x in s && p(x) {
      var k :| 0 <= k < |r| && r[k] == x;
      assert x == ordered[skip + k];
    }
    forall i, j | 0 <= i < j < |r| ensures key(r[i]) >= key(r[j]) {
      assert r[i] == ordered[skip + i] && r[j] == ordered[skip + j];
    }
  }

  /** `.filter(p).order_by(key.asc())`. */
  function OldestFirst<T(!new)>(s: seq<T>, p: T -> bool, key: T -> int): (r: seq<T>)
    ensures multiset(r) == multiset(Filter(s, p))
    ensures forall x :: x in r ==> x in s && p(x)
    ensures forall i, j :: 0 <= i < j < |r| ==> key(r[i]) <= key(r[j])
  {
    var r := SortByAsc(Filter(s, p), key);
    assert forall x :: x in r ==> x in multiset(Filter(s, p));
    r
  }
}
