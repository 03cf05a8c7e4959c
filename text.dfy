/** Python string operations the backend relies on, over `seq<char>`.
    Case mapping is ASCII-only; whitespace is the set Python's `str.isspace`,
    `str.strip` and the regular expression class `\s` agree on. */
module Text {

  import opened Common

  /** Python's whitespace characters. */
  predicate IsSpace(c: char) {
    c == ' ' || ('\t' <= c <= '\r') || ('\U{1C}' <= c <= '\U{1F}')
    || c == '\U{85}' || c == '\U{A0}' || c == '\U{1680}'
    || ('\U{2000}' <= c <= '\U{200A}') || c == '\U{2028}' || c == '\U{2029}'
    || c == '\U{202F}' || c == '\U{205F}' || c == '\U{3000}'
  }

  function UpperChar(c: char): (u: char)
    ensures 'a' <= c <= 'z' ==> 'A' <= u <= 'Z' && u as int == c as int - 32
    ensures !('a' <= c <= 'z') ==> u == c
  {
    if 'a' <= c <= 'z' then (c as int - 32) as char else c
  }

  function LowerChar(c: char): (l: char)
    ensures 'A' <= c <= 'Z' ==> 'a' <= l <= 'z' && l as int == c as int + 32
    ensures !('A' <= c <= 'Z') ==> l == c
  {
    if 'A' <= c <= 'Z' then (c as int + 32) as char else c
  }

  /** `str.upper()` */
  function Upper(s: string): (r: string)
    ensures |r| == |s|
    ensures forall i :: 0 <= i < |s| ==> r[i] == UpperChar(s[i])
  {
    seq(|s|, i requires 0 <= i < |s| => UpperChar(s[i]))
  }

  /** `str.lower()` */
  function Lower(s: string): (r: string)
    ensures |r| == |s|
    ensures forall i :: 0 <= i < |s| ==> r[i] == LowerChar(s[i])
  {
    seq(|s|, i requires 0 <= i < |s| => LowerChar(s[i]))
  }

  lemma UpperIdempotent(s: string)
    ensures Upper(Upper(s)) == Upper(s)
  {
  }

  /** `s.startswith(p)` */
  predicate StartsWith(s: string, p: string) {
    |p| <= |s| && forall k :: 0 <= k < |p| ==> s[k] == p[k]
  }

  /** `s.endswith(t)` */
  predicate EndsWith(s: string, t: string) {
    |t| <= |s| && s[|s| - |t|..] == t
  }

  /** `w` occurs in `s` at index `i`. */
  predicate OccursAt(s: string, i: int, w: string) {
    0 <= i && i + |w| <= |s| && forall k :: 0 <= k < |w| ==> s[i + k] == w[k]
  }

  /** `w in s` */
  predicate Contains(s: string, w: string) {
    exists i | 0 <= i <= |s| - |w| :: OccursAt(s, i, w)
  }

  /** `w` occurs at `i` when `s` is compared case-insensitively (re.IGNORECASE);
      `w` is given in upper case. */
  predicate CiOccursAt(s: string, i: int, w: string) {
    0 <= i && i + |w| <= |s| && forall k :: 0 <= k < |w| ==> UpperChar(s[i + k]) == w[k]
  }

  /** The number of whitespace characters `s` starts with. */
  function LeadingSpaces(s: string): (n: nat)
    ensures n <= |s|
    ensures n < |s| ==> !IsSpace(s[n])
  {
    if |s| > 0 && IsSpace(s[0]) then 1 + LeadingSpaces(s[1..]) else 0
  }

  lemma {:induction false} LeadingSpacesAreSpace(s: string)
    ensures forall k :: 0 <= k < LeadingSpaces(s) ==> IsSpace(s[k])
  {
    if |s| > 0 && IsSpace(s[0]) {
      LeadingSpacesAreSpace(s[1..]);
      assert forall k :: 1 <= k < LeadingSpaces(s) ==> s[k] == s[1..][k - 1];
    }
  }

  /** The number of whitespace characters `s` ends with. */
  function TrailingSpaces(s: string): (n: nat)
    ensures n <= |s|
    ensures n < |s| ==> !IsSpace(s[|s| - 1 - n])
  {
    if |s| > 0 && IsSpace(s[|s| - 1]) then 1 + TrailingSpaces(s[..|s| - 1]) else 0
  }

  lemma {:induction false} TrailingSpacesAreSpace(s: string)
    ensures forall k :: |s| - TrailingSpaces(s) <= k < |s| ==> IsSpace(s[k])
  {
    if |s| > 0 && IsSpace(s[|s| - 1]) {
      TrailingSpacesAreSpace(s[..|s| - 1]);
      assert forall k :: |s| - TrailingSpaces(s) <= k < |s| - 1 ==> s[k] == s[..|s| - 1][k];
    }
  }

  /** `str.lstrip()` */
  function TrimStart(s: string): (r: string)
    ensures |r| <= |s|
    ensures r == [] || !IsSpace(r[0])
  {
    s[LeadingSpaces(s)..]
  }

  /** `str.rstrip()` */
  function TrimEnd(s: string): (r: string)
    ensures |r| <= |s|
    ensures r == [] || !IsSpace(r[|r| - 1])
  {
    s[..|s| - TrailingSpaces(s)]
  }

  /** `str.strip()`: the longest infix with no whitespace at either end. */
  function Strip(s: string): (r: string)
    ensures |r| <= |s|
    ensures r == [] || (!IsSpace(r[0]) && !IsSpace(r[|r| - 1]))
  {
    TrimEnd(TrimStart(s))
  }

  /** What `Strip` removes is whitespace at the two ends. */
  lemma StripIsInfix(s: string)
    ensures InfixAmidSpace(s, LeadingSpaces(s), Strip(s))
  {
    var n := LeadingSpaces(s);
    var t := TrimStart(s);
    var r := Strip(s);
    LeadingSpacesAreSpace(s);
    assert forall k :: 0 <= k < |r| ==> s[n + k] == r[k] by {
      forall k | 0 <= k < |r| ensures s[n + k] == r[k] {
        assert r[k] == t[k];
      }
    }
    assert forall k :: n + |r| <= k < |s| ==> IsSpace(s[k]) by {
      TrailingSpacesAreSpace(t);
      forall k | n + |r| <= k < |s| ensures IsSpace(s[k]) {
        assert s[k] == t[k - n];
      }
    }
  }

  /** `r` sits at index `i` of `s` with only whitespace around it. */
  predicate InfixAmidSpace(s: string, i: int, r: string) {
    0 <= i <= |s| - |r| && (forall k :: 0 <= k < |r| ==> s[i + k] == r[k])
    && (forall k :: 0 <= k < i ==> IsSpace(s[k]))
    && (forall k :: i + |r| <= k < |s| ==> IsSpace(s[k]))
  }

  /** Stripping text that neither starts nor ends with whitespace changes nothing. */
  lemma StripUnchanged(s: string)
    requires s == [] || (!IsSpace(s[0]) && !IsSpace(s[|s| - 1]))
    ensures Strip(s) == s
  {
  }

  /** `str.rstrip(c)` for one character `c`. */
  function TrimEndChar(s: string, c: char): (r: string)
    ensures |r| <= |s| && r == s[..|r|]
    ensures r == [] || r[|r| - 1] != c
    ensures forall k :: |r| <= k < |s| ==> s[k] == c
  {
    if |s| > 0 && s[|s| - 1] == c then TrimEndChar(s[..|s| - 1], c) else s
  }

  function DigitChar(d: int): (c: char)
    requires 0 <= d < 10
    ensures '0' <= c <= '9'
  {
    ('0' as int + d) as char
  }

  /** `str(n)` for a non-negative integer. */
  function NatToString(n: nat): (r: string)
    ensures |r| >= 1
    ensures forall k :: 0 <= k < |r| ==> '0' <= r[k] <= '9'
    ensures n > 0 ==> r[0] != '0'
  {
    if n < 10 then [DigitChar(n)] else NatToString(n / 10) + [DigitChar(n % 10)]
  }

  /** `str(i)` for any integer. */
  function IntToString(i: int): (r: string)
    ensures |r| >= 1
    ensures i >= 0 <==> r[0] != '-'
  {
    if i < 0 then "-" + NatToString(-i) else NatToString(i)
  }

  function Pow10(n: nat): (p: nat)
    ensures p >= 1
  {
    if n == 0 then 1 else 10 * Pow10(n - 1)
  }

  lemma Pow10Values()
    ensures Pow10(2) == 100 && Pow10(4) == 10000
  {
    assert Pow10(1) == 10 && Pow10(3) == 1000;
  }

  /** A number below `10^width` has at most `width` decimal digits. */
  lemma {:induction false} NatToStringLength(n: nat, width: nat)
    requires width >= 1 && n < Pow10(width)
    ensures |NatToString(n)| <= width
  {
    if n >= 10 {
      NatToStringLength(n / 10, width - 1);
    }
  }

  /** `%0<width>d`: the decimal digits of `n`, left-padded with '0' to `width`. */
  function Padded(n: int, width: nat): (r: string)
    ensures |r| >= width
    ensures width >= 1 && 0 <= n < Pow10(width) ==> |r| == width && forall k :: 0 <= k < |r| ==> '0' <= r[k] <= '9'
  {
    var s := IntToString(n);
    var r := if |s| < width then seq(width - |s|, _ => '0') + s else s;
    if 0 <= n < Pow10(width) && width >= 1 then NatToStringLength(n, width); r else r
  }

  /** `s.split(c)[-1]`: the text after the last `c`, or all of `s` when there is none. */
  function AfterLast(s: string, c: char): (r: string)
    ensures |r| <= |s| && r == s[|s| - |r|..]
    ensures c !in r
    ensures c in s ==> |r| < |s| && s[|s| - |r| - 1] == c
    ensures c !in s ==> r == s
  {
    if s == [] then []
    else if s[|s| - 1] == c then []
    else
      var r := AfterLast(s[..|s| - 1], c);
      assert c in s[..|s| - 1] <==> c in s;
      r + [s[|s| - 1]]
  }

  /** The first index at or after `from` holding `c` (`s.find(c, from)`). */
  function IndexOfFrom(s: string, c: char, from: nat): (r: Option<nat>)
    decreases |s| - from
    ensures r.Some? ==> from <= r.value < |s| && s[r.value] == c
                        && forall k :: from <= k < r.value ==> s[k] != c
    ensures r.None? ==> forall k :: from <= k < |s| ==> s[k] != c
  {
    if from >= |s| then None
    else if s[from] == c then Some(from)
    else IndexOfFrom(s, c, from + 1)
  }

  /** The last index holding `c` (`s.rfind(c)`). */
  function LastIndexOf(s: string, c: char): (r: Option<nat>)
    ensures r.Some? ==> r.value < |s| && s[r.value] == c
                        && forall k :: r.value < k < |s| ==> s[k] != c
    ensures r.None? ==> c !in s
  {
    if s == [] then None
    else if s[|s| - 1] == c then Some(|s| - 1)
    else
      var r := LastIndexOf(s[..|s| - 1], c);
      assert c in s ==> c in s[..|s| - 1] by {
        if c in s {
          var k :| 0 <= k < |s| && s[k] == c;
          assert s[..|s| - 1][k] == c;
        }
      }
      r
  }

  /** The first index at or after `from` where `w` occurs case-insensitively. */
  function CiFindFrom(s: string, w: string, from: nat): (r: Option<nat>)
    decreases |s| - from
    ensures r.Some? ==> from <= r.value && CiOccursAt(s, r.value, w)
                        && forall k :: from <= k < r.value ==> !CiOccursAt(s, k, w)
    ensures r.None? ==> forall k :: from <= k ==> !CiOccursAt(s, k, w)
  {
    if from + |w| > |s| then None
    else if forall k | 0 <= k < |w| :: UpperChar(s[from + k]) == w[k] then Some(from)
    else CiFindFrom(s, w, from + 1)
  }

  /** Upper-casing is the identity on text with no lower-case ASCII letter. */
  lemma UpperUnchanged(s: string)
    requires forall i :: 0 <= i < |s| ==> !('a' <= s[i] <= 'z')
    ensures Upper(s) == s
  {
  }

  /** A case-insensitive occurrence of `w` is one of each prefix of `w`. */
  lemma CiOccursAtPrefix(s: string, i: int, w: string, p: string)
    requires CiOccursAt(s, i, w) && |p| <= |w| && p == w[..|p|]
    ensures CiOccursAt(s, i, p)
  {
    forall k | 0 <= k < |p| ensures UpperChar(s[i + k]) == p[k] {
      assert p[k] == w[k];
    }
  }

  /** A case-insensitive occurrence of `w` inside `s[a..b]` is one of the slice. */
  lemma CiOccursAtSlice(s: string, a: int, b: int, i: int, w: string)
    requires 0 <= a <= i && i + |w| <= b <= |s| && CiOccursAt(s, i, w)
    ensures CiOccursAt(s[a..b], i - a, w)
  {
    forall k | 0 <= k < |w| ensures UpperChar(s[a..b][i - a + k]) == w[k] {
      assert s[a..b][i - a + k] == s[i + k];
    }
  }

  lemma {:induction false} ContainsHasEveryChar(s: string, w: string, j: nat)
    requires Contains(s, w) && j < |w|
    ensures w[j] in s
  {
    var i :| 0 <= i <= |s| - |w| && OccursAt(s, i, w);
    assert s[i + j] == w[j];
  }

  lemma OccurrenceHoldsChar(s: string, i: int, w: string, j: int)
    requires OccursAt(s, i, w) && 0 <= j < |w|
    ensures s[i + j] in w
  {
    assert s[i + j] == w[j];
  }

  /** An occurrence of a word without the separator `c` lies on one side of it. */
  lemma {:induction false} ContainsAcrossSeparator(x: string, c: char, y: string, w: string)
    requires c !in w && Contains(x + [c] + y, w)
    ensures Contains(x, w) || Contains(y, w)
  {
    var s := x + [c] + y;
    var i :| 0 <= i <= |s| - |w| && OccursAt(s, i, w);
    if i + |w| <= |x| {
      forall k | 0 <= k < |w| ensures x[i + k] == w[k] {
        assert s[i + k] == x[i + k];
      }
      assert OccursAt(x, i, w);
    } else {
      if i <= |x| {
        OccurrenceHoldsChar(s, i, w, |x| - i);
        assert false;
      }
      var j := i - |x| - 1;
      forall k | 0 <= k < |w| ensures y[j + k] == w[k] {
        assert s[i + k] == y[j + k];
      }
      assert OccursAt(y, j, w);
    }
  }

  lemma {:induction false} TrimStartAppend(x: string, y: string)
    requires TrimStart(x) != []
    ensures TrimStart(x + y) == TrimStart(x) + y
  {
    if |x| > 0 && IsSpace(x[0]) {
      assert (x + y)[1..] == x[1..] + y;
      TrimStartAppend(x[1..], y);
    }
  }

  /** Stripping text that starts with `w` keeps `w` when `w` ends in a
      non-space character. */
  lemma TrimEndKeepsPrefix(p: string, w: string)
    requires StartsWith(p, w) && |w| > 0 && !IsSpace(w[|w| - 1])
    ensures StartsWith(TrimEnd(p), w)
  {
    TrailingSpacesAreSpace(p);
    assert p[|w| - 1] == w[|w| - 1];
  }

  /** Text added after a stripped prefix does not disturb it. */
  lemma StripKeepsPrefixOnAppend(x: string, y: string, w: string)
    requires StartsWith(Strip(x), w) && |w| > 0 && !IsSpace(w[|w| - 1])
    ensures StartsWith(Strip(x + y), w)
  {
    var t := TrimStart(x);
    assert StartsWith(t, w) by {
      forall k | 0 <= k < |w| ensures t[k] == w[k] {
        assert TrimEnd(t)[k] == t[k];
      }
    }
    TrimStartAppend(x, y);
    assert StartsWith(TrimStart(x + y), w) by {
      forall k | 0 <= k < |w| ensures TrimStart(x + y)[k] == w[k] {
        assert (t + y)[k] == t[k];
      }
    }
    TrimEndKeepsPrefix(TrimStart(x + y), w);
  }

  predicate IsDigit(c: char) { '0' <= c <= '9' }

  predicate AllDigits(s: string) {
    forall k :: 0 <= k < |s| ==> IsDigit(s[k])
  }

  function DigitValue(c: char): (n: nat)
    requires IsDigit(c)
    ensures n < 10
  {
    c as int - '0' as int
  }

  /** `int(s)` for a string of ASCII digits. */
  function DigitsValue(s: string): (n: nat)
    requires AllDigits(s)
  {
    if s == [] then 0 else DigitsValue(s[..|s| - 1]) * 10 + DigitValue(s[|s| - 1])
  }

  lemma {:induction false} NatToStringValue(n: nat)
    ensures AllDigits(NatToString(n)) && DigitsValue(NatToString(n)) == n
  {
    if n >= 10 {
      NatToStringValue(n / 10);
      var s := NatToString(n);
      assert s[..|s| - 1] == NatToString(n / 10);
    }
  }

  lemma {:induction false} ZerosValue(z: string)
    requires forall k :: 0 <= k < |z| ==> z[k] == '0'
    ensures AllDigits(z) && DigitsValue(z) == 0
  {
    if z != [] {
      ZerosValue(z[..|z| - 1]);
    }
  }

  /** Leading zeros do not change `int`. */
  lemma {:induction false} ZeroPaddedValue(z: string, s: string)
    requires forall k :: 0 <= k < |z| ==> z[k] == '0'
    requires AllDigits(s)
    ensures AllDigits(z + s) && DigitsValue(z + s) == DigitsValue(s)
  {
    if s == [] {
      assert z + s == z;
      ZerosValue(z);
    } else {
      ZeroPaddedValue(z, s[..|s| - 1]);
      assert (z + s)[..|z + s| - 1] == z + s[..|s| - 1];
    }
  }

  /** `%0<width>d` reads back as the number it printed. */
  lemma PaddedValue(n: nat, width: nat)
    ensures AllDigits(Padded(n, width)) && DigitsValue(Padded(n, width)) == n
  {
    var s := NatToString(n);
    assert IntToString(n) == s;
    NatToStringValue(n);
    if |s| < width {
      var z := seq(width - |s|, _ => '0');
      ZeroPaddedValue(z, s);
      assert Padded(n, width) == z + s;
    } else {
      assert Padded(n, width) == s;
    }
  }

  /** A two-digit field reads as its tens and its units. */
  lemma TwoDigits(t: string)
    requires |t| == 2 && AllDigits(t)
    ensures DigitsValue(t) == DigitValue(t[0]) * 10 + DigitValue(t[1])
  {
    var h := t[..1];
    assert h[..0] == [] && h[0] == t[0];
    assert DigitsValue(h) == DigitValue(t[0]);
    assert t[..|t| - 1] == h;
  }
}
