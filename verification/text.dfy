/**
 * The JavaScript string primitives the application relies on: `trim`,
 * `startsWith`, `includes`, `replace` with a string pattern, `split` on one
 * character, `substring(0, n)` and the decimal rendering of a status code.
 * Strings are sequences of code points; JavaScript counts UTF-16 code units.
 */
module Text {
  import opened Wrappers

  // ---------------------------------------------------------------------------
  // Whitespace and trimming
  // ---------------------------------------------------------------------------

  /** The characters `String.prototype.trim` removes: ECMAScript WhiteSpace and LineTerminator. */
  predicate IsWhitespace(c: char) {
    || c == '\t' || c == '\n' || c == '\U{000B}' || c == '\U{000C}' || c == '\r' || c == ' '
    || c == '\U{00A0}' || c == '\U{1680}' || ('\U{2000}' <= c <= '\U{200A}')
    || c == '\U{2028}' || c == '\U{2029}' || c == '\U{202F}' || c == '\U{205F}'
    || c == '\U{3000}' || c == '\U{FEFF}'
  }

  /** Every character of `s` is whitespace (the empty string included). */
  predicate IsBlank(s: string) {
    forall i :: 0 <= i < |s| ==> IsWhitespace(s[i])
  }

  /** Drops leading whitespace: the result is the longest suffix not starting with whitespace. */
  function TrimStart(s: string): (r: string)
    ensures |r| <= |s| && r == s[|s| - |r|..]
    ensures IsBlank(s[..|s| - |r|])
    ensures r == [] || !IsWhitespace(r[0])
  {
    if |s| > 0 && IsWhitespace(s[0]) then
      var r := TrimStart(s[1..]);
      assert s[..|s| - |r|] == [s[0]] + s[1..][..|s| - 1 - |r|];
      r
    else s
  }

  /** Drops trailing whitespace: the result is the longest prefix not ending with whitespace. */
  function TrimEnd(s: string): (r: string)
    ensures |r| <= |s| && r == s[..|r|]
    ensures IsBlank(s[|r|..])
    ensures r == [] || !IsWhitespace(r[|r| - 1])
  {
    if |s| > 0 && IsWhitespace(s[|s| - 1]) then
      var r := TrimEnd(s[..|s| - 1]);
      assert s[|r|..] == s[..|s| - 1][|r|..] + [s[|s| - 1]];
      r
    else s
  }

  /** `s.trim()`. */
  function Trim(s: string): string {
    TrimEnd(TrimStart(s))
  }

  /** `s.trim() === ''` holds exactly for blank strings, which is how the
      application tests for an empty URL or an empty chat input. */
  lemma TrimEmptyIffBlank(s: string)
    ensures Trim(s) == [] <==> IsBlank(s)
  {
    var t := TrimStart(s);
    assert t != [] ==> t[0] == s[|s| - |t|];
    if Trim(s) == [] {
      assert t[0..] == t;
      assert s[..|s| - |t|] == s;
    }
  }

  // ---------------------------------------------------------------------------
  // Prefixes, occurrences and `replace`
  // ---------------------------------------------------------------------------

  /** `s.startsWith(p)`. */
  predicate StartsWith(s: string, p: string) {
    |p| <= |s| && s[..|p|] == p
  }

  /** `pat` occurs in `s` starting at index `i`. */
  predicate OccursAt(s: string, pat: string, i: int) {
    0 <= i && i + |pat| <= |s| && s[i..i + |pat|] == pat
  }

  /** Index of the first occurrence of `pat` at or after `from`. */
  function IndexFrom(s: string, pat: string, from: nat): (r: Option<nat>)
    decreases |s| - from
    ensures r.Some? ==> from <= r.value && OccursAt(s, pat, r.value)
    ensures r.Some? ==> forall j :: from <= j < r.value ==> !OccursAt(s, pat, j)
    ensures r.None? ==> forall j :: from <= j ==> !OccursAt(s, pat, j)
  {
    if from + |pat| > |s| then None
    else if s[from..from + |pat|] == pat then Some(from)
    else IndexFrom(s, pat, from + 1)
  }

  /** `s.indexOf(pat)`, with `None` for -1: the first occurrence. */
  function IndexOf(s: string, pat: string): (r: Option<nat>)
    ensures r.Some? ==> OccursAt(s, pat, r.value)
    ensures r.Some? ==> forall j :: 0 <= j < r.value ==> !OccursAt(s, pat, j)
    ensures r.None? ==> forall j :: 0 <= j ==> !OccursAt(s, pat, j)
  {
    IndexFrom(s, pat, 0)
  }

  /** `s.includes(pat)`. */
  predicate Contains(s: string, pat: string) {
    IndexOf(s, pat).Some?
  }

  /** A witnessed occurrence makes `includes` true. */
  lemma ContainsAt(s: string, pat: string, i: int)
    requires OccursAt(s, pat, i)
    ensures Contains(s, pat)
  {
  }

  /** The middle piece of a concatenation occurs in it. */
  lemma InfixOccurs(a: string, x: string, b: string)
    ensures Contains(a + x + b, x)
  {
    assert (a + x + b)[|a|..|a| + |x|] == x;
    ContainsAt(a + x + b, x, |a|);
  }

  /** A string whose first character differs from the prefix's does not start with it. */
  lemma NotPrefixed(r: string, p: string)
    requires |r| > 0 && |p| > 0 && r[0] != p[0]
    ensures !StartsWith(r, p)
  {
    if |p| <= |r| {
      assert r[..|p|][0] == r[0];
    }
  }

  /** A pattern cannot occur where one of its characters is not found. */
  lemma MismatchNoOccurrence(s: string, pat: string, j: int, t: int)
    requires 0 <= j && 0 <= t < |pat|
    requires j + |pat| > |s| || s[j + t] != pat[t]
    ensures !OccursAt(s, pat, j)
  {
    if j + |pat| <= |s| {
      assert s[j..j + |pat|][t] == s[j + t];
    }
  }

  /** `s.replace(pat, rep)` with a string pattern: only the FIRST occurrence is
      rewritten, wherever it is; with no occurrence `s` comes back unchanged. */
  function ReplaceFirst(s: string, pat: string, rep: string): (r: string)
    ensures (forall j :: 0 <= j ==> !OccursAt(s, pat, j)) ==> r == s
    ensures forall i :: OccursAt(s, pat, i) && (forall j :: 0 <= j < i ==> !OccursAt(s, pat, j))
                        ==> r == s[..i] + rep + s[i + |pat|..]
  {
    match IndexOf(s, pat)
    case None => s
    case Some(i) => s[..i] + rep + s[i + |pat|..]
  }

  /** `replace` at a known first occurrence. */
  lemma ReplaceFirstAt(s: string, pat: string, rep: string, i: int)
    requires OccursAt(s, pat, i)
    requires forall j :: 0 <= j < i ==> !OccursAt(s, pat, j)
    ensures ReplaceFirst(s, pat, rep) == s[..i] + rep + s[i + |pat|..]
  {
  }

  /** `s.substring(0, n)` for `n >= 0`. */
  function Take(s: string, n: nat): (r: string)
    ensures |r| <= n && |r| <= |s|
    ensures r == s[..|r|]
    ensures |s| <= n ==> r == s
    ensures |s| > n ==> |r| == n
  {
    if |s| <= n then s else s[..n]
  }

  // ---------------------------------------------------------------------------
  // Splitting on one character and joining back
  // ---------------------------------------------------------------------------

  /** `parts.join(sep)` for a non-empty list. */
  function Join(parts: seq<string>, sep: char): string
    requires |parts| >= 1
  {
    if |parts| == 1 then parts[0] else parts[0] + [sep] + Join(parts[1..], sep)
  }

  /** `s.split(sep)` for a one-character separator: never empty, no piece
      contains the separator, and joining the pieces gives `s` back. */
  function Split(s: string, sep: char): (parts: seq<string>)
    ensures |parts| >= 1
    ensures forall k :: 0 <= k < |parts| ==> sep !in parts[k]
    ensures Join(parts, sep) == s
  {
    if |s| == 0 then [""]
    else if s[0] == sep then [""] + Split(s[1..], sep)
    else
      var t := Split(s[1..], sep);
      [[s[0]] + t[0]] + t[1..]
  }

  /** The converse round trip: pieces free of the separator are split back exactly. */
  lemma {:induction false} SplitJoin(parts: seq<string>, sep: char)
    requires |parts| >= 1
    requires forall k :: 0 <= k < |parts| ==> sep !in parts[k]
    ensures Split(Join(parts, sep), sep) == parts
    decreases |parts|, |parts[0]|
  {
    if |parts| == 1 {
      SplitNoSeparator(parts[0], sep);
    } else if parts[0] == [] {
      var rest := Join(parts[1..], sep);
      assert Join(parts, sep) == [sep] + rest;
      assert ([sep] + rest)[1..] == rest;
      SplitJoin(parts[1..], sep);
      assert parts == [""] + parts[1..];
    } else {
      var s := Join(parts, sep);
      var c := parts[0][0];
      var shorter := [parts[0][1..]] + parts[1..];
      assert Join(shorter, sep) == s[1..] by {
        assert Join(shorter, sep) == parts[0][1..] + [sep] + Join(parts[1..], sep);
        assert parts[0] == [c] + parts[0][1..];
      }
      assert forall k :: 0 <= k < |shorter| ==> sep !in shorter[k] by {
        forall k | 0 <= k < |shorter| ensures sep !in shorter[k] {
          if k == 0 {
            assert forall x :: x in parts[0][1..] ==> x in parts[0];
          } else {
            assert shorter[k] == parts[k];
          }
        }
      }
      SplitJoin(shorter, sep);
      assert s[0] == c && c != sep && |s| > 0;
      assert Split(s, sep) == [[c] + Split(s[1..], sep)[0]] + Split(s[1..], sep)[1..];
      assert parts[0] == [c] + shorter[0];
      assert parts[1..] == shorter[1..];
      assert parts == [parts[0]] + parts[1..];
    }
  }

  /** A string without the separator is a single piece. */
  lemma {:induction false} SplitNoSeparator(s: string, sep: char)
    requires sep !in s
    ensures Split(s, sep) == [s]
  {
    if |s| > 0 {
      SplitNoSeparator(s[1..], sep);
      assert [s[0]] + s[1..] == s;
    }
  }

  /** Splitting a concatenation: the pieces of `a` except its last one, followed by
      the pieces of (last piece of `a`) + `b`.  This is what lets a carry-over
      buffer reassemble lines that straddle two reads. */
  lemma {:induction false} SplitAppend(a: string, b: string, sep: char)
    ensures var pa := Split(a, sep);
            Split(a + b, sep) == pa[..|pa| - 1] + Split(pa[|pa| - 1] + b, sep)
    decreases |a|
  {
    if |a| == 0 {
      assert a + b == b;
    } else {
      SplitAppend(a[1..], b, sep);
      if a[0] == sep {
        SplitAppendSeparatorStep(a, b, sep);
      } else {
        SplitAppendCharStep(a, b, sep);
      }
    }
  }

  /** Inductive step of `SplitAppend` when `a` starts with the separator. */
  lemma SplitAppendSeparatorStep(a: string, b: string, sep: char)
    requires |a| > 0 && a[0] == sep
    requires var pt := Split(a[1..], sep);
             Split(a[1..] + b, sep) == pt[..|pt| - 1] + Split(pt[|pt| - 1] + b, sep)
    ensures var pa := Split(a, sep);
            Split(a + b, sep) == pa[..|pa| - 1] + Split(pa[|pa| - 1] + b, sep)
  {
    assert (a + b)[1..] == a[1..] + b;
    assert (a + b)[0] == sep;
    var pt := Split(a[1..], sep);
    assert Split(a, sep) == [""] + pt;
    assert Split(a + b, sep) == [""] + Split(a[1..] + b, sep);
  }

  /** Inductive step of `SplitAppend` when `a` starts with an ordinary character. */
  lemma SplitAppendCharStep(a: string, b: string, sep: char)
    requires |a| > 0 && a[0] != sep
    requires var pt := Split(a[1..], sep);
             Split(a[1..] + b, sep) == pt[..|pt| - 1] + Split(pt[|pt| - 1] + b, sep)
    ensures var pa := Split(a, sep);
            Split(a + b, sep) == pa[..|pa| - 1] + Split(pa[|pa| - 1] + b, sep)
  {
    assert (a + b)[1..] == a[1..] + b;
    assert (a + b)[0] == a[0];
    var pt := Split(a[1..], sep);
    var pa := Split(a, sep);
    var tail := Split(pt[|pt| - 1] + b, sep);
    var t := Split(a[1..] + b, sep);
    assert pa == [[a[0]] + pt[0]] + pt[1..];
    assert Split(a + b, sep) == [[a[0]] + t[0]] + t[1..];
    if |pt| > 1 {
      assert t[0] == pt[0];
      assert t[1..] == pt[1..|pt| - 1] + tail;
    } else {
      assert pt == [a[1..]] by {
        assert Join(pt, sep) == a[1..];
      }
      assert pa == [a] by {
        assert [a[0]] + a[1..] == a;
      }
    }
  }

  // ---------------------------------------------------------------------------
  // Decimal rendering of a status code
  // ---------------------------------------------------------------------------

  /** The value of a string of decimal digits. */
  function DecimalValue(s: string): nat
    requires forall i :: 0 <= i < |s| ==> '0' <= s[i] <= '9'
  {
    if |s| == 0 then 0
    else 10 * DecimalValue(s[..|s| - 1]) + (s[|s| - 1] as int - '0' as int)
  }

  /** `String(n)` for a natural number: non-empty digits, no leading zero, denoting `n`. */
  function NatToDecimal(n: nat): (r: string)
    ensures |r| >= 1
    ensures forall i :: 0 <= i < |r| ==> '0' <= r[i] <= '9'
    ensures |r| > 1 ==> r[0] != '0'
    ensures DecimalValue(r) == n
  {
    var d := [(('0' as int) + n % 10) as char];
    if n < 10 then d
    else
      var p := NatToDecimal(n / 10);
      assert (p + d)[..|p + d| - 1] == p;
      p + d
  }

  /** A non-empty list is its front followed by its last element. */
  lemma InitLast<T>(s: seq<T>)
    requires |s| > 0
    ensures s == s[..|s| - 1] + [s[|s| - 1]]
  {
  }
}
