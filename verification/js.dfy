/** The small part of JavaScript's value semantics the auth front end relies on:
    optional values, truthiness of strings, and the String methods it calls
    (`trim`, `split`) together with number-to-string conversion. */
module Js {

  /** `T | null | undefined`: both JavaScript absences are `None`. */
  datatype Option<+T> = None | Some(value: T)

  /** An error result for code that throws. */
  datatype Result<+T> = Ok(value: T) | Thrown(message: string)

  /** `!!s` for an optional string: `null`, `undefined` and `""` are falsy. */
  predicate Truthy(s: Option<string>)
  {
    s.Some? && s.value != ""
  }

  /** `a || b` for optional strings. */
  function Or(a: Option<string>, b: Option<string>): (r: Option<string>)
    ensures Truthy(a) ==> r == a
    ensures !Truthy(a) ==> r == b
  {
    if Truthy(a) then a else b
  }

  /** `s || null`: the empty string collapses to `null`. */
  function OrNull(s: Option<string>): (r: Option<string>)
    ensures r.Some? <==> Truthy(s)
    ensures r.Some? ==> r == s
  {
    Or(s, None)
  }

  // ---------------------------------------------------------------------------
  // String.prototype.trim

  /** WhiteSpace and LineTerminator code points of ECMA-262 (section 12.2 and
      12.3), which `trim` removes from both ends. */
  predicate IsWhiteSpace(c: char)
  {
    || c == '\t' || c == '\n' || c == '\U{000B}' || c == '\U{000C}' || c == '\r'
    || c == ' ' || c == '\U{00A0}' || c == '\U{1680}'
    || ('\U{2000}' <= c <= '\U{200A}')
    || c == '\U{2028}' || c == '\U{2029}' || c == '\U{202F}' || c == '\U{205F}'
    || c == '\U{3000}' || c == '\U{FEFF}'
  }

  /** The first index at or after `i` that holds no white space (or `|s|`). */
  function VisibleFrom(s: string, i: nat): (k: nat)
    requires i <= |s|
    ensures i <= k <= |s| && (k == |s| || !IsWhiteSpace(s[k]))
    ensures forall j :: i <= j < k ==> IsWhiteSpace(s[j])
    decreases |s| - i
  {
    if i < |s| && IsWhiteSpace(s[i]) then VisibleFrom(s, i + 1) else i
  }

  /** The end of `s[lo..j]` once trailing white space is dropped. */
  function VisibleUntil(s: string, lo: nat, j: nat): (k: nat)
    requires lo <= j <= |s|
    ensures lo <= k <= j && (k == lo || !IsWhiteSpace(s[k - 1]))
    ensures forall m :: k <= m < j ==> IsWhiteSpace(s[m])
  {
    if lo < j && IsWhiteSpace(s[j - 1]) then VisibleUntil(s, lo, j - 1) else j
  }

  /** `s.trim()`: the slice between the leading and the trailing white space. */
  function Trim(s: string): (r: string)
    ensures r == [] || (!IsWhiteSpace(r[0]) && !IsWhiteSpace(r[|r| - 1]))
  {
    var a := VisibleFrom(s, 0);
    s[a..VisibleUntil(s, a, |s|)]
  }

  /** `trim` removes white space and nothing else: `s` is the result with
      white space on either side, the result starting at `a`. */
  lemma TrimRemovesOnlyWhiteSpace(s: string) returns (a: nat)
    ensures a + |Trim(s)| <= |s| && Trim(s) == s[a..a + |Trim(s)|]
    ensures forall j :: 0 <= j < a ==> IsWhiteSpace(s[j])
    ensures forall j :: a + |Trim(s)| <= j < |s| ==> IsWhiteSpace(s[j])
  {
    a := VisibleFrom(s, 0);
  }

  /** A string that neither begins nor ends with white space is left alone by `trim`. */
  lemma TrimUntouched(s: string)
    requires s != [] && !IsWhiteSpace(s[0]) && !IsWhiteSpace(s[|s| - 1])
    ensures Trim(s) == s
  {
    assert VisibleFrom(s, 0) == 0;
    assert VisibleUntil(s, 0, |s|) == |s|;
  }

  /** Trimming a string that starts with some white space and then a visible
      character keeps that character at the front. */
  lemma TrimFront(ws: string, s: string)
    requires forall i :: 0 <= i < |ws| ==> IsWhiteSpace(ws[i])
    requires s != [] && !IsWhiteSpace(s[0])
    ensures Trim(ws + s) != [] && Trim(ws + s)[0] == s[0]
  {
    var t := ws + s;
    assert forall i :: 0 <= i < |ws| ==> t[i] == ws[i];
    assert t[|ws|] == s[0];
    assert VisibleFrom(t, 0) == |ws|;
  }

  /** Trimming a part written after a single space. */
  lemma TrimSpaced(x: string)
    requires x != [] && !IsWhiteSpace(x[0]) && !IsWhiteSpace(x[|x| - 1])
    ensures Trim(" " + x) == x
  {
    var t := " " + x;
    assert t[1] == x[0];
    assert VisibleFrom(t, 0) == 1;
    assert VisibleUntil(t, 1, |t|) == |t|;
    assert t[1..] == x;
  }

  // ---------------------------------------------------------------------------
  // String.prototype.split with a one-character separator

  /** The first index at or after `i` that holds `c`, or `|s|` when there is none. */
  function NextIndex(s: string, c: char, i: nat): (k: nat)
    requires i <= |s|
    ensures i <= k <= |s| && (k < |s| ==> s[k] == c)
    ensures forall j :: i <= j < k ==> s[j] != c
    decreases |s| - i
  {
    if i == |s| || s[i] == c then i else NextIndex(s, c, i + 1)
  }

  /** The pieces of `s[start..]` between separators. */
  function SplitFrom(s: string, sep: char, start: nat): (parts: seq<string>)
    requires start <= |s|
    ensures |parts| >= 1
    ensures forall i :: 0 <= i < |parts| ==> sep !in parts[i]
    decreases |s| - start
  {
    var k := NextIndex(s, sep, start);
    if k == |s| then [s[start..]] else [s[start..k]] + SplitFrom(s, sep, k + 1)
  }

  /** `s.split(sep)`: the pieces between separators, always at least one. */
  function Split(s: string, sep: char): (parts: seq<string>)
    ensures |parts| >= 1
    ensures forall i :: 0 <= i < |parts| ==> sep !in parts[i]
  {
    SplitFrom(s, sep, 0)
  }

  /** `parts.join(sep)`: the inverse of `Split`. */
  function Join(parts: seq<string>, sep: char): string
    requires |parts| >= 1
  {
    if |parts| == 1 then parts[0] else parts[0] + [sep] + Join(parts[1..], sep)
  }

  /** A string without the separator is one piece. */
  lemma SplitNone(s: string, sep: char)
    requires sep !in s
    ensures Split(s, sep) == [s]
  {
    assert NextIndex(s, sep, 0) == |s|;
  }

  /** Searching past a prefix `p` is searching the rest. */
  lemma {:induction false} NextIndexAfter(p: string, t: string, c: char, j: nat)
    requires j <= |t|
    ensures NextIndex(p + t, c, |p| + j) == |p| + NextIndex(t, c, j)
    decreases |t| - j
  {
    assert forall m :: 0 <= m < |t| ==> (p + t)[|p| + m] == t[m];
    if j < |t| && t[j] != c {
      NextIndexAfter(p, t, c, j + 1);
    }
  }

  /** Splitting past a prefix `p` is splitting the rest. */
  lemma {:induction false} SplitFromAfter(p: string, t: string, sep: char, j: nat)
    requires j <= |t|
    ensures SplitFrom(p + t, sep, |p| + j) == SplitFrom(t, sep, j)
    decreases |t| - j
  {
    var k := NextIndex(t, sep, j);
    NextIndexAfter(p, t, sep, j);
    if k == |t| {
      assert (p + t)[|p| + j..] == t[j..];
    } else {
      assert (p + t)[|p| + j..|p| + k] == t[j..k];
      SplitFromAfter(p, t, sep, k + 1);
    }
  }

  /** Splitting a string at its first separator. */
  lemma SplitCons(a: string, b: string, sep: char)
    requires sep !in a
    ensures Split(a + [sep] + b, sep) == [a] + Split(b, sep)
  {
    var s := a + [sep] + b;
    assert s[|a|] == sep;
    assert forall m :: 0 <= m < |a| ==> s[m] == a[m];
    assert NextIndex(s, sep, 0) == |a|;
    assert s[..|a|] == a;
    assert s == (a + [sep]) + b;
    SplitFromAfter(a + [sep], b, sep, 0);
  }

  /** `Join` undoes `Split`. */
  lemma {:induction false} JoinSplit(s: string, sep: char)
    ensures Join(Split(s, sep), sep) == s
    decreases |s|
  {
    if sep in s {
      var k := NextIndex(s, sep, 0);
      assert k < |s| by {
        var m :| 0 <= m < |s| && s[m] == sep;
      }
      var a, b := s[..k], s[k + 1..];
      assert s == a + [sep] + b;
      SplitCons(a, b, sep);
      JoinSplit(b, sep);
      assert Split(s, sep)[1..] == Split(b, sep);
    } else {
      SplitNone(s, sep);
    }
  }

  /** `Split` undoes `Join` whenever no piece contains the separator. */
  lemma {:induction false} SplitJoin(parts: seq<string>, sep: char)
    requires |parts| >= 1
    requires forall i :: 0 <= i < |parts| ==> sep !in parts[i]
    ensures Split(Join(parts, sep), sep) == parts
    decreases |parts|
  {
    if |parts| == 1 {
      SplitNone(parts[0], sep);
    } else {
      var rest := Join(parts[1..], sep);
      SplitJoin(parts[1..], sep);
      SplitCons(parts[0], rest, sep);
      assert parts == [parts[0]] + parts[1..];
    }
  }

  // ---------------------------------------------------------------------------
  // Number to string, for integral values (`${n}` in a template literal)

  function Digit(d: nat): (c: char)
    requires d < 10
    ensures '0' <= c <= '9'
    ensures c as int - '0' as int == d
  {
    ['0', '1', '2', '3', '4', '5', '6', '7', '8', '9'][d]
  }

  predicate IsDigit(c: char)
  {
    '0' <= c <= '9'
  }

  /** The decimal digits of `n`, without leading zeros. */
  function NatToString(n: nat): (s: string)
    ensures |s| >= 1 && (forall i :: 0 <= i < |s| ==> IsDigit(s[i]))
    ensures |s| > 1 ==> s[0] != '0'
  {
    if n < 10 then [Digit(n)] else NatToString(n / 10) + [Digit(n % 10)]
  }

  /** `String(n)` for an integral number: a minus sign, then the digits. */
  function IntToString(n: int): (s: string)
    ensures |s| >= 1 && ';' !in s && '=' !in s && !IsWhiteSpace(s[|s| - 1])
  {
    if n < 0 then "-" + NatToString(-n) else NatToString(n)
  }

  /** The value of a string of decimal digits. */
  function DecimalValue(s: string): int
    requires forall i :: 0 <= i < |s| ==> IsDigit(s[i])
  {
    if s == [] then 0 else 10 * DecimalValue(s[..|s| - 1]) + (s[|s| - 1] as int - '0' as int)
  }

  /** Reading back the digits that `NatToString` writes gives the number again. */
  lemma {:induction false} NatToStringRoundTrip(n: nat)
    ensures DecimalValue(NatToString(n)) == n
  {
    if n >= 10 {
      NatToStringRoundTrip(n / 10);
      var s := NatToString(n);
      assert s[..|s| - 1] == NatToString(n / 10);
    }
  }
}
