/** The java.lang.String operations that the registry and the script elements rely on. */
module Text {

  /** `String.trim()` removes every leading and trailing char at or below U+0020. */
  predicate IsBlank(c: char) {
    c <= ' '
  }

  /** A string that `trim()` leaves as it is. */
  predicate Trimmed(s: string) {
    s == [] || (!IsBlank(s[0]) && !IsBlank(s[|s| - 1]))
  }

  function TrimStart(s: string): (r: string)
    ensures |r| <= |s| && r == s[|s| - |r|..]
    ensures r == [] || !IsBlank(r[0])
    ensures forall i :: 0 <= i < |s| - |r| ==> IsBlank(s[i])
  {
    if |s| > 0 && IsBlank(s[0]) then TrimStart(s[1..]) else s
  }

  function TrimEnd(s: string): (r: string)
    ensures |r| <= |s| && r == s[..|r|]
    ensures r == [] || !IsBlank(r[|r| - 1])
    ensures forall i :: |r| <= i < |s| ==> IsBlank(s[i])
  {
    if |s| > 0 && IsBlank(s[|s| - 1]) then TrimEnd(s[..|s| - 1]) else s
  }

  /** `String.trim()`. */
  function Trim(s: string): (r: string)
    ensures Trimmed(r)
  {
    TrimEnd(TrimStart(s))
  }

  lemma TrimOfTrimmed(s: string)
    requires Trimmed(s)
    ensures Trim(s) == s
  {
  }

  lemma {:induction false} TrimStartAppend(s: string, t: string)
    ensures TrimStart(s + t) == if TrimStart(s) == [] then TrimStart(t) else TrimStart(s) + t
  {
    if s == [] {
      assert s + t == t;
    } else if IsBlank(s[0]) {
      assert (s + t)[1..] == s[1..] + t;
      TrimStartAppend(s[1..], t);
    }
  }

  /** Trimming ignores one more blank at the end, e.g. `"i "` trims to `"i"`. */
  lemma TrimDropsTrailingBlank(s: string, c: char)
    requires IsBlank(c)
    ensures Trim(s + [c]) == Trim(s)
  {
    TrimStartAppend(s, [c]);
    if TrimStart(s) != [] {
      var x := TrimStart(s);
      assert (x + [c])[..|x + [c]| - 1] == x;
    }
  }

  predicate StartsWith(s: string, prefix: string) {
    |prefix| <= |s| && s[..|prefix|] == prefix
  }

  predicate EndsWith(s: string, suffix: string) {
    |suffix| <= |s| && s[|s| - |suffix|..] == suffix
  }

  lemma StartsWithAppend(p: string, t: string)
    ensures StartsWith(p + t, p)
  {
    assert (p + t)[..|p|] == p;
  }

  lemma EndsWithAppend(t: string, p: string)
    ensures EndsWith(t + p, p)
  {
    assert (t + p)[|t + p| - |p|..] == p;
  }

  /** `s.indexOf(c)` for a char that occurs in `s`. */
  function IndexOfChar(s: string, c: char): (i: nat)
    requires c in s
    ensures i < |s| && s[i] == c && c !in s[..i]
  {
    if s[0] == c then 0
    else
      var j := IndexOfChar(s[1..], c);
      assert s[..j + 1] == [s[0]] + s[1..][..j];
      j + 1
  }

  /** The fields of `s` between occurrences of `sep`, empty ones included. */
  function SplitFields(s: string, sep: char): (r: seq<string>)
    ensures |r| >= 1
    ensures forall i :: 0 <= i < |r| ==> sep !in r[i]
    decreases |s|
  {
    if sep !in s then [s]
    else
      var k := IndexOfChar(s, sep);
      [s[..k]] + SplitFields(s[k + 1..], sep)
  }

  /** The parts separated by `sep`. */
  function Join(parts: seq<string>, sep: char): string {
    if parts == [] then ""
    else if |parts| == 1 then parts[0]
    else parts[0] + [sep] + Join(parts[1..], sep)
  }

  /** Joining the fields back gives the original string, so `SplitFields` cuts exactly at every separator. */
  lemma {:induction false} JoinSplitFields(s: string, sep: char)
    ensures Join(SplitFields(s, sep), sep) == s
    decreases |s|
  {
    if sep in s {
      var k := IndexOfChar(s, sep);
      var rest := SplitFields(s[k + 1..], sep);
      assert SplitFields(s, sep) == [s[..k]] + rest;
      assert ([s[..k]] + rest)[1..] == rest;
      JoinSplitFields(s[k + 1..], sep);
      assert s == s[..k] + [sep] + s[k + 1..];
    }
  }

  function StripTrailingEmpty(parts: seq<string>): (r: seq<string>)
    ensures |r| <= |parts| && r == parts[..|r|]
    ensures r == [] || r[|r| - 1] != ""
    ensures forall i :: |r| <= i < |parts| ==> parts[i] == ""
  {
    if |parts| > 0 && parts[|parts| - 1] == "" then StripTrailingEmpty(parts[..|parts| - 1]) else parts
  }

  /**
   * `s.split(sep)` for a one-char literal separator: the whole string when `sep` does not
   * occur, otherwise the fields with the trailing empty ones removed.
   */
  function JavaSplit(s: string, sep: char): seq<string> {
    if sep !in s then [s] else StripTrailingEmpty(SplitFields(s, sep))
  }

  /** A non-empty word is among `s.split(sep)` exactly when it is one of the fields of `s`. */
  lemma JavaSplitKeepsNonEmptyFields(s: string, sep: char, w: string)
    requires w != ""
    ensures w in JavaSplit(s, sep) <==> w in SplitFields(s, sep)
  {
    if sep in s {
      var parts := SplitFields(s, sep);
      var r := StripTrailingEmpty(parts);
      if w in parts {
        var i :| 0 <= i < |parts| && parts[i] == w;
        assert i < |r|;
        assert r[i] == w;
      }
    }
  }

  /** Some empty field comes before a non-empty one. */
  predicate EmptyBeforeNonEmpty(fields: seq<string>) {
    exists i, j :: 0 <= i < j < |fields| && fields[i] == "" && fields[j] != ""
  }

  /** Dropping the trailing empty fields keeps an empty field exactly when a non-empty one follows it. */
  lemma StripKeepsEmptyField(parts: seq<string>)
    ensures "" in StripTrailingEmpty(parts) <==> EmptyBeforeNonEmpty(parts)
  {
    var r := StripTrailingEmpty(parts);
    if "" in r {
      var i :| 0 <= i < |r| && r[i] == "";
      assert parts[i] == "" && parts[|r| - 1] != "";
    }
    if EmptyBeforeNonEmpty(parts) {
      var i, j :| 0 <= i < j < |parts| && parts[i] == "" && parts[j] != "";
      assert j < |r|;
      assert r[i] == "";
    }
  }

  /**
   * The empty word is among `s.split(sep)` exactly when `s` itself is empty, or an empty field
   * comes before a non-empty one (trailing empty fields are dropped).
   */
  lemma JavaSplitEmptyField(s: string, sep: char)
    ensures "" in JavaSplit(s, sep) <==> s == "" || EmptyBeforeNonEmpty(SplitFields(s, sep))
  {
    if sep !in s {
      assert SplitFields(s, sep) == [s];
    } else {
      StripKeepsEmptyField(SplitFields(s, sep));
    }
  }

  function Digit(d: nat): (c: char)
    requires d < 10
    ensures '0' <= c <= '9'
  {
    (48 + d) as char
  }

  /** `Integer.toString(n)` for a non-negative `n`. */
  function DecimalString(n: nat): (r: string)
    ensures |r| >= 1
    ensures forall i :: 0 <= i < |r| ==> '0' <= r[i] <= '9'
  {
    if n < 10 then [Digit(n)] else DecimalString(n / 10) + [Digit(n % 10)]
  }

  /** Lower-casing of the ASCII letters, which is all that file extensions use. */
  function ToLowerAscii(s: string): (r: string)
    ensures |r| == |s|
    ensures forall i :: 0 <= i < |s| ==> r[i] == if 'A' <= s[i] <= 'Z' then (s[i] as int + 32) as char else s[i]
  {
    if s == [] then []
    else [if 'A' <= s[0] <= 'Z' then (s[0] as int + 32) as char else s[0]] + ToLowerAscii(s[1..])
  }

  /** `s.replace(pattern, "")`: every occurrence, scanned left to right without overlap, removed. */
  function RemoveAll(s: string, pattern: string): (r: string)
    requires pattern != []
    ensures |r| <= |s|
    decreases |s|
  {
    if s == [] then s
    else if StartsWith(s, pattern) then RemoveAll(s[|pattern|..], pattern)
    else [s[0]] + RemoveAll(s[1..], pattern)
  }

  /** `String.compareTo`: the difference of the first differing chars, else of the lengths. */
  function CompareStrings(a: string, b: string): int {
    if a == [] || b == [] then |a| - |b|
    else if a[0] != b[0] then a[0] as int - b[0] as int
    else CompareStrings(a[1..], b[1..])
  }

  lemma {:induction false} CompareAntisymmetric(a: string, b: string)
    ensures CompareStrings(a, b) == -CompareStrings(b, a)
  {
    if a != [] && b != [] && a[0] == b[0] {
      CompareAntisymmetric(a[1..], b[1..]);
    }
  }

  lemma {:induction false} CompareZeroIffEqual(a: string, b: string)
    ensures CompareStrings(a, b) == 0 <==> a == b
  {
    if a != [] && b != [] && a[0] == b[0] {
      CompareZeroIffEqual(a[1..], b[1..]);
      assert a == [a[0]] + a[1..] && b == [b[0]] + b[1..];
    }
  }

  lemma {:induction false} CompareTransitive(a: string, b: string, c: string)
    requires CompareStrings(a, b) <= 0 && CompareStrings(b, c) <= 0
    ensures CompareStrings(a, c) <= 0
  {
    if a != [] && b != [] && c != [] && a[0] == b[0] && b[0] == c[0] {
      CompareTransitive(a[1..], b[1..], c[1..]);
    }
  }
}
