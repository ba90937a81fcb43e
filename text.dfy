/** The string operations the data-access code relies on: Python's
    `str.strip()`, ASCII lower-casing for the `LOWER(...)` comparison, and the
    code-point order used for `ORDER BY` on text columns. */
module Text {

  /** The characters Python's `str.isspace()` accepts: the ASCII controls
      TAB..CR and FS..US, SPACE, NEL, NO-BREAK SPACE, OGHAM SPACE MARK, the
      Unicode space separators U+2000..U+200A, LINE and PARAGRAPH
      SEPARATOR, NARROW NO-BREAK SPACE, MEDIUM MATHEMATICAL SPACE and
      IDEOGRAPHIC SPACE. */
  const SpaceChars: set<char> := {
    '\t', '\n', '\U{0B}', '\U{0C}', '\r',
    '\U{1C}', '\U{1D}', '\U{1E}', '\U{1F}',
    ' ', '\U{85}', '\U{A0}', '\U{1680}',
    '\U{2000}', '\U{2001}', '\U{2002}', '\U{2003}', '\U{2004}', '\U{2005}',
    '\U{2006}', '\U{2007}', '\U{2008}', '\U{2009}', '\U{200A}',
    '\U{2028}', '\U{2029}', '\U{202F}', '\U{205F}', '\U{3000}'
  }

  predicate IsSpace(c: char) {
    c in SpaceChars
  }

  /** True when `s` has no whitespace at either end. */
  predicate Trimmed(s: string) {
    s == [] || (!IsSpace(s[0]) && !IsSpace(s[|s| - 1]))
  }

  /** The first index at or after `i` that does not hold whitespace: the
      characters skipped are all whitespace. */
  function SkipSpace(s: string, i: nat): (r: nat)
    requires i <= |s|
    ensures i <= r <= |s|
    ensures forall j :: i <= j < r ==> IsSpace(s[j])
    ensures r == |s| || !IsSpace(s[r])
    decreases |s| - i
  {
    if i < |s| && IsSpace(s[i]) then SkipSpace(s, i + 1) else i
  }

  /** The end of `s[lo..hi]` once trailing whitespace is dropped: the
      characters dropped are all whitespace. */
  function SkipSpaceBack(s: string, lo: nat, hi: nat): (r: nat)
    requires lo <= hi <= |s|
    ensures lo <= r <= hi
    ensures forall j :: r <= j < hi ==> IsSpace(s[j])
    ensures r == lo || !IsSpace(s[r - 1])
    decreases hi - lo
  {
    if lo < hi && IsSpace(s[hi - 1]) then SkipSpaceBack(s, lo, hi - 1) else hi
  }

  /** Python `str.strip()` with no argument. */
  function Strip(s: string): (r: string)
    ensures Trimmed(r)
    ensures |r| <= |s|
  {
    var a := SkipSpace(s, 0);
    s[a..SkipSpaceBack(s, a, |s|)]
  }

  /** `Strip` removes only whitespace: the result is a run of `s` with only
      whitespace before it and after it. */
  lemma {:induction false} StripRemovesOnlySpace(s: string)
    ensures exists a, b :: && 0 <= a <= b <= |s| && Strip(s) == s[a..b]
                           && (forall j :: 0 <= j < a ==> IsSpace(s[j]))
                           && (forall j :: b <= j < |s| ==> IsSpace(s[j]))
  {
    var a := SkipSpace(s, 0);
    var b := SkipSpaceBack(s, a, |s|);
    assert Strip(s) == s[a..b];
  }

  /** A string without surrounding whitespace is left as it is. */
  lemma {:induction false} StripKeepsTrimmed(s: string)
    requires Trimmed(s)
    ensures Strip(s) == s
  {
    if s != [] {
      assert SkipSpace(s, 0) == 0;
      assert SkipSpaceBack(s, 0, |s|) == |s|;
    }
  }

  /** ASCII lower-casing of one character; every other character is kept. */
  function LowerChar(c: char): char {
    if 'A' <= c <= 'Z' then (c as int + 32) as char else c
  }

  /** `LOWER(...)` restricted to ASCII: same length, no upper-case ASCII letter
      left, and only upper-case ASCII letters are changed, each to its
      lower-case partner. */
  function LowerAscii(s: string): (r: string)
    ensures |r| == |s|
    ensures forall i :: 0 <= i < |r| ==> !('A' <= r[i] <= 'Z')
    ensures forall i :: 0 <= i < |r| && r[i] != s[i] ==>
              'A' <= s[i] <= 'Z' && r[i] as int == s[i] as int + 32
  {
    seq(|s|, i requires 0 <= i < |s| => LowerChar(s[i]))
  }

  /** Case-insensitive equality as `LOWER(a) = LOWER(b)`. */
  predicate EqualsIgnoringCase(a: string, b: string) {
    LowerAscii(a) == LowerAscii(b)
  }

  /** Code-point lexicographic order (`a <= b`), the order of a byte-wise
      collation on UTF-8 text. */
  predicate LexLe(a: string, b: string) {
    a == [] || (b != [] && (a[0] < b[0] || (a[0] == b[0] && LexLe(a[1..], b[1..]))))
  }

  lemma {:induction false} LexLeTotal(a: string, b: string)
    ensures LexLe(a, b) || LexLe(b, a)
  {
    if a != [] && b != [] && a[0] == b[0] {
      LexLeTotal(a[1..], b[1..]);
    }
  }

  lemma {:induction false} LexLeTransitive(a: string, b: string, c: string)
    requires LexLe(a, b) && LexLe(b, c)
    ensures LexLe(a, c)
  {
    if a != [] && b != [] && c != [] && a[0] == b[0] && b[0] == c[0] {
      LexLeTransitive(a[1..], b[1..], c[1..]);
    }
  }
}
