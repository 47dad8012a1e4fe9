/**
 * The string behaviour of the JavaScript runtime that the core relies on:
 * `String.prototype.trim` (used to reject blank input), the decimal text of a
 * numeric id (a contact's directory name and its property key), and Node's
 * `path.extname` (which picks the extension an avatar is stored under).
 */
module Text {
  import opened Wrappers

  // ---------------------------------------------------------------------------
  // String.prototype.trim

  /** The WhiteSpace and LineTerminator code points of ECMAScript; `trim` removes them. */
  predicate IsWhitespace(c: char) {
    || c == '\t' || c == '\n' || c == '\U{B}' || c == '\U{C}' || c == '\r' || c == ' '
    || c == '\U{A0}' || c == '\U{1680}' || ('\U{2000}' <= c <= '\U{200A}')
    || c == '\U{2028}' || c == '\U{2029}' || c == '\U{202F}' || c == '\U{205F}'
    || c == '\U{3000}' || c == '\U{FEFF}'
  }

  /** Every character of `s` is white space (the empty string included). */
  predicate Blank(s: string) {
    forall i :: 0 <= i < |s| ==> IsWhitespace(s[i])
  }

  /** `s` without its leading white space. */
  function TrimStart(s: string): (r: string)
    ensures |r| <= |s| && r == s[|s| - |r|..]
    ensures forall i :: 0 <= i < |s| - |r| ==> IsWhitespace(s[i])
    ensures r != [] ==> !IsWhitespace(r[0])
  {
    if |s| > 0 && IsWhitespace(s[0]) then
      var r := TrimStart(s[1..]);
      assert forall i :: 1 <= i < |s| ==> s[i] == s[1..][i - 1];
      r
    else
      s
  }

  /** `s` without its trailing white space. */
  function TrimEnd(s: string): (r: string)
    ensures |r| <= |s| && r == s[..|r|]
    ensures forall i :: |r| <= i < |s| ==> IsWhitespace(s[i])
    ensures r != [] ==> !IsWhitespace(r[|r| - 1])
  {
    if |s| > 0 && IsWhitespace(s[|s| - 1]) then
      var r := TrimEnd(s[..|s| - 1]);
      r
    else
      s
  }

  /** `s.trim()`. */
  function Trim(s: string): (r: string) {
    TrimEnd(TrimStart(s))
  }

  /** `!s.trim()` holds exactly for the strings made of white space only. */
  lemma TrimIsEmptyIffBlank(s: string)
    ensures Trim(s) == "" <==> Blank(s)
  {
    var t := TrimStart(s);
    if t != [] {
      assert t[0] == s[|s| - |t|];
      assert TrimEnd(t) != [];
    } else {
      assert s[..|s|] == s;
    }
  }

  /** `!s.trim()`: whether nothing is left of `s` once trimmed. */
  method TrimsToEmpty(s: string) returns (empty: bool)
    ensures empty <==> Blank(s)
  {
    empty := Trim(s) == "";
    TrimIsEmptyIffBlank(s);
  }

  // ---------------------------------------------------------------------------
  // Decimal text of a numeric id (template literal `${id}`)

  /** The ASCII digit for `d`. */
  function DigitChar(d: nat): (c: char)
    requires d < 10
    ensures '0' <= c <= '9'
  {
    (48 + d) as char
  }

  /** Whether `c` is an ASCII digit. */
  predicate IsDigit(c: char) {
    '0' <= c <= '9'
  }

  /** The decimal numeral of `n`, without leading zeros. */
  function Decimal(n: nat): (s: string)
    ensures |s| >= 1
    ensures forall i :: 0 <= i < |s| ==> IsDigit(s[i])
  {
    if n < 10 then [DigitChar(n)] else Decimal(n / 10) + [DigitChar(n % 10)]
  }

  /** The number a string of digits denotes (the left inverse of `Decimal`). */
  function DigitsValue(s: string): nat {
    if s == [] then 0
    else
      var c := s[|s| - 1];
      DigitsValue(s[..|s| - 1]) * 10 + (if IsDigit(c) then c as int - 48 else 0)
  }

  /** Reading back the numeral of `n` gives `n`. */
  lemma {:induction false} DecimalRoundTrip(n: nat)
    ensures DigitsValue(Decimal(n)) == n
  {
    if n >= 10 {
      var s := Decimal(n);
      assert s[..|s| - 1] == Decimal(n / 10);
      DecimalRoundTrip(n / 10);
    }
  }

  /** Two ids have the same numeral exactly when they are equal. */
  lemma DecimalInjective(a: nat, b: nat)
    ensures Decimal(a) == Decimal(b) <==> a == b
  {
    DecimalRoundTrip(a);
    DecimalRoundTrip(b);
  }

  /** A numeral is never one of the non-numeric names `other` stands for. */
  lemma DecimalIsNotWord(n: nat, other: string)
    requires |other| > 0 && !IsDigit(other[0])
    ensures Decimal(n) != other
  {
    assert IsDigit(Decimal(n)[0]);
  }

  // ---------------------------------------------------------------------------
  // Node's path.extname (POSIX flavour)

  /** The position of the last `c` in `s`, if any. */
  function LastIndexOf(s: string, c: char): (r: Option<nat>)
    ensures r.Some? ==> r.value < |s| && s[r.value] == c
    ensures r.Some? ==> forall j :: r.value < j < |s| ==> s[j] != c
    ensures r.None? ==> forall j :: 0 <= j < |s| ==> s[j] != c
  {
    if |s| == 0 then None
    else if s[|s| - 1] == c then Some(|s| - 1)
    else LastIndexOf(s[..|s| - 1], c)
  }

  /** `p` without the separators it ends with. */
  function StripTrailingSlashes(p: string): (r: string)
    ensures |r| <= |p| && r == p[..|r|]
    ensures forall i :: |r| <= i < |p| ==> p[i] == '/'
    ensures r == [] || r[|r| - 1] != '/'
  {
    if |p| > 0 && p[|p| - 1] == '/' then StripTrailingSlashes(p[..|p| - 1]) else p
  }

  /** The last component of `p`, trailing separators ignored. */
  function BaseName(p: string): (r: string)
    ensures forall i :: 0 <= i < |r| ==> r[i] != '/'
  {
    var q := StripTrailingSlashes(p);
    match LastIndexOf(q, '/')
    case None => q
    case Some(i) => q[i + 1..]
  }

  /**
   * `BaseName(p)` is the part of `p`, trailing separators dropped, that
   * follows its last separator (all of it when there is none).
   */
  lemma {:induction false} BaseNameIsLastComponent(p: string)
    ensures var q := StripTrailingSlashes(p); var r := BaseName(p);
      && |r| <= |q| && r == q[|q| - |r|..]
      && (|r| < |q| ==> q[|q| - |r| - 1] == '/')
  {
    var q := StripTrailingSlashes(p);
    match LastIndexOf(q, '/')
    case None =>
      assert BaseName(p) == q;
    case Some(i) =>
      var r := q[i + 1..];
      assert BaseName(p) == r;
      assert |q| - |r| == i + 1;
      assert q[|q| - |r|..] == r;
  }

  /**
   * `path.extname(p)`: from the last `.` of the last component to its end;
   * empty when that component has no `.`, starts with its only `.`, or is `..`.
   */
  function ExtName(p: string): (r: string)
    ensures r == [] || (r[0] == '.' && forall i :: 1 <= i < |r| ==> r[i] != '.' && r[i] != '/')
    ensures r != [] ==> |r| < |BaseName(p)| && r == BaseName(p)[|BaseName(p)| - |r|..]
  {
    var b := BaseName(p);
    match LastIndexOf(b, '.')
    case None => ""
    case Some(d) => if d == 0 || b == ".." then "" else b[d..]
  }

  /** A well-formed extension: a dot and at least one character, none of them a dot or separator. */
  predicate IsExtension(e: string) {
    |e| >= 2 && e[0] == '.' && forall i :: 1 <= i < |e| ==> e[i] != '.' && e[i] != '/'
  }

  /** Appending text without `c` keeps the last `c` where it was. */
  lemma LastIndexOfAppend(s: string, e: string, c: char)
    requires forall i :: 0 <= i < |e| ==> e[i] != c
    ensures LastIndexOf(s + e, c) == LastIndexOf(s, c)
  {
    var r, r' := LastIndexOf(s + e, c), LastIndexOf(s, c);
    if r.Some? {
      assert r.value < |s|;
      assert s[r.value] == (s + e)[r.value];
    }
    if r'.Some? {
      assert (s + e)[r'.value] == s[r'.value];
    }
  }

  /** The last component of `stem + ext`, for an `ext` without separators. */
  lemma BaseNameOfAppend(stem: string, ext: string)
    requires |stem| > 0 && stem[|stem| - 1] != '/'
    requires |ext| > 0 && forall i :: 0 <= i < |ext| ==> ext[i] != '/'
    ensures |BaseName(stem)| > 0
    ensures BaseName(stem + ext) == BaseName(stem) + ext
  {
    var p := stem + ext;
    assert p[|p| - 1] == ext[|ext| - 1];
    assert StripTrailingSlashes(p) == p;
    assert StripTrailingSlashes(stem) == stem;
    LastIndexOfAppend(stem, ext, '/');
    match LastIndexOf(stem, '/')
    case None =>
    case Some(i) =>
      assert p[i + 1..] == stem[i + 1..] + ext;
  }

  /** The dot that starts an extension is the last dot of anything it ends. */
  lemma LastDotOfExtension(a: string, ext: string)
    requires IsExtension(ext)
    ensures LastIndexOf(a + ext, '.') == Some(|a|)
  {
    var head := a + ext[..1];
    assert head[|head| - 1] == '.';
    LastIndexOfAppend(head, ext[1..], '.');
    assert head + ext[1..] == a + ext;
  }

  /** A file name `stem + ext` yields exactly `ext`, whatever directories `stem` names. */
  lemma ExtNameOfFileName(stem: string, ext: string)
    requires |stem| > 0 && stem[|stem| - 1] != '/'
    requires IsExtension(ext)
    ensures ExtName(stem + ext) == ext
  {
    BaseNameOfAppend(stem, ext);
    var b := BaseName(stem) + ext;
    LastDotOfExtension(BaseName(stem), ext);
    assert b[|BaseName(stem)|..] == ext;
    assert |b| > 2;
  }
}
