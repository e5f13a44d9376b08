/**
 * The string operations of Python's standard library that the core relies on:
 * `str.lower`, `str.strip`, `str.endswith`, the `in` substring test,
 * `str.join` and `os.path.splitext`.  Only ASCII case and ASCII whitespace
 * are modelled.
 */
module Text {

  /** ASCII lower-casing of one character. */
  function LowerChar(c: char): char
  {
    if 'A' <= c <= 'Z' then (c as int + 32) as char else c
  }

  /** `s.lower()` on ASCII text. */
  function Lower(s: string): (r: string)
    ensures |r| == |s|
    ensures forall i :: 0 <= i < |s| ==> r[i] == LowerChar(s[i])
  {
    seq(|s|, i requires 0 <= i < |s| => LowerChar(s[i]))
  }

  /** `s.endswith(suffix)`. */
  predicate EndsWith(s: string, suffix: string)
  {
    |suffix| <= |s| && s[|s| - |suffix|..] == suffix
  }

  /** `sub in s`. */
  predicate Contains(s: string, sub: string)
    decreases |s|
  {
    |sub| <= |s| && (s[..|sub|] == sub || (s != [] && Contains(s[1..], sub)))
  }

  /**
   * The ASCII characters `str.strip()` removes: space, tab, line feed,
   * carriage return, vertical tab, form feed and the separators 0x1C-0x1F.
   */
  predicate IsSpace(c: char)
  {
    c == ' ' || c == '\t' || c == '\n' || c == '\r' || c as int == 11 || c as int == 12 ||
    (28 <= c as int <= 31)
  }

  /** Number of leading whitespace characters of `s`. */
  function LeadingSpace(s: string): (n: nat)
    ensures n <= |s|
    ensures forall k :: 0 <= k < n ==> IsSpace(s[k])
    ensures n < |s| ==> !IsSpace(s[n])
  {
    if s != [] && IsSpace(s[0]) then 1 + LeadingSpace(s[1..]) else 0
  }

  /** Start of the trailing run of whitespace of `s`. */
  function TrailingSpace(s: string): (m: nat)
    ensures m <= |s|
    ensures forall k :: m <= k < |s| ==> IsSpace(s[k])
    ensures 0 < m ==> !IsSpace(s[m - 1])
  {
    if s != [] && IsSpace(s[|s| - 1]) then TrailingSpace(s[..|s| - 1]) else |s|
  }

  /**
   * `s.strip()`: the text between the leading and the trailing whitespace.
   * It is empty exactly when `s` is all whitespace, and otherwise it neither
   * starts nor ends with whitespace.
   */
  function Strip(s: string): (r: string)
    ensures |r| <= |s|
    ensures r == [] <==> forall k :: 0 <= k < |s| ==> IsSpace(s[k])
    ensures r != [] ==> !IsSpace(r[0]) && !IsSpace(r[|r| - 1])
    ensures exists a, b :: 0 <= a <= b <= |s| && r == s[a..b] &&
              (forall k :: 0 <= k < a ==> IsSpace(s[k])) && (forall k :: b <= k < |s| ==> IsSpace(s[k]))
  {
    var i, j := LeadingSpace(s), TrailingSpace(s);
    if i < j then
      assert s[i..j] == s[i..j];
      s[i..j]
    else
      assert s[|s|..|s|] == [];
      []
  }

  /** Stripping a stripped text changes nothing. */
  lemma StripIdempotent(s: string)
    ensures Strip(Strip(s)) == Strip(s)
  {
    var r := Strip(s);
    if r != [] {
      assert LeadingSpace(r) == 0;
      assert TrailingSpace(r) == |r|;
      assert r[0..|r|] == r;
    }
  }

  /** `sep.join(parts)`. */
  function Join(sep: string, parts: seq<string>): string
  {
    if parts == [] then ""
    else if |parts| == 1 then parts[0]
    else parts[0] + sep + Join(sep, parts[1..])
  }

  /** Joining a list with one more element appended adds one separator and that element. */
  lemma {:induction false} JoinSnoc(sep: string, parts: seq<string>, x: string)
    requires parts != []
    ensures Join(sep, parts + [x]) == Join(sep, parts) + sep + x
  {
    if |parts| == 1 {
      assert parts + [x] == [parts[0], x];
      assert [parts[0], x][1..] == [x];
    } else {
      assert (parts + [x])[1..] == parts[1..] + [x];
      JoinSnoc(sep, parts[1..], x);
    }
  }

  /** Joining a list with one more element in front adds that element and one separator. */
  lemma JoinCons(sep: string, x: string, parts: seq<string>)
    requires parts != []
    ensures Join(sep, [x] + parts) == x + sep + Join(sep, parts)
  {
    assert ([x] + parts)[1..] == parts;
  }

  /** Index of the last occurrence of `c` in `s`, or -1 (Python's `rfind`). */
  function LastIndexOf(s: string, c: char): (r: int)
    ensures -1 <= r < |s|
    ensures 0 <= r ==> s[r] == c
    ensures forall k :: r < k < |s| ==> s[k] != c
  {
    if s == [] then -1
    else if s[|s| - 1] == c then |s| - 1
    else LastIndexOf(s[..|s| - 1], c)
  }

  /**
   * The extension half of `os.path.splitext(p)` with `/` as the separator:
   * from the last dot of the last path component to the end, provided that
   * component has a character other than a dot before that last dot
   * (so ".bashrc" and "dir/..." have no extension).
   */
  function Extension(p: string): string
  {
    var sep := LastIndexOf(p, '/');
    var dot := LastIndexOf(p, '.');
    if dot > sep && exists k :: sep < k < dot && p[k] != '.' then p[dot..] else ""
  }

  /** An extension: a dot followed by characters that are neither dots nor separators. */
  predicate IsExtension(e: string)
  {
    |e| >= 1 && e[0] == '.' && forall k :: 1 <= k < |e| ==> e[k] != '.' && e[k] != '/'
  }

  /** A stem whose last component has a character other than a dot. */
  predicate HasNamedStem(stem: string)
  {
    exists k :: LastIndexOf(stem, '/') < k < |stem| && stem[k] != '.'
  }

  /**
   * What `splitext` returns is either empty or an extension, and it is a
   * suffix of the path.
   */
  lemma ExtensionShape(p: string)
    ensures Extension(p) == [] || IsExtension(Extension(p))
    ensures EndsWith(p, Extension(p))
  {
    var sep := LastIndexOf(p, '/');
    var dot := LastIndexOf(p, '.');
    if Extension(p) != [] {
      var e := p[dot..];
      forall k | 1 <= k < |e| ensures e[k] != '.' && e[k] != '/' {
        assert e[k] == p[dot + k];
      }
    }
  }

  /** Appending an extension to a named stem gives back exactly that extension. */
  lemma ExtensionOfAppended(stem: string, e: string)
    requires HasNamedStem(stem) && IsExtension(e)
    ensures Extension(stem + e) == e
  {
    var p := stem + e;
    var k :| LastIndexOf(stem, '/') < k < |stem| && stem[k] != '.';
    assert p[|stem|] == '.';
    forall i | |stem| < i < |p| ensures p[i] != '.' && p[i] != '/' {
      assert p[i] == e[i - |stem|];
    }
    var dot := LastIndexOf(p, '.');
    assert dot == |stem|;
    var sep := LastIndexOf(p, '/');
    var sep0 := LastIndexOf(stem, '/');
    assert 0 <= sep0 ==> p[sep0] == '/';
    assert sep < |stem|;
    assert 0 <= sep ==> stem[sep] == '/';
    assert sep == sep0;
    assert p[k] == stem[k];
    assert p[dot..] == e;
  }
}
