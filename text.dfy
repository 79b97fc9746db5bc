/**
 * The JavaScript string and array built-ins that the file store and the
 * terminal rely on: `split` on one character, `join`, the path idiom
 * `split('/').filter(p => p)`, the parent/child path join, `startsWith`,
 * `trim`, decimal formatting of a number, ASCII lower-casing and the order
 * on names used by directory listings.
 */
module Text {

  /** Number of occurrences of `c` in `s`. */
  function Occurrences(s: string, c: char): nat
  {
    if s == [] then 0 else (if s[0] == c then 1 else 0) + Occurrences(s[1..], c)
  }

  /**
   * `s.split(sep)` for a one-character separator: the runs between
   * separators, empty runs included, so there is one piece more than there
   * are separators and no piece contains the separator.
   */
  function Split(s: string, sep: char): (r: seq<string>)
    ensures |r| == Occurrences(s, sep) + 1
    ensures forall i :: 0 <= i < |r| ==> sep !in r[i]
  {
    if s == [] then [""]
    else
      var rest := Split(s[1..], sep);
      if s[0] == sep then [""] + rest
      else [[s[0]] + rest[0]] + rest[1..]
  }

  /** `parts.join(sep)`. */
  function Join(parts: seq<string>, sep: string): string
  {
    if parts == [] then ""
    else if |parts| == 1 then parts[0]
    else parts[0] + sep + Join(parts[1..], sep)
  }

  lemma JoinCons(x: string, rest: seq<string>, sep: string)
    requires rest != []
    ensures Join([x] + rest, sep) == x + sep + Join(rest, sep)
  {
    assert ([x] + rest)[1..] == rest;
  }

  lemma {:induction false} JoinSnoc(xs: seq<string>, y: string, sep: string)
    requires xs != []
    ensures Join(xs + [y], sep) == Join(xs, sep) + sep + Join([y], sep)
  {
    if |xs| == 1 {
      assert xs + [y] == [xs[0]] + [y];
      JoinCons(xs[0], [y], sep);
    } else {
      assert xs + [y] == [xs[0]] + (xs[1..] + [y]);
      JoinCons(xs[0], xs[1..] + [y], sep);
      JoinSnoc(xs[1..], y, sep);
    }
  }

  /** Joining the pieces of a split with the same separator gives the string back. */
  lemma {:induction false} JoinSplit(s: string, sep: char)
    ensures Join(Split(s, sep), [sep]) == s
  {
    if s != [] {
      var rest := Split(s[1..], sep);
      JoinSplit(s[1..], sep);
      if s[0] == sep {
        JoinCons("", rest, [sep]);
        assert [sep] + s[1..] == s;
      } else if |rest| == 1 {
        assert [s[0]] + s[1..] == s;
      } else {
        assert rest == [rest[0]] + rest[1..];
        JoinCons(rest[0], rest[1..], [sep]);
        JoinCons([s[0]] + rest[0], rest[1..], [sep]);
        assert [s[0]] + s[1..] == s;
      }
    }
  }

  lemma {:induction false} SplitNoSeparator(a: string, sep: char)
    requires sep !in a
    ensures Split(a, sep) == [a]
  {
    if a != [] {
      SplitNoSeparator(a[1..], sep);
      assert [a[0]] + a[1..] == a;
    }
  }

  lemma {:induction false} SplitAfterPiece(a: string, b: string, sep: char)
    requires sep !in a
    ensures Split(a + [sep] + b, sep) == [a] + Split(b, sep)
  {
    if a == [] {
      assert a + [sep] + b == [sep] + b;
      assert ([sep] + b)[1..] == b;
    } else {
      SplitAfterPiece(a[1..], b, sep);
      assert (a + [sep] + b)[1..] == a[1..] + [sep] + b;
      assert [a[0]] + a[1..] == a;
    }
  }

  /** Splitting a join gives the pieces back when none contains the separator. */
  lemma {:induction false} SplitJoin(parts: seq<string>, sep: char)
    requires |parts| >= 1
    requires forall i :: 0 <= i < |parts| ==> sep !in parts[i]
    ensures Split(Join(parts, [sep]), sep) == parts
  {
    if |parts| == 1 {
      SplitNoSeparator(parts[0], sep);
    } else {
      SplitJoin(parts[1..], sep);
      SplitAfterPiece(parts[0], Join(parts[1..], [sep]), sep);
      assert [parts[0]] + parts[1..] == parts;
    }
  }

  /** `xs.filter(p => p)`: the non-empty strings of `xs`, in their order. */
  function NonEmpty(xs: seq<string>): (r: seq<string>)
    ensures |r| <= |xs|
    ensures forall x :: x in r <==> x in xs && x != ""
  {
    if xs == [] then []
    else if xs[0] == "" then NonEmpty(xs[1..])
    else [xs[0]] + NonEmpty(xs[1..])
  }

  /** The filter keeps the order: filtering a concatenation filters each part in turn. */
  lemma {:induction false} NonEmptyAppend(a: seq<string>, b: seq<string>)
    ensures NonEmpty(a + b) == NonEmpty(a) + NonEmpty(b)
  {
    if a == [] {
      assert a + b == b;
    } else {
      assert (a + b)[0] == a[0] && (a + b)[1..] == a[1..] + b;
      NonEmptyAppend(a[1..], b);
    }
  }

  /** A path segment: non-empty and free of slashes. */
  predicate IsName(s: string)
  {
    s != "" && '/' !in s
  }

  /** `path.split('/').filter(p => p)`: the names along a slash-separated path. */
  function Segments(path: string): (r: seq<string>)
    ensures forall i :: 0 <= i < |r| ==> IsName(r[i])
  {
    var pieces := Split(path, '/');
    var r := NonEmpty(pieces);
    assert forall i :: 0 <= i < |r| ==> r[i] in pieces;
    r
  }

  lemma {:induction false} NonEmptyOfNames(xs: seq<string>)
    requires forall i :: 0 <= i < |xs| ==> xs[i] != ""
    ensures NonEmpty(xs) == xs
  {
    if xs != [] {
      NonEmptyOfNames(xs[1..]);
    }
  }

  lemma SplitRooted(parts: seq<string>)
    requires forall i :: 0 <= i < |parts| ==> IsName(parts[i])
    ensures Split("/" + Join(parts, "/"), '/') == [""] + (if parts == [] then [""] else parts)
  {
    if parts == [] {
      assert "/" + Join(parts, "/") == [] + ['/'] + [];
      SplitAfterPiece([], [], '/');
    } else {
      assert "/" + Join(parts, "/") == [] + ['/'] + Join(parts, ['/']);
      SplitAfterPiece([], Join(parts, ['/']), '/');
      SplitJoin(parts, '/');
    }
  }

  /** A rooted path built from names splits back into exactly those names. */
  lemma SegmentsOfRooted(parts: seq<string>)
    requires forall i :: 0 <= i < |parts| ==> IsName(parts[i])
    ensures Segments("/" + Join(parts, "/")) == parts
  {
    SplitRooted(parts);
    var pieces := [""] + (if parts == [] then [""] else parts);
    assert pieces[1..] == (if parts == [] then [""] else parts);
    assert NonEmpty(pieces) == NonEmpty(pieces[1..]);
    NonEmptyOfNames(parts);
  }

  /** `s.startsWith(prefix)`. */
  predicate StartsWith(s: string, prefix: string)
  {
    |prefix| <= |s| && s[..|prefix|] == prefix
  }

  /**
   * The path of an entry called `name` inside the folder `parent`:
   * `parent === '/' ? '/' + name : parent + '/' + name`.
   */
  function ChildPath(parent: string, name: string): (r: string)
    ensures |r| == |parent| + |name| + (if parent == "/" then 0 else 1)
    ensures r[|r| - |name|..] == name
  {
    if parent == "/" then "/" + name else parent + "/" + name
  }

  /** A child path is `/` and the name under the root, and otherwise the parent, a slash and the name. */
  lemma ChildPathParts(parent: string, name: string)
    ensures var r := ChildPath(parent, name);
      && r[..|r| - |name|] == (if parent == "/" then "/" else parent + "/")
      && r[|r| - |name|..] == name
  {
  }

  /** Below a rooted path, the child path appends one segment. */
  lemma ChildOfRooted(segments: seq<string>, name: string)
    requires forall i :: 0 <= i < |segments| ==> IsName(segments[i])
    ensures ChildPath("/" + Join(segments, "/"), name) == "/" + Join(segments + [name], "/")
  {
    if segments == [] {
      assert segments + [name] == [name];
    } else {
      var j := Join(segments, "/");
      JoinSnoc(segments, name, "/");
      assert Join([name], "/") == name;
      assert IsName(segments[0]);
      assert |j| >= |segments[0]| > 0;
      assert "/" + j != "/" by {
        assert |"/" + j| > 1;
      }
      assert ChildPath("/" + j, name) == "/" + j + "/" + name;
      Regroup("/", j, "/", name);
    }
  }

  lemma Regroup(a: string, b: string, c: string, d: string)
    ensures a + b + c + d == a + (b + c + d)
  {
  }

  /** The characters `String.prototype.trim` removes: ECMAScript white space and line terminators. */
  predicate IsSpace(c: char)
  {
    || c == '\t' || c == '\n' || c == '\U{B}' || c == '\U{C}' || c == '\r' || c == ' '
    || c == '\U{A0}' || c == '\U{1680}' || ('\U{2000}' <= c <= '\U{200A}')
    || c == '\U{2028}' || c == '\U{2029}' || c == '\U{202F}' || c == '\U{205F}'
    || c == '\U{3000}' || c == '\U{FEFF}'
  }

  /** Drops the leading white space of `s`. */
  function TrimStart(s: string): (r: string)
    ensures |r| <= |s| && r == s[|s| - |r|..]
    ensures forall i :: 0 <= i < |s| - |r| ==> IsSpace(s[i])
    ensures r != [] ==> !IsSpace(r[0])
  {
    if s != [] && IsSpace(s[0]) then TrimStart(s[1..]) else s
  }

  /** Drops the trailing white space of `s`. */
  function TrimEnd(s: string): (r: string)
    ensures |r| <= |s| && r == s[..|r|]
    ensures forall i :: |r| <= i < |s| ==> IsSpace(s[i])
    ensures r != [] ==> !IsSpace(r[|r| - 1])
  {
    if s != [] && IsSpace(s[|s| - 1]) then TrimEnd(s[..|s| - 1]) else s
  }

  /**
   * `s.trim()`: `s` without its leading and trailing white space; it is
   * empty exactly when `s` is white space only.
   */
  function Trim(s: string): (r: string)
    ensures |r| <= |s|
    ensures r == [] <==> forall i :: 0 <= i < |s| ==> IsSpace(s[i])
    ensures r != [] ==> !IsSpace(r[0]) && !IsSpace(r[|r| - 1])
    ensures |r| <= |TrimStart(s)| && r == s[|s| - |TrimStart(s)|..|s| - |TrimStart(s)| + |r|]
  {
    var t := TrimStart(s);
    var r := TrimEnd(t);
    TrimFacts(s, t, r);
    r
  }

  /** Only white space follows `trim()`'s slice of the line. */
  lemma TrimTail(s: string)
    ensures forall i :: |s| - |TrimStart(s)| + |Trim(s)| <= i < |s| ==> IsSpace(s[i])
  {
    var t := TrimStart(s);
    var r := TrimEnd(t);
    assert Trim(s) == r;
    var off := |s| - |t|;
    assert t == s[off..];
    forall i | off + |r| <= i < |s| ensures IsSpace(s[i]) {
      assert IsSpace(t[i - off]);
    }
  }

  lemma TrimFacts(s: string, t: string, r: string)
    requires t == TrimStart(s) && r == TrimEnd(t)
    ensures |r| <= |s|
    ensures r == [] <==> forall i :: 0 <= i < |s| ==> IsSpace(s[i])
    ensures r != [] ==> !IsSpace(r[0]) && !IsSpace(r[|r| - 1])
    ensures |r| <= |t| && r == s[|s| - |t|..|s| - |t| + |r|]
  {
    SliceOfSuffix(s, t, r);
    TrimEmpty(s, t, r);
    assert r != [] ==> r[0] == t[0];
  }

  /** A prefix of a suffix of `s` is a middle slice of `s`. */
  lemma SliceOfSuffix(s: string, t: string, r: string)
    requires |t| <= |s| && t == s[|s| - |t|..]
    requires |r| <= |t| && r == t[..|r|]
    ensures r == s[|s| - |t|..|s| - |t| + |r|]
  {
  }

  lemma TrimEmpty(s: string, t: string, r: string)
    requires t == TrimStart(s) && r == TrimEnd(t)
    ensures r == [] <==> forall i :: 0 <= i < |s| ==> IsSpace(s[i])
  {
    var off := |s| - |t|;
    if r == [] {
      assert t == [];
    } else {
      assert t != [] && t[0] == s[off];
    }
  }

  predicate IsDigit(c: char)
  {
    '0' <= c <= '9'
  }

  function DigitChar(d: nat): (c: char)
    requires d < 10
    ensures IsDigit(c) && c as int - '0' as int == d
  {
    ('0' as int + d) as char
  }

  /** The number a string of decimal digits denotes. */
  function DecimalValue(s: string): nat
    requires forall i :: 0 <= i < |s| ==> IsDigit(s[i])
  {
    if s == [] then 0
    else
      assert IsDigit(s[|s| - 1]);
      10 * DecimalValue(s[..|s| - 1]) + (s[|s| - 1] as int - '0' as int)
  }

  /** `String(n)` for a natural number: its decimal digits, which denote `n` again. */
  function NatToString(n: nat): (r: string)
    ensures r != [] && forall i :: 0 <= i < |r| ==> IsDigit(r[i])
    ensures DecimalValue(r) == n
    ensures n > 0 ==> r[0] != '0'
  {
    if n < 10 then [DigitChar(n)]
    else
      var r := NatToString(n / 10) + [DigitChar(n % 10)];
      assert r[..|r| - 1] == NatToString(n / 10);
      r
  }

  /** `toLowerCase()` on the ASCII letters; other characters are kept. */
  function LowerAscii(s: string): (r: string)
    ensures |r| == |s|
  {
    if s == [] then []
    else [if 'A' <= s[0] <= 'Z' then (s[0] as int + 32) as char else s[0]] + LowerAscii(s[1..])
  }

  /** Lexicographic order on strings by character code. */
  predicate LexLessEq(a: string, b: string)
  {
    a == [] || (b != [] && (a[0] < b[0] || (a[0] == b[0] && LexLessEq(a[1..], b[1..]))))
  }

  lemma {:induction false} LexTotal(a: string, b: string)
    ensures LexLessEq(a, b) || LexLessEq(b, a)
  {
    if a != [] && b != [] && a[0] == b[0] {
      LexTotal(a[1..], b[1..]);
    }
  }

  lemma {:induction false} LexTransitive(a: string, b: string, c: string)
    requires LexLessEq(a, b) && LexLessEq(b, c)
    ensures LexLessEq(a, c)
  {
    if a != [] && a[0] == b[0] && b[0] == c[0] {
      LexTransitive(a[1..], b[1..], c[1..]);
    }
  }

  lemma {:induction false} LexAntisymmetric(a: string, b: string)
    requires LexLessEq(a, b) && LexLessEq(b, a)
    ensures a == b
  {
    if a != [] {
      LexAntisymmetric(a[1..], b[1..]);
      assert a == [a[0]] + a[1..] && b == [b[0]] + b[1..];
    }
  }
}
