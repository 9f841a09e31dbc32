/** The Python string operations the receipt formats rely on: `str.split`
    with a one-character separator, `sep.join`, `str.replace` of one
    character, `str.strip()` and the character classes used by the parsers.
    Strings are sequences of Unicode scalar values. The character classes
    (`IsDigits`, `IsAlnum`, `IsUpperInvariant`) are the ASCII ones;
    Python 3 also counts other Unicode digits and letters. */
module Text {

  /** `s.split(sep)`: the pieces between separators, in order, empty pieces kept. */
  function Split(s: string, sep: char): (parts: seq<string>)
    ensures |parts| >= 1
    ensures forall i :: 0 <= i < |parts| ==> sep !in parts[i]
    decreases |s|
  {
    if |s| == 0 then [""]
    else
      var rest := Split(s[1..], sep);
      if s[0] == sep then [""] + rest
      else [[s[0]] + rest[0]] + rest[1..]
  }

  /** `sep.join(parts)`. */
  function Join(parts: seq<string>, sep: char): string
  {
    if |parts| == 0 then ""
    else if |parts| == 1 then parts[0]
    else parts[0] + [sep] + Join(parts[1..], sep)
  }

  /** Joining behind a first part. */
  lemma JoinCons(p: string, rest: seq<string>, sep: char)
    requires |rest| > 0
    ensures Join([p] + rest, sep) == p + [sep] + Join(rest, sep)
  {
    assert ([p] + rest)[1..] == rest;
  }

  /** Joining the pieces of a split gives back the string. */
  lemma {:induction false} JoinSplit(s: string, sep: char)
    ensures Join(Split(s, sep), sep) == s
    decreases |s|
  {
    if |s| > 0 {
      JoinSplit(s[1..], sep);
      var rest := Split(s[1..], sep);
      if s[0] == sep {
        assert Split(s, sep) == [""] + rest;
        assert s == [sep] + s[1..];
      } else {
        var parts := Split(s, sep);
        assert parts == [[s[0]] + rest[0]] + rest[1..];
        if |rest| == 1 {
          assert s == [s[0]] + rest[0];
        } else {
          assert Join(rest, sep) == rest[0] + [sep] + Join(rest[1..], sep);
          assert parts[1..] == rest[1..];
          assert s == [s[0]] + s[1..];
        }
      }
    }
  }

  lemma {:induction false} SplitNoSeparator(p: string, sep: char)
    requires sep !in p
    ensures Split(p, sep) == [p]
    decreases |p|
  {
    if |p| > 0 {
      SplitNoSeparator(p[1..], sep);
      assert p == [p[0]] + p[1..];
    }
  }

  lemma {:induction false} SplitAtFirstSeparator(p: string, sep: char, t: string)
    requires sep !in p
    ensures Split(p + [sep] + t, sep) == [p] + Split(t, sep)
    decreases |p|
  {
    var s := p + [sep] + t;
    if |p| == 0 {
      assert s[1..] == t;
    } else {
      assert s[1..] == p[1..] + [sep] + t;
      SplitAtFirstSeparator(p[1..], sep, t);
      assert [p[0]] + p[1..] == p;
    }
  }

  /** Splitting a join gives back the pieces, when no piece holds the separator. */
  lemma {:induction false} SplitJoin(parts: seq<string>, sep: char)
    requires |parts| >= 1
    requires forall i :: 0 <= i < |parts| ==> sep !in parts[i]
    ensures Split(Join(parts, sep), sep) == parts
    decreases |parts|
  {
    if |parts| == 1 {
      SplitNoSeparator(parts[0], sep);
    } else {
      SplitJoin(parts[1..], sep);
      SplitAtFirstSeparator(parts[0], sep, Join(parts[1..], sep));
      assert [parts[0]] + parts[1..] == parts;
    }
  }

  /** `SplitJoin` for pieces that may hold the separator: the pieces come
      back whenever none does. */
  lemma SplitJoinIf(parts: seq<string>, sep: char)
    requires |parts| >= 1
    ensures (forall i :: 0 <= i < |parts| ==> sep !in parts[i]) ==> Split(Join(parts, sep), sep) == parts
  {
    if forall i :: 0 <= i < |parts| ==> sep !in parts[i] {
      SplitJoin(parts, sep);
    }
  }

  /** A character the string does not hold is in none of its pieces. */
  lemma {:induction false} SplitPartsFrom(s: string, sep: char, c: char)
    requires c !in s
    ensures forall i :: 0 <= i < |Split(s, sep)| ==> c !in Split(s, sep)[i]
    decreases |s|
  {
    if |s| > 0 {
      assert c !in s[1..] by {
        forall j | 0 <= j < |s| - 1 ensures s[1..][j] != c {
          assert s[1..][j] == s[j + 1];
        }
      }
      SplitPartsFrom(s[1..], sep, c);
    }
  }

  /** Joining two non-empty runs of pieces puts one separator between them. */
  lemma {:induction false} JoinAppend(a: seq<string>, b: seq<string>, sep: char)
    requires |a| > 0 && |b| > 0
    ensures Join(a + b, sep) == Join(a, sep) + [sep] + Join(b, sep)
    decreases |a|
  {
    if |a| == 1 {
      assert (a + b)[1..] == b;
    } else {
      JoinAppend(a[1..], b, sep);
      assert (a + b)[1..] == a[1..] + b;
    }
  }

  /** The pieces written one after another, `''.join(parts)`. */
  function Concat(parts: seq<string>): string
  {
    if |parts| == 0 then "" else parts[0] + Concat(parts[1..])
  }

  /** `s.replace(a, b)` for single characters. */
  function Replace(s: string, a: char, b: char): (r: string)
    ensures |r| == |s|
    ensures forall i :: 0 <= i < |s| ==> r[i] == if s[i] == a then b else s[i]
  {
    seq(|s|, i requires 0 <= i < |s| => if s[i] == a then b else s[i])
  }

  /** Replacing the separator by a character the string does not hold
      moves every split point over to the new separator. */
  lemma {:induction false} SplitReplace(s: string, a: char, b: char)
    requires b !in s
    ensures Split(Replace(s, a, b), b) == Split(s, a)
    decreases |s|
  {
    if |s| > 0 {
      SplitReplace(s[1..], a, b);
      assert Replace(s, a, b)[1..] == Replace(s[1..], a, b);
    }
  }

  /** `s.replace(c, '')`. */
  function Remove(s: string, c: char): (r: string)
    ensures c !in r
    ensures |r| <= |s|
    ensures (forall i :: 0 <= i < |s| ==> s[i] == c) <==> r == []
  {
    if |s| == 0 then ""
    else if s[0] == c then Remove(s[1..], c)
    else [s[0]] + Remove(s[1..], c)
  }

  predicate EndsWith(s: string, c: char) {
    |s| > 0 && s[|s| - 1] == c
  }

  /** Python's `str.isspace()` for one character. */
  predicate IsSpace(c: char) {
    var n := c as int;
    (9 <= n <= 13) || (28 <= n <= 32) || n == 0x85 || n == 0xA0 || n == 0x1680 ||
    (0x2000 <= n <= 0x200A) || n == 0x2028 || n == 0x2029 || n == 0x202F ||
    n == 0x205F || n == 0x3000
  }

  predicate NoEdgeSpace(s: string) {
    |s| == 0 || (!IsSpace(s[0]) && !IsSpace(s[|s| - 1]))
  }

  /** The first index at or after `i` whose character is not white space. */
  function LeadEnd(s: string, i: nat): (k: nat)
    requires i <= |s|
    ensures i <= k <= |s| && (k == |s| || !IsSpace(s[k]))
    ensures forall x :: i <= x < k ==> IsSpace(s[x])
    decreases |s| - i
  {
    if i < |s| && IsSpace(s[i]) then LeadEnd(s, i + 1) else i
  }

  /** The end of the first `j` characters once trailing white space is cut. */
  function TrailEnd(s: string, j: nat): (m: nat)
    requires j <= |s|
    ensures m <= j && (m == 0 || !IsSpace(s[m - 1]))
    ensures forall x :: m <= x < j ==> IsSpace(s[x])
  {
    if j > 0 && IsSpace(s[j - 1]) then TrailEnd(s, j - 1) else j
  }

  /** `s.lstrip()`: leading white space removed. */
  function LStrip(s: string): (r: string)
    ensures |r| == 0 || !IsSpace(r[0])
    ensures |r| <= |s| && r == s[|s| - |r|..]
    ensures forall x :: 0 <= x < |s| - |r| ==> IsSpace(s[x])
    ensures |s| == 0 || !IsSpace(s[0]) ==> r == s
  {
    s[LeadEnd(s, 0)..]
  }

  /** `s.rstrip()`: trailing white space removed. */
  function RStrip(s: string): (r: string)
    ensures |r| == 0 || !IsSpace(r[|r| - 1])
    ensures r <= s
    ensures forall x :: |r| <= x < |s| ==> IsSpace(s[x])
    ensures |s| == 0 || !IsSpace(s[|s| - 1]) ==> r == s
  {
    s[..TrailEnd(s, |s|)]
  }

  /** `s.strip()`: the string without leading and trailing whitespace. */
  function Strip(s: string): (r: string)
    ensures NoEdgeSpace(r)
    ensures exists k :: SliceAt(s, k, r)
    ensures NoEdgeSpace(s) ==> r == s
  {
    StripSlice(s);
    RStrip(LStrip(s))
  }

  /** Where the stripped text sits in the string. */
  lemma StripSlice(s: string)
    ensures var t := LStrip(s); var r := RStrip(t);
      NoEdgeSpace(r) && SliceAt(s, |s| - |t|, r) && (NoEdgeSpace(s) ==> r == s)
  {
    var t := LStrip(s);
    var r := RStrip(t);
    var k := |s| - |t|;
    assert r == t[..|r|];
    assert s[k..k + |r|] == t[..|r|];
    if |r| > 0 {
      assert r[0] == t[0];
    }
    if NoEdgeSpace(s) {
      assert t == s;
    }
  }

  /** `r` occurs in `s` starting at index `k`. */
  predicate SliceAt(s: string, k: int, r: string) {
    0 <= k <= |s| - |r| && r == s[k..k + |r|]
  }

  /** A slice holds no character its string lacks. */
  lemma SliceLacks(s: string, k: int, r: string, c: char)
    requires SliceAt(s, k, r) && c !in s
    ensures c !in r
  {
    forall j | 0 <= j < |r| ensures r[j] != c {
      assert r[j] == s[k + j];
    }
  }

  predicate IsAsciiDigit(c: char) { '0' <= c <= '9' }
  predicate IsAsciiUpper(c: char) { 'A' <= c <= 'Z' }
  predicate IsAsciiLower(c: char) { 'a' <= c <= 'z' }
  predicate IsAsciiAlnum(c: char) { IsAsciiDigit(c) || IsAsciiUpper(c) || IsAsciiLower(c) }

  /** `s.isdigit()` over ASCII: non-empty and digits only. */
  predicate IsDigits(s: string) {
    |s| > 0 && forall i :: 0 <= i < |s| ==> IsAsciiDigit(s[i])
  }

  /** `s.isalnum()` over ASCII: non-empty and letters or digits only. */
  predicate IsAlnum(s: string) {
    |s| > 0 && forall i :: 0 <= i < |s| ==> IsAsciiAlnum(s[i])
  }

  /** `s == s.upper()` over ASCII: no lower-case letter. */
  predicate IsUpperInvariant(s: string) {
    forall i :: 0 <= i < |s| ==> !IsAsciiLower(s[i])
  }
}
