/** Python's string operations, as the scripts use them: slicing with negative and
    clamped bounds, `find`, `count`, `split`, `rstrip` and `strip`. */
module PyStr {
  import opened Common

  // ---------------------------------------------------------------- slicing

  /** Python's normalisation of a slice bound `i` for a string of length `n`:
      a negative bound counts from the end, and the result is clamped to 0..n. */
  function Bound(i: int, n: nat): (r: nat)
    ensures r <= n
  {
    if i < 0 then (if i + n < 0 then 0 else i + n)
    else if i > n then n
    else i
  }

  /** Python's `s[i:j]`. */
  function Slice(s: string, i: int, j: int): string
  {
    var lo, hi := Bound(i, |s|), Bound(j, |s|);
    if lo < hi then s[lo..hi] else ""
  }

  /** The scripts' `right(s, amount)`, that is `s[amount:]`: everything from index
      `amount` on, counted from the end when negative. */
  function Right(s: string, amount: int): string
  {
    if amount < -|s| then s
    else if amount < 0 then s[|s| + amount..]
    else if amount <= |s| then s[amount..]
    else ""
  }

  /** The scripts' `left(s, amount)`, that is `s[:amount]`: everything before index
      `amount`, counted from the end when negative. */
  function Left(s: string, amount: int): string
  {
    if amount < -|s| then ""
    else if amount < 0 then s[..|s| + amount]
    else if amount <= |s| then s[..amount]
    else s
  }

  /** `right` and `left` are Python's slices with an open end. */
  lemma RightLeftAreSlices(s: string, amount: int)
    ensures Right(s, amount) == Slice(s, amount, |s|)
    ensures Left(s, amount) == Slice(s, 0, amount)
  {
  }

  /** Python's `s[:a] + s[a:] == s`, for every `a`. */
  lemma LeftRight(s: string, amount: int)
    ensures Left(s, amount) + Right(s, amount) == s
  {
  }

  /** The scripts' `mid(s, offset, amount)`, that is `s[offset-1:offset+amount-1]`:
      `amount` characters from the 1-based position `offset`. */
  function Mid(s: string, offset: int, amount: int): (r: string)
    ensures 1 <= offset && 0 <= amount && offset + amount - 1 <= |s| ==>
              r == s[offset - 1..offset + amount - 1]
    ensures amount == 0 ==> r == ""
    ensures 1 <= offset <= |s| + 1 && offset + amount - 1 > |s| ==> r == s[offset - 1..]
  {
    Slice(s, offset - 1, offset + amount - 1)
  }

  // ---------------------------------------------------------------- find

  /** `t` occurs in `s` starting at index `i`. */
  predicate OccursAt(s: string, t: string, i: int)
  {
    0 <= i && i + |t| <= |s| && s[i..i + |t|] == t
  }

  function FindFrom(s: string, t: string, i: nat): int
    decreases |s| - i
  {
    if i + |t| > |s| then -1
    else if s[i..i + |t|] == t then i
    else FindFrom(s, t, i + 1)
  }

  lemma {:induction false} FindFromSpec(s: string, t: string, i: nat)
    ensures var r := FindFrom(s, t, i);
            r == -1 || (i <= r && OccursAt(s, t, r))
    ensures var r := FindFrom(s, t, i);
            forall k :: i <= k && (r == -1 || k < r) ==> !OccursAt(s, t, k)
    decreases |s| - i
  {
    if i + |t| <= |s| && s[i..i + |t|] != t {
      FindFromSpec(s, t, i + 1);
    }
  }

  /** Python's `s.find(t)`: the first index at which `t` occurs, or -1. */
  function Find(s: string, t: string): int
  {
    FindFrom(s, t, 0)
  }

  /** `find` returns an index where `t` occurs, and `t` occurs at no earlier index;
      -1 when it occurs nowhere. */
  lemma FindSpec(s: string, t: string)
    ensures Find(s, t) >= -1
    ensures Find(s, t) >= 0 ==> OccursAt(s, t, Find(s, t))
    ensures forall k :: 0 <= k && (Find(s, t) == -1 || k < Find(s, t)) ==> !OccursAt(s, t, k)
  {
    FindFromSpec(s, t, 0);
  }

  /** For a one-character needle, `find` is the first index of that character, and
      `c in s` (Python's membership test) holds exactly when it is not -1. */
  lemma FindChar(s: string, c: char)
    ensures Find(s, [c]) >= 0 <==> c in s
    ensures Find(s, [c]) >= 0 ==> Find(s, [c]) < |s| && s[Find(s, [c])] == c && c !in s[..Find(s, [c])]
  {
    FindSpec(s, [c]);
    var r := Find(s, [c]);
    forall k | 0 <= k < |s|
      ensures OccursAt(s, [c], k) <==> s[k] == c
    {
      assert s[k..k + 1] == [s[k]];
    }
    if c in s {
      var k :| 0 <= k < |s| && s[k] == c;
      assert OccursAt(s, [c], k);
    }
    if r >= 0 {
      forall k | 0 <= k < r ensures s[..r][k] != c {
        assert !OccursAt(s, [c], k);
      }
    }
  }

  /** A character's first index is unique. */
  lemma FirstIndexUnique(s: string, c: char, i: nat, j: nat)
    requires i < |s| && s[i] == c && c !in s[..i]
    requires j < |s| && s[j] == c && c !in s[..j]
    ensures i == j
  {
    assert forall k :: 0 <= k < i ==> s[..i][k] == s[k];
    assert forall k :: 0 <= k < j ==> s[..j][k] == s[k];
  }

  /** `find` of a character returns its first index. */
  lemma FindAt(s: string, c: char, i: nat)
    requires i < |s| && s[i] == c && c !in s[..i]
    ensures Find(s, [c]) == i
  {
    FindChar(s, c);
    FirstIndexUnique(s, c, i, Find(s, [c]));
  }

  // ---------------------------------------------------------------- count

  /** Python's `s.count(c)` for a one-character needle. */
  function CountChar(s: string, c: char): nat
  {
    if s == [] then 0
    else (if s[0] == c then 1 else 0) + CountChar(s[1..], c)
  }

  /** The count is the character's multiplicity in the string. */
  lemma {:induction false} CountIsMultiplicity(s: string, c: char)
    ensures CountChar(s, c) == multiset(s)[c]
  {
    if s != [] {
      CountIsMultiplicity(s[1..], c);
      assert s == [s[0]] + s[1..];
    }
  }

  /** The character occurs exactly when its count is positive. */
  lemma CountPositive(s: string, c: char)
    ensures CountChar(s, c) > 0 <==> c in s
  {
    CountIsMultiplicity(s, c);
  }

  // ---------------------------------------------------------------- split

  /** The separator-joined concatenation of `parts`, the inverse of `Split`. */
  function Join(parts: seq<string>, sep: char): string
  {
    if parts == [] then ""
    else if |parts| == 1 then parts[0]
    else parts[0] + [sep] + Join(parts[1..], sep)
  }

  /** Python's `s.split(sep)` with an explicit one-character separator: every
      separator ends a field, so empty fields are kept. */
  function Split(s: string, sep: char): (r: seq<string>)
    ensures |r| == CountChar(s, sep) + 1
    ensures forall k :: 0 <= k < |r| ==> sep !in r[k]
  {
    if s == [] then [""]
    else
      var rest := Split(s[1..], sep);
      if s[0] == sep then [""] + rest
      else
        var r := [[s[0]] + rest[0]] + rest[1..];
        assert forall k :: 1 <= k < |r| ==> r[k] == rest[k];
        r
  }

  /** Joining the fields of a split gives the string back. */
  lemma {:induction false} JoinSplit(s: string, sep: char)
    ensures Join(Split(s, sep), sep) == s
  {
    if s != [] {
      var rest := Split(s[1..], sep);
      JoinSplit(s[1..], sep);
      assert s == [s[0]] + s[1..];
      if s[0] == sep {
        JoinCons("", rest, sep);
      } else {
        JoinPrepend(s[0], rest, sep);
      }
    }
  }

  /** A string with two fields is the first, the separator and the second. */
  lemma SplitTwo(s: string, sep: char)
    requires |Split(s, sep)| == 2
    ensures s == Split(s, sep)[0] + [sep] + Split(s, sep)[1]
  {
    var p := Split(s, sep);
    JoinSplit(s, sep);
    assert p == [p[0]] + [p[1]];
    JoinCons(p[0], [p[1]], sep);
  }

  /** A string with three fields is the three fields with a separator between each two. */
  lemma SplitThree(s: string, sep: char)
    requires |Split(s, sep)| == 3
    ensures s == Split(s, sep)[0] + [sep] + Split(s, sep)[1] + [sep] + Split(s, sep)[2]
  {
    var p := Split(s, sep);
    JoinSplit(s, sep);
    assert p == [p[0]] + [p[1], p[2]] && [p[1], p[2]] == [p[1]] + [p[2]];
    JoinCons(p[0], [p[1], p[2]], sep);
    JoinCons(p[1], [p[2]], sep);
  }

  /** A character absent from a concatenation is absent from both parts. */
  lemma NotInParts(c: char, a: string, b: string)
    requires c !in a + b
    ensures c !in a && c !in b
  {
    forall i | 0 <= i < |a| ensures a[i] != c {
      assert (a + b)[i] == a[i];
    }
    forall i | 0 <= i < |b| ensures b[i] != c {
      assert (a + b)[|a| + i] == b[i];
    }
  }

  lemma JoinCons(p: string, rest: seq<string>, sep: char)
    requires |rest| >= 1
    ensures Join([p] + rest, sep) == p + [sep] + Join(rest, sep)
  {
    assert ([p] + rest)[1..] == rest;
  }

  lemma JoinPrepend(c: char, rest: seq<string>, sep: char)
    requires |rest| >= 1
    ensures Join([[c] + rest[0]] + rest[1..], sep) == [c] + Join(rest, sep)
  {
    var r := [[c] + rest[0]] + rest[1..];
    if |rest| > 1 {
      assert r[1..] == rest[1..];
      assert Join(r, sep) == ([c] + rest[0]) + [sep] + Join(rest[1..], sep);
      assert Join(rest, sep) == rest[0] + [sep] + Join(rest[1..], sep);
    }
  }

  /** Splitting a join of separator-free fields gives the fields back. */
  lemma {:induction false} SplitJoin(parts: seq<string>, sep: char)
    requires |parts| >= 1
    requires forall k :: 0 <= k < |parts| ==> sep !in parts[k]
    ensures Split(Join(parts, sep), sep) == parts
  {
    if |parts| == 1 {
      SplitNoSep(parts[0], sep);
    } else {
      SplitJoin(parts[1..], sep);
      SplitPrefix(parts[0], sep, Join(parts[1..], sep));
    }
  }

  lemma {:induction false} SplitNoSep(s: string, sep: char)
    requires sep !in s
    ensures Split(s, sep) == [s]
  {
    if s != [] {
      SplitNoSep(s[1..], sep);
      assert s == [s[0]] + s[1..];
    }
  }

  lemma {:induction false} SplitPrefix(p: string, sep: char, t: string)
    requires sep !in p
    ensures Split(p + [sep] + t, sep) == [p] + Split(t, sep)
  {
    if p == [] {
      assert p + [sep] + t == [sep] + t;
      assert ([sep] + t)[1..] == t;
    } else {
      SplitPrefix(p[1..], sep, t);
      assert (p + [sep] + t)[1..] == p[1..] + [sep] + t;
      assert [p[0]] + p[1..] == p;
    }
  }

  // ---------------------------------------------------------------- strip

  /** Python's `s.rstrip(chars)`: drops the longest trailing run of characters in `chars`. */
  function RStripChars(s: string, chars: set<char>): (r: string)
    ensures r <= s
    ensures forall k :: |r| <= k < |s| ==> s[k] in chars
    ensures r == [] || r[|r| - 1] !in chars
  {
    if s == [] || s[|s| - 1] !in chars then s
    else RStripChars(s[..|s| - 1], chars)
  }

  /** `rstrip` removes exactly a trailing run of `chars`: text that does not end in one of
      them, followed by any run of them, strips back to that text. */
  lemma {:induction false} RStripCharsSuffix(t: string, u: string, chars: set<char>)
    requires t == [] || t[|t| - 1] !in chars
    requires forall k :: 0 <= k < |u| ==> u[k] in chars
    ensures RStripChars(t + u, chars) == t
    decreases |u|
  {
    if u == [] {
      assert t + u == t;
    } else {
      var v := u[..|u| - 1];
      assert (t + u)[..|t + u| - 1] == t + v;
      RStripCharsSuffix(t, v, chars);
    }
  }

  /** Python's `s.lstrip(chars)`: drops the longest leading run of characters in `chars`. */
  function LStripChars(s: string, chars: set<char>): (r: string)
    ensures |r| <= |s| && r == s[|s| - |r|..]
    ensures forall k :: 0 <= k < |s| - |r| ==> s[k] in chars
    ensures r == [] || r[0] !in chars
  {
    if s == [] || s[0] !in chars then s
    else LStripChars(s[1..], chars)
  }

  /** The characters Python's `str.isspace` accepts. */
  const Whitespace: set<char> :=
    {' ', '\t', '\n', '\r', '\U{0B}', '\U{0C}', '\U{1C}', '\U{1D}', '\U{1E}', '\U{1F}',
     '\U{85}', '\U{A0}', '\U{1680}', '\U{2000}', '\U{2001}', '\U{2002}', '\U{2003}',
     '\U{2004}', '\U{2005}', '\U{2006}', '\U{2007}', '\U{2008}', '\U{2009}', '\U{200A}',
     '\U{2028}', '\U{2029}', '\U{202F}', '\U{205F}', '\U{3000}'}

  /** Python's `s.rstrip()`. */
  function RStrip(s: string): string
  {
    RStripChars(s, Whitespace)
  }

  /** Python's `s.strip()`. */
  function Strip(s: string): string
  {
    LStripChars(RStripChars(s, Whitespace), Whitespace)
  }

  /** Text that neither starts nor ends with whitespace is its own strip. */
  lemma StripUnchanged(s: string)
    requires s != [] && s[0] !in Whitespace && s[|s| - 1] !in Whitespace
    ensures Strip(s) == s
  {
  }
}
