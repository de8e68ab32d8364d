/**
 * The JavaScript string operations the front end relies on, on `seq<char>`:
 * `trim`, `startsWith`/`endsWith`, `includes`, `indexOf`, `split` on one
 * character, `substring`, the `\s` character class used by `replace`, and the
 * decimal rendering of a non-negative number inside a template literal.
 */
module Strings {

  /** The characters JavaScript calls white space or line terminators (ECMA-262,
      sections 12.2 and 12.3): what `trim` removes and what the regular-expression
      class `\s` matches. */
  predicate IsSpace(c: char)
  {
    || c == '\t' || c == '\n' || c == '\U{000B}' || c == '\U{000C}' || c == '\r'
    || c == ' ' || c == '\U{00A0}' || c == '\U{1680}'
    || ('\U{2000}' <= c <= '\U{200A}')
    || c == '\U{2028}' || c == '\U{2029}' || c == '\U{202F}' || c == '\U{205F}'
    || c == '\U{3000}' || c == '\U{FEFF}'
  }

  predicate AllSpace(s: string)
  {
    forall i :: 0 <= i < |s| ==> IsSpace(s[i])
  }

  predicate NoSpace(s: string)
  {
    forall i :: 0 <= i < |s| ==> !IsSpace(s[i])
  }

  /** `s.startsWith(prefix)` */
  predicate StartsWith(s: string, prefix: string)
  {
    |prefix| <= |s| && s[..|prefix|] == prefix
  }

  /** `s.endsWith(suffix)` */
  predicate EndsWith(s: string, suffix: string)
  {
    |suffix| <= |s| && s[|s| - |suffix|..] == suffix
  }

  /** `s.includes(sub)` */
  predicate Contains(s: string, sub: string)
  {
    exists i :: 0 <= i <= |s| - |sub| && StartsWith(s[i..], sub)
  }

  lemma ContainsInfix(before: string, sub: string, after: string)
    ensures Contains(before + sub + after, sub)
  {
    var s := before + sub + after;
    assert s[|before|..][..|sub|] == sub;
  }

  // ---------------------------------------------------------------- trim

  /** How many white-space characters `s` starts with. */
  function LeadingSpaces(s: string): (n: nat)
    ensures n <= |s|
    ensures forall i :: 0 <= i < n ==> IsSpace(s[i])
    ensures n < |s| ==> !IsSpace(s[n])
  {
    if s != [] && IsSpace(s[0]) then 1 + LeadingSpaces(s[1..]) else 0
  }

  /** How many white-space characters `s` ends with. */
  function TrailingSpaces(s: string): (n: nat)
    ensures n <= |s|
    ensures forall i :: |s| - n <= i < |s| ==> IsSpace(s[i])
    ensures n < |s| ==> !IsSpace(s[|s| - n - 1])
  {
    if s != [] && IsSpace(s[|s| - 1]) then 1 + TrailingSpaces(s[..|s| - 1]) else 0
  }

  /** `s.trim()`: the piece of `s` between its leading and its trailing white
      space; nothing when `s` is all white space. */
  function Trim(s: string): string
  {
    var k := LeadingSpaces(s);
    if k == |s| then [] else s[k..|s| - TrailingSpaces(s)]
  }

  /** Where the trimmed piece starts and ends: after the leading white space,
      and before the trailing white space unless the string is all white space. */
  lemma TrimBounds(s: string)
    ensures var k, j := LeadingSpaces(s), |s| - TrailingSpaces(s);
      LeadingSpaces(s) < |s| ==> k < j && Trim(s) == s[k..j]
  {
  }

  /** White space followed by a character that is not white space is exactly
      the leading white space. */
  lemma LeadingSpacesPadded(pad: string, t: string)
    requires AllSpace(pad)
    requires t == [] || !IsSpace(t[0])
    ensures LeadingSpaces(pad + t) == |pad|
  {
    var s := pad + t;
    assert forall i :: 0 <= i < |pad| ==> s[i] == pad[i];
    assert t != [] ==> s[|pad|] == t[0];
  }

  lemma TrailingSpacesPadded(t: string, pad: string)
    requires AllSpace(pad)
    requires t == [] || !IsSpace(t[|t| - 1])
    ensures TrailingSpaces(t + pad) == |pad|
  {
    var s := t + pad;
    assert forall i :: |t| <= i < |s| ==> s[i] == pad[i - |t|];
    assert t != [] ==> s[|t| - 1] == t[|t| - 1];
  }

  /** Trimming a string that is `t` surrounded by white space gives back `t`
      exactly when `t` itself neither starts nor ends with white space. */
  lemma TrimPadded(before: string, t: string, after: string)
    requires AllSpace(before) && AllSpace(after)
    requires t == [] || (!IsSpace(t[0]) && !IsSpace(t[|t| - 1]))
    ensures Trim(before + t + after) == t
  {
    var s := before + t + after;
    if t == [] {
      assert s == before + after + [];
      LeadingSpacesPadded(before + after, []);
    } else {
      assert s == before + (t + after) == (before + t) + after;
      LeadingSpacesPadded(before, t + after);
      TrailingSpacesPadded(before + t, after);
      assert s[|before|..|s| - |after|] == t;
    }
  }

  /** `trim` leaves no white space at either end. */
  lemma TrimEnds(s: string)
    ensures var r := Trim(s); r == [] || (!IsSpace(r[0]) && !IsSpace(r[|r| - 1]))
  {
    TrimBounds(s);
    var k, j := LeadingSpaces(s), |s| - TrailingSpaces(s);
    if k < |s| {
      var r := s[k..j];
      assert r[0] == s[k] && r[|r| - 1] == s[j - 1];
    }
  }

  /** `trim` keeps the piece of its input between the leading and the trailing
      white space, which it drops. */
  lemma TrimShape(s: string)
    ensures var r, k := Trim(s), LeadingSpaces(s);
      && k + |r| <= |s| && s[k..k + |r|] == r
      && AllSpace(s[..k]) && AllSpace(s[k + |r|..])
  {
    TrimBounds(s);
    SpacesAround(s);
    var k, j := LeadingSpaces(s), |s| - TrailingSpaces(s);
    if k < |s| {
      assert k + |Trim(s)| == j;
    }
  }

  lemma SpacesAround(s: string)
    ensures AllSpace(s[..LeadingSpaces(s)])
    ensures AllSpace(s[|s| - TrailingSpaces(s)..])
  {
  }

  lemma TrimIdempotent(s: string)
    ensures Trim(Trim(s)) == Trim(s)
  {
    TrimEnds(s);
    var r := Trim(s);
    assert [] + r + [] == r;
    TrimPadded([], r, []);
  }

  // ---------------------------------------------------------------- search and split

  /** `s.indexOf(x)`: the first position of `x` in `s`, or -1 when there is none. */
  function IndexOf<T(==)>(s: seq<T>, x: T): (i: int)
    ensures -1 <= i < |s|
    ensures i == -1 <==> x !in s
    ensures 0 <= i ==> s[i] == x && forall k :: 0 <= k < i ==> s[k] != x
  {
    if s == [] then -1
    else if s[0] == x then 0
    else
      var j := IndexOf(s[1..], x);
      if j < 0 then -1 else j + 1
  }

  lemma IndexOfAppend<T>(a: seq<T>, b: seq<T>, x: T)
    ensures x in a ==> IndexOf(a + b, x) == IndexOf(a, x)
    ensures x !in a && x in b ==> IndexOf(a + b, x) == |a| + IndexOf(b, x)
    ensures x !in a && x !in b ==> IndexOf(a + b, x) == -1
  {
    var i := IndexOf(a + b, x);
    if x in a {
      var j := IndexOf(a, x);
      assert (a + b)[j] == x;
    } else if x in b {
      var j := IndexOf(b, x);
      assert forall k :: 0 <= k < |a| ==> a[k] != x;
      assert (a + b)[|a| + j] == x;
    }
  }

  /** `s.split(sep)` for a separator of one character: the pieces between the
      separators, in order, empty pieces included. */
  function Split(s: string, sep: char): (parts: seq<string>)
    ensures |parts| >= 1
    decreases |s|
  {
    var i := IndexOf(s, sep);
    if i < 0 then [s] else [s[..i]] + Split(s[i + 1..], sep)
  }

  /** No piece of a split holds the separator, and the split has a single
      piece exactly when the string has no separator. */
  lemma {:induction false} SplitPieces(s: string, sep: char)
    ensures forall k :: 0 <= k < |Split(s, sep)| ==> sep !in Split(s, sep)[k]
    ensures |Split(s, sep)| == 1 <==> sep !in s
    decreases |s|
  {
    var i := IndexOf(s, sep);
    if i >= 0 {
      var rest := Split(s[i + 1..], sep);
      SplitPieces(s[i + 1..], sep);
      BeforeFirst(s, sep);
      assert Split(s, sep) == [s[..i]] + rest;
    }
  }

  /** Nothing before the first occurrence of `x` is `x`. */
  lemma BeforeFirst<T>(s: seq<T>, x: T)
    ensures x !in s[..if x in s then IndexOf(s, x) else |s|]
  {
  }

  /** `parts.join(sep)` */
  function Join(parts: seq<string>, sep: char): string
  {
    if parts == [] then ""
    else if |parts| == 1 then parts[0]
    else parts[0] + [sep] + Join(parts[1..], sep)
  }

  /** Splitting at a separator splits the two sides independently. */
  lemma {:induction false} SplitAppend(a: string, b: string, sep: char)
    ensures Split(a + [sep] + b, sep) == Split(a, sep) + Split(b, sep)
    decreases |a|
  {
    var i := IndexOf(a, sep);
    if i >= 0 {
      var head, tail := [a[..i]], a[i + 1..];
      calc {
        Split(a + [sep] + b, sep);
        { SplitAppendAtFirst(a, b, sep); }
        head + Split(tail + [sep] + b, sep);
        { SplitAppend(tail, b, sep); }
        head + (Split(tail, sep) + Split(b, sep));
        { AppendAssociative(head, Split(tail, sep), Split(b, sep)); }
        head + Split(tail, sep) + Split(b, sep);
        { SplitAppendAtFirst(a, b, sep); }
        Split(a, sep) + Split(b, sep);
      }
    } else {
      SplitAppendAtJoint(a, b, sep);
    }
  }

  lemma AppendAssociative<T>(x: seq<T>, y: seq<T>, z: seq<T>)
    ensures x + (y + z) == x + y + z
  {
  }

  lemma SplitAppendAtFirst(a: string, b: string, sep: char)
    requires IndexOf(a, sep) >= 0
    ensures var i := IndexOf(a, sep);
      && Split(a, sep) == [a[..i]] + Split(a[i + 1..], sep)
      && Split(a + [sep] + b, sep) == [a[..i]] + Split(a[i + 1..] + [sep] + b, sep)
  {
    SplitAtFirst(a, sep);
    FirstSeparatorKept(a, b, sep);
    SplitAtFirst(a + [sep] + b, sep);
    PiecesAroundFirst(a, b, sep);
  }

  lemma PiecesAroundFirst(a: string, b: string, sep: char)
    requires 0 <= IndexOf(a, sep)
    ensures var i, s := IndexOf(a, sep), a + [sep] + b;
      s[..i] == a[..i] && s[i + 1..] == a[i + 1..] + [sep] + b
  {
    var i := IndexOf(a, sep);
    SlicesAround(a, [sep] + b, i);
    AppendAssociative(a, [sep], b);
    AppendAssociative(a[i + 1..], [sep], b);
  }

  lemma SplitAtFirst(s: string, sep: char)
    requires IndexOf(s, sep) >= 0
    ensures var i := IndexOf(s, sep); Split(s, sep) == [s[..i]] + Split(s[i + 1..], sep)
  {
  }

  lemma FirstSeparatorKept(a: string, b: string, sep: char)
    requires IndexOf(a, sep) >= 0
    ensures IndexOf(a + [sep] + b, sep) == IndexOf(a, sep)
  {
    AppendAssociative(a, [sep], b);
    IndexOfAppend(a, [sep] + b, sep);
  }

  lemma SlicesAround<T>(a: seq<T>, c: seq<T>, i: nat)
    requires i < |a|
    ensures (a + c)[..i] == a[..i]
    ensures (a + c)[i + 1..] == a[i + 1..] + c
  {
  }

  lemma SplitAppendAtJoint(a: string, b: string, sep: char)
    requires IndexOf(a, sep) < 0
    ensures Split(a, sep) == [a]
    ensures Split(a + [sep] + b, sep) == [a] + Split(b, sep)
  {
    var s := a + [sep] + b;
    assert s == a + ([sep] + b);
    IndexOfAppend(a, [sep] + b, sep);
    assert IndexOf([sep] + b, sep) == 0;
    assert s[..|a|] == a;
    assert s[|a| + 1..] == b;
  }

  lemma {:induction false} SplitJoin(parts: seq<string>, sep: char)
    requires |parts| >= 1
    requires forall k :: 0 <= k < |parts| ==> sep !in parts[k]
    ensures Split(Join(parts, sep), sep) == parts
  {
    var head, rest := parts[0], parts[1..];
    assert IndexOf(head, sep) == -1;
    if |parts| > 1 {
      calc {
        Split(Join(parts, sep), sep);
        Split(head + [sep] + Join(rest, sep), sep);
        { SplitAppend(head, Join(rest, sep), sep); }
        Split(head, sep) + Split(Join(rest, sep), sep);
        { SplitJoin(rest, sep); }
        [head] + rest;
      }
    }
  }

  lemma {:induction false} JoinSplit(s: string, sep: char)
    ensures Join(Split(s, sep), sep) == s
    decreases |s|
  {
    var i := IndexOf(s, sep);
    if i >= 0 {
      var rest := Split(s[i + 1..], sep);
      assert Split(s, sep) == [s[..i]] + rest;
      JoinCons(s[..i], rest, sep);
      JoinSplit(s[i + 1..], sep);
      SplitAround(s, i);
    } else {
      assert Split(s, sep) == [s];
    }
  }

  lemma SplitAround(s: string, i: nat)
    requires i < |s|
    ensures s == s[..i] + [s[i]] + s[i + 1..]
  {
  }

  lemma JoinCons(head: string, rest: seq<string>, sep: char)
    requires |rest| >= 1
    ensures Join([head] + rest, sep) == head + [sep] + Join(rest, sep)
  {
    assert ([head] + rest)[1..] == rest;
  }

  // ---------------------------------------------------------------- substring and replace

  function Clamp(n: int, len: nat): (r: nat)
    ensures r <= len
  {
    if n < 0 then 0 else if n > len then len else n
  }

  /** `s.substring(start, end)`: both arguments are clamped into the string and
      swapped when the first is the larger. */
  function Substring(s: string, start: int, end: int): (r: string)
    ensures |r| <= |s|
    ensures 0 <= start <= end <= |s| ==> r == s[start..end]
    ensures 0 <= end <= start <= |s| ==> r == s[end..start]
    ensures start <= 0 && |s| <= end ==> r == s
  {
    var a, b := Clamp(start, |s|), Clamp(end, |s|);
    if a <= b then s[a..b] else s[b..a]
  }

  /** The order of the two arguments does not matter. */
  lemma SubstringSwap(s: string, start: int, end: int)
    ensures Substring(s, start, end) == Substring(s, end, start)
  {
  }

  /** Indices outside the string act as its nearest end. */
  lemma SubstringClamps(s: string, start: int, end: int)
    requires start < 0 || end > |s|
    ensures Substring(s, start, end) == Substring(s, if start < 0 then 0 else start, if end > |s| then |s| else end)
  {
  }

  /** `s.replace(/\s/g, '')` */
  function RemoveSpaces(s: string): (r: string)
    ensures NoSpace(r)
    ensures |r| <= |s|
  {
    if s == [] then []
    else (if IsSpace(s[0]) then [] else [s[0]]) + RemoveSpaces(s[1..])
  }

  lemma {:induction false} RemoveSpacesAppend(a: string, b: string)
    ensures RemoveSpaces(a + b) == RemoveSpaces(a) + RemoveSpaces(b)
  {
    if a != [] {
      var head := if IsSpace(a[0]) then [] else [a[0]];
      assert (a + b)[0] == a[0];
      assert (a + b)[1..] == a[1..] + b;
      assert RemoveSpaces(a + b) == head + RemoveSpaces(a[1..] + b);
      RemoveSpacesAppend(a[1..], b);
    } else {
      assert a + b == b;
    }
  }

  lemma {:induction false} RemoveSpacesOfSpace(s: string)
    requires AllSpace(s)
    ensures RemoveSpaces(s) == []
  {
    if s != [] { RemoveSpacesOfSpace(s[1..]); }
  }

  lemma {:induction false} RemoveSpacesOfNoSpace(s: string)
    requires NoSpace(s)
    ensures RemoveSpaces(s) == s
  {
    if s != [] { RemoveSpacesOfNoSpace(s[1..]); }
  }

  /** Removing all white space makes an earlier `trim` redundant. */
  lemma RemoveSpacesTrim(s: string)
    ensures RemoveSpaces(Trim(s)) == RemoveSpaces(s)
  {
    TrimShape(s);
    var r, k := Trim(s), LeadingSpaces(s);
    var before, after := s[..k], s[k + |r|..];
    ThreePieces(s, k, k + |r|);
    calc {
      RemoveSpaces(s);
      RemoveSpaces(before + r + after);
      { RemoveSpacesAppend(before + r, after); }
      RemoveSpaces(before + r) + RemoveSpaces(after);
      { RemoveSpacesAppend(before, r); RemoveSpacesOfSpace(before); RemoveSpacesOfSpace(after); }
      [] + RemoveSpaces(r) + [];
      RemoveSpaces(r);
    }
  }

  lemma ThreePieces<T>(s: seq<T>, i: nat, j: nat)
    requires i <= j <= |s|
    ensures s == s[..i] + s[i..j] + s[j..]
  {
  }

  /** `s.replace(/\s+/g, sep)`: every maximal run of white space becomes one copy of `sep`. */
  function ReplaceSpaceRuns(s: string, sep: string): (r: string)
    decreases |s|
  {
    if s == [] then []
    else if IsSpace(s[0]) then
      var rest := s[LeadingSpaces(s)..];
      sep + ReplaceSpaceRuns(rest, sep)
    else [s[0]] + ReplaceSpaceRuns(s[1..], sep)
  }

  lemma {:induction false} ReplaceSpaceRunsNoSpace(s: string, sep: string)
    requires NoSpace(sep)
    ensures NoSpace(ReplaceSpaceRuns(s, sep))
    decreases |s|
  {
    if s != [] {
      if IsSpace(s[0]) {
        var rest := s[LeadingSpaces(s)..];
        ReplaceSpaceRunsNoSpace(rest, sep);
      } else {
        ReplaceSpaceRunsNoSpace(s[1..], sep);
      }
    }
  }

  lemma {:induction false} ReplaceSpaceRunsIdentity(s: string, sep: string)
    requires NoSpace(s)
    ensures ReplaceSpaceRuns(s, sep) == s
  {
    if s != [] { ReplaceSpaceRunsIdentity(s[1..], sep); }
  }

  lemma {:induction false} ReplaceSpaceRunsShorter(s: string, sep: string)
    requires |sep| <= 1
    ensures |ReplaceSpaceRuns(s, sep)| <= |s|
    decreases |s|
  {
    if s != [] {
      if IsSpace(s[0]) {
        var rest := s[LeadingSpaces(s)..];
        ReplaceSpaceRunsShorter(rest, sep);
      } else {
        ReplaceSpaceRunsShorter(s[1..], sep);
      }
    }
  }

  /** A run of white space after a piece without white space, and before a
      character that is not white space, becomes exactly one `sep`. */
  lemma {:induction false} ReplaceSpaceRunsRun(a: string, run: string, b: string, sep: string)
    requires NoSpace(a) && run != [] && AllSpace(run)
    requires b == [] || !IsSpace(b[0])
    ensures ReplaceSpaceRuns(a + run + b, sep) == a + sep + ReplaceSpaceRuns(b, sep)
    decreases |a|
  {
    var s := a + run + b;
    if a == [] {
      assert s == run + b;
      LeadingSpacesPadded(run, b);
      assert s[|run|..] == b;
    } else {
      assert s[0] == a[0];
      assert s[1..] == a[1..] + run + b;
      ReplaceSpaceRunsRun(a[1..], run, b, sep);
      AppendAssociative([a[0]], a[1..], sep);
    }
  }

  /** With an empty replacement, replacing the runs removes all white space. */
  lemma {:induction false} ReplaceSpaceRunsEmpty(s: string)
    ensures ReplaceSpaceRuns(s, "") == RemoveSpaces(s)
    decreases |s|
  {
    if s != [] {
      if IsSpace(s[0]) {
        var k := LeadingSpaces(s);
        ReplaceSpaceRunsEmpty(s[k..]);
        assert s == s[..k] + s[k..];
        RemoveSpacesAppend(s[..k], s[k..]);
        RemoveSpacesOfSpace(s[..k]);
      } else {
        ReplaceSpaceRunsEmpty(s[1..]);
      }
    }
  }

  // ---------------------------------------------------------------- numbers

  function Digit(d: nat): (c: char)
    requires d < 10
    ensures '0' <= c <= '9'
  {
    ('0' as int + d) as char
  }

  predicate IsDecimal(s: string)
  {
    |s| >= 1 && forall i :: 0 <= i < |s| ==> '0' <= s[i] <= '9'
  }

  /** The decimal text of a non-negative integer, as a template literal renders it. */
  function NatToString(n: nat): (r: string)
    ensures IsDecimal(r)
  {
    if n < 10 then [Digit(n)] else NatToString(n / 10) + [Digit(n % 10)]
  }

  function ParseDecimal(s: string): nat
    requires forall i :: 0 <= i < |s| ==> '0' <= s[i] <= '9'
  {
    if s == [] then 0
    else ParseDecimal(s[..|s| - 1]) * 10 + (s[|s| - 1] as int - '0' as int)
  }

  lemma {:induction false} ParseNatToString(n: nat)
    ensures ParseDecimal(NatToString(n)) == n
  {
    var r := NatToString(n);
    if n >= 10 {
      ParseNatToString(n / 10);
      assert r[..|r| - 1] == NatToString(n / 10);
    } else {
      assert r[..0] == [];
    }
  }
}
