/** Character classes and the handful of Python `str` operations the
    synchronisation scripts are built from: strip, split, join, `in`,
    replace, int() of a digit run and str() of a number. */
module TextOps {
  import opened Wrappers

  /** Python's `str.isspace`, which is also what `\s` matches in a `re`
      pattern over `str`. */
  predicate IsSpace(c: char) {
    ('\t' <= c <= '\r') || ('\U{1C}' <= c <= ' ') || c == '\U{85}' || c == '\U{A0}'
    || c == '\U{1680}' || ('\U{2000}' <= c <= '\U{200A}') || c == '\U{2028}'
    || c == '\U{2029}' || c == '\U{202F}' || c == '\U{205F}' || c == '\U{3000}'
  }

  predicate IsDigit(c: char) {
    '0' <= c <= '9'
  }

  /** The `\w` class, restricted to ASCII letters, digits and underscore. */
  predicate IsWordChar(c: char) {
    ('a' <= c <= 'z') || ('A' <= c <= 'Z') || IsDigit(c) || c == '_'
  }

  predicate AllDigits(s: string) {
    forall i :: 0 <= i < |s| ==> IsDigit(s[i])
  }

  predicate NoSpace(s: string) {
    forall i :: 0 <= i < |s| ==> !IsSpace(s[i])
  }

  predicate StartsWith(s: string, p: string) {
    |p| <= |s| && s[..|p|] == p
  }

  /** Python's `s.endswith(p)`. */
  predicate EndsWith(s: string, p: string) {
    |p| <= |s| && s[|s| - |p|..] == p
  }

  /** `p` occurs in `s` starting at index `i`. */
  predicate OccursAt(s: string, p: string, i: nat) {
    i + |p| <= |s| && s[i..i + |p|] == p
  }

  /** Python's `p in s`. */
  predicate Contains(s: string, p: string) {
    exists i :: 0 <= i <= |s| - |p| && OccursAt(s, p, i)
  }

  /** The first index at or after `i` where `p` occurs, the leftmost match of
      a literal pattern. */
  function FindFrom(s: string, p: string, i: nat): (r: Option<nat>)
    decreases |s| - i
    ensures r.Some? ==> i <= r.value && OccursAt(s, p, r.value)
    ensures r.Some? ==> forall k :: i <= k < r.value ==> !OccursAt(s, p, k)
    ensures r.None? ==> forall k :: i <= k ==> !OccursAt(s, p, k)
  {
    if i + |p| > |s| then None
    else if s[i..i + |p|] == p then Some(i)
    else FindFrom(s, p, i + 1)
  }

  /** A slice that lies before the first occurrence of a pattern holds no
      occurrence of it. */
  lemma NoOccurrenceInSlice(s: string, p: string, h: nat, e: nat)
    requires |p| > 0 && h <= e <= |s|
    requires forall k :: h <= k < e ==> !OccursAt(s, p, k)
    ensures !Contains(s[h..e], p)
  {
    var t := s[h..e];
    forall i | 0 <= i <= |t| - |p|
      ensures !OccursAt(t, p, i)
    {
      var x, y := t[i..i + |p|], s[h + i..h + i + |p|];
      assert forall j | 0 <= j < |p| :: x[j] == y[j];
      assert x == y;
      assert !OccursAt(s, p, h + i);
    }
  }

  /** A search that starts before the first occurrence finds it. */
  lemma {:induction false} FindFromAt(s: string, p: string, i: nat, k: nat)
    requires i <= k && OccursAt(s, p, k)
    requires forall j :: i <= j < k ==> !OccursAt(s, p, j)
    ensures FindFrom(s, p, i) == Some(k)
    decreases k - i
  {
    if i < k {
      FindFromAt(s, p, i + 1, k);
    }
  }

  /** A pattern cannot occur where its first character is absent. */
  lemma NotOccursAtFirstChar(s: string, p: string, k: nat)
    requires |p| > 0 && k < |s| && s[k] != p[0]
    ensures !OccursAt(s, p, k)
  {
    if k + |p| <= |s| {
      assert s[k..k + |p|][0] == s[k];
    }
  }

  /** A literal search finds the first occurrence when nothing before it
      starts with the pattern's first character. */
  lemma FindFromLead(x: string, p: string, rest: string, s: string)
    requires |p| > 0 && p[0] !in x
    requires s == x + p + rest
    ensures FindFrom(s, p, 0) == Some(|x|)
  {
    assert s[|x|..|x| + |p|] == p;
    forall j | 0 <= j < |x|
      ensures !OccursAt(s, p, j)
    {
      assert s[j] == x[j];
      NotOccursAtFirstChar(s, p, j);
    }
    FindFromAt(s, p, 0, |x|);
  }

  /** The text before the first occurrence of `p` and the text after it:
      Python's `s.partition(p)` when `p` occurs. */
  function Partition(s: string, p: string): (r: Option<(string, string)>)
    ensures r.Some? ==> s == r.value.0 + p + r.value.1
    ensures r.Some? ==> forall k :: 0 <= k < |r.value.0| ==> !OccursAt(s, p, k)
    ensures r.None? <==> !Contains(s, p)
  {
    match FindFrom(s, p, 0)
    case None => None
    case Some(e) => Some((s[..e], s[e + |p|..]))
  }

  lemma PartitionLead(x: string, p: string, rest: string, s: string)
    requires |p| > 0 && p[0] !in x
    requires s == x + p + rest
    ensures Partition(s, p) == Some((x, rest))
  {
    FindFromLead(x, p, rest, s);
    assert s[..|x|] == x && s[|x| + |p|..] == rest;
  }

  /** The index of the first character at or after `i` that is not white
      space (the end of a greedy `\s*`). */
  function SkipSpaces(s: string, i: nat): (r: nat)
    requires i <= |s|
    decreases |s| - i
    ensures i <= r <= |s|
    ensures forall k :: i <= k < r ==> IsSpace(s[k])
    ensures r < |s| ==> !IsSpace(s[r])
  {
    if i < |s| && IsSpace(s[i]) then SkipSpaces(s, i + 1) else i
  }

  /** The end of a greedy `\S+` (or `[^\s]+`) run that starts at `i`. */
  function SkipNonSpaces(s: string, i: nat): (r: nat)
    requires i <= |s|
    decreases |s| - i
    ensures i <= r <= |s|
    ensures forall k :: i <= k < r ==> !IsSpace(s[k])
    ensures r < |s| ==> IsSpace(s[r])
  {
    if i < |s| && !IsSpace(s[i]) then SkipNonSpaces(s, i + 1) else i
  }

  /** The end of a greedy `\d+` run that starts at `i`. */
  function SkipDigits(s: string, i: nat): (r: nat)
    requires i <= |s|
    decreases |s| - i
    ensures i <= r <= |s|
    ensures forall k :: i <= k < r ==> IsDigit(s[k])
    ensures r < |s| ==> !IsDigit(s[r])
  {
    if i < |s| && IsDigit(s[i]) then SkipDigits(s, i + 1) else i
  }

  /** The start of the trailing white space of `s[lo..j]`. */
  function TrimEnd(s: string, j: nat, lo: nat): (r: nat)
    requires lo <= j <= |s|
    decreases j
    ensures lo <= r <= j
    ensures forall k :: r <= k < j ==> IsSpace(s[k])
    ensures r > lo ==> !IsSpace(s[r - 1])
  {
    if j > lo && IsSpace(s[j - 1]) then TrimEnd(s, j - 1, lo) else j
  }

  /** Python's `str.strip()`. */
  function Strip(s: string): (r: string)
    ensures |r| <= |s|
  {
    var a := SkipSpaces(s, 0);
    s[a..TrimEnd(s, |s|, a)]
  }

  /** A greedy `\s*` from `i` stops at the first character that is not
      white space. */
  lemma {:induction false} SkipSpacesTo(s: string, i: nat, j: nat)
    requires i <= j <= |s|
    requires forall k :: i <= k < j ==> IsSpace(s[k])
    requires j == |s| || !IsSpace(s[j])
    ensures SkipSpaces(s, i) == j
    decreases j - i
  {
    if i < j {
      SkipSpacesTo(s, i + 1, j);
    }
  }

  /** A greedy `\S+` from `i` stops at the first white-space character. */
  lemma {:induction false} SkipNonSpacesTo(s: string, i: nat, j: nat)
    requires i <= j <= |s|
    requires forall k :: i <= k < j ==> !IsSpace(s[k])
    requires j == |s| || IsSpace(s[j])
    ensures SkipNonSpaces(s, i) == j
    decreases j - i
  {
    if i < j {
      SkipNonSpacesTo(s, i + 1, j);
    }
  }

  /** A greedy `\d+` from `i` stops at the first character that is not a
      digit. */
  lemma {:induction false} SkipDigitsTo(s: string, i: nat, j: nat)
    requires i <= j <= |s|
    requires forall k :: i <= k < j ==> IsDigit(s[k])
    requires j == |s| || !IsDigit(s[j])
    ensures SkipDigits(s, i) == j
    decreases j - i
  {
    if i < j {
      SkipDigitsTo(s, i + 1, j);
    }
  }

  lemma {:induction false} TrimEndTo(s: string, j: nat, lo: nat, m: nat)
    requires lo <= m <= j <= |s|
    requires forall k :: m <= k < j ==> IsSpace(s[k])
    requires m == lo || !IsSpace(s[m - 1])
    ensures TrimEnd(s, j, lo) == m
    decreases j - m
  {
    if m < j {
      TrimEndTo(s, j - 1, lo, m);
    }
  }

  /** `strip()` of white space, a middle without white space at either end,
      and white space again is that middle. */
  lemma StripFrame(u: string, m: string, w: string)
    requires forall k :: 0 <= k < |u| ==> IsSpace(u[k])
    requires forall k :: 0 <= k < |w| ==> IsSpace(w[k])
    requires m == [] || (!IsSpace(m[0]) && !IsSpace(m[|m| - 1]))
    ensures Strip(u + m + w) == m
  {
    var s := u + m + w;
    if m == [] {
      assert forall k :: 0 <= k < |s| ==> IsSpace(s[k]) by {
        forall k | 0 <= k < |s|
          ensures IsSpace(s[k])
        {
          if k < |u| { assert s[k] == u[k]; } else { assert s[k] == w[k - |u|]; }
        }
      }
      SkipSpacesTo(s, 0, |s|);
    } else {
      SkipSpacesTo(s, 0, |u|);
      assert s[|u| + |m| - 1] == m[|m| - 1];
      TrimEndTo(s, |s|, |u|, |u| + |m|);
      assert s[|u|..|u| + |m|] == m;
    }
  }

  /** Stripping a text that neither starts nor ends with white space leaves
      it as it is. */
  lemma StripKeeps(s: string)
    requires s == [] || (!IsSpace(s[0]) && !IsSpace(s[|s| - 1]))
    ensures Strip(s) == s
  {
    StripFrame([], s, []);
    assert [] + s + [] == s;
  }

  /** The result of a strip neither starts nor ends with white space, and it
      is empty exactly when the text is all white space. */
  lemma StripShape(s: string)
    ensures Strip(s) != [] ==> !IsSpace(Strip(s)[0]) && !IsSpace(Strip(s)[|Strip(s)| - 1])
    ensures Strip(s) == [] <==> forall k :: 0 <= k < |s| ==> IsSpace(s[k])
  {
  }

  /** Stripping white space followed by a text that starts without white
      space keeps that text's first `k` characters when the k-th is not
      white space: the strip is a prefix of the text at least that long. */
  lemma StripLeadKeeps(u: string, m: string, k: nat) returns (j: nat)
    requires forall i :: 0 <= i < |u| ==> IsSpace(u[i])
    requires 0 < k <= |m| && !IsSpace(m[0]) && !IsSpace(m[k - 1])
    ensures k <= j <= |m| && Strip(u + m) == m[..j]
  {
    var s := u + m;
    assert forall i :: 0 <= i < |u| ==> s[i] == u[i];
    assert s[|u|] == m[0];
    SkipSpacesTo(s, 0, |u|);
    var e := TrimEnd(s, |s|, |u|);
    assert s[|u| + k - 1] == m[k - 1];
    j := e - |u|;
    assert s[|u|..e] == m[..j];
  }

  /** White space added at the end does not change a strip. */
  lemma StripSnocSpace(s: string, c: char)
    requires IsSpace(c)
    ensures Strip(s + [c]) == Strip(s)
  {
    var x := s + [c];
    var a := SkipSpaces(s, 0);
    assert forall k :: 0 <= k < |s| ==> x[k] == s[k];
    if a == |s| {
      SkipSpacesTo(x, 0, |x|);
    } else {
      SkipSpacesTo(x, 0, a);
      var b := TrimEnd(s, |s|, a);
      TrimEndTo(x, |x|, a, b);
      assert x[a..b] == s[a..b];
    }
  }

  /** Python's `s.split(sep)` for a one-character separator: always at least
      one part, and no part contains the separator. */
  function Split(s: string, sep: char): (r: seq<string>)
    ensures |r| >= 1
    ensures forall i :: 0 <= i < |r| ==> sep !in r[i]
  {
    if s == [] then [""]
    else
      var rest := Split(s[1..], sep);
      if s[0] == sep then [""] + rest else [[s[0]] + rest[0]] + rest[1..]
  }

  /** Concatenation regrouped; stated once so that proofs about long
      concatenations need not rediscover it. */
  lemma AppendAssoc<T>(a: seq<T>, b: seq<T>, c: seq<T>)
    ensures a + (b + c) == (a + b) + c
  {
  }

  /** Python's `sep.join(parts)`. */
  function Join(parts: seq<string>, sep: string): string {
    if |parts| == 0 then ""
    else if |parts| == 1 then parts[0]
    else parts[0] + sep + Join(parts[1..], sep)
  }

  /** Splitting on a separator and joining with it gives the text back. */
  lemma {:induction false} SplitJoin(s: string, sep: char)
    ensures Join(Split(s, sep), [sep]) == s
  {
    if s != [] {
      var rest := Split(s[1..], sep);
      SplitJoin(s[1..], sep);
      if s[0] == sep {
        assert Split(s, sep) == [""] + rest;
        assert Join([""] + rest, [sep]) == "" + [sep] + Join(rest, [sep]);
      } else {
        var r := Split(s, sep);
        assert r == [[s[0]] + rest[0]] + rest[1..];
        if |rest| == 1 {
          assert Join(r, [sep]) == [s[0]] + rest[0];
        } else {
          assert r[1..] == rest[1..];
          assert Join(rest, [sep]) == rest[0] + [sep] + Join(rest[1..], [sep]);
        }
      }
    }
  }

  /** A text without the separator is a single part. */
  lemma {:induction false} SplitPlain(a: string, sep: char)
    requires sep !in a
    ensures Split(a, sep) == [a]
  {
    if a != [] {
      SplitPlain(a[1..], sep);
      assert [a[0]] + a[1..] == a;
    }
  }

  /** A first part without the separator, then the separator, splits off
      that part. */
  lemma {:induction false} SplitLead(a: string, b: string, sep: char)
    requires sep !in a
    ensures Split(a + [sep] + b, sep) == [a] + Split(b, sep)
    decreases |a|
  {
    var s := a + [sep] + b;
    if a == [] {
      assert s[1..] == b;
    } else {
      assert s[1..] == a[1..] + [sep] + b;
      SplitLead(a[1..], b, sep);
      assert [a[0]] + a[1..] == a;
    }
  }

  /** Splitting a join of parts that hold no separator gives the parts
      back. */
  lemma {:induction false} JoinSplit(parts: seq<string>, sep: char)
    requires parts != []
    requires forall i :: 0 <= i < |parts| ==> sep !in parts[i]
    ensures Split(Join(parts, [sep]), sep) == parts
  {
    if |parts| == 1 {
      SplitPlain(parts[0], sep);
    } else {
      JoinSplit(parts[1..], sep);
      SplitLead(parts[0], Join(parts[1..], [sep]), sep);
      assert [parts[0]] + parts[1..] == parts;
    }
  }

  /** Python's `s.split()` with no argument: the maximal runs of non-space
      characters, in order. */
  function Words(s: string): seq<string>
    decreases |s|
  {
    var t := s[SkipSpaces(s, 0)..];
    if t == [] then []
    else
      var e := SkipNonSpaces(t, 0);
      [t[..e]] + Words(t[e..])
  }

  /** The words are non-empty runs without white space, and there is none
      exactly when the text is all white space. */
  lemma {:induction false} WordsShape(s: string)
    ensures forall w :: w in Words(s) ==> w != [] && NoSpace(w)
    ensures Words(s) == [] <==> forall k :: 0 <= k < |s| ==> IsSpace(s[k])
    decreases |s|
  {
    var a := SkipSpaces(s, 0);
    var t := s[a..];
    if t != [] {
      assert t[0] == s[a];
      var e := SkipNonSpaces(t, 0);
      WordsShape(t[e..]);
      var w := t[..e];
      assert forall k :: 0 <= k < |w| ==> w[k] == t[k];
    }
  }

  /** A word followed by a space and a text that does not start with
      white space is split off as the first word. */
  lemma WordsCons(w: string, rest: string)
    requires w != [] && NoSpace(w)
    requires rest == [] || !IsSpace(rest[0])
    ensures Words(w + " " + rest) == [w] + Words(rest)
  {
    assert w + " " + rest == w + (" " + rest);
    WordsHead(w, " " + rest);
    WordsSpaceFirst(rest);
  }

  /** A word that runs up to white space or the end is the first word. */
  lemma WordsHead(w: string, u: string)
    requires w != [] && NoSpace(w)
    requires u == [] || IsSpace(u[0])
    ensures Words(w + u) == [w] + Words(u)
  {
    var s := w + u;
    SkipSpacesTo(s, 0, 0);
    assert s[0..] == s;
    assert forall k :: 0 <= k < |w| ==> s[k] == w[k];
    SkipNonSpacesTo(s, 0, |w|);
    assert s[..|w|] == w;
    assert s[|w|..] == u;
  }

  /** One space in front of a text that starts with a word is skipped. */
  lemma WordsSpaceFirst(rest: string)
    requires rest == [] || !IsSpace(rest[0])
    ensures Words(" " + rest) == Words(rest)
  {
    var u := " " + rest;
    SkipSpacesTo(u, 0, 1);
    assert u[1..] == rest;
    SkipSpacesTo(rest, 0, 0);
    assert rest[0..] == rest;
  }

  /** A single word splits into itself. */
  lemma WordsSingle(w: string)
    requires w != [] && NoSpace(w)
    ensures Words(w) == [w]
  {
    SkipSpacesTo(w, 0, 0);
    assert w[0..] == w;
    SkipNonSpacesTo(w, 0, |w|);
    assert w[..|w|] == w;
  }

  /** Words joined by single spaces split back into the same words. */
  lemma {:induction false} WordsJoin(ws: seq<string>)
    requires forall i :: 0 <= i < |ws| ==> ws[i] != [] && NoSpace(ws[i])
    ensures Words(Join(ws, " ")) == ws
  {
    if |ws| == 1 {
      WordsSingle(ws[0]);
    } else if |ws| > 1 {
      WordsJoin(ws[1..]);
      JoinFirst(ws[1..], " ");
      WordsCons(ws[0], Join(ws[1..], " "));
    }
  }

  /** A join ends with the last character of its last part. */
  lemma {:induction false} JoinLast(parts: seq<string>, sep: string)
    requires parts != [] && parts[|parts| - 1] != []
    ensures Join(parts, sep) != []
    ensures Join(parts, sep)[|Join(parts, sep)| - 1] == parts[|parts| - 1][|parts[|parts| - 1]| - 1]
  {
    if |parts| > 1 {
      JoinLast(parts[1..], sep);
    }
  }

  /** Words joined by single spaces hold no white space other than those
      spaces. */
  lemma {:induction false} JoinSpacesOnly(ws: seq<string>)
    requires forall i :: 0 <= i < |ws| ==> NoSpace(ws[i])
    ensures forall k :: 0 <= k < |Join(ws, " ")| ==> Join(ws, " ")[k] == ' ' || !IsSpace(Join(ws, " ")[k])
  {
    if |ws| > 1 {
      JoinSpacesOnly(ws[1..]);
      var j := Join(ws[1..], " ");
      var s := ws[0] + " " + j;
      assert Join(ws, " ") == s;
      forall k | 0 <= k < |s|
        ensures s[k] == ' ' || !IsSpace(s[k])
      {
        if k < |ws[0]| {
          assert s[k] == ws[0][k];
        } else if k > |ws[0]| {
          assert s[k] == j[k - |ws[0]| - 1];
        }
      }
    }
  }

  /** A join starts with the first character of its first part. */
  lemma JoinFirst(parts: seq<string>, sep: string)
    requires parts != [] && parts[0] != []
    ensures Join(parts, sep) != [] && Join(parts, sep)[0] == parts[0][0]
  {
  }

  /** Python's `s.replace(p, q)`: the leftmost non-overlapping occurrences
      of `p`, scanned from the left, each become `q`. */
  function ReplaceAll(s: string, p: string, q: string): string
    requires |p| > 0
    decreases |s|
  {
    if |s| < |p| then s
    else if s[..|p|] == p then q + ReplaceAll(s[|p|..], p, q)
    else [s[0]] + ReplaceAll(s[1..], p, q)
  }

  /** A replacement distributes over a concatenation whose left part does
      not contain the pattern's first character. */
  lemma {:induction false} ReplaceAllConcat(a: string, b: string, p: string, q: string)
    requires |p| > 0 && p[0] !in a
    ensures ReplaceAll(a + b, p, q) == a + ReplaceAll(b, p, q)
  {
    if a != [] {
      var s := a + b;
      assert a[0] in a;
      assert s[1..] == a[1..] + b;
      ReplaceAllConcat(a[1..], b, p, q);
      if |s| >= |p| {
        assert s[..|p|][0] == a[0];
      }
      assert [a[0]] + a[1..] == a;
    } else {
      assert a + b == b;
    }
  }

  /** Text in which the pattern's first character never appears is left as
      it is by a replacement. */
  lemma ReplaceAllAbsent(s: string, p: string, q: string)
    requires |p| > 0 && p[0] !in s
    ensures ReplaceAll(s, p, q) == s
  {
    ReplaceAllConcat(s, "", p, q);
    assert s + "" == s;
  }

  lemma NotStartsWithAt(s: string, p: string, k: nat)
    requires k < |p| && k < |s| && s[k] != p[k]
    ensures !StartsWith(s, p)
  {
    if |p| <= |s| {
      assert s[..|p|][k] == s[k];
    }
  }

  /** Where the pattern does not begin, the first character is kept. */
  lemma ReplaceAllMiss(c: char, b: string, p: string, q: string)
    requires |p| > 0 && !StartsWith([c] + b, p)
    ensures ReplaceAll([c] + b, p, q) == [c] + ReplaceAll(b, p, q)
  {
    assert ([c] + b)[1..] == b;
  }

  /** A text that begins with the pattern has that occurrence replaced. */
  lemma ReplaceAllPrefix(p: string, b: string, q: string)
    requires |p| > 0
    ensures ReplaceAll(p + b, p, q) == q + ReplaceAll(b, p, q)
  {
    assert (p + b)[..|p|] == p;
    assert (p + b)[|p|..] == b;
  }

  /** Text that does not contain the pattern is left as it is. */
  lemma {:induction false} ReplaceAllNone(s: string, p: string, q: string)
    requires |p| > 0 && !Contains(s, p)
    ensures ReplaceAll(s, p, q) == s
    decreases |s|
  {
    if |s| >= |p| {
      assert !OccursAt(s, p, 0);
      assert s[..|p|] != p;
      forall k | 0 <= k <= |s[1..]| - |p|
        ensures !OccursAt(s[1..], p, k)
      {
        assert !OccursAt(s, p, k + 1);
        assert s[1..][k..k + |p|] == s[k + 1..k + 1 + |p|];
      }
      ReplaceAllNone(s[1..], p, q);
      assert [s[0]] + s[1..] == s;
    }
  }

  /** Python's `s.replace(a, b)` for one-character `a` and `b`. */
  function ReplaceChar(s: string, a: char, b: char): (r: string)
    ensures |r| == |s|
    ensures forall i :: 0 <= i < |s| ==> r[i] == if s[i] == a then b else s[i]
  {
    if s == [] then [] else ReplaceChar(s[..|s| - 1], a, b) + [if s[|s| - 1] == a then b else s[|s| - 1]]
  }

  /** Replacing `a` by `b` and then `b` by `a` restores a text that held no
      `b` to begin with. */
  lemma ReplaceCharBack(s: string, a: char, b: char)
    requires b !in s
    ensures ReplaceChar(ReplaceChar(s, a, b), b, a) == s
  {
    var t := ReplaceChar(s, a, b);
    var u := ReplaceChar(t, b, a);
    forall i | 0 <= i < |s|
      ensures u[i] == s[i]
    {
      assert s[i] in s;
    }
  }

  function DigitValue(c: char): nat
    requires IsDigit(c)
  {
    (c as int - '0' as int) as nat
  }

  function DigitChar(d: nat): (c: char)
    requires d < 10
    ensures IsDigit(c) && DigitValue(c) == d
  {
    ('0' as int + d) as char
  }

  /** Python's `int(d)` for a run of ASCII digits. */
  function DigitsValue(d: string): nat
    requires AllDigits(d)
  {
    if d == [] then 0 else DigitsValue(d[..|d| - 1]) * 10 + DigitValue(d[|d| - 1])
  }

  /** Python's `str(n)` for a non-negative integer. */
  function NatToString(n: nat): (r: string)
    ensures r != [] && AllDigits(r)
    ensures |r| > 1 ==> r[0] != '0'
  {
    if n < 10 then [DigitChar(n)] else NatToString(n / 10) + [DigitChar(n % 10)]
  }

  /** Reading back a rendered number gives the number. */
  lemma {:induction false} NatToStringValue(n: nat)
    ensures DigitsValue(NatToString(n)) == n
  {
    if n >= 10 {
      var r := NatToString(n);
      NatToStringValue(n / 10);
      assert r[..|r| - 1] == NatToString(n / 10);
    }
  }

  /** From `j` on, the first `>` that comes before any `stop` character: the
      end of a lazy match `<...?>` whose body excludes `stop`. */
  function CloseBefore(s: string, j: nat, stop: char): (r: Option<nat>)
    requires j <= |s|
    decreases |s| - j
    ensures r.Some? ==> j <= r.value < |s| && s[r.value] == '>'
    ensures r.Some? ==> forall k :: j <= k < r.value ==> s[k] != '>' && s[k] != stop
  {
    if j == |s| || s[j] == stop then None
    else if s[j] == '>' then Some(j)
    else CloseBefore(s, j + 1, stop)
  }

  /** The first `>` before any `stop` character is the one found. */
  lemma {:induction false} CloseBeforeAt(s: string, j: nat, e: nat, stop: char)
    requires j <= e < |s| && s[e] == '>' && stop != '>'
    requires forall k :: j <= k < e ==> s[k] != '>' && s[k] != stop
    ensures CloseBefore(s, j, stop) == Some(e)
    decreases e - j
  {
    if j < e {
      CloseBeforeAt(s, j + 1, e, stop);
    }
  }
}
