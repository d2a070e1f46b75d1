/** The tag searches of the form `re.search(rf"{prefix}\s*(X)", text)`
    that both directions of the synchronisation use to pick a value out of
    a tag text, with `X` one of `[^\s]+`, `\d+` or `[\w\s]+`, and the
    relation-URL search `re.search(r"{prefix}(\d+)", url)` that allows no
    white space in between. The prefix is matched as literal text. */
module TagScan {
  import opened Wrappers
  import opened TextOps

  /** The group that follows the prefix and the optional white space;
      `AdjacentDigits` is `(\d+)` right after the prefix. */
  datatype Capture = NonSpaces | Digits | WordsAndSpaces | AdjacentDigits

  /** The end of a greedy `[\w\s]+` run that starts at `i`. */
  function SkipWordsAndSpaces(s: string, i: nat): (r: nat)
    requires i <= |s|
    decreases |s| - i
    ensures i <= r <= |s|
    ensures forall k :: i <= k < r ==> IsWordChar(s[k]) || IsSpace(s[k])
    ensures r < |s| ==> !IsWordChar(s[r]) && !IsSpace(s[r])
  {
    if i < |s| && (IsWordChar(s[i]) || IsSpace(s[i])) then SkipWordsAndSpaces(s, i + 1) else i
  }

  /** `\s*(X)` tried at index `j`, with the backtracking of `re` spelled
      out: the greedy `\s*` stops at `a`; the group starts there when it
      can; for `[\w\s]+` the white space gives one character back when the
      group cannot start at `a`. */
  function CaptureAt(s: string, j: nat, kind: Capture): (r: Option<string>)
    requires j <= |s|
    ensures r.Some? ==> r.value != []
    ensures r.Some? && kind == NonSpaces ==> NoSpace(r.value)
    ensures r.Some? && (kind == Digits || kind == AdjacentDigits) ==> AllDigits(r.value)
  {
    var a := SkipSpaces(s, j);
    match kind
    case AdjacentDigits =>
      if j < |s| && IsDigit(s[j]) then Some(s[j..SkipDigits(s, j)]) else None
    case NonSpaces =>
      if a < |s| then Some(s[a..SkipNonSpaces(s, a)]) else None
    case Digits =>
      if a < |s| && IsDigit(s[a]) then Some(s[a..SkipDigits(s, a)]) else None
    case WordsAndSpaces =>
      if a < |s| && IsWordChar(s[a]) then Some(s[a..SkipWordsAndSpaces(s, a)])
      else if j < a then Some(s[a - 1..a])
      else None
  }

  /** The whole pattern matches at index `k`. */
  predicate MatchesAt(s: string, prefix: string, kind: Capture, k: nat) {
    OccursAt(s, prefix, k) && CaptureAt(s, k + |prefix|, kind).Some?
  }

  /** The leftmost index at or after `i` where the pattern matches. */
  function MatchFrom(s: string, prefix: string, kind: Capture, i: nat): (r: Option<nat>)
    decreases |s| + 1 - i
    ensures r.Some? ==> i <= r.value && MatchesAt(s, prefix, kind, r.value)
    ensures r.Some? ==> forall k :: i <= k < r.value ==> !MatchesAt(s, prefix, kind, k)
    ensures r.None? ==> forall k :: i <= k ==> !MatchesAt(s, prefix, kind, k)
  {
    if i > |s| then None
    else if MatchesAt(s, prefix, kind, i) then Some(i)
    else MatchFrom(s, prefix, kind, i + 1)
  }

  /** `re.search(...).group(1)`, or `None` when the search fails. */
  function Search(s: string, prefix: string, kind: Capture): (r: Option<string>)
    ensures r.Some? ==> r.value != []
    ensures r.Some? && kind == NonSpaces ==> NoSpace(r.value)
    ensures r.Some? && (kind == Digits || kind == AdjacentDigits) ==> AllDigits(r.value)
    ensures r.None? ==> forall k :: !MatchesAt(s, prefix, kind, k)
  {
    match MatchFrom(s, prefix, kind, 0)
    case None => None
    case Some(k) => CaptureAt(s, k + |prefix|, kind)
  }

  // ----- properties -----

  /** A value written right after the prefix, one space apart, is the one
      the search reads, as long as the text before the prefix does not hold
      the prefix's first character and the value ends where the group
      stops. */
  lemma SearchFinds(x: string, prefix: string, v: string, rest: string, kind: Capture)
    requires |prefix| > 0 && prefix[0] !in x
    requires kind == NonSpaces || kind == Digits
    requires v != [] && (if kind == NonSpaces then NoSpace(v) else AllDigits(v))
    requires rest == [] || (if kind == NonSpaces then IsSpace(rest[0]) else !IsDigit(rest[0]))
    ensures Search(x + prefix + " " + v + rest, prefix, kind) == Some(v)
  {
    var s := x + prefix + " " + v + rest;
    var j := |x| + |prefix|;
    var e := j + 1 + |v|;
    assert s[|x|..j] == prefix;
    assert s[j] == ' ';
    assert s[j + 1..e] == v;
    assert e < |s| ==> s[e] == rest[0];
    assert forall k :: 0 <= k < |x| ==> s[k] == x[k];
    SearchFindsAt(s, |x|, prefix, v, kind);
  }

  /** The same over the positions of a text: nothing before `m` starts
      like the prefix, and the prefix, one space and the value follow. */
  lemma SearchFindsAt(s: string, m: nat, prefix: string, v: string, kind: Capture)
    requires |prefix| > 0 && OccursAt(s, prefix, m)
    requires forall k :: 0 <= k < m ==> s[k] != prefix[0]
    requires kind == NonSpaces || kind == Digits
    requires v != [] && (if kind == NonSpaces then NoSpace(v) else AllDigits(v))
    requires var j := m + |prefix|; j + 1 + |v| <= |s| && s[j] == ' ' && s[j + 1..j + 1 + |v|] == v
    requires var e := m + |prefix| + 1 + |v|;
      e < |s| ==> if kind == NonSpaces then IsSpace(s[e]) else !IsDigit(s[e])
    ensures Search(s, prefix, kind) == Some(v)
  {
    CaptureFinds(s, m + |prefix|, v, kind);
    forall k | 0 <= k < m
      ensures !MatchesAt(s, prefix, kind, k)
    {
      NotOccursAtFirstChar(s, prefix, k);
    }
    SearchAt(s, prefix, kind, m, v);
  }

  /** A digit run written right after the prefix is the one the adjacent
      search reads, as long as the text before the prefix does not hold the
      prefix's first character and the run ends there. */
  lemma SearchFindsAdjacent(x: string, prefix: string, v: string, rest: string)
    requires |prefix| > 0 && prefix[0] !in x
    requires v != [] && AllDigits(v)
    requires rest == [] || !IsDigit(rest[0])
    ensures Search(x + prefix + v + rest, prefix, AdjacentDigits) == Some(v)
  {
    var s := x + prefix + v + rest;
    var j := |x| + |prefix|;
    var e := j + |v|;
    assert s[|x|..j] == prefix;
    assert s[j..e] == v;
    assert e < |s| ==> s[e] == rest[0];
    assert forall k :: 0 <= k < |x| ==> s[k] == x[k];
    assert forall k :: j <= k < e ==> s[k] == v[k - j];
    SkipDigitsTo(s, j, e);
    forall k | 0 <= k < |x|
      ensures !MatchesAt(s, prefix, AdjacentDigits, k)
    {
      NotOccursAtFirstChar(s, prefix, k);
    }
    SearchAt(s, prefix, AdjacentDigits, |x|, v);
  }

  /** A search that gives a value found the prefix in the text. */
  lemma SearchContains(s: string, prefix: string, kind: Capture)
    requires Search(s, prefix, kind).Some?
    ensures Contains(s, prefix)
  {
    var k := MatchFrom(s, prefix, kind, 0).value;
    assert OccursAt(s, prefix, k);
  }

  /** A text with a match somewhere gives a value. */
  lemma SearchSome(s: string, prefix: string, kind: Capture, k: nat)
    requires MatchesAt(s, prefix, kind, k)
    ensures Search(s, prefix, kind).Some?
  {
  }

  /** The search reads the group of the leftmost match. */
  lemma SearchAt(s: string, prefix: string, kind: Capture, k: nat, v: string)
    requires MatchesAt(s, prefix, kind, k) && CaptureAt(s, k + |prefix|, kind) == Some(v)
    requires forall j :: 0 <= j < k ==> !MatchesAt(s, prefix, kind, j)
    ensures Search(s, prefix, kind) == Some(v)
  {
    MatchFromAt(s, prefix, kind, 0, k);
  }

  /** One space, then a run that ends where the group stops: the group is
      that run. */
  lemma CaptureFinds(s: string, j: nat, v: string, kind: Capture)
    requires kind == NonSpaces || kind == Digits
    requires v != [] && (if kind == NonSpaces then NoSpace(v) else AllDigits(v))
    requires j + 1 + |v| <= |s| && s[j] == ' ' && s[j + 1..j + 1 + |v|] == v
    requires j + 1 + |v| < |s| ==> if kind == NonSpaces then IsSpace(s[j + 1 + |v|]) else !IsDigit(s[j + 1 + |v|])
    ensures CaptureAt(s, j, kind) == Some(v)
  {
    var a := j + 1;
    var e := a + |v|;
    assert forall k :: a <= k < e ==> s[k] == v[k - a];
    SkipSpacesTo(s, j, a);
    if kind == NonSpaces {
      SkipNonSpacesTo(s, a, e);
    } else {
      SkipDigitsTo(s, a, e);
    }
  }

  /** A search that starts before the first match finds it. */
  lemma {:induction false} MatchFromAt(s: string, prefix: string, kind: Capture, i: nat, k: nat)
    requires i <= k && MatchesAt(s, prefix, kind, k)
    requires forall j :: i <= j < k ==> !MatchesAt(s, prefix, kind, j)
    ensures MatchFrom(s, prefix, kind, i) == Some(k)
    decreases k - i
  {
    if i < k {
      MatchFromAt(s, prefix, kind, i + 1, k);
    }
  }

  /** A text that does not contain the prefix gives no match. */
  lemma SearchAbsent(s: string, prefix: string, kind: Capture)
    requires !Contains(s, prefix)
    ensures Search(s, prefix, kind) == None
  {
    assert forall k: nat :: MatchesAt(s, prefix, kind, k) ==> 0 <= k <= |s| - |prefix| && OccursAt(s, prefix, k);
  }
}
