/** Cutting a Robot Framework file into its `*** Settings ***` block and its
    `*** Test Cases ***` block (`extract_test_tags_and_test_cases` and its
    `_for_features` twin). Every regular expression of the source is written
    out as a scan over the text. */
module RobotSections {
  import opened Wrappers
  import opened TextOps

  const Stars: string := "***"
  const SettingsWord: string := "Settings"
  const FeatureSettingsWord: string := "@"
  const TestCasesWord: string := "Test Cases"

  /** The two copies of the extractor differ only in the word between the
      stars of the settings header and in the Test Tags pattern. */
  datatype Flavor = RobotFile | FeatureFile

  /** `\*\*\*\s*WORD\s*\*\*\*` matched at `k`: the index just after the
      closing stars. `word` starts with a character that is not white space,
      so the greedy `\s*` never has to give anything back. */
  function HeaderEnd(s: string, word: string, k: nat): (r: Option<nat>)
    ensures r.Some? ==> k + 3 <= r.value <= |s| && OccursAt(s, Stars, k) && OccursAt(s, Stars, r.value - 3)
  {
    if !OccursAt(s, Stars, k) then None
    else
      var a := SkipSpaces(s, k + 3);
      if !OccursAt(s, word, a) then None
      else
        var b := SkipSpaces(s, a + |word|);
        if OccursAt(s, Stars, b) then Some(b + 3) else None
  }

  /** `re.search(r"\*\*\*\s*WORD\s*\*\*\*(.*?)\*\*\*", s, re.DOTALL)` from
      index `k` on: the lazy group ends at the first `***` after the header;
      a header with no `***` after it is no match, and the search moves on. */
  function SettingsSearch(s: string, word: string, k: nat): (r: Option<string>)
    requires k <= |s|
    decreases |s| - k
    ensures r.Some? ==> !Contains(r.value, Stars)
  {
    if k == |s| then None
    else
      match HeaderEnd(s, word, k)
      case None => SettingsSearch(s, word, k + 1)
      case Some(h) =>
        match FindFrom(s, Stars, h)
        case None => SettingsSearch(s, word, k + 1)
        case Some(e) =>
          NoOccurrenceInSlice(s, Stars, h, e);
          Some(s[h..e])
  }

  /** Where `(?=\*\*\*|$)` lets the lazy group stop: before `***`, at the end
      of the text, or before a newline that ends the text. */
  predicate GroupStop(s: string, e: nat) {
    OccursAt(s, Stars, e) || e == |s| || (e + 1 == |s| && s[e] == '\n')
  }

  function StopFrom(s: string, e: nat): (r: nat)
    requires e <= |s|
    decreases |s| - e
    ensures e <= r <= |s| && GroupStop(s, r)
    ensures forall j :: e <= j < r ==> !GroupStop(s, j)
    ensures forall j :: e <= j < r ==> !OccursAt(s, Stars, j)
  {
    if GroupStop(s, e) then e else StopFrom(s, e + 1)
  }

  /** `re.search(r"\*\*\*\s*Test Cases\s*\*\*\*(.*?)(?=\*\*\*|$)", s,
      re.DOTALL)` from index `k` on: the group of the first header, which
      always matches since the end of the text is a stop. */
  function TestCasesSearch(s: string, k: nat): (r: Option<string>)
    requires k <= |s|
    decreases |s| - k
    ensures r.Some? ==> !Contains(r.value, Stars)
  {
    if k == |s| then None
    else
      match HeaderEnd(s, TestCasesWord, k)
      case None => TestCasesSearch(s, k + 1)
      case Some(h) =>
        NoOccurrenceInSlice(s, Stars, h, StopFrom(s, h));
        Some(s[h..StopFrom(s, h)])
  }

  /** The stripped body of the test-case section, or "" without a header. */
  function TestCasesData(content: string): string {
    match TestCasesSearch(content, 0)
    case None => ""
    case Some(g) => Strip(g)
  }

  /** The stripped body of the settings section, or "" without one. */
  function SettingsData(content: string, flavor: Flavor): string {
    var word := if flavor == RobotFile then SettingsWord else FeatureSettingsWord;
    match SettingsSearch(content, word, 0)
    case None => ""
    case Some(g) => Strip(g)
  }

  /** One letter of a pattern compiled with `re.IGNORECASE`: the lower-case
      letter, its upper-case form, and for `s` also the long s. */
  predicate LetterMatches(c: char, p: char) {
    c == p || (('a' <= p <= 'z') && c as int == p as int - 32) || (p == 's' && c == '\U{17F}')
  }

  /** The lower-case word `w` matches at `i` ignoring case. */
  predicate FoldedAt(s: string, w: string, i: nat) {
    i + |w| <= |s| && forall j :: 0 <= j < |w| ==> LetterMatches(s[i + j], w[j])
  }

  /** The index of the first newline at or after `i`, or the end. */
  function LineEnd(s: string, i: nat): (r: nat)
    requires i <= |s|
    decreases |s| - i
    ensures i <= r <= |s| && (r < |s| ==> s[r] == '\n')
    ensures forall j :: i <= j < r ==> s[j] != '\n'
  {
    if i == |s| || s[i] == '\n' then i else LineEnd(s, i + 1)
  }

  /** The last index in `[lo, hi)` holding something other than a newline. */
  function LastNonNewline(s: string, lo: nat, hi: nat): (r: Option<nat>)
    requires lo <= hi <= |s|
    decreases hi - lo
    ensures r.Some? ==> lo <= r.value < hi && s[r.value] != '\n'
  {
    if hi == lo then None
    else if s[hi - 1] != '\n' then Some(hi - 1)
    else LastNonNewline(s, lo, hi - 1)
  }

  /** `\s+(.+)` matched from `b`: the greedy `\s+` stops at the first
      character that is not white space and `(.+)` runs to the end of that
      line; when only white space is left, `\s+` gives back characters until
      `.` (which does not match a newline) can take one. */
  function SpacesThenLine(s: string, b: nat): (r: Option<string>)
    requires b <= |s|
  {
    if b == |s| || !IsSpace(s[b]) then None
    else
      var c := SkipSpaces(s, b);
      if c < |s| then Some(s[c..LineEnd(s, c)])
      else
        match LastNonNewline(s, b + 1, c)
        case None => None
        case Some(j) => Some(s[j..LineEnd(s, j)])
  }

  /** The group of `Test\s*Tags\s+(.+)` (or `@\s+(.+)`) at `k`, ignoring case. */
  function TagsAt(s: string, flavor: Flavor, k: nat): Option<string>
    requires k <= |s|
  {
    if flavor == RobotFile then
      if !FoldedAt(s, "test", k) then None
      else
        var a := SkipSpaces(s, k + 4);
        if !FoldedAt(s, "tags", a) then None else SpacesThenLine(s, a + 4)
    else
      if k < |s| && s[k] == '@' then SpacesThenLine(s, k + 1) else None
  }

  function TagsSearch(s: string, flavor: Flavor, k: nat): Option<string>
    requires k <= |s|
    decreases |s| - k
  {
    if k == |s| then None
    else
      match TagsAt(s, flavor, k)
      case Some(g) => Some(g)
      case None => TagsSearch(s, flavor, k + 1)
  }

  /** The Test Tags of the settings block joined by "; ", or `None` when
      there is no such line or it holds nothing but white space. */
  function CaseTags(settings: string, flavor: Flavor): Option<string> {
    match TagsSearch(settings, flavor, 0)
    case None => None
    case Some(g) =>
      var t := Strip(g);
      if t == [] then None else Some(Join(Words(t), "; "))
  }

  /** `extract_test_tags_and_test_cases` (flavor `RobotFile`) and
      `extract_test_tags_and_test_cases_for_features` (flavor `FeatureFile`):
      the raw test-case data and the case tags. */
  function ExtractSections(content: string, flavor: Flavor): (r: (string, Option<string>))
    ensures !Contains(r.0, Stars)
    ensures r.1.Some? ==> r.1.value != []
  {
    var body := TestCasesData(content);
    TestCasesDataNoStars(content);
    var tags := CaseTags(SettingsData(content, flavor), flavor);
    CaseTagsNonEmpty(SettingsData(content, flavor), flavor);
    (body, tags)
  }

  // ----- properties -----

  /** A slice of a text without the pattern holds none either. */
  lemma NoOccurrenceInSubslice(t: string, p: string, a: nat, b: nat)
    requires |p| > 0 && a <= b <= |t| && !Contains(t, p)
    ensures !Contains(t[a..b], p)
  {
    var u := t[a..b];
    forall i | 0 <= i <= |u| - |p|
      ensures !OccursAt(u, p, i)
    {
      var x, y := u[i..i + |p|], t[a + i..a + i + |p|];
      assert forall j | 0 <= j < |p| :: x[j] == y[j];
      assert x == y;
      assert !OccursAt(t, p, a + i);
    }
  }

  lemma StripNoOccurrence(t: string, p: string)
    requires |p| > 0 && !Contains(t, p)
    ensures !Contains(Strip(t), p)
  {
    var a := SkipSpaces(t, 0);
    NoOccurrenceInSubslice(t, p, a, TrimEnd(t, |t|, a));
  }

  /** The test-case data never holds a `***`: it stops before the next
      section header. */
  lemma TestCasesDataNoStars(content: string)
    ensures !Contains(TestCasesData(content), Stars)
  {
    var r := TestCasesSearch(content, 0);
    if r.Some? {
      StripNoOccurrence(r.value, Stars);
    }
  }

  lemma CaseTagsNonEmpty(settings: string, flavor: Flavor)
    ensures CaseTags(settings, flavor).Some? ==> CaseTags(settings, flavor).value != []
  {
    var g := TagsSearch(settings, flavor, 0);
    if g.Some? && Strip(g.value) != [] {
      var t := Strip(g.value);
      StripShape(g.value);
      WordsShape(t);
      JoinFirst(Words(t), "; ");
    }
  }

  /** A text without any `*` has no section header: both parts come out
      empty. */
  lemma NoHeaderNoSections(content: string, flavor: Flavor)
    requires forall k :: 0 <= k < |content| ==> content[k] != '*'
    ensures ExtractSections(content, flavor) == ("", None)
  {
    NoHeaderNoMatch(content, 0);
    var word := if flavor == RobotFile then SettingsWord else FeatureSettingsWord;
    NoHeaderNoSettings(content, word, 0);
    assert SettingsData(content, flavor) == "";
    assert TagsSearch("", flavor, 0) == None;
  }

  lemma {:induction false} NoHeaderNoMatch(s: string, k: nat)
    requires k <= |s|
    requires forall j :: 0 <= j < |s| ==> s[j] != '*'
    ensures TestCasesSearch(s, k) == None
    decreases |s| - k
  {
    if k < |s| {
      assert !OccursAt(s, Stars, k) by { assert s[k] != Stars[0]; }
      NoHeaderNoMatch(s, k + 1);
    }
  }

  lemma {:induction false} NoHeaderNoSettings(s: string, word: string, k: nat)
    requires k <= |s|
    requires forall j :: 0 <= j < |s| ==> s[j] != '*'
    ensures SettingsSearch(s, word, k) == None
    decreases |s| - k
  {
    if k < |s| {
      assert !OccursAt(s, Stars, k) by { assert s[k] != Stars[0]; }
      NoHeaderNoSettings(s, word, k + 1);
    }
  }

  const TestCasesHeader: string := "*** Test Cases ***"

  /** The header is found at the start and ends after its closing stars. */
  lemma TestCasesHeaderEnd(body: string)
    ensures HeaderEnd(TestCasesHeader + body, TestCasesWord, 0) == Some(|TestCasesHeader|)
  {
    var s := TestCasesHeader + body;
    assert s[0..3] == Stars;
    assert SkipSpaces(s, 3) == 4 by { SkipSpacesTo(s, 3, 4); }
    assert s[4..14] == TestCasesWord;
    assert SkipSpaces(s, 14) == 15 by { SkipSpacesTo(s, 14, 15); }
    assert s[15..18] == Stars;
  }

  /** Whatever follows a `*** Test Cases ***` header, as long as it holds no
      `*`, comes back stripped as the test-case data. */
  lemma TestCasesRoundTrip(body: string)
    requires forall k :: 0 <= k < |body| ==> body[k] != '*'
    ensures TestCasesData(TestCasesHeader + body) == Strip(body)
  {
    var s := TestCasesHeader + body;
    var h := |TestCasesHeader|;
    TestCasesHeaderEnd(body);
    var e := StopFrom(s, h);
    if e < |s| {
      assert s[e] == body[e - h];
      assert !OccursAt(s, Stars, e) by { assert s[e] != Stars[0]; }
      assert s[h..e] == body[..|body| - 1];
      assert body == body[..|body| - 1] + ['\n'];
      StripSnocSpace(body[..|body| - 1], '\n');
    } else {
      assert s[h..e] == body;
    }
  }

  /** The start of a `Test Tags` setting written with one space. */
  const TestTagsPrefix: string := "Test Tags "

  /** The scan positions of `Test\s*Tags\s+(.+)` over a `Test Tags` line. */
  lemma TestTagsScan(j: string, s: string)
    requires j != [] && !IsSpace(j[0])
    requires forall k :: 0 <= k < |j| ==> j[k] != '\n'
    requires s == TestTagsPrefix + j
    ensures FoldedAt(s, "test", 0) && SkipSpaces(s, 4) == 5 && FoldedAt(s, "tags", 5)
    ensures TagsAt(s, RobotFile, 0) == Some(j)
  {
    assert FoldedAt(s, "test", 0) by {
      assert s[0] == 'T' && s[1] == 'e' && s[2] == 's' && s[3] == 't';
    }
    SkipSpacesTo(s, 4, 5);
    assert FoldedAt(s, "tags", 5) by {
      assert s[5] == 'T' && s[6] == 'a' && s[7] == 'g' && s[8] == 's';
    }
    assert s[10] == j[0];
    SkipSpacesTo(s, 9, 10);
    assert forall k :: 10 <= k < |s| ==> s[k] == j[k - 10];
    assert s[10..] == j;
    assert LineEnd(s, 10) == |s|;
    assert s[9] == ' ' && SkipSpaces(s, 9) == 10;
    assert SpacesThenLine(s, 9) == Some(s[10..LineEnd(s, 10)]);
    assert TagsAt(s, RobotFile, 0) == SpacesThenLine(s, 9);
    assert s[10..LineEnd(s, 10)] == j;
  }

  /** The tags pattern takes the rest of a `Test Tags` line. */
  lemma TestTagsLine(j: string)
    requires j != [] && !IsSpace(j[0])
    requires forall k :: 0 <= k < |j| ==> j[k] != '\n'
    ensures TagsSearch(TestTagsPrefix + j, RobotFile, 0) == Some(j)
  {
    var s := TestTagsPrefix + j;
    TestTagsScan(j, s);
  }

  /** A `Test Tags` line of words separated by single spaces gives those
      words joined by "; ". */
  lemma CaseTagsRoundTrip(ws: seq<string>)
    requires ws != []
    requires forall i :: 0 <= i < |ws| ==> ws[i] != [] && NoSpace(ws[i])
    ensures CaseTags(TestTagsPrefix + Join(ws, " "), RobotFile) == Some(Join(ws, "; "))
  {
    var j := Join(ws, " ");
    JoinFirst(ws, " ");
    JoinLast(ws, " ");
    JoinSpacesOnly(ws);
    TestTagsLine(j);
    StripKeeps(j);
    WordsJoin(ws);
  }
}
