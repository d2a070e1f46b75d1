/** The line classifier that turns the body of a `*** Test Cases ***`
    section into test-case records (`parse_test_cases`, present twice in the
    repository with the same body: once for the push direction and once for
    the pull direction). */
module RobotParser {
  import opened Wrappers
  import opened TextOps

  /** One dictionary of the list `parse_test_cases` returns: Title, Tags and
      Steps; or, when a `[tags]` line comes before any title line, a
      dictionary that holds only Tags. */
  datatype ParsedCase =
    | TestCase(title: string, tags: string, steps: seq<string>)
    | TagsOnly(tags: string)

  /** A step line met while the current dictionary has no Steps entry: the
      KeyError of the source. */
  datatype ParseError = StepWithoutTestCase(line: string)

  const TagsMarker: string := "[tags]"

  /** How one (unstripped) line is read. */
  datatype LineKind = Blank | Title(title: string) | TagLine(tags: string) | Step(text: string)

  function Classify(line: string, titlePrefix: string): LineKind {
    var l := Strip(line);
    if l == [] then Blank
    else if StartsWith(l, titlePrefix) then Title(Strip(l[|titlePrefix|..]))
    else if StartsWith(l, TagsMarker) then TagLine(Strip(l[|TagsMarker|..]))
    else Step(l)
  }

  /** The finished records and the record being filled (`None` is the empty
      dictionary the source starts with). */
  datatype ParseState = ParseState(done: seq<ParsedCase>, current: Option<ParsedCase>)

  function Flushed(current: Option<ParsedCase>): seq<ParsedCase> {
    if current.Some? then [current.value] else []
  }

  /** The records a state stands for once the input ends. */
  function Records(st: ParseState): seq<ParsedCase> {
    st.done + Flushed(st.current)
  }

  /** How every line of a section is read. */
  function ClassifyAll(lines: seq<string>, titlePrefix: string): (r: seq<LineKind>)
    ensures |r| == |lines|
  {
    if lines == [] then []
    else ClassifyAll(lines[..|lines| - 1], titlePrefix) + [Classify(lines[|lines| - 1], titlePrefix)]
  }

  lemma {:induction false} ClassifyAllAt(lines: seq<string>, titlePrefix: string, j: nat)
    requires j < |lines|
    ensures ClassifyAll(lines, titlePrefix)[j] == Classify(lines[j], titlePrefix)
  {
    var n := |lines| - 1;
    if j < n {
      ClassifyAllAt(lines[..n], titlePrefix, j);
      assert lines[..n][j] == lines[j];
    }
  }

  /** One turn of the loop, on a line already classified. */
  function Feed(st: ParseState, k: LineKind): Result<ParseState, ParseError> {
    match k
    case Blank => Ok(st)
    case Title(t) => Ok(ParseState(Records(st), Some(TestCase(t, "", []))))
    case TagLine(g) =>
      Ok(ParseState(st.done,
        Some(if st.current.Some? && st.current.value.TestCase? then st.current.value.(tags := g) else TagsOnly(g))))
    case Step(x) =>
      if st.current.Some? && st.current.value.TestCase? then
        Ok(ParseState(st.done, Some(st.current.value.(steps := st.current.value.steps + [x]))))
      else Err(StepWithoutTestCase(x))
  }

  /** The loop over a prefix of the classified lines. */
  function Run(kinds: seq<LineKind>): Result<ParseState, ParseError> {
    if kinds == [] then Ok(ParseState([], None))
    else
      match Run(kinds[..|kinds| - 1])
      case Err(e) => Err(e)
      case Ok(st) => Feed(st, kinds[|kinds| - 1])
  }

  function ParseLines(lines: seq<string>, titlePrefix: string): Result<seq<ParsedCase>, ParseError> {
    match Run(ClassifyAll(lines, titlePrefix))
    case Err(e) => Err(e)
    case Ok(st) => Ok(Records(st))
  }

  /** `parse_test_cases(raw, config)`, with the title prefix taken from the
      configuration. */
  method ParseTestCases(raw: string, titlePrefix: string) returns (r: Result<seq<ParsedCase>, ParseError>)
    ensures r == ParseLines(Split(raw, '\n'), titlePrefix)
  {
    var lines := Split(raw, '\n');
    ghost var kinds := ClassifyAll(lines, titlePrefix);
    var testCases: seq<ParsedCase> := [];
    var current: Option<ParsedCase> := None;
    var i := 0;
    while i < |lines|
      invariant 0 <= i <= |lines|
      invariant Run(kinds[..i]) == Ok(ParseState(testCases, current))
    {
      RunStep(kinds, i);
      ClassifyAllAt(lines, titlePrefix, i);
      ghost var st := ParseState(testCases, current);
      var line := Strip(lines[i]);
      if line == [] {
        assert kinds[i] == Blank;
      } else if StartsWith(line, titlePrefix) {
        assert kinds[i] == Title(Strip(line[|titlePrefix|..]));
        if current.Some? {
          testCases := testCases + [current.value];
        } else {
          assert Records(st) == testCases;
        }
        current := Some(TestCase(Strip(line[|titlePrefix|..]), "", []));
      } else if StartsWith(line, TagsMarker) {
        var g := Strip(line[|TagsMarker|..]);
        assert kinds[i] == TagLine(g);
        if current.Some? && current.value.TestCase? {
          current := Some(current.value.(tags := g));
        } else {
          current := Some(TagsOnly(g));
        }
      } else {
        assert kinds[i] == Step(line);
        if current.Some? && current.value.TestCase? {
          current := Some(current.value.(steps := current.value.steps + [line]));
        } else {
          RunErrSticks(kinds, i + 1);
          return Err(StepWithoutTestCase(line));
        }
      }
      i := i + 1;
    }
    assert kinds[..i] == kinds;
    ghost var fin := ParseState(testCases, current);
    if current.Some? {
      testCases := testCases + [current.value];
    } else {
      assert Records(fin) == testCases;
    }
    r := Ok(testCases);
  }

  lemma RunStep(kinds: seq<LineKind>, i: nat)
    requires i < |kinds|
    ensures Run(kinds[..i + 1]) == match Run(kinds[..i]) case Err(e) => Err(e) case Ok(st) => Feed(st, kinds[i])
  {
    assert kinds[..i + 1][..i] == kinds[..i];
  }

  /** Once a prefix of the lines fails, the whole input fails the same
      way. */
  lemma {:induction false} RunErrSticks(kinds: seq<LineKind>, j: nat)
    requires j <= |kinds| && Run(kinds[..j]).Err?
    ensures Run(kinds) == Run(kinds[..j])
    decreases |kinds| - j
  {
    if j < |kinds| {
      assert kinds[..j + 1][..j] == kinds[..j];
      RunErrSticks(kinds, j + 1);
    } else {
      assert kinds[..j] == kinds;
    }
  }

  // ----- reference definitions over the lines -----

  /** The titles of the title lines, in order. */
  function TitleLines(kinds: seq<LineKind>): seq<string> {
    if kinds == [] then []
    else
      var k := kinds[|kinds| - 1];
      TitleLines(kinds[..|kinds| - 1]) + (if k.Title? then [k.title] else [])
  }

  /** The step lines, in order. */
  function StepLines(kinds: seq<LineKind>): seq<string> {
    if kinds == [] then []
    else
      var k := kinds[|kinds| - 1];
      StepLines(kinds[..|kinds| - 1]) + (if k.Step? then [k.text] else [])
  }

  /** The titles of the records, in order. */
  function TitlesOf(cases: seq<ParsedCase>): seq<string> {
    if cases == [] then []
    else
      var c := cases[|cases| - 1];
      TitlesOf(cases[..|cases| - 1]) + (if c.TestCase? then [c.title] else [])
  }

  /** The steps of all records, one after the other. */
  function StepsOf(cases: seq<ParsedCase>): seq<string> {
    if cases == [] then []
    else
      var c := cases[|cases| - 1];
      StepsOf(cases[..|cases| - 1]) + (if c.TestCase? then c.steps else [])
  }

  predicate HasTitleLine(kinds: seq<LineKind>) {
    exists j :: 0 <= j < |kinds| && kinds[j].Title?
  }

  /** Some step line comes before every title line. */
  predicate OrphanStep(kinds: seq<LineKind>) {
    exists i :: 0 <= i < |kinds| && kinds[i].Step? && !HasTitleLine(kinds[..i])
  }

  lemma {:induction false} TitlesOfAppend(a: seq<ParsedCase>, b: seq<ParsedCase>)
    ensures TitlesOf(a + b) == TitlesOf(a) + TitlesOf(b)
    decreases |b|
  {
    if b == [] {
      assert a + b == a;
    } else {
      var b' := b[..|b| - 1];
      assert (a + b)[..|a + b| - 1] == a + b';
      TitlesOfAppend(a, b');
    }
  }

  lemma {:induction false} StepsOfAppend(a: seq<ParsedCase>, b: seq<ParsedCase>)
    ensures StepsOf(a + b) == StepsOf(a) + StepsOf(b)
    decreases |b|
  {
    if b == [] {
      assert a + b == a;
    } else {
      var b' := b[..|b| - 1];
      assert (a + b)[..|a + b| - 1] == a + b';
      StepsOfAppend(a, b');
    }
  }

  lemma TitlesOfOne(c: ParsedCase)
    ensures TitlesOf([c]) == if c.TestCase? then [c.title] else []
  {
    assert [c][..0] == [];
  }

  lemma StepsOfOne(c: ParsedCase)
    ensures StepsOf([c]) == if c.TestCase? then c.steps else []
  {
    assert [c][..0] == [];
  }

  /** One turn of the loop adds the title of a title line to the record
      titles and the text of a step line to the record steps, and nothing
      else. */
  lemma FeedRecords(st: ParseState, k: LineKind)
    requires Feed(st, k).Ok?
    ensures TitlesOf(Records(Feed(st, k).value)) == TitlesOf(Records(st)) + (if k.Title? then [k.title] else [])
    ensures StepsOf(Records(Feed(st, k).value)) == StepsOf(Records(st)) + (if k.Step? then [k.text] else [])
  {
    var st' := Feed(st, k).value;
    TitlesOfAppend(st.done, Flushed(st.current));
    TitlesOfAppend(st'.done, Flushed(st'.current));
    StepsOfAppend(st.done, Flushed(st.current));
    StepsOfAppend(st'.done, Flushed(st'.current));
    if st.current.Some? {
      TitlesOfOne(st.current.value);
      StepsOfOne(st.current.value);
    }
    if st'.current.Some? {
      TitlesOfOne(st'.current.value);
      StepsOfOne(st'.current.value);
    }
  }

  /** The records hold one title per title line, in document order: no record
      is dropped, none is invented; and every step line lands, in order, in
      exactly one record, and nothing else becomes a step. */
  lemma {:induction false} RecordsFollowLines(kinds: seq<LineKind>)
    requires Run(kinds).Ok?
    ensures TitlesOf(Records(Run(kinds).value)) == TitleLines(kinds)
    ensures StepsOf(Records(Run(kinds).value)) == StepLines(kinds)
  {
    if kinds != [] {
      var init := kinds[..|kinds| - 1];
      RecordsFollowLines(init);
      FeedRecords(Run(init).value, kinds[|kinds| - 1]);
    }
  }

  /** The parse fails exactly when a step line appears before the first title
      line; when it succeeds, the last record is a test case exactly when
      some title line was met. */
  lemma {:induction false} FailsIffOrphanStep(kinds: seq<LineKind>)
    ensures Run(kinds).Err? <==> OrphanStep(kinds)
    ensures Run(kinds).Ok? ==>
      (Run(kinds).value.current.Some? && Run(kinds).value.current.value.TestCase? <==> HasTitleLine(kinds))
  {
    if kinds != [] {
      var n := |kinds| - 1;
      var init := kinds[..n];
      FailsIffOrphanStep(init);
      HasTitleLineSnoc(init, kinds[n]);
      OrphanStepSnoc(init, kinds[n]);
      assert init + [kinds[n]] == kinds;
    }
  }

  lemma HasTitleLineSnoc(init: seq<LineKind>, k: LineKind)
    ensures HasTitleLine(init + [k]) <==> HasTitleLine(init) || k.Title?
  {
    if HasTitleLine(init) {
      var j :| 0 <= j < |init| && init[j].Title?;
      assert (init + [k])[j] == init[j];
    }
    if k.Title? {
      assert (init + [k])[|init|] == k;
    }
  }

  lemma OrphanStepSnoc(init: seq<LineKind>, k: LineKind)
    ensures OrphanStep(init + [k]) <==> OrphanStep(init) || (k.Step? && !HasTitleLine(init))
  {
    var ks := init + [k];
    assert ks[..|init|] == init;
    if OrphanStep(init) {
      var i :| 0 <= i < |init| && init[i].Step? && !HasTitleLine(init[..i]);
      assert ks[i] == init[i] && ks[..i] == init[..i];
    }
    if OrphanStep(ks) {
      var i :| 0 <= i < |ks| && ks[i].Step? && !HasTitleLine(ks[..i]);
      if i < |init| {
        assert ks[i] == init[i] && ks[..i] == init[..i];
      }
    }
  }

  /** A section without any non-blank line yields no record. */
  lemma {:induction false} BlankInputNoRecords(kinds: seq<LineKind>)
    requires forall i :: 0 <= i < |kinds| ==> kinds[i].Blank?
    ensures Run(kinds) == Ok(ParseState([], None))
  {
    if kinds != [] {
      BlankInputNoRecords(kinds[..|kinds| - 1]);
    }
  }

  /** Whitespace-only input parses to the empty list. */
  lemma BlankLinesParseEmpty(lines: seq<string>, titlePrefix: string)
    requires forall i :: 0 <= i < |lines| ==> Strip(lines[i]) == []
    ensures ParseLines(lines, titlePrefix) == Ok([])
  {
    var kinds := ClassifyAll(lines, titlePrefix);
    forall i | 0 <= i < |kinds|
      ensures kinds[i].Blank?
    {
      ClassifyAllAt(lines, titlePrefix, i);
    }
    BlankInputNoRecords(kinds);
    assert Records(ParseState([], None)) == [];
  }
  // ----- which record owns which line -----

  /** The text of the last `[tags]` line, if any: a later one overwrites an
      earlier one. */
  function LastTags(kinds: seq<LineKind>): Option<string> {
    if kinds == [] then None
    else if kinds[|kinds| - 1].TagLine? then Some(kinds[|kinds| - 1].tags)
    else LastTags(kinds[..|kinds| - 1])
  }

  /** The Tags of a record whose span is `kinds`: `""` when the span holds no
      `[tags]` line. */
  function SpanTags(kinds: seq<LineKind>): string {
    match LastTags(kinds)
    case None => ""
    case Some(g) => g
  }

  predicate NoTitle(kinds: seq<LineKind>) {
    forall j :: 0 <= j < |kinds| ==> !kinds[j].Title?
  }

  /** The records `st` stands for, with `lead` placed in front of its
      finished ones. */
  function After(lead: seq<ParsedCase>, r: Result<ParseState, ParseError>): Result<ParseState, ParseError> {
    match r
    case Err(e) => Err(e)
    case Ok(st) => Ok(ParseState(lead + st.done, st.current))
  }

  lemma FeedAfter(lead: seq<ParsedCase>, st: ParseState, k: LineKind)
    ensures Feed(ParseState(lead + st.done, st.current), k) == After(lead, Feed(st, k))
  {
    if k.Title? {
      assert lead + st.done + Flushed(st.current) == lead + (st.done + Flushed(st.current));
    }
  }

  /** A title line starts afresh: the records before it are finished, and
      the lines from it on are parsed as if they were the whole section. */
  lemma {:induction false} CutAtTitle(kinds: seq<LineKind>, p: nat)
    requires p < |kinds| && kinds[p].Title? && Run(kinds[..p]).Ok?
    ensures Run(kinds) == After(Records(Run(kinds[..p]).value), Run(kinds[p..]))
    decreases |kinds|
  {
    var lead := Records(Run(kinds[..p]).value);
    var n := |kinds| - 1;
    if n == p {
      var start := Some(TestCase(kinds[p].title, "", []));
      assert kinds[..n] == kinds[..p];
      assert Run(kinds) == Ok(ParseState(lead, start));
      assert kinds[p..] == [kinds[p]];
      assert [kinds[p]][..0] == [];
      assert Run([kinds[p]]) == Feed(ParseState([], None), kinds[p]);
      assert Records(ParseState([], None)) == [];
      assert lead + [] == lead;
    } else {
      var init := kinds[..n];
      assert init[..p] == kinds[..p];
      assert init[p..] == kinds[p..][..|kinds[p..]| - 1];
      assert kinds[p..][|kinds[p..]| - 1] == kinds[n];
      CutAtTitle(init, p);
      match Run(kinds[p..][..|kinds[p..]| - 1])
      case Err(e) =>
      case Ok(st) =>
        FeedAfter(lead, st, kinds[n]);
    }
  }

  /** A title line followed by no other title line makes exactly one record:
      that title, the text of the last `[tags]` line after it (or `""`),
      and the step lines after it, in order. */
  lemma {:induction false} TitleSpan(t: string, rest: seq<LineKind>)
    requires NoTitle(rest)
    ensures Run([Title(t)] + rest) == Ok(ParseState([], Some(TestCase(t, SpanTags(rest), StepLines(rest)))))
    decreases |rest|
  {
    var kinds := [Title(t)] + rest;
    if rest == [] {
      assert kinds[..0] == [];
      assert Records(ParseState([], None)) == [];
      assert Run(kinds) == Feed(ParseState([], None), Title(t));
      assert SpanTags(rest) == "" && StepLines(rest) == [];
    } else {
      var init := rest[..|rest| - 1];
      assert kinds[..|kinds| - 1] == [Title(t)] + init;
      var k := rest[|rest| - 1];
      assert kinds[|kinds| - 1] == k && !k.Title?;
      TitleSpan(t, init);
      assert rest[..|rest| - 1] == init;
      var c := TestCase(t, SpanTags(init), StepLines(init));
      assert Run(kinds) == Feed(ParseState([], Some(c)), k);
      assert StepLines(rest) == StepLines(init) + (if k.Step? then [k.text] else []);
      if k.TagLine? {
        assert SpanTags(rest) == k.tags;
        assert StepLines(rest) == StepLines(init);
      } else if k.Step? {
        assert SpanTags(rest) == SpanTags(init);
        assert Feed(ParseState([], Some(c)), k) == Ok(ParseState([], Some(c.(steps := c.steps + [k.text]))));
      } else {
        assert SpanTags(rest) == SpanTags(init);
        assert StepLines(rest) == StepLines(init);
      }
    }
  }

  /** Before the first title line only `[tags]` lines and blank lines can
      come; they leave one Tags-only record when a `[tags]` line is among
      them, and none otherwise. */
  lemma {:induction false} LeadSpan(kinds: seq<LineKind>)
    requires NoTitle(kinds) && Run(kinds).Ok?
    ensures Run(kinds).value == ParseState([], match LastTags(kinds) case None => None case Some(g) => Some(TagsOnly(g)))
    ensures StepLines(kinds) == []
  {
    if kinds != [] {
      var init := kinds[..|kinds| - 1];
      LeadSpan(init);
    }
  }

  /** The record of the title line at `p`, whose span runs to the next title
      line `q` (or to the end): its title, the Tags of the last `[tags]`
      line of the span (or `""`), and the span's step lines in order. It
      comes right after the records of the lines before `p`. */
  lemma RecordOfTitle(kinds: seq<LineKind>, p: nat, q: nat)
    requires p < q <= |kinds| && kinds[p].Title? && Run(kinds).Ok?
    requires q == |kinds| || kinds[q].Title?
    requires NoTitle(kinds[p + 1..q])
    ensures Run(kinds[..p]).Ok?
    ensures var k := |Records(Run(kinds[..p]).value)|;
      k < |Records(Run(kinds).value)|
      && Records(Run(kinds).value)[k]
         == TestCase(kinds[p].title, SpanTags(kinds[p + 1..q]), StepLines(kinds[p + 1..q]))
  {
    PrefixOk(kinds, p);
    PrefixOk(kinds, q);
    var lead := Records(Run(kinds[..p]).value);
    var upto := kinds[..q];
    assert upto[..p] == kinds[..p];
    CutAtTitle(upto, p);
    assert upto[p..] == [kinds[p]] + kinds[p + 1..q];
    TitleSpan(kinds[p].title, kinds[p + 1..q]);
    var c := TestCase(kinds[p].title, SpanTags(kinds[p + 1..q]), StepLines(kinds[p + 1..q]));
    assert Records(Run(upto).value) == lead + [c];
    if q < |kinds| {
      CutAtTitle(kinds, q);
      var later := Run(kinds[q..]).value;
      assert Records(Run(kinds).value) == lead + [c] + Records(later);
      assert (lead + [c] + Records(later))[|lead|] == c;
    } else {
      assert upto == kinds;
    }
  }

  /** A parse that succeeds succeeds on every prefix of the lines. */
  lemma PrefixOk(kinds: seq<LineKind>, j: nat)
    requires j <= |kinds| && Run(kinds).Ok?
    ensures Run(kinds[..j]).Ok?
  {
    if Run(kinds[..j]).Err? {
      RunErrSticks(kinds, j);
    }
  }
  /** Some `[tags]` line comes before every title line. */
  predicate LeadTags(kinds: seq<LineKind>) {
    exists j :: 0 <= j < |kinds| && kinds[j].TagLine? && !HasTitleLine(kinds[..j])
  }

  lemma LeadTagsSnoc(init: seq<LineKind>, k: LineKind)
    ensures LeadTags(init + [k]) <==> LeadTags(init) || (k.TagLine? && !HasTitleLine(init))
  {
    var ks := init + [k];
    assert ks[..|init|] == init;
    if LeadTags(init) {
      var j :| 0 <= j < |init| && init[j].TagLine? && !HasTitleLine(init[..j]);
      assert ks[j] == init[j] && ks[..j] == init[..j];
    }
    if LeadTags(ks) {
      var j :| 0 <= j < |ks| && ks[j].TagLine? && !HasTitleLine(ks[..j]);
      if j < |init| {
        assert ks[j] == init[j] && ks[..j] == init[..j];
      }
    }
  }

  /** One record per title line, plus the Tags-only record in front when a
      `[tags]` line comes before every title line; so the record of the
      i-th title line is record i, or i + 1 after a Tags-only record. */
  lemma {:induction false} RecordCount(kinds: seq<LineKind>)
    requires Run(kinds).Ok?
    ensures |Records(Run(kinds).value)| == |TitleLines(kinds)| + (if LeadTags(kinds) then 1 else 0)
    ensures Run(kinds).value.current.None? <==> !HasTitleLine(kinds) && !LeadTags(kinds)
  {
    if kinds == [] {
      assert Records(ParseState([], None)) == [];
    } else {
      var n := |kinds| - 1;
      var init := kinds[..n];
      var k := kinds[n];
      assert init + [k] == kinds;
      RecordCount(init);
      HasTitleLineSnoc(init, k);
      LeadTagsSnoc(init, k);
      var st := Run(init).value;
      assert |Records(st)| == |st.done| + (if st.current.Some? then 1 else 0);
    }
  }
}
