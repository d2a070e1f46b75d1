/** The rich-text step blob of an Azure DevOps test case: how the push side
    writes it (`TestStep.to_dict`, `build_steps_xml`) and how the pull side
    reads the actions back out of it (the step pattern and the cleaning
    loop of `create_robot_content`). */
module StepsCodec {
  import opened Wrappers
  import opened TextOps

  /** A step as pushed: its action line and its description, which the
      caller sets to the step's position counted from 1. */
  datatype TestStep = TestStep(action: string, description: nat)

  /** `transform_steps`: one step per action line, numbered from 1. */
  method TransformSteps(steps: seq<string>) returns (transformed: seq<TestStep>)
    ensures |transformed| == |steps|
    ensures forall i :: 0 <= i < |steps| ==> transformed[i] == TestStep(steps[i], i + 1)
  {
    transformed := [];
    var i := 0;
    while i < |steps|
      invariant 0 <= i <= |steps|
      invariant |transformed| == i
      invariant forall j :: 0 <= j < i ==> transformed[j] == TestStep(steps[j], j + 1)
    {
      transformed := transformed + [TestStep(steps[i], i + 1)];
      i := i + 1;
    }
  }

  /** The action lines of a list of steps. */
  function Actions(steps: seq<TestStep>): (r: seq<string>)
    ensures |r| == |steps|
    ensures forall i :: 0 <= i < |steps| ==> r[i] == steps[i].action
  {
    if steps == [] then [] else [steps[0].action] + Actions(steps[1..])
  }

  /** `TestStep.to_dict(step_id)`: the step in Azure DevOps' format. */
  datatype StepDict = StepDict(id: nat, stepType: string, action: string, expectedResult: string, description: string)

  const ActionStepType: string := "ActionStep"

  /** The escaped action markup inside the action's parameterized string. */
  function ActionBody(action: string): string {
    "&lt;P&gt;" + action + "&lt;BR/&gt;&lt;/P&gt;"
  }

  /** The escaped markup of the fixed, empty expected result. */
  const EmptyResultBody: string := "&lt;DIV&gt;" + "&lt;P&gt;" + "&lt;BR/&gt;" + "&lt;/P&gt;" + "&lt;/DIV&gt;"

  const ParamOpen: string := "<parameterizedString" + " isformatted=\"true\">"
  const ParamClose: string := "</parameterizedString>"

  function Parameterized(body: string): string {
    ParamOpen + body + ParamClose
  }

  function ToDict(step: TestStep, stepId: nat): StepDict {
    StepDict(stepId, ActionStepType, Parameterized(ActionBody(step.action)),
             Parameterized(EmptyResultBody), NatToString(step.description))
  }

  /** One `<step>` element of the blob. */
  function StepElement(stepId: nat, d: StepDict): string {
    "<step id=\"" + NatToString(stepId) + "\" type=\"" + d.stepType + "\">"
      + d.action + d.expectedResult + "<description/></step>"
  }

  /** The steps from `first` on, each numbered by its position. */
  function StepElements(steps: seq<TestStep>, first: nat): string
    decreases |steps|
  {
    if steps == [] then ""
    else StepElement(first, ToDict(steps[0], first)) + StepElements(steps[1..], first + 1)
  }

  function StepsOpen(count: nat): string {
    "<steps id=\"0\" last=\"" + NatToString(count) + "\">"
  }

  const StepsClose: string := "</steps>"

  /** `build_steps_xml`: the steps numbered from 1 inside a `<steps>`
      element whose `last` is their count. */
  function BuildStepsXml(steps: seq<TestStep>): string {
    StepsOpen(|steps|) + StepElements(steps, 1) + StepsClose
  }

  // ----- reading the blob back -----

  const StepOpen: string := "<step id=\""
  const TypeOpen: string := "\" type=\""
  const ActionOpen: string := "\">" + ParamOpen
  const ActionClose: string := ParamClose + ParamOpen
  const StepEnd: string := ParamClose + "<description/></step>"

  /** The three lazy groups of the step pattern, matched at the start of
      `u`: `.*?` up to the first `ActionOpen`, the action up to the first
      `ActionClose` after it, the expected result up to the first `StepEnd`
      after that; then what follows the match. A later choice for any lazy group would only push the
      following searches further right, so when the first choices fail
      every choice fails. */
  function LazyGroups(u: string): (r: Option<(string, string, string)>)
    ensures r.Some? ==> |r.value.2| < |u|
  {
    match Partition(u, ActionOpen)
    case None => None
    case Some((_, v)) =>
      match Partition(v, ActionClose)
      case None => None
      case Some((g1, w)) =>
        match Partition(w, StepEnd)
        case None => None
        case Some((g2, rest)) => Some((g1, g2, rest))
  }

  /** The step pattern of `create_robot_content`, matched at the start of
      `s`: the action group, the expected-result group and the text after
      the match. The greedy digit run never gives anything back, since a digit
      cannot start `TypeOpen`. */
  function StepMatch(s: string): (r: Option<(string, string, string)>)
    ensures r.Some? ==> |r.value.2| < |s|
  {
    if s == [] || s[0] != '<' || !StartsWith(s, StepOpen) then None
    else StepIdMatch(s[|StepOpen|..])
  }

  /** The rest of the step pattern after `<step id="`: a digit run, the
      type attribute's opening quote, then the lazy groups. */
  function StepIdMatch(t: string): (r: Option<(string, string, string)>)
    ensures r.Some? ==> |r.value.2| < |t|
  {
    var d := SkipDigits(t, 0);
    if d == 0 || !StartsWith(t[d..], TypeOpen) then None
    else LazyGroups(t[d + |TypeOpen|..])
  }

  /** `re.findall` of the step pattern: the (action, expected result) pairs
      in blob order. */
  function StepMatches(s: string): seq<(string, string)>
    decreases |s|
  {
    if s == [] then []
    else
      match StepMatch(s)
      case None => StepMatches(s[1..])
      case Some((g1, g2, rest)) => [(g1, g2)] + StepMatches(rest)
  }

  /** `re.sub("<[^<]+?>", "", s)`: a `<`, at least one character other than
      `<`, and the nearest `>` after it are removed together. */
  function RemoveMarkup(s: string): string
    decreases |s|
  {
    if s == [] then []
    else if s[0] == '<' && 2 <= |s| && s[1] != '<' then
      match CloseBefore(s, 2, '<')
      case Some(m) => RemoveMarkup(s[m + 1..])
      case None => [s[0]] + RemoveMarkup(s[1..])
    else [s[0]] + RemoveMarkup(s[1..])
  }

  /** `html.unescape`, restricted to the four entities `&lt;`, `&gt;`,
      `&amp;` and `&quot;`; each is replaced in one left-to-right pass. */
  function Unescape(s: string): string
    decreases |s|
  {
    if s == [] then []
    else if s[0] == '&' && StartsWith(s, "&lt;") then "<" + Unescape(s[4..])
    else if s[0] == '&' && StartsWith(s, "&gt;") then ">" + Unescape(s[4..])
    else if s[0] == '&' && StartsWith(s, "&amp;") then "&" + Unescape(s[5..])
    else if s[0] == '&' && StartsWith(s, "&quot;") then "\"" + Unescape(s[6..])
    else [s[0]] + Unescape(s[1..])
  }

  /** The paragraph, division and line-break tags removed in turn. */
  function RemoveTags(x: string): string {
    var x1 := ReplaceAll(ReplaceAll(x, "<P>", ""), "</P>", "");
    var x2 := ReplaceAll(ReplaceAll(x1, "<DIV>", ""), "</DIV>", "");
    ReplaceAll(ReplaceAll(x2, "<BR>", ""), "<BR/>", "")
  }

  /** The cleaning of one matched action: strip, drop markup, unescape, then
      remove the paragraph, division and line-break tags in turn. */
  function Clean(step: string): string {
    RemoveTags(Unescape(RemoveMarkup(Strip(step))))
  }

  /** The cleaned action of every matched step; the expected results are
      dropped. */
  function Cleaned(ms: seq<(string, string)>): seq<string> {
    MapFirst(Clean, ms)
  }

  /** `f` applied to the first component of each pair, in order. */
  function MapFirst(f: string -> string, ms: seq<(string, string)>): (r: seq<string>)
    ensures |r| == |ms|
  {
    if ms == [] then [] else MapFirst(f, ms[..|ms| - 1]) + [f(ms[|ms| - 1].0)]
  }

  /** The non-empty strings of `xs`, in order. */
  function NonEmpty(xs: seq<string>): (r: seq<string>)
    ensures |r| <= |xs|
    ensures forall a :: a in r ==> a != [] && a in xs
    ensures forall a :: a in xs && a != [] ==> a in r
  {
    if xs == [] then []
    else
      var init := NonEmpty(xs[..|xs| - 1]);
      var x := xs[|xs| - 1];
      if x == [] then init else init + [x]
  }

  /** The actions the pull side recovers from a steps blob: the cleaned
      actions that do not come out empty. */
  function DecodeSteps(stepsRaw: string): seq<string> {
    NonEmpty(Cleaned(StepMatches(stepsRaw)))
  }

  /** A Robot step line: four spaces, the step, a newline. */
  function StepLine(step: string): string {
    "    " + step + "\n"
  }

  function IndentedSteps(steps: seq<string>): string {
    if steps == [] then "" else IndentedSteps(steps[..|steps| - 1]) + StepLine(steps[|steps| - 1])
  }

  /** The step loop of `create_robot_content`: every matched action is
      cleaned, and the non-empty ones are appended as indented lines. */
  method AppendSteps(content: string, stepsRaw: string) returns (r: string)
    ensures r == content + IndentedSteps(DecodeSteps(stepsRaw))
  {
    var matches := StepMatches(stepsRaw);
    r := content;
    var i := 0;
    while i < |matches|
      invariant 0 <= i <= |matches|
      invariant r == content + IndentedSteps(NonEmpty(Cleaned(matches[..i])))
    {
      var step := matches[i].0;
      var cleaned := Clean(step);
      AppendOne(Clean, content, matches, i, r);
      if cleaned != [] {
        r := r + StepLine(cleaned);
      }
      i := i + 1;
    }
    assert matches[..i] == matches;
  }

  /** One turn of the step loop, for any cleaning function `f`. */
  lemma AppendOne(f: string -> string, content: string, ms: seq<(string, string)>, i: nat, r: string)
    requires i < |ms| && r == content + IndentedSteps(NonEmpty(MapFirst(f, ms[..i])))
    ensures f(ms[i].0) == [] ==> r == content + IndentedSteps(NonEmpty(MapFirst(f, ms[..i + 1])))
    ensures f(ms[i].0) != [] ==> r + StepLine(f(ms[i].0)) == content + IndentedSteps(NonEmpty(MapFirst(f, ms[..i + 1])))
  {
    var c := f(ms[i].0);
    var cs := MapFirst(f, ms[..i]);
    MapFirstSnoc(f, ms, i);
    NonEmptySnoc(cs, c);
    IndentedStepsSnoc(NonEmpty(cs), c);
  }

  lemma MapFirstSnoc(f: string -> string, ms: seq<(string, string)>, i: nat)
    requires i < |ms|
    ensures MapFirst(f, ms[..i + 1]) == MapFirst(f, ms[..i]) + [f(ms[i].0)]
  {
    assert ms[..i + 1][..i] == ms[..i];
  }

  /** One more string is kept exactly when it is not empty. */
  lemma NonEmptySnoc(cs: seq<string>, c: string)
    ensures c == [] ==> NonEmpty(cs + [c]) == NonEmpty(cs)
    ensures c != [] ==> NonEmpty(cs + [c]) == NonEmpty(cs) + [c]
  {
    assert (cs + [c])[..|cs|] == cs;
  }

  /** The filter works element by element: what is kept of a concatenation
      is what is kept of each part, in order, repeats included. */
  lemma {:induction false} NonEmptyConcat(a: seq<string>, b: seq<string>)
    ensures NonEmpty(a + b) == NonEmpty(a) + NonEmpty(b)
    decreases |b|
  {
    if b == [] {
      assert a + b == a;
    } else {
      var b' := b[..|b| - 1];
      var c := b[|b| - 1];
      assert a + b == (a + b') + [c];
      assert b == b' + [c];
      NonEmptyConcat(a, b');
      NonEmptySnoc(a + b', c);
      NonEmptySnoc(b', c);
    }
  }

  /** Every non-empty string is kept, as often as it occurs. */
  lemma {:induction false} NonEmptyCount(xs: seq<string>, x: string)
    requires x != []
    ensures multiset(NonEmpty(xs))[x] == multiset(xs)[x]
    ensures multiset(NonEmpty(xs))[[]] == 0
  {
    if xs != [] {
      var init := xs[..|xs| - 1];
      var c := xs[|xs| - 1];
      assert init + [c] == xs;
      NonEmptyCount(init, x);
      NonEmptySnoc(init, c);
    }
  }

  lemma IndentedStepsSnoc(steps: seq<string>, step: string)
    ensures IndentedSteps(steps + [step]) == IndentedSteps(steps) + StepLine(step)
  {
    assert (steps + [step])[..|steps|] == steps;
  }

  // ----- properties -----

  /** An empty step list gives an empty `<steps>` element. */
  lemma BuildStepsXmlEmpty()
    ensures BuildStepsXml([]) == "<steps id=\"0\" last=\"0\"></steps>"
  {
    assert NatToString(0) == "0";
  }

  lemma DelimiterHeads()
    ensures StepOpen[0] == '<' && TypeOpen[0] == '"'
    ensures ActionOpen[0] == '"' && ActionClose[0] == '<' && StepEnd[0] == '<'
  {
  }

  lemma StartsWithConcat(p: string, rest: string, s: string)
    requires s == p + rest
    ensures StartsWith(s, p) && s[|p|..] == rest
  {
    assert s[..|p|] == p;
  }

  /** The lazy groups stop at the delimiters that follow them, as long as
      the text before each delimiter does not start it. */
  lemma LazyGroupsOf(typ: string, g1: string, g2: string, rest: string, r2: string, r1: string, u: string)
    requires '"' !in typ && '<' !in g1 && '<' !in g2
    requires r2 == g2 + StepEnd + rest
    requires r1 == g1 + ActionClose + r2
    requires u == typ + ActionOpen + r1
    ensures LazyGroups(u) == Some((g1, g2, rest))
  {
    DelimiterHeads();
    PartitionLead(typ, ActionOpen, r1, u);
    PartitionLead(g1, ActionClose, r2, r1);
    PartitionLead(g2, StepEnd, rest, r2);
  }

  /** How the step pattern reads one element: the digit run, then the lazy
      groups on what follows the type's opening quote. */
  lemma StepMatchOf(digits: string, u: string, t: string, s: string, g1: string, g2: string, rest: string)
    requires digits != [] && AllDigits(digits)
    requires t == digits + TypeOpen + u
    requires s == StepOpen + t
    requires LazyGroups(u) == Some((g1, g2, rest))
    ensures StepMatch(s) == Some((g1, g2, rest))
  {
    StepMatchOpen(s, t);
    StepIdMatchOf(digits, u, t);
  }

  lemma StepMatchOpen(s: string, t: string)
    requires s == StepOpen + t
    ensures StepMatch(s) == StepIdMatch(t)
  {
    DelimiterHeads();
    StartsWithConcat(StepOpen, t, s);
  }

  lemma StepIdMatchOf(digits: string, u: string, t: string)
    requires digits != [] && AllDigits(digits)
    requires t == digits + TypeOpen + u
    ensures StepIdMatch(t) == LazyGroups(u)
  {
    DelimiterHeads();
    assert t[|digits|] == '"';
    SkipDigitsTo(t, 0, |digits|);
    StartsWithConcat(TypeOpen, u, t[|digits|..]);
    assert t[|digits| + |TypeOpen|..] == u;
  }

  /** A `<step>` element as `build_steps_xml` writes it, cut at the
      delimiters of the step pattern. */
  lemma StepElementPieces(stepId: nat, st: TestStep)
    ensures StepElement(stepId, ToDict(st, stepId))
         == StepOpen + NatToString(stepId) + TypeOpen + ActionStepType + ActionOpen
            + ActionBody(st.action) + ActionClose + EmptyResultBody + StepEnd
  {
  }

  /** The step pattern cannot start at a character other than `<`. */
  lemma StepMatchNotOpen(s: string)
    requires s != [] && s[0] != '<'
    ensures StepMatch(s) == None
  {
    assert StepOpen[0] == '<';
  }

  lemma StepMatchesSkip(s: string)
    requires s != [] && StepMatch(s) == None
    ensures StepMatches(s) == StepMatches(s[1..])
  {
  }

  lemma {:induction false} StepMatchesNoOpen(x: string, rest: string)
    requires '<' !in x
    ensures StepMatches(x + rest) == StepMatches(rest)
  {
    if x != [] {
      var s := x + rest;
      assert s[0] == x[0];
      StepMatchNotOpen(s);
      StepMatchesSkip(s);
      assert s[1..] == x[1..] + rest;
      StepMatchesNoOpen(x[1..], rest);
    } else {
      assert x + rest == rest;
    }
  }

  /** The (action, expected result) groups a blob written from `steps`
      yields, one per step. */
  function Wrapped(steps: seq<TestStep>): (r: seq<(string, string)>)
    ensures |r| == |steps|
  {
    if steps == [] then [] else [(ActionBody(steps[0].action), EmptyResultBody)] + Wrapped(steps[1..])
  }

  lemma StepMatchesCons(s: string, g1: string, g2: string, rest: string)
    requires StepMatch(s) == Some((g1, g2, rest))
    ensures StepMatches(s) == [(g1, g2)] + StepMatches(rest)
  {
  }

  lemma MarkupPlain(action: string)
    requires '<' !in action
    ensures '<' !in ActionBody(action) && '<' !in EmptyResultBody && '"' !in ActionStepType
  {
  }

  lemma Regroup(a: string, b: string, c: string, d: string)
    ensures a + b + c + d == a + (b + c + d)
  {
  }

  lemma StepMatchesPieces(digits: string, typ: string, g1: string, g2: string, rest: string, s: string)
    requires digits != [] && AllDigits(digits)
    requires '"' !in typ && '<' !in g1 && '<' !in g2
    requires s == StepOpen + digits + TypeOpen + typ + ActionOpen + g1 + ActionClose + g2 + StepEnd + rest
    ensures StepMatches(s) == [(g1, g2)] + StepMatches(rest)
  {
    var r2 := g2 + StepEnd + rest;
    var r1 := g1 + ActionClose + r2;
    var u := typ + ActionOpen + r1;
    var t := digits + TypeOpen + u;
    assert s == StepOpen + t by {
      var y2 := StepOpen + digits + TypeOpen;
      var y1 := y2 + typ + ActionOpen;
      var y0 := y1 + g1 + ActionClose;
      Regroup(y0, g2, StepEnd, rest);
      Regroup(y1, g1, ActionClose, r2);
      Regroup(y2, typ, ActionOpen, r1);
      Regroup(StepOpen, digits, TypeOpen, u);
    }
    LazyGroupsOf(typ, g1, g2, rest, r2, r1, u);
    StepMatchOf(digits, u, t, s, g1, g2, rest);
    StepMatchesCons(s, g1, g2, rest);
  }

  lemma StepMatchesElement(stepId: nat, st: TestStep, rest: string)
    requires '<' !in st.action
    ensures StepMatches(StepElement(stepId, ToDict(st, stepId)) + rest)
         == [(ActionBody(st.action), EmptyResultBody)] + StepMatches(rest)
  {
    StepElementPieces(stepId, st);
    MarkupPlain(st.action);
    StepMatchesPieces(NatToString(stepId), ActionStepType, ActionBody(st.action), EmptyResultBody, rest,
                      StepElement(stepId, ToDict(st, stepId)) + rest);
  }

  lemma StepElementsCons(steps: seq<TestStep>, first: nat, rest: string)
    requires steps != []
    ensures StepElements(steps, first) + rest
         == StepElement(first, ToDict(steps[0], first)) + (StepElements(steps[1..], first + 1) + rest)
  {
    AppendAssoc(StepElement(first, ToDict(steps[0], first)), StepElements(steps[1..], first + 1), rest);
  }

  lemma ConsChain<T>(whole: seq<T>, g: T, tail: seq<T>, w: seq<T>, wrapped: seq<T>)
    requires whole == [g] + tail && tail == w && wrapped == [g] + w
    ensures whole == wrapped
  {
  }

  /** The step elements numbered from `first`, followed by the closing
      `</steps>` tag, yield one match per step and nothing else. */
  lemma {:induction false} StepMatchesElements(steps: seq<TestStep>, first: nat)
    requires forall i :: 0 <= i < |steps| ==> '<' !in steps[i].action
    ensures StepMatches(StepElements(steps, first) + StepsClose) == Wrapped(steps)
    decreases |steps|
  {
    if steps == [] {
      assert StepElements(steps, first) + StepsClose == StepsClose;
      StepMatchesStepsClose();
    } else {
      var tail := StepElements(steps[1..], first + 1);
      var g := (ActionBody(steps[0].action), EmptyResultBody);
      assert StepMatches(StepElements(steps, first) + StepsClose) == [g] + StepMatches(tail + StepsClose) by {
        StepElementsCons(steps, first, StepsClose);
        StepMatchesElement(first, steps[0], tail + StepsClose);
      }
      StepMatchesElements(steps[1..], first + 1);
      ConsChain(StepMatches(StepElements(steps, first) + StepsClose), g, StepMatches(tail + StepsClose),
                Wrapped(steps[1..]), Wrapped(steps));
    }
  }

  lemma DigitsPlain(n: string)
    requires AllDigits(n)
    ensures '<' !in n
  {
  }

  /** The opening `<steps>` tag starts no match. */
  lemma StepMatchesStepsOpen(count: nat, rest: string)
    ensures StepMatches(StepsOpen(count) + rest) == StepMatches(rest)
  {
    var n := NatToString(count);
    var head := "steps id=\"0\" last=\"";
    var tail := head + n + "\">";
    var s := StepsOpen(count) + rest;
    assert s == ['<'] + (tail + rest) by {
      assert StepsOpen(count) == ['<'] + tail;
    }
    assert StepMatch(s) == None by {
      assert s[5] == head[4] == 's';
      assert StepOpen[5] == ' ';
      NotStartsWithAt(s, StepOpen, 5);
    }
    assert StepMatches(s) == StepMatches(tail + rest) by {
      StepMatchesSkip(s);
      assert s[1..] == tail + rest;
    }
    assert '<' !in tail by {
      DigitsPlain(n);
      assert '<' !in head;
    }
    StepMatchesNoOpen(tail, rest);
  }

  lemma StepMatchesStepsClose()
    ensures StepMatches(StepsClose) == []
  {
    var tail := "/steps>";
    assert StepsClose == ['<'] + tail;
    assert StepMatch(StepsClose) == None by {
      NotStartsWithAt(StepsClose, StepOpen, 1);
    }
    StepMatchesSkip(StepsClose);
    assert tail + [] == tail;
    StepMatchesNoOpen(tail, []);
  }

  /** The pattern finds exactly one match per step of a built blob, in step
      order, holding the wrapped action and the empty expected result. */
  lemma StepMatchesOfBlob(steps: seq<TestStep>)
    requires forall i :: 0 <= i < |steps| ==> '<' !in steps[i].action
    ensures StepMatches(BuildStepsXml(steps)) == Wrapped(steps)
  {
    StepMatchesSkipsOpen(steps);
    StepMatchesElements(steps, 1);
  }

  lemma StepMatchesSkipsOpen(steps: seq<TestStep>)
    ensures StepMatches(BuildStepsXml(steps)) == StepMatches(StepElements(steps, 1) + StepsClose)
  {
    var body := StepElements(steps, 1);
    AppendAssoc(StepsOpen(|steps|), body, StepsClose);
    StepMatchesStepsOpen(|steps|, body + StepsClose);
  }

  lemma {:induction false} RemoveMarkupPlain(s: string)
    requires '<' !in s
    ensures RemoveMarkup(s) == s
    decreases |s|
  {
    if s != [] {
      assert s[0] != '<';
      RemoveMarkupPlain(s[1..]);
    }
  }

  lemma {:induction false} UnescapePlain(x: string, y: string)
    requires '&' !in x
    ensures Unescape(x + y) == x + Unescape(y)
    decreases |x|
  {
    if x != [] {
      var s := x + y;
      assert s[0] == x[0] && s[0] != '&';
      assert s[1..] == x[1..] + y;
      UnescapePlain(x[1..], y);
    } else {
      assert x + y == y;
    }
  }

  lemma UnescapeLt(y: string)
    ensures Unescape("&lt;" + y) == "<" + Unescape(y)
  {
    StartsWithConcat("&lt;", y, "&lt;" + y);
  }

  lemma UnescapeGt(y: string)
    ensures Unescape("&gt;" + y) == ">" + Unescape(y)
  {
    var s := "&gt;" + y;
    StartsWithConcat("&gt;", y, s);
    assert !StartsWith(s, "&lt;") by {
      assert s[1] == 'g';
    }
  }

  lemma UnescapeParagraphClose()
    ensures Unescape("&lt;/P&gt;") == "</P>"
  {
    var y4 := "/P" + "&gt;";
    assert "&lt;/P&gt;" == "&lt;" + y4;
    assert Unescape(y4) == "/P>" by {
      assert "&gt;" == "&gt;" + "";
      UnescapeGt("");
      UnescapePlain("/P", "&gt;");
    }
    UnescapeLt(y4);
  }

  lemma UnescapeBreakClose()
    ensures Unescape("&lt;BR/&gt;&lt;/P&gt;") == "<BR/></P>"
  {
    var y2 := "&gt;" + "&lt;/P&gt;";
    var y1 := "BR/" + y2;
    assert Unescape(y1) == "BR/" + (">" + "</P>") by {
      UnescapeParagraphClose();
      UnescapeGt("&lt;/P&gt;");
      UnescapePlain("BR/", y2);
    }
    assert Unescape("&lt;" + y1) == "<" + ("BR/" + (">" + "</P>")) by {
      UnescapeLt(y1);
    }
    assert "&lt;BR/&gt;&lt;/P&gt;" == "&lt;" + y1;
    BreakCloseJoined();
  }

  lemma BreakCloseJoined()
    ensures "<" + ("BR/" + (">" + "</P>")) == "<BR/></P>"
  {
  }

  /** Unescaping the action markup gives the action between a paragraph
      tag and a line break closing the paragraph. */
  lemma UnescapeActionBody(action: string)
    requires '&' !in action
    ensures Unescape(ActionBody(action)) == "<P>" + action + "<BR/></P>"
  {
    var tail := "&lt;BR/&gt;&lt;/P&gt;";
    assert ActionBody(action) == "&lt;" + ("P" + ("&gt;" + (action + tail)));
    UnescapeLt("P" + ("&gt;" + (action + tail)));
    UnescapePlain("P", "&gt;" + (action + tail));
    UnescapeGt(action + tail);
    UnescapePlain(action, tail);
    UnescapeBreakClose();
  }

  lemma KeepsBreakClose()
    ensures ReplaceAll("<BR/></P>", "<P>", "") == "<BR/></P>"
  {
    var t := "/P>";
    assert ReplaceAll("</P>", "<P>", "") == "</P>" by {
      assert "</P>" == ['<'] + t;
      NotStartsWithAt("</P>", "<P>", 1);
      ReplaceAllMiss('<', t, "<P>", "");
      ReplaceAllAbsent(t, "<P>", "");
    }
    var u := "BR/>" + "</P>";
    assert ReplaceAll(u, "<P>", "") == u by {
      ReplaceAllConcat("BR/>", "</P>", "<P>", "");
    }
    assert ReplaceAll(['<'] + u, "<P>", "") == ['<'] + u by {
      assert (['<'] + u)[1] == 'B';
      NotStartsWithAt(['<'] + u, "<P>", 1);
      ReplaceAllMiss('<', u, "<P>", "");
    }
    assert "<BR/></P>" == ['<'] + u;
  }

  lemma DropsParagraphClose()
    ensures ReplaceAll("<BR/></P>", "</P>", "") == "<BR/>"
  {
    assert "<BR/></P>" == ['<'] + ("BR/>" + ['<'] + "/P>");
    assert "BR/>" + ['<'] + "/P>" == "BR/>" + (['<'] + "/P>");
    NotStartsWithAt("<BR/></P>", "</P>", 1);
    ReplaceAllMiss('<', "BR/>" + ['<'] + "/P>", "</P>", "");
    ReplaceAllConcat("BR/>", ['<'] + "/P>", "</P>", "");
    assert ['<'] + "/P>" == "</P>" + "";
    ReplaceAllPrefix("</P>", "", "");
  }

  lemma KeepsBreak()
    ensures ReplaceAll("<BR/>", "<DIV>", "") == "<BR/>"
    ensures ReplaceAll("<BR/>", "</DIV>", "") == "<BR/>"
    ensures ReplaceAll("<BR/>", "<BR>", "") == "<BR/>"
  {
    assert "<BR/>" == ['<'] + "BR/>";
    NotStartsWithAt("<BR/>", "<DIV>", 1);
    NotStartsWithAt("<BR/>", "</DIV>", 1);
    NotStartsWithAt("<BR/>", "<BR>", 3);
    ReplaceAllMiss('<', "BR/>", "<DIV>", "");
    ReplaceAllMiss('<', "BR/>", "</DIV>", "");
    ReplaceAllMiss('<', "BR/>", "<BR>", "");
    ReplaceAllAbsent("BR/>", "<DIV>", "");
    ReplaceAllAbsent("BR/>", "</DIV>", "");
    ReplaceAllAbsent("BR/>", "<BR>", "");
  }

  lemma DropsBreak()
    ensures ReplaceAll("<BR/>", "<BR/>", "") == ""
  {
    assert "<BR/>" == "<BR/>" + "";
    ReplaceAllPrefix("<BR/>", "", "");
  }

  /** Removing a tag from `a + b`, where `a` holds no `<`, leaves `a` alone. */
  lemma RemoveAfterPlain(a: string, b: string, p: string, b2: string)
    requires |p| > 0 && p[0] !in a && ReplaceAll(b, p, "") == b2
    ensures ReplaceAll(a + b, p, "") == a + b2
  {
    ReplaceAllConcat(a, b, p, "");
  }

  /** The tag removals of the cleaning leave exactly the action. */
  lemma RemoveTagsAround(action: string)
    requires '<' !in action
    ensures RemoveTags("<P>" + action + "<BR/></P>") == action
  {
    var b := "<BR/></P>";
    var br := "<BR/>";
    var x := "<P>" + action + b;
    var x0 := ReplaceAll(x, "<P>", "");
    assert x0 == action + b by {
      assert x == "<P>" + (action + b);
      ReplaceAllPrefix("<P>", action + b, "");
      KeepsBreakClose();
      RemoveAfterPlain(action, b, "<P>", b);
    }
    var x1 := ReplaceAll(x0, "</P>", "");
    assert x1 == action + br by {
      DropsParagraphClose();
      RemoveAfterPlain(action, b, "</P>", br);
    }
    var x2 := ReplaceAll(x1, "<DIV>", "");
    assert x2 == action + br by {
      KeepsBreak();
      RemoveAfterPlain(action, br, "<DIV>", br);
    }
    var x3 := ReplaceAll(x2, "</DIV>", "");
    assert x3 == action + br by {
      KeepsBreak();
      RemoveAfterPlain(action, br, "</DIV>", br);
    }
    var x4 := ReplaceAll(x3, "<BR>", "");
    assert x4 == action + br by {
      KeepsBreak();
      RemoveAfterPlain(action, br, "<BR>", br);
    }
    var x5 := ReplaceAll(x4, "<BR/>", "");
    assert x5 == action by {
      DropsBreak();
      RemoveAfterPlain(action, br, "<BR/>", "");
      assert action + "" == action;
    }
  }

  /** Cleaning the wrapped markup of a plain action gives the action back. */
  lemma CleanActionBody(action: string)
    requires '<' !in action && '&' !in action
    ensures Clean(ActionBody(action)) == action
  {
    var b := ActionBody(action);
    assert b[0] == '&' && b[|b| - 1] == ';';
    StripKeeps(b);
    assert '<' !in b;
    RemoveMarkupPlain(b);
    UnescapeActionBody(action);
    RemoveTagsAround(action);
  }

  /** A plain step: a non-empty action without markup characters. */
  predicate PlainAction(action: string) {
    action != [] && '<' !in action && '&' !in action
  }

  lemma CleanActionBodies()
    ensures forall a :: PlainAction(a) ==> Clean(ActionBody(a)) == a
  {
    forall a | PlainAction(a)
      ensures Clean(ActionBody(a)) == a
    {
      CleanActionBody(a);
    }
  }

  /** A function that undoes the action markup recovers the actions from
      the wrapped groups. */
  lemma {:induction false} MapFirstWrapped(f: string -> string, steps: seq<TestStep>)
    requires forall i :: 0 <= i < |steps| ==> f(ActionBody(steps[i].action)) == steps[i].action
    ensures MapFirst(f, Wrapped(steps)) == Actions(steps)
    decreases |steps|
  {
    if steps != [] {
      var g := (ActionBody(steps[0].action), EmptyResultBody);
      assert forall i :: 0 <= i < |steps[1..]| ==> steps[1..][i] == steps[i + 1];
      MapFirstWrapped(f, steps[1..]);
      MapFirstCons(f, g, Wrapped(steps[1..]));
    }
  }

  lemma {:induction false} MapFirstCons(f: string -> string, g: (string, string), ms: seq<(string, string)>)
    ensures MapFirst(f, [g] + ms) == [f(g.0)] + MapFirst(f, ms)
    decreases |ms|
  {
    var x := [g] + ms;
    if ms == [] {
      assert x[..0] == [];
    } else {
      var n := |ms|;
      assert x[..|x| - 1] == [g] + ms[..n - 1];
      MapFirstCons(f, g, ms[..n - 1]);
    }
  }

  lemma CleanedWrapped(steps: seq<TestStep>)
    requires forall i :: 0 <= i < |steps| ==> PlainAction(steps[i].action)
    ensures Cleaned(Wrapped(steps)) == Actions(steps)
  {
    CleanActionBodies();
    MapFirstWrapped(Clean, steps);
  }

  /** Nothing is dropped from a list without empty strings. */
  lemma {:induction false} NonEmptyKeepsAll(xs: seq<string>)
    requires forall i :: 0 <= i < |xs| ==> xs[i] != []
    ensures NonEmpty(xs) == xs
  {
    if xs != [] {
      NonEmptyKeepsAll(xs[..|xs| - 1]);
      assert xs[..|xs| - 1] + [xs[|xs| - 1]] == xs;
    }
  }

  /** The round trip of the steps blob: the pull side reads back, in order,
      exactly the action lines the push side wrote, as long as each action is
      non-empty and free of `<` and `&`. */
  lemma DecodeBuild(steps: seq<TestStep>)
    requires forall i :: 0 <= i < |steps| ==> PlainAction(steps[i].action)
    ensures |DecodeSteps(BuildStepsXml(steps))| == |steps|
    ensures forall i :: 0 <= i < |steps| ==> DecodeSteps(BuildStepsXml(steps))[i] == steps[i].action
  {
    StepMatchesOfBlob(steps);
    DecodeOf(BuildStepsXml(steps), steps);
  }

  /** Any blob in which the pattern finds exactly the wrapped groups of
      plain actions decodes to those actions. */
  lemma DecodeOf(raw: string, steps: seq<TestStep>)
    requires forall i :: 0 <= i < |steps| ==> PlainAction(steps[i].action)
    requires StepMatches(raw) == Wrapped(steps)
    ensures DecodeSteps(raw) == Actions(steps)
  {
    CleanedWrapped(steps);
    KeptAll(Clean, StepMatches(raw), Wrapped(steps), Actions(steps));
  }

  lemma KeptAll(f: string -> string, ms: seq<(string, string)>, w: seq<(string, string)>, acts: seq<string>)
    requires ms == w && MapFirst(f, w) == acts
    requires forall i :: 0 <= i < |acts| ==> acts[i] != []
    ensures NonEmpty(MapFirst(f, ms)) == acts
  {
    NonEmptyKeepsAll(acts);
  }
}
