/** The push of Gherkin scenarios (`ado_sync/parse_and_send.py`, and the
    converters of `ado_sync/parseMyFeature.py`): a scenario of the Gherkin
    parser's tree becomes a JSON-Patch document holding its steps, its
    examples table and its parameters, sent once for each `@tc:` tag. The
    parser's tree is an input. */
module GherkinEncode {
  import opened Wrappers
  import opened TextOps
  import opened TagScan
  import opened StepsCodec
  import PushPatch

  /** A step of the parser's tree: `keyword`, `text` and `type`. */
  datatype GherkinStep = GherkinStep(keyword: string, text: string, stepType: string)

  /** An examples table: the values of `tableHeader.cells` and of the
      `cells` of every row of `tableBody`. */
  datatype ExamplesTable = ExamplesTable(header: seq<string>, body: seq<seq<string>>)

  /** A scenario definition: its tag names, its steps, and its examples
      tables when the key is present (a scenario outline). */
  datatype Scenario = Scenario(tags: seq<string>, steps: seq<GherkinStep>, examples: Option<seq<ExamplesTable>>)

  /** The exceptions the converters raise: `idx` unbound for an empty step
      list, `[0]` of an empty list of tables, and a row cell past the
      header (`header_cell[i]`). */
  datatype GherkinError =
    | NoStepsToNumber
    | NoExamplesTable
    | CellWithoutHeader(row: nat, column: nat)

  // ----- get_test_case_by_tags -----

  const TcPrefix: string := "@tc:"

  /** `x.split('@tc:')[1]` for a tag that starts with `@tc:`: the text up to
      the next `@tc:`, or to the end. */
  function TcValue(name: string): (r: string)
    requires StartsWith(name, TcPrefix)
    ensures !Contains(r, TcPrefix)
  {
    var e := match FindFrom(name, TcPrefix, |TcPrefix|) case None => |name| case Some(e) => e;
    NoOccurrenceInSlice(name, TcPrefix, |TcPrefix|, e);
    name[|TcPrefix|..e]
  }

  /** The test-case ids named by the `@tc:` tags, in tag order. */
  function TcIds(tags: seq<string>): seq<string> {
    if tags == [] then []
    else
      var t := tags[|tags| - 1];
      TcIds(tags[..|tags| - 1]) + (if StartsWith(t, TcPrefix) then [TcValue(t)] else [])
  }

  /** `get_test_case_by_tags`. */
  method GetTestCaseByTags(tags: seq<string>) returns (extracted: seq<string>)
    ensures extracted == TcIds(tags)
  {
    extracted := [];
    var i := 0;
    while i < |tags|
      invariant 0 <= i <= |tags|
      invariant extracted == TcIds(tags[..i])
    {
      assert tags[..i + 1][..i] == tags[..i];
      var x := tags[i];
      if StartsWith(x, TcPrefix) {
        extracted := extracted + [TcValue(x)];
      }
      i := i + 1;
    }
    assert tags[..i] == tags;
  }

  // ----- placeholders -----

  /** `re.sub(r'<(.*?)>', r'@\1', s)`: the lazy `(.*?)` ends at the first
      `>`, and its `.` does not match a line break. */
  function PlaceholdersToAt(s: string): (r: string)
    decreases |s|
    ensures |r| <= |s|
  {
    if s == [] then []
    else if s[0] == '<' && CloseBefore(s, 1, '\n').Some? then
      var e := CloseBefore(s, 1, '\n').value;
      "@" + s[1..e] + PlaceholdersToAt(s[e + 1..])
    else [s[0]] + PlaceholdersToAt(s[1..])
  }

  // ----- convert_step_to_xml -----

  /** The escaped action markup of `parse_and_send.py`: the keyword in
      bold, then the text with its placeholders rewritten. */
  function BoldAction(step: GherkinStep): string {
    "&lt;DIV&gt;&lt;P&gt;&lt;B&gt;" + step.keyword + "&lt;/B&gt; " + PlaceholdersToAt(step.text) + "&lt;/P&gt;&lt;/DIV&gt;"
  }

  /** The escaped action markup of `parseMyFeature.py`: the step type and
      the keyword in plain text, then the rewritten text. */
  function TypedAction(step: GherkinStep): string {
    "&lt;DIV&gt;&lt;P&gt; " + step.stepType + " " + step.keyword + " " + PlaceholdersToAt(step.text) + "&lt;/P&gt;&lt;/DIV&gt;"
  }

  /** One `<step>` element, laid out over five lines. */
  function StepXml(id: nat, action: string): string {
    "<step id=\"" + NatToString(id) + "\" type=\"ActionStep\">\n"
    + "    " + ParamOpen + action + ParamClose + "\n"
    + "    " + ParamOpen + EmptyResultBody + ParamClose + "\n"
    + "    <description/>\n"
    + "</step>"
  }

  /** The elements of the steps, numbered from `first`. */
  function StepXmls(steps: seq<GherkinStep>, action: GherkinStep -> string, first: nat): (r: seq<string>)
    ensures |r| == |steps|
  {
    seq(|steps|, i requires 0 <= i < |steps| => StepXml(first + i, action(steps[i])))
  }

  const LastAttribute: string := "last=\""

  function StepsHead(last: nat): string {
    "<steps id=\"0\" " + LastAttribute + NatToString(last) + "\">\n"
  }

  /** `convert_step_to_xml` as a value: the steps numbered from 2, `last`
      the final number; no steps leave `idx` unbound. */
  function StepsDocument(steps: seq<GherkinStep>, action: GherkinStep -> string): (r: Result<string, GherkinError>)
    ensures r.Err? <==> steps == []
  {
    if steps == [] then Err(NoStepsToNumber)
    else Ok(StepsWrapped(|steps| + 1, StepXmls(steps, action, 2)))
  }

  /** The `<steps>` element around its elements, one per line. */
  function StepsWrapped(last: nat, elements: seq<string>): string {
    StepsHead(last) + Join(elements, "\n") + "\n</steps>"
  }

  /** `convert_step_to_xml`. */
  method ConvertStepToXml(steps: seq<GherkinStep>, action: GherkinStep -> string) returns (r: Result<string, GherkinError>)
    ensures r == StepsDocument(steps, action)
  {
    var xmlSteps: seq<string> := [];
    var idx: Option<nat> := None;
    var i := 0;
    while i < |steps|
      invariant 0 <= i <= |steps|
      invariant xmlSteps == StepXmls(steps[..i], action, 2)
      invariant idx == if i == 0 then None else Some(i + 1)
    {
      StepXmlsSnoc(steps, action, 2, i);
      idx := Some(i + 2);
      xmlSteps := xmlSteps + [StepXml(i + 2, action(steps[i]))];
      i := i + 1;
    }
    assert steps[..i] == steps;
    if idx.None? {
      return Err(NoStepsToNumber);
    }
    var xml := StepsHead(idx.value);
    xml := xml + Join(xmlSteps, "\n");
    xml := xml + "\n</steps>";
    r := Ok(xml);
  }

  // ----- convert_gherkin_parameters -----

  const ParamLead: string := "<param name=\""
  const ParamTail: string := "\" bind=\"default\"/>"

  function ParamElement(name: string): string {
    ParamLead + name + ParamTail
  }

  function ParamElements(names: seq<string>): (r: seq<string>)
    ensures |r| == |names|
  {
    seq(|names|, i requires 0 <= i < |names| => ParamElement(names[i]))
  }

  const ParamsOpen: string := "<parameters>"
  const ParamsClose: string := "</parameters>"

  /** The `<parameters>` element around its elements, one per line. */
  function ParamsWrapped(elements: seq<string>): string {
    ParamsOpen + Join(elements, "\n") + ParamsClose
  }

  /** `convert_gherkin_parameters` as a value: one parameter per header cell
      of the first table; no table raises. */
  function ParametersXml(tables: seq<ExamplesTable>): (r: Result<string, GherkinError>)
    ensures r.Err? <==> tables == []
  {
    if tables == [] then Err(NoExamplesTable)
    else Ok(ParamsWrapped(ParamElements(tables[0].header)))
  }

  /** `convert_gherkin_parameters`. */
  method ConvertGherkinParameters(tables: seq<ExamplesTable>) returns (r: Result<string, GherkinError>)
    ensures r == ParametersXml(tables)
  {
    if tables == [] {
      return Err(NoExamplesTable);
    }
    var header := tables[0].header;
    var parameters: seq<string> := [];
    var i := 0;
    while i < |header|
      invariant 0 <= i <= |header|
      invariant parameters == ParamElements(header[..i])
    {
      ParamElementsSnoc(header, i);
      parameters := parameters + [ParamElement(header[i])];
      i := i + 1;
    }
    assert header[..i] == header;
    var paramToSend := ParamsOpen;
    paramToSend := paramToSend + Join(parameters, "\n");
    paramToSend := paramToSend + ParamsClose;
    r := Ok(paramToSend);
  }

  // ----- convert_gherkin_examples_to_xml -----

  function HeaderElement(name: string): string {
    "<xs:element name='" + name + "' type='xs:string' minOccurs='0' />"
  }

  function HeaderElements(names: seq<string>): (r: seq<string>)
    ensures |r| == |names|
  {
    seq(|names|, i requires 0 <= i < |names| => HeaderElement(names[i]))
  }

  /** The schema around the header elements, with its line breaks and
      indentation. */
  const SchemaOpen: string :=
    "<xs:schema id='NewDataSet' xmlns:xs='http://www.w3.org/2001/XMLSchema' xmlns:msdata='urn:schemas-microsoft-com:xml-msdata'>\n"
    + "    <xs:element name='NewDataSet' msdata:IsDataSet='true' msdata:Locale=''>\n"
    + "        <xs:complexType>\n"
    + "            <xs:choice minOccurs='0' maxOccurs = 'unbounded'>\n"
    + "                <xs:element name='Table1'>\n"
    + "                    <xs:complexType>\n"
    + "                        <xs:sequence>"
  const SchemaClose: string :=
    "</xs:sequence>\n"
    + "                        </xs:complexType>\n"
    + "                    </xs:element>\n"
    + "                </xs:choice>\n"
    + "            </xs:complexType>\n"
    + "        </xs:element>\n"
    + "    </xs:schema>"

  /** One cell of a row, tagged by its column's header. */
  function CellXml(name: string, value: string): string {
    "<" + name + ">" + value + "</" + name + ">"
  }

  /** The cells of a row, each tagged by the header at its column. */
  function RowCells(header: seq<string>, row: seq<string>): string
    requires |row| <= |header|
  {
    if row == [] then ""
    else
      var n := |row| - 1;
      RowCells(header, row[..n]) + CellXml(header[n], row[n])
  }

  function RowXml(header: seq<string>, row: seq<string>): string
    requires |row| <= |header|
  {
    "<Table1>" + RowCells(header, row) + "</Table1>"
  }

  /** The `<Table1>` element of every row, or the first row with a cell
      past the header. */
  function RowsXml(header: seq<string>, body: seq<seq<string>>): (r: Result<seq<string>, GherkinError>)
    ensures r.Ok? ==> |r.value| == |body|
  {
    if body == [] then Ok([])
    else
      var n := |body| - 1;
      match RowsXml(header, body[..n])
      case Err(e) => Err(e)
      case Ok(rows) =>
        if |body[n]| > |header| then Err(CellWithoutHeader(n, |header|))
        else Ok(rows + [RowXml(header, body[n])])
  }

  /** Python's `repr` of a string: single quotes unless the text holds a
      single quote and no double quote; a backslash, the quote in use and
      the line-break characters escaped. */
  function StrRepr(s: string): string {
    var q := if '\'' in s && '"' !in s then '"' else '\'';
    [q] + ReprEscaped(s, q) + [q]
  }

  function ReprEscaped(s: string, q: char): string {
    if s == [] then ""
    else
      var c := s[|s| - 1];
      ReprEscaped(s[..|s| - 1], q)
      + (if c == '\\' then "\\\\"
         else if c == q then ['\\', q]
         else if c == '\n' then "\\n"
         else if c == '\r' then "\\r"
         else if c == '\t' then "\\t"
         else [c])
  }

  /** Python's `repr` of a list of strings. */
  function ListRepr(items: seq<string>): string {
    "[" + Join(seq(|items|, i requires 0 <= i < |items| => StrRepr(items[i])), ", ") + "]"
  }

  /** The data set around the schema and the rows. */
  function DataSet(header: seq<string>, rows: seq<string>): string {
    "<NewDataSet>" + SchemaOpen + Join(HeaderElements(header), "\n") + SchemaClose + ListRepr(rows) + "</NewDataSet>"
  }

  /** `convert_gherkin_examples_to_xml` as a value: the first table only;
      no table, or a cell past the header, raises. */
  function ExamplesXml(tables: seq<ExamplesTable>): Result<string, GherkinError> {
    if tables == [] then Err(NoExamplesTable)
    else
      match RowsXml(tables[0].header, tables[0].body)
      case Err(e) => Err(e)
      case Ok(rows) => Ok(DataSet(tables[0].header, rows))
  }

  /** The inner loop: the cells of one row, tagged by the header. */
  method BodyElement(header: seq<string>, row: seq<string>, rowIndex: nat) returns (r: Result<string, GherkinError>)
    ensures |row| > |header| ==> r == Err(CellWithoutHeader(rowIndex, |header|))
    ensures |row| <= |header| ==> r == Ok(RowXml(header, row))
  {
    var element := "";
    var i := 0;
    while i < |row|
      invariant 0 <= i <= |row| && i <= |header|
      invariant element == RowCells(header, row[..i])
    {
      if i >= |header| {
        return Err(CellWithoutHeader(rowIndex, |header|));
      }
      assert row[..i + 1][..i] == row[..i];
      element := element + CellXml(header[i], row[i]);
      i := i + 1;
    }
    assert row[..i] == row;
    r := Ok("<Table1>" + element + "</Table1>");
  }

  /** `convert_gherkin_examples_to_xml`. */
  method ConvertGherkinExamplesToXml(tables: seq<ExamplesTable>) returns (r: Result<string, GherkinError>)
    ensures r == ExamplesXml(tables)
  {
    if tables == [] {
      return Err(NoExamplesTable);
    }
    var header := tables[0].header;
    var body := tables[0].body;
    var headerElements: seq<string> := [];
    var i := 0;
    while i < |header|
      invariant 0 <= i <= |header|
      invariant headerElements == HeaderElements(header[..i])
    {
      HeaderElementsSnoc(header, i);
      headerElements := headerElements + [HeaderElement(header[i])];
      i := i + 1;
    }
    assert header[..i] == header;
    var bodyElements: seq<string> := [];
    var k := 0;
    while k < |body|
      invariant 0 <= k <= |body|
      invariant RowsXml(header, body[..k]) == Ok(bodyElements)
    {
      assert body[..k + 1][..k] == body[..k];
      var element := BodyElement(header, body[k], k);
      if element.Err? {
        RowsXmlStops(header, body, k + 1);
        return Err(element.error);
      }
      bodyElements := bodyElements + [element.value];
      k := k + 1;
    }
    assert body[..k] == body;
    var schema := "<NewDataSet>" + SchemaOpen + Join(headerElements, "\n") + SchemaClose;
    r := Ok(schema + ListRepr(bodyElements) + "</NewDataSet>");
  }

  // ----- convert_and_send -----

  const StepsField: string := "/fields/Microsoft.VSTS.TCM.Steps"
  const LocalDataSourceField: string := "/fields/Microsoft.VSTS.TCM.LocalDataSource"
  const ParametersField: string := "/fields/Microsoft.VSTS.TCM.Parameters"

  /** The organisation is the empty string the function sets. */
  const Organization: string := ""

  function WorkItemPatchUrl(wi: string): string {
    "https://dev.azure.com/" + Organization + "/_apis/wit/workItems/" + wi + "?api-version=7.1-preview.3"
  }

  function Replace(path: string, value: string): PushPatch.PatchOp {
    PushPatch.PatchOp("replace", path, PushPatch.Text(value))
  }

  /** The op list: the steps always, the data source and the parameters
      only when they are not empty. */
  function OpsOf(steps: string, examples: string, params: string): seq<PushPatch.PatchOp> {
    [Replace(StepsField, steps)]
    + (if examples != "" then [Replace(LocalDataSourceField, examples)] else [])
    + (if params != "" then [Replace(ParametersField, params)] else [])
  }

  /** The converted steps: none are converted for an empty list. */
  function ConvertedSteps(steps: seq<GherkinStep>): string {
    if |steps| > 0 then StepsDocument(steps, BoldAction).value else ""
  }

  /** The op list of a scenario, or the exception of its converters. */
  function ScenarioOps(sc: Scenario): Result<seq<PushPatch.PatchOp>, GherkinError> {
    match sc.examples
    case None => Ok(OpsOf(ConvertedSteps(sc.steps), "", ""))
    case Some(tables) =>
      match ExamplesXml(tables)
      case Err(e) => Err(e)
      case Ok(ex) =>
        match ParametersXml(tables)
        case Err(e) => Err(e)
        case Ok(ps) => Ok(OpsOf(ConvertedSteps(sc.steps), ex, ps))
  }

  /** One PATCH per `@tc:` id, all with the scenario's op list. */
  function Patches(ids: seq<string>, ops: seq<PushPatch.PatchOp>): (r: seq<PushPatch.PatchRequest>)
    ensures |r| == |ids|
  {
    seq(|ids|, i requires 0 <= i < |ids| => PushPatch.PatchRequest(WorkItemPatchUrl(ids[i]), ops))
  }

  function ScenarioRequests(sc: Scenario): Result<seq<PushPatch.PatchRequest>, GherkinError> {
    match ScenarioOps(sc)
    case Err(e) => Err(e)
    case Ok(ops) => Ok(Patches(TcIds(sc.tags), ops))
  }

  /** What the loop over the scenarios has sent, and the exception that
      stopped it, if any. */
  datatype Sending = Sending(sent: seq<PushPatch.PatchRequest>, failure: Option<GherkinError>)

  /** The requests, or the exception, of each scenario. */
  function Outcomes(scenarios: seq<Scenario>): (r: seq<Result<seq<PushPatch.PatchRequest>, GherkinError>>)
    ensures |r| == |scenarios|
  {
    seq(|scenarios|, i requires 0 <= i < |scenarios| => ScenarioRequests(scenarios[i]))
  }

  /** The loop over the outcomes: each one's requests sent in order, the
      first exception ending the loop. */
  function SendAll(outcomes: seq<Result<seq<PushPatch.PatchRequest>, GherkinError>>): Sending {
    if outcomes == [] then Sending([], None)
    else
      var o := SendAll(outcomes[..|outcomes| - 1]);
      if o.failure.Some? then o
      else
        match outcomes[|outcomes| - 1]
        case Err(e) => Sending(o.sent, Some(e))
        case Ok(reqs) => Sending(o.sent + reqs, None)
  }

  /** `convert_and_send` as a value. */
  function SendScenarios(scenarios: seq<Scenario>): Sending {
    SendAll(Outcomes(scenarios))
  }

  /** The op list of one scenario. */
  method ScenarioOpList(sc: Scenario) returns (r: Result<seq<PushPatch.PatchOp>, GherkinError>)
    ensures r == ScenarioOps(sc)
  {
    var convertedSteps := "";
    var convertedExamples := "";
    var convertedParams := "";
    if |sc.steps| > 0 {
      var st := ConvertStepToXml(sc.steps, BoldAction);
      convertedSteps := st.value;
    }
    assert convertedSteps == ConvertedSteps(sc.steps);
    if sc.examples.Some? {
      var ex := ConvertGherkinExamplesToXml(sc.examples.value);
      if ex.Err? {
        assert ScenarioOps(sc) == Err(ex.error);
        return Err(ex.error);
      }
      var ps := ConvertGherkinParameters(sc.examples.value);
      convertedExamples := ex.value;
      convertedParams := ps.value;
    }
    var jsonList := [Replace(StepsField, convertedSteps)];
    if convertedExamples != "" {
      jsonList := jsonList + [Replace(LocalDataSourceField, convertedExamples)];
    }
    if convertedParams != "" {
      jsonList := jsonList + [Replace(ParametersField, convertedParams)];
    }
    assert jsonList == OpsOf(convertedSteps, convertedExamples, convertedParams);
    r := Ok(jsonList);
  }

  /** The requests of one scenario. */
  method ScenarioPatches(sc: Scenario) returns (r: Result<seq<PushPatch.PatchRequest>, GherkinError>)
    ensures r == ScenarioRequests(sc)
  {
    var ops := ScenarioOpList(sc);
    if ops.Err? {
      return Err(ops.error);
    }
    var ids := GetTestCaseByTags(sc.tags);
    var sent := PatchEach(ids, ops.value);
    r := Ok(sent);
  }

  /** The inner loop: one PATCH per id. */
  method PatchEach(ids: seq<string>, ops: seq<PushPatch.PatchOp>) returns (sent: seq<PushPatch.PatchRequest>)
    ensures sent == Patches(ids, ops)
  {
    sent := [];
    var i := 0;
    while i < |ids|
      invariant 0 <= i <= |ids|
      invariant |sent| == i
      invariant forall j :: 0 <= j < i ==> sent[j] == PushPatch.PatchRequest(WorkItemPatchUrl(ids[j]), ops)
    {
      sent := sent + [PushPatch.PatchRequest(WorkItemPatchUrl(ids[i]), ops)];
      i := i + 1;
    }
  }

  /** `convert_and_send` on the parsed feature. */
  method ConvertAndSend(scenarios: seq<Scenario>) returns (out: Sending)
    ensures out == SendScenarios(scenarios)
  {
    out := Sending([], None);
    var i := 0;
    while i < |scenarios|
      invariant 0 <= i <= |scenarios|
      invariant out == SendScenarios(scenarios[..i]) && out.failure.None?
    {
      var reqs := ScenarioPatches(scenarios[i]);
      SendScenariosNext(scenarios, i);
      if reqs.Err? {
        out := Sending(out.sent, Some(reqs.error));
        SendScenariosStops(scenarios, i + 1);
        return;
      }
      out := Sending(out.sent + reqs.value, None);
      i := i + 1;
    }
    assert scenarios[..i] == scenarios;
  }

  // ----- properties -----

  /** `@tc:` followed by an id without `@tc:` in it gives that id back. */
  lemma TcValueOf(v: string)
    requires !Contains(v, TcPrefix)
    ensures StartsWith(TcPrefix + v, TcPrefix) && TcValue(TcPrefix + v) == v
  {
    var s := TcPrefix + v;
    assert s[..|TcPrefix|] == TcPrefix;
    forall k | |TcPrefix| <= k
      ensures !OccursAt(s, TcPrefix, k)
    {
      if OccursAt(s, TcPrefix, k) {
        assert v[k - |TcPrefix|..k] == s[k..k + |TcPrefix|];
        assert OccursAt(v, TcPrefix, k - |TcPrefix|);
      }
    }
    assert s[|TcPrefix|..] == v;
  }

  /** The ids of two runs of tags are those of each, in order. */
  lemma {:induction false} TcIdsConcat(a: seq<string>, b: seq<string>)
    ensures TcIds(a + b) == TcIds(a) + TcIds(b)
    decreases |b|
  {
    if b != [] {
      var n := |b| - 1;
      assert (a + b)[..|a + b| - 1] == a + b[..n];
      TcIdsConcat(a, b[..n]);
    } else {
      assert a + b == a;
    }
  }

  /** Tags written as `@tc:` and an id give the ids back, in order. */
  lemma {:induction false} TcIdsRoundTrip(ids: seq<string>)
    requires forall i :: 0 <= i < |ids| ==> !Contains(ids[i], TcPrefix)
    ensures TcIds(TcTags(ids)) == ids
  {
    if ids != [] {
      var n := |ids| - 1;
      TcIdsRoundTrip(ids[..n]);
      TcValueOf(ids[n]);
      TcIdsConcat(TcTags(ids[..n]), [TcPrefix + ids[n]]);
      assert TcTags(ids) == TcTags(ids[..n]) + [TcPrefix + ids[n]];
      assert [TcPrefix + ids[n]][..0] == [];
      assert ids == ids[..n] + [ids[n]];
    }
  }

  /** The tags `@tc:{id}` for every id. */
  function TcTags(ids: seq<string>): (r: seq<string>)
    ensures |r| == |ids|
  {
    if ids == [] then [] else TcTags(ids[..|ids| - 1]) + [TcPrefix + ids[|ids| - 1]]
  }

  /** A tag that does not start with `@tc:` names no id. */
  lemma TcIdsIgnore(t: string)
    requires !StartsWith(t, TcPrefix)
    ensures TcIds([t]) == []
  {
    assert [t][..0] == [];
  }

  /** The rewrite never touches a line break: a placeholder does not span
      lines, so each one is kept. */
  lemma {:induction false} PlaceholdersKeepLines(s: string)
    ensures multiset(PlaceholdersToAt(s))['\n'] == multiset(s)['\n']
    decreases |s|
  {
    if s != [] {
      if s[0] == '<' && CloseBefore(s, 1, '\n').Some? {
        var e := CloseBefore(s, 1, '\n').value;
        assert s == [s[0]] + s[1..e] + [s[e]] + s[e + 1..];
        assert '\n' !in s[1..e];
        PlaceholdersKeepLines(s[e + 1..]);
      } else {
        assert s == [s[0]] + s[1..];
        PlaceholdersKeepLines(s[1..]);
      }
    }
  }

  /** A text without `<` is left as it is. */
  lemma {:induction false} PlaceholdersPlain(s: string)
    requires '<' !in s
    ensures PlaceholdersToAt(s) == s
    decreases |s|
  {
    if s != [] {
      PlaceholdersPlain(s[1..]);
    }
  }

  /** A text without `<` in front of the rest is kept in front. */
  lemma {:induction false} PlaceholdersLead(a: string, b: string)
    requires '<' !in a
    ensures PlaceholdersToAt(a + b) == a + PlaceholdersToAt(b)
    decreases |a|
  {
    if a != [] {
      assert (a + b)[0] == a[0];
      assert (a + b)[1..] == a[1..] + b;
      PlaceholdersLead(a[1..], b);
    } else {
      assert a + b == b;
    }
  }

  /** `<x>`, with no `>` and no line break in `x`, becomes `@x`. */
  lemma PlaceholderOne(x: string, b: string)
    requires '>' !in x && '\n' !in x
    ensures PlaceholdersToAt("<" + x + ">" + b) == "@" + x + PlaceholdersToAt(b)
  {
    var s := "<" + x + ">" + b;
    assert forall k :: 1 <= k <= |x| ==> s[k] == x[k - 1];
    assert s[|x| + 1] == '>';
    CloseBeforeAt(s, 1, |x| + 1, '\n');
    assert s[1..|x| + 1] == x;
    assert s[|x| + 2..] == b;
  }

  /** Placeholders written between plain text are rewritten one by one:
      `a<x>b` becomes `a@x` followed by the rewrite of `b`. */
  lemma PlaceholderAfter(a: string, x: string, b: string)
    requires '<' !in a && '>' !in x && '\n' !in x
    ensures PlaceholdersToAt(a + "<" + x + ">" + b) == a + "@" + x + PlaceholdersToAt(b)
  {
    assert a + "<" + x + ">" + b == a + ("<" + x + ">" + b);
    PlaceholdersLead(a, "<" + x + ">" + b);
    PlaceholderOne(x, b);
  }

  /** One more step adds its element, numbered after the others. */
  lemma StepXmlsSnoc(steps: seq<GherkinStep>, action: GherkinStep -> string, first: nat, i: nat)
    requires i < |steps|
    ensures StepXmls(steps[..i + 1], action, first)
      == StepXmls(steps[..i], action, first) + [StepXml(first + i, action(steps[i]))]
  {
    var a := StepXmls(steps[..i + 1], action, first);
    var b := StepXmls(steps[..i], action, first) + [StepXml(first + i, action(steps[i]))];
    forall j | 0 <= j < i + 1
      ensures a[j] == b[j]
    {
      assert steps[..i + 1][j] == steps[j];
      if j < i {
        assert steps[..i][j] == steps[j];
      }
    }
  }

  /** The `last` attribute of a steps document, read back as the digits
      right after `last="`. */
  function LastId(doc: string): Option<nat> {
    match Search(doc, LastAttribute, AdjacentDigits)
    case None => None
    case Some(d) => Some(DigitsValue(d))
  }

  /** Reading back the `last` attribute gives the number of the final
      step, which is the number of steps plus one. */
  lemma StepsLastReadBack(steps: seq<GherkinStep>, action: GherkinStep -> string)
    requires steps != []
    ensures LastId(StepsDocument(steps, action).value) == Some(|steps| + 1)
  {
    HeadReadBack(|steps| + 1, StepXmls(steps, action, 2));
  }

  /** The `last` attribute of a steps element reads back as its number,
      whatever its elements. */
  lemma HeadReadBack(n: nat, elements: seq<string>)
    ensures LastId(StepsWrapped(n, elements)) == Some(n)
  {
    var v := NatToString(n);
    var rest := "\">\n" + Join(elements, "\n") + "\n</steps>";
    var x := "<steps id=\"0\" ";
    assert StepsWrapped(n, elements) == x + LastAttribute + v + rest;
    SearchFindsAdjacent(x, LastAttribute, v, rest);
    NatToStringValue(n);
  }

  /** One more parameter name adds its element. */
  lemma ParamElementsSnoc(names: seq<string>, i: nat)
    requires i < |names|
    ensures ParamElements(names[..i + 1]) == ParamElements(names[..i]) + [ParamElement(names[i])]
  {
    var a := ParamElements(names[..i + 1]);
    var b := ParamElements(names[..i]) + [ParamElement(names[i])];
    forall j | 0 <= j < i + 1
      ensures a[j] == b[j]
    {
      assert names[..i + 1][j] == names[j];
      if j < i {
        assert names[..i][j] == names[j];
      }
    }
  }

  /** One more header cell adds its schema element. */
  lemma HeaderElementsSnoc(names: seq<string>, i: nat)
    requires i < |names|
    ensures HeaderElements(names[..i + 1]) == HeaderElements(names[..i]) + [HeaderElement(names[i])]
  {
    var a := HeaderElements(names[..i + 1]);
    var b := HeaderElements(names[..i]) + [HeaderElement(names[i])];
    forall j | 0 <= j < i + 1
      ensures a[j] == b[j]
    {
      assert names[..i + 1][j] == names[j];
      if j < i {
        assert names[..i][j] == names[j];
      }
    }
  }

  /** Once a row has a cell past the header, the later rows change
      nothing. */
  lemma {:induction false} RowsXmlStops(header: seq<string>, body: seq<seq<string>>, k: nat)
    requires 0 < k <= |body| && |body[k - 1]| > |header|
    requires RowsXml(header, body[..k - 1]).Ok?
    ensures RowsXml(header, body) == Err(CellWithoutHeader(k - 1, |header|))
    decreases |body| - k
  {
    assert body[..k][..k - 1] == body[..k - 1];
    if k < |body| {
      assert body[..|body| - 1][..k - 1] == body[..k - 1];
      assert body[..|body| - 1][k - 1] == body[k - 1];
      RowsXmlStops(header, body[..|body| - 1], k);
    } else {
      assert body[..k] == body;
    }
  }

  /** Once an outcome is an exception, the later ones send nothing. */
  lemma {:induction false} SendAllStops(outcomes: seq<Result<seq<PushPatch.PatchRequest>, GherkinError>>, k: nat)
    requires 0 < k <= |outcomes| && outcomes[k - 1].Err?
    requires SendAll(outcomes[..k - 1]).failure.None?
    ensures SendAll(outcomes) == Sending(SendAll(outcomes[..k - 1]).sent, Some(outcomes[k - 1].error))
    decreases |outcomes| - k
  {
    assert outcomes[..k][..k - 1] == outcomes[..k - 1];
    if k < |outcomes| {
      assert outcomes[..|outcomes| - 1][..k - 1] == outcomes[..k - 1];
      assert outcomes[..|outcomes| - 1][k - 1] == outcomes[k - 1];
      SendAllStops(outcomes[..|outcomes| - 1], k);
    } else {
      assert outcomes[..k] == outcomes;
    }
  }

  /** A parameter element read back: the text between the fixed lead and
      tail. */
  function ParamName(e: string): Option<string> {
    if |ParamLead| + |ParamTail| <= |e| && e[..|ParamLead|] == ParamLead && e[|e| - |ParamTail|..] == ParamTail
    then Some(e[|ParamLead|..|e| - |ParamTail|])
    else None
  }

  function ParamNames(es: seq<string>): Option<seq<string>> {
    if es == [] then Some([])
    else
      match ParamNames(es[..|es| - 1])
      case None => None
      case Some(names) =>
        match ParamName(es[|es| - 1])
        case None => None
        case Some(name) => Some(names + [name])
  }

  /** A reader of the `<parameters>` element: the names of its parameters,
      one element per line. */
  function ReadParameters(xml: string): Option<seq<string>> {
    if |ParamsOpen| + |ParamsClose| <= |xml| && xml[..|ParamsOpen|] == ParamsOpen
       && xml[|xml| - |ParamsClose|..] == ParamsClose
    then
      var inner := xml[|ParamsOpen|..|xml| - |ParamsClose|];
      if inner == "" then Some([]) else ParamNames(Split(inner, '\n'))
    else None
  }

  lemma ParamNameOf(name: string)
    ensures ParamName(ParamElement(name)) == Some(name)
  {
    var e := ParamElement(name);
    assert e[..|ParamLead|] == ParamLead;
    assert e[|e| - |ParamTail|..] == ParamTail;
    assert e[|ParamLead|..|e| - |ParamTail|] == name;
  }

  lemma {:induction false} ParamNamesOf(names: seq<string>)
    ensures ParamNames(ParamElements(names)) == Some(names)
  {
    if names != [] {
      var n := |names| - 1;
      assert ParamElements(names)[..n] == ParamElements(names[..n]);
      ParamNamesOf(names[..n]);
      ParamNameOf(names[n]);
      assert names == names[..n] + [names[n]];
    }
  }

  lemma ParamElementOneLine(name: string)
    requires '\n' !in name
    ensures '\n' !in ParamElement(name)
  {
    var e := ParamElement(name);
    forall k | 0 <= k < |e|
      ensures e[k] != '\n'
    {
      if |ParamLead| <= k < |ParamLead| + |name| {
        assert e[k] == name[k - |ParamLead|];
      }
    }
  }

  /** The parameters written for the first table are read back as its
      header, as long as no header cell holds a line break. */
  lemma ParametersReadBack(tables: seq<ExamplesTable>)
    requires tables != []
    requires forall i :: 0 <= i < |tables[0].header| ==> '\n' !in tables[0].header[i]
    ensures ReadParameters(ParametersXml(tables).value) == Some(tables[0].header)
  {
    var h := tables[0].header;
    var es := ParamElements(h);
    var inner := Join(es, "\n");
    var xml := ParamsOpen + inner + ParamsClose;
    assert ParametersXml(tables).value == xml;
    assert xml[..|ParamsOpen|] == ParamsOpen;
    assert xml[|xml| - |ParamsClose|..] == ParamsClose;
    assert xml[|ParamsOpen|..|xml| - |ParamsClose|] == inner;
    ParamNamesOf(h);
    if h != [] {
      JoinFirst(es, "\n");
      forall i | 0 <= i < |es|
        ensures '\n' !in es[i]
      {
        ParamElementOneLine(h[i]);
      }
      JoinSplit(es, '\n');
    }
  }

  /** Every row within the header gives its `<Table1>` element, in row
      order. */
  lemma {:induction false} RowsXmlAll(header: seq<string>, body: seq<seq<string>>)
    requires forall k :: 0 <= k < |body| ==> |body[k]| <= |header|
    ensures RowsXml(header, body).Ok? && |RowsXml(header, body).value| == |body|
  {
    if body != [] {
      RowsXmlAll(header, body[..|body| - 1]);
    }
  }

  /** The k-th element is the k-th row's. */
  lemma {:induction false} RowsXmlAt(header: seq<string>, body: seq<seq<string>>, k: nat)
    requires RowsXml(header, body).Ok? && k < |body|
    ensures |body[k]| <= |header| && k < |RowsXml(header, body).value|
    ensures RowsXml(header, body).value[k] == RowXml(header, body[k])
  {
    var n := |body| - 1;
    var before := RowsXml(header, body[..n]);
    assert before.Ok? && |body[n]| <= |header|;
    assert RowsXml(header, body).value == before.value + [RowXml(header, body[n])];
    if k < n {
      RowsXmlAt(header, body[..n], k);
      assert body[..n][k] == body[k];
      assert RowsXml(header, body).value[k] == before.value[k];
    }
  }

  /** A failing table fails at its first row with a cell past the header. */
  lemma {:induction false} RowsXmlFirstBad(header: seq<string>, body: seq<seq<string>>) returns (k: nat)
    requires RowsXml(header, body).Err?
    ensures k < |body| && |body[k]| > |header|
    ensures forall j :: 0 <= j < k ==> |body[j]| <= |header|
    ensures RowsXml(header, body) == Err(CellWithoutHeader(k, |header|))
  {
    var n := |body| - 1;
    if RowsXml(header, body[..n]).Err? {
      k := RowsXmlFirstBad(header, body[..n]);
      assert body[..n][k] == body[k];
      assert forall j :: 0 <= j < k ==> body[..n][j] == body[j];
    } else {
      k := n;
      forall j | 0 <= j < k
        ensures |body[j]| <= |header|
      {
        RowsXmlAt(header, body[..n], j);
        assert body[..n][j] == body[j];
      }
    }
  }

  /** A text without quotes, backslashes or line-break characters is
      shown between single quotes as it is. */
  lemma {:induction false} ReprPlain(s: string)
    requires forall i :: 0 <= i < |s| ==> s[i] !in "'\"\\\n\r\t"
    ensures StrRepr(s) == "'" + s + "'"
  {
    assert '\'' !in s;
    ReprEscapedPlain(s, '\'');
  }

  lemma {:induction false} ReprEscapedPlain(s: string, q: char)
    requires q == '\''
    requires forall i :: 0 <= i < |s| ==> s[i] !in "'\"\\\n\r\t"
    ensures ReprEscaped(s, q) == s
  {
    if s != [] {
      var n := |s| - 1;
      ReprEscapedPlain(s[..n], q);
      assert s[n] !in "'\"\\\n\r\t";
      assert s == s[..n] + [s[n]];
    }
  }

  /** The op list starts with the steps; a scenario outline adds the data
      source and the parameters, in that order, and a plain scenario adds
      nothing. */
  lemma ScenarioOpsShape(sc: Scenario)
    requires ScenarioOps(sc).Ok?
    ensures var ops := ScenarioOps(sc).value;
      |ops| >= 1 && ops[0] == Replace(StepsField, ConvertedSteps(sc.steps))
      && (sc.examples.None? ==> |ops| == 1)
      && (sc.examples.Some? ==> |ops| == 3 && ops[1].path == LocalDataSourceField && ops[2].path == ParametersField)
  {
    var steps := ConvertedSteps(sc.steps);
    if sc.examples.Some? {
      var ex := ExamplesXml(sc.examples.value).value;
      var ps := ParametersXml(sc.examples.value).value;
      DataSetStarts(sc.examples.value);
      ParamsWrappedNonEmpty(ParamElements(sc.examples.value[0].header));
      OpsOfShape(steps, ex, ps);
    } else {
      OpsOfShape(steps, "", "");
    }
  }

  lemma DataSetStarts(tables: seq<ExamplesTable>)
    requires ExamplesXml(tables).Ok?
    ensures ExamplesXml(tables).value != ""
  {
    var rows := RowsXml(tables[0].header, tables[0].body).value;
    DataSetNonEmpty(tables[0].header, rows);
  }

  lemma DataSetNonEmpty(header: seq<string>, rows: seq<string>)
    ensures DataSet(header, rows) != ""
  {
    assert |DataSet(header, rows)| >= |"<NewDataSet>"|;
  }

  lemma ParamsWrappedNonEmpty(elements: seq<string>)
    ensures ParamsWrapped(elements) != ""
  {
    assert |ParamsWrapped(elements)| >= |ParamsOpen|;
  }

  /** The op list as a function of the three texts. */
  lemma OpsOfShape(steps: string, examples: string, params: string)
    ensures var ops := OpsOf(steps, examples, params);
      |ops| == 1 + (if examples != "" then 1 else 0) + (if params != "" then 1 else 0)
      && ops[0] == Replace(StepsField, steps)
      && (examples != "" && params != "" ==> ops[1].path == LocalDataSourceField && ops[2].path == ParametersField)
  {
  }

  /** A scenario fails exactly when it is an outline whose examples fail. */
  lemma ScenarioOpsFails(sc: Scenario)
    ensures ScenarioOps(sc).Err? <==> sc.examples.Some? && ExamplesXml(sc.examples.value).Err?
  {
  }

  /** A scenario tagged `@tc:` and an id for each id sends one request per
      id, in order, each with the scenario's op list. */
  lemma ScenarioRequestsFor(sc: Scenario, ids: seq<string>)
    requires sc.tags == TcTags(ids)
    requires forall i :: 0 <= i < |ids| ==> !Contains(ids[i], TcPrefix)
    requires ScenarioOps(sc).Ok?
    ensures ScenarioRequests(sc) == Ok(Patches(ids, ScenarioOps(sc).value))
  {
    TcIdsRoundTrip(ids);
  }

  /** Each request of a list of patches goes to its own work item's URL. */
  lemma PatchesFor(ids: seq<string>, ops: seq<PushPatch.PatchOp>, i: nat)
    requires i < |ids|
    ensures Patches(ids, ops)[i].url == WorkItemPatchUrl(ids[i]) && Patches(ids, ops)[i].ops == ops
  {
  }

  /** One more scenario: its outcome after the earlier ones'. */
  lemma SendScenariosNext(scenarios: seq<Scenario>, i: nat)
    requires i < |scenarios| && SendScenarios(scenarios[..i]).failure.None?
    ensures var o := SendScenarios(scenarios[..i]);
      SendScenarios(scenarios[..i + 1])
      == match ScenarioRequests(scenarios[i])
         case Err(e) => Sending(o.sent, Some(e))
         case Ok(reqs) => Sending(o.sent + reqs, None)
  {
    var outcomes := Outcomes(scenarios[..i + 1]);
    assert outcomes[..i] == Outcomes(scenarios[..i]);
    assert outcomes[i] == ScenarioRequests(scenarios[i]);
  }

  /** Once a scenario has raised, the later ones send nothing. */
  lemma SendScenariosStops(scenarios: seq<Scenario>, k: nat)
    requires 0 < k <= |scenarios| && ScenarioRequests(scenarios[k - 1]).Err?
    requires SendScenarios(scenarios[..k - 1]).failure.None?
    ensures SendScenarios(scenarios)
      == Sending(SendScenarios(scenarios[..k - 1]).sent, Some(ScenarioRequests(scenarios[k - 1]).error))
  {
    var outcomes := Outcomes(scenarios);
    assert outcomes[..k - 1] == Outcomes(scenarios[..k - 1]);
    assert outcomes[k - 1] == ScenarioRequests(scenarios[k - 1]);
    SendAllStops(outcomes, k);
  }

  /** What has been sent for the first scenarios stays sent. */
  lemma SendScenariosPrefix(scenarios: seq<Scenario>, k: nat)
    requires k <= |scenarios|
    ensures var before := SendScenarios(scenarios[..k]).sent;
      |before| <= |SendScenarios(scenarios).sent| && SendScenarios(scenarios).sent[..|before|] == before
  {
    assert Outcomes(scenarios[..k]) == Outcomes(scenarios)[..k];
    SendAllPrefix(Outcomes(scenarios), k);
  }

  lemma {:induction false} SendAllPrefix(outcomes: seq<Result<seq<PushPatch.PatchRequest>, GherkinError>>, k: nat)
    requires k <= |outcomes|
    ensures var before := SendAll(outcomes[..k]).sent;
      |before| <= |SendAll(outcomes).sent| && SendAll(outcomes).sent[..|before|] == before
    decreases |outcomes| - k
  {
    if k < |outcomes| {
      var n := |outcomes| - 1;
      SendAllPrefix(outcomes[..n], k);
      assert outcomes[..n][..k] == outcomes[..k];
    } else {
      assert outcomes[..k] == outcomes;
    }
  }

  /** The loop ends without an exception exactly when no scenario raises. */
  lemma SendScenariosSucceeds(scenarios: seq<Scenario>)
    ensures SendScenarios(scenarios).failure.None?
      <==> forall i :: 0 <= i < |scenarios| ==> ScenarioRequests(scenarios[i]).Ok?
  {
    var outcomes := Outcomes(scenarios);
    SendAllSucceeds(outcomes);
    assert forall i :: 0 <= i < |scenarios| ==> outcomes[i] == ScenarioRequests(scenarios[i]);
  }

  lemma {:induction false} SendAllSucceeds(outcomes: seq<Result<seq<PushPatch.PatchRequest>, GherkinError>>)
    ensures SendAll(outcomes).failure.None? <==> forall i :: 0 <= i < |outcomes| ==> outcomes[i].Ok?
  {
    if outcomes != [] {
      var n := |outcomes| - 1;
      SendAllSucceeds(outcomes[..n]);
      assert forall i :: 0 <= i < n ==> outcomes[..n][i] == outcomes[i];
    }
  }

  /** Without an exception, everything every scenario asks for is sent, in
      scenario order. */
  lemma {:induction false} SendAllSent(outcomes: seq<Result<seq<PushPatch.PatchRequest>, GherkinError>>)
    requires forall i :: 0 <= i < |outcomes| ==> outcomes[i].Ok?
    ensures SendAll(outcomes).sent == Flatten(seq(|outcomes|, i requires 0 <= i < |outcomes| => outcomes[i].value))
  {
    if outcomes != [] {
      var n := |outcomes| - 1;
      SendAllSucceeds(outcomes[..n]);
      SendAllSent(outcomes[..n]);
      var all := seq(|outcomes|, i requires 0 <= i < |outcomes| => outcomes[i].value);
      assert all[..n] == seq(n, i requires 0 <= i < n => outcomes[..n][i].value);
      assert all == all[..n] + [all[n]];
    }
  }

  function Flatten<T>(xss: seq<seq<T>>): seq<T> {
    if xss == [] then [] else Flatten(xss[..|xss| - 1]) + xss[|xss| - 1]
  }
}
