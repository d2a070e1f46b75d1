/** The pull direction of the Gherkin synchronisation in `ado_sync/get.py`:
    a work item fetched from Azure DevOps becomes a scenario block of a
    Portuguese feature file, with its relation ids as `@wi:` tags, its
    steps turned back from `@name` into `<name>`, and, for a scenario
    outline, an examples table built by transposing the parameter data;
    the blocks of a test suite are assembled into one feature file. */
module FeatureRender {
  import opened Wrappers
  import opened TextOps
  import GherkinEncode

  // ----- step text -----

  /** The run of spaces that the markup removal leaves where a line break
      was. */
  const FiveSpaces := "     "

  /** The end of the `\w` run that starts at `i`. */
  function WordEnd(s: string, i: nat): (r: nat)
    requires i <= |s|
    decreases |s| - i
    ensures i <= r <= |s|
    ensures forall k :: i <= k < r ==> IsWordChar(s[k])
    ensures r < |s| ==> !IsWordChar(s[r])
  {
    if i < |s| && IsWordChar(s[i]) then WordEnd(s, i + 1) else i
  }

  /** `re.sub(r'@(\w+)', r'<\1>', s)`: an `@` followed by a word becomes
      that word between angle brackets. */
  function AtToAngle(s: string): (r: string)
    decreases |s|
    ensures |s| <= |r|
    ensures s != [] ==> r[0] == s[0] || r[0] == '<'
    ensures forall k :: 0 <= k < |r| - 1 && r[k] == '@' ==> !IsWordChar(r[k + 1])
  {
    if s == [] then []
    else if s[0] == '@' && 1 < |s| && IsWordChar(s[1]) then
      var e := WordEnd(s, 1);
      "<" + s[1..e] + ">" + AtToAngle(s[e..])
    else [s[0]] + AtToAngle(s[1..])
  }

  /** The post-processing half of `get_steps_and_expected_results`: the
      text left by the markup removal, with every run of five spaces made
      a line break and every `@word` made `<word>`. */
  function PostProcess(text: string): (r: string)
    ensures forall k :: 0 <= k < |r| - 1 && r[k] == '@' ==> !IsWordChar(r[k + 1])
    ensures '@' !in text && !Contains(text, FiveSpaces) ==> r == text
  {
    PostProcessPlain(text);
    AtToAngle(ReplaceAll(text, FiveSpaces, "\n"))
  }

  /** A text with no `@` and no run of five spaces is left as it is. */
  lemma PostProcessPlain(text: string)
    ensures '@' !in text && !Contains(text, FiveSpaces) ==> AtToAngle(ReplaceAll(text, FiveSpaces, "\n")) == text
  {
    if '@' !in text && !Contains(text, FiveSpaces) {
      ReplaceAllNone(text, FiveSpaces, "\n");
      AtLead(text, []);
      assert text + [] == text;
    }
  }

  /** A step text as a sequence of literal pieces and parameters: the push
      writes a parameter `<name>` as `@name`, the pull reads it back. */
  datatype Piece = Lit(text: string) | Param(name: string)

  /** The text as it stands in the feature file. */
  function GherkinText(ps: seq<Piece>): string {
    if ps == [] then ""
    else
      match ps[0]
      case Lit(t) => t + GherkinText(ps[1..])
      case Param(n) => "<" + n + ">" + GherkinText(ps[1..])
  }

  /** The text as it stands in the work item. */
  function AzureText(ps: seq<Piece>): string {
    if ps == [] then ""
    else
      match ps[0]
      case Lit(t) => t + AzureText(ps[1..])
      case Param(n) => "@" + n + AzureText(ps[1..])
  }

  predicate AllWordChars(n: string) {
    forall k :: 0 <= k < |n| ==> IsWordChar(n[k])
  }

  /** A literal holds no `<` and no `@`; a parameter name is a non-empty
      word. */
  predicate PieceOk(p: Piece) {
    match p
    case Lit(t) => t != [] && '<' !in t && '@' !in t
    case Param(n) => n != [] && AllWordChars(n)
  }

  /** No literal right after a parameter starts with a word character,
      which would lengthen the parameter's name. */
  predicate Fits(a: Piece, b: Piece) {
    a.Param? && b.Lit? && b.text != [] ==> !IsWordChar(b.text[0])
  }

  predicate WellFormed(ps: seq<Piece>) {
    (forall i :: 0 <= i < |ps| ==> PieceOk(ps[i]))
    && (forall i :: 1 <= i < |ps| ==> Fits(ps[i - 1], ps[i]))
  }

  // ----- relation ids -----

  /** Where `$` can match at the end: before a final line break, or at the
      very end. */
  function UrlBodyEnd(url: string): (r: nat)
    ensures r <= |url|
  {
    if |url| > 0 && url[|url| - 1] == '\n' then |url| - 1 else |url|
  }

  /** The start of the digit run that ends at `e`. */
  function DigitsStart(s: string, e: nat): (r: nat)
    requires e <= |s|
    ensures r <= e
    ensures forall k :: r <= k < e ==> IsDigit(s[k])
    ensures r > 0 ==> !IsDigit(s[r - 1])
  {
    if e > 0 && IsDigit(s[e - 1]) then DigitsStart(s, e - 1) else e
  }

  /** `re.search(r'/(\d+)$', url).group(1)`: the digits after the last `/`
      when they run to the end, or `None`. A `/` is not a digit, so the
      run that ends at `$` is the only candidate and the search is this
      one look. */
  function RelationId(url: string): (r: Option<string>)
    ensures r.Some? ==> r.value != [] && AllDigits(r.value)
  {
    var e := UrlBodyEnd(url);
    var b := DigitsStart(url, e);
    if 0 < b < e && url[b - 1] == '/' then Some(url[b..e]) else None
  }

  /** The relation ids of a work item, in relation order; relations whose
      URL does not end in digits are skipped. */
  function RelationIds(urls: seq<string>): (r: seq<string>)
    ensures |r| <= |urls|
  {
    if urls == [] then []
    else
      var u := urls[|urls| - 1];
      RelationIds(urls[..|urls| - 1]) + (match RelationId(u) case Some(v) => [v] case None => [])
  }

  /** The relation loop of `get_test_case`; a work item without relations
      has none. */
  method CollectRelations(relations: Option<seq<string>>) returns (ids: seq<string>)
    ensures ids == RelationIds(if relations.Some? then relations.value else [])
  {
    ids := [];
    if relations.Some? {
      var urls := relations.value;
      var i := 0;
      while i < |urls|
        invariant 0 <= i <= |urls|
        invariant ids == RelationIds(urls[..i])
      {
        assert urls[..i + 1][..i] == urls[..i];
        var m := RelationId(urls[i]);
        if m.Some? {
          ids := ids + [m.value];
        }
        i := i + 1;
      }
      assert urls[..i] == urls;
    }
  }

  // ----- transpose_dict -----

  /** A cell of the data source: the text of an element, `None` for an
      empty one. */
  type Cell = Option<string>

  /** The texts of the elements a parameter names; a name with no element
      has none. */
  function Column(found: map<string, seq<Cell>>, name: string): seq<Cell> {
    if name in found then found[name] else []
  }

  /** The parameter dictionary: each parameter name to its column. */
  function ParamsDict(names: seq<string>, found: map<string, seq<Cell>>): (d: map<string, seq<Cell>>)
    ensures forall k :: k in d <==> k in names
  {
    map k | k in names :: Column(found, k)
  }

  predicate Listed(keys: seq<string>, d: map<string, seq<Cell>>) {
    forall i :: 0 <= i < |keys| ==> keys[i] in d
  }

  /** The length of the longest column. */
  function MaxLen(keys: seq<string>, d: map<string, seq<Cell>>): (r: nat)
    requires Listed(keys, d)
    ensures forall i :: 0 <= i < |keys| ==> |d[keys[i]]| <= r
  {
    if keys == [] then 0
    else
      var m := MaxLen(keys[..|keys| - 1], d);
      var n := |d[keys[|keys| - 1]]|;
      if m < n then n else m
  }

  /** The transposed dictionary, its integer keys `0, 1, ...` as sequence
      positions: row `j` maps each key whose column reaches `j` to that
      column's `j`-th cell. */
  function Transposed(keys: seq<string>, d: map<string, seq<Cell>>): (rows: seq<map<string, Cell>>)
    requires Listed(keys, d)
  {
    seq(MaxLen(keys, d), j requires 0 <= j => map k | k in keys && k in d && j < |d[k]| :: d[k][j])
  }

  /** One more column set into the rows, row `j` created when missing. */
  function AddColumn(rows: seq<map<string, Cell>>, key: string, values: seq<Cell>): (r: seq<map<string, Cell>>)
    ensures |r| == if |rows| < |values| then |values| else |rows|
  {
    var n := if |rows| < |values| then |values| else |rows|;
    seq(n, j requires 0 <= j < n =>
      (if j < |rows| then rows[j] else map[]) + (if j < |values| then map[key := values[j]] else map[]))
  }

  /** The inner loop of `transpose_dict`: `setdefault(index, {})[key] =
      value` for each value of one column. */
  method SetColumn(rows: seq<map<string, Cell>>, key: string, values: seq<Cell>) returns (out: seq<map<string, Cell>>)
    ensures out == AddColumn(rows, key, values)
  {
    out := rows;
    var index := 0;
    while index < |values|
      invariant 0 <= index <= |values|
      invariant |out| == if |rows| < index then index else |rows|
      invariant forall j :: 0 <= j < |out| ==>
        out[j] == (if j < |rows| then rows[j] else map[]) + (if j < index then map[key := values[j]] else map[])
    {
      if index < |out| {
        out := out[index := out[index][key := values[index]]];
      } else {
        out := out + [map[key := values[index]]];
      }
      index := index + 1;
    }
  }

  /** `transpose_dict`, the dictionary's keys listed in `keys`. */
  method Transpose(keys: seq<string>, d: map<string, seq<Cell>>) returns (rows: seq<map<string, Cell>>)
    requires Listed(keys, d)
    ensures rows == Transposed(keys, d)
  {
    rows := [];
    var i := 0;
    while i < |keys|
      invariant 0 <= i <= |keys|
      invariant rows == Transposed(keys[..i], d)
    {
      TransposedNext(keys, d, i);
      rows := SetColumn(rows, keys[i], d[keys[i]]);
      i := i + 1;
    }
    assert keys[..i] == keys;
  }

  // ----- format_transposed_dict -----

  /** ` {v} |` for a present cell, ` |` for a missing or `None` one. */
  function CellText(line: map<string, Cell>, p: string): string {
    if p in line && line[p].Some? then " " + line[p].value + " |" else " |"
  }

  /** The header line: `   |` and ` {p} |` per parameter. */
  function HeaderText(params: seq<string>): string {
    if params == [] then "   |"
    else HeaderText(params[..|params| - 1]) + " " + params[|params| - 1] + " |"
  }

  /** One row: `   |` and one cell per parameter. */
  function RowText(line: map<string, Cell>, params: seq<string>): string {
    if params == [] then "   |"
    else RowText(line, params[..|params| - 1]) + CellText(line, params[|params| - 1])
  }

  /** Lines, each followed by a line break. */
  function Lines(ls: seq<string>): string {
    if ls == [] then "" else Lines(ls[..|ls| - 1]) + ls[|ls| - 1] + "\n"
  }

  function RowTexts(lines: seq<map<string, Cell>>, params: seq<string>): (r: seq<string>)
    ensures |r| == |lines|
  {
    seq(|lines|, i requires 0 <= i < |lines| => RowText(lines[i], params))
  }

  /** The table `format_transposed_dict` gives: the header, a line break,
      and each row followed by a line break. */
  function TableText(lines: seq<map<string, Cell>>, params: seq<string>): string {
    HeaderText(params) + "\n" + Lines(RowTexts(lines, params))
  }

  method FormatHeader(params: seq<string>) returns (headers: string)
    ensures headers == HeaderText(params)
  {
    headers := "   |";
    var i := 0;
    while i < |params|
      invariant 0 <= i <= |params|
      invariant headers == HeaderText(params[..i])
    {
      assert params[..i + 1][..i] == params[..i];
      headers := headers + " " + params[i] + " |";
      i := i + 1;
    }
    assert params[..i] == params;
  }

  method FormatRow(line: map<string, Cell>, params: seq<string>) returns (row: string)
    ensures row == RowText(line, params)
  {
    row := "   |";
    var i := 0;
    while i < |params|
      invariant 0 <= i <= |params|
      invariant row == RowText(line, params[..i])
    {
      assert params[..i + 1][..i] == params[..i];
      var cell := if params[i] in line && line[params[i]].Some? then " " + line[params[i]].value + " |" else " |";
      row := row + cell;
      i := i + 1;
    }
    assert params[..i] == params;
  }

  /** `format_transposed_dict`, the rows in key order. */
  method FormatTransposed(lines: seq<map<string, Cell>>, params: seq<string>) returns (r: string)
    ensures r == TableText(lines, params)
  {
    var headers := FormatHeader(params);
    var rows := "";
    var i := 0;
    while i < |lines|
      invariant 0 <= i <= |lines|
      invariant rows == Lines(RowTexts(lines[..i], params))
    {
      RowTextsSnoc(lines, params, i);
      var row := FormatRow(lines[i], params);
      rows := rows + row + "\n";
      i := i + 1;
    }
    assert lines[..i] == lines;
    r := headers + "\n" + rows;
  }

  // ----- get_test_case -----

  /** A fetched test-case work item: its id, title, the text its steps
      leave once the markup is removed, the URLs of its relations (`None`
      when it has none), the parameter names (`None` when the item has no
      parameters field) and, for each element name, the texts of those
      elements in the data source (`None` when it has no data source). */
  datatype FeatureItem = FeatureItem(
    id: nat,
    title: string,
    stepsText: string,
    relations: Option<seq<string>>,
    params: Option<seq<string>>,
    found: Option<map<string, seq<Cell>>>)

  /** A data source without a parameters field reaches the loop over the
      parameter names, which were never assigned. */
  datatype FeatureError = ParamNamesUnbound

  function WiTags(ids: seq<string>): (r: seq<string>)
    ensures |r| == |ids|
  {
    seq(|ids|, i requires 0 <= i < |ids| => "@wi:" + ids[i])
  }

  /** A scenario block: the `@tc:` tag, one `@wi:` tag per relation id,
      then a scenario outline with its examples table or a plain
      scenario. */
  function ScenarioText(id: nat, relationIds: seq<string>, title: string, steps: string, table: Option<string>): string {
    "@tc:" + NatToString(id) + "\n" + Lines(WiTags(relationIds)) + ScenarioBody(title, steps, table)
  }

  /** What follows the tags: the heading, the steps and, for an outline,
      the examples. */
  function ScenarioBody(title: string, steps: string, table: Option<string>): string {
    match table
    case Some(t) =>
      "Esquema do Cenário: " + title + " \n" + steps + " \n" + "\nExemplos: \n" + t + " \n"
    case None =>
      "Cenário: " + title + " \n" + steps + " \n"
  }

  /** The examples table of an item, `None` when the parameter dictionary
      is empty. */
  function ExamplesText(item: FeatureItem): Result<Option<string>, FeatureError> {
    match item.found
    case None => Ok(None)
    case Some(found) =>
      match item.params
      case None => Err(ParamNamesUnbound)
      case Some(names) =>
        if names == [] then Ok(None)
        else Ok(Some(TableText(Transposed(names, ParamsDict(names, found)), names)))
  }

  /** `get_test_case` as a value: `None` for a failed fetch. */
  function TestCaseBlock(response: Option<FeatureItem>): Result<Option<string>, FeatureError> {
    match response
    case None => Ok(None)
    case Some(item) =>
      match ExamplesText(item)
      case Err(e) => Err(e)
      case Ok(table) =>
        var ids := RelationIds(if item.relations.Some? then item.relations.value else []);
        Ok(Some(ScenarioText(item.id, ids, item.title, PostProcess(item.stepsText), table)))
  }

  /** The loop that fills the parameter dictionary. */
  method BuildParamsDict(names: seq<string>, found: map<string, seq<Cell>>) returns (d: map<string, seq<Cell>>)
    ensures d == ParamsDict(names, found)
  {
    d := map[];
    var i := 0;
    while i < |names|
      invariant 0 <= i <= |names|
      invariant d == ParamsDict(names[..i], found)
    {
      assert names[..i + 1] == names[..i] + [names[i]];
      d := d[names[i] := Column(found, names[i])];
      i := i + 1;
    }
    assert names[..i] == names;
  }

  /** The `@wi:` loop of `get_test_case`. */
  method AppendWiTags(result: string, ids: seq<string>) returns (out: string)
    ensures out == result + Lines(WiTags(ids))
  {
    out := result;
    var i := 0;
    while i < |ids|
      invariant 0 <= i <= |ids|
      invariant out == result + Lines(WiTags(ids[..i]))
    {
      WiTagsSnoc(ids, i);
      out := out + "@wi:" + ids[i] + "\n";
      i := i + 1;
    }
    assert ids[..i] == ids;
  }

  method ExamplesOf(item: FeatureItem) returns (r: Result<Option<string>, FeatureError>)
    ensures r == ExamplesText(item)
  {
    if item.found.None? {
      return Ok(None);
    }
    if item.params.None? {
      return Err(ParamNamesUnbound);
    }
    var names := item.params.value;
    var d := BuildParamsDict(names, item.found.value);
    ParamsDictEmpty(names, item.found.value);
    if |d| > 0 {
      var transposed := Transpose(names, d);
      var formated := FormatTransposed(transposed, names);
      r := Ok(Some(formated));
    } else {
      r := Ok(None);
    }
  }

  /** The dictionary is empty exactly when there is no parameter name. */
  lemma ParamsDictEmpty(names: seq<string>, found: map<string, seq<Cell>>)
    ensures |ParamsDict(names, found)| == 0 <==> names == []
  {
    var d := ParamsDict(names, found);
    if names != [] {
      assert names[0] in d;
    } else {
      assert d.Keys == {};
    }
  }

  /** The heading and steps of `get_test_case`, and the examples of an
      outline. */
  method AppendScenarioBody(result: string, title: string, steps: string, table: Option<string>) returns (out: string)
    ensures out == result + ScenarioBody(title, steps, table)
  {
    out := result;
    match table {
      case Some(formated) =>
        out := out + "Esquema do Cenário: " + title + " \n";
        out := out + steps + " \n";
        out := out + "\nExemplos: \n";
        out := out + formated + " \n";
      case None =>
        out := out + "Cenário: " + title + " \n";
        out := out + steps + " \n";
    }
  }

  /** `get_test_case`: `None` when the fetch failed. */
  method GetTestCase(response: Option<FeatureItem>) returns (r: Result<Option<string>, FeatureError>)
    ensures r == TestCaseBlock(response)
  {
    if response.None? {
      return Ok(None);
    }
    var item := response.value;
    var wiRelations := CollectRelations(item.relations);
    var examples := ExamplesOf(item);
    if examples.Err? {
      return Err(examples.error);
    }
    var steps := PostProcess(item.stepsText);
    var result := "@tc:" + NatToString(item.id) + "\n";
    result := AppendWiTags(result, wiRelations);
    result := AppendScenarioBody(result, item.title, steps, examples.value);
    r := Ok(Some(result));
  }

  // ----- the suite file of get_azure_test_cases -----

  /** A test suite of the plan: its id, its name, and the fetched test
      cases (`None` when the listing failed). */
  datatype Suite = Suite(id: nat, name: string, cases: Option<seq<Option<FeatureItem>>>)

  /** A block in the file: `None` for a failed fetch is written as the text
      `None`. */
  function BlockText(b: Option<string>): string {
    if b.Some? then b.value else "None"
  }

  function SuiteHeader(id: nat, name: string): string {
    "#language:pt \n" + "@suiteId:" + NatToString(id) + " \n" + "Funcionalidade: " + name + " \n" + "\n\n"
  }

  function SuiteBody(blocks: seq<Option<string>>): string {
    if blocks == [] then ""
    else SuiteBody(blocks[..|blocks| - 1]) + BlockText(blocks[|blocks| - 1]) + " \n"
  }

  /** The blocks of the test cases in order, or the first exception. */
  function FormattedCases(responses: seq<Option<FeatureItem>>): (r: Result<seq<Option<string>>, FeatureError>)
    ensures r.Ok? ==> |r.value| == |responses|
  {
    if responses == [] then Ok([])
    else
      match FormattedCases(responses[..|responses| - 1])
      case Err(e) => Err(e)
      case Ok(blocks) =>
        match TestCaseBlock(responses[|responses| - 1])
        case Err(e) => Err(e)
        case Ok(b) => Ok(blocks + [b])
  }

  /** The feature file written for a suite, rebuilt from its test cases
      alone; `None` when no file is written (a failed listing or no test
      case). */
  function SuiteFile(suite: Suite): Result<Option<string>, FeatureError> {
    match suite.cases
    case None => Ok(None)
    case Some(responses) =>
      if responses == [] then Ok(None)
      else
        match FormattedCases(responses)
        case Err(e) => Err(e)
        case Ok(blocks) => Ok(Some(SuiteHeader(suite.id, suite.name) + SuiteBody(blocks)))
  }

  /** The file name of a suite, relative to the configured folder. */
  function SuiteFileName(id: nat): string {
    NatToString(id) + ".feature"
  }

  /** The test-case loop of `get_azure_test_cases` for one suite. */
  method FormatCases(responses: seq<Option<FeatureItem>>) returns (r: Result<seq<Option<string>>, FeatureError>)
    ensures r == FormattedCases(responses)
  {
    var formatedTestCases := [];
    var i := 0;
    while i < |responses|
      invariant 0 <= i <= |responses|
      invariant FormattedCases(responses[..i]) == Ok(formatedTestCases)
    {
      assert responses[..i + 1][..i] == responses[..i];
      var formated := GetTestCase(responses[i]);
      if formated.Err? {
        FormattedCasesStops(responses, i + 1);
        return Err(formated.error);
      }
      formatedTestCases := formatedTestCases + [formated.value];
      i := i + 1;
    }
    assert responses[..i] == responses;
    r := Ok(formatedTestCases);
  }

  /** The file content `get_azure_test_cases` writes for a suite. */
  method SyncSuite(suite: Suite) returns (r: Result<Option<string>, FeatureError>)
    ensures r == SuiteFile(suite)
  {
    if suite.cases.None? || |suite.cases.value| == 0 {
      return Ok(None);
    }
    var cases := FormatCases(suite.cases.value);
    if cases.Err? {
      return Err(cases.error);
    }
    var fileContent := "#language:pt \n";
    fileContent := fileContent + "@suiteId:" + NatToString(suite.id) + " \n";
    fileContent := fileContent + "Funcionalidade: " + suite.name + " \n";
    fileContent := fileContent + "\n\n";
    assert fileContent == SuiteHeader(suite.id, suite.name);
    fileContent := AppendBlocks(fileContent, cases.value);
    r := Ok(Some(fileContent));
  }

  /** The loop that writes each block followed by ` \n`. */
  method AppendBlocks(content: string, blocks: seq<Option<string>>) returns (out: string)
    ensures out == content + SuiteBody(blocks)
  {
    out := content;
    var i := 0;
    while i < |blocks|
      invariant 0 <= i <= |blocks|
      invariant out == content + SuiteBody(blocks[..i])
    {
      assert blocks[..i + 1][..i] == blocks[..i];
      out := out + BlockText(blocks[i]) + " \n";
      i := i + 1;
    }
    assert blocks[..i] == blocks;
  }

  // ----- properties -----

  lemma {:induction false} WordEndTo(s: string, i: nat, j: nat)
    requires i <= j <= |s|
    requires forall k :: i <= k < j ==> IsWordChar(s[k])
    requires j < |s| ==> !IsWordChar(s[j])
    ensures WordEnd(s, i) == j
    decreases j - i
  {
    if i < j {
      WordEndTo(s, i + 1, j);
    }
  }

  /** A text without `@` in front of the rest is kept in front. */
  lemma {:induction false} AtLead(a: string, b: string)
    requires '@' !in a
    ensures AtToAngle(a + b) == a + AtToAngle(b)
    decreases |a|
  {
    if a != [] {
      assert (a + b)[0] == a[0];
      assert (a + b)[1..] == a[1..] + b;
      AtLead(a[1..], b);
    } else {
      assert a + b == b;
    }
  }

  /** `@w`, with `w` a whole word, becomes `<w>`. */
  lemma AtOne(w: string, b: string)
    requires w != [] && AllWordChars(w)
    requires b == [] || !IsWordChar(b[0])
    ensures AtToAngle("@" + w + b) == "<" + w + ">" + AtToAngle(b)
  {
    var s := "@" + w + b;
    assert forall k :: 1 <= k <= |w| ==> s[k] == w[k - 1];
    assert |w| + 1 < |s| ==> s[|w| + 1] == b[0];
    WordEndTo(s, 1, |w| + 1);
    assert s[1..|w| + 1] == w;
    assert s[|w| + 1..] == b;
  }

  lemma WellFormedRest(ps: seq<Piece>)
    requires ps != [] && WellFormed(ps)
    ensures WellFormed(ps[1..])
  {
    var rest := ps[1..];
    forall i | 1 <= i < |rest|
      ensures Fits(rest[i - 1], rest[i])
    {
      assert Fits(ps[i], ps[i + 1]);
    }
  }

  /** The work-item text of pieces that follow a parameter does not start
      with a word character. */
  lemma AzureTextFirst(ps: seq<Piece>)
    requires |ps| >= 2 && WellFormed(ps) && ps[0].Param?
    ensures var t := AzureText(ps[1..]); t != [] && !IsWordChar(t[0])
  {
    assert Fits(ps[0], ps[1]);
    assert PieceOk(ps[1]);
    assert ps[1..][1..] == ps[2..];
  }

  /** Reading back the work-item text gives the feature-file text. */
  lemma {:induction false} AzureToGherkin(ps: seq<Piece>)
    requires WellFormed(ps)
    ensures AtToAngle(AzureText(ps)) == GherkinText(ps)
  {
    if ps != [] {
      WellFormedRest(ps);
      AzureToGherkin(ps[1..]);
      assert PieceOk(ps[0]);
      match ps[0]
      case Lit(t) =>
        AtLead(t, AzureText(ps[1..]));
      case Param(n) =>
        if |ps| >= 2 {
          AzureTextFirst(ps);
        }
        assert "@" + n + AzureText(ps[1..]) == "@" + n + AzureText(ps[1..]);
        AtOne(n, AzureText(ps[1..]));
    }
  }

  /** Writing the feature-file text back gives the work-item text. */
  lemma {:induction false} GherkinToAzure(ps: seq<Piece>)
    requires WellFormed(ps)
    ensures GherkinEncode.PlaceholdersToAt(GherkinText(ps)) == AzureText(ps)
  {
    if ps != [] {
      WellFormedRest(ps);
      GherkinToAzure(ps[1..]);
      assert PieceOk(ps[0]);
      match ps[0]
      case Lit(t) =>
        GherkinEncode.PlaceholdersLead(t, GherkinText(ps[1..]));
      case Param(n) =>
        assert forall k :: 0 <= k < |n| ==> n[k] != '>' && n[k] != '\n';
        GherkinEncode.PlaceholderOne(n, GherkinText(ps[1..]));
    }
  }

  /** The post-processing of the pull undoes the placeholder rewrite of
      the push for a step text without a run of five spaces. */
  lemma PostProcessRoundTrip(ps: seq<Piece>)
    requires WellFormed(ps) && !Contains(AzureText(ps), FiveSpaces)
    ensures PostProcess(AzureText(ps)) == GherkinText(ps)
    ensures GherkinEncode.PlaceholdersToAt(PostProcess(AzureText(ps))) == AzureText(ps)
  {
    ReplaceAllNone(AzureText(ps), FiveSpaces, "\n");
    AzureToGherkin(ps);
    GherkinToAzure(ps);
  }

  /** Lines without spaces or `@`, separated by runs of five spaces, come
      out one per line. */
  lemma {:induction false} PostProcessLines(ls: seq<string>)
    requires forall i :: 0 <= i < |ls| ==> ' ' !in ls[i] && '@' !in ls[i]
    ensures PostProcess(Join(ls, FiveSpaces)) == Join(ls, "\n")
  {
    ReplaceLines(ls);
    NoAtJoin(ls);
    AtLead(Join(ls, "\n"), "");
    assert Join(ls, "\n") + "" == Join(ls, "\n");
  }

  lemma {:induction false} ReplaceLines(ls: seq<string>)
    requires forall i :: 0 <= i < |ls| ==> ' ' !in ls[i]
    ensures ReplaceAll(Join(ls, FiveSpaces), FiveSpaces, "\n") == Join(ls, "\n")
  {
    if |ls| == 1 {
      ReplaceAllAbsent(ls[0], FiveSpaces, "\n");
    } else if |ls| > 1 {
      ReplaceLines(ls[1..]);
      var rest := Join(ls[1..], FiveSpaces);
      assert Join(ls, FiveSpaces) == ls[0] + (FiveSpaces + rest);
      ReplaceAllConcat(ls[0], FiveSpaces + rest, FiveSpaces, "\n");
      ReplaceAllPrefix(FiveSpaces, rest, "\n");
    }
  }

  lemma {:induction false} NoAtJoin(ls: seq<string>)
    requires forall i :: 0 <= i < |ls| ==> '@' !in ls[i]
    ensures '@' !in Join(ls, "\n")
  {
    if |ls| > 1 {
      NoAtJoin(ls[1..]);
    }
  }

  lemma {:induction false} DigitsStartTo(s: string, b: nat, e: nat)
    requires 0 < b <= e <= |s| && !IsDigit(s[b - 1])
    requires forall k :: b <= k < e ==> IsDigit(s[k])
    ensures DigitsStart(s, e) == b
    decreases e - b
  {
    if b < e {
      DigitsStartTo(s, b, e - 1);
    }
  }

  /** A URL ending in `/` and a digit run, with or without a final line
      break, gives that run. */
  lemma RelationIdOf(x: string, v: string, lineBreak: bool)
    requires v != [] && AllDigits(v)
    ensures RelationId(x + "/" + v + (if lineBreak then "\n" else "")) == Some(v)
  {
    var s := x + "/" + v + (if lineBreak then "\n" else "");
    var b := |x| + 1;
    var e := b + |v|;
    assert UrlBodyEnd(s) == e;
    assert s[b - 1] == '/';
    assert forall k :: b <= k < e ==> s[k] == v[k - b];
    DigitsStartTo(s, b, e);
    assert s[b..e] == v;
  }

  /** A relation id is the digit run after the URL's last `/`, at its end
      or before a final line break. */
  lemma RelationIdShape(url: string)
    requires RelationId(url).Some?
    ensures var v := RelationId(url).value;
      EndsWith(url, "/" + v) || EndsWith(url, "/" + v + "\n")
  {
    var e := UrlBodyEnd(url);
    var b := DigitsStart(url, e);
    var v := url[b..e];
    if e == |url| {
      assert url[|url| - |"/" + v|..] == "/" + v;
    } else {
      assert url[|url| - |"/" + v + "\n"|..] == "/" + v + "\n";
    }
  }

  /** Relations whose URLs all end in ids give those ids, in order. */
  lemma {:induction false} RelationIdsAll(urls: seq<string>, ids: seq<string>)
    requires |urls| == |ids|
    requires forall i :: 0 <= i < |urls| ==> RelationId(urls[i]) == Some(ids[i])
    ensures RelationIds(urls) == ids
  {
    if urls != [] {
      var n := |urls| - 1;
      RelationIdsAll(urls[..n], ids[..n]);
      assert ids == ids[..n] + [ids[n]];
    }
  }

  /** The transposed rows of one more key: its column set into them. */
  lemma TransposedNext(keys: seq<string>, d: map<string, seq<Cell>>, i: nat)
    requires Listed(keys, d) && i < |keys|
    ensures Listed(keys[..i], d) && Listed(keys[..i + 1], d)
    ensures Transposed(keys[..i + 1], d) == AddColumn(Transposed(keys[..i], d), keys[i], d[keys[i]])
  {
    var a := keys[..i];
    var b := keys[..i + 1];
    assert b[..i] == a;
    assert b == a + [keys[i]];
    var before := Transposed(a, d);
    var after := Transposed(b, d);
    var added := AddColumn(before, keys[i], d[keys[i]]);
    assert |after| == |added|;
    forall j | 0 <= j < |after|
      ensures after[j] == added[j]
    {
      var lhs := after[j];
      var rhs := added[j];
      forall k
        ensures k in lhs <==> k in rhs
        ensures k in lhs ==> lhs[k] == rhs[k]
      {
        assert k in b <==> k in a || k == keys[i];
      }
      assert lhs.Keys == rhs.Keys;
    }
  }

  /** Every cell of the dictionary sits in its row under its key. */
  lemma TransposedHas(keys: seq<string>, d: map<string, seq<Cell>>, k: string, j: nat)
    requires Listed(keys, d) && k in keys && j < |d[k]|
    ensures j < |Transposed(keys, d)|
    ensures k in Transposed(keys, d)[j] && Transposed(keys, d)[j][k] == d[k][j]
  {
  }

  /** And a row holds nothing else. */
  lemma TransposedOnly(keys: seq<string>, d: map<string, seq<Cell>>, k: string, j: nat)
    requires Listed(keys, d) && j < |Transposed(keys, d)|
    requires k in Transposed(keys, d)[j]
    ensures k in keys && k in d && j < |d[k]|
  {
  }

  /** The longest column is reached by some key. */
  lemma {:induction false} MaxLenReached(keys: seq<string>, d: map<string, seq<Cell>>) returns (i: nat)
    requires Listed(keys, d) && MaxLen(keys, d) > 0
    ensures i < |keys| && |d[keys[i]]| == MaxLen(keys, d)
  {
    var n := |keys| - 1;
    if MaxLen(keys[..n], d) < |d[keys[n]]| {
      i := n;
    } else {
      i := MaxLenReached(keys[..n], d);
      assert keys[..n][i] == keys[i];
    }
  }

  /** There is no empty row: each row index is reached by some column. */
  lemma TransposedNoEmptyRow(keys: seq<string>, d: map<string, seq<Cell>>, j: nat)
    requires Listed(keys, d) && j < |Transposed(keys, d)|
    ensures Transposed(keys, d)[j] != map[]
  {
    var i := MaxLenReached(keys, d);
    assert keys[i] in Transposed(keys, d)[j];
  }

  /** The number of occurrences of `c`. */
  function Count(s: string, c: char): nat {
    if s == [] then 0 else Count(s[..|s| - 1], c) + (if s[|s| - 1] == c then 1 else 0)
  }

  lemma {:induction false} CountConcat(a: string, b: string, c: char)
    ensures Count(a + b, c) == Count(a, c) + Count(b, c)
    decreases |b|
  {
    if b == [] {
      assert a + b == a;
    } else {
      var n := |b| - 1;
      CountConcat(a, b[..n], c);
      assert (a + b)[..|a + b| - 1] == a + b[..n];
    }
  }

  lemma {:induction false} CountAbsent(s: string, c: char)
    requires forall k :: 0 <= k < |s| ==> s[k] != c
    ensures Count(s, c) == 0
  {
    if s != [] {
      CountAbsent(s[..|s| - 1], c);
    }
  }

  /** A cell writes one bar when its value holds none. */
  lemma CellBars(line: map<string, Cell>, p: string)
    requires p in line && line[p].Some? ==> '|' !in line[p].value
    ensures Count(CellText(line, p), '|') == 1
  {
    if p in line && line[p].Some? {
      var v := line[p].value;
      CountConcat(" " + v, " |", '|');
      CountConcat(" ", v, '|');
      CountAbsent(v, '|');
    } else {
      assert " |"[..1] == " ";
    }
  }

  /** Every row has a cell per parameter: it holds one bar more than there
      are parameters, when no value holds a bar. */
  lemma {:induction false} RowBars(line: map<string, Cell>, params: seq<string>)
    requires forall p :: p in line && line[p].Some? ==> '|' !in line[p].value
    ensures Count(RowText(line, params), '|') == |params| + 1
  {
    if params == [] {
      assert "   |"[..3] == "   ";
      CountAbsent("   ", '|');
    } else {
      var n := |params| - 1;
      RowBars(line, params[..n]);
      CountConcat(RowText(line, params[..n]), CellText(line, params[n]), '|');
      CellBars(line, params[n]);
    }
  }

  /** Lines joined by line breaks are read back one by one. */
  lemma {:induction false} LinesSplit(ls: seq<string>, tail: string)
    requires forall i :: 0 <= i < |ls| ==> '\n' !in ls[i]
    ensures Split(Lines(ls) + tail, '\n') == ls + Split(tail, '\n')
  {
    if ls != [] {
      var n := |ls| - 1;
      var init := ls[..n];
      var tail' := ls[n] + ['\n'] + tail;
      assert Lines(ls) + tail == Lines(init) + tail' by {
        assert Lines(ls) == Lines(init) + ls[n] + "\n";
      }
      assert Split(Lines(init) + tail', '\n') == init + Split(tail', '\n') by {
        assert forall i :: 0 <= i < |init| ==> init[i] == ls[i];
        LinesSplit(init, tail');
      }
      assert Split(tail', '\n') == [ls[n]] + Split(tail, '\n') by {
        SplitLead(ls[n], tail, '\n');
      }
      assert ls == init + [ls[n]];
      AppendAssoc(init, [ls[n]], Split(tail, '\n'));
    } else {
      assert Lines(ls) + tail == tail;
    }
  }

  lemma NoBreakRow(line: map<string, Cell>, params: seq<string>)
    requires forall i :: 0 <= i < |params| ==> '\n' !in params[i]
    requires forall p :: p in line && line[p].Some? ==> '\n' !in line[p].value
    ensures '\n' !in RowText(line, params)
    ensures '\n' !in HeaderText(params)
  {
    if params != [] {
      var n := |params| - 1;
      NoBreakRow(line, params[..n]);
      assert params[n] == params[n];
    }
  }

  /** The table's lines are its header and one line per row, in order. */
  lemma TableLines(lines: seq<map<string, Cell>>, params: seq<string>)
    requires forall i :: 0 <= i < |params| ==> '\n' !in params[i]
    requires forall i, p :: 0 <= i < |lines| && p in lines[i] && lines[i][p].Some? ==> '\n' !in lines[i][p].value
    ensures Split(TableText(lines, params), '\n') == [HeaderText(params)] + RowTexts(lines, params) + [""]
  {
    var rows := RowTexts(lines, params);
    RowTextsNoBreak(lines, params);
    NoBreakRow(map[], params);
    RowsSplit(rows);
    SplitLead(HeaderText(params), Lines(rows), '\n');
    assert TableText(lines, params) == HeaderText(params) + ['\n'] + Lines(rows);
    AppendAssoc([HeaderText(params)], rows, [""]);
  }

  lemma RowsSplit(rows: seq<string>)
    requires forall i :: 0 <= i < |rows| ==> '\n' !in rows[i]
    ensures Split(Lines(rows), '\n') == rows + [""]
  {
    LinesSplit(rows, "");
    assert Lines(rows) + "" == Lines(rows);
  }

  lemma RowTextsNoBreak(lines: seq<map<string, Cell>>, params: seq<string>)
    requires forall i :: 0 <= i < |params| ==> '\n' !in params[i]
    requires forall i, p :: 0 <= i < |lines| && p in lines[i] && lines[i][p].Some? ==> '\n' !in lines[i][p].value
    ensures forall i :: 0 <= i < |lines| ==> '\n' !in RowTexts(lines, params)[i]
  {
    forall i | 0 <= i < |lines|
      ensures '\n' !in RowTexts(lines, params)[i]
    {
      NoBreakRow(lines[i], params);
    }
  }

  lemma RowTextsSnoc(lines: seq<map<string, Cell>>, params: seq<string>, i: nat)
    requires i < |lines|
    ensures Lines(RowTexts(lines[..i + 1], params)) == Lines(RowTexts(lines[..i], params)) + RowText(lines[i], params) + "\n"
  {
    var a := RowTexts(lines[..i + 1], params);
    assert a[..i] == RowTexts(lines[..i], params);
  }

  lemma WiTagsSnoc(ids: seq<string>, i: nat)
    requires i < |ids|
    ensures Lines(WiTags(ids[..i + 1])) == Lines(WiTags(ids[..i])) + "@wi:" + ids[i] + "\n"
  {
    var a := WiTags(ids[..i + 1]);
    assert a[..i] == WiTags(ids[..i]);
  }

  /** A scenario block opens with its `@tc:` line and one `@wi:` line per
      relation id. */
  lemma ScenarioTagLines(id: nat, relationIds: seq<string>, title: string, steps: string, table: Option<string>)
    requires forall i :: 0 <= i < |relationIds| ==> '\n' !in relationIds[i]
    ensures var ls := Split(ScenarioText(id, relationIds, title, steps, table), '\n');
      |ls| > |relationIds| && ls[..|relationIds| + 1] == ["@tc:" + NatToString(id)] + WiTags(relationIds)
  {
    var tags := WiTags(relationIds);
    var first := "@tc:" + NatToString(id);
    var tail := ScenarioBody(title, steps, table);
    assert ScenarioText(id, relationIds, title, steps, table) == first + ['\n'] + (Lines(tags) + tail);
    assert forall k :: 0 <= k < |NatToString(id)| ==> IsDigit(NatToString(id)[k]);
    assert '\n' !in first by {
      assert forall k :: 0 <= k < |first| ==> first[k] != '\n';
    }
    forall i | 0 <= i < |tags|
      ensures '\n' !in tags[i]
    {
      assert tags[i] == "@wi:" + relationIds[i];
    }
    SplitLead(first, Lines(tags) + tail, '\n');
    LinesSplit(tags, tail);
    AppendAssoc([first], tags, Split(tail, '\n'));
    var ls := ([first] + tags) + Split(tail, '\n');
    assert ls[..|tags| + 1] == [first] + tags;
  }

  /** The `@tc:` tag the pull writes is read back by the push as the work
      item's own id. */
  lemma ScenarioIdReadBack(id: nat)
    ensures GherkinEncode.TcIds(["@tc:" + NatToString(id)]) == [NatToString(id)]
    ensures DigitsValue(NatToString(id)) == id
  {
    var v := NatToString(id);
    assert !Contains(v, GherkinEncode.TcPrefix) by {
      forall k | 0 <= k <= |v| - |GherkinEncode.TcPrefix|
        ensures !OccursAt(v, GherkinEncode.TcPrefix, k)
      {
        assert IsDigit(v[k]);
      }
    }
    GherkinEncode.TcIdsRoundTrip([v]);
    assert GherkinEncode.TcTags([v]) == [GherkinEncode.TcPrefix + v];
    NatToStringValue(id);
  }

  /** The examples table is there exactly when the item has a data source
      and at least one parameter name; a data source without a parameters
      field raises. */
  lemma ExamplesTextCases(item: FeatureItem)
    ensures ExamplesText(item).Err? <==> item.found.Some? && item.params.None?
    ensures ExamplesText(item).Ok? && ExamplesText(item).value.Some?
      <==> item.found.Some? && item.params.Some? && item.params.value != []
  {
  }

  /** Each block of a suite is the rendering of its own test case. */
  lemma {:induction false} FormattedCasesAt(responses: seq<Option<FeatureItem>>, k: nat)
    requires FormattedCases(responses).Ok? && k < |responses|
    ensures TestCaseBlock(responses[k]).Ok?
    ensures FormattedCases(responses).value[k] == TestCaseBlock(responses[k]).value
  {
    var n := |responses| - 1;
    var before := FormattedCases(responses[..n]);
    assert before.Ok? && TestCaseBlock(responses[n]).Ok?;
    assert FormattedCases(responses).value == before.value + [TestCaseBlock(responses[n]).value];
    if k < n {
      FormattedCasesAt(responses[..n], k);
      assert responses[..n][k] == responses[k];
      assert FormattedCases(responses).value[k] == before.value[k];
    }
  }

  /** Once a test case raises, the later ones are not rendered. */
  lemma {:induction false} FormattedCasesStops(responses: seq<Option<FeatureItem>>, k: nat)
    requires 0 < k <= |responses| && TestCaseBlock(responses[k - 1]).Err?
    requires FormattedCases(responses[..k - 1]).Ok?
    ensures FormattedCases(responses) == Err(TestCaseBlock(responses[k - 1]).error)
    decreases |responses| - k
  {
    assert responses[..k][..k - 1] == responses[..k - 1];
    if k < |responses| {
      var n := |responses| - 1;
      assert responses[..n][..k - 1] == responses[..k - 1];
      assert responses[..n][k - 1] == responses[k - 1];
      FormattedCasesStops(responses[..n], k);
    } else {
      assert responses[..k] == responses;
    }
  }

  /** The file starts with the suite header whatever the test cases are,
      and depends on nothing but the suite. */
  lemma SuiteFileHeader(suite: Suite)
    requires SuiteFile(suite).Ok? && SuiteFile(suite).value.Some?
    ensures StartsWith(SuiteFile(suite).value.value, SuiteHeader(suite.id, suite.name))
  {
    var h := SuiteHeader(suite.id, suite.name);
    var f := SuiteFile(suite).value.value;
    assert f[..|h|] == h;
  }

  /** The body lists the blocks in order: the body of the first blocks is
      the beginning of the whole body. */
  lemma {:induction false} SuiteBodyPrefix(blocks: seq<Option<string>>, k: nat)
    requires k <= |blocks|
    ensures StartsWith(SuiteBody(blocks), SuiteBody(blocks[..k]))
    decreases |blocks| - k
  {
    if k < |blocks| {
      var n := |blocks| - 1;
      SuiteBodyPrefix(blocks[..n], k);
      assert blocks[..n][..k] == blocks[..k];
      var b := SuiteBody(blocks[..k]);
      assert SuiteBody(blocks)[..|b|] == SuiteBody(blocks[..n])[..|b|];
    } else {
      assert blocks[..k] == blocks;
    }
  }
}
