/** The push direction (`rf_azure_sync_patch`): the tag values of a parsed
    test case, the JSON-Patch operations that update its Azure DevOps work
    item, and the loop over the Robot files that sends one PATCH per test
    case. The HTTP call itself is not modelled: a request is the URL and
    the operation list it would carry. */
module PushPatch {
  import opened Wrappers
  import opened TextOps
  import opened TagScan
  import opened TagGrammar
  import opened StepsCodec
  import opened RobotParser
  import opened RobotSections
  import opened SyncConfig

  /** The value of a JSON-Patch operation: a string, JSON `null`, or the
      relation object of a link. */
  datatype PatchValue = Text(text: string) | Null | Link(rel: string, url: string, comment: string)

  /** One operation of a JSON-Patch document (section 4 of RFC 6902). */
  datatype PatchOp = PatchOp(op: string, path: string, value: PatchValue)

  function OptionalText(v: Option<string>): PatchValue {
    if v.Some? then Text(v.value) else Null
  }

  /** Why the push loop stops: the automation-status search failed (the
      `.group(1)` on `None` of the source), a record has no Title or Steps
      (a `[tags]` line before any title), or the test-case section could
      not be parsed. */
  datatype PushError =
    | NoAutomationStatus(tags: string)
    | NoTitle(tags: string)
    | SectionError(cause: ParseError)

  // ----- extract_tags_info -----

  datatype TagsInfo = TagsInfo(automationStatus: string, priority: Option<string>, tagsValue: string)

  /** `tags_value`: the test tags, the system tags, both joined by "; ", or
      "" (an absent value and an empty one are both false in Python). */
  function CombineTags(testTags: string, systemTags: string): (r: string)
    ensures r == [] <==> testTags == [] && systemTags == []
    ensures testTags != [] ==> StartsWith(r, testTags)
  {
    if testTags != "" && systemTags == "" then testTags
    else if systemTags != "" && testTags == "" then systemTags
    else if systemTags != "" && testTags != "" then testTags + "; " + systemTags
    else ""
  }

  /** `extract_tags_info`: the automation status (underscores turned into
      spaces), the priority, and the combined tags value. The group of
      `[^\s]+` holds no white space, so the `.strip()` applied to the
      status and the priority changes nothing and is not written out. */
  function ExtractTagsInfo(tags: string, cfg: TagConfig): (r: Result<TagsInfo, PushError>)
    ensures r.Err? <==> forall k :: !MatchesAt(tags, cfg.automationStatus, NonSpaces, k)
    ensures r.Ok? ==> r.value.automationStatus != [] && '_' !in r.value.automationStatus
    ensures r.Ok? ==> (r.value.priority.None? <==> forall k :: !MatchesAt(tags, cfg.priority, NonSpaces, k))
    ensures r.Ok? && r.value.priority.Some? ==> NoSpace(r.value.priority.value)
    ensures r.Ok? && Strip(tags) != [] ==> StartsWith(r.value.tagsValue, Strip(tags))
  {
    match Search(tags, cfg.automationStatus, NonSpaces)
    case None => Err(NoAutomationStatus(tags))
    case Some(status) =>
      var system := match Search(tags, cfg.systemTags, WordsAndSpaces)
        case None => ""
        case Some(g) => Strip(g);
      Ok(TagsInfo(ReplaceChar(status, '_', ' '), Search(tags, cfg.priority, NonSpaces),
                  CombineTags(Strip(tags), system)))
  }

  // ----- build_iteration_path_tags -----

  const IterationPathField: string := "/fields/System.IterationPath"

  function IterationOp(areaPath: string, candidate: string): PatchOp {
    PatchOp("replace", IterationPathField, Text(areaPath + ReplaceChar(candidate, '_', ' ')))
  }

  /** `build_iteration_path_tags`: every candidate overwrites the op, so the
      last one wins; no candidate gives `None`. */
  method BuildIterationPathTags(candidates: seq<string>, areaPath: string) returns (r: Option<PatchOp>)
    ensures r.None? <==> candidates == []
    ensures candidates != [] ==> r == Some(IterationOp(areaPath, candidates[|candidates| - 1]))
  {
    r := None;
    var i := 0;
    while i < |candidates|
      invariant 0 <= i <= |candidates|
      invariant r.None? <==> i == 0
      invariant i > 0 ==> r == Some(IterationOp(areaPath, candidates[i - 1]))
    {
      r := Some(IterationOp(areaPath, candidates[i]));
      i := i + 1;
    }
  }

  // ----- build_linked_items -----

  const RelationsPath: string := "/relations/-"
  const TestedByReverse: string := "Microsoft.VSTS.Common.TestedBy-Reverse"
  const LinkComment: string := "Associated test case with work item"

  function WorkItemUrl(organization: string, project: string, id: string): string {
    "https://dev.azure.com/" + organization + "/" + project + "/_apis/wit/workitems/" + id
  }

  function LinkOp(organization: string, project: string, id: string): PatchOp {
    PatchOp("add", RelationsPath, Link(TestedByReverse, WorkItemUrl(organization, project, id), LinkComment))
  }

  function LinkOps(organization: string, project: string, ids: seq<string>): (r: seq<PatchOp>)
    ensures |r| == |ids|
    ensures forall i :: 0 <= i < |ids| ==> r[i] == LinkOp(organization, project, ids[i])
  {
    if ids == [] then []
    else LinkOps(organization, project, ids[..|ids| - 1]) + [LinkOp(organization, project, ids[|ids| - 1])]
  }

  /** `build_linked_items`: one `add` of a tested-by relation per linked
      id, in the order of the ids. */
  method BuildLinkedItems(ids: seq<string>, organization: string, project: string) returns (ops: seq<PatchOp>)
    ensures |ops| == |ids|
    ensures forall i :: 0 <= i < |ids| ==> ops[i].op == "add" && ops[i].path == RelationsPath
    ensures forall i :: 0 <= i < |ids| ==> ops[i].value.Link? && ops[i].value.url == WorkItemUrl(organization, project, ids[i])
    ensures ops == LinkOps(organization, project, ids)
  {
    ops := [];
    var i := 0;
    while i < |ids|
      invariant 0 <= i <= |ids|
      invariant ops == LinkOps(organization, project, ids[..i])
    {
      assert ids[..i + 1][..i] == ids[..i];
      ops := ops + [LinkOp(organization, project, ids[i])];
      i := i + 1;
    }
    assert ids[..i] == ids;
  }

  // ----- build_fields -----

  const AutomationStatusField: string := "/fields/Custom.AutomationStatus"
  const PriorityField: string := "/fields/Microsoft.VSTS.Common.Priority"
  const TitleField: string := "/fields/System.Title"
  const StepsField: string := "/fields/Microsoft.VSTS.TCM.Steps"
  const TagsField: string := "/fields/System.Tags"

  /** The filter of `build_fields`: a value that is `None` or "" drops the
      operation. */
  predicate HasValue(o: PatchOp) {
    o.value != Null && o.value != Text("")
  }

  /** The operations that have a value, in their original order. */
  function KeepValued(ops: seq<PatchOp>): (r: seq<PatchOp>)
    ensures |r| <= |ops|
    ensures forall i :: 0 <= i < |r| ==> HasValue(r[i])
  {
    if ops == [] then [] else (if HasValue(ops[0]) then [ops[0]] else []) + KeepValued(ops[1..])
  }

  /** The operation alone when it has a value, nothing otherwise. */
  function Valued(o: PatchOp): seq<PatchOp> {
    if HasValue(o) then [o] else []
  }

  function FieldOps(status: string, priority: Option<string>, systemTags: Option<string>,
                    title: string, stepsXml: string): seq<PatchOp> {
    [PatchOp("replace", AutomationStatusField, Text(status)),
     PatchOp("replace", PriorityField, OptionalText(priority)),
     PatchOp("replace", TitleField, Text(title)),
     PatchOp("replace", StepsField, Text(stepsXml)),
     PatchOp("replace", TagsField, OptionalText(systemTags))]
  }

  /** `build_fields`: the five field replacements and the links, without
      the ones whose value is `None` or "". */
  function BuildFields(status: string, priority: Option<string>, systemTags: Option<string>,
                       title: string, links: seq<PatchOp>, steps: seq<TestStep>): (r: seq<PatchOp>)
    ensures forall i :: 0 <= i < |r| ==> HasValue(r[i])
  {
    KeepValued(FieldOps(status, priority, systemTags, title, BuildStepsXml(steps)) + links)
  }

  // ----- update_azure_test_case -----

  datatype PatchRequest = PatchRequest(url: string, ops: seq<PatchOp>)

  const ApiVersion: string := "?api-version=7.2-preview.3"
  const TestCaseWord: string := "TestCase"

  /** The id of the patch URL: the digits after the literal word
      `TestCase`, whatever the configured test-case prefix, or "". */
  function TestCaseId(tags: string): (r: string)
    ensures AllDigits(r)
    ensures r == [] <==> forall k :: !MatchesAt(tags, TestCaseWord, Digits, k)
  {
    match Search(tags, TestCaseWord, Digits)
    case None => ""
    case Some(d) => d
  }

  function PatchUrl(organization: string, project: string, id: string): string {
    WorkItemUrl(organization, project, id) + ApiVersion
  }

  /** The request `update_azure_test_case` sends for one test case; the
      system tags are the file's Test Tags, not the value combined by
      `extract_tags_info`, which the caller discards. */
  function UpdateRequest(title: string, tags: string, systemTags: Option<string>, steps: seq<TestStep>,
                         cfg: Config, linkedIds: seq<string>): Result<PatchRequest, PushError> {
    match ExtractTagsInfo(tags, cfg.tags)
    case Err(e) => Err(e)
    case Ok(info) =>
      Ok(PatchRequest(PatchUrl(cfg.organization, cfg.project, TestCaseId(tags)),
        BuildFields(info.automationStatus, info.priority, systemTags, title,
                    LinkOps(cfg.organization, cfg.project, linkedIds), steps)))
  }

  /** `update_azure_test_case` up to the HTTP call. The iteration-path
      operation is built and then dropped, as in the source. */
  method UpdateAzureTestCase(title: string, tags: string, systemTags: Option<string>, steps: seq<TestStep>,
                             cfg: Config, linkedIds: seq<string>) returns (r: Result<PatchRequest, PushError>)
    ensures r == UpdateRequest(title, tags, systemTags, steps, cfg, linkedIds)
  {
    var parsed := ParseTags(tags);
    var info := ExtractTagsInfo(tags, cfg.tags);
    if info.Err? {
      return Err(info.error);
    }
    var id := TestCaseId(tags);
    var candidates := Lookup(parsed, cfg.tags.iterationPath);
    var dropped := BuildIterationPathTags(candidates, cfg.areaPath);
    var url := PatchUrl(cfg.organization, cfg.project, id);
    var linked := BuildLinkedItems(linkedIds, cfg.organization, cfg.project);
    var fields := BuildFields(info.value.automationStatus, info.value.priority, systemTags, title, linked, steps);
    r := Ok(PatchRequest(url, fields));
  }

  // ----- rf_azure_sync_patch -----

  /** What the push loop has done: the requests sent, and the exception
      that stopped it, if any. Requests sent before the exception stay
      sent. */
  datatype Outcome = Outcome(sent: seq<PatchRequest>, failure: Option<PushError>)

  /** `transform_steps` as a value: one step per line, numbered from 1. */
  function NumberedSteps(lines: seq<string>): (r: seq<TestStep>)
    ensures |r| == |lines|
  {
    seq(|lines|, i requires 0 <= i < |lines| => TestStep(lines[i], i + 1))
  }

  /** The request of one parsed record: its UserStory ids followed by its
      Bug ids are linked. */
  function CaseRequest(c: ParsedCase, testTags: Option<string>, cfg: Config): Result<PatchRequest, PushError> {
    match c
    case TagsOnly(tags) => Err(NoTitle(tags))
    case TestCase(title, tags, steps) =>
      var pairs := Pairs(tags);
      UpdateRequest(title, tags, testTags, NumberedSteps(steps), cfg,
                    ValuesOf(pairs, UserStoryCategory) + ValuesOf(pairs, BugCategory))
  }

  /** One more request attempted, unless the loop has already stopped. */
  function Then(o: Outcome, r: Result<PatchRequest, PushError>): Outcome {
    if o.failure.Some? then o
    else match r
      case Ok(q) => Outcome(o.sent + [q], None)
      case Err(e) => Outcome(o.sent, Some(e))
  }

  /** The attempts of a run, one after the other. */
  function Attempt(o: Outcome, results: seq<Result<PatchRequest, PushError>>): Outcome {
    if results == [] then o
    else Then(Attempt(o, results[..|results| - 1]), results[|results| - 1])
  }

  /** The request of every record of a file, in order. */
  function CaseRequests(cases: seq<ParsedCase>, testTags: Option<string>, cfg: Config): (r: seq<Result<PatchRequest, PushError>>)
    ensures |r| == |cases|
  {
    if cases == [] then []
    else CaseRequests(cases[..|cases| - 1], testTags, cfg) + [CaseRequest(cases[|cases| - 1], testTags, cfg)]
  }

  /** The records of a file attempted one after the other. */
  function SendCases(o: Outcome, cases: seq<ParsedCase>, testTags: Option<string>, cfg: Config): Outcome {
    if cases == [] then o
    else Then(SendCases(o, cases[..|cases| - 1], testTags, cfg), CaseRequest(cases[|cases| - 1], testTags, cfg))
  }

  /** The file every pull writes new test cases to; the push skips it. */
  const ScratchFile: string := "todo_organize.robot"

  /** The records of a test cases section attempted in order; a section
      that does not parse stops the run. */
  function SendSection(o: Outcome, body: string, testTags: Option<string>, cfg: Config): Outcome {
    match ParseLines(Split(body, '\n'), cfg.tags.title)
    case Err(e) => Outcome(o.sent, Some(SectionError(e)))
    case Ok(cases) => SendCases(o, cases, testTags, cfg)
  }

  /** One file of the walk: the scratch file is skipped. */
  function SendFile(o: Outcome, path: string, content: string, cfg: Config): Outcome {
    if o.failure.Some? || Contains(path, ScratchFile) then o
    else
      var sections := ExtractSections(content, RobotFile);
      SendSection(o, sections.0, sections.1, cfg)
  }

  /** The whole push over the Robot files, given as (path, content) pairs
      in the order the directory walk lists them. */
  function SendFiles(files: seq<(string, string)>, cfg: Config): Outcome {
    if files == [] then Outcome([], None)
    else
      var last := files[|files| - 1];
      SendFile(SendFiles(files[..|files| - 1], cfg), last.0, last.1, cfg)
  }

  /** The body of the inner loop of `rf_azure_sync_patch` for one record:
      its tags parsed, its linked ids collected, its steps numbered, and
      the update built. */
  method PushCase(c: ParsedCase, testTags: Option<string>, cfg: Config) returns (r: Result<PatchRequest, PushError>)
    ensures r == CaseRequest(c, testTags, cfg)
  {
    if c.TagsOnly? {
      return Err(NoTitle(c.tags));
    }
    var parsedTags := ParseTags(c.tags);
    var linked := LinkedIds(parsedTags);
    LinkedIdsOfParse(Pairs(c.tags), parsedTags);
    var steps := TransformSteps(c.steps);
    assert steps == NumberedSteps(c.steps);
    r := UpdateAzureTestCase(c.title, c.tags, testTags, steps, cfg, linked);
  }

  /** The inner loop: one request per record until one of them fails. */
  method PushCases(before: Outcome, cases: seq<ParsedCase>, testTags: Option<string>, cfg: Config) returns (out: Outcome)
    requires before.failure.None?
    ensures out == SendCases(before, cases, testTags, cfg)
  {
    out := before;
    var j := 0;
    while j < |cases|
      invariant 0 <= j <= |cases|
      invariant out == SendCases(before, cases[..j], testTags, cfg)
      invariant out.failure.None?
    {
      var req := PushCase(cases[j], testTags, cfg);
      SendCasesNext(before, cases, j, testTags, cfg, req);
      if req.Err? {
        out := Outcome(out.sent, Some(req.error));
        SendCasesStops(before, cases, j + 1, testTags, cfg);
        return;
      }
      out := Outcome(out.sent + [req.value], None);
      j := j + 1;
    }
    assert cases[..j] == cases;
  }

  /** The body of the outer loop of `rf_azure_sync_patch` for one file: the
      scratch file is skipped; otherwise its test cases section is parsed
      and its records pushed. */
  method PushFile(o: Outcome, path: string, content: string, cfg: Config) returns (out: Outcome)
    requires o.failure.None?
    ensures out == SendFile(o, path, content, cfg)
  {
    if Contains(path, ScratchFile) {
      return o;
    }
    var sections := ExtractSections(content, RobotFile);
    out := PushSection(o, sections.0, sections.1, cfg);
  }

  /** The test cases section of one file parsed and its records pushed. */
  method PushSection(o: Outcome, body: string, testTags: Option<string>, cfg: Config) returns (out: Outcome)
    requires o.failure.None?
    ensures out == SendSection(o, body, testTags, cfg)
  {
    var parsed := ParseTestCases(body, cfg.tags.title);
    if parsed.Err? {
      out := Outcome(o.sent, Some(SectionError(parsed.error)));
    } else {
      out := PushCases(o, parsed.value, testTags, cfg);
    }
  }

  /** `rf_azure_sync_patch` without the file reads and the HTTP calls: the
      first exception ends the whole run. */
  method RfAzureSyncPatch(files: seq<(string, string)>, cfg: Config) returns (out: Outcome)
    ensures out == SendFiles(files, cfg)
  {
    out := Outcome([], None);
    var i := 0;
    while i < |files|
      invariant 0 <= i <= |files|
      invariant out == SendFiles(files[..i], cfg)
      invariant out.failure.None?
    {
      SendFilesNext(files, i, cfg);
      out := PushFile(out, files[i].0, files[i].1, cfg);
      if out.failure.Some? {
        SendFilesStops(files, i + 1, cfg);
        return;
      }
      i := i + 1;
    }
    assert files[..i] == files;
  }

  // ----- properties -----

  /** The i-th request is the one built for the i-th record. */
  lemma {:induction false} CaseRequestsAt(cases: seq<ParsedCase>, i: nat, testTags: Option<string>, cfg: Config)
    requires i < |cases|
    ensures CaseRequests(cases, testTags, cfg)[i] == CaseRequest(cases[i], testTags, cfg)
    decreases |cases|
  {
    if i < |cases| - 1 {
      CaseRequestsAt(cases[..|cases| - 1], i, testTags, cfg);
    }
  }

  /** Attempting the records one after the other is attempting their
      requests in order. */
  lemma {:induction false} SendCasesAttempt(o: Outcome, cases: seq<ParsedCase>, testTags: Option<string>, cfg: Config)
    ensures SendCases(o, cases, testTags, cfg) == Attempt(o, CaseRequests(cases, testTags, cfg))
  {
    if cases != [] {
      var rs := CaseRequests(cases, testTags, cfg);
      assert rs[..|rs| - 1] == CaseRequests(cases[..|cases| - 1], testTags, cfg);
      SendCasesAttempt(o, cases[..|cases| - 1], testTags, cfg);
    }
  }

  /** One more record attempted. */
  lemma SendCasesNext(o: Outcome, cases: seq<ParsedCase>, j: nat, testTags: Option<string>, cfg: Config,
                      req: Result<PatchRequest, PushError>)
    requires j < |cases| && req == CaseRequest(cases[j], testTags, cfg)
    ensures SendCases(o, cases[..j + 1], testTags, cfg) == Then(SendCases(o, cases[..j], testTags, cfg), req)
  {
    assert cases[..j + 1][..j] == cases[..j];
  }

  /** Once a record has failed, the remaining records change nothing. */
  lemma {:induction false} SendCasesStops(o: Outcome, cases: seq<ParsedCase>, k: nat, testTags: Option<string>, cfg: Config)
    requires k <= |cases| && SendCases(o, cases[..k], testTags, cfg).failure.Some?
    ensures SendCases(o, cases, testTags, cfg) == SendCases(o, cases[..k], testTags, cfg)
    decreases |cases| - k
  {
    if k < |cases| {
      assert cases[..k + 1][..k] == cases[..k];
      SendCasesStops(o, cases, k + 1, testTags, cfg);
    } else {
      assert cases[..k] == cases;
    }
  }

  /** Once the loop has stopped, the remaining attempts change nothing. */
  lemma {:induction false} AttemptStops(o: Outcome, results: seq<Result<PatchRequest, PushError>>, k: nat)
    requires k <= |results| && Attempt(o, results[..k]).failure.Some?
    ensures Attempt(o, results) == Attempt(o, results[..k])
    decreases |results| - k
  {
    if k < |results| {
      assert results[..k + 1][..k] == results[..k];
      AttemptStops(o, results, k + 1);
    } else {
      assert results[..k] == results;
    }
  }

  /** One more file pushed. */
  lemma SendFilesNext(files: seq<(string, string)>, i: nat, cfg: Config)
    requires i < |files|
    ensures SendFiles(files[..i + 1], cfg) == SendFile(SendFiles(files[..i], cfg), files[i].0, files[i].1, cfg)
  {
    assert files[..i + 1][..i] == files[..i];
  }

  /** Once the loop has stopped, the remaining files change nothing. */
  lemma {:induction false} SendFilesStops(files: seq<(string, string)>, k: nat, cfg: Config)
    requires k <= |files| && SendFiles(files[..k], cfg).failure.Some?
    ensures SendFiles(files, cfg) == SendFiles(files[..k], cfg)
    decreases |files| - k
  {
    if k < |files| {
      assert files[..k + 1][..k] == files[..k];
      SendFilesStops(files, k + 1, cfg);
    } else {
      assert files[..k] == files;
    }
  }

  /** `tags_value` is the non-empty ones of the two values joined by "; ". */
  lemma CombineTagsJoin(testTags: string, systemTags: string)
    ensures CombineTags(testTags, systemTags) == Join(NonEmpty([testTags, systemTags]), "; ")
  {
    assert [testTags, systemTags][..1] == [testTags];
    assert [testTags][..0] == [];
  }

  /** The automation status written as `{prefix} {value}` is read back with
      its underscores turned into spaces. */
  lemma StatusRoundTrip(x: string, v: string, rest: string, cfg: TagConfig)
    requires |cfg.automationStatus| > 0 && cfg.automationStatus[0] !in x
    requires v != [] && NoSpace(v)
    requires rest == [] || IsSpace(rest[0])
    ensures ExtractTagsInfo(x + cfg.automationStatus + " " + v + rest, cfg).Ok?
    ensures ExtractTagsInfo(x + cfg.automationStatus + " " + v + rest, cfg).value.automationStatus == ReplaceChar(v, '_', ' ')
  {
    SearchFinds(x, cfg.automationStatus, v, rest, NonSpaces);
  }

  /** A sprint the pull side wrote with its spaces turned into underscores
      comes back as the area path followed by the sprint as it was. */
  lemma IterationOpOfSprint(areaPath: string, sprint: string)
    requires '_' !in sprint
    ensures IterationOp(areaPath, ReplaceChar(sprint, ' ', '_')).value == Text(areaPath + sprint)
  {
    ReplaceCharBack(sprint, ' ', '_');
  }

  /** The filter keeps the valued operations of each part, in order. */
  lemma {:induction false} KeepValuedConcat(a: seq<PatchOp>, b: seq<PatchOp>)
    ensures KeepValued(a + b) == KeepValued(a) + KeepValued(b)
  {
    if a != [] {
      assert (a + b)[0] == a[0];
      assert (a + b)[1..] == a[1..] + b;
      KeepValuedConcat(a[1..], b);
    } else {
      assert a + b == b;
    }
  }

  /** Operations that all have a value are kept as they are. */
  lemma {:induction false} KeepValuedAll(ops: seq<PatchOp>)
    requires forall i :: 0 <= i < |ops| ==> HasValue(ops[i])
    ensures KeepValued(ops) == ops
  {
    if ops != [] {
      KeepValuedAll(ops[1..]);
    }
  }

  /** `build_fields` keeps the order automation status, priority, title,
      steps, tags, links; only a field whose value is `None` or "" is
      dropped, the steps blob never is, and every link is kept. */
  lemma BuildFieldsOrder(status: string, priority: Option<string>, systemTags: Option<string>,
                         title: string, links: seq<PatchOp>, steps: seq<TestStep>)
    requires forall i :: 0 <= i < |links| ==> links[i].value.Link?
    ensures BuildFields(status, priority, systemTags, title, links, steps) ==
      Valued(PatchOp("replace", AutomationStatusField, Text(status)))
      + (Valued(PatchOp("replace", PriorityField, OptionalText(priority)))
      + (Valued(PatchOp("replace", TitleField, Text(title)))
      + ([PatchOp("replace", StepsField, Text(BuildStepsXml(steps)))]
      + (Valued(PatchOp("replace", TagsField, OptionalText(systemTags)))
      + links))))
  {
    StepsBlobNonEmpty(steps);
    FieldOpsOrder(status, priority, systemTags, title, BuildStepsXml(steps), links);
  }

  /** The same order over any non-empty steps blob. */
  lemma FieldOpsOrder(status: string, priority: Option<string>, systemTags: Option<string>,
                      title: string, stepsXml: string, links: seq<PatchOp>)
    requires stepsXml != [] && forall i :: 0 <= i < |links| ==> links[i].value.Link?
    ensures KeepValued(FieldOps(status, priority, systemTags, title, stepsXml) + links) ==
      Valued(PatchOp("replace", AutomationStatusField, Text(status)))
      + (Valued(PatchOp("replace", PriorityField, OptionalText(priority)))
      + (Valued(PatchOp("replace", TitleField, Text(title)))
      + ([PatchOp("replace", StepsField, Text(stepsXml))]
      + (Valued(PatchOp("replace", TagsField, OptionalText(systemTags)))
      + links))))
  {
    KeepValuedAll(links);
    KeepFiveThen(PatchOp("replace", AutomationStatusField, Text(status)),
                 PatchOp("replace", PriorityField, OptionalText(priority)),
                 PatchOp("replace", TitleField, Text(title)),
                 PatchOp("replace", StepsField, Text(stepsXml)),
                 PatchOp("replace", TagsField, OptionalText(systemTags)), links);
  }

  lemma StepsBlobNonEmpty(steps: seq<TestStep>)
    ensures BuildStepsXml(steps) != ""
  {
    assert |BuildStepsXml(steps)| >= |StepsClose| > 0;
  }

  /** The filter over five operations and a tail, one operation at a time. */
  lemma KeepFiveThen(a: PatchOp, b: PatchOp, c: PatchOp, d: PatchOp, e: PatchOp, links: seq<PatchOp>)
    requires HasValue(d) && KeepValued(links) == links
    ensures KeepValued([a, b, c, d, e] + links)
      == Valued(a) + (Valued(b) + (Valued(c) + ([d] + (Valued(e) + links))))
  {
    assert [a, b, c, d, e] + links == [a] + ([b] + ([c] + ([d] + ([e] + links))));
    KeepValuedCons(e, links);
    KeepValuedCons(d, [e] + links);
    KeepValuedCons(c, [d] + ([e] + links));
    KeepValuedCons(b, [c] + ([d] + ([e] + links)));
    KeepValuedCons(a, [b] + ([c] + ([d] + ([e] + links))));
  }

  lemma KeepValuedCons(o: PatchOp, rest: seq<PatchOp>)
    ensures KeepValued([o] + rest) == Valued(o) + KeepValued(rest)
  {
    assert ([o] + rest)[1..] == rest;
  }

  /** No request carries an iteration-path operation: the one
      `build_iteration_path_tags` returns is never added. */
  lemma NoIterationPathOp(title: string, tags: string, systemTags: Option<string>, steps: seq<TestStep>,
                          cfg: Config, linkedIds: seq<string>)
    ensures var r := UpdateRequest(title, tags, systemTags, steps, cfg, linkedIds);
      r.Ok? ==> forall i :: 0 <= i < |r.value.ops| ==> r.value.ops[i].path != IterationPathField
  {
    var r := UpdateRequest(title, tags, systemTags, steps, cfg, linkedIds);
    if r.Ok? {
      var info := ExtractTagsInfo(tags, cfg.tags).value;
      var links := LinkOps(cfg.organization, cfg.project, linkedIds);
      assert r.value.ops == BuildFields(info.automationStatus, info.priority, systemTags, title, links, steps);
      FieldPathsAvoid(info.automationStatus, info.priority, systemTags, title, links, steps);
    }
  }

  lemma FieldPathsAvoid(status: string, priority: Option<string>, systemTags: Option<string>,
                        title: string, links: seq<PatchOp>, steps: seq<TestStep>)
    requires forall i :: 0 <= i < |links| ==> links[i].path == RelationsPath
    ensures var r := BuildFields(status, priority, systemTags, title, links, steps);
      forall i :: 0 <= i < |r| ==> r[i].path != IterationPathField
  {
    var ops := FieldOps(status, priority, systemTags, title, BuildStepsXml(steps)) + links;
    FieldPathsDiffer();
    assert forall i :: 0 <= i < |ops| ==> ops[i].path != IterationPathField by {
      forall i | 0 <= i < |ops| ensures ops[i].path != IterationPathField {
        if i >= 5 {
          assert ops[i] == links[i - 5];
        }
      }
    }
    KeepValuedAvoids(ops, IterationPathField);
    var r := BuildFields(status, priority, systemTags, title, links, steps);
    assert r == KeepValued(ops);
    forall i | 0 <= i < |r| ensures r[i].path != IterationPathField {
      assert r[i] == KeepValued(ops)[i];
    }
  }

  /** The iteration path is none of the paths `build_fields` writes. */
  lemma FieldPathsDiffer()
    ensures AutomationStatusField != IterationPathField && PriorityField != IterationPathField
    ensures TitleField != IterationPathField && StepsField != IterationPathField
    ensures TagsField != IterationPathField && RelationsPath != IterationPathField
  {
    assert IterationPathField[8] == 'S' && IterationPathField[15] == 'I';
    assert AutomationStatusField[8] == 'C' && PriorityField[8] == 'M';
    assert TitleField[15] == 'T' && TagsField[15] == 'T' && StepsField[8] == 'M';
    assert RelationsPath[1] == 'r' && IterationPathField[1] == 'f';
  }

  /** The filter never brings in a path its input does not hold. */
  lemma {:induction false} KeepValuedAvoids(ops: seq<PatchOp>, path: string)
    requires forall i :: 0 <= i < |ops| ==> ops[i].path != path
    ensures var r := KeepValued(ops); forall i :: 0 <= i < |r| ==> r[i].path != path
  {
    if ops != [] {
      KeepValuedAvoids(ops[1..], path);
      var r := KeepValued(ops);
      var head := if HasValue(ops[0]) then [ops[0]] else [];
      assert r == head + KeepValued(ops[1..]);
      forall i | 0 <= i < |r| ensures r[i].path != path {
        if i >= |head| {
          assert r[i] == KeepValued(ops[1..])[i - |head|];
        }
      }
    }
  }

  /** The patch URL targets the id written after `TestCase` in the tags. */
  lemma TestCaseIdRoundTrip(x: string, n: nat, rest: string)
    requires 'T' !in x
    requires rest == [] || !IsDigit(rest[0])
    ensures TestCaseId(x + TestCaseWord + " " + NatToString(n) + rest) == NatToString(n)
  {
    SearchFinds(x, TestCaseWord, NatToString(n), rest, Digits);
  }

  /** A run with no failure sends one request per attempt, in order. */
  lemma {:induction false} AttemptAll(o: Outcome, results: seq<Result<PatchRequest, PushError>>)
    requires Attempt(o, results).failure.None?
    ensures o.failure.None?
    ensures var out := Attempt(o, results);
      |out.sent| == |o.sent| + |results| && out.sent[..|o.sent|] == o.sent
      && forall i :: 0 <= i < |results| ==> results[i] == Ok(out.sent[|o.sent| + i])
  {
    if results != [] {
      var init := results[..|results| - 1];
      AttemptAll(o, init);
      var out := Attempt(o, results);
      assert out.sent == Attempt(o, init).sent + [out.sent[|out.sent| - 1]];
      forall i | 0 <= i < |results|
        ensures results[i] == Ok(out.sent[|o.sent| + i])
      {
        if i < |init| {
          assert results[i] == init[i];
        }
      }
    }
  }

  /** A file whose run does not fail sends, in order, one request per
      test case it holds: the request `update_azure_test_case` builds for
      that case. */
  lemma SendSectionAll(o: Outcome, body: string, testTags: Option<string>, cfg: Config)
    requires o.failure.None?
    requires SendSection(o, body, testTags, cfg).failure.None?
    ensures var parsed := ParseLines(Split(body, '\n'), cfg.tags.title);
      var out := SendSection(o, body, testTags, cfg);
      parsed.Ok? && |out.sent| == |o.sent| + |parsed.value|
      && forall i :: 0 <= i < |parsed.value| ==>
           CaseRequests(parsed.value, testTags, cfg)[i] == Ok(out.sent[|o.sent| + i])
  {
    var parsed := ParseLines(Split(body, '\n'), cfg.tags.title);
    if parsed.Ok? {
      SendCasesAttempt(o, parsed.value, testTags, cfg);
      AttemptAll(o, CaseRequests(parsed.value, testTags, cfg));
    }
  }
}
