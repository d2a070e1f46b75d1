/** The pull direction (`rf_azure_sync_get`, and `get_test_case` of
    `ado_sync_get.py`): which test cases are already present locally, which
    remote ones are new, and how their rendered blocks are appended to the
    scratch file. The HTTP calls and the file reads become inputs. */
module PullSync {
  import opened Wrappers
  import opened TextOps
  import opened TagScan
  import opened RobotParser
  import opened RobotSections
  import opened RobotRender
  import opened SyncConfig

  // ----- get_robot_test_case_ids -----

  /** `int(re.search(rf"{prefix}\s*(\d+)", tags).group(1))`, or nothing
      when the search fails. */
  function LocalId(tags: string, prefix: string): (r: Option<nat>)
    ensures r.None? <==> Search(tags, prefix, Digits).None?
    ensures r.Some? ==> r.value == DigitsValue(Search(tags, prefix, Digits).value)
  {
    match Search(tags, prefix, Digits)
    case None => None
    case Some(d) => Some(DigitsValue(d))
  }

  /** The ids the records of one file contribute. */
  function CaseIds(cases: seq<ParsedCase>, prefix: string): set<nat> {
    if cases == [] then {}
    else
      var id := LocalId(cases[|cases| - 1].tags, prefix);
      CaseIds(cases[..|cases| - 1], prefix) + (if id.Some? then {id.value} else {})
  }

  /** A file the walk reads: `.robot` and `.feature` files both go through
      the Robot section extractor and parser. */
  predicate Scanned(name: string) {
    EndsWith(name, ".robot") || EndsWith(name, ".feature")
  }

  /** The ids of one file, or the parser's exception. */
  function FileIds(name: string, content: string, cfg: Config): Result<set<nat>, ParseError> {
    if !Scanned(name) then Ok({})
    else
      match ParseLines(Split(ExtractSections(content, RobotFile).0, '\n'), cfg.tags.title)
      case Err(e) => Err(e)
      case Ok(cases) => Ok(CaseIds(cases, cfg.tags.testCase))
  }

  /** `get_robot_test_case_ids` over the files of the walk, given as
      (name, content) pairs in walk order. */
  function LocalIds(files: seq<(string, string)>, cfg: Config): Result<set<nat>, ParseError> {
    if files == [] then Ok({})
    else
      match LocalIds(files[..|files| - 1], cfg)
      case Err(e) => Err(e)
      case Ok(ids) =>
        var last := files[|files| - 1];
        match FileIds(last.0, last.1, cfg)
        case Err(e) => Err(e)
        case Ok(more) => Ok(ids + more)
  }

  /** The `rf_test_case_ids.update(...)` of one file's records. */
  method UpdateIds(ids: set<nat>, cases: seq<ParsedCase>, prefix: string) returns (out: set<nat>)
    ensures out == ids + CaseIds(cases, prefix)
  {
    out := ids;
    var i := 0;
    while i < |cases|
      invariant 0 <= i <= |cases|
      invariant out == ids + CaseIds(cases[..i], prefix)
    {
      assert cases[..i + 1][..i] == cases[..i];
      var id := LocalId(cases[i].tags, prefix);
      if id.Some? {
        out := out + {id.value};
      }
      i := i + 1;
    }
    assert cases[..i] == cases;
  }

  /** One file of the walk: its ids, or the parser's exception. */
  method ScanFile(name: string, content: string, cfg: Config) returns (r: Result<set<nat>, ParseError>)
    ensures r == FileIds(name, content, cfg)
  {
    if !Scanned(name) {
      return Ok({});
    }
    var sections := ExtractSections(content, RobotFile);
    var cases := ParseTestCases(sections.0, cfg.tags.title);
    if cases.Err? {
      return Err(cases.error);
    }
    var ids := UpdateIds({}, cases.value, cfg.tags.testCase);
    assert ids == CaseIds(cases.value, cfg.tags.testCase);
    r := Ok(ids);
  }

  /** `get_robot_test_case_ids`: the walk over the files. */
  method GetRobotTestCaseIds(files: seq<(string, string)>, cfg: Config) returns (r: Result<set<nat>, ParseError>)
    ensures r == LocalIds(files, cfg)
  {
    var ids: set<nat> := {};
    var i := 0;
    while i < |files|
      invariant 0 <= i <= |files|
      invariant LocalIds(files[..i], cfg) == Ok(ids)
    {
      var more := ScanFile(files[i].0, files[i].1, cfg);
      if more.Err? {
        LocalIdsStops(files, i + 1, cfg);
        return Err(more.error);
      }
      LocalIdsNext(files, i, cfg);
      ids := ids + more.value;
      i := i + 1;
    }
    assert files[..i] == files;
    r := Ok(ids);
  }

  // ----- rf_azure_sync_get -----

  /** `azure_test_cases - robot_test_case_ids`: the ids of the remote
      catalog that are not present locally. */
  function NewIds(catalog: set<nat>, local: set<nat>): set<nat> {
    catalog - local
  }

  /** `order` is one iteration of the set `s`: each of its elements exactly
      once, and nothing else. */
  predicate Lists(order: seq<nat>, s: set<nat>) {
    (forall i, j :: 0 <= i < j < |order| ==> order[i] != order[j])
    && (forall n :: n in order ==> n in s)
    && (forall n :: n in s ==> n in order)
  }

  /** The work items the fetch loop keeps: for each new id, in the order the
      set is iterated, the item its request returned when the status was
      200 (`responses` holds exactly those); the others are skipped. */
  function Fetched(order: seq<nat>, local: set<nat>, responses: map<nat, WorkItem>): (r: seq<WorkItem>)
    ensures |r| <= |order|
  {
    if order == [] then []
    else
      var id := order[|order| - 1];
      Fetched(order[..|order| - 1], local, responses)
      + (if id !in local && id in responses then [responses[id]] else [])
  }

  /** The blocks of the fetched items, concatenated, or the first
      exception the renderer raises. */
  function RenderAll(items: seq<WorkItem>, cfg: TagConfig): Result<string, RenderError> {
    if items == [] then Ok("")
    else
      match RenderAll(items[..|items| - 1], cfg)
      case Err(e) => Err(e)
      case Ok(acc) =>
        match Render(items[|items| - 1], cfg)
        case Err(e) => Err(e)
        case Ok(block) => Ok(acc + block)
  }

  /** The header-once append: the two section headers are added when the
      file is empty or holds neither of them, then the new blocks. */
  function AppendOnce(existing: string, rendered: string, settings: string, testCases: string): (r: string)
    ensures StartsWith(r, existing) && EndsWith(r, rendered)
    ensures |r| == |existing| + |rendered| || |r| == |existing| + |settings| + |testCases| + |rendered|
  {
    var withHeader :=
      if existing == [] || (!Contains(existing, settings) && !Contains(existing, testCases))
      then existing + settings + testCases
      else existing;
    if rendered != [] then withHeader + rendered else withHeader
  }

  /** Why a pull stops: a local file that does not parse, or a work item
      the renderer cannot write. */
  datatype PullError = LocalParse(parseError: ParseError) | Rendering(renderError: RenderError)

  /** `rf_azure_sync_get` as a value: the new content of the scratch file.
      `order` is the order in which the set of new ids is iterated. */
  function Pull(catalog: set<nat>, files: seq<(string, string)>, order: seq<nat>,
                responses: map<nat, WorkItem>, existing: string, cfg: Config): (r: Result<string, PullError>)
    requires LocalIds(files, cfg).Ok? ==> Lists(order, NewIds(catalog, LocalIds(files, cfg).value))
    ensures LocalIds(files, cfg).Err? ==> r == Err(LocalParse(LocalIds(files, cfg).error))
    ensures r.Ok? ==> StartsWith(r.value, existing)
  {
    match LocalIds(files, cfg)
    case Err(e) => Err(LocalParse(e))
    case Ok(local) =>
      match RenderAll(Fetched(order, local, responses), cfg.tags)
      case Err(e) => Err(Rendering(e))
      case Ok(content) => Ok(AppendOnce(existing, content, cfg.settingsSection, cfg.testCasesSection))
  }

  /** The fetch loop: one request per id of `order` (the iteration order of
      the set of new ids); a failed request is skipped. */
  method FetchNew(order: seq<nat>, local: set<nat>, responses: map<nat, WorkItem>) returns (items: seq<WorkItem>)
    ensures items == Fetched(order, local, responses)
  {
    items := [];
    var i := 0;
    while i < |order|
      invariant 0 <= i <= |order|
      invariant items == Fetched(order[..i], local, responses)
    {
      assert order[..i + 1][..i] == order[..i];
      var id := order[i];
      if id !in local && id in responses {
        items := items + [responses[id]];
      }
      i := i + 1;
    }
    assert order[..i] == order;
  }

  /** The loop `robot_content += create_robot_content(...)`. */
  method RenderItems(items: seq<WorkItem>, cfg: TagConfig) returns (r: Result<string, RenderError>)
    ensures r == RenderAll(items, cfg)
  {
    var content := "";
    var i := 0;
    while i < |items|
      invariant 0 <= i <= |items|
      invariant RenderAll(items[..i], cfg) == Ok(content)
    {
      assert items[..i + 1][..i] == items[..i];
      var block := CreateRobotContent(items[i], cfg);
      if block.Err? {
        RenderAllStops(items, i + 1, cfg);
        return Err(block.error);
      }
      content := content + block.value;
      i := i + 1;
    }
    assert items[..i] == items;
    r := Ok(content);
  }

  /** `rf_azure_sync_get` without the HTTP calls and the file system: the
      catalog, the walked files, the iteration order of the new ids, the
      successful responses and the scratch file's current text are
      inputs; the text written back is the result. */
  method RfAzureSyncGet(catalog: set<nat>, files: seq<(string, string)>, order: seq<nat>,
                        responses: map<nat, WorkItem>, existing: string, cfg: Config)
    returns (r: Result<string, PullError>)
    requires LocalIds(files, cfg).Ok? ==> Lists(order, NewIds(catalog, LocalIds(files, cfg).value))
    ensures r == Pull(catalog, files, order, responses, existing, cfg)
  {
    var local := GetRobotTestCaseIds(files, cfg);
    if local.Err? {
      return Err(LocalParse(local.error));
    }
    var items := FetchNew(order, local.value, responses);
    var content := RenderItems(items, cfg.tags);
    if content.Err? {
      return Err(Rendering(content.error));
    }
    r := Ok(AppendOnce(existing, content.value, cfg.settingsSection, cfg.testCasesSection));
  }

  /** `get_test_case` of `ado_sync_get.py`: one id; a failed request
      (`None`) renders nothing, but the header is still ensured and the
      file rewritten. */
  function PullOne(response: Option<WorkItem>, existing: string, cfg: Config): (r: Result<string, RenderError>)
    ensures r.Err? <==> response.Some? && Render(response.value, cfg.tags).Err?
    ensures r.Ok? ==> StartsWith(r.value, existing)
  {
    match response
    case None => Ok(AppendOnce(existing, "", cfg.settingsSection, cfg.testCasesSection))
    case Some(item) =>
      match Render(item, cfg.tags)
      case Err(e) => Err(e)
      case Ok(block) => Ok(AppendOnce(existing, block, cfg.settingsSection, cfg.testCasesSection))
  }

  // ----- properties -----

  /** Once a file has failed to parse, the later files change nothing. */
  lemma {:induction false} LocalIdsStops(files: seq<(string, string)>, k: nat, cfg: Config)
    requires 0 < k <= |files| && FileIds(files[k - 1].0, files[k - 1].1, cfg).Err?
    requires LocalIds(files[..k - 1], cfg).Ok?
    ensures LocalIds(files, cfg) == Err(FileIds(files[k - 1].0, files[k - 1].1, cfg).error)
    decreases |files| - k
  {
    assert files[..k][..k - 1] == files[..k - 1];
    if k < |files| {
      assert files[..|files| - 1][..k - 1] == files[..k - 1];
      assert files[..|files| - 1][k - 1] == files[k - 1];
      LocalIdsStops(files[..|files| - 1], k, cfg);
    } else {
      assert files[..k] == files;
    }
  }

  /** Once a block has failed to render, the later items change nothing. */
  lemma {:induction false} RenderAllStops(items: seq<WorkItem>, k: nat, cfg: TagConfig)
    requires 0 < k <= |items| && Render(items[k - 1], cfg).Err?
    requires RenderAll(items[..k - 1], cfg).Ok?
    ensures RenderAll(items, cfg) == Err(Render(items[k - 1], cfg).error)
    decreases |items| - k
  {
    assert items[..k][..k - 1] == items[..k - 1];
    if k < |items| {
      assert items[..|items| - 1][..k - 1] == items[..k - 1];
      assert items[..|items| - 1][k - 1] == items[k - 1];
      RenderAllStops(items[..|items| - 1], k, cfg);
    } else {
      assert items[..k] == items;
    }
  }

  /** One more file adds its ids. */
  lemma LocalIdsNext(files: seq<(string, string)>, i: nat, cfg: Config)
    requires i < |files| && LocalIds(files[..i], cfg).Ok? && FileIds(files[i].0, files[i].1, cfg).Ok?
    ensures LocalIds(files[..i + 1], cfg)
      == Ok(LocalIds(files[..i], cfg).value + FileIds(files[i].0, files[i].1, cfg).value)
  {
    assert files[..i + 1][..i] == files[..i];
  }

  /** Every id of a file's records comes from one of their tag texts. */
  lemma {:induction false} CaseIdsSource(cases: seq<ParsedCase>, prefix: string, n: nat) returns (i: nat)
    requires n in CaseIds(cases, prefix)
    ensures i < |cases| && HasId(cases[i], prefix, n)
  {
    var init := cases[..|cases| - 1];
    if n in CaseIds(init, prefix) {
      i := CaseIdsSource(init, prefix, n);
      assert cases[i] == init[i];
    } else {
      i := |cases| - 1;
    }
  }

  /** The local id of every record's tag text is an id of the file. */
  lemma {:induction false} CaseIdsCover(cases: seq<ParsedCase>, prefix: string, i: nat, n: nat)
    requires i < |cases| && HasId(cases[i], prefix, n)
    ensures n in CaseIds(cases, prefix)
  {
    var init := cases[..|cases| - 1];
    if i < |init| {
      assert init[i] == cases[i];
      CaseIdsCover(init, prefix, i, n);
    }
  }

  /** The record `c` carries the id `n`. */
  predicate HasId(c: ParsedCase, prefix: string, n: nat) {
    LocalId(c.tags, prefix) == Some(n)
  }

  /** Every local id comes from one of the scanned files. */
  lemma {:induction false} LocalIdsSource(files: seq<(string, string)>, cfg: Config, n: nat) returns (i: nat)
    requires LocalIds(files, cfg).Ok? && n in LocalIds(files, cfg).value
    ensures i < |files| && InFile(files[i], cfg, n)
  {
    var init := files[..|files| - 1];
    var last := files[|files| - 1];
    assert LocalIds(files, cfg).value == LocalIds(init, cfg).value + FileIds(last.0, last.1, cfg).value;
    if n in LocalIds(init, cfg).value {
      i := LocalIdsSource(init, cfg, n);
      assert files[i] == init[i];
    } else {
      i := |files| - 1;
    }
  }

  /** The ids of every file are local ids, when the walk succeeds. */
  lemma {:induction false} LocalIdsCover(files: seq<(string, string)>, cfg: Config, i: nat, n: nat)
    requires LocalIds(files, cfg).Ok? && i < |files| && InFile(files[i], cfg, n)
    ensures n in LocalIds(files, cfg).value
  {
    var init := files[..|files| - 1];
    var last := files[|files| - 1];
    assert LocalIds(files, cfg).value == LocalIds(init, cfg).value + FileIds(last.0, last.1, cfg).value;
    if i < |init| {
      assert init[i] == files[i];
      LocalIdsCover(init, cfg, i, n);
    }
  }

  /** `n` is an id of the file `f`. */
  predicate InFile(f: (string, string), cfg: Config, n: nat) {
    FileIds(f.0, f.1, cfg).Ok? && n in FileIds(f.0, f.1, cfg).value
  }

  /** The fetched items are the responses of the ids of `order` that are
      new and answered, in that order. */
  lemma {:induction false} FetchedExact(order: seq<nat>, local: set<nat>, responses: map<nat, WorkItem>)
    ensures var r := Fetched(order, local, responses);
      |r| == |Kept(order, local, responses)|
      && forall i :: 0 <= i < |r| ==> r[i] == responses[Kept(order, local, responses)[i]]
  {
    if order != [] {
      FetchedExact(order[..|order| - 1], local, responses);
    }
  }

  /** The ids whose requests are kept, in order. */
  function Kept(order: seq<nat>, local: set<nat>, responses: map<nat, WorkItem>): (r: seq<nat>)
    ensures forall i :: 0 <= i < |r| ==> r[i] in responses && r[i] !in local && r[i] in order
  {
    if order == [] then []
    else
      var id := order[|order| - 1];
      var init := Kept(order[..|order| - 1], local, responses);
      assert forall i :: 0 <= i < |init| ==> init[i] in order[..|order| - 1];
      init + (if id !in local && id in responses then [id] else [])
  }

  /** An id whose request succeeded is kept when `order` lists it, and a
      failed request never stops the loop. */
  lemma {:induction false} KeptHas(order: seq<nat>, local: set<nat>, responses: map<nat, WorkItem>, n: nat)
    ensures n in Kept(order, local, responses) <==> n in order && n !in local && n in responses
  {
    if order != [] {
      KeptHas(order[..|order| - 1], local, responses, n);
      assert order == order[..|order| - 1] + [order[|order| - 1]];
    }
  }

  /** The positions in `order` of the kept ids: increasing, and every
      position whose id is new and answered is among them. */
  lemma {:induction false} KeptPositions(order: seq<nat>, local: set<nat>, responses: map<nat, WorkItem>)
    returns (pos: seq<nat>)
    ensures var ks := Kept(order, local, responses);
      |pos| == |ks|
      && (forall i :: 0 <= i < |pos| ==> pos[i] < |order| && order[pos[i]] == ks[i])
      && (forall i, j :: 0 <= i < j < |pos| ==> pos[i] < pos[j])
      && (forall p :: 0 <= p < |order| && order[p] !in local && order[p] in responses ==> p in pos)
  {
    if order == [] {
      pos := [];
    } else {
      var n := |order| - 1;
      var init := order[..n];
      var pos0 := KeptPositions(init, local, responses);
      if order[n] !in local && order[n] in responses {
        pos := pos0 + [n];
      } else {
        pos := pos0;
      }
    }
  }

  /** When `order` iterates the new ids, the kept ids are the catalog ids
      that are not local and were answered, each once, in that order. */
  lemma KeptNew(catalog: set<nat>, local: set<nat>, order: seq<nat>, responses: map<nat, WorkItem>)
    returns (pos: seq<nat>)
    requires Lists(order, NewIds(catalog, local))
    ensures var ks := Kept(order, local, responses);
      (forall n :: n in ks <==> n in catalog && n !in local && n in responses)
      && (forall i, j :: 0 <= i < j < |ks| ==> ks[i] != ks[j])
      && |pos| == |ks|
      && (forall i :: 0 <= i < |pos| ==> pos[i] < |order| && order[pos[i]] == ks[i])
      && (forall i, j :: 0 <= i < j < |pos| ==> pos[i] < pos[j])
  {
    var ks := Kept(order, local, responses);
    forall n
      ensures n in ks <==> n in catalog && n !in local && n in responses
    {
      KeptHas(order, local, responses, n);
    }
    pos := KeptPositions(order, local, responses);
    forall i, j | 0 <= i < j < |ks|
      ensures ks[i] != ks[j]
    {
      assert order[pos[i]] == ks[i] && order[pos[j]] == ks[j];
    }
  }

  /** When the pull succeeds, the blocks appended are those of the kept
      ids' responses, in order (`KeptNew` says which ids those are). */
  lemma PullNewItems(catalog: set<nat>, files: seq<(string, string)>, order: seq<nat>,
                     responses: map<nat, WorkItem>, existing: string, cfg: Config)
    returns (content: string)
    requires LocalIds(files, cfg).Ok? ==> Lists(order, NewIds(catalog, LocalIds(files, cfg).value))
    requires Pull(catalog, files, order, responses, existing, cfg).Ok?
    ensures LocalIds(files, cfg).Ok?
    ensures var ks := Kept(order, LocalIds(files, cfg).value, responses);
      RenderAll(seq(|ks|, i requires 0 <= i < |ks| => responses[ks[i]]), cfg.tags) == Ok(content)
    ensures Pull(catalog, files, order, responses, existing, cfg)
      == Ok(AppendOnce(existing, content, cfg.settingsSection, cfg.testCasesSection))
  {
    var local := LocalIds(files, cfg).value;
    var ks := Kept(order, local, responses);
    var items := Fetched(order, local, responses);
    FetchedExact(order, local, responses);
    assert items == seq(|ks|, i requires 0 <= i < |ks| => responses[ks[i]]);
    content := RenderAll(items, cfg.tags).value;
  }

  /** The existing text is always kept in front. */
  lemma AppendKeepsExisting(existing: string, rendered: string, settings: string, testCases: string)
    ensures StartsWith(AppendOnce(existing, rendered, settings, testCases), existing)
  {
    var r := AppendOnce(existing, rendered, settings, testCases);
    assert r[..|existing|] == existing;
  }

  /** The headers are added exactly when the file is empty or holds
      neither of them; the new blocks always come last. */
  lemma AppendHeaderWhen(existing: string, rendered: string, settings: string, testCases: string)
    ensures var added := existing == [] || (!Contains(existing, settings) && !Contains(existing, testCases));
      AppendOnce(existing, rendered, settings, testCases)
        == existing + (if added then settings + testCases else []) + rendered
  {
  }

  /** With nothing new and a header already there, the file is unchanged. */
  lemma AppendNothingNew(existing: string, settings: string, testCases: string)
    requires Contains(existing, settings) || Contains(existing, testCases)
    requires existing != []
    ensures AppendOnce(existing, "", settings, testCases) == existing
  {
  }

  /** A file that already holds a header receives only the new blocks. */
  lemma AppendTwice(existing: string, a: string, b: string, settings: string, testCases: string)
    requires settings != []
    ensures var once := AppendOnce(existing, a, settings, testCases);
      AppendOnce(once, b, settings, testCases) == once + b
  {
    var once := AppendOnce(existing, a, settings, testCases);
    var added := existing == [] || (!Contains(existing, settings) && !Contains(existing, testCases));
    if added {
      var w := existing + settings + testCases;
      assert OccursAt(once, settings, |existing|) by {
        assert once[|existing|..|existing| + |settings|] == settings;
      }
    } else {
      assert StartsWith(once, existing) by {
        AppendKeepsExisting(existing, a, settings, testCases);
      }
      if Contains(existing, settings) {
        ContainsPrefix(once, existing, settings);
      } else {
        ContainsPrefix(once, existing, testCases);
      }
    }
  }

  /** An occurrence in a prefix is an occurrence in the whole text. */
  lemma ContainsPrefix(s: string, p: string, q: string)
    requires StartsWith(s, p) && Contains(p, q)
    ensures Contains(s, q)
  {
    var i :| 0 <= i <= |p| - |q| && OccursAt(p, q, i);
    assert s[i..i + |q|] == p[i..i + |q|];
    assert OccursAt(s, q, i);
  }

  /** A failed request of `get_test_case` still ensures the header. */
  lemma PullOneFailed(existing: string, cfg: Config)
    requires cfg.settingsSection != []
    ensures var r := PullOne(None, existing, cfg);
      r.Ok? && StartsWith(r.value, existing)
      && (Contains(r.value, cfg.settingsSection) || Contains(r.value, cfg.testCasesSection))
  {
    var r := PullOne(None, existing, cfg).value;
    AppendKeepsExisting(existing, "", cfg.settingsSection, cfg.testCasesSection);
    if existing == [] || (!Contains(existing, cfg.settingsSection) && !Contains(existing, cfg.testCasesSection)) {
      assert OccursAt(r, cfg.settingsSection, |existing|) by {
        assert r[|existing|..|existing| + |cfg.settingsSection|] == cfg.settingsSection;
      }
    } else if Contains(existing, cfg.settingsSection) {
      ContainsPrefix(r, existing, cfg.settingsSection);
    } else {
      ContainsPrefix(r, existing, cfg.testCasesSection);
    }
  }

  /** A tag text written as `{prefix} {n}` followed by white space (or
      nothing) is read back as `n`. */
  lemma LocalIdRoundTrip(prefix: string, n: nat, rest: string)
    requires prefix != []
    requires rest == [] || IsSpace(rest[0])
    ensures LocalId(prefix + " " + NatToString(n) + rest, prefix) == Some(n)
  {
    assert [] + prefix == prefix;
    assert rest != [] ==> !IsDigit(rest[0]);
    SearchFinds([], prefix, NatToString(n), rest, Digits);
    NatToStringValue(n);
  }

  /** A line written as the tag lead, a text that starts and ends without
      white space, then anything, is classified as a tag line whose text
      starts with that text: the classifier strips the lead and the marker
      and at most white space at the end. */
  lemma TagLineRead(head: string, rest: string, titlePrefix: string) returns (j: nat)
    requires head != [] && !IsSpace(head[0]) && !IsSpace(head[|head| - 1])
    requires titlePrefix != [] && titlePrefix[0] != '['
    ensures j <= |rest| && Classify(TagsLead + head + rest, titlePrefix) == TagLine(head + rest[..j])
  {
    var t := head + rest;
    var j1 := LeadStrip(head, rest);
    MarkerSlices(t, j1);
    ClassifyMarked(TagsLead + head + rest, (TagsMarker + "  " + t)[..j1], titlePrefix);
    j := InnerStrip(head, rest, j1 - 8);
  }

  /** Stripping the tag line drops its four leading spaces and keeps at
      least the marker, the two spaces and `head`. */
  lemma LeadStrip(head: string, rest: string) returns (j1: nat)
    requires head != [] && !IsSpace(head[|head| - 1])
    ensures 8 + |head| <= j1 <= 8 + |head| + |rest|
    ensures Strip(TagsLead + head + rest) == (TagsMarker + "  " + (head + rest))[..j1]
  {
    var m1 := TagsMarker + "  " + (head + rest);
    assert TagsLead + head + rest == "    " + m1;
    assert m1[8 + |head| - 1] == head[|head| - 1];
    j1 := StripLeadKeeps("    ", m1, 8 + |head|);
  }

  /** Stripping what follows the marker keeps at least `head`. */
  lemma InnerStrip(head: string, rest: string, a: nat) returns (j: nat)
    requires head != [] && !IsSpace(head[0]) && !IsSpace(head[|head| - 1])
    requires |head| <= a <= |head| + |rest|
    ensures j <= |rest| && Strip("  " + (head + rest)[..a]) == head + rest[..j]
  {
    var inner := (head + rest)[..a];
    assert inner[|head| - 1] == head[|head| - 1];
    assert inner[0] == head[0];
    var j2 := StripLeadKeeps("  ", inner, |head|);
    j := j2 - |head|;
    PrefixOfJoin(head, rest, a, j2);
  }

  /** A prefix, at least as long as `head`, of a prefix of `head + rest`. */
  lemma PrefixOfJoin(head: string, rest: string, a: nat, b: nat)
    requires |head| <= b <= a <= |head| + |rest|
    ensures (head + rest)[..a][..b] == head + rest[..b - |head|]
  {
    var x := (head + rest)[..a][..b];
    var y := head + rest[..b - |head|];
    assert |x| == |y|;
    forall k | 0 <= k < |x|
      ensures x[k] == y[k]
    {
      if k < |head| {
        assert x[k] == head[k];
      } else {
        assert x[k] == rest[k - |head|];
      }
    }
  }

  /** The marker and the two spaces, cut at `j1`. */
  lemma MarkerSlices(t: string, j1: nat)
    requires 8 <= j1 <= 8 + |t|
    ensures StartsWith((TagsMarker + "  " + t)[..j1], TagsMarker)
    ensures (TagsMarker + "  " + t)[..j1][|TagsMarker|..] == "  " + t[..j1 - 8]
  {
    var l := (TagsMarker + "  " + t)[..j1];
    assert l[..6] == TagsMarker;
    assert l[6..] == "  " + t[..j1 - 8];
  }

  /** A line whose strip starts with the marker, and not with the title
      prefix, is a tag line. */
  lemma ClassifyMarked(line: string, l: string, titlePrefix: string)
    requires Strip(line) == l && StartsWith(l, TagsMarker)
    requires titlePrefix != [] && titlePrefix[0] != '['
    ensures Classify(line, titlePrefix) == TagLine(Strip(l[|TagsMarker|..]))
  {
    assert l[0] == '[' by {
      assert l[..6][0] == TagsMarker[0];
    }
  }

  /** The tag line a pull writes for a numeric id is read, by the line
      classifier of the next run, as a tag line whose local id is that id:
      a test case the pull has written is not fetched again. */
  lemma RenderedTagLineReadBack(cfg: TagConfig, fields: map<string, FieldValue>, sprint: string,
                                tail: string, n: nat)
    requires cfg.testCase != [] && !IsSpace(cfg.testCase[0])
    requires cfg.title != [] && cfg.title[0] != '['
    requires IdKey in fields && fields[IdKey] == Number(n)
    ensures var k := Classify(TagsLead + TagLineText(cfg, fields, sprint) + tail, cfg.title);
      k.TagLine? && LocalId(k.tags, cfg.testCase) == Some(n)
  {
    var v := NatToString(n);
    var head := cfg.testCase + " " + v;
    var rest := TagRest(cfg, fields, sprint) + tail;
    assert TagsLead + TagLineText(cfg, fields, sprint) + tail == TagsLead + head + rest;
    assert head[|head| - 1] == v[|v| - 1];
    var j := TagLineRead(head, rest, cfg.title);
    assert j > 0 ==> rest[..j][0] == ' ';
    LocalIdRoundTrip(cfg.testCase, n, rest[..j]);
  }
}
