# rf_azure_sync in Dafny

This project models the text and record translation at the core of
rf_azure_sync. The tool keeps Robot Framework test suites (`.robot`
files) and Gherkin features (`.feature` files) in step with the test-case
work items of Azure DevOps. It works in two directions:

- **Push** (`rf_azure_sync_patch.py`, `parse_and_send.py`,
  `parseMyFeature.py`). A local file is cut into test cases. Each test
  case becomes an ordered JSON-Patch operation list, following RFC 6902:
  `replace` of the automation status, priority, title, steps blob and tags,
  plus `add` of work-item links. Gherkin scenarios become a steps blob,
  parameter XML and an examples data set, patched onto every `@tc:` work
  item they name.
- **Pull** (`rf_azure_sync_get.py`, `ado_sync_get.py`, `get.py`). The ids
  already present locally are collected. Work items the catalogue holds
  and the files do not are rendered as Robot blocks, or as Gherkin
  scenarios with an examples table. The result is appended to a
  `todo_organize.robot` file that receives its header once, or written as
  one `<suite id>.feature` file per test suite.

Each regular expression of the source is an explicit scanning function
over `seq<char>`. The configuration (`tag_config`, organisation, project,
area path, section markers) is passed in as a `SyncConfig.Config` value.
Results of HTTP calls, file contents and directory listings are inputs.
The Gherkin parser's AST is the `GherkinEncode.Scenario` datatype, and the
work-item JSON is the `RobotRender.WorkItem` and `FeatureRender.FeatureItem`
datatypes.

Where the source mutates a local list, dictionary or string in a loop,
the model has a `method` with a `while` loop. Each such method is proved
equal to a specification function, and the properties are proved as
lemmas about that function. A Python exception that ends the run (a
`KeyError`, an `AttributeError` on a failed `re.search`, an `IndexError`)
becomes the `Err` side of a `Result`. Errors stop the loops that contain
them, as the exception would.

Modules:

| file | module | models |
|---|---|---|
| wrappers.dfy | Wrappers | `Option` and `Result` |
| text_ops.dfy | TextOps | `str.strip`, `str.split`, `str.join`, `str.replace`, `str(int)` |
| sync_config.dfy | SyncConfig | the configuration fields the code reads |
| tag_scan.dfy | TagScan | `re.search(prefix\s*(group))` |
| tag_grammar.dfy | TagGrammar | `parse_tags` |
| robot_sections.dfy | RobotSections | `extract_test_tags_and_test_cases(_for_features)` |
| robot_parser.dfy | RobotParser | `parse_test_cases` |
| steps_codec.dfy | StepsCodec | `TestStep`, `transform_steps`, `build_steps_xml`, step decoding |
| push_patch.dfy | PushPatch | the Robot push: tags, links, fields, the patch request |
| robot_render.dfy | RobotRender | `create_robot_content` |
| pull_sync.dfy | PullSync | the Robot pull: local ids, new ids, header-once append |
| gherkin_encode.dfy | GherkinEncode | the Gherkin push (`parse_and_send.py`, `parseMyFeature.py`) |
| feature_render.dfy | FeatureRender | the Gherkin pull (`get.py`) |

Three details of the code that the model keeps as written:

- `build_steps_xml` numbers Robot steps from 1. Only the Gherkin converters
  start at 2.
- The Robot pull appends the section header after the existing content,
  not before it.
- The push writes link URLs with `_apis/wit/workitems/` in lower case. The
  Robot pull looks only for `_apis/wit/workItems/`, with a capital I.

## Model

| member | source | states |
|---|---|---|
| TextOps.Split | rf_azure_sync/rf_azure_sync_patch.py:206 | `str.split("\n")` yields at least one piece, and no piece holds the separator |
| TextOps.SplitJoin | rf_azure_sync/rf_azure_sync_patch.py:206 | joining the pieces of a split with the separator gives the text back |
| TextOps.JoinSplit | rf_azure_sync/rf_azure_sync_patch.py:206 | splitting a join of separator-free pieces gives the pieces back |
| TextOps.StripShape | rf_azure_sync/rf_azure_sync_patch.py:208-210 | a stripped line starts and ends with non-white space, and it is empty exactly when the line is all white space |
| TextOps.StripKeeps | rf_azure_sync/rf_azure_sync_patch.py:208 | stripping a line without outer white space leaves it unchanged |
| TextOps.WordsShape | rf_azure_sync/rf_azure_sync_patch.py:185 | `str.split()` yields non-empty words without white space, and none for an all-blank text |
| TextOps.WordsJoin | rf_azure_sync/rf_azure_sync_patch.py:185 | `split()` of words joined by single spaces gives the words back |
| TextOps.Partition | rf_azure_sync/rf_azure_sync_get.py:236-237 | a lazy `(.*?)` group followed by a literal ends at the literal's first occurrence: the text is group + literal + rest, and the group holds no occurrence |
| TextOps.ReplaceAllPrefix | rf_azure_sync/rf_azure_sync_get.py:285-287 | `str.replace` turns a leading occurrence into the replacement and goes on with the rest |
| TextOps.ReplaceAllConcat | rf_azure_sync/rf_azure_sync_get.py:285-287 | `str.replace` leaves alone a prefix that cannot start an occurrence |
| TextOps.ReplaceAllNone | ado_sync/get.py:44 | `str.replace` changes nothing in a text with no occurrence |
| TextOps.ReplaceChar | rf_azure_sync/rf_azure_sync_patch.py:282 | one-character `replace` keeps the length and changes exactly the matching characters |
| TextOps.ReplaceCharBack | rf_azure_sync/rf_azure_sync_get.py:272 | turning spaces into `_` and back restores a text that held no `_` |
| TextOps.NatToString | rf_azure_sync/rf_azure_sync_get.py:221 | `str(n)` is a non-empty digit run without a leading zero |
| TextOps.NatToStringValue | rf_azure_sync/rf_azure_sync_get.py:320 | `int(str(n)) == n` |
| TextOps.CloseBefore | rf_azure_sync/rf_azure_sync_get.py:284 | the end of a lazy `<...?>` match: a `>` at or after the start, with no `>` and no excluded character (`<` for `<[^<]+?>`, a line break for `<(.*?)>`) before it |
| TextOps.CloseBeforeAt | ado_sync/parse_and_send.py:136-139 | conversely, the first `>` before any excluded character is exactly the one the lazy match stops at |
| TagScan.Search | rf_azure_sync/rf_azure_sync_patch.py:275-278 | the group of the leftmost match is non-empty and of the group's character class; no value means no index matches |
| TagScan.CaptureAt | rf_azure_sync/rf_azure_sync_patch.py:292 | `\s*` then the group, with the backtracking of `[\w\s]+` into the white space: a non-empty value of the group's class |
| TagScan.SearchFinds | rf_azure_sync/rf_azure_sync_patch.py:275-288 | a value written after the prefix and one space is the value the search returns |
| TagScan.SearchFindsAdjacent | rf_azure_sync/rf_azure_sync_get.py:260-262 | a digit run right after `_apis/wit/workItems/` is the value the search returns |
| TagScan.SearchContains | rf_azure_sync/rf_azure_sync_patch.py:275-278 | a successful search implies the prefix occurs in the text |
| TagScan.SearchAbsent | rf_azure_sync/rf_azure_sync_patch.py:275-278 | a text without the prefix gives no match |
| TagGrammar.PairAt | rf_azure_sync/rf_azure_sync_patch.py:239 | one match of the pair pattern (a category, a colon or white space, a value): a non-empty category and value, consuming at least one character |
| TagGrammar.ParseTags | rf_azure_sync/rf_azure_sync_patch.py:228-244 | the dictionary's keys are exactly the categories found, and each maps to its values in left-to-right order, repeats accumulating |
| TagGrammar.ValuesOfSnoc | rf_azure_sync/rf_azure_sync_patch.py:240-243 | a new pair appends its value to its own category only |
| TagGrammar.ValuesOfAbsent | rf_azure_sync/rf_azure_sync_patch.py:556-557 | `tags.get(c, [])` of a category never seen is `[]` |
| TagGrammar.LinkedIds | rf_azure_sync/rf_azure_sync_patch.py:556-558 | as many linked ids as UserStory and Bug values together |
| TagGrammar.LinkedIdsOfParse | rf_azure_sync/rf_azure_sync_patch.py:555-558 | on a parsed dictionary, the linked ids are the UserStory and then the Bug values of the pair list |
| TagGrammar.PairsOfTagText | rf_azure_sync/rf_azure_sync_patch.py:239 | `category:value` pairs written apart by white space are read back as the same pairs |
| RobotSections.HeaderEnd | rf_azure_sync/rf_azure_sync_get.py:36-38 | a `***\s*Word\s****` header found at an index starts and ends with `***` |
| RobotSections.SettingsSearch | rf_azure_sync/rf_azure_sync_get.py:36-39 | the lazy settings group never holds `***` |
| RobotSections.StopFrom | rf_azure_sync/rf_azure_sync_get.py:51-53 | the test-case group stops at the first `***` or at the end of the text |
| RobotSections.TestCasesSearch | rf_azure_sync/rf_azure_sync_get.py:51-54 | the test-cases group never holds `***` |
| RobotSections.ExtractSections | rf_azure_sync/rf_azure_sync_get.py:26-86 | the test-case text holds no `***`, and a Test Tags value, when there is one, is non-empty |
| RobotSections.TestCasesDataNoStars | rf_azure_sync/rf_azure_sync_get.py:51-54 | the stripped test-case section holds no `***` |
| RobotSections.TestCasesRoundTrip | rf_azure_sync/rf_azure_sync_get.py:51-54 | the section under a `*** Test Cases ***` header is the body, stripped |
| RobotSections.NoHeaderNoSections | rf_azure_sync/rf_azure_sync_get.py:36-54 | a file without any header gives `""` and no tags |
| RobotSections.TestTagsLine | rf_azure_sync/rf_azure_sync_get.py:48-49 | the `Test Tags` search returns the rest of its line |
| RobotSections.CaseTagsRoundTrip | rf_azure_sync/rf_azure_sync_get.py:48-50 | the words of a `Test Tags` line come back joined by `"; "` |
| RobotSections.CaseTagsNonEmpty | rf_azure_sync/rf_azure_sync_get.py:50 | a Test Tags value that is present is never empty |
| RobotParser.ClassifyAll | rf_azure_sync/rf_azure_sync_patch.py:207-222 | one line kind per line |
| RobotParser.ParseTestCases | rf_azure_sync/rf_azure_sync_patch.py:193-225 | the loop with a mutable current record computes `ParseLines` of the split text |
| RobotParser.RecordsFollowLines | rf_azure_sync/rf_azure_sync_patch.py:207-225 | the records' titles are the title lines and their steps are the step lines, both in document order |
| RobotParser.FeedRecords | rf_azure_sync/rf_azure_sync_patch.py:211-222 | one line adds its title or its step to the records and nothing else |
| RobotParser.FailsIffOrphanStep | rf_azure_sync/rf_azure_sync_patch.py:221-222 | parsing raises exactly when a step comes before any title line, and otherwise ends inside a test case exactly when there was a title |
| RobotParser.RunErrSticks | rf_azure_sync/rf_azure_sync_patch.py:207-222 | once the parser raised, later lines change nothing |
| RobotParser.CutAtTitle | rf_azure_sync/rf_azure_sync_patch.py:211-218 | a title line finishes the records before it, and the lines from it on are parsed as if they were the whole section |
| RobotParser.TitleSpan | rf_azure_sync/rf_azure_sync_patch.py:211-222 | a title line followed by no other title line makes exactly one record: that title, the text of the last `[tags]` line after it (a later one overwrites an earlier one) or `""`, and the step lines after it in order |
| RobotParser.LeadSpan | rf_azure_sync/rf_azure_sync_patch.py:205-222 | before the first title line, a successful parse has met no step, and leaves a Tags-only record holding the last `[tags]` text exactly when a `[tags]` line was met |
| RobotParser.RecordOfTitle | rf_azure_sync/rf_azure_sync_patch.py:211-224 | the record right after those of the lines before title line p holds p's title, the steps between p and the next title line in order, and the last `[tags]` text of that span or `""` |
| RobotParser.RecordCount | rf_azure_sync/rf_azure_sync_patch.py:205-224 | one record per title line, plus one Tags-only record in front exactly when a `[tags]` line comes before every title line |
| RobotParser.BlankLinesParseEmpty | rf_azure_sync/rf_azure_sync_patch.py:207-225 | input with no non-blank line yields no records |
| StepsCodec.TransformSteps | rf_azure_sync/rf_azure_sync_patch.py:247-261 | one `TestStep(line, i + 1)` per line, in order |
| StepsCodec.Actions | rf_azure_sync/rf_azure_sync_patch.py:384 | the actions of the steps, in order |
| StepsCodec.StepElementPieces | rf_azure_sync/rf_azure_sync_patch.py:56-80 | a step element is the step open tag, its id, `ActionStep`, the wrapped action, the fixed empty expected result and the closing tags |
| StepsCodec.BuildStepsXmlEmpty | rf_azure_sync/rf_azure_sync_patch.py:385-393 | no steps give `<steps id="0" last="0"></steps>` |
| StepsCodec.StepMatch | rf_azure_sync/rf_azure_sync_get.py:233-243 | a `<step>` match found at the start consumes text |
| StepsCodec.StepMatchesPieces | rf_azure_sync/rf_azure_sync_get.py:234-241 | a well-formed step element yields its two groups and matching goes on after it |
| StepsCodec.StepMatchesOfBlob | rf_azure_sync/rf_azure_sync_get.py:233-243 | on a blob built by `build_steps_xml`, the matches are the wrapped action and expected result of every step, in order |
| StepsCodec.NonEmpty | rf_azure_sync/rf_azure_sync_get.py:289-290 | a step is kept exactly when it is non-empty, and nothing else is kept |
| StepsCodec.NonEmptyConcat | rf_azure_sync/rf_azure_sync_get.py:289-290 | the filter works step by step: the steps kept from a concatenation are those kept from each part, in order |
| StepsCodec.NonEmptyCount | rf_azure_sync/rf_azure_sync_get.py:289-290 | every non-empty step is kept as often as it occurs, and no empty one is |
| StepsCodec.CleanActionBody | rf_azure_sync/rf_azure_sync_get.py:284-287 | cleaning a wrapped action without `<` and `&` gives back the action |
| StepsCodec.UnescapeActionBody | rf_azure_sync/rf_azure_sync_get.py:284 | unescaping the wrapped action gives `<P>action<BR/></P>` |
| StepsCodec.RemoveTagsAround | rf_azure_sync/rf_azure_sync_get.py:285-287 | the six `replace` calls strip `<P>`, `<BR/>` and `</P>` from around the action |
| StepsCodec.AppendSteps | rf_azure_sync/rf_azure_sync_get.py:283-291 | the loop appends four spaces, the step and a newline for every decoded non-empty step |
| StepsCodec.DecodeBuild | rf_azure_sync/rf_azure_sync_get.py:233-290 | decoding the blob `build_steps_xml` made returns the original actions, for actions that are non-empty and hold no `<`, `>` or `&` |
| StepsCodec.DecodeOf | rf_azure_sync/rf_azure_sync_get.py:283-290 | a blob whose matches are the wrapped actions decodes to the actions |
| PushPatch.CombineTags | rf_azure_sync/rf_azure_sync_patch.py:299-305 | `tags_value` is empty exactly when both parts are, and starts with the test tags when they exist |
| PushPatch.CombineTagsJoin | rf_azure_sync/rf_azure_sync_patch.py:299-305 | `tags_value` is the non-empty parts joined by `"; "` |
| PushPatch.ExtractTagsInfo | rf_azure_sync/rf_azure_sync_patch.py:264-307 | raises exactly when the automation-status tag is absent; the status is non-empty with no `_`; the priority is absent exactly when its tag is |
| PushPatch.StatusRoundTrip | rf_azure_sync/rf_azure_sync_patch.py:275-283 | a status written after its prefix is read back with `_` turned into spaces |
| PushPatch.BuildIterationPathTags | rf_azure_sync/rf_azure_sync_patch.py:310-338 | None for no candidates, else one replace op for the last candidate |
| PushPatch.IterationOpOfSprint | rf_azure_sync/rf_azure_sync_patch.py:325-331 | a sprint written with `_` becomes area path + sprint again |
| PushPatch.LinkOps | rf_azure_sync/rf_azure_sync_patch.py:355-369 | one link op per id, in order |
| PushPatch.BuildLinkedItems | rf_azure_sync/rf_azure_sync_patch.py:341-371 | one `add` op on `/relations/-` per id, in the same order, with URL `https://dev.azure.com/{org}/{project}/_apis/wit/workitems/{id}` |
| PushPatch.KeepValued | rf_azure_sync/rf_azure_sync_patch.py:446 | the filter keeps only ops whose value is neither None nor `""` |
| PushPatch.KeepValuedConcat | rf_azure_sync/rf_azure_sync_patch.py:446 | the filter works on each op alone and keeps the order |
| PushPatch.KeepValuedAll | rf_azure_sync/rf_azure_sync_patch.py:446 | ops that all have a value pass the filter unchanged |
| PushPatch.BuildFields | rf_azure_sync/rf_azure_sync_patch.py:396-446 | every op left has a value |
| PushPatch.BuildFieldsOrder | rf_azure_sync/rf_azure_sync_patch.py:411-446 | the ops come in the order status, priority, title, steps, tags, links; empty ones are dropped and nothing else is reordered or changed |
| PushPatch.StepsBlobNonEmpty | rf_azure_sync/rf_azure_sync_patch.py:385-393 | the steps blob is never empty, so the steps op always survives the filter |
| PushPatch.TestCaseId | rf_azure_sync/rf_azure_sync_patch.py:479-480 | the id is a digit run after the hard-coded `TestCase`, or `""` exactly when there is no match |
| PushPatch.TestCaseIdRoundTrip | rf_azure_sync/rf_azure_sync_patch.py:479-480 | `TestCase n` written in the tags gives back `str(n)` |
| PushPatch.UpdateAzureTestCase | rf_azure_sync/rf_azure_sync_patch.py:449-511 | the patch request: URL with the test-case id and `api-version`, and the op list of `build_fields` |
| PushPatch.NoIterationPathOp | rf_azure_sync/rf_azure_sync_patch.py:482-504 | no op of a patch request touches `/fields/System.IterationPath` |
| PushPatch.FieldPathsAvoid | rf_azure_sync/rf_azure_sync_patch.py:412-446 | `build_fields` emits no iteration-path op |
| PushPatch.NumberedSteps | rf_azure_sync/rf_azure_sync_patch.py:559 | one step per line |
| PushPatch.CaseRequests | rf_azure_sync/rf_azure_sync_patch.py:548-560 | one request outcome per parsed case |
| PushPatch.CaseRequestsAt | rf_azure_sync/rf_azure_sync_patch.py:548-560 | outcome i belongs to case i |
| PushPatch.PushCase | rf_azure_sync/rf_azure_sync_patch.py:555-560 | the request of one case: its tags, its UserStory then Bug ids, its numbered steps |
| PushPatch.PushCases | rf_azure_sync/rf_azure_sync_patch.py:548-560 | the loop over cases sends requests until the first exception |
| PushPatch.PushSection | rf_azure_sync/rf_azure_sync_patch.py:546-560 | parse the section, then send its cases |
| PushPatch.PushFile | rf_azure_sync/rf_azure_sync_patch.py:543-547 | `todo_organize.robot` is skipped; other files are cut into sections and sent |
| PushPatch.RfAzureSyncPatch | rf_azure_sync/rf_azure_sync_patch.py:535-560 | the loop over files computes `SendFiles` |
| PushPatch.SendCasesAttempt | rf_azure_sync/rf_azure_sync_patch.py:548-560 | sending cases is attempting their outcomes in order |
| PushPatch.SendCasesStops | rf_azure_sync/rf_azure_sync_patch.py:548-560 | after an exception no later case is sent |
| PushPatch.SendFilesStops | rf_azure_sync/rf_azure_sync_patch.py:543-560 | after an exception no later file is read |
| PushPatch.AttemptAll | rf_azure_sync/rf_azure_sync_patch.py:548-560 | without an exception, one request per outcome is sent, in order, after the earlier ones |
| PushPatch.SendSectionAll | rf_azure_sync/rf_azure_sync_patch.py:546-560 | a section sent without an exception parsed, and sent exactly one request per case, in case order |
| RobotRender.IntToString | rf_azure_sync/rf_azure_sync_get.py:221 | `str(n)`: digits, with a minus sign for a negative number |
| RobotRender.FieldText | rf_azure_sync/rf_azure_sync_get.py:266-271 | `fields.get(key, "")` of a missing key shows as `""` |
| RobotRender.Sprint | rf_azure_sync/rf_azure_sync_get.py:272 | the sprint holds no space; it raises exactly when `Sprint` is not a string |
| RobotRender.StepsRaw | rf_azure_sync/rf_azure_sync_get.py:280-281 | raises exactly when the steps field is not a string |
| RobotRender.TagRest | rf_azure_sync/rf_azure_sync_get.py:220-225 | the tag line goes on after the id with a space |
| RobotRender.PrefixedTags | rf_azure_sync/rf_azure_sync_get.py:248-250 | one `{prefix} {part}` per part |
| RobotRender.SystemTagsPart | rf_azure_sync/rf_azure_sync_get.py:245-252 | the system-tags part is written exactly when `System.Tags` is present and not None |
| RobotRender.SystemTagsIgnoreValue | rf_azure_sync/rf_azure_sync_get.py:248-250 | the part does not depend on the field's value, only on the configured prefix |
| RobotRender.RelationTag | rf_azure_sync/rf_azure_sync_get.py:258-263 | a URL holding `_apis/wit/workItems/` gives `    {user story} {digits}`; it raises exactly when no digits follow the marker |
| RobotRender.RelationTagOfUrl | rf_azure_sync/rf_azure_sync_get.py:259-263 | the tag of `..._apis/wit/workItems/n` carries `str(n)` |
| RobotRender.RelationsTags | rf_azure_sync/rf_azure_sync_get.py:254-264 | the loop appends the relation tags in relation order |
| RobotRender.RelationTagsFail | rf_azure_sync/rf_azure_sync_get.py:254-264 | the relation tags raise exactly when one relation does |
| RobotRender.RelationTagsStops | rf_azure_sync/rf_azure_sync_get.py:258-263 | the first relation that raises decides the error |
| RobotRender.Render | rf_azure_sync/rf_azure_sync_get.py:203-293 | the block raises exactly when the sprint, a relation or the steps field does |
| RobotRender.CreateRobotContent | ado_sync/ado_sync_get.py:41-131 | the block: heading `\n {title prefix}: {title}\n`, the tag line, the decoded steps, a final `\n` |
| RobotRender.TagTextId | rf_azure_sync/rf_azure_sync_get.py:220-221 | the id written after the test-case prefix is what the prefix search reads |
| PullSync.LocalId | rf_azure_sync/rf_azure_sync_get.py:320-322 | the id of a record is the value of the first digit run after the prefix, or none exactly when there is no match |
| PullSync.LocalIdRoundTrip | rf_azure_sync/rf_azure_sync_get.py:320-322 | `{prefix} n` in the tags gives back n |
| PullSync.UpdateIds | rf_azure_sync/rf_azure_sync_get.py:319-323 | `set.update` adds the ids of the matching records |
| PullSync.ScanFile | rf_azure_sync/rf_azure_sync_get.py:315-332 | a `.robot` or `.feature` file contributes its records' ids; other files nothing |
| PullSync.GetRobotTestCaseIds | rf_azure_sync/rf_azure_sync_get.py:296-334 | the loop over files computes `LocalIds` |
| PullSync.CaseIdsSource | rf_azure_sync/rf_azure_sync_get.py:319-323 | every local id comes from some record |
| PullSync.CaseIdsCover | rf_azure_sync/rf_azure_sync_get.py:319-323 | every record's id is a local id |
| PullSync.LocalIdsSource | rf_azure_sync/rf_azure_sync_get.py:313-332 | every local id comes from some scanned file |
| PullSync.LocalIdsCover | rf_azure_sync/rf_azure_sync_get.py:313-332 | every id of every scanned file is a local id |
| PullSync.LocalIdsStops | rf_azure_sync/rf_azure_sync_get.py:313-332 | the first file that fails to parse decides the error |
| PullSync.KeptNew | rf_azure_sync/rf_azure_sync_get.py:353-370 | when the loop iterates `azure_test_cases - robot_test_case_ids`, the ids kept are exactly the catalogue ids that are not local and were answered, each once, in iteration order |
| PullSync.KeptPositions | rf_azure_sync/rf_azure_sync_get.py:355-370 | the kept ids sit at increasing positions of the iteration, and every answered new id is among them |
| PullSync.PullNewItems | rf_azure_sync/rf_azure_sync_get.py:351-391 | a successful pull appends, after the header-once step, the rendered blocks of the kept ids' responses, in order |
| PullSync.Pull | rf_azure_sync/rf_azure_sync_get.py:336-391 | a local file that fails to parse is the error of the whole pull, and a successful pull keeps the existing content in front |
| PullSync.FetchNew | rf_azure_sync/rf_azure_sync_get.py:355-370 | the loop keeps the responses of the new ids that came back, in order |
| PullSync.Fetched | rf_azure_sync/rf_azure_sync_get.py:355-370 | no more work items than requested ids |
| PullSync.FetchedExact | rf_azure_sync/rf_azure_sync_get.py:355-370 | the kept work items are the responses of the kept ids, in order |
| PullSync.KeptHas | rf_azure_sync/rf_azure_sync_get.py:355-370 | an id is kept exactly when it is requested, not local, and answered; a failed fetch is skipped |
| PullSync.RenderItems | rf_azure_sync/rf_azure_sync_get.py:371-374 | the loop concatenates the rendered blocks |
| PullSync.RenderAllStops | rf_azure_sync/rf_azure_sync_get.py:372-374 | the first block that raises decides the error |
| PullSync.RfAzureSyncGet | rf_azure_sync/rf_azure_sync_get.py:336-394 | the loop computes `Pull`, given an iteration order that lists `catalog - local` |
| PullSync.AppendOnce | rf_azure_sync/rf_azure_sync_get.py:384-391 | the existing content stays in front, the new blocks come last, and between them there is either nothing or both section headers |
| PullSync.AppendHeaderWhen | rf_azure_sync/rf_azure_sync_get.py:384-391 | the header is appended exactly when the existing content is empty or holds neither marker, then the new blocks |
| PullSync.AppendKeepsExisting | rf_azure_sync/rf_azure_sync_get.py:384-391 | the existing content is always a prefix of what is written |
| PullSync.AppendNothingNew | rf_azure_sync/rf_azure_sync_get.py:384-391 | with no new blocks and a marker present, the content is unchanged |
| PullSync.AppendTwice | rf_azure_sync/rf_azure_sync_get.py:384-391 | a second run adds only its blocks, never a second header |
| PullSync.PullOne | ado_sync/ado_sync_get.py:140-173 | an error exactly when the fetched work item cannot be rendered; otherwise the existing content is kept in front |
| PullSync.PullOneFailed | ado_sync/ado_sync_get.py:140-173 | a failed fetch adds no block, but the header is still ensured and the existing content kept |
| PullSync.RenderedTagLineReadBack | rf_azure_sync/rf_azure_sync_get.py:219-231 | the tag line of a rendered block is parsed as a `[tags]` line whose id is the work item's id |
| PullSync.TagLineRead | rf_azure_sync/rf_azure_sync_patch.py:219-220 | a line starting `    [tags]  ` is classified as a tag line holding the rest |
| GherkinEncode.TcValue | ado_sync/parse_and_send.py:79 | `x.split('@tc:')[1]` holds no `@tc:` |
| GherkinEncode.GetTestCaseByTags | ado_sync/parse_and_send.py:70-82 | the loop returns the text after `@tc:` of every such tag, in tag order |
| GherkinEncode.TcIdsRoundTrip | ado_sync/parse_and_send.py:70-82 | the ids written as `@tc:` tags are read back |
| GherkinEncode.TcIdsConcat | ado_sync/parse_and_send.py:74-80 | each tag is read on its own, in order |
| GherkinEncode.TcIdsIgnore | ado_sync/parse_and_send.py:77 | a tag without the `@tc:` start is ignored |
| GherkinEncode.PlaceholdersToAt | ado_sync/parse_and_send.py:136-139 | the rewrite never lengthens the text |
| GherkinEncode.PlaceholdersKeepLines | ado_sync/parse_and_send.py:136-139 | the rewrite keeps every line break, since a placeholder does not span lines |
| GherkinEncode.PlaceholderAfter | ado_sync/parse_and_send.py:136-139 | `re.sub('<(.*?)>', '@\1')` turns `<x>` into `@x` |
| GherkinEncode.PlaceholdersPlain | ado_sync/parse_and_send.py:139 | text without `<` is unchanged |
| GherkinEncode.StepXmls | ado_sync/parse_and_send.py:138-146 | one step element per step |
| GherkinEncode.StepXmlsSnoc | ado_sync/parse_and_send.py:138-146 | step i gets id i + 2 and comes after the earlier ones |
| GherkinEncode.StepsDocument | ado_sync/parse_and_send.py:147-151 | an empty step list raises (`idx` unbound); otherwise a document |
| GherkinEncode.ConvertStepToXml | ado_sync/parse_and_send.py:135-151 | the loop and the wrap compute `StepsDocument` with the bold-keyword action |
| GherkinEncode.StepsLastReadBack | ado_sync/parseMyFeature.py:81-90 | `last` is the final id, the number of steps + 1 |
| GherkinEncode.ParamElements | ado_sync/parse_and_send.py:87-89 | one `<param name="h" bind="default"/>` per header cell |
| GherkinEncode.ParametersXml | ado_sync/parse_and_send.py:84-95 | raises exactly when there is no examples table |
| GherkinEncode.ConvertGherkinParameters | ado_sync/parseMyFeature.py:27-38 | the loop computes `ParametersXml` of the first table |
| GherkinEncode.ParametersReadBack | ado_sync/parse_and_send.py:84-95 | reading the `param` names back from the XML gives the header of the first table |
| GherkinEncode.HeaderElements | ado_sync/parse_and_send.py:102-105 | one `xs:element` per header cell |
| GherkinEncode.RowsXml | ado_sync/parse_and_send.py:124-129 | one `<Table1>` per body row |
| GherkinEncode.BodyElement | ado_sync/parse_and_send.py:125-128 | a row raises (`IndexError`) exactly when it has more cells than the header; otherwise cell i is tagged by header i |
| GherkinEncode.RowsXmlAll | ado_sync/parse_and_send.py:124-129 | rows within the header's width all convert |
| GherkinEncode.RowsXmlAt | ado_sync/parse_and_send.py:124-129 | element k is the conversion of row k |
| GherkinEncode.RowsXmlFirstBad | ado_sync/parse_and_send.py:124-129 | a failure names the first too-wide row |
| GherkinEncode.RowsXmlStops | ado_sync/parse_and_send.py:124-129 | the first too-wide row decides the error |
| GherkinEncode.ReprPlain | ado_sync/parse_and_send.py:131 | the list repr quotes a plain row element as `'...'` |
| GherkinEncode.ConvertGherkinExamplesToXml | ado_sync/parseMyFeature.py:40-76 | the loops compute `ExamplesXml` of the first table, with the rows spliced in as a Python list repr |
| GherkinEncode.DataSetStarts | ado_sync/parse_and_send.py:131 | the data set is never empty, so its op is always sent |
| GherkinEncode.ScenarioOpList | ado_sync/parse_and_send.py:24-56 | the loop builds the op list of one scenario |
| GherkinEncode.ScenarioOpsShape | ado_sync/parse_and_send.py:34-56 | the steps replace comes first; the LocalDataSource and Parameters replaces follow exactly when the scenario has examples |
| GherkinEncode.ScenarioOpsFails | ado_sync/parse_and_send.py:30-32 | a scenario fails exactly when its examples do not convert |
| GherkinEncode.Patches | ado_sync/parse_and_send.py:59-61 | one request per `@tc` id |
| GherkinEncode.PatchesFor | ado_sync/parse_and_send.py:59-61 | request i goes to `.../_apis/wit/workItems/{id i}` with the scenario's ops |
| GherkinEncode.PatchEach | ado_sync/parse_and_send.py:59-61 | the loop builds one request per id |
| GherkinEncode.ScenarioPatches | ado_sync/parse_and_send.py:24-61 | the requests of one scenario |
| GherkinEncode.ScenarioRequestsFor | ado_sync/parse_and_send.py:59-61 | a scenario tagged `@tc:` with some ids is patched onto exactly those ids, in order |
| GherkinEncode.ConvertAndSend | ado_sync/parse_and_send.py:6-67 | the loop over scenarios computes `SendScenarios` |
| GherkinEncode.SendAllStops | ado_sync/parse_and_send.py:24-61 | the first scenario that raises ends the run |
| GherkinEncode.SendScenariosPrefix | ado_sync/parse_and_send.py:24-61 | the requests of earlier scenarios are sent before those of later ones |
| GherkinEncode.SendScenariosSucceeds | ado_sync/parse_and_send.py:24-61 | the run ends without an exception exactly when every scenario converts |
| GherkinEncode.SendAllSent | ado_sync/parse_and_send.py:24-61 | without an exception, the requests sent are those of all scenarios, in order |
| FeatureRender.WordEnd | ado_sync/get.py:46 | the end of a `\w+` run |
| FeatureRender.AtToAngle | ado_sync/get.py:46-52 | the rewrite never shortens the text, and no `@` followed by a word character is left |
| FeatureRender.PostProcess | ado_sync/get.py:44-52 | no `@` followed by a word character is left, and a text with no `@` and no run of five spaces is unchanged |
| FeatureRender.AtOne | ado_sync/get.py:46-52 | `re.sub('@(\w+)', '<\1>')` turns `@word` into `<word>` |
| FeatureRender.AtLead | ado_sync/get.py:52 | text without `@` is unchanged |
| FeatureRender.AzureToGherkin | ado_sync/get.py:46-52 | on a step text with `@name` placeholders, the rewrite gives the `<name>` form |
| FeatureRender.GherkinToAzure | ado_sync/parse_and_send.py:139 | the push's `<x>` → `@x` turns the `<name>` form back into the `@name` form |
| FeatureRender.PostProcessRoundTrip | ado_sync/get.py:44-52 | post-processing a pushed step text without five-space runs restores the Gherkin text, and pushing it again gives the same text |
| FeatureRender.PostProcessLines | ado_sync/get.py:44 | lines joined by five spaces come out joined by `\n` |
| FeatureRender.RelationId | ado_sync/get.py:70-72 | `re.search('/(\d+)$')` gives a non-empty digit run |
| FeatureRender.RelationIdOf | ado_sync/get.py:70-72 | `.../n` and `.../n\n` give n |
| FeatureRender.RelationIdShape | ado_sync/get.py:70-72 | the URL ends with `/` and the id, before an optional final newline |
| FeatureRender.RelationIds | ado_sync/get.py:69-73 | no more ids than relations |
| FeatureRender.RelationIdsAll | ado_sync/get.py:69-73 | the ids are those of the relations, in relation order |
| FeatureRender.CollectRelations | ado_sync/get.py:65-73 | the loop computes the ids of the relations, or none when there are no relations |
| FeatureRender.ParamsDict | ado_sync/get.py:89-95 | the dictionary's keys are the parameter names |
| FeatureRender.BuildParamsDict | ado_sync/get.py:89-95 | the loop fills one column per parameter name |
| FeatureRender.ParamsDictEmpty | ado_sync/get.py:104 | the dictionary is empty exactly when there are no parameter names |
| FeatureRender.MaxLen | ado_sync/get.py:124-127 | no column is longer than the number of rows |
| FeatureRender.MaxLenReached | ado_sync/get.py:124-127 | some column is as long as the number of rows |
| FeatureRender.AddColumn | ado_sync/get.py:126-127 | the rows grow to the column's length |
| FeatureRender.SetColumn | ado_sync/get.py:126-127 | the inner loop computes `AddColumn` |
| FeatureRender.Transpose | ado_sync/get.py:122-128 | the nested loops compute `Transposed` |
| FeatureRender.TransposedNext | ado_sync/get.py:125-127 | adding one key adds its column |
| FeatureRender.TransposedHas | ado_sync/get.py:122-128 | `result[i][k] == d[k][i]` for every key k and index i below the column's length |
| FeatureRender.TransposedOnly | ado_sync/get.py:122-128 | the result holds no other entries |
| FeatureRender.TransposedNoEmptyRow | ado_sync/get.py:127 | every row holds at least one entry |
| FeatureRender.FormatHeader | ado_sync/get.py:131-133 | the loop computes three spaces and a bar, then one space, the name, a space and a bar per parameter, in the given order |
| FeatureRender.FormatRow | ado_sync/get.py:137-139 | the loop computes three spaces and a bar, then one cell per parameter, a bare space and bar for a missing or None cell |
| FeatureRender.FormatTransposed | ado_sync/get.py:130-141 | the loops compute the header, `\n`, then each row followed by `\n` |
| FeatureRender.RowTexts | ado_sync/get.py:136-140 | one row per transposed entry |
| FeatureRender.CellBars | ado_sync/get.py:139 | each cell adds exactly one bar |
| FeatureRender.RowBars | ado_sync/get.py:137-139 | a row has exactly one cell per parameter: one bar more than there are parameters |
| FeatureRender.TableLines | ado_sync/get.py:130-141 | the table's lines are the header, then one line per row, then an empty tail |
| FeatureRender.LinesSplit | ado_sync/get.py:140 | lines ended by `\n` are split back into the same lines |
| FeatureRender.WiTags | ado_sync/get.py:101-102 | one `@wi:` tag per relation id |
| FeatureRender.AppendWiTags | ado_sync/get.py:101-102 | the loop appends `@wi:{r}\n` per relation id, in order |
| FeatureRender.ScenarioTagLines | ado_sync/get.py:99-102 | a scenario block's first lines are `@tc:{id}` and then the `@wi:` tags in order |
| FeatureRender.ScenarioIdReadBack | ado_sync/get.py:99 | the `@tc:` line is read by the push as the id, with the id's value |
| FeatureRender.ExamplesOf | ado_sync/get.py:79-106 | the examples table of a work item |
| FeatureRender.ExamplesTextCases | ado_sync/get.py:81-104 | raises exactly when a data source comes without parameters; a table exactly when both exist with at least one name |
| FeatureRender.AppendScenarioBody | ado_sync/get.py:104-113 | `Esquema do Cenário:` with steps and an `Exemplos:` table when there is a table, `Cenário:` with steps otherwise |
| FeatureRender.GetTestCase | ado_sync/get.py:56-120 | the loop-built block of a fetched work item, or None for a failed fetch |
| FeatureRender.FormattedCases | ado_sync/get.py:179-186 | one block per test case |
| FeatureRender.FormatCases | ado_sync/get.py:179-186 | the loop computes `FormattedCases` |
| FeatureRender.FormattedCasesAt | ado_sync/get.py:179-186 | block k is the block of test case k |
| FeatureRender.FormattedCasesStops | ado_sync/get.py:179-186 | the first test case that raises ends the suite |
| FeatureRender.AppendBlocks | ado_sync/get.py:194-195 | the loop appends each block and ` \n` |
| FeatureRender.SyncSuite | ado_sync/get.py:167-214 | the file of one suite, or none when the fetch failed or the suite is empty |
| FeatureRender.SuiteFileHeader | ado_sync/get.py:190-193 | a suite file starts `#language:pt \n@suiteId:{id} \nFuncionalidade: {name} \n\n\n` |
| FeatureRender.SuiteBodyPrefix | ado_sync/get.py:194-195 | the blocks come in test-case order |

## Left out

- HTTP requests, status codes, timeouts and the `Authorization` header are not modelled. Fetched data is an input value: a map from id to work item, or `Option` for one fetch.
- Reading and writing files, `os.walk`, `load_sync_config` and the module-level configuration are not modelled. File contents and names are inputs, and the content to be written is the result.
- `print` output is not modelled.
- The BeautifulSoup `get_text` calls (`ado_sync/get.py:39-42`) are not modelled. The extracted text is the `stepsText` input of `FeatureRender.FeatureItem`.
- The ElementTree parsing of parameters and data source (`ado_sync/get.py:83-95`) is not modelled. The parameter names and the texts found per name are inputs.
- The `gherkin3` parser is not modelled. Its AST is the `GherkinEncode.Scenario` input.
- `StepsCodec.Unescape` handles only `&lt;`, `&gt;`, `&amp;` and `&quot;`, not the full `html.unescape` table.
- `\d` and `\w` are ASCII only; Python's `re` also accepts other Unicode digits and letters.
- `GherkinEncode.StrRepr` follows `repr`'s choice of quote (double quotes exactly when the text holds `'` and no `"`) and escapes the quote in use, backslashes, `\n`, `\r` and `\t`. It does not cover `repr`'s `\x`, `\u` and `\U` escapes of non-printable characters.
- Configured tag prefixes are matched as literal text; the source puts them into regular expressions unescaped.
- `TestStep` is a datatype; the source's class never changes its fields after construction, and `validate` cannot fail on the strings the parser gives it.
- A `KeyError` for a missing `System.Title` or steps field is not modelled, nor is a work-item response without `value[0]`; those fields are part of the input. This covers `ado_sync/get.py` and the title lookups of the fetch loops at `rf_azure_sync/rf_azure_sync_get.py:364` and `ado_sync/ado_sync_get.py:143`. There, a 200 response whose fields lack `System.Title` raises and ends the pull, while `PullSync.Fetched`, `PullSync.FetchNew` and `PullSync.PullOne` keep such an item and `RobotRender.FieldText` renders its title as `""`.
- The order in which Python iterates the set of new ids is an input sequence. `PullSync.Pull` requires it to list `catalog - local` exactly, each id once; which of those orders CPython picks is not modelled.
- The walk in `get_robot_test_case_ids` (`rf_azure_sync/rf_azure_sync_get.py:313-316`) reads every file by its name joined to the top folder, not to the folder `os.walk` is in. So a `.robot` or `.feature` file in a subfolder is read from the top folder: a file of the same name there, or `FileNotFoundError`. The model takes (name, content) pairs as given and does not capture this wrong path or the failed read.
- Python dictionary order in `transpose_dict` follows the parameter list. A repeated parameter name is harmless because it writes the same column again.
- `parseMyFeature.convert_and_send` only prints its conversions. It and `main` are left out; its three converters are modelled.
- `readFeature.py`, `ado_sync/sync_folder.py`, the CLI in `rf_azure_sync.py` and `setup.py` are not part of this model.
- `PushPatch.ExtractTagsInfo`: the tags value it returns is stated only as starting with the stripped tag text, and `CombineTagsJoin` states how it combines; `update_azure_test_case` discards it.
