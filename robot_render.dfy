/** `create_robot_content`: one Azure DevOps work item written as a Robot
    Framework test case block (a title line, a `[tags]` line, the decoded
    steps). The same function appears twice in the repository, in
    `rf_azure_sync_get.py` and in `ado_sync_get.py`; both are modelled by
    this module. */
module RobotRender {
  import opened Wrappers
  import opened TextOps
  import opened TagScan
  import opened StepsCodec
  import opened SyncConfig

  /** A value of the work item's `fields` dictionary as the renderer uses
      it: a string, a number, or JSON `null`. */
  datatype FieldValue = Text(text: string) | Number(number: int) | Null

  /** One entry of the `relations` list; `url` is absent when the entry has
      no `url` key. */
  datatype Relation = Relation(url: Option<string>)

  /** The `fields` dictionary the renderer receives, with its `relations`
      entry (when present) kept apart as a list of relations. */
  datatype WorkItem = WorkItem(fields: map<string, FieldValue>, relations: Option<seq<Relation>>)

  /** The exceptions the renderer can raise. */
  datatype RenderError =
    | SprintNotText         // `.replace` on a `Sprint` that is not a string
    | StepsNotText          // `re.findall` on steps that are not a string
    | RelationWithoutId(url: string)  // `.group(1)` on a failed search

  const IdKey: string := "System.Id"
  const TitleKey: string := "System.Title"
  const PriorityKey: string := "Microsoft.VSTS.Common.Priority"
  const StatusKey: string := "Custom.AutomationStatus"
  const SprintKey: string := "Sprint"
  const SystemTagsKey: string := "System.Tags"
  const StepsKey: string := "Microsoft.VSTS.TCM.Steps"

  /** The text a relation URL must contain to give a user-story tag. */
  const WorkItemsMarker: string := "_apis/wit/workItems/"

  /** Python's `str(n)` for any integer. */
  function IntToString(n: int): (r: string)
    ensures r != []
    ensures n >= 0 ==> AllDigits(r)
    ensures n < 0 ==> r[0] == '-' && AllDigits(r[1..])
  {
    if n < 0 then "-" + NatToString(-n) else NatToString(n)
  }

  /** How an f-string shows a field value. */
  function Display(v: FieldValue): string {
    match v
    case Text(t) => t
    case Number(n) => IntToString(n)
    case Null => "None"
  }

  /** `fields.get(key, "")` as an f-string shows it. */
  function FieldText(fields: map<string, FieldValue>, key: string): (r: string)
    ensures key !in fields ==> r == ""
  {
    if key in fields then Display(fields[key]) else ""
  }

  /** `fields.get("Sprint", "").replace(" ", "_")`. */
  function Sprint(fields: map<string, FieldValue>): (r: Result<string, RenderError>)
    ensures r.Ok? ==> ' ' !in r.value
    ensures r.Err? <==> SprintKey in fields && !fields[SprintKey].Text?
  {
    if SprintKey !in fields then Ok("")
    else match fields[SprintKey]
      case Text(t) => Ok(ReplaceChar(t, ' ', '_'))
      case _ => Err(SprintNotText)
  }

  /** `fields.get("Microsoft.VSTS.TCM.Steps", "")`, which `re.findall`
      needs to be a string. */
  function StepsRaw(fields: map<string, FieldValue>): (r: Result<string, RenderError>)
    ensures r.Err? <==> StepsKey in fields && !fields[StepsKey].Text?
  {
    if StepsKey !in fields then Ok("")
    else match fields[StepsKey]
      case Text(t) => Ok(t)
      case _ => Err(StepsNotText)
  }

  /** The first line of a block: `\n {title prefix}: {title}\n`. */
  function Heading(titlePrefix: string, title: string): string {
    "\n " + titlePrefix + ": " + title + "\n"
  }

  /** The fixed part of the tag line after `[tags]`: test case id,
      automation status, priority and sprint, four spaces apart. */
  function TagLineText(cfg: TagConfig, fields: map<string, FieldValue>, sprint: string): string {
    cfg.testCase + " " + FieldText(fields, IdKey) + TagRest(cfg, fields, sprint)
  }

  /** What follows the id in the tag line. */
  function TagRest(cfg: TagConfig, fields: map<string, FieldValue>, sprint: string): (r: string)
    ensures r != [] && r[0] == ' '
  {
    "    " + cfg.automationStatus + " " + FieldText(fields, StatusKey) + "    "
    + cfg.priority + " " + FieldText(fields, PriorityKey) + "    "
    + cfg.iterationPath + " " + sprint
  }

  const TagsLead: string := "    [tags]  "

  /** `{prefix} {part}` for every part. */
  function PrefixedTags(prefix: string, parts: seq<string>): (r: seq<string>)
    ensures |r| == |parts|
  {
    if parts == [] then []
    else PrefixedTags(prefix, parts[..|parts| - 1]) + [prefix + " " + Strip(parts[|parts| - 1])]
  }

  /** `get_tags`: when `System.Tags` is present and not `None`, the
      configured prefix is split on ";" and each stripped part is written
      after the prefix. The field's own value is not used. */
  function SystemTagsPart(fields: map<string, FieldValue>, prefix: string): (r: string)
    ensures r == "" <==> !(SystemTagsKey in fields && fields[SystemTagsKey] != Null)
  {
    if SystemTagsKey in fields && fields[SystemTagsKey] != Null
    then "    " + Join(PrefixedTags(prefix, Split(prefix, ';')), "    ")
    else ""
  }

  /** The tag one relation contributes. */
  function RelationTag(rel: Relation, userStory: string): (r: Result<string, RenderError>)
    ensures r.Err? <==> rel.url.Some? && Contains(rel.url.value, WorkItemsMarker)
                        && Search(rel.url.value, WorkItemsMarker, AdjacentDigits).None?
    ensures r.Ok? && r.value != "" ==>
      exists d :: r.value == "    " + userStory + " " + d && d != [] && AllDigits(d)
  {
    if rel.url.Some? && Contains(rel.url.value, WorkItemsMarker) then
      match Search(rel.url.value, WorkItemsMarker, AdjacentDigits)
      case None => Err(RelationWithoutId(rel.url.value))
      case Some(d) => Ok("    " + userStory + " " + d)
    else Ok("")
  }

  /** `get_relations_tags` over a list of relations: the tags in relation
      order, or the first exception. */
  function RelationTags(rels: seq<Relation>, userStory: string): Result<string, RenderError> {
    if rels == [] then Ok("")
    else match RelationTags(rels[..|rels| - 1], userStory)
      case Err(e) => Err(e)
      case Ok(t) =>
        match RelationTag(rels[|rels| - 1], userStory)
        case Err(e) => Err(e)
        case Ok(x) => Ok(t + x)
  }

  /** The whole tag line, ending in a newline. */
  function TagLineOf(cfg: TagConfig, fields: map<string, FieldValue>, sprint: string, relations: string): string {
    TagsLead + TagLineText(cfg, fields, sprint) + SystemTagsPart(fields, cfg.systemTags) + relations + "\n"
  }

  /** `create_robot_content`: the block, or the exception the source
      raises on the way (sprint first, then relations, then steps). */
  function Render(item: WorkItem, cfg: TagConfig): (r: Result<string, RenderError>)
    ensures r.Err? <==> Sprint(item.fields).Err?
                        || (item.relations.Some? && RelationTags(item.relations.value, cfg.userStory).Err?)
                        || StepsRaw(item.fields).Err?
  {
    match Sprint(item.fields)
    case Err(e) => Err(e)
    case Ok(sprint) =>
      var rel := if item.relations.Some? then RelationTags(item.relations.value, cfg.userStory) else Ok("");
      match rel
      case Err(e) => Err(e)
      case Ok(relations) =>
        match StepsRaw(item.fields)
        case Err(e) => Err(e)
        case Ok(raw) =>
          Ok(Heading(cfg.title, FieldText(item.fields, TitleKey)) + TagLineOf(cfg, item.fields, sprint, relations)
             + IndentedSteps(DecodeSteps(raw)) + "\n")
  }

  /** The loop of `get_relations_tags`. */
  method RelationsTags(rels: seq<Relation>, userStory: string) returns (r: Result<string, RenderError>)
    ensures r == RelationTags(rels, userStory)
  {
    var line := "";
    var i := 0;
    while i < |rels|
      invariant 0 <= i <= |rels|
      invariant RelationTags(rels[..i], userStory) == Ok(line)
    {
      var tag := RelationTag(rels[i], userStory);
      if tag.Err? {
        RelationTagsStops(rels, i + 1, userStory);
        return Err(tag.error);
      }
      RelationTagsNext(rels, i, userStory, line);
      line := line + tag.value;
      i := i + 1;
    }
    assert rels[..i] == rels;
    r := Ok(line);
  }

  /** One more relation that gives a tag adds it after the others. */
  lemma RelationTagsNext(rels: seq<Relation>, i: nat, userStory: string, line: string)
    requires i < |rels| && RelationTags(rels[..i], userStory) == Ok(line)
    requires RelationTag(rels[i], userStory).Ok?
    ensures RelationTags(rels[..i + 1], userStory) == Ok(line + RelationTag(rels[i], userStory).value)
  {
    assert rels[..i + 1][..i] == rels[..i];
  }

  /** `create_robot_content`, step by step as the source builds it. */
  method CreateRobotContent(item: WorkItem, cfg: TagConfig) returns (r: Result<string, RenderError>)
    ensures r == Render(item, cfg)
  {
    var sprint := Sprint(item.fields);
    if sprint.Err? {
      return Err(sprint.error);
    }
    var relations := "";
    if item.relations.Some? {
      var rel := RelationsTags(item.relations.value, cfg.userStory);
      if rel.Err? {
        return Err(rel.error);
      }
      relations := rel.value;
    }
    var tagsLine := TagLineOf(cfg, item.fields, sprint.value, relations);
    var content := Heading(cfg.title, FieldText(item.fields, TitleKey)) + tagsLine;
    var raw := StepsRaw(item.fields);
    if raw.Err? {
      return Err(raw.error);
    }
    content := AppendSteps(content, raw.value);
    r := Ok(content + "\n");
  }

  // ----- properties -----

  /** Once a relation has failed, the ones after it change nothing. */
  lemma {:induction false} RelationTagsStops(rels: seq<Relation>, k: nat, userStory: string)
    requires 0 < k <= |rels| && RelationTag(rels[k - 1], userStory).Err?
    requires RelationTags(rels[..k - 1], userStory).Ok?
    ensures RelationTags(rels, userStory) == Err(RelationTag(rels[k - 1], userStory).error)
    decreases |rels| - k
  {
    assert rels[..k][..k - 1] == rels[..k - 1];
    if k < |rels| {
      assert rels[..|rels| - 1][..k - 1] == rels[..k - 1];
      assert rels[..|rels| - 1][k - 1] == rels[k - 1];
      RelationTagsStops(rels[..|rels| - 1], k, userStory);
    } else {
      assert rels[..k] == rels;
    }
  }

  /** The relation tags fail exactly when some relation's URL holds the
      marker with no digits right after it. */
  lemma {:induction false} RelationTagsFail(rels: seq<Relation>, userStory: string)
    ensures RelationTags(rels, userStory).Err? <==>
      exists i :: 0 <= i < |rels| && RelationTag(rels[i], userStory).Err?
  {
    if rels != [] {
      var init := rels[..|rels| - 1];
      RelationTagsFail(init, userStory);
      assert forall i :: 0 <= i < |init| ==> init[i] == rels[i];
    }
  }

  /** A work-item URL with a numeric id gives the user-story tag of that
      id. */
  lemma RelationTagOfUrl(x: string, n: nat, rest: string, userStory: string)
    requires '_' !in x
    requires rest == [] || !IsDigit(rest[0])
    ensures RelationTag(Relation(Some(x + WorkItemsMarker + NatToString(n) + rest)), userStory)
      == Ok("    " + userStory + " " + NatToString(n))
  {
    var url := x + WorkItemsMarker + NatToString(n) + rest;
    assert WorkItemsMarker[0] == '_';
    SearchFindsAdjacent(x, WorkItemsMarker, NatToString(n), rest);
    SearchContains(url, WorkItemsMarker, AdjacentDigits);
  }

  /** The system-tags part depends only on whether `System.Tags` holds a
      value, never on that value. */
  lemma SystemTagsIgnoreValue(fields: map<string, FieldValue>, prefix: string, v: FieldValue, w: FieldValue)
    requires v != Null && w != Null
    ensures SystemTagsPart(fields[SystemTagsKey := v], prefix) == SystemTagsPart(fields[SystemTagsKey := w], prefix)
  {
  }

  /** A block rendered for a non-negative numeric id carries that id right
      after the test-case prefix, so a later pull reads it back. */
  lemma TagTextId(cfg: TagConfig, fields: map<string, FieldValue>, sprint: string, more: string, n: nat)
    requires cfg.testCase != []
    requires IdKey in fields && fields[IdKey] == Number(n)
    ensures Search(TagLineText(cfg, fields, sprint) + more, cfg.testCase, Digits) == Some(NatToString(n))
  {
    var v := NatToString(n);
    var tail := TagRest(cfg, fields, sprint);
    assert [] + cfg.testCase == cfg.testCase;
    assert TagLineText(cfg, fields, sprint) + more == [] + cfg.testCase + " " + v + (tail + more);
    SearchFinds([], cfg.testCase, v, tail + more, Digits);
  }
}
