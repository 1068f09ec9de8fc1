/**
 The context snapshot of `ModelContextProtocol` (claude-mcp.py): the
 simplified instance records, the snapshot document built by
 `generate_context`, and the framing of a model query in `query_claude`.

 JSON serialisation is the opaque parameter `serialize`; the model service is
 the parameter `invoke`.
 */
module Context {
  import opened Common
  import Directory
  import Session

  /** One instance as the snapshot shows it. */
  datatype SimpleInstance = SimpleInstance(
    id: string,
    name: string,
    instanceType: string,
    privateIp: string,
    platform: string,
    ssmStatus: string,
    tags: map<string, string>)

  /** The snapshot document; `commandHistory` is `None` when the key is absent. */
  datatype ContextSnapshot = ContextSnapshot(
    schemaVersion: string,
    sessionId: string,
    startTime: string,
    region: Option<string>,
    instances: seq<SimpleInstance>,
    commandHistory: Option<seq<Session.CommandRecord>>)

  /** The inventory and registry calls, and the configured region. */
  datatype Cloud = Cloud(
    region: Option<string>,
    describe: seq<Directory.Filter> -> seq<Directory.Reservation>,
    registry: string -> Directory.RegistryReply)

  /** The framing of one model request. */
  datatype Payload = Payload(
    anthropicVersion: string,
    maxTokens: int,
    temperature: real,
    role: string,
    contentType: string,
    text: string)

  /** The model service's reply: the content texts of the answer, or the exception it raised. */
  datatype ModelReply = Answered(texts: seq<string>) | Raised(message: string)

  const SchemaVersion := "v1"
  const AnthropicVersion := "bedrock-2023-05-31"
  const ErrorPrefix := "Error communicating with Claude: "
  const IndexErrorMessage := "list index out of range"

  /** The tag list as a dictionary, filled in list order (the loop of `_format_instances_for_context`). */
  function TagMap(tags: seq<Directory.Tag>): map<string, string>
  {
    if |tags| == 0 then map[]
    else TagMap(tags[..|tags| - 1])[tags[|tags| - 1].key := tags[|tags| - 1].value]
  }

  /** Tag `i` is the last one carrying its key. */
  predicate LastOfKey(tags: seq<Directory.Tag>, i: int)
    requires 0 <= i < |tags|
  {
    forall j :: i < j < |tags| ==> tags[j].key != tags[i].key
  }

  /** A key is in the tag dictionary iff some tag has it. */
  lemma {:induction false} TagMapKeys(tags: seq<Directory.Tag>, k: string)
    ensures k in TagMap(tags) <==> exists i :: 0 <= i < |tags| && tags[i].key == k
    decreases |tags|
  {
    if |tags| > 0 {
      var n := |tags| - 1;
      var init := tags[..n];
      TagMapKeys(init, k);
      if k != tags[n].key {
        if i :| 0 <= i < |tags| && tags[i].key == k {
          assert i < n && init[i].key == k;
        }
        if i :| 0 <= i < |init| && init[i].key == k {
          assert tags[i].key == k;
        }
      }
    }
  }

  /** A repeated key keeps the value of its last tag: a later duplicate overwrites an earlier one. */
  lemma {:induction false} TagMapLastValue(tags: seq<Directory.Tag>, i: nat)
    requires i < |tags| && LastOfKey(tags, i)
    ensures tags[i].key in TagMap(tags) && TagMap(tags)[tags[i].key] == tags[i].value
    decreases |tags|
  {
    var n := |tags| - 1;
    var init := tags[..n];
    if i < n {
      assert tags[n].key != tags[i].key;
      assert init[i] == tags[i];
      assert LastOfKey(init, i) by {
        forall j | i < j < |init| ensures init[j].key != init[i].key {
          assert init[j] == tags[j];
        }
      }
      TagMapLastValue(init, i);
    }
  }

  /** The record `_format_instances_for_context` keeps of one instance. */
  function Simplify(inst: Directory.Instance): SimpleInstance
  {
    SimpleInstance(inst.id, inst.name, inst.instanceType, inst.privateIp, inst.platform,
                   inst.ssmStatus.Label(), TagMap(inst.tags))
  }

  /** `_format_instances_for_context`: one simplified record per instance, same order. */
  function FormatInstances(insts: seq<Directory.Instance>): (r: seq<SimpleInstance>)
    ensures |r| == |insts|
    ensures forall k :: 0 <= k < |r| ==> r[k] == Simplify(insts[k])
  {
    seq(|insts|, k requires 0 <= k < |insts| => Simplify(insts[k]))
  }

  /** The listing `generate_context` asks for: the given filters, reachable instances only. */
  function ContextListing(cloud: Cloud, instanceTypes: seq<string>, namePrefix: string,
                          tags: seq<Directory.Tag>): seq<Directory.Instance>
  {
    var q := Directory.Query(instanceTypes, namePrefix, tags, true);
    Directory.Listing(cloud.describe(Directory.BuildFilters(q)), cloud.registry, true)
  }

  /**
   `generate_context`: the session identity, the region and the simplified
   listing, plus the history verbatim only when it is asked for and not empty.
   */
  function GenerateContext(s: Session.SessionData, cloud: Cloud, instanceTypes: seq<string>,
                           namePrefix: string, tags: seq<Directory.Tag>, includeCommands: bool)
    : (c: ContextSnapshot)
    ensures c.schemaVersion == SchemaVersion
    ensures c.sessionId == s.sessionId && c.startTime == s.startTime && c.region == cloud.region
    ensures c.commandHistory.Some? <==> includeCommands && |s.commands| > 0
    ensures c.commandHistory.Some? ==> c.commandHistory.value == s.commands
    // the instances are the reachable listing under the given filters, each simplified, in listing order
    ensures c.instances == FormatInstances(ContextListing(cloud, instanceTypes, namePrefix, tags))
    ensures forall k :: 0 <= k < |c.instances| ==> c.instances[k].ssmStatus == "Available"
  {
    var listed := ContextListing(cloud, instanceTypes, namePrefix, tags);
    var history := if includeCommands && |s.commands| > 0 then Some(s.commands) else None;
    ContextSnapshot(SchemaVersion, s.sessionId, s.startTime, cloud.region, FormatInstances(listed), history)
  }

  /** Running commands never changes the session identity a snapshot reports. */
  lemma SnapshotIdentityStable(s: Session.SessionData, call: Session.Call, agent: Session.Agent, cloud: Cloud,
                               includeCommands: bool)
    ensures var s' := Session.RunCommandOnInstance(s, call, agent).0;
      && GenerateContext(s', cloud, [], "", [], includeCommands).sessionId ==
         GenerateContext(s, cloud, [], "", [], includeCommands).sessionId
      && GenerateContext(s', cloud, [], "", [], includeCommands).startTime ==
         GenerateContext(s, cloud, [], "", [], includeCommands).startTime
  {
  }

  /** A snapshot taken after a successful run carries the history, including the new record. */
  lemma SnapshotShowsNewRecord(s: Session.SessionData, call: Session.Call, agent: Session.Agent, cloud: Cloud)
    requires Session.Submitted(Session.SubmitCall(call, agent))
    ensures var s' := Session.RunCommandOnInstance(s, call, agent).0;
      var c := GenerateContext(s', cloud, [], "", [], true);
      c.commandHistory.Some? && |c.commandHistory.value| == |s.commands| + 1 &&
      c.commandHistory.value[..|s.commands|] == s.commands
  {
  }

  /** The user turn `<mcp>\n{context}\n</mcp>\n\n{message}`. */
  function Prompt(contextJson: string, userMessage: string): (p: string)
    ensures |p| == |contextJson| + |userMessage| + 15
    ensures p[..6] == "<mcp>\n"
    ensures p[6..6 + |contextJson|] == contextJson
    ensures p[6 + |contextJson|..|p| - |userMessage|] == "\n</mcp>\n\n"
    ensures p[|p| - |userMessage|..] == userMessage
  {
    "<mcp>\n" + contextJson + "\n</mcp>\n\n" + userMessage
  }

  function BuildPayload(text: string, maxTokens: int, temperature: real): Payload
  {
    Payload(AnthropicVersion, maxTokens, temperature, "user", "text", text)
  }

  /** The answer text, or the prefixed error text; never an exception. */
  function ReplyText(reply: ModelReply): (answer: string)
    ensures reply.Raised? ==> answer == ErrorPrefix + reply.message
    ensures reply.Answered? && |reply.texts| == 0 ==> answer == ErrorPrefix + IndexErrorMessage
    ensures reply.Answered? && |reply.texts| > 0 ==> answer == reply.texts[0]
  {
    match reply
    case Answered(texts) => if |texts| > 0 then texts[0] else ErrorPrefix + IndexErrorMessage
    case Raised(message) => ErrorPrefix + message
  }

  /**
   `query_claude`: take the given snapshot, or build one with no filters and
   the history, frame it with the user's message and send it; a failure comes
   back as text starting with the error prefix.
   */
  function QueryClaude(s: Session.SessionData, cloud: Cloud, userMessage: string, context: Option<ContextSnapshot>,
                       maxTokens: int, temperature: real, serialize: ContextSnapshot -> string,
                       invoke: Payload -> ModelReply): (answer: string)
    ensures var ctx := if context.Some? then context.value else GenerateContext(s, cloud, [], "", [], true);
      var payload := BuildPayload(Prompt(serialize(ctx), userMessage), maxTokens, temperature);
      && payload.text[..6] == "<mcp>\n"
      && payload.text[|payload.text| - |userMessage|..] == userMessage
      && answer == ReplyText(invoke(payload))
  {
    var ctx := if context.Some? then context.value else GenerateContext(s, cloud, [], "", [], true);
    ReplyText(invoke(BuildPayload(Prompt(serialize(ctx), userMessage), maxTokens, temperature)))
  }

  /** An error answer starts with the fixed prefix and carries the underlying message. */
  lemma ErrorAnswerIsMarked(reply: ModelReply)
    requires reply.Raised?
    ensures |ReplyText(reply)| >= |ErrorPrefix|
    ensures ReplyText(reply)[..|ErrorPrefix|] == ErrorPrefix
    ensures ReplyText(reply)[|ErrorPrefix|..] == reply.message
  {
  }
}
