/**
 The session state of `ModelContextProtocol` (claude-mcp.py): the session's
 identity, its start time and its append-only command history, and
 `run_command_on_instance`, which submits a command to one instance, waits for
 its result and records it.

 The session id and start time come from a random generator and the clock;
 they are given to `NewSession`. The timestamps of a call are the fields
 `clock` (the submit comment's text) and `now` (the record's timestamp).
 */
module Session {
  import opened Common
  import Runner

  /** One entry of the command history; immutable once appended. */
  datatype CommandRecord = CommandRecord(
    timestamp: string,
    instanceId: string,
    command: string,
    status: string,
    output: string,   // at most OutputLimit characters
    commandId: string)

  /** The session identity and history kept by one protocol object. */
  datatype SessionData = SessionData(sessionId: string, startTime: string, commands: seq<CommandRecord>)

  /**
   What `run_command_on_instance` returns. The two shapes are kept apart: a
   retrieval result with the capitalised `Status`/`Output`/`Error` keys, and
   the submit failure with the lower-case `status`/`error` keys.
   */
  datatype RunOutcome = Retrieved(result: Runner.CommandOutput) | NotSent(status: string, error: string)

  /** The remote-execution agent's two calls. */
  datatype Agent = Agent(
    send: Runner.SendRequest -> Runner.SendReply,
    fetch: (string, string) -> Runner.InvocationReply)

  /** One call of `run_command_on_instance` with the clock readings it takes. */
  datatype Call = Call(instanceId: string, command: string, clock: string, now: string)

  const OutputLimit := 1000
  const SendFailure := NotSent("Failed", "Failed to send command")

  /** A fresh session: the generated id, the start time, and no history. */
  function NewSession(sessionId: string, startTime: string): (s: SessionData)
    ensures s.sessionId == sessionId && s.startTime == startTime && s.commands == []
  {
    SessionData(sessionId, startTime, [])
  }

  /** Every stored output respects the truncation limit. */
  predicate Bounded(s: SessionData)
  {
    forall k :: 0 <= k < |s.commands| ==> |s.commands[k].output| <= OutputLimit
  }

  /** Python's truthiness of the returned command id: `None` and `""` both count as a failed submit. */
  predicate Submitted(id: Option<string>)
  {
    id.Some? && id.value != ""
  }

  /** The command id the agent assigns to a call, when it assigns one. */
  function SubmitCall(call: Call, agent: Agent): Option<string>
  {
    Runner.RunCommand([call.instanceId], call.command, "", call.clock, agent.send)
  }

  /**
   `run_command_on_instance`: a failed submit returns the fixed failure value
   and leaves the session alone; otherwise the result is fetched, one record
   is appended with the output cut to the limit, and the uncut result is
   returned.
   */
  function RunCommandOnInstance(s: SessionData, call: Call, agent: Agent): (res: (SessionData, RunOutcome))
    ensures res.0.sessionId == s.sessionId && res.0.startTime == s.startTime
    ensures !Submitted(SubmitCall(call, agent)) ==> res.0 == s && res.1 == SendFailure
    ensures Submitted(SubmitCall(call, agent)) ==>
      var id := SubmitCall(call, agent).value;
      var out := Runner.GetCommandOutput(id, call.instanceId, agent.fetch);
      && res.1 == Retrieved(out)
      && |res.0.commands| == |s.commands| + 1
      && res.0.commands[..|s.commands|] == s.commands
      && var rec := res.0.commands[|s.commands|];
      && rec.instanceId == call.instanceId && rec.command == call.command && rec.commandId == id
      && rec.timestamp == call.now
      && rec.status == out.status
      && |rec.output| == (if |out.output| > OutputLimit then OutputLimit else |out.output|)
      && rec.output == out.output[..|rec.output|]
  {
    var id := SubmitCall(call, agent);
    if !Submitted(id) then (s, SendFailure)
    else
      var out := Runner.GetCommandOutput(id.value, call.instanceId, agent.fetch);
      (s.(commands := s.commands + [RecordOf(call, agent)]), Retrieved(out))
  }

  /** Running a command keeps every stored output within the limit. */
  lemma RunKeepsBounded(s: SessionData, call: Call, agent: Agent)
    requires Bounded(s)
    ensures Bounded(RunCommandOnInstance(s, call, agent).0)
  {
    var s' := RunCommandOnInstance(s, call, agent).0;
    forall k | 0 <= k < |s'.commands|
      ensures |s'.commands[k].output| <= OutputLimit
    {
      if k < |s.commands| {
        assert s'.commands[k] == s'.commands[..|s.commands|][k];
      }
    }
  }

  /** The session after a sequence of calls, made in order. */
  function RunAll(s: SessionData, calls: seq<Call>, agent: Agent): SessionData
  {
    if |calls| == 0 then s
    else RunCommandOnInstance(RunAll(s, calls[..|calls| - 1], agent), calls[|calls| - 1], agent).0
  }

  /** The calls whose submission the agent accepts. */
  function SubmittedBy(agent: Agent): Call -> bool
  {
    call => Submitted(SubmitCall(call, agent))
  }

  /** The record an accepted call adds: it depends on the call and the agent, not on the session it is added to. */
  function RecordOf(call: Call, agent: Agent): CommandRecord
    requires Submitted(SubmitCall(call, agent))
  {
    var id := SubmitCall(call, agent).value;
    var out := Runner.GetCommandOutput(id, call.instanceId, agent.fetch);
    CommandRecord(call.now, call.instanceId, call.command, out.status, Truncate(out.output, OutputLimit), id)
  }

  /** The records a sequence of calls should leave behind: one per accepted call, in call order. */
  function Records(calls: seq<Call>, agent: Agent): seq<CommandRecord>
  {
    var accepted := Select(calls, SubmittedBy(agent));
    SelectMembers(calls, SubmittedBy(agent));
    seq(|accepted|, k requires 0 <= k < |accepted| => RecordOf(accepted[k], agent))
  }

  /** Proof step of `HistoryFollowsCalls`: one call extends the history by its record when accepted, and by nothing otherwise. */
  lemma RunStep(s: SessionData, call: Call, agent: Agent)
    ensures RunCommandOnInstance(s, call, agent).0 ==
      s.(commands := s.commands +
        (if Submitted(SubmitCall(call, agent)) then [RecordOf(call, agent)] else []))
  {
  }

  /** The reference records of one more call. */
  lemma RecordsStep(init: seq<Call>, last: Call, agent: Agent)
    ensures Records(init + [last], agent) ==
      Records(init, agent) + (if Submitted(SubmitCall(last, agent)) then [RecordOf(last, agent)] else [])
  {
    var calls := init + [last];
    assert calls[..|calls| - 1] == init;
    var accepted := Select(calls, SubmittedBy(agent));
    var acceptedInit := Select(init, SubmittedBy(agent));
    if Submitted(SubmitCall(last, agent)) {
      assert accepted == acceptedInit + [last];
    } else {
      assert accepted == acceptedInit;
    }
  }

  /**
   History is append-only and in call order: after any sequence of calls the
   old history is untouched and exactly one record per accepted call follows
   it, in the order of the calls; rejected calls leave no trace.
   */
  lemma {:induction false} HistoryFollowsCalls(s: SessionData, calls: seq<Call>, agent: Agent)
    ensures RunAll(s, calls, agent).commands == s.commands + Records(calls, agent)
    ensures RunAll(s, calls, agent).sessionId == s.sessionId
    ensures RunAll(s, calls, agent).startTime == s.startTime
    decreases |calls|
  {
    if |calls| == 0 {
      assert Records(calls, agent) == [];
    } else {
      var init := calls[..|calls| - 1];
      var last := calls[|calls| - 1];
      assert init + [last] == calls;
      HistoryFollowsCalls(s, init, agent);
      RunStep(RunAll(s, init, agent), last, agent);
      RecordsStep(init, last, agent);
    }
  }
}
