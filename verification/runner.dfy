/**
 The command runner of `EC2Manager` (claude-mcp.py): submitting one shell
 command to the remote-execution agent, and fetching the captured result of
 one invocation on one instance.

 The submit call and the invocation lookup are remote; they are the
 function-valued parameters `send` and `fetch`. The wall-clock text used in
 the default comment is the parameter `clock`.
 */
module Runner {
  import opened Common

  /** The request handed to the remote-execution agent's submit call. */
  datatype SendRequest = SendRequest(
    instanceIds: seq<string>,
    documentName: string,
    commands: seq<string>,
    comment: string)

  /** The submit call's reply: the command id the agent assigned, or a client error. */
  datatype SendReply = Sent(commandId: string) | SendClientError(message: string)

  /** The invocation lookup's reply; either output stream may be missing. */
  datatype InvocationReply =
    | Invocation(status: string, stdout: Option<string>, stderr: Option<string>)
    | InvocationClientError(message: string)

  /** The result dictionary `{'Status', 'Output', 'Error'}` of a retrieval. */
  datatype CommandOutput = CommandOutput(status: string, output: string, error: string)

  const ShellDocument := "AWS-RunShellScript"
  const CommentPrefix := "Command executed via MCP at "

  /** The comment sent with a command: the caller's, or a timestamped default when it is empty. */
  function CommentFor(comment: string, clock: string): (c: string)
    ensures comment != "" ==> c == comment
    ensures comment == "" ==>
      (|c| == |CommentPrefix| + |clock| && c[..|CommentPrefix|] == CommentPrefix && c[|CommentPrefix|..] == clock)
  {
    if comment != "" then comment else CommentPrefix + clock
  }

  /** The submit request: one shell command, run as a single-entry command list on every target. */
  function BuildSendRequest(instanceIds: seq<string>, command: string, comment: string, clock: string): SendRequest
  {
    SendRequest(instanceIds, ShellDocument, [command], CommentFor(comment, clock))
  }

  /** `run_command`: the assigned command id, or nothing when the agent refused the submission. */
  function RunCommand(instanceIds: seq<string>, command: string, comment: string, clock: string,
                      send: SendRequest -> SendReply): (id: Option<string>)
    ensures var req := BuildSendRequest(instanceIds, command, comment, clock);
      && (id.Some? <==> send(req).Sent?)
      && (id.Some? ==> id.value == send(req).commandId)
      && req.instanceIds == instanceIds && req.commands == [command] && req.documentName == ShellDocument
  {
    match send(BuildSendRequest(instanceIds, command, comment, clock))
    case Sent(commandId) => Some(commandId)
    case SendClientError(_) => None
  }

  /** The failure value of a retrieval that raised a client error. */
  function RetrievalFailure(message: string): CommandOutput
  {
    CommandOutput("Failed", "", message)
  }

  /**
   `get_command_output`: the status and streams of one invocation on one
   instance, with a missing stream read as empty; a client error becomes a
   `Failed` result carrying the error text instead of an exception.
   */
  function GetCommandOutput(commandId: string, instanceId: string,
                            fetch: (string, string) -> InvocationReply): (out: CommandOutput)
    ensures fetch(commandId, instanceId).InvocationClientError? ==>
      out == CommandOutput("Failed", "", fetch(commandId, instanceId).message)
    ensures fetch(commandId, instanceId).Invocation? ==>
      var inv := fetch(commandId, instanceId);
      && out.status == inv.status
      && out.output == (if inv.stdout.Some? then inv.stdout.value else "")
      && out.error == (if inv.stderr.Some? then inv.stderr.value else "")
  {
    match fetch(commandId, instanceId)
    case Invocation(status, stdout, stderr) =>
      CommandOutput(status,
                    match stdout case Some(o) => o case None => "",
                    match stderr case Some(e) => e case None => "")
    case InvocationClientError(message) => RetrievalFailure(message)
  }
}
