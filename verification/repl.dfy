/**
 The `run <instance_id or #> <command>` branch of the interactive mode
 (claude-mcp.py): splitting the input line, resolving a 1-based instance
 number against the last listing, running the command and reading back the
 fields the caller shows.
 */
module Repl {
  import opened Common
  import Directory
  import Session

  /** What the `run` line asks for. */
  datatype RunRequest = Usage | BadIndex | Target(instanceId: string, command: string)

  /** The three fields the caller shows after a run. */
  datatype Report = Report(status: string, output: string, error: string)

  /** What the `run` branch does with one line. */
  datatype ReplResponse = ShowUsage | ShowBadIndex | Ran(report: Report)

  /** Python's `line.split(' ', 2)`: at most three pieces, the last one keeping its spaces. */
  function SplitRunLine(line: string): seq<string>
  {
    var ps := SplitOn(line, ' ');
    if |ps| <= 3 then ps else [ps[0], ps[1], Join(ps[2..], ' ')]
  }

  predicate IsDigit(c: char)
  {
    '0' <= c <= '9'
  }

  /** `str.isdigit()` over ASCII digits: non-empty and digits only. */
  predicate IsDigits(s: string)
  {
    |s| > 0 && forall k :: 0 <= k < |s| ==> IsDigit(s[k])
  }

  /** `int(s)` for a string of decimal digits. */
  function DigitsValue(s: string): nat
    requires forall k :: 0 <= k < |s| ==> IsDigit(s[k])
  {
    if |s| == 0 then 0
    else
      assert IsDigit(s[|s| - 1]);
      DigitsValue(s[..|s| - 1]) * 10 + (s[|s| - 1] as int - '0' as int)
  }

  /** The instance a token names: a listed instance by 1-based number, or the token itself as an id. */
  function Resolve(token: string, listed: seq<Directory.Instance>): Option<string>
  {
    if IsDigits(token) then
      var idx := DigitsValue(token) - 1;
      if 0 <= idx < |listed| then Some(listed[idx].id) else None
    else Some(token)
  }

  /** The `run` branch's parse: too few pieces, a number outside the listing, or the target and command. */
  function ParseRun(line: string, listed: seq<Directory.Instance>): RunRequest
  {
    var parts := SplitRunLine(line);
    if |parts| < 3 then Usage
    else
      match Resolve(parts[1], listed)
      case Some(id) => Target(id, parts[2])
      case None => BadIndex
  }

  /** Joining the first two words with the pieces of the command rebuilds the line. */
  lemma JoinRunLine(word: string, token: string, command: string)
    ensures Join([word, token] + SplitOn(command, ' '), ' ') == word + " " + token + " " + command
  {
    var rest := SplitOn(command, ' ');
    var pieces := [word, token] + rest;
    assert pieces[0] == word && pieces[1..][0] == token && pieces[1..][1..] == rest;
    assert Join(pieces[1..], ' ') == token + " " + Join(rest, ' ');
    JoinSplit(command, ' ');
  }

  /** The line splits into the two words followed by the pieces of the command. */
  lemma SplitRunLinePieces(word: string, token: string, command: string)
    requires ' ' !in word && ' ' !in token
    ensures SplitOn(word + " " + token + " " + command, ' ') == [word, token] + SplitOn(command, ' ')
  {
    var rest := SplitOn(command, ' ');
    var pieces := [word, token] + rest;
    forall k | 0 <= k < |pieces| ensures ' ' !in pieces[k] {
      if k >= 2 { assert pieces[k] == rest[k - 2]; }
    }
    JoinRunLine(word, token, command);
    SplitJoin(pieces, ' ');
  }

  /** `split(' ', 2)` of such a line gives the two words and the whole command. */
  lemma SplitRunLineOf(word: string, token: string, command: string)
    requires ' ' !in word && ' ' !in token
    ensures SplitRunLine(word + " " + token + " " + command) == [word, token, command]
  {
    var rest := SplitOn(command, ' ');
    var ps := [word, token] + rest;
    SplitRunLinePieces(word, token, command);
    JoinSplit(command, ' ');
    assert ps[2..] == rest;
    if |ps| == 3 {
      assert Join(rest, ' ') == rest[0];
    }
  }

  /**
   A line `word token command` (word and token without spaces) runs the whole
   rest of the line, spaces included, on the instance the token names; a
   token of digits picks the listed instance with that 1-based number.
   */
  lemma ParseRunReadsLine(word: string, token: string, command: string,
                          listed: seq<Directory.Instance>)
    requires ' ' !in word && ' ' !in token
    ensures ParseRun(word + " " + token + " " + command, listed) ==
      match Resolve(token, listed)
      case Some(id) => Target(id, command)
      case None => BadIndex
  {
    SplitRunLineOf(word, token, command);
  }

  /** A numbered target outside `1..|listed|` is rejected; one inside picks that listing entry. */
  lemma NumberResolution(token: string, listed: seq<Directory.Instance>)
    requires IsDigits(token)
    ensures 1 <= DigitsValue(token) <= |listed| ==> Resolve(token, listed) == Some(listed[DigitsValue(token) - 1].id)
    ensures (DigitsValue(token) == 0 || DigitsValue(token) > |listed|) ==> Resolve(token, listed).None?
  {
  }

  /**
   How the caller reads a run's result as written: by the capitalised keys
   `Status`, `Output` and `Error`. The submit failure has only lower-case
   keys, so the read raises `KeyError` (here `None`).
   */
  function ReadReportAsWritten(r: Session.RunOutcome): (rep: Option<Report>)
    ensures rep.Some? <==> r.Retrieved?
    ensures r.Retrieved? ==> rep.value.status == r.result.status
  {
    match r
    case Retrieved(out) => Some(Report(out.status, out.output, out.error))
    case NotSent(_, _) => None
  }

  /** The submit failure cannot be shown as written: reading its `Status` fails. */
  lemma SendFailureUnreadableAsWritten()
    ensures ReadReportAsWritten(Session.SendFailure).None?
  {
  }

  /** The intended read: either result shape yields a status, an output and an error. */
  function ReadReport(r: Session.RunOutcome): (rep: Report)
    ensures r.Retrieved? ==> rep == Report(r.result.status, r.result.output, r.result.error)
    ensures r.NotSent? ==> rep.status == r.status && rep.output == "" && rep.error == r.error
  {
    match r
    case Retrieved(out) => Report(out.status, out.output, out.error)
    case NotSent(status, error) => Report(status, "", error)
  }

  /** With the intended read, a failed submit shows as `Failed` with its reason and agrees with the as-written read elsewhere. */
  lemma ReadReportAgrees(r: Session.RunOutcome)
    ensures ReadReportAsWritten(r).Some? ==> ReadReportAsWritten(r).value == ReadReport(r)
    ensures ReadReport(Session.SendFailure) == Report("Failed", "", "Failed to send command")
  {
  }

  /**
   The `run` branch: parse the line against the last listing; on a target,
   run the command through the session and show the result.
   */
  function RunLine(s: Session.SessionData, line: string, listed: seq<Directory.Instance>, agent: Session.Agent,
                   clock: string, now: string): (res: (Session.SessionData, ReplResponse))
    ensures res.1.Ran? <==> ParseRun(line, listed).Target?
    ensures !res.1.Ran? ==> res.0 == s
    // at most one record is added, after the untouched old history
    ensures |s.commands| <= |res.0.commands| <= |s.commands| + 1
    ensures res.0.commands[..|s.commands|] == s.commands
    // a run that left no record was a rejected submit, and it is shown as such
    ensures res.1.Ran? && |res.0.commands| == |s.commands| ==>
      res.1.report == Report("Failed", "", "Failed to send command")
    // a run that left a record shows the recorded status, and an output the record keeps a prefix of
    ensures res.1.Ran? && |res.0.commands| == |s.commands| + 1 ==>
      && res.1.report.status == res.0.commands[|s.commands|].status
      && |res.0.commands[|s.commands|].output| <= |res.1.report.output|
      && res.0.commands[|s.commands|].output == res.1.report.output[..|res.0.commands[|s.commands|].output|]
  {
    match ParseRun(line, listed)
    case Usage => (s, ShowUsage)
    case BadIndex => (s, ShowBadIndex)
    case Target(id, command) =>
      var run := Session.RunCommandOnInstance(s, Session.Call(id, command, clock, now), agent);
      (run.0, Ran(ReadReport(run.1)))
  }
}
