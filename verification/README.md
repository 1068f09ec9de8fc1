# EC2 / Bedrock MCP bridge and PyTorch-infra MCP tools, modelled in Dafny

This project models the deterministic logic of two programs that sit between
a language model and AWS infrastructure:

- `claude-mcp.py` has two parts. `EC2Manager` lists compute instances through
  a filter list and checks whether each one is reachable by the
  remote-execution agent. It also submits shell commands and fetches their
  results. `ModelContextProtocol` keeps a session with an append-only command
  history. It builds the context snapshot sent to the model, and frames the
  model query and its errors. The `run <id|#> <command>` branch of the
  interactive mode is modelled too.
- `fluffys/main.py` is an MCP tool server. Its tools build CloudTrail lookup
  attributes, scan log streams for a time window, and collect log messages
  over search pages. They also count running instances and list
  instance-type names over catalogue pages. One tool follows the `Link`
  header of the GitHub runner listing from page to page.

Every remote call becomes an input, in one of two forms:

- **A function-valued parameter.** The inventory query `describe`, the agent
  registry `registry`, the submit call `send`, the invocation lookup `fetch`,
  the model service `invoke` and the CloudTrail `lookup` are passed in as
  functions. JSON serialisation is the opaque `serialize`.
- **A sequence of replies.** Paginated calls take their replies in the order
  the loop receives them. A `requires` states that some reply ends the loop;
  without one, the source would loop for ever.

Exceptions the source catches become variants of a result datatype:

- `RegistryClientError`, `SendClientError`, `InvocationClientError`;
- `LookupRaised`, `EventsRaised`, `RequestFailed` / `Unexpected`;
- `Raised` for the model service.

Python's falsy values (`None`, `""`, `[]`) are modelled as `""` / `[]` wherever
the code tests truthiness.

Modules:

- `Common`: `Option`, order-preserving selection, subsequences, substring
  search, and `split`/`join` with their round trip.
- `Directory`: the filter list, instance names, reachability and the listing.
- `Runner`: submitting a command and fetching its result.
- `Session`: the session and `run_command_on_instance`.
- `Context`: the snapshot and the model-query framing.
- `Repl`: the `run` line.
- `Trail`, `Logs`, `Ec2Tools`, `GitHub`: the tools of `fluffys/main.py`.

`run_command_on_instance` appends a history record only when the submission
returned a non-empty command id (claude-mcp.py:289-306). A rejected submission
leaves the history as it was. `Session.HistoryFollowsCalls` states this: one
record per accepted call, in call order.

## Model

| member | source | states |
|---|---|---|
| `Directory.FilterListShape` | claude-mcp.py:65-87 | The running-state filter is last and appears exactly once. An instance-type filter appears iff types were given, and then comes first. The `tag:Name` filter's single value is prefix + `*`. There is one `tag:<key>` filter per tag, in order. |
| `Directory.TagNamesAreDistinct` | claude-mcp.py:79-87 | A tag filter's name never equals the instance-type or running-state filter name. |
| `Directory.InstanceName` | claude-mcp.py:95-99 | The name is the value of the first tag keyed `Name`, or `Unnamed` when no tag has that key. |
| `Directory.CheckSsmStatus` | claude-mcp.py:122-132 | Three cases, each an iff: Available for a non-empty registry list, Not Available for an empty one, Unknown for a client error. |
| `Directory.Listing` | claude-mcp.py:91-120 | With `ssm_only`, every listed instance is Available. The result is an order-preserving subsequence of the described instances, taken reservation by reservation. It contains exactly the described instances that the drop rule keeps. Without `ssm_only`, it is all of them. |
| `Directory.ListReservation` | claude-mcp.py:93-118 | The inner loop over one reservation keeps the same instances as the reference listing. |
| `Directory.ListInstances` | claude-mcp.py:65-120 | The nested loops over the reply to the built filter list produce the reference listing. |
| `Runner.CommentFor` | claude-mcp.py:151 | The caller's comment when it is non-empty, else the fixed prefix followed by the clock text. |
| `Runner.RunCommand` | claude-mcp.py:134-156 | A command id is returned iff the agent accepted the request, and it is the agent's id. The request targets the given ids with the shell document and the single command. |
| `Runner.GetCommandOutput` | claude-mcp.py:158-196 | A client error gives `Failed` with empty output and the error text, never an exception. Otherwise the status is passed through and a missing stream reads as empty. |
| `Common.Truncate` | claude-mcp.py:302 | At most the first 1000 characters: the length is the minimum, and the result is a prefix of the input. |
| `Session.NewSession` | claude-mcp.py:211-215 | A new session has the given id and start time and an empty history. |
| `Session.RunCommandOnInstance` | claude-mcp.py:278-308 | A falsy command id (none or empty) leaves the session unchanged and returns the submit-failure shape. Otherwise exactly one record is appended after the untouched history. Its status is the retrieved status and its output is the retrieved output cut to 1000 characters. The untruncated result is returned. |
| `Session.RunKeepsBounded` | claude-mcp.py:297-306 | Every stored output stays within 1000 characters after a run. |
| `Session.HistoryFollowsCalls` | claude-mcp.py:289-306 | After any sequence of calls, the history is the old history followed by one record per accepted call, in call order. The session id and start time never change. |
| `Context.TagMapKeys` | claude-mcp.py:223-225 | A key is in the tag map iff some tag has it. |
| `Context.TagMapLastValue` | claude-mcp.py:223-225 | A repeated key keeps the value of its last tag: a later duplicate overwrites an earlier one. |
| `Context.FormatInstances` | claude-mcp.py:217-237 | One simplified record per instance, in the same order. |
| `Context.GenerateContext` | claude-mcp.py:239-276 | Schema `v1`, the session id, start time and region. The history is present iff it is requested and non-empty, and is then verbatim. The instances are the simplified records of the listing that the given filters select among reachable instances, in listing order, each with status `Available`. |
| `Context.SnapshotIdentityStable` | claude-mcp.py:260-265 | Running a command does not change the session identity that a snapshot reports. |
| `Context.SnapshotShowsNewRecord` | claude-mcp.py:272-274 | After an accepted run, a snapshot carries the history with the new record after the old ones. |
| `Context.Prompt` | claude-mcp.py:337 | The prompt is `<mcp>\n`, the context JSON, `\n</mcp>\n\n`, then the user message. |
| `Context.ReplyText` | claude-mcp.py:358-364 | The first content text on success. The error prefix plus the message on any exception, including an empty content list. |
| `Context.QueryClaude` | claude-mcp.py:310-364 | Uses the given snapshot, or an unfiltered one with history. The payload text starts with the framing and ends with the message. The answer is the reply text of the service's answer. |
| `Context.ErrorAnswerIsMarked` | claude-mcp.py:362-364 | An error answer starts with the fixed prefix and carries the underlying message after it. |
| `Common.JoinSplit` | claude-mcp.py:409 | Splitting on a character and joining back gives the original text. |
| `Common.SplitJoin` | fluffys/main.py:376 | Joining parts that lack the separator and splitting again gives the parts back. |
| `Repl.ParseRunReadsLine` | claude-mcp.py:409-416 | For `word token command`, the whole rest of the line, spaces included, is the command. The target is the instance the token names. |
| `Repl.NumberResolution` | claude-mcp.py:418-424 | A number token from 1 to the listing length picks that entry, 1-based. A number outside that range is rejected. |
| `Repl.ReadReportAsWritten` | claude-mcp.py:429-436 | The caller reads `Status`/`Output`/`Error`. This read succeeds exactly on a retrieval result. |
| `Repl.SendFailureUnreadableAsWritten` | claude-mcp.py:290-291 | The submit-failure value cannot be read by the caller as written. |
| `Repl.ReadReport` | claude-mcp.py:429-436 | Both result shapes yield a status, an output and an error. The submit failure shows its status and error with empty output. |
| `Repl.ReadReportAgrees` | claude-mcp.py:429-436 | The intended read agrees with the as-written read wherever that one succeeds. A failed submit shows as `Failed` with its reason. |
| `Repl.RunLine` | claude-mcp.py:407-438 | The `run` branch with the corrected outcome read of "## Findings". A command runs iff the parse gives a target. Otherwise the session is unchanged. At most one record is added after the old history. A run that left no record shows the submit failure. A run that left one shows the recorded status and an output the record keeps a prefix of. |
| `Trail.ZuluToOffset` | fluffys/main.py:61-68 | The rewritten time has no `Z` left, and text without `Z` is unchanged. |
| `Trail.ZuluOnOneChar` | fluffys/main.py:61-68 | A lone `Z` becomes `+00:00`; any other character is kept. |
| `Trail.ZuluToOffsetAppend` | fluffys/main.py:61-68 | The rewrite of a concatenation is the concatenation of the rewrites, so with `ZuluOnOneChar` every `Z` becomes `+00:00` and nothing else changes. |
| `Trail.LookupParamsCarryFilters` | fluffys/main.py:48-74 | `ResourceName` comes first. A given `ResourceType`, then a given `EventName`, follow, each once and readable back; absent ones are missing. `MaxResults` is `max_results`. A start or end time is set iff it was given. |
| `Trail.GetCloudTrailEvents` | fluffys/main.py:76-101 | Any exception gives the failure shape with status `failed`. Otherwise `total_events` equals the number of events, the events keep their order and kept fields, and the next token is passed through. |
| `Logs.ScanPageSelects` | fluffys/main.py:148-160 | With both ends given, a page scan never fails. It keeps exactly the streams in the closed window that come before the first stream older than the window, in page order. |
| `Logs.ScanGroup` | fluffys/main.py:143-163 | The loop with the `found` flag and the two `break`s computes the reference group scan. |
| `Logs.GroupScanInWindow` | fluffys/main.py:143-165 | With both ends given, every stream of a group lies in the window. The group is empty exactly when no page keeps a stream. Otherwise its streams are what the first page that keeps any keeps: the in-window streams before the first older one. |
| `Logs.ListLogStreams` | fluffys/main.py:138-170 | The tool succeeds iff every group's scan does. On success each requested group maps to its scan, and a missing group maps to the empty list. |
| `Logs.ListingWithWindowSucceeds` | fluffys/main.py:148-155 | With both ends given, the tool never fails and every listed stream lies in the window. |
| `Logs.OmittedStartFails` | fluffys/main.py:124-153 | Without a start time, a group whose first stream has a timestamp makes the tool fail. |
| `Logs.WithDefaults` | fluffys/main.py:115-116 | Omitted times become the documented defaults: 24 hours before now, and now. Given times are kept. |
| `Logs.ListLogStreamsWithDefaults` | fluffys/main.py:104-170 | With the defaults filled in, the tool never fails and every listed stream lies in the window. |
| `Logs.PatternFor` | fluffys/main.py:225 | The filter pattern is the search text between two `%`. |
| `Logs.RequestAt` | fluffys/main.py:221-241 | The first request names no streams and carries no token. Each later one names the given streams and carries the previous reply's token. All requests use the pattern and the 10000 limit. |
| `Logs.QueryGroup` | fluffys/main.py:229-242 | The `while "nextToken" in response` loop gives the reference search: the messages of every page in order (a missing message is `""`), or nothing when a reply raised. |
| `Logs.QueryLogStreams` | fluffys/main.py:210-250 | A group is in the result iff its search went through and found at least one event. It then maps to the messages found. |
| `Logs.QueryWithoutWindowIsEmpty` | fluffys/main.py:196-227 | Without both times, every group is dropped by the broad handler. |
| `Ec2Tools.CountFiltersMeaning` | fluffys/main.py:267-272 | The filters admit exactly the running instances, and of the given type when one is given. |
| `Ec2Tools.NumEc2Instances` | fluffys/main.py:274-282 | The count is the number of instances over all reservations of the filtered query. |
| `Ec2Tools.MatchPage` | fluffys/main.py:313-315 | The inner loop keeps the page's names that the search accepts, in page order. |
| `Ec2Tools.ListInstanceTypes` | fluffys/main.py:298-322 | The pages are fetched up to the first page with a missing or empty token. The first request has no token, and each later one carries the non-empty token of the page before. The result is the accepted names in catalogue order. |
| `Ec2Tools.MatchedNamesContainSearch` | fluffys/main.py:314 | Every kept name contains the search string at some position. |
| `Ec2Tools.EmptySearchKeepsAll` | fluffys/main.py:314 | With no search string, or an empty one, no name is dropped. |
| `Ec2Tools.ListedIff` | fluffys/main.py:303-320 | A name is listed iff a fetched page carries it and it contains the search string. |
| `Common.ContainsIff` | fluffys/main.py:314 | The substring scan finds the needle iff it occurs at some position. |
| `GitHub.MatchAtIff` | fluffys/main.py:378-379 | The matcher at one position agrees with the expression's meaning. That is: the opening text, then a non-empty group without line breaks, then the first closing character after the group's first character. |
| `GitHub.SearchFromLeftmost` | fluffys/main.py:378-379 | The search returns the group of the leftmost matching position, and nothing when no position matches. |
| `GitHub.SearchFindsFirst` | fluffys/main.py:378-379 | A match with no earlier occurrence of the opening text is what the search returns. |
| `GitHub.LinkMapNext` | fluffys/main.py:374-385 | The dictionary's `next` entry exists iff some link is `next`, and is the address of the last such link. |
| `GitHub.NextUrlNonEmpty` | fluffys/main.py:369-385 | A next address, when there is one, is non-empty, so finding it always continues the loop. |
| `GitHub.PartParses` | fluffys/main.py:376-382 | Both searches read a rendered `<url>; rel="r"` part back. |
| `GitHub.HeaderRoundTrip` | fluffys/main.py:373-385 | A header rendered from well-formed links parses back to those links, in order. Its next address is the last `next` link. |
| `GitHub.FollowPages` | fluffys/main.py:355-392 | The first request goes to the first-page address, and each later one to the `next` link of the page before. A request failure or other exception gives a one-line message with its prefix. Otherwise the runners of all pages, in order. |
| `GitHub.GetAllRunners` | fluffys/main.py:326-392 | Without a token, the fixed notice and no request; otherwise the pages loop with the `Link` header reader. |

## Left out

- The `command_executed` waiter before a result fetch is not modelled. The model fetches directly. A waiter failure is not a client error, so in the source it propagates out of `get_command_output`.
- JSON serialisation of the snapshot and payload, and parsing of the model's reply body, are not modelled. Serialisation is the opaque parameter `serialize`, and any failure of the model call is a `Raised` reply.
- Clock readings, uuid generation and `time.strftime` are parameters: the session id, the start time, `clock` and `now`.
- ISO-8601 parsing and the float `timestamp() * 1000` conversion are not modelled. Times are integer milliseconds, or `None` when omitted. CloudTrail times are kept as text after the `Z` rewrite.
- `list_runners_connected_to_github` is left out. It uses a case-insensitive regular expression over JSON text and Python string formatting.
- `lru_cache`, FastMCP tool registration, `display_instances`, `print`, the `input` loop, `argparse` and `main` are I/O and wiring.
- `str.isdigit` and `int` are modelled on ASCII digits only. Other Unicode digits are left out.
- Exceptions the source does not catch are left out, because the source lets them end the call. Examples are a `KeyError` on a reply missing a required key, a failing inventory query in `list_instances` or `num_ec2_instances`, and non-not-found errors in `list_log_streams`.
- The default log-group list of `list_log_streams` and `query_log_streams` (fluffys/main.py:17-21) is an argument default. The model takes the group list as a parameter.
- The GitHub request headers (the bearer token and the accept type, fluffys/main.py:347-350) and the Bedrock `modelId` (claude-mcp.py:354) are not modelled: requests are only their addresses, and the model payload holds the body without the model id. The temperature is carried as a `real`, not as a float.
- Context.GenerateContext: the snapshot holds a copy of the history. In the source the context dict shares the live `commands` list (claude-mcp.py:274), which a later `run_command_on_instance` appends to in place (claude-mcp.py:306), so a kept dict would show the new record. Every caller uses the snapshot at once (claude-mcp.py:324-328 and 506-513), so the model uses values.
- Logs.QueryGroup: the replies are given as a sequence. `Logs.RequestAt` describes the requests that produce them, but the contract does not tie each reply to its request.
- GitHub.HeaderRoundTrip: proved only for links whose address and relation are non-empty and free of the header's delimiters. The parser splits on every comma, so other headers do not round-trip.
- GitHub.FollowPages: runners are modelled as records, not as the JSON objects of the reply.
- Repl.RunLine: the target is given as the parsed `run` line. The case-insensitive `startswith('run')` routing of the input line is not modelled.
- Repl.RunLine: reads the outcome with the corrected `Repl.ReadReport`. As written, a rejected submit raises `KeyError` at claude-mcp.py:429 and ends the interactive loop. That path is modelled only by `Repl.ReadReportAsWritten` and `Repl.SendFailureUnreadableAsWritten` (see "## Findings").

## Findings

| source | as written | input that shows it | evidently intended | confidence | as-written member | corrected member |
|---|---|---|---|---|---|---|
| claude-mcp.py:290-291 | The submit-failure value has lower-case keys `status` and `error`. Both callers (claude-mcp.py:429-436 and 493-500) read `output['Status']`, so this raises `KeyError`. | `run i-0abc uptime` when the submit call raises a client error | Show status `Failed` and the error text `Failed to send command` | not executed | `Repl.ReadReportAsWritten`, `Repl.SendFailureUnreadableAsWritten` | `Repl.ReadReport`, `Repl.ReadReportAgrees` |
| fluffys/main.py:124-160 | `start_time_ms` and `end_time_ms` are assigned only when the arguments are given, yet the window test reads them. The docstring (lines 115-116) documents defaults of 24 hours ago and now. | `list_log_streams()` with no start time, on a group whose newest stream has a `lastEventTimestamp`: raises `UnboundLocalError` | Fill in the documented defaults before the scan | not executed | `Logs.ListLogStreams`, `Logs.OmittedStartFails` | `Logs.ListLogStreamsWithDefaults`, `Logs.ListingWithWindowSucceeds` |
