# A model of mcp-cli's protocols and codecs

This project models the parts of mcp-cli (the bridge, the MCP client, the
configuration writer and the daemon's control code) whose guarantees span
several functions or several concurrent tasks, and proves those guarantees for
all inputs, all runs and all interleavings.

Everything is verified together: `dafny verify dfyconfig.toml`.

| file | what it models |
|---|---|
| `BridgeNames.dfy` | joining a server and a tool name into one exposed name, and taking it apart |
| `Bridge.dfy` | connecting, listing the aggregate catalogue, dispatching a call |
| `BridgeClients.dfy` | the semaphore and the stack of connection slots, with cancellation at every await |
| `SseSubscription.dfy` | the four-slot event queue of an HTTP subscription |
| `Framing.dfy` | the two line readers over arbitrarily cut byte streams |
| `McpWire.dfy`, `McpClient.dfy`, `McpHandshake.dfy`, `McpPagination.dfy`, `McpProtocol.dfy` | the sequential client: responses, notifications and callbacks, negotiation, cursors |
| `ConfigWriter.dfy`, `ConfigPlan.dfy` | concurrent checked writes of the configuration, and what an addition or import changes |
| `DaemonServe.dfy`, `DaemonClient.dfy`, `DaemonLaunch.dfy`, `DaemonLogging.dfy` | shutdown, control requests and waiting for a launch, Windows quoting, the bounded log |
| `Retirement.dfy` | which pool generations a change retires, and the loop that stops them |
| `ProcessTree.dfy`, `Migration.dfy`, `MigrationLosses.dfy` | process trees in a snapshot, the journal of legacy retirement over crashes and overlapping runs, and three histories in which it fails |
| `Json.dfy`, `Wrappers.dfy`, `Counting.dfy` | shared data types and counting lemmas |

Sequential code that works on fields or buffers is a class or a method with its
loop, proved against a function of the old state; the properties are lemmas about
that function. Code whose guarantees are about interleavings is a state machine:
a datatype of states, a step for every await, write or channel operation, and a
`Run` over any sequence of events, in which an event that is not possible does
nothing. A theorem about `Run` therefore speaks of every interleaving. JSON
values, file contents, clocks, the behaviour of peers and of other processes are
arbitrary inputs.

Five statements one might expect are false of the code, and are stated with
their exact condition:

- A name made from an *empty* tool name does not decode: `decode_tool_name`
  skips candidates that leave nothing. `DecodeUndoesEncode` gives the result for
  both cases.
- A subscription can lose an invalidation once the completion frame is queued.
  `WhenAnOfferIsLost` and `NoInvalidationLost` say exactly which offers are lost,
  and `DroppedAfterCompletion` shows one.
- The retirement journal protects *successive* migration runs, crashes included,
  but not overlapping ones: a run may remove the journal another one has saved,
  before or after the stop is sent. `WhenStopsStayCovered` gives the exact
  condition over all histories, and two lemmas of `MigrationLosses` show the two
  ways it fails. `OneAtATime` is the condition a caller can see to.
- A process that is alive but whose time of birth cannot be read counts as gone
  when a retirement is verified, so even a single run may then remove its journal
  and succeed. `NoneSurvivesWhenGone` and `PassingIsSeeing` state the exact
  condition, and `BlindRunLosesAJournal` shows such a run.
- A configuration or credential retirement may stop less than the native one would:
  it selects more servers, and fails at the first of them that is not owned.
  `WhenNativeStopsAreCovered` gives the condition, `FailureMayStopLess` a status,
  and `SuccessCoversNative` what success means.

A `Native` selection without a scope, as `NativeSplitsConfiguration` shows,
selects nothing: it passes over an entry with a scope and fails on one without.

## Model

| member | source | states |
|---|---|---|
| BridgeNames.PartRoundTrip | src/mcp_bridge_names.rs:47-64 | Undoing the escapes of one name part gives the part back, whichever ends were escaped and however `%`, `__` runs and earlier escapes overlap. |
| BridgeNames.SeparatorOccursOnce | src/mcp_bridge_names.rs:3-10 | An exposed name holds `__` at one place only, the one between server and tool. |
| BridgeNames.PrefixDeterminesServer | src/mcp_bridge_names.rs:12-38 | Two servers whose encoded prefixes match the same string, any string at all, are the same server. |
| BridgeNames.EncodingIsInjective | src/mcp_bridge_names.rs:3-10 | Equal exposed names come from the same server and the same tool. |
| BridgeNames.NamesInOnePass | src/mcp_bridge_names.rs:3-10 | An exposed name is what one pass over server and tool makes of them: percent signs, pairs of underscores and the one underscore that would touch the separator are escaped, nothing else is. |
| BridgeNames.SortLongestFirst | src/mcp_bridge_names.rs:24-26 | The sort permutes the candidates into decreasing prefix length. |
| BridgeNames.DecodeToolName | src/mcp_bridge_names.rs:12-38 | The search finds a server and a nonempty tool exactly when some served server's prefix matches and leaves one; that answer is unique, so the longest-first order cannot change it. |
| BridgeNames.SplitDetermines | src/mcp_bridge_names.rs:12-38 | At most one split of a name exists, and it is what decoding returns. |
| BridgeNames.DecodeUndoesEncode | src/mcp_bridge_names.rs:3-38 | Decoding an encoded name gives back the served server and its tool; only an empty tool name does not come back. |
| Bridge.Connect | src/mcp_bridge.rs:88-156 | A tool filter that does not parse ends the attempt before anything connects; otherwise, whatever order the connections complete in, a bridge results exactly when all of them succeed and the server names differ, with the configured order and filters. |
| Bridge.DistinctCount | src/mcp_bridge.rs:88-156 | Comparing the size of the name map with the number of servers detects duplicated names, all of them and nothing else. |
| Bridge.NormalizedApart | src/mcp_bridge.rs:185-243 | After normalization the catalogue's names are nonempty and pairwise distinct. |
| Bridge.ExposedTool | src/mcp_bridge.rs:299-334 | A published entry bears the exposed name and keeps every member of the tool besides its description and schemas. |
| Bridge.ExposedDescription | src/mcp_bridge.rs:313-318 | The published description is the tool's own behind the server in brackets, or names the server where there is none, and the tool's own alone when names are bare. |
| Bridge.ExposedSchemas | src/mcp_bridge.rs:319-332 | A published input schema is the tool's own if it describes an object and the empty object schema otherwise; an output schema is kept if it is an object and dropped otherwise. |
| Bridge.ListTools | src/mcp_bridge.rs:185-243 | For every order in which the listings complete the result is the catalogue of all servers in order, or of the one asked for; it fails exactly when some listing failed, and for a server that is unknown. |
| Bridge.CatalogueIsInOrder | src/mcp_bridge.rs:185-243 | The catalogue lists, server by server and within one as the server does, exactly the tools that have a name, are the first with it, and are permitted, each in its published form. |
| Bridge.CallTool | src/mcp_bridge.rs:245-270 | A call reaches a server and tool exactly when they are what the name means, by its one split or by the selected server, and the filter permits the tool; on a connected bridge each permitted tool is reached under its exposed name, one not permitted is unknown, and no server is. |
| Bridge.CallsReachPermittedTools | src/mcp_bridge.rs:245-270 | A call only reaches a permitted tool of a served server, the selected one if any; each permitted tool is reached under its exposed name, and one that is not permitted is unknown under it. |
| Bridge.FiltersDecide | src/mcp_bridge.rs:262-270 | A call reaches a tool it means exactly if the server's list of allowed tools has it, or, without one, its list of blocked tools has it not. |
| Bridge.ListedToolsAreCallable | src/mcp_bridge.rs:185-289 | Listed names are pairwise distinct, and calling one dispatches exactly the server and tool its entry was made from, past the same filter. |
| Bridge.PermittedToolsAreListed | src/mcp_bridge.rs:185-243 | No permitted tool of a selected server is missing from the catalogue. |
| BridgeClients.SlotsAreConserved | src/mcp_bridge_clients.rs:13-61 | In every interleaving, with cancellation and reconnect failure anywhere, idle and leased slots add up to N, idle slots cover the free permits, and no admitted task finds the stack empty. |
| BridgeClients.ClientsAreExclusive | src/mcp_bridge_clients.rs:35-61 | No client is in two places, so no two operations share one, and at most N exist. |
| BridgeClients.OperationsBeginOpen | src/mcp_bridge_clients.rs:46-58 | In every run an operation begins on an idle client only if that is open, and otherwise on one never used before that nobody else has. |
| BridgeClients.LeavingReturnsTheClient | src/mcp_bridge_clients.rs:19-23 | Whoever leaves with a slot puts back just what is in it, and then its permit. |
| BridgeClients.FirstTaskUsesTheClient | src/mcp_bridge_clients.rs:26-33 | The first task operates on the client the pool was made with. |
| BridgeClients.QuiescentPoolIsFull | src/mcp_bridge_clients.rs:13-61 | When all tasks are over or still waiting, every slot and permit is back. |
| SseSubscription.QueueShape | src/mcp_bridge_http_sse.rs:103-161 | In every interleaving the queue holds at most four frames, at most three of them not invalidations until the completion frame is queued; the acknowledgement is first. |
| SseSubscription.FullQueueHoldsInvalidation | src/mcp_bridge_http_sse.rs:178-203 | In every run a queue that is full before completion holds an undelivered invalidation. |
| SseSubscription.NoInvalidationLost | src/mcp_bridge_http_sse.rs:178-203 | In every run, for each notification ever offered, dropped or not, a reader that drains the stream took an invalidation that it had not taken at the offer and that was queued by then, exactly unless the offer stood behind the completion frame; no offer made before that frame did. |
| SseSubscription.WhenAnOfferIsLost | src/mcp_bridge_http_sse.rs:178-203 | At any point of any run an offer would be lost exactly if the queue holds four frames that are no invalidations, which is to say three of them and the completion frame last. |
| SseSubscription.DroppedAfterCompletion | src/mcp_bridge_http_sse.rs:129-176 | A concrete run in which an offer after the completion frame is refused with no invalidation queued. |
| SseSubscription.ShutdownCompletes | src/mcp_bridge_http_sse.rs:113-176 | A shutdown, before or after the acknowledgement, ends with the completion frame once there is room, and then with the listeners. |
| SseSubscription.FinishedStopsListening | src/mcp_bridge_http_sse.rs:162-176 | In every run a subscription that has finished has no listener left. |
| Framing.ReadLimitedLine | src/mcp_bridge_stdio.rs:124-163 | However the stream is cut into chunks, one call yields the first line of the whole stream, or too-large exactly when that line with its newline exceeds the limit, and leaves the stream just after it; its buffer never exceeds the limit. |
| Framing.ReadInput | src/mcp_bridge_stdio.rs:99-122 | The input task forwards the frames of the whole stream in order, up to what the receiver takes. |
| Framing.FramesAreTheLines | src/mcp_bridge_stdio.rs:99-163 | Those frames are the lines of the split stream, too large above 1 MiB, and its end, or, of a stream that breaks, its finished lines and the error. |
| Framing.SplitLinesSplits | src/mcp_bridge_stdio.rs:124-163 | The split concatenates to the stream and has newlines at the ends of its lines and nowhere else. |
| Framing.SplitIsUnique | src/mcp_bridge_stdio.rs:124-163 | Only one split of a stream has that shape. |
| Framing.ReadMessage | src/mcp_client_wire.rs:128-159 | However the stream is cut, one call yields the first nonblank line, the end of the stream, or a failure for an over-long or truncated line or a broken stream; its buffer never exceeds the limit. |
| Framing.MessagesAreTheLines | src/mcp_client_wire.rs:128-159 | All messages of a connection, and why they stop, read off the lines of the whole stream: lines of ASCII white space are skipped, one above 16 MiB or unfinished ends it. |
| Framing.WrittenMessageIsRead | src/mcp_client_wire.rs:16-29 | A frame the writer lets through is read back whole, and one it refuses would have been rejected. |
| McpProtocol.StampIsConservative | src/mcp_protocol.rs:119-129 | Stamping fails exactly when there is no place for metadata; otherwise it sets the version under its key, changes no other member and no other metadata, and can be repeated. |
| McpWire.ReceiveMessage | src/mcp_client_wire.rs:81-122 | The receive loop answers callbacks and stops at the first message that is none, exactly as the receive function says. |
| McpWire.ReceiveResult | src/mcp_client_wire.rs:31-67 | The result loop skips notifications and decides on the first response, exactly as the await function says. |
| McpWire.ClassifiedByMembers | src/mcp_client_wire.rs:87-120 | Which frames are callbacks, notifications and responses, by their members, and what is replied: the callback's identifier with an empty result for a ping, or else error -32601. |
| McpWire.AwaitDelivers | src/mcp_client_wire.rs:31-122 | A decided outcome is given, member by member, by one response frame with the request's id; before it came only notifications and callbacks, each callback answered once and in order, even with a colliding id. |
| McpWire.AwaitFinds | src/mcp_client_wire.rs:31-122 | The first response that gives an outcome for the request is returned, whatever calls come before it, if the replies to them can be written. |
| McpWire.RepliesAnswer | src/mcp_client_wire.rs:103-115 | The replies are one to each callback, in order, each for its own. |
| McpWire.ReceiveDelivers | src/mcp_client_wire.rs:69-122 | A received notification or response is a frame of the stream, preceded only by callbacks, each answered. |
| McpWire.AwaitOnlyReplies | src/mcp_client_wire.rs:31-122 | Waiting writes nothing but replies to callbacks. |
| McpClient.Client.Request | src/mcp_client.rs:151-184 | A request takes the connection out, and puts it back only after a decided outcome; state and reply are those of the request step. |
| McpClient.Client.Notify | src/mcp_client.rs:186-211 | The same for a notification: only a completed write keeps the connection. |
| McpClient.Client.WaitForNotification | src/mcp_client.rs:222-230 | The same for waiting: only a received notification keeps the connection. |
| McpClient.RequestWritesOnce | src/mcp_client.rs:151-184 | A request writes at most one frame of its own, first, and then only replies to callbacks; a refused one writes nothing and closes nothing; a lost one closes the client. |
| McpClient.EraDecidesStamp | src/mcp_client.rs:151-166 | The parameters written carry the modern version exactly in the modern era and are otherwise, other metadata included, the caller's. |
| McpClient.RequestReturnsItsOwn | src/mcp_client.rs:151-184 | A returned result, or error code, message and data, are those of a frame with the id this request wrote, no method, and exactly one of result and well-formed error (section 5 of the JSON-RPC 2.0 Specification); the calls before it were answered in order. |
| McpClient.AnsweredRequestReturns | src/mcp_client.rs:151-184 | The other way round: where the writes succeed, an answer with the written id is returned, whatever calls come first, and the connection is kept. |
| McpClient.FrameByMembers | src/mcp_client.rs:167-178 | A request frame holds the version, the id, the method, the parameters and the deadline in milliseconds, rounded up. |
| McpClient.RefusedRequests | src/mcp_client.rs:151-166 | The exact conditions under which a request is refused without a frame. |
| McpClient.NotifyMeans | src/mcp_client.rs:186-211 | A notification is sent exactly if the connection is open, the parameters are usable and the write succeeds; only that, or unusable parameters, keeps the connection. |
| McpClient.WaitMeans | src/mcp_client.rs:222-230 | Waiting hands over the first frame that is no callback if it is a notification, and keeps the connection only then. |
| McpClient.WaitFinds | src/mcp_client.rs:222-230 | A notification that arrives after callbacks that can be replied to is handed over. |
| McpClient.IdsAlwaysIncrease | src/mcp_client.rs:151-230 | Over every run of operations the ids of the requests written strictly increase. |
| McpClient.ClosedForGood | src/mcp_client.rs:151-230 | Once closed, a client stays closed, reads nothing and writes nothing. |
| McpClient.LostIsFinal | src/mcp_client.rs:151-184 | After a timeout, cancellation or bad frame nothing is ever written or read again, so no late answer is taken for another. |
| McpHandshake.Negotiate | src/mcp_client.rs:91-147 | Negotiation ends with the client state and verdict of the negotiation function, for every server, and at once for a deadline that is zero or beyond the clock. |
| McpHandshake.HandshakeFrames | src/mcp_client.rs:91-147 | The methods sent are a prefix of discover, of initialize and initialized, or of discover, initialize and initialized, as the preference allows; a modern pin never initializes, legacy never discovers, success ends after discovery exactly in the modern era, and an unusable deadline sends nothing. |
| McpHandshake.Connect | src/mcp_client.rs:44-81 | Connecting negotiates with the preference that the transport allows. |
| McpHandshake.ConnectFrames | src/mcp_client.rs:49-56 | Over server-sent events connecting is negotiating with a legacy pin, so discovery is never sent, and a modern pin is refused without a frame; over other transports the preference alone decides. |
| McpHandshake.FallbackIsDefinitive | src/mcp_client.rs:91-147 | After discovery, initialize is sent only if discovery was definitively rejected or answered by a well-formed offer without the modern version. |
| McpHandshake.ProbeByMembers | src/mcp_client.rs:101-132 | What an answer to discovery leads to, by its members: fallback exactly for error -32601, error -32004 with HTTP status 400, 404, 405 or 415, or a nonempty list of nonempty versions without the modern one; the modern era exactly for such a list with it, capabilities, and text as instructions if any. |
| McpHandshake.InitializeFollows | src/mcp_client.rs:101-147 | Where the probe was answered and the next frame gets through, initialize is sent exactly if the preference is open and the answer rules the modern version out. |
| McpHandshake.NegotiatesModern | src/mcp_client.rs:101-112 | A server that offers the modern version and its capabilities is connected to in the modern era. |
| McpHandshake.NegotiatesLegacy | src/mcp_client.rs:133-147 | With a legacy pin, a server that answers initialize with capabilities and one of the four legacy versions is connected to in the legacy era under that version. |
| McpHandshake.NegotiatesAfterFallback | src/mcp_client.rs:113-147 | So is, with an open preference, one that first rules the modern version out. |
| McpHandshake.HandshakeParameters | src/mcp_client.rs:99-142 | The probe is stamped with the modern version; initialize offers the newest legacy one, no capabilities and the client's name. |
| McpHandshake.NegotiationKeepsIds | src/mcp_client.rs:91-184 | Ids keep increasing from the handshake through every later operation. |
| McpPagination.CollectPages | src/mcp_client.rs:250-278 | The page loop ends with the state and the result of the paging function. |
| McpPagination.ListingIsComplete | src/mcp_client.rs:240-278 | The requests of a listing are made in order, the first without parameters, each other with the text under nextCursor of the page before, all different. It succeeds exactly if the last page has an array under the field, of objects unless tools are listed, and no cursor, with the items of all pages in order; a failed request, a page without its array, a cursor that is no text and a repeated one each end it as such. |
| McpPagination.ListingIsBounded | src/mcp_client.rs:250-278 | With cursors from a finite set K a listing makes at most one more request than K has members. |
| ConfigWriter.NoLostUpdate | src/config_writer.rs:63-162 | For any interleaving of writers failing anywhere and outside edits, the file is what the edits and commits amount to in order, each commit applying its mutation to exactly the bytes it replaced, with a validated document. |
| ConfigWriter.CommitWritesTheMutation | src/config_writer.rs:109-159 | A rename that commits replaces the contents by the rendering, and a newline, of just what the writer's mutation makes of the document parsed from them, or of the empty list of servers where there was no file; that document is valid. |
| ConfigWriter.SuccessWithoutCommit | src/config_writer.rs:119-124 | A writer that succeeds without a commit was told to preserve, and its mutation leaves the document in the file as it is. |
| ConfigWriter.UndisturbedWriterSucceeds | src/config_writer.rs:63-162 | A writer that nothing disturbs succeeds where its mutation does and yields a valid document; the file then holds it, or its old bytes if it is preserved and unchanged, and lock and staging file are gone. |
| ConfigWriter.GivesUpAfterForty | src/config_writer.rs:81-97 | Against a lock that stays taken a writer tries forty times and then fails, having changed nothing. |
| ConfigWriter.OutcomesAreHonest | src/config_writer.rs:63-162 | A writer that failed committed nothing, one that committed had its `before` step succeed, and a replacing one that succeeded did commit. |
| ConfigWriter.OwnLockRemovedLast | src/config_writer.rs:39-48 | A writer about to remove the lock owns it and has no staging file left; the staging file it removes is its own. |
| ConfigWriter.LeftoversHaveAnOwner | src/config_writer.rs:39-162 | A lock or staging file that exists belongs to a writer that will still remove it. |
| ConfigWriter.PreservingCommitsChangeSomething | src/config_writer.rs:119-140 | A preserving writer commits only if it changes the document or creates the file. |
| ConfigPlan.Document.Apply | src/config_commands_plan.rs:39-60 | On failure the document is untouched; on success the entries are in place, nothing else has changed, and the affected existing entries are returned in order. |
| ConfigPlan.AppliedMerges | src/config_commands_plan.rs:39-60 | A mutation that succeeds puts every entry in place and leaves every other server and setting alone. |
| ConfigPlan.RefusedIfItWouldReplace | src/config_commands_plan.rs:46-52 | A copy that may not replace is refused exactly if the same copy with leave to replace would change an existing server, and otherwise does the same. |
| ConfigPlan.ApplyingTwiceIsOnce | src/config_commands_plan.rs:39-60 | Applying a mutation to its own result succeeds and changes nothing. |
| ConfigPlan.AffectedAre | src/config_commands_plan.rs:44-57 | Listed for retirement, once each, are the existing entries that change; every existing one for regular additions, none for copies that may not replace. |
| ConfigPlan.RepeatedImportKeepsTheBytes | src/config_commands_plan.rs:32-37 | In no history of concurrent writers and edits does the same import commit twice in a row, if the document the first one wrote is read back as printed: the second leaves the bytes alone. |
| ConfigPlan.RegularAdditionsCommit | src/config_commands_plan.rs:32-37 | A regular addition that succeeds has replaced the file. |
| ConfigPlan.ValidDocumentsReadBack | src/config_writer.rs:109-117 | A writer commits only validated documents, so it is enough that each of those is read back as printed. |
| DaemonServe.NoLostWakeup | src/daemon.rs:49-78 | The acceptor is never parked on an unsignalled registration once the flag is set and every signaller has done both its steps. |
| DaemonServe.AtMostOneLateAccept | src/daemon.rs:49-78 | After the flag is stored at most one more connection is accepted. |
| DaemonServe.StopsByItself | src/daemon.rs:13-23 | Once every signaller is done the acceptor stops by its own steps. |
| DaemonServe.StopsOnlyWhenTold | src/daemon.rs:49-78 | The acceptor stops only once the flag has been stored. |
| DaemonServe.KeepsAccepting | src/daemon.rs:49-78 | Until then it waits for a connection again after each one and after an accept that failed. |
| DaemonClient.ExistingRequest | src/daemon_client.rs:111-139 | The request is written at most once, exactly when the first attempt that is not busy connects; the result follows from that attempt. |
| DaemonClient.RequestWithRetry | src/daemon_client.rs:48-66 | The request is written at most twice, the second time exactly when the first connection closed without a byte and a second one opens; answer or error is that of the first exchange, or of the second if the first ended empty. |
| DaemonClient.SettledIsFirst | src/daemon_client.rs:121-131 | The attempt that decides an existing request is the first that is not answered with busy. |
| DaemonClient.RetryConnect | src/daemon_client.rs:169-197 | With timers that never fire early, waiting ends within three seconds and the lateness of one timer, after at most 34 attempts. Each begins within the budget and after the pause before it; all but the last are turned away in time; and the last one, if it completes in time, decides the outcome and the time of it. |
| DaemonClient.BackoffAddsUp | src/daemon_client.rs:169-197 | The pauses add up to 155 ms after five and grow by 100 ms each from there. |
| DaemonClient.BackoffIsBounded | src/daemon_client.rs:169-197 | No pause is shorter than 5 ms or longer than 100 ms. |
| DaemonLaunch.QuoteWindows | src/daemon_launch.rs:82-103 | The loop produces the quoted form. |
| DaemonLaunch.CommandLine | src/daemon_launch.rs:26-50 | The command is the quoted program, each quoted argument behind a space, and a terminator; it is refused exactly for an argument with a NUL. |
| DaemonLaunch.TailParsesBack | src/daemon_launch.rs:39-103 | Parsing the argument tail by Microsoft's C command-line rules gives back exactly the arguments: empty ones, trailing backslashes and embedded quotes included. |
| DaemonLaunch.ProgramNameSurvives | src/daemon_launch.rs:26-50 | The program name and the tail come apart as they were joined exactly when the name has no quote and no backslash at its end. |
| DaemonLogging.SummarizeLogLine | src/diagnostics.rs:88-100 | The loop that looks for a character boundary produces the summary. |
| DaemonLogging.SummaryIsBounded | src/diagnostics.rs:88-100 | A summary is at most 2049 bytes, a short line is its own summary, and a long one in UTF-8 keeps all but at most three bytes of what fits. |
| DaemonLogging.SummaryByParts | src/diagnostics.rs:88-100 | A longer line is cut before the first character that does not fit into 2000 bytes, and says that it was and how long it had been. |
| DaemonLogging.AppendBounded | src/daemon_logging.rs:105-126 | The file operations leave what the append function says. |
| DaemonLogging.TailIsRecent | src/daemon_logging.rs:105-126 | Rotation keeps an end of the file, at most half the limit, starting just after a newline whenever its window has one. |
| DaemonLogging.RotationDropsAPiece | src/daemon_logging.rs:113-121 | Of its last 2.5 MiB rotation drops only the piece of a line at their start, and nothing if they hold no newline. |
| DaemonLogging.RotatesOnlyWhenFull | src/daemon_logging.rs:105-112 | A log is rotated exactly if the record and its newline do not fit into 5 MiB. |
| DaemonLogging.LogKeepsWhatFits | src/daemon_logging.rs:105-126 | Records that fit are all kept, after what the log held. |
| DaemonLogging.LogStaysBounded | src/daemon_logging.rs:95-126 | After any sequence of messages the log is within 5 MiB, is what was there plus all records with only the oldest bytes dropped, and ends with the newest record whole. |
| Retirement.NativeIsNarrowest | src/daemon_configuration_ownership.rs:23-71 | What a native selection matches, the configuration and credential selections of the same entry match too. |
| Retirement.PickedByMembers | src/daemon_configuration_ownership.rs:24-71 | What each kind of selection matches, by source, name, scope and credential store of the reported entry, and when a native one fails. |
| Retirement.NativeSplitsConfiguration | src/daemon_configuration_ownership.rs:23-67 | Native selections split what the configuration selection matches by scope, except entries without one, on which all of them fail; without a scope a native selection matches nothing. |
| Retirement.OnlyMissingScopesFail | src/daemon_configuration_ownership.rs:24-66 | With all servers owned, native and credential retirements of a scoped entry end at the same server, the first one without a scope, and configuration retirements and unscoped credential ones at none. |
| Retirement.NativeSelectsLeast | src/daemon_commands.rs:137-158 | On any status a configuration or credential selection selects everything the native one does, in the same order. |
| Retirement.SuccessCoversNative | src/daemon_commands.rs:190-219 | A configuration or credential retirement that succeeds has stopped everything the native selection selects, in order. |
| Retirement.WhenNativeStopsAreCovered | src/daemon_commands.rs:190-219 | With every stop acknowledged, a configuration or credential retirement sends all the stops the native one sends if none of them comes after a server at which it fails, and, names being distinct, only if. |
| Retirement.FailureMayStopLess | src/daemon_commands.rs:190-219 | Two servers of one configuration, the first not owned and of another scope: the native retirement stops the second, the configuration retirement fails at the first and stops nothing. |
| Retirement.RetireMatching | src/daemon_commands.rs:190-219 | The stops sent are a prefix of the selected entries before the first one that cannot be retired, all acknowledged but perhaps the last, and the error names the faulty server or what became of the last stop; success is exactly every entry matched without error, all selected owned, all acknowledged. |
| Retirement.RetireSelection | src/daemon_commands.rs:167-188 | No daemon means success without a stop; a failed or unreadable status means failure without a stop; otherwise the status is retired. |
| Retirement.SuccessCoversTheStatus | src/daemon_commands.rs:190-219 | On success every selected server was owned and stopped, one stop each, and nothing else was stopped. |
| ProcessTree.OwnedTree | src/process_snapshot.rs:26-55 | The result is exactly the descendants of the root, cycles and repeated rows included, each once; it fails exactly when one of them is missing or not ours. |
| ProcessTree.Remaining | src/process_snapshot.rs:57-75 | The result holds exactly the recorded processes still there under the same birth; it fails exactly when one of them changed hands. |
| ProcessTree.NoneSurvivesWhenGone | src/process_snapshot.rs:57-75 | An empty result means every recorded process is gone or is alive with an unreadable birth, and nothing less. |
| Migration.WhenStopsStayCovered | src/daemon_migration.rs:64-175 | In every history, overlapping runs, blind ones and crashes included: each tree that was told to stop is at all times gone or named in a synced journal, exactly if no step removes a journal while a stop in its directory is not carried out and none delivers a stop to a live tree whose synced journal is not on disk. |
| Migration.PassingIsSeeing | src/daemon_migration.rs:230-246 | In every history a verification that passes means that the recorded processes are gone, exactly if the snapshot did not leave the birth of a live one unread. |
| Migration.StopsAreJournaled | src/daemon_migration.rs:64-90 | That holds at all times of any interleaving in which no run removes a journal it did not verify and no verification misses a live process whose birth is unread. |
| Migration.SequentialRunsAreJournaled | src/daemon_migration.rs:158-175 | Runs that do not overlap, crashes included, remove only the journal they verified and deliver a stop only while its synced journal is on disk; so they lose track of a stop exactly by removing its journal too early, which takes a verification that missed a live process. |
| Migration.LaterRunsFindItSettled | src/daemon_migration.rs:64-175 | In any history in which no step loses track of a stop, a run past its journal checks finds every stop sent before it began carried out, and one that succeeds has seen its own carried out too. |
| Migration.RunsRetireTheirList | src/daemon_migration.rs:130-175 | In every history the stops of a run are for the entries of the list it took, in order, one each, in the entry's directory and for a tree with its process; all but perhaps the last were acknowledged. A run that succeeds has stopped every entry; one whose list was not all verified fails without a stop. |
| Migration.SuccessMeansGone | src/daemon_migration.rs:158-175 | Where no verification is blind, a run that succeeds leaves nothing of what it stopped. |
| Migration.JournalsAreNotPassed | src/daemon_migration.rs:64-92 | A run passes a directory only while there is no journal in it, takes up one that names processes if it may stop them, and refuses any other. |
| Migration.ListDecides | src/daemon_migration.rs:131-147 | A run not asked to stop reports its list; one that was goes on with a verified list and fails on any other. |
| Migration.ListingRunsOnlyLook | src/daemon_migration.rs:64-143 | A run without the stop flag never changes a journal or sends a stop, in any history. |
| MigrationLosses.OverlappingRunsLoseAJournal | src/daemon_migration.rs:85-90 | Two overlapping runs after which a delivered stop has neither a journal nor been carried out: one removed the journal of the other's stop. |
| MigrationLosses.OverlappingRunsStopUnjournaled | src/daemon_migration.rs:169-170 | Two overlapping runs with the same end, though no step removes the journal of a stop: it goes between its sync and the stop. |
| MigrationLosses.BlindRunLosesAJournal | src/process_snapshot.rs:57-73 | A single run that stops a daemon, cannot read its birth afterwards, removes the journal and reports success while it lives. |

## Left out

- The pool multiplexer, request coalescing and the response cache.
- OAuth flows, credential stores and the authentication of imports.
- Socket, pipe, permission and access-list security: system calls.
- Command-line parsing, help, progress and output formatting, and the routing of options.
- Import conversion tables and source paths: long case lists with little interaction.
- The internals of tokio, serde, axum and reqwest: a channel is a bounded FIFO with atomic `try_send`, a semaphore counts, `Notify` wakes registered waiters and stores no permit, JSON objects are maps whose member order is not modelled.
- Parsing and printing of JSON: frames arrive parsed, and documents are read and printed by functions given as parameters.
- Update in place of the state shared between tasks: interleaved protocols (subscription, client slots, shutdown, writers, migration) are transitions on values, because a Dafny method cannot be interrupted.
- The in-flight bound of the stdio serve loop, the permits and connections that start a subscription, and its reconnect delays.
- Crashes of a configuration writer, which leave its lock behind by design, and edits that fall between the last recheck and the rename.
- Log files whose reads or writes fail half-way through a rotation.
- The wire form of the retirement journal, the pid, socket and version checks that recognise a legacy daemon, and the time limit of a verification, which appears as a failure at any moment.
- Directory entries of the journal: syncing the file is taken to make its entry durable as well.
- The wire objects that a filtered status response retains (`readable`).
- Retiring the names of a mutation one after the other, each by its own configuration selection: it repeats RetireSelection.
- Migration.StopsAreJournaled: has conditions on the runs, because the code neither prevents overlapping runs nor notices an unread birth; Migration.WhenStopsStayCovered is the statement without them.
- Migration.LaterRunsFindItSettled: has the condition under which no stop is lost track of, for the same reasons.
- Process snapshots that mix several moments: a snapshot shows the live processes of one moment, each under its own birth or an unread one.
- ConfigPlan.RepeatedImportKeepsTheBytes: takes as given that the one document the first import wrote is read back as it was printed; that every valid document is read back implies it.
- ConfigWriter.LeftoversHaveAnOwner: a lock or staging file whose removal fails, which the source only reports, stays behind without an owner; in the model a removal succeeds.
- ConfigWriter.OwnLockRemovedLast: a removal that fails is not modelled here either.
- McpHandshake.Connect: starting the pool, retrying its socket and the one deadline over all of it are not part of it; it begins with an open stream, and the deadline appears as a read that expires.
- DaemonClient.RequestWithRetry: has no time limit of its own, as in the source; an exchange that never completes ends in an error.
- McpPagination.CollectPages: the deadline of the whole listing appears as a read that expires, not as a clock.
- Bridge.CallTool: ends at the choice of server and tool; the request to that server is the one of the client model.
