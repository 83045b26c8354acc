# A verified model of the uclaw-pi backend

This project models, in Dafny, the stateful core of the desktop agent backend under
`src-tauri/src`, and proves what it keeps over every run, interleaving and input:

- `McpLifecycle`, `McpHistory`, `McpManager`, `McpTools`: the MCP client manager. Every section that
  runs under the manager's write lock is one atomic event; the network IO between the prepare and
  the commit section of a connect is an attempt in flight that any other event may overtake.
  `McpLifecycle` is the state machine with its run theorems, `McpHistory` reads the state after a run
  off the calls made, `McpManager` is the class whose methods refine the events, `McpTools` the tool
  names and the tools a snapshot exposes.
- `StdioProtocol`, `StdioHistory`, `StdioTransport`: matching JSON-RPC responses to waiting requests
  through the pending table, with timeouts, write failures, dropped futures and shutdown.
- `SlugDistance`: the two-row edit distance and the suggestions built on it.
- `SkillsRegistry`, `SkillTraversal`, `SkillScoring`, `SkillFile`, `SkillsManifest`, `QueryTerms`,
  `XmlEscape`: skill discovery, frontmatter splitting, scoring, selection under budgets, tokenizing,
  ranking, rendering and escaping.
- `EngineSink`: per-conversation buffers of tool activities and queued follow-ups.
- `MemoryTable`, `MemoryStore`: the namespaced TTL store.
- `BackgroundTasks`, `ShellQuote`: bounded task retention; quoting of paths for a POSIX shell.
- `Base`, `Sorting`, `Text`: shared vocabulary. `Sorting.StableSort` stands for the library's stable
  sort; `Sorting.StableSortIsUnique` shows that any stable sort computes it.

## Where the code and its documentation part ways

The model follows the code. Where keeping the promise depends on a condition, that condition is
proved exact, in both directions; where it cannot be met, a run or input shows it.

- A server can stay `Connecting` with nothing in flight (and then refuses every connect) exactly
  when `start_health_loop` replaces a loop that owns the server's only attempts
  (`McpLifecycle.StepStrandsExactly`). The comments call the replacement idempotent; in
  `McpLifecycle.ReplacingALiveLoopStrands` a loop whose ping failed is replaced while it reconnects.
- Later scan directories are documented to shadow earlier ones. With distinct names and a provenance
  of its own, the last one does so in full exactly when its skills number at most 100 less the names
  found before it; shadowing skills use up that room although they add no name
  (`SkillsRegistry.LastTierShadowsExactly`).
- `get_full` is documented as respecting a TTL in seconds, but the expiry text (`…T…`) is compared
  with SQLite's `datetime('now')` (date, space, time): an entry is readable exactly until the
  date passes the date of its expiry (`MemoryStore.EntriesExpireByDate`).
- Tags read back as written exactly when all are non-empty, trimmed and comma-free
  (`MemoryStore.TagsRoundTrip`).
- `find_closing_delimiter` returns the start of the closing line exactly when no CRLF line precedes
  it; otherwise it is short by one byte per such line (`SkillFile.ClosingOffsetIsExact`). Then the
  slice panics, exactly when the cut falls inside a character, or else the YAML reader gets a
  shortened header and the prompt still has the closing `---` in it (`SkillFile.SplitOfAnyText`,
  `SkillFile.CrlfFileFaults`).
- `collect_entries` respects `max_entries` exactly when it is at least 1 or no builtin row exists
  (`SkillsManifest.CapRespectedExactly`).
- Learned skills are fetched before they are filtered, and with a bias no more than 200 of them. The
  space left is used up whenever enough skills match exactly when it is zero, or when no workspace
  filter applies and the bias is Balanced or the space at most 200
  (`SkillsManifest.WindowSufficesExactly`).
- `parse_mcp_tool_name` inverts `prefixed_tool_name` exactly for non-empty server ids without `__`
  that do not end in `_`, and non-empty tool names (`McpTools.ParseInvertsPrefix`).
- Servers stay filed under their own ids exactly when `update_server` never changes the id inside
  a config (`McpTools.RunsKeepFiling`); its one caller never does. Without that filing, a server's
  allowlist is respected, whatever tools it lists, exactly when the one looked up under its key is
  as strict (`McpTools.AllowlistHoldsExactly`); `McpTools.MisfiledServerLosesItsAllowlist` is a run
  after which it is not.
- A sender is left behind in the pending table only by a dropped `send` future
  (`StdioProtocol.ReturnedCallsLeaveTheTable`, `StdioProtocol.CancelLeaks`).
- A task just created can be evicted when clock stamps tie or go back (`BackgroundTasks.NewTaskSurvives`
  gives the exact condition); `create` then panics.
- The comment on `shell_quote_path` restricts it to ordinary paths; the round trip holds for every string.

## Model

| member | source | states |
|---|---|---|
| McpLifecycle.StepKeepsInvariant | src-tauri/src/mcp.rs:2242-2320 | every locked section keeps: Connected has a connection and no error, Connecting has no error, Disconnected has no connection, stored tools carry their server's key, an installed connection comes from a succeeded attempt of that server |
| McpLifecycle.RunsKeepInvariant | src-tauri/src/mcp.rs:2737-2955 | that invariant in every state of every interleaving of prepare, commit, disconnect, reconnect, restart, remove, add, refresh and error reports |
| McpLifecycle.AttemptsAreConserved | src-tauri/src/mcp.rs:2741-2897 | per server and at every point of every run, ConnectAttempt rows = success rows + failure rows + attempts in flight + attempts cancelled by a loop abort |
| McpLifecycle.OutcomesFollowAttempts | src-tauri/src/mcp.rs:309-327 | in every prefix of the audit table, a server's outcome rows never outnumber its attempt rows |
| McpLifecycle.OnlyAddAndRemoveChangeServers | src-tauri/src/mcp.rs:2086-2253 | which servers exist is decided by the add and remove calls alone; a late commit or report never brings back a removed id |
| McpLifecycle.StepStrandsExactly | src-tauri/src/mcp.rs:2411-2429 | if and only if: a section leaves a server Connecting with no attempt in flight exactly when it replaces the health loop owning all of that server's attempts |
| McpLifecycle.ConnectingHasAnAttempt | src-tauri/src/mcp.rs:2741-2766 | in every run without such a replacement, Connecting always has an attempt in flight |
| McpLifecycle.ReplacingALiveLoopStrands | src-tauri/src/mcp.rs:2411-2525 | a concrete run: connect, start the loop, a ping fails, the loop reconnects, start the loop again; it ends Connecting with nothing in flight and with the next connect refused |
| McpHistory.HistoryDecides | src-tauri/src/mcp.rs:2242-2955 | after every run each server's status, error, connection, tools and config are those given by the last call that speaks of them |
| McpHistory.NothingLeftAfterDisconnect | src-tauri/src/mcp.rs:2387-2402 | right after a disconnect, or the first section of a restart, the server has no transport, no health loop, no error and no listed tool, and is Disconnected |
| McpHistory.LoopIsAsTold | src-tauri/src/mcp.rs:2411-2429 | a server has a health loop if and only if one was started after the last disconnect, restart or removal |
| McpHistory.PhasesAreTold | src-tauri/src/mcp.rs:2741-2897 | an attempt has succeeded or failed if and only if it committed so; it is in flight under a task only while that task lives, and cancelled only when it is gone |
| McpHistory.AuditIsTold | src-tauri/src/mcp.rs:2242-2955 | per server and kind, one audit row for each commit, failed ping, disconnect, restart and removal, known server or not |
| McpManager.McpManager.AddServer | src-tauri/src/mcp.rs:2086-2102 | refines the add event, refuses an existing id, keeps the invariant |
| McpManager.McpManager.UpdateServer | src-tauri/src/mcp.rs:2255-2264 | only the config of a known server changes |
| McpManager.McpManager.RemoveServer | src-tauri/src/mcp.rs:2242-2253 | refines the remove event: aborts the loop, audits, drops the server, returns its config |
| McpManager.McpManager.StopHealthLoop | src-tauri/src/mcp.rs:2424-2429 | removes the handle and cancels exactly the attempts that task owned and had in flight |
| McpManager.McpManager.StartHealthLoop | src-tauri/src/mcp.rs:2411-2422 | aborts any loop of the server and files a fresh live one |
| McpManager.McpManager.Prepare | src-tauri/src/mcp.rs:2741-2766 | refines the prepare event; succeeds iff the server exists and is not Connecting, else changes nothing |
| McpManager.McpManager.CommitOk | src-tauri/src/mcp.rs:2849-2885 | audits a success; a server still there becomes Connected without error, with this connection and exactly the tools found |
| McpManager.McpManager.CommitErr | src-tauri/src/mcp.rs:2886-2900 | audits a failure; a server still there becomes Error with the message and keeps tools and connection |
| McpManager.McpManager.DefineTools | src-tauri/src/mcp.rs:2855-2864 | every stored definition carries the server's key and the remote tool's own fields, in order |
| McpManager.McpManager.DisconnectServer | src-tauri/src/mcp.rs:2387-2402 | a known server keeps its config and is otherwise as new: Disconnected, no connection, tools or error; the loop is aborted, a row written even for an unknown id, and no other server changes |
| McpManager.McpManager.BeginReconnect | src-tauri/src/mcp.rs:2912-2925 | the connection goes and the server is Disconnected; tools and error stay, no row is written, no other server changes |
| McpManager.McpManager.BeginRestart | src-tauri/src/mcp.rs:2932-2948 | the same outcome as a disconnect, before the new connect |
| McpManager.McpManager.RefreshTools | src-tauri/src/mcp.rs:2569-2595 | refines a refresh; succeeds iff a connection is installed |
| McpManager.McpManager.SetError | src-tauri/src/mcp.rs:2302-2320 | a message makes the server Error, None only clears the message; nothing else changes |
| McpManager.McpManager.ReportHealthFailure | src-tauri/src/mcp.rs:2486-2501 | refines the section after a failed ping: error and audit row together |
| McpTools.ExposedToolsHaveTransports | src-tauri/src/mcp.rs:2334-2340 | in every reachable state each tool `all_tools` exposes belongs to a server with an installed transport |
| McpTools.ParseInvertsPrefix | src-tauri/src/mcp.rs:1771-1789 | parsing a prefixed name gives its parts if and only if both are non-empty and the id has no `__` and no final `_` |
| McpTools.PrefixInvertsParse | src-tauri/src/mcp.rs:1780-1789 | whatever parses is the prefixed form of its parts |
| McpTools.PrefixIsInjective | src-tauri/src/mcp.rs:1771-1773 | over such ids the prefixed name determines server and tool |
| McpTools.StepKeepsFiling | src-tauri/src/mcp.rs:2255-2264 | servers stay filed under their config's id if and only if no update changes that id |
| McpTools.RunsKeepFiling | src-tauri/src/mcp.rs:2255-2264 | servers are filed under their own ids throughout a run if and only if they are loaded so and no update of a known server changes the id |
| McpTools.ProxiesCoverAllowedTools | src-tauri/src/mcp.rs:2675-2714 | with every server filed under its own id, the proxies are exactly the allowlisted tools of connected servers, with that server's approval flag and the prefixed name |
| McpTools.ReachableProxiesCoverAllowedTools | src-tauri/src/mcp.rs:2675-2714 | the same after every run from configs loaded under their own ids in which no update changes an id |
| McpTools.MetaIsLastCarrier | src-tauri/src/mcp.rs:2679-2690 | the allowlist looked up under an id is that of the last server enumerated whose config carries the id |
| McpTools.AllowlistHoldsExactly | src-tauri/src/mcp.rs:2675-2714 | a connected server's allowlist is respected, whatever tools a refresh brings, if and only if it has none or the one looked up under its key exists and admits no more |
| McpTools.MisfiledServerLosesItsAllowlist | src-tauri/src/mcp.rs:2255-2264 | for any config and any tool its allowlist hides: a run of connect and an update to another id exposes the tool |
| McpTools.ProxyNamesAreDistinct | src-tauri/src/mcp.rs:2675-2714 | with clean ids and tool names distinct per server, no two proxies share a name |
| StdioProtocol.StepKeepsInvariant | src-tauri/src/mcp.rs:758-825 | a call's sender is in the table, used or dropped, exactly one of the three, after every step |
| StdioProtocol.AnswersAreTheirOwn | src-tauri/src/mcp.rs:815-825 | a returned answer is the first response bearing the call's id that the reader handled since the call registered |
| StdioProtocol.NoFrameAnswersTwice | src-tauri/src/mcp.rs:815-825 | no frame is delivered to two calls |
| StdioProtocol.NobodyWaitsForNothing | src-tauri/src/mcp.rs:905-970 | every call is in the table if and only if it neither holds its response nor lost its sender |
| StdioProtocol.ReturnedCallsLeaveTheTable | src-tauri/src/mcp.rs:915-970 | an entry in the table belongs to a call still open or to a dropped future |
| StdioProtocol.ReturnedIdIsGone | src-tauri/src/mcp.rs:1625-1627 | with the connection's distinct ids, a returned call's id is no longer in the table |
| StdioProtocol.CancelLeaks | src-tauri/src/mcp.rs:905-970 | dropping a waiting future leaves its id in the table |
| StdioProtocol.StrayFramesChangeNothing | src-tauri/src/mcp.rs:766-825 | a frame changes nothing but the log if and only if it is not a response with a pending id |
| StdioProtocol.LateDuplicatesChangeNothing | src-tauri/src/mcp.rs:815-825 | a second response to an answered call changes nothing |
| StdioProtocol.ReturnsAreFinal | src-tauri/src/mcp.rs:941-970 | a call that has returned keeps its result under every later step |
| StdioProtocol.ClosedMeansShutdown | src-tauri/src/mcp.rs:942-955 | with distinct ids no call fails as closed unless shutdown cleared the table |
| StdioHistory.RunsAreTold | src-tauri/src/mcp.rs:758-990 | after every run the events alone decide each call's id, what its channel holds and its phase: waiting if and only if written and neither resolved, timed out nor dropped; failed in each way if and only if the event of that failure happened |
| StdioHistory.FailedWriteIsFinal | src-tauri/src/mcp.rs:911-926 | after a failed write a call never waits and ends with that error, its id gone, or is dropped |
| StdioHistory.AnsweredExactly | src-tauri/src/mcp.rs:815-955 | a call returns frame k if and only if it resolves and the first event concerning its id since it registered was response k |
| StdioTransport.StdioTransport.Register | src-tauri/src/mcp.rs:902-908 | files the call's sender under its id, dropping a sender already there |
| StdioTransport.StdioTransport.FinishWrite | src-tauri/src/mcp.rs:911-926 | a written request waits; a failed write decides the write error at once, the entry still in the table; no other call changes |
| StdioTransport.StdioTransport.HandleFrame | src-tauri/src/mcp.rs:758-825 | delivers if and only if the frame is a response with a pending id, and removes that entry |
| StdioTransport.StdioTransport.Await | src-tauri/src/mcp.rs:940-955 | an answer is the first one for the call's id; otherwise the closed error is decided |
| StdioTransport.StdioTransport.Expire | src-tauri/src/mcp.rs:956-968 | the timeout decides the error and nothing else |
| StdioTransport.StdioTransport.RemoveAndFail | src-tauri/src/mcp.rs:919-968 | each error path removes the id and returns its own error |
| StdioTransport.StdioTransport.ClearPending | src-tauri/src/mcp.rs:984-987 | shutdown drops every waiting sender, so no call is left with an empty channel |
| SlugDistance.SlugDistance | src-tauri/src/mcp.rs:1521-1539 | the two swapped rows compute the edit-distance recurrence |
| SlugDistance.DistanceIsShortestScript | src-tauri/src/mcp.rs:1521-1539 | the distance is the minimum length over all scripts of insertions, deletions and substitutions, and is attained |
| SlugDistance.DistanceIsMetric | src-tauri/src/mcp.rs:1521-1539 | zero iff equal, and symmetric |
| SlugDistance.TriangleInequality | src-tauri/src/mcp.rs:1521-1539 | the triangle inequality |
| SlugDistance.SuggestPageSlugs | src-tauri/src/mcp.rs:1432-1445 | returns the three least candidates in (distance, slug) order, all of them if fewer |
| SlugDistance.ListedSlugsSpec | src-tauri/src/mcp.rs:1432-1436 | from a listing with one page a line, slug first, exactly the slugs that are not blank are read, in order |
| QueryTerms.PushAsciiWord | src-tauri/src/skills_manifest.rs:169-175 | emits the word iff it has at least two characters, and clears it |
| QueryTerms.PushCjkRun | src-tauri/src/skills_manifest.rs:177-189 | emits all adjacent pairs, and the run itself if its length is 2 to 4 |
| QueryTerms.CollectTerms | src-tauri/src/skills_manifest.rs:194-212 | one pass finds exactly the maximal ASCII runs of length at least 2, the adjacent CJK pairs and the maximal CJK runs of length 2 to 4 |
| QueryTerms.ExtractQueryTerms | src-tauri/src/skills_manifest.rs:194-214 | exactly those terms, each once, in string order |
| QueryTerms.TermsAroundSeparator | src-tauri/src/skills_manifest.rs:200-211 | the terms of a text with a separator are the union of the terms of its two sides |
| SkillsManifest.ListBuiltin | src-tauri/src/skills_manifest.rs:269-304 | the builtin loop yields the admitted rows, cut at the cap but never before the first |
| SkillsManifest.RankLearned | src-tauri/src/skills_manifest.rs:316-433 | fetch, filter, score, conditional sort and cut equal always sorting the candidates stably and cutting |
| SkillsManifest.CollectEntries | src-tauri/src/skills_manifest.rs:258-441 | the first rows show the enabled, available skills passing the filter, each once, in name order, up to the cap; the rest, if space is left, are as many passing fetched learned skills as it allows, best first |
| SkillsManifest.CollectedSpec | src-tauri/src/skills_manifest.rs:258-441 | the same of the specified selection, for every cap |
| SkillsManifest.CapRespectedExactly | src-tauri/src/skills_manifest.rs:301-304 | the result has at most `max_entries` rows if and only if the cap is at least 1 or there is no builtin row |
| SkillsManifest.SkippingTheSortIsSorting | src-tauri/src/skills_manifest.rs:426-431 | without bias, query or boost, skipping the sort gives the sorted list |
| SkillsManifest.BuiltinRowsSpec | src-tauri/src/skills_manifest.rs:274-300 | the builtin rows are exactly the enabled skills passing the filters, in name order |
| SkillsManifest.HashOrderDoesNotShow | src-tauri/src/skills_manifest.rs:274-279 | with distinct names the hash map's order does not affect the rows |
| SkillsManifest.LearnedRowsSpec | src-tauri/src/skills_manifest.rs:306-438 | the learned rows show min(space, fetched skills passing the workspace filter) different skills; each has a larger bonus, or the same and an earlier place, than every later row and every passing skill left out; the title stands in for a missing summary |
| SkillsManifest.WorkspaceFilterSpec | src-tauri/src/skills_manifest.rs:122-143 | a skill is left out if and only if both it and the workspace have tags and share none; a further workspace tag only admits more |
| SkillsManifest.BonusOrder | src-tauri/src/skills_manifest.rs:382-432 | without boosts skills rank by the number of query terms they contain, at most four counting, with the bias category worth two terms |
| SkillsManifest.BonusCounts | src-tauri/src/skills_manifest.rs:388-426 | in quarters: 12 for the bias category, 6 for each of up to four terms, 3 for each place from the first boost of the skill to the end |
| SkillsManifest.RowsReadTheWindow | src-tauri/src/skills_manifest.rs:320-329 | the learned rows depend on no more than the space left, or twice that up to 200 with a bias, of the store's order |
| SkillsManifest.SemanticBonusSpec | src-tauri/src/skills_manifest.rs:408-412 | a boost weighs something exactly for the listed skills, and an earlier one more than any later one |
| SkillsManifest.WindowSufficesExactly | src-tauri/src/skills_manifest.rs:306-358 | for every filter: the space left is used up, matching skills permitting, if and only if it is zero, or no workspace filter applies and the bias is Balanced or the space at most 200 |
| SkillsManifest.BiasReachesTwiceTheSpace | src-tauri/src/skills_manifest.rs:308-325 | given a bias, the best-scored skill among the first 200 within twice the space leads the learned rows |
| SkillsManifest.TruncateSummarySpec | src-tauri/src/skills_manifest.rs:538-550 | a long summary is cut at the last whitespace within the limit, or at the limit if there is none |
| SkillsManifest.LineDeterminesEntry | src-tauri/src/skills_manifest.rs:514-523 | names being free of `*`, a line determines name, provenance, citation count and summary |
| SkillsManifest.LineExample | src-tauri/src/skills_manifest.rs:514-523 | the shape of a line, with and without citations |
| Text.ByteLenIsEncodedLength | src-tauri/src/skills_manifest.rs:511-530 | the lengths compared with the budget are those of the UTF-8 encoding (section 3 of RFC 3629) |
| Text.StrLeIsLexicographic | src-tauri/src/skills_manifest.rs:279 | names are ordered as a prefix first, else by the first differing character |
| SkillsManifest.HeaderTellsBias | src-tauri/src/skills_manifest.rs:497-506 | the header of a bias says that skills tagged with its category come first |
| SkillsManifest.FormatManifest | src-tauri/src/skills_manifest.rs:496-536 | nothing, or header, k lines and footer; j lines are within k if and only if they fit with header and footer in four bytes per token |
| SkillsManifest.FitCountIsLongest | src-tauri/src/skills_manifest.rs:512-528 | a prefix of the lines fits the byte budget if and only if it is no longer than the emitted one |
| SkillsManifest.RenderedFits | src-tauri/src/skills_manifest.rs:509-535 | the manifest never exceeds four bytes per token |
| SkillsManifest.LargerBudgetExtends | src-tauri/src/skills_manifest.rs:509-528 | a larger budget only extends the emitted lines |
| SkillsRegistry.DiscoverFromDir | src-tauri/src/skills.rs:793-864 | the capped search returns the first `cap` skills of the full depth-limited traversal, and terminates on any directory graph, cyclic or not |
| SkillsRegistry.DiscoverEntry | src-tauri/src/skills.rs:824-860 | one directory entry: hidden names, non-directories and unreadable names contribute nothing |
| SkillsRegistry.DiscoveryFindsExactly | src-tauri/src/skills.rs:793-864 | a skill is found if and only if at most depth + 1 steps through visible directories, none but the last holding a skill file, lead to it |
| SkillTraversal.TraversalInOrder | src-tauri/src/skills.rs:793-864 | a traversal lists one skill for each trail that leads to one, in depth-first order of their places in the listings |
| SkillsRegistry.ScanIsCapped | src-tauri/src/skills.rs:736-770 | a scan adds at most 100 new names, whatever the directories hold |
| SkillsRegistry.LastOccurrenceWins | src-tauri/src/skills.rs:749-766 | each name ends up with its last occurrence |
| SkillsRegistry.ScanProvenance | src-tauri/src/skills.rs:737-748 | every skill found comes from one scan directory and carries its provenance |
| SkillsRegistry.ScanIsItsShares | src-tauri/src/skills.rs:736-770 | each tier adds as much of its traversal as 100 less the names found before it, no less |
| SkillsRegistry.ScanIsWholeExactly | src-tauri/src/skills.rs:736-770 | a scan takes all tiers in full if and only if each fits in that room |
| SkillsRegistry.SmallTreesFit | src-tauri/src/skills.rs:736-770 | tiers with at most 100 skills together are all taken in full |
| SkillsRegistry.RegisteredExactly | src-tauri/src/skills.rs:736-770 | a name is registered if and only if some tier's share has it, and it comes from the last tier whose share does |
| SkillsRegistry.RegisteredIsOnDisk | src-tauri/src/skills.rs:736-864 | every registered name has a trail on disk; when each tier fits, a name is registered if and only if it has one |
| SkillsRegistry.LastTierShadowsExactly | src-tauri/src/skills.rs:726-770 | all skills of the last tier replace their namesakes if and only if the tier fits in its room, new names or not |
| SkillsRegistry.SkillsRegistry.Discover | src-tauri/src/skills.rs:732-780 | inserts exactly the scan, tier by tier, and returns its names in order |
| SkillsRegistry.SkillsRegistry.InsertFound | src-tauri/src/skills.rs:749-770 | inserts one tier and counts the names that were new |
| SkillsRegistry.SkillsRegistry.Reload | src-tauri/src/skills.rs:783-790 | at most 100 skills; the disabled set survives; a name is enabled iff rediscovered and not disabled before; registered names are on disk, and when every tier fits, a name is enabled iff it is on disk and was not disabled |
| SkillsRegistry.SkillsRegistry.AddScanDir | src-tauri/src/skills.rs:508-512 | appends a directory unless it is already listed |
| SkillsRegistry.SkillsRegistry.Enable | src-tauri/src/skills.rs:538-546 | re-enables a registered skill, ignores others |
| SkillsRegistry.SkillsRegistry.Disable | src-tauri/src/skills.rs:549-557 | disables a registered skill, ignores others |
| SkillsRegistry.ScoreSkill | src-tauri/src/skills.rs:365-412 | the three loops compute the capped sums |
| SkillsRegistry.ScoreSpec | src-tauri/src/skills.rs:365-412 | at most 85; zero under a veto; positive if and only if unvetoed and some keyword or tag occurs or some pattern matches |
| SkillScoring.ExactWordMeans | src-tauri/src/skills.rs:382-386 | the exact-match test succeeds if and only if some stretch between whitespace, trimmed of what is not alphanumeric, is the keyword |
| SkillScoring.ScoreCounts | src-tauri/src/skills.rs:365-412 | without a veto: 10 per keyword that is a word plus 5 per keyword that only occurs inside, at most 30; 3 per occurring tag, at most 15; 20 per matching pattern, at most 40 |
| SkillScoring.WordBeatsSubstring | src-tauri/src/skills.rs:382-389 | a skill with one keyword that is a word of the message outscores one whose only hit is a keyword inside a word |
| SkillScoring.CostIs | src-tauri/src/skills.rs:628-635 | a skill costs what it declares, at least one, or a quarter of its prompt's bytes when those reach eight times the declaration plus four |
| SkillsRegistry.PickWithinBudget | src-tauri/src/skills.rs:621-641 | the loop with its break computes the greedy choice |
| SkillsRegistry.GreedySpec | src-tauri/src/skills.rs:621-641 | within count and budget, best scores first, and whatever is left out no longer fits or the count limit was reached |
| SkillsRegistry.GreedyLeavesOut | src-tauri/src/skills.rs:621-641 | a skill left out scores no more than every pick before its turn and no less than every pick after it, and at its turn the slots were taken or it cost more than was left |
| SkillsRegistry.SkillsRegistry.MatchSkills | src-tauri/src/skills.rs:598-644 | for every hash-map order: at most 3 enabled positive-score skills, none twice, non-increasing scores, total cost within 4000; a matching skill left out met full slots or too little budget at its turn in score order |
| SkillFile.FindClosingDelimiter | src-tauri/src/skills.rs:331-340 | the loop returns the sum of line lengths plus one per line before the first line that trims to `---` |
| SkillFile.ClosingOffsetIsExact | src-tauri/src/skills.rs:331-340 | None iff no such line; the offset plus the CRLF lines before it is the line's start, so they agree if and only if there are none |
| SkillFile.DelimiterMeans | src-tauri/src/skills.rs:331-336 | a line is a delimiter if and only if it is three dashes among whitespace |
| SkillFile.PlainFileSplits | src-tauri/src/skills.rs:263-314 | for any BOM, leading line ends, opening line, LF header, closing line and body, exactly the header reaches the YAML reader and the prompt is the body without leading newlines |
| SkillFile.DashedFileSplits | src-tauri/src/skills.rs:263-314 | the same for `---`, header, `---`, body |
| SkillFile.SplitsOnlyPlainFiles | src-tauri/src/skills.rs:263-314 | conversely every file that splits, with no CRLF line before the delimiter, has that form and those parts |
| SkillFile.SplitOfAnyText | src-tauri/src/skills.rs:280-340 | any text with a delimiter line: the header reaches the YAML reader as it is if and only if no CRLF line precedes the delimiter; otherwise the slice panics if and only if the cut falls inside a character, and else the prompt keeps the closing line |
| SkillFile.CrlfFileFaults | src-tauri/src/skills.rs:280-340 | a concrete file with two CRLF lines on which the slice panics |
| XmlEscape.SequentialIsPerChar | src-tauri/src/skills.rs:718-724 | five whole-string replacements equal one substitution per character |
| XmlEscape.EscapeXmlRoundTrip | src-tauri/src/skills.rs:718-724 | decoding the predefined entities gives back the input, escaping is injective, and no raw markup or quote character is left |
| EngineSink.BufferKnowsLastStart | src-tauri/src/engine_sink.rs:340-347 | the input a result copies is that of the most recent start with its call id since the last drain, else null |
| EngineSink.BufferIsSinceDrain | src-tauri/src/engine_sink.rs:89-98 | the buffer is the stream of entries since the last drain |
| EngineSink.ActivitiesAreConserved | src-tauri/src/engine_sink.rs:316-365 | per conversation, drained batches followed by the buffer are the whole stream of start and result entries |
| EngineSink.FollowupsAreConserved | src-tauri/src/engine_sink.rs:221-236 | per conversation, dispatched follow-ups then queued ones are everything queued, in order |
| EngineSink.CompletionDrainsAndSends | src-tauri/src/engine_sink.rs:545-562 | a completed turn with text and a store leaves nothing buffered, everything drained, and sends the oldest waiting follow-up |
| EngineSink.NoEmptyQueues | src-tauri/src/engine_sink.rs:228-235 | no empty queue stays in the map |
| EngineSink.TauriEventSink.AccumulateToolActivity | src-tauri/src/engine_sink.rs:316-365 | a start or result with a call id appends exactly its entry, the result with the input of the last entry of its call; anything else appends nothing; no other conversation changes |
| EngineSink.TauriEventSink.FindInput | src-tauri/src/engine_sink.rs:342-347 | the backward search finds the last entry with the call id |
| EngineSink.TauriEventSink.PersistAssistant | src-tauri/src/engine_sink.rs:45-98 | drains iff conversation, text and store are there; the batch is the whole buffer |
| EngineSink.TauriEventSink.QueuePiFollowup | src-tauri/src/engine_sink.rs:1081-1087 | appends to the conversation's queue |
| EngineSink.TauriEventSink.DispatchPiFollowup | src-tauri/src/engine_sink.rs:221-237 | takes the oldest follow-up and removes an emptied queue |
| EngineSink.TauriEventSink.EmitComplete | src-tauri/src/engine_sink.rs:553-562 | with the engine enabled, the buffer is drained if there is text and a store, and the oldest follow-up sent if one waits; otherwise nothing happens |
| MemoryTable.RunsRefineMap | src-tauri/src/memory.rs:136-259 | after any run of statements the table is the plain map from (space, namespace, key) run alongside |
| MemoryTable.PresenceKeepsIdentity | src-tauri/src/memory.rs:146-172 | while a key stays present its id and creation time never change |
| MemoryTable.InsertionIsFresh | src-tauri/src/memory.rs:146-157 | a key appears only by a set, with that set's id, time and contents |
| MemoryTable.RowByHistory | src-tauri/src/memory.rs:136-259 | after any run a present row has the id and creation time of the set that inserted it, kind, tags, metadata and expiry of the last set, value and update time of the last set or update |
| MemoryTable.PruneIsInvisible | src-tauri/src/memory.rs:448-459 | pruning at t changes no `get_full`, `search_full` or `list_filtered` at t or later until the next write |
| MemoryTable.SelectSpec | src-tauri/src/memory.rs:270-397 | a page lists only live matching rows, newest first, and a wide enough page lists them all |
| MemoryTable.SearchAgreesWithGet | src-tauri/src/memory.rs:270-337 | a search finds an entry if and only if `get_full` answers with it, its key, value or tags match, and it lies in the namespace, space and kind asked for |
| MemoryTable.ListAgreesWithGet | src-tauri/src/memory.rs:339-397 | a listing has at most as many entries as its limit, by default 100; from the start and with a limit covering the table it has an entry if and only if `get_full` answers with it and the filter admits it |
| MemoryTable.PagesJoin | src-tauri/src/memory.rs:339-397 | consecutive pages neither lose nor repeat an entry |
| MemoryStore.TagsRoundTrip | src-tauri/src/memory.rs:563-573 | tags survive the text column if and only if all are non-empty, trimmed and comma-free |
| MemoryStore.EntriesExpireByDate | src-tauri/src/memory.rs:208-218 | an entry is readable if and only if the clock's date has not passed the date of its expiry |
| MemoryStore.GetAfterSet | src-tauri/src/memory.rs:136-218 | after a set a read answers if and only if the entry has not expired, with the value, kind, metadata and times given and the first id and creation time, and with the tags given if and only if they are clean |
| MemoryStore.MemoryStore.SetFull | src-tauri/src/memory.rs:136-200 | stores and returns exactly what was given, under the id and creation time of an existing row, and changes no other key |
| MemoryStore.MemoryStore.GetFull | src-tauri/src/memory.rs:208-218 | answers iff the plain map has the key and its row is live |
| MemoryStore.MemoryStore.UpdateValue | src-tauri/src/memory.rs:221-231 | changes value and update time of a present row, whatever its expiry, and nothing else; true iff it was present |
| MemoryStore.MemoryStore.DeleteWhere | src-tauri/src/memory.rs:239-261 | each delete statement removes exactly its rows and returns their number |
| MemoryStore.MemoryStore.DeleteFull | src-tauri/src/memory.rs:239-250 | true iff the key was present; exactly that key goes |
| MemoryStore.MemoryStore.DeleteById | src-tauri/src/memory.rs:253-260 | removes exactly the rows with the id; true iff there was one |
| MemoryStore.MemoryStore.PruneExpired | src-tauri/src/memory.rs:448-459 | removes exactly the expired rows |
| MemoryStore.MemoryStore.ClearNamespace | src-tauri/src/memory.rs:464-481 | removes exactly the keys of the namespace, in one space or in all |
| MemoryStore.MemoryStore.ClearSpace | src-tauri/src/memory.rs:484-494 | removes exactly the keys of the space |
| MemoryStore.MemoryStore.SearchFull | src-tauri/src/memory.rs:270-336 | the conditions collected one by one amount to the search specified |
| MemoryStore.MemoryStore.ListFiltered | src-tauri/src/memory.rs:339-397 | likewise for the listing, with its default limit and offset |
| MemoryStore.MemoryStore.Query | src-tauri/src/memory.rs:308-330 | runs the statement with all collected conditions and decodes its rows in order |
| MemoryStore.MemoryStore.BulkImport | src-tauri/src/memory.rs:512-530 | an import is the left fold of the sets of the entries that do not fail, in order, and imported plus skipped is the number of entries |
| BackgroundTasks.BackgroundTaskManager.Cleanup | src-tauri/src/background.rs:116-125 | terminates with the newest tasks up to the limit, ties broken any way |
| BackgroundTasks.BackgroundTaskManager.Create | src-tauri/src/background.rs:60-66 | whatever the clock, keeps the newest tasks and returns the new one iff it is among them; with increasing stamps and fresh ids the map holds exactly the most recent 100 tasks ever created, the new one among them |
| BackgroundTasks.BackgroundTaskManager.SetStatus | src-tauri/src/background.rs:69-74 | updates one task and keeps the retention invariant |
| BackgroundTasks.BackgroundTaskManager.SetProgress | src-tauri/src/background.rs:77-82 | updates one task and keeps the retention invariant |
| BackgroundTasks.BackgroundTaskManager.Fail | src-tauri/src/background.rs:90-96 | records status and error of one task and keeps the retention invariant |
| BackgroundTasks.EvictionKeepsRecent | src-tauri/src/background.rs:116-125 | with increasing stamps every eviction order leaves exactly the most recent tasks |
| BackgroundTasks.NewTaskSurvives | src-tauri/src/background.rs:60-66 | without the clock assumption, the new task survives every tie-break if and only if there was room or some task is strictly older |
| ShellQuote.QuotedPathsReadBack | src-tauri/src/app.rs:1654-1661 | a line of quoted strings, read with the quoting rules of sections 2.2.1 and 2.2.2 of the POSIX Shell Command Language, is exactly those words |

## Left out

- Process spawning, pipes, HTTP, timers and task scheduling: an IO outcome is any outcome, and each lock-held section is one atomic step. `shutdown` of a transport is infallible, as it is for all three transports.
- A health-loop abort takes effect at once in the model; a task being polled at that instant could still run up to its next suspension point.
- `set_status`, `set_tools` and `disconnect_all` of the manager, which nothing calls; the seeding calls, `set_enabled` and `set_auto_approve`, which are updates of a config under the same id.
- Writing `mcp_servers.json`, the redaction of messages, and the best-effort nature of audit writes: the audit table is assumed to be installed and to accept rows.
- The ping and backoff arithmetic of the health loop: its sections appear as events that may happen at any time while the task is live.
- JSON-RPC notifications sent by the client (no id, no table entry) and forwarding of server notifications: neither touches the pending table.
- `McpLifecycle.Reconnect`, `Restart` and `DisconnectServer` do not promise that a server stays disconnected: a commit of an attempt already in flight sets Connected again.
- SQLite, JSON, YAML, regular expressions, Unicode lowercasing and the gbrain CLI: opaque parameters or values. Rows that tie on `updated_at` are taken in table order.
- `count` and `list_namespaces` of the memory store, which filter differently from the other reads; `export`, a `list_filtered` with another default limit.
- The classification of managed Playwright skills and the embedding search: a flag and a list of ids.
- Skill names, activation limits, parameters and slash commands after the frontmatter is split; manual `register` and `unregister`.
- Storing messages, costs, reflections and preferences in the event sink; for a chat conversation the drained batch is not stored.
- `normalize_skill_title`, `redact_env_values`, `classify_gbrain_cli_failure`, notifications, settings, git commands and the user interface: no property beyond their own bodies.
