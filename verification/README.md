# Verified models of WUPHF's hard core

WUPHF is an operator's office: agents author small tools and workflows, a browser runner
drives applications, a terminal UI shows the feed, and a benchmark measures the wiki's
retrieval. This project models, in Dafny, the parts of it whose correctness is hard to see
from any one function, and proves what they promise over every input, every run and every
interleaving. `dafny verify dfyconfig.toml` checks all of it.

| file | models |
|---|---|
| `ToolRpc.dfy`, `ToolResults.dfy`, `ToolRuntime.dfy` | the tool run: a host and a worker isolate exchange numbered capability calls while a timer, a worker error, a gated call and the tool's own result race to settle the run; what its replies, calls and result say about the events; the objects that hold that state; the composed deadline |
| `CapabilityTree.dfy` | the capability tree printed to dotted paths and rebuilt as proxies |
| `ComputerUse.dfy`, `ComputerUseSteps.dfy`, `ComputerUseGate.dfy`, `ComputerUseExact.dfy` | the computer-use runner: record live, replay by role and label, heal, gate the sends; what each step does; exactly when a replay does what was recorded |
| `RenderCache.dfy`, `KeyStream.dfy` | the bounded render cache and its hashed key streams |
| `Threads.dfy`, `ThreadOrder.dfy`, `Viewport.dfy`, `FeedSession.dfy` | the thread layout and its order, the virtualized feed built over the cache with the code's own keys, and whole sessions of it |
| `ExtractJson.dfy`, `EventStream.dfy` | pulling a JSON object out of model text; the incremental event-stream reader |
| `Sniff.dfy`, `SniffFacts.dfy`, `Executor.dfy` | captured traffic to a redacted, gated workflow; running it under growing approvals |
| `AgentStore.dfy`, `AgentUpdates.dfy`, `AgentUpserts.dfy`, `AgentQuarantine.dfy` | the per-agent file store at the level of inodes and renames, with any number of processes and crashes; concurrent updates of one file, as schedules and as system calls; what a quarantine moves aside |
| `CorpusPlan.dfy`, `CorpusIndex.dfy`, `CorpusRun.dfy` | the benchmark corpus generator: plan, indexes, queries, validation |
| `PartialMatch.dfy` | the eval matcher as a containment order on JSON trees |
| `Text.dfy`, `OrderedMap.dfy`, `Wrappers.dfy` | strings, insertion-ordered maps, `Option` |

How the models are built:

- A protocol is a list of events. A lemma over every list is a lemma over every
  interleaving; a process that crashes is one with no further events.
- The host handles one message together with the promise reactions it triggers at once:
  a gate's rejection settles the run before the next message is read.
- Code that changes state step by step is a method or a class whose contract equates the
  result or the new state with a specification function. What such a function computes is
  itself stated by lemmas that do not name it: over the list of events, the captured entries,
  the decoded frames, the order of the feed.
- `range` over a Go map picks its keys arbitrarily, so a proved contract holds for every
  iteration order.
- Regular expressions, hashes, JSON parsing, drawing, models, operators and HTTP replies are
  arbitrary functions; what is assumed of one stands in the `requires` that uses it.

## Where the code does less than it says

Each of these is proved: with its exact condition, with an input that shows it, or both.

- An approval loop re-issues calls. Every approval restarts the workflow from its first step,
  so a call ahead of a later gate goes out again, mutations included. `Executor.CallsRepeatExactly`
  gives the condition; for captured workflows it is that no request after the first mutates. In
  any world the first call of a halted run is repeated (`Executor.HaltedCallsGoOutAgain`), and in
  one that answers alike each time all of them are (`Executor.SteadyWorldRepeatsAll`).
- The threaded-layout key leaves out reactions, token usage and the threads marked collapsed.
  `KeyStream.ThreadedKeysExactly` says when two keys are equal. A changed reaction is one input on
  which the layout served is wrong (`FeedSession.ReactionsMissingFromKey`). As for collapsing: the
  operator's collapse deletes the entry, only the collapse-by-default pass writes a false one, and
  that marks thread roots alone (`FeedSession.FalseAreRoots`). So two frames with one key have one
  layout exactly when their maps agree on the thread roots among the messages
  (`FeedSession.SameKeyLayoutExactly`), and over a session the key determines the layouts exactly
  when all frames that expand by default agree so (`FeedSession.LayoutKeysExactly`); every frame of
  such a session is the full feed's tail (`FeedSession.RunSession`), whatever its changes of mode.
  An office session collapsed by default that switches to the one-to-one view, which expands by
  default over the same map, and resets its threads there is not one: the cache serves it a
  thread still collapsed (`FeedSession.StaleAfterModeSwitch`).
- The block key leaves out token usage (`FeedSession.UsageMissingFromBlockKey`), and tagged or
  participant lists enter it joined by commas.
  Apart from these, two different message blocks share one key stream exactly when one is an
  unread anchor with a numeric id whose participants read "0" or "1" (`KeyStream.BlockKeyDecodes`,
  `KeyStream.AmbiguousHasDouble`). The broker's ids are "msg-" and a number
  (`KeyStream.BrokerIdsArePlain`), and for such ids it never happens (`KeyStream.BlockKeysExactly`).
- A step is recorded by role and label, and those need not lead back to its element. On the same
  window, with approvals granted, the replay issues the recorded commands without a model call
  exactly when every index the live run clicked is found again by the role and label it had
  (`ComputerUseExact.RoundTripExactly`), and a healed trajectory replays unchanged exactly when every
  index the healer chose is (`ComputerUseExact.StableExactly`). The snapshot itself makes elements
  that are not: it labels every blank text field alike, so of two on one form the replay types into
  the first (`ComputerUseExact.TwoBlankFields`). A click on an index absent from the snapshot is
  never found again; where labels are stripped and no two elements share role and label it is the
  only such click, and the replay then calls the model (`ComputerUseExact.CleanRunExactly`,
  `ComputerUseExact.CleanRoundTripExactly`).
- A proxy call loses its capability exactly when a key leading to a function has a dot, or a
  function sits below an empty key at the root (`CapabilityTree.RoundTripExactly`). The flattened
  table loses a function exactly when two key sequences have one dotted path
  (`CapabilityTree.TableKeepsAllExactly`); a lone dotted key keeps its row.
- Updates of one agent's file from several processes are all kept exactly when no process stores
  between another's load and its store (`AgentUpdates.NoLostUpdateExactly`; at the level of system
  calls `AgentUpserts.SavedToolsKeptExactly`).
- A load of a corrupt file can move a good one aside: what its quarantine renames is the file as last
  published, which is the corrupt one exactly when nobody published between its lookup and its
  rename (`AgentQuarantine.QuarantineMovesExactly`, `AgentQuarantine.LateLoadsAreSafe`,
  `AgentQuarantine.GoodFileQuarantined`).
- A corpus plan has the distributed counts exactly when no quota is negative and phase 1 exceeds
  none (`CorpusPlan.PlanAsDistributedExactly`).
- A generated "contradiction" repeats the old company exactly when all ten draws and the fallback
  hit it (`CorpusIndex.GenState.BuildContradiction`), as in the two artifacts of
  `CorpusIndex.RepeatedContradiction`. A project artifact sends a moved person back to
  their first employer in `personCompany`, so a multi-hop answer can list a role at another
  company than the one asked about (`CorpusRun.JoinMatchesRoleExactly`,
  `CorpusRun.MovedChampionJoinsOldCompany`).
- A stream frame whose data is `null` fails the browser capability instead of being skipped
  (`EventStream.NullFrameFails`; `EventStream.StreamFailsExactly` has the condition), and a stored
  file holding `null` makes `load` throw (`AgentStore.NullFileThrows`,
  `AgentStore.LoadThrowsExactly`).

## Model

| member | source | states |
|---|---|---|
| ToolRpc.SettlesOnce | agent/src/toolRuntime.ts:231-239 | whatever settles a run first, no later interleaving changes its result or recorded actions, starts a capability or posts a reply, and the run signal is aborted |
| ToolRpc.SettledIsFinal | agent/src/toolRuntime.ts:244-268 | from any settled state, every further event list leaves result, actions, started functions and replies as they are |
| ToolRpc.SendGate | agent/src/toolRuntime.ts:148-156 | over every interleaving the action record is exactly the known calls handled, in order; a gated function starts only when approved; the run ends "needs approval" exactly when it handled a gated call unapproved, naming that call and carrying its arguments |
| ToolRpc.Conservation | agent/src/toolSandboxWorker.ts:84-102 | while unsettled, each id waiting in the worker is in exactly one of the request queue, the host's executing calls, the reply queue |
| ToolRpc.RepliesMatchCalls | agent/src/toolRuntime.ts:250-267 | no id resolves twice; each resolution of a known path carries the outcome with which the function started with exactly the path and arguments posted under that id first settled, a resolution in plain form and a rejection as a rejection with its detail, and an unknown path its refusal |
| ToolResults.RejectionsStayRejections | agent/src/toolRuntime.ts:250-267 | over every interleaving a promise on a known path is rejected exactly when its capability was, with the same detail, and resolved exactly when it was, with the plain form of its value; on an unknown path it is rejected, naming the path |
| ToolResults.ResultsAreEarned | agent/src/toolRuntime.ts:231-274 | over every interleaving the posted calls are the tool's, argument by argument in plain form; the run's result is what the tool returned, threw or was stopped by, or the gated call it stopped at; and the run signal is aborted exactly when the run has ended |
| ToolRuntime.Host.OnMessage | agent/src/toolRuntime.ts:244-268 | the host object's handler changes its state and emits replies and starts exactly as the protocol step says |
| ToolRuntime.Host.OnOutcome | agent/src/toolRuntime.ts:254-266 | a settled capability is answered once, a resolution with the plain value and a rejection with its detail, and not at all after the run settled |
| ToolRuntime.Host.Finish | agent/src/toolRuntime.ts:232-239 | only the first call changes anything |
| ToolRuntime.Worker.Invoke | agent/src/toolSandboxWorker.ts:84-89 | a proxy call takes the next id, registers it and posts the plain arguments under it |
| ToolRuntime.Worker.OnReply | agent/src/toolSandboxWorker.ts:94-103 | a reply settles the one promise it names, or nothing |
| ToolRuntime.DeadlineAborts | agent/src/modelCall.ts:34-51 | for every order of caller abort, timeout and release, the signal carries the first cause and none once released |
| ToolRuntime.LiveIsReached | agent/src/toolRuntime.ts:223-239 | deadlines opening, timing out and being released leave the protocol's states as they are |
| ToolRuntime.SettledRunAbortsDeadlines | agent/src/toolRuntime.ts:223-236 | over every interleaving of the protocol with deadlines composed over its signal: once the run has settled each of them carries an abort reason or was released after it was opened |
| ToolRuntime.Drive | agent/src/toolRuntime.ts:231-268 | the host and worker objects with their two queues, fed any event list, arrive at the protocol's state for it |
| ToolRuntime.AbortAll | agent/src/modelCall.ts:39-42 | the run signal's abort reaches every deadline object once, in whatever order they listen |
| ToolRuntime.DriveLive | agent/src/modelCall.ts:34-51 | host, worker, queues and deadline objects, fed any interleaving of protocol and deadline events, arrive at the model's state for it |
| CapabilityTree.FlattenInto | agent/src/toolRuntime.ts:134-140 | the recursive loop over entries builds the specified table, insertion order included |
| CapabilityTree.FlattenHolds | agent/src/toolRuntime.ts:134-140 | when no two key sequences share a path, flattening into any table keeps its unrelated rows and adds exactly the tree's functions under their dotted paths |
| CapabilityTree.CatalogAgrees | agent/src/tools.ts:331-346 | for every tree, dotted keys included, the catalog's walk names exactly the flattened paths |
| CapabilityTree.FlattenedPathsAreLeaves | agent/src/toolRuntime.ts:142-147 | when no key leading to a function has a dot and none is below an empty root key, the paths are duplicate-free, prefix-free as key sequences, and cover every function |
| CapabilityTree.PrefixFree | agent/src/toolRuntime.ts:134-140 | no function's key sequence continues another's |
| CapabilityTree.BuildProxyTree | agent/src/toolSandboxWorker.ts:75-92 | the worker's loop over paths builds the specified proxy tree |
| CapabilityTree.CapabilityTreeRoundTrip | agent/src/toolSandboxWorker.ts:75-92 | for such a tree the rebuilt tree has a proxy at exactly the key sequences of the original's functions, each sending its own path |
| CapabilityTree.RoundTripExactly | agent/src/toolSandboxWorker.ts:75-92 | for every tree with distinct keys, that holds at every key sequence if and only if no key leading to a function has a dot and no function is below an empty root key |
| CapabilityTree.TableKeepsAllExactly | agent/src/toolRuntime.ts:134-147 | the table keeps every function if and only if no two key sequences have one dotted path |
| CapabilityTree.DottedKeyLosesAFunction | agent/src/toolRuntime.ts:136-137 | an input with a dotted key whose two functions collapse into one path |
| ComputerUse.RunLive | runner/cua_exec.py:220-392 | the live loop's pages, trajectory and event trace are those of the step function |
| ComputerUse.RunReplay | runner/cua_exec.py:454-586 | the replay loop's pages, trajectory and event trace are those of the step function |
| ComputerUse.RecordReplayRoundTrip | runner/cua_exec.py:442-447 | on the same window, when every index the live run clicked is found again by its role and label, replaying what it recorded issues exactly the live commands, makes no model call, ends on the same page and emits the same trajectory |
| ComputerUse.ReplayStableAfterHealing | runner/cua_exec.py:442-447 | whatever is replayed, when every index the healer chose is found again, a second replay of the emitted trajectory issues the same commands, never heals and emits it unchanged |
| ComputerUseGate.LiveSendsAreApproved | runner/cua_exec.py:259-368 | in any live run every click or type on a send-like element, and every press of a key whose stripped, lower-cased name is "enter" or "return" after typing, follows its own granted approval with no command in between; every key pressed is one of those listed by name |
| ComputerUseGate.ReplaySendsAreApproved | runner/cua_exec.py:459-582 | the same in any replay, whatever was recorded and however it is healed |
| ComputerUseGate.KeysByName | runner/cua_exec.py:92-125 | the runner's key tests: a submit key is "enter" or "return" once stripped and lower-cased, and a safe key is one of those listed by name |
| ComputerUseSteps.FindElementRanks | runner/cua_exec.py:395-411 | the search takes the first element of the role with the label; failing that, unless the label is blank, the first of the role whose label contains it, case aside; failing that the first of any role with the label, case and white space aside |
| ComputerUseSteps.LiveStepDoes | runner/cua_exec.py:220-392 | one turn of the live loop: which commands each plan leads to, in order and on the page, what is recorded, when the operator is asked, and how the run ends |
| ComputerUseSteps.MatchedDoes | runner/cua_exec.py:502-540 | a matched step is asked about when the recorded or the found label is send-like, and unless denied clicked at the element found, typed into when it was a typing, and recorded as it was |
| ComputerUseSteps.ReplayStepDoes | runner/cua_exec.py:454-586 | one step of the replay: recorded keys are pressed, unknown actions passed over, matched steps done without the model, and for others the healer asked once |
| ComputerUseSteps.LivePage | runner/cua_exec.py:220-392 | a live run ends on the page its commands, in order, make of the first |
| ComputerUseExact.UnknownTargetNeverMatches | runner/cua_exec.py:282-284 | a step recorded without role and label matches no element of any later snapshot |
| ComputerUseExact.RoundTripExactly | runner/cua_exec.py:442-447 | with the same window and approvals granted, replaying any live run issues its commands and makes no model call if and only if every index it clicked is found again by the role and label recorded |
| ComputerUseExact.FindsTarget | runner/cua_exec.py:395-411 | in a snapshot with stripped labels and distinct role and label pairs a recorded element is found |
| ComputerUseExact.CleanRunExactly | runner/cua_exec.py:395-411 | over such snapshots, found again is the same as present in the snapshot |
| ComputerUseExact.CleanRoundTripExactly | runner/cua_exec.py:442-447 | over such snapshots the replay makes no model call if and only if every clicked index was in its snapshot |
| ComputerUseExact.TwoBlankFields | runner/cua_exec.py:72-86 | a form with two blank fields whose replay types into the other field without a model call |
| ComputerUseExact.StableExactly | runner/cua_exec.py:442-447 | a second replay of what any first one emitted issues its commands and never heals if and only if every index the healer chose is found again |
| ComputerUseExact.CleanStableExactly | runner/cua_exec.py:442-447 | over such snapshots it never heals if and only if every index the healer chose was in its snapshot |
| RenderCache.SliceCache.Get | cmd/wuphf/channel_render_cache.go:282-290 | a hit returns a fresh copy of the stored slice, a miss leaves the cache alone |
| RenderCache.SliceCache.Put | cmd/wuphf/channel_render_cache.go:292-299 | stores a copy, after dropping everything when the map is at its limit; the limit is kept and the caller's slice is not retained |
| RenderCache.ScribbleAfterGet | cmd/wuphf/channel_render_cache.go:263-271 | writing into a returned slice changes nothing a later get returns |
| RenderCache.PutThenScribble | cmd/wuphf/channel_render_cache.go:273-280 | writing into a slice after putting it changes nothing a later get returns |
| RenderCache.Cached | cmd/wuphf/channel_viewport_virtual.go:102-108 | get, compute on a miss, put: result and cache are those of the lookup function |
| RenderCache.CacheTransparentExactly | cmd/wuphf/channel_viewport_virtual.go:53-122 | over every sequence of calls with arguments of a given set, evictions included, cached results equal direct ones if and only if the key determines the value on that set |
| RenderCache.CacheBounded | cmd/wuphf/channel_render_cache.go:18-24 | no sequence of calls takes a map past its limit |
| KeyStream.StreamDecodes | cmd/wuphf/channel_render_cache.go:326-331 | a NUL-terminated stream of NUL-free parts determines the list of parts |
| KeyStream.StateHasher.AddMessages | cmd/wuphf/channel_render_cache.go:353-359 | the loop writes the stream of the count and nine fields a message |
| KeyStream.StateHasher.AddExpandedThreads | cmd/wuphf/channel_render_cache.go:361-374 | what is written depends only on which threads are expanded, not on the map's iteration order |
| KeyStream.MessageStreamDecodes | cmd/wuphf/channel_render_cache.go:353-359 | message streams are equal if and only if there are as many messages and they agree pairwise on id, sender, kind, source, title, reply target, timestamp, content and joined tags |
| KeyStream.ExpandedPartsExactly | cmd/wuphf/channel_render_cache.go:361-374 | the expanded parts of two maps are equal if and only if the same ids are expanded and both maps have entries or neither has |
| KeyStream.ThreadedKeysExactly | cmd/wuphf/channel_viewport_virtual.go:55-60 | threaded keys are equal if and only if default, message count, those nine fields and expanded ids are, and both maps have entries or neither has |
| KeyStream.BlockKindsDiffer | cmd/wuphf/channel_viewport_virtual.go:83-114 | a message block and a text block never share a key stream |
| KeyStream.BlockKeyDecodes | cmd/wuphf/channel_viewport_virtual.go:84-102 | equal block keys mean every hashed field agrees, unless one block is ambiguous in one stated way |
| KeyStream.AmbiguousHasDouble | cmd/wuphf/channel_viewport_virtual.go:98-101 | every ambiguous block does share its key with a different one |
| KeyStream.BrokerIdsArePlain | internal/channel/message.go:67 | the broker's ids are never numeric, empty, "no-expanded" or with a comma or NUL |
| KeyStream.BlockKeysExactly | cmd/wuphf/channel_viewport_virtual.go:83-114 | for such ids, block keys are equal if and only if the blocks agree on width, those nine fields, reactions, depth, parent label, collapsing, hidden replies, joined participants and the place and count of the unread line, or on text and width |
| Threads.LayoutEntries | cmd/wuphf/channelui/threads.go:134-140 | every entry of a layout is one of the messages, collapsed exactly when it has replies and the map says so |
| Threads.RootShown | cmd/wuphf/channelui/threads.go:106-156 | every message that answers nothing is shown by a layout, or another with its id is |
| Threads.LayoutsAgreeExactly | cmd/wuphf/channelui/threads.go:80-157 | where only messages that answer nothing are marked collapsed, two maps give one layout if and only if they agree on every such message that has replies |
| ThreadOrder.ByTimeSorts | cmd/wuphf/channelui/threads.go:87-89 | the sort is an ascending permutation by timestamp, and stable |
| ThreadOrder.LayoutOrder | cmd/wuphf/channelui/threads.go:80-157 | each id is shown once; threads come in time order; every reply comes after its parent, one level in, before the next message of the parent's level; replies to one message come in time order; every reply to a message shown uncollapsed is shown |
| ThreadOrder.CountsDescendants | cmd/wuphf/channelui/threads.go:55-71 | the count of hidden replies is the number of the id's descendants, cycles included |
| ThreadOrder.ParticipantsExactly | cmd/wuphf/channelui/threads.go:166-187 | the participants are exactly the display names of those who answer the id or a descendant, each once |
| ThreadOrder.ParticipantsAsMet | cmd/wuphf/channelui/threads.go:166-187 | they come in the order in which a depth-first walk down the thread first meets them |
| ThreadOrder.EntryTells | cmd/wuphf/channelui/threads.go:117-140 | an entry names the sender it answers, or the missing id; exactly when collapsed it carries the count and the participants of its thread |
| Viewport.EnsureCollapsedThreadDefaults | cmd/wuphf/channel_viewport_virtual.go:69-81 | the loop adds exactly the thread roots not in the map, marked collapsed, unless threads expand by default, and keeps every other entry |
| Viewport.CachedThreadedMessages | cmd/wuphf/channel_viewport_virtual.go:55-66 | with the code's key, wherever it determines the layout, the layout through the cache is the direct one and the cache stays sound |
| Viewport.SelectBlocks | cmd/wuphf/channel_viewport_virtual.go:31-37 | the backward loop holds a suffix of the blocks that is everything or already fills the window |
| Viewport.EarlyExit | cmd/wuphf/channel_viewport_virtual.go:27-40 | stopping at a full window loses no line the window shows |
| Viewport.FeedGrows | cmd/wuphf/channel_viewport_virtual.go:11-51 | the full feed is the date line, then each entry's lines, drawn from what its key covers and its usage, in the layout's order, then the tail |
| Viewport.BuildVirtualizedOfficeViewport | cmd/wuphf/channel_viewport_virtual.go:11-51 | with the code's keys, for every set of arguments on which they determine the values and every sound cache state, the result is exactly the last max(1, msgH+scroll) lines of the full feed and tail |
| FeedSession.FalseAreRoots | cmd/wuphf/channel_viewport_virtual.go:69-81 | at every point of a session, every id in the operator's map is a known message's and one marked collapsed is a thread root's |
| FeedSession.MapTells | cmd/wuphf/channel_commands.go:647-688 | at every point of a session an id reads as expanded exactly when the operator expanded it and has not collapsed it since, and as collapsed exactly when not so and a frame collapsed by default has shown its thread since |
| FeedSession.SameKeyLayoutExactly | cmd/wuphf/channel_viewport_virtual.go:53-67 | two frames of a session with one key stream have one layout if and only if their maps agree on the collapsed thread roots among the messages |
| FeedSession.LayoutKeysExactly | cmd/wuphf/channel_viewport_virtual.go:53-67 | over a session of clean messages the code's key determines every layout asked for if and only if frames that expand by default and have one key agree on the thread roots |
| FeedSession.SessionKeysDetermine | cmd/wuphf/channel_viewport_virtual.go:53-122 | over such a session the two keys determine every layout and drawing asked for |
| FeedSession.ApartAgrees | cmd/wuphf/channel_viewport_virtual.go:69-81 | a session in which no thread is marked collapsed whenever a frame expands by default is such a session |
| FeedSession.SteadyIsApart | cmd/wuphf/channel_viewport_virtual.go:69-72 | so is one whose frames all have the same default |
| FeedSession.RunSession | cmd/wuphf/channel_viewport_virtual.go:11-51 | every frame of such a session, drawn through caches of the code's sizes from the first event on, is the tail of the uncached full feed |
| FeedSession.ServedLayoutFreshExactly | cmd/wuphf/channel_viewport_virtual.go:61-63 | for any two asks with one key and only roots marked collapsed, the layout served is the fresh one if and only if the two maps agree on the thread roots among the messages |
| FeedSession.StaleAfterModeSwitch | cmd/wuphf/channel_window.go:32-65 | events the operator can cause that ask for two different layouts under one key, whatever the hash, and are served the first one twice |
| FeedSession.ReactionsMissingFromKey | cmd/wuphf/channel_render_cache.go:353-359 | two messages differing in reactions or usage share the key and have different layouts |
| FeedSession.UsageMissingFromBlockKey | cmd/wuphf/channel_viewport_virtual.go:84-102 | two blocks differing in usage alone share the block key, and the second is served the first one's lines |
| ExtractJson.FindClose | agent/src/wire.ts:194-217 | the inner loop finds the one end where the string-aware scan first closes, or there is none |
| ExtractJson.Extract | agent/src/wire.ts:191-221 | returns the parse of the leftmost brace whose scan closes on parseable text, and throws exactly when there is none |
| ExtractJson.ExtractedUnique | agent/src/wire.ts:190-221 | that specification has one answer for each text |
| ExtractJson.ObjectCloses | agent/src/wire.ts:197-208 | the scan of any JSON object text, with any white space, strings and escapes, first closes at its last brace |
| ExtractJson.ObjectIsExtracted | agent/src/wire.ts:190-221 | an object text anywhere prevents the throw, and after a brace-free preamble it is the result, whatever follows |
| EventStream.ReadStream | agent/src/capabilities.ts:441-456 | for every split of the text into chunks the reader ends with the actions, result or error of reading it whole |
| EventStream.FramesAppend | agent/src/capabilities.ts:448-453 | framing a concatenation is framing the first part and then its leftover with the second |
| EventStream.PrintedEventsComeBack | agent/src/service.ts:77-79 | events printed in the service's shape and cut anywhere are read back as the same events |
| EventStream.StreamFailsExactly | agent/src/capabilities.ts:431-439 | reading fails if and only if some frame, or a tail that is not blank, has null or an error event as its data |
| EventStream.NullFrameFails | agent/src/capabilities.ts:431-439 | the first null frame ends the reading with an error, whatever follows |
| EventStream.OutcomeTells | agent/src/capabilities.ts:431-456 | the actions are the non-empty labels of the "action" events before the first failing frame, in order; the result is that of the last "done" event among them that carries a string, or empty; the error is what the failing frame throws |
| EventStream.FramesRejoin | agent/src/capabilities.ts:448-453 | the frames, each with its blank line, and the tail are the text again, and no blank line is left in the tail |
| EventStream.DataLinesAppend | agent/src/capabilities.ts:425-429 | the data of a frame is that of its lines run together |
| Sniff.RedactionHidesExactly | agent/src/sniff.ts:49-61 | two bodies redact alike if and only if they differ only in values under secret names and strings inside arrays |
| Sniff.RedactIdempotent | agent/src/sniff.ts:49-61 | redacting twice is redacting once |
| Sniff.BodyHidesExactly | agent/src/sniff.ts:119-131 | two posted texts give the same body exactly when both are opaque or they are alike once parsed |
| Sniff.SniffHar | agent/src/sniff.ts:88-144 | the loops over entries, headers and query compute the specified result list |
| Sniff.SecretsDoNotInterfere | agent/src/sniff.ts:43-48 | captures that differ only in secrets sniff to identical specs |
| Sniff.AlikeEntriesSniffSame | agent/src/sniff.ts:94-142 | the same for one request: auth values of one class, dropped headers, secret query values, redacted body parts |
| SniffFacts.ResultsAreRequests | agent/src/sniff.ts:88-94 | there is one result for each captured entry with a URL, in order |
| SniffFacts.SniffedRequest | agent/src/sniff.ts:94-142 | each result has the upper-cased captured method, GET only for an empty one; the part of the URL before the first "?"; exactly the last captured value of each query name, redacted when secret; exactly the safe headers; the body redacted; and the class and name of the last auth header |
| SniffFacts.Classified | agent/src/sniff.ts:73-85 | a cookie is a session and rotates, a key header never does, and an authorization is a bearer that rotates when it is over forty characters in three dotted segments |
| SniffFacts.RedactedAt | agent/src/sniff.ts:49-61 | at every place not below a secret name the redacted body is what was captured, except that strings in arrays are redacted, and so is every value under a secret name |
| SniffFacts.SecretsAreDropped | agent/src/sniff.ts:98-117 | a call keeps no secret query value and no auth header |
| Executor.RunWorkflow | agent/src/executor.ts:60-84 | result, step log and issued calls are those of the first step that does not pass |
| Executor.RunReports | agent/src/executor.ts:60-84 | every step before the first that does not go is logged as fine with its reply or as simulated; that one as awaiting approval with the card to show when its gate is closed, or as failed with what its call came back with; nothing after it is logged |
| Executor.TurnExactly | agent/src/executor.ts:63-82 | a step has its turn exactly when every step before it passed and no gate up to its own is closed |
| Executor.ApprovalsExtendARun | agent/src/executor.ts:60-84 | calls under fewer approvals are a prefix of those under more, and a run that needs none is unchanged by more |
| Executor.RerunsSettle | agent/src/executor.ts:7-9 | approving each pending id and re-running ends in "done" or "error" within one run per distinct gated id plus one, in any world, and in exactly that many when calls succeed |
| Executor.CallsRepeatExactly | agent/src/executor.ts:60-84 | no step's call goes out in two runs of the loop, in any world, if and only if no call stands ahead of a gate no earlier step asks for |
| Executor.HaltedCallsGoOutAgain | agent/src/executor.ts:7-9 | a run that halts after calling is followed by one that makes the workflow's first call again, however the world answers |
| Executor.SteadyWorldRepeatsAll | agent/src/executor.ts:7-9 | when the world answers alike each time, every halted run's calls are a prefix of the next run's |
| Executor.CapturedCallsRepeatExactly | agent/src/sniff.ts:147-168 | for captured workflows: if and only if no request after the first was captured with a mutating method |
| Executor.MutationsNeedApproval | agent/src/sniff.ts:147-168 | the k-th request a captured workflow issues is the k-th captured one, and one whose captured method upper-cases to POST, PUT, PATCH or DELETE goes out only with that step's own id approved; none does with no approvals |
| Executor.StepsAreRequests | agent/src/sniff.ts:147-168 | the k-th step of a captured workflow is the k-th captured request's, gated exactly when the captured method upper-cases to one of the four |
| Executor.StepIdsDiffer | agent/src/sniff.ts:159 | captured steps have distinct ids |
| AgentStore.NoTornReads | agent/src/store.ts:75-123 | from a clean start, under every interleaving and crash, each data file is absent or the last complete serialization published; no load quarantines or throws; a finished load returns what was last published when it opened the file |
| AgentStore.StepKeeps | agent/src/store.ts:115-123 | every system call of every process keeps the invariant behind that |
| AgentStore.SharedTempTears | agent/src/store.ts:118-120 | two saves sharing a temp name can publish an empty data file |
| AgentStore.SanitizeSafe | agent/src/store.ts:36-42 | an accepted id has only safe characters, no separator, is not all dots, and sanitizes to itself |
| AgentStore.SanitizedExactly | agent/src/store.ts:36-42 | white space around an id is dropped; it is refused exactly when only dots are left, and otherwise is the collapsed core |
| AgentStore.OneUnderscore | agent/src/store.ts:39 | safe characters stay and each run of others becomes one underscore |
| AgentStore.NameKinds | agent/src/store.ts:107-120 | temp and quarantine names are never data-file names |
| AgentStore.ListedAgentsLeadBack | agent/src/store.ts:63-73 | a data file is listed under an id that leads back to the same file |
| AgentStore.Store.Save | agent/src/store.ts:115-123 | the target holds the serialization, every other file is as before, no temp remains |
| AgentStore.Store.Load | agent/src/store.ts:75-102 | the interpreted bytes; unparseable ones are moved aside whole and anything else is left in place |
| AgentStore.Store.Quarantine | agent/src/store.ts:104-113 | the bytes reappear under the quarantine name and nothing else changes |
| AgentStore.Store.UpsertTool | agent/src/store.ts:139-148 | the stored file is the old data with that tool replaced at version+1 or appended at version 1; only it and a quarantined copy change |
| AgentStore.Store.AddArtifact | agent/src/store.ts:158-163 | the stored file is the old data with the returned artifact appended, its id and time filled in; only it and a quarantined copy change |
| AgentStore.LoadThrowsExactly | agent/src/store.ts:75-102 | load throws if and only if the file parses as null, which nothing saved does |
| AgentStore.NullFileThrows | agent/src/store.ts:75-102 | a file of null makes the loading process throw and stays as it is |
| AgentStore.VersionsCountAuthoring | agent/src/store.ts:139-148 | after any history each tool's version counts how often it was authored, its code is the last, and names are unique |
| AgentStore.UpsertedAt | agent/src/store.ts:139-148 | storing a tool leaves every other where it was, replaces one stored before in its place at its version plus one, and puts a new one last at version 1 |
| AgentUpdates.NoLostUpdateExactly | agent/src/store.ts:139-148 | with any number of processes each adding a tool, all of them are in the file if and only if no process stored between another's load and store |
| AgentUpdates.NoOverlapIsSerial | agent/src/store.ts:139-148 | without such overlaps the file is what one process authoring in the order of the stores would leave |
| AgentUpserts.RunsAreSchedules | agent/src/store.ts:75-123 | every interleaving of the system calls of processes that load, edit and save keeps the store's invariant and is such a schedule of its lookups and renames |
| AgentUpserts.SavedToolsKeptExactly | agent/src/store.ts:139-148 | under every interleaving the tool of each process whose save went through is in the published file if and only if no process renamed between another's lookup and rename |
| AgentQuarantine.QuarantineMovesExactly | agent/src/store.ts:104-113 | from a corrupt file, under every interleaving of a load with any number of saves, the load's quarantine moves aside the file as last published, the corrupt bytes exactly when nobody published |
| AgentQuarantine.LateLoadsAreSafe | agent/src/store.ts:75-102 | a load that opens the file after a publication never quarantines |
| AgentQuarantine.GoodFileQuarantined | agent/src/store.ts:104-113 | an interleaving that moves a good file aside |
| CorpusPlan.SumRemaining | bench/slice-1/generate.go:1397-1403 | the total does not depend on the map's iteration order |
| CorpusPlan.Interleave | bench/slice-1/generate.go:1319-1328 | the loop ends, for every quota map, having taken whole rounds up to the first that leaves nothing in total; in what it takes nobody has a further turn before all who want one had this one, and within a turn the fixed order holds |
| CorpusPlan.RoundsTakeTurns | bench/slice-1/generate.go:1319-1328 | any number of rounds fills the plan in turns: an earlier position has an earlier turn of its kind, or the same and comes earlier in the fixed order |
| CorpusPlan.QuotasMetExactly | bench/slice-1/generate.go:1319-1328 | every quota is met if and only if none is positive or the kinds sharing the highest outnumber the total of the negative ones |
| CorpusPlan.NoDebtMeetsQuotas | bench/slice-1/generate.go:1311-1328 | without negative quotas every kind is planned exactly its quota of times |
| CorpusPlan.PlanAsDistributedExactly | bench/slice-1/generate.go:1297-1328 | each kind occurs exactly as distributed if and only if no quota is negative and phase 1 exceeds none |
| CorpusPlan.BuildPlan | bench/slice-1/generate.go:1297-1331 | for every distribution the plan is phase 1, every fourth artifact of it multi-entity, and then whole rounds of the rest taken in turns, and is accepted exactly when its length is the total |
| CorpusIndex.GenState.Record | bench/slice-1/generate.go:509-513 | each index stays the index of the list of all facts stated |
| CorpusIndex.EmployerTells | bench/slice-1/generate.go:509-513 | a person's recorded company is the one recorded last, and empty when none was |
| CorpusIndex.GenState.BuildMultiEntity | bench/slice-1/generate.go:566-627 | one leads or champions fact is appended and the champion index follows |
| CorpusIndex.GenState.BuildSuperseding | bench/slice-1/generate.go:629-700 | supersedes the current truth about the chosen person's role, or is a plain role artifact when nobody has one |
| CorpusIndex.GenState.BuildContradiction | bench/slice-1/generate.go:702-782 | contradicts the current truth; the objects differ unless every draw and the fallback name the old company |
| CorpusIndex.RepeatedContradiction | bench/slice-1/generate.go:702-782 | a role artifact and a contradiction of it that state the same object, for any roster and choice |
| CorpusIndex.ChampionsIndexIsScan | bench/slice-1/generate.go:605-607 | the champion index of a project and a scan of all facts name the same ids |
| CorpusIndex.GenState.ExpectedForPerson | bench/slice-1/generate.go:1125-1146 | the sorted duplicate-free ids of the person's facts, only the current role where asked |
| CorpusIndex.GenState.ExpectedForProjectPredicate | bench/slice-1/generate.go:1148-1162 | the canonical listing of exactly the matching facts, whatever the iteration order |
| CorpusIndex.GenState.ExpectedForProjectAnyPredicate | bench/slice-1/generate.go:1164-1186 | the same over several predicates, cut to the first twenty |
| CorpusIndex.GenState.PickProjectForMultiHop | bench/slice-1/generate.go:1188-1209 | none exactly when no project has a champion at the company, else the drawn one of their sorted list |
| CorpusIndex.GenState.ExpectedMultiHop | bench/slice-1/generate.go:1211-1227 | the champions recorded at the company and the current truth about each one's role, canonical and capped |
| CorpusIndex.GenState.ExpectedLeadsAtCompany | bench/slice-1/generate.go:1229-1249 | the leads facts of people recorded at the company, canonical |
| CorpusIndex.Dedupe | bench/slice-1/generate.go:1251-1262 | same elements, no repeats, and canonical when the input is sorted |
| CorpusIndex.ArtIdsDiffer | bench/slice-1/generate.go:516 | zero-padded artifact ids of different indexes differ |
| CorpusIndex.SuffixNamesPredicate | bench/slice-1/generate.go:1151 | the suffix test on a key selects exactly the predicate |
| CorpusRun.BuildAll | bench/slice-1/generate.go:1339-1359 | the state's facts are exactly those of the artifacts, whose ids are numbered in order, and each artifact states what its kind in the plan, its draws and the roles on record before it call for |
| CorpusRun.Validate | bench/slice-1/generate.go:1405-1428 | reports nothing exactly when artifact ids differ, no fact id is empty and queries name only corpus facts |
| CorpusRun.Run | bench/slice-1/generate.go:1333-1366 | the artifacts are those the plan calls for, each query is answered with exactly the facts it asks about, and validation never fails, for every plan and every random choice |
| CorpusRun.JoinMatchesRoleExactly | bench/slice-1/generate.go:1211-1223 | the company joined on is the one of the current role exactly when no later project fact sent the person back to another home company |
| CorpusRun.MovedChampionJoinsOldCompany | bench/slice-1/generate.go:616-617 | a corpus whose multi-hop answer lists a role at another company |
| PartialMatch.Match | cmd/eval-prompts/matcher.go:46-92 | the failures are the specified multiset, whatever order keys are taken in |
| PartialMatch.AnyKeyFirst | cmd/eval-prompts/matcher.go:60-68 | the multiset is the same whichever key comes first |
| PartialMatch.NoFailuresIffContained | cmd/eval-prompts/matcher.go:46-92 | no failures if and only if at every path where the expectation has a node the answer has one that stands for it |
| PartialMatch.FailuresTell | cmd/eval-prompts/matcher.go:46-92 | a failure is reported if and only if a place of the expectation is to blame for it: a node of another kind or value, or a first missing key or index, under its path and with what was expected and found there |
| PartialMatch.ContainedReflexive | cmd/eval-prompts/matcher.go:46-48 | every value contains itself |
| PartialMatch.ContainedTransitive | cmd/eval-prompts/matcher.go:46-48 | containment is transitive |
| PartialMatch.ContainedAntisymmetric | cmd/eval-prompts/matcher.go:46-48 | decoded values that contain each other are equal |
| PartialMatch.AssertExpected | cmd/eval-prompts/matcher.go:19-44 | a case passes exactly when required texts occur, forbidden ones do not, and a given answer contains a given expectation |

## Left out

- Main-lines, sidebar and markdown caches: the same get/put shape as the two modelled, over keys built from views that are not part of this model.
- The one-to-one viewport and the other feed builders: the office feed is the hard case.
- FNV hashing: the hash is an arbitrary function of the stream. FeedSession.RunSession assumes it keeps apart the streams one session asks for; a collision among those is outside the model.
- Viewport.BuildVirtualizedOfficeViewport: speaks of arguments on which the code's keys determine the values; FeedSession.SessionKeysDetermine says which sessions ask only for such ones.
- FeedSession.RunSession: assumes ids as the broker gives them, no NUL bytes, that a message id stays a root's or a reply's, and that messages alike in every hashed field are alike in reactions, usage and tags; `FeedSession.ReactionsMissingFromKey` shows the last is needed.
- Threads.LayoutsAgreeExactly: assumes that no two messages of the list differ only in what the key leaves out.
- Block rendering: an arbitrary function of what the block key is meant to cover and of token usage, so participants reach it joined by commas and names holding commas are not told apart; display names are an arbitrary function of senders.
- `ensureCollapsedThreadDefaults` writes into the caller's map; the model returns the new map, so aliasing of that map is not captured.
- The worker's proxy tree and the capability tree are values, not objects mutated in place; keys that collide with `Object.prototype` names are outside the model.
- Tool compilation, the import and eval scan, input-name checks and `serializeResult`: string checks around an isolate.
- Worker termination: after a run settles the model still lets the worker run, which allows more behaviours than the code.
- `snapshot` filtering, label redaction and truncation, dry runs and status events of the computer-use runner.
- ComputerUse.RecordReplayRoundTrip: assumes the same window and granted approvals; the condition on what was clicked is exact by `ComputerUseExact.RoundTripExactly`.
- ComputerUseExact.CleanRoundTripExactly: also assumes that normalizing a blank text leaves it blank.
- ComputerUseGate.LiveSendsAreApproved: assumes element indexes are unique within a snapshot, as the driver promises.
- KeyStream.StreamDecodes: assumes NUL-free parts; Go strings may hold NUL bytes, and then parts can run together.
- EventStream.ReadStream: starts from decoded text, so UTF-8 sequences cut between chunks are left to the decoder; the final caption string is not modelled.
- ExtractJson.ObjectIsExtracted: numbers, literals and white space are any text without quotes or braces, which is wider than RFC 8259.
- Sniff.SecretsDoNotInterfere: URLs may differ only in their query text; user info inside a URL stays in the spec, as in the code.
- Executor.RerunsSettle: the loop of approvals is the front end's, described in the executor's header comment; `replay`, credentials and HTTP are the reply function.
- AgentStore.NoTornReads: rename is atomic and `fsync` is not modelled, so a power loss that reorders writes on disk is outside it; temp names are assumed distinct, as the random tag makes them with overwhelming probability.
- AgentStore.VersionsCountAuthoring: one process at a time; several are the subject of `AgentUpdates.NoLostUpdateExactly`.
- AgentUpdates.NoLostUpdateExactly: tools of different names, none stored before; for equal names `AgentUpdates.NoOverlapIsSerial` gives one direction.
- AgentQuarantine.QuarantineMovesExactly: one load among any number of saves; several loads at once on a corrupt file are left out.
- CapabilityTree.TableKeepsAllExactly: functions are told apart by their ids, one id a function.
- `upsertTool` keeps every field of a tool; the model keeps name, code and version.
- Corpus text, dates, message bodies and the `rng` itself: choices are parameters, so the results hold for every seed; byte-identical output is not modelled.
- `allFactIDs`, `touchedCompanies` and `projectLeadsByCompany` are written but never read, and are left out.
- CorpusRun.Run: assumes fact ids are never empty, which `ComputeFactID` gives; that function is not part of this model.
- PartialMatch.Match: failures carry their path and values as data; the formatting of messages is left out, and numbers are reals, without NaN.
- HTTP handlers, the broker, sessions, the scheduler and the website.
