# InnerWarden agent guard: a model of its stateful cores

Seven cores of `crates/agent-guard` are modelled, each with the properties its
code and documentation promise:

* **Locked compare-and-replace** (`UpdateLock`, `UpdateRuns`, `LockWait`). Any
  number of writers share one target. A writer opens or creates a sibling lock,
  takes it within a bounded wait, checks that the lock is still the file at its
  name, compares, stages, checks the name again, compares again and renames.
  Writers may heal a lock they cannot open by renaming a fresh one over it, and
  editors ignore the lock. It is one interleaved step system; every theorem is
  about every run of it.
* **Loop breaker** (`LoopBreaker`, `LoopBreakerRuns`). A class with the tracked
  calls, their accepted timestamps and touch numbers, and a ghost history. Each
  method is tied to a step function, and the run theorems are about that.
* **MCP wrapper rewriting** (`ProxyOptions`, `OptionRewrites`, `OptionReadBack`,
  `McpWire`, `McpWiring`, `McpConfig`, `McpConfigRuns`) and its TOML twin
  (`McpWireToml`, `McpTomlConfig`), which simulates it once the written forms are
  forgotten. `ServerRewrite` holds the word-by-word loops of both; `OptionWords` and
  `ServersWritten` say what single words mean and what is written.
* **Hook merge and reconciliation** (`HookCommand`, `HookEdits`, `HookSettings`,
  `HookMerges`, `HookRuns`), with `Matchers`, `OurPrograms` and `SettingsWritten` for
  what matchers cover, which programs are ours and what the merges put in the file.
* **JSON5 container scanner** (`Json5Shape`, `Json5Grammar`, `Utf8Text`).
* **Discovery rows and names** (`Discovery`, `AgentListing`, `AgentRows`,
  `AgentNames`, over `Sorting`).

`Options`, `Text` and `Json` are shared. A loop of the source is a method with its
loop, tied by its postcondition to a function, and what is promised is stated
about that function.

## What turned out otherwise than documented

* `file_update.rs` says that a lock replaced under a writer is turned into a retry
  by that writer's own check. A commit can overwrite what it did not expect although
  nothing was rebound in its own window: the other writer's window is the one that
  matters (`UpdateRuns.OwnWindowIsNotEnough`). `UpdateRuns.UnexpectedCommit` states
  what does hold, and `UpdateRuns.UnexpectedExactly` when it happens.
* `mcp_wire.rs` calls wrapping idempotent. It is, if and only if no server's kept
  options end in a bare `--label` that takes the appended `--agent`
  (`McpConfigRuns.SwitchingModes`). A label whose value looks like a mode gets there
  in one step (`McpWiring.LabelThatLooksLikeAMode`).
* The breaker's announced delay is exact if and only if the limit is not zero and
  adding the window does not wrap a 64-bit second count
  (`LoopBreakerRuns.AnnouncedDelayHonoured`, with `LoopBreakerRuns.RetryStillTrips` and
  `LoopBreakerRuns.ZeroLimitAlwaysTrips` for the two ways it fails).
* `is_automatic_merge_safe` is documented to keep automatic setup from discarding
  malformed structure. It does not look at `PostToolUse`, and a value there that is
  not a list is replaced (`HookRuns.PostToolUseUnchecked`,
  `HookRuns.PostToolUseReplaced`).
* A hook command printed for a program whose path holds a double quote is never read
  back as printed (`HookCommand.ReadsBackExactly`, `HookCommand.QuotedPathReads`).
  Background setup is documented never to turn an enforcing hook into one that
  monitors. It does for such a path whose own words name `--monitor`
  (`HookRuns.SetupCanLower`), and `HookRuns.StrongestExactly` says exactly when. Its
  next run then refuses (`HookRuns.SecondRun`), and the preview goes on asking for a
  repair (`HookRuns.ReconcilesExactly`), unless the operator's own hook is by chance the
  command it comes to (`HookRuns.NothingLeftForTheQuoted`).

## Conventions

Clock readings, outcomes of lock attempts, what is on disk and whether an agent is
guarded are parameters. JSON objects are maps, so the order of keys carries no
meaning. A TOML value is taken with the text it prints as. Text is a sequence of
Unicode scalar values and is compared by code point. The breaker's 64-bit hash is
taken to be injective.

## Model

| member | source | states |
|---|---|---|
| `LoopBreaker.Breaker.constructor` | crates/agent-guard/src/breaker.rs:108-115 | a new breaker has seen nothing and tracks nothing |
| `LoopBreaker.Breaker.Record` | crates/agent-guard/src/breaker.rs:120-151 | one call changes the tracked calls and gives a verdict exactly as the step function of the state before says, and the history grows by this call alone |
| `LoopBreaker.Breaker.MakeRoom` | crates/agent-guard/src/breaker.rs:159-183 | one pass in any order of the map leaves the calls still live and, if the table is still full, all of those but the least recently seen; below the cap nothing goes. The result is one map whatever the iteration order |
| `LoopBreaker.TableInvariant` | crates/agent-guard/src/breaker.rs:83-183 | after any run, with any clock: at most `max(max_tracked_calls, 1)` calls, at most `max_identical_calls` timestamps each, pairwise distinct touch numbers, and each touch is the position of that call's last occurrence |
| `LoopBreaker.EvictionCost` | crates/agent-guard/src/breaker.rs:159-183 | forgetting a call that is still live means at least C - 1 recorded calls came after it |
| `LoopBreaker.EvictionNeedsDistinctCalls` | crates/agent-guard/src/breaker.rs:153-183 | in any run, forgetting a live call takes at least C distinct other calls since it was last seen, the arriving one included |
| `LoopBreaker.LiveTwice` | crates/agent-guard/src/breaker.rs:186-190 | with a clock that does not go back, filtering at an earlier instant first changes nothing later |
| `LoopBreakerRuns.WindowBound` | crates/agent-guard/src/breaker.rs:120-183 | among consecutive calls read within one window, one call is accepted at most L * (1 + N / C) times, N the number of other calls among them |
| `LoopBreakerRuns.KeptBound` | crates/agent-guard/src/breaker.rs:120-183 | a call that is not forgotten while live is accepted at most L times in a window |
| `LoopBreakerRuns.BoundedMatchesReference` | crates/agent-guard/src/breaker.rs:120-183 | with a monotone clock and room for each new call, the bounded breaker gives at every call the verdict of a breaker that keeps every accepted timestamp forever |
| `LoopBreakerRuns.TimestampsAscend` | crates/agent-guard/src/breaker.rs:83-94 | with a monotone clock the remembered timestamps of a call ascend and none is in the future |
| `LoopBreakerRuns.AnnouncedDelayIsExact` | crates/agent-guard/src/breaker.rs:130-151 | a tripped call that stays tracked trips at every earlier instant, however often retried, each time announcing what is left, and is accepted at exactly the announced instant |
| `LoopBreakerRuns.AnnouncedDelayHonoured` | crates/agent-guard/src/breaker.rs:134-142 | the announced instant is honoured if and only if some call is accepted at all and the addition of window to timestamp does not wrap |
| `LoopBreakerRuns.ZeroLimitAlwaysTrips` | crates/agent-guard/src/breaker.rs:130-146 | with a limit of zero every call trips, each announcing a whole window |
| `LoopBreakerRuns.RetryStillTrips` | crates/agent-guard/src/breaker.rs:134-142 | three calls, the clock five seconds before it wraps: the second is told to come back in a second, does, and trips again |
| `LoopBreakerRuns.EarlierClockTrips` | crates/agent-guard/src/breaker.rs:186-190 | a clock that reads earlier never releases a call: whatever trips at one reading trips at every earlier one |
| `LockWait.TakeLockWithin` | crates/agent-guard/src/file_update.rs:366-377 | attempts until the lock is taken, an attempt fails for another reason than being held, or the wait is spent; the pauses together are at most five milliseconds a sleep and at most the wait |
| `LockWait.Acquire` | crates/agent-guard/src/file_update.rs:328-354 | all re-openings together: pauses total at most `wait` and at most five milliseconds a sleep, at most ceil(wait / 5 ms) sleeps, tries are sleeps plus openings that succeeded, at most four openings; which outcome it is follows from the last opening, the last attempt and the last check of the name: a failed opening or attempt ends it at once, busy only once the wait is spent |
| `UpdateLock.LockStep` | crates/agent-guard/src/file_update.rs:296-355 | no step lets two writers hold the lock on one lock file |
| `UpdateLock.HeldStep` | crates/agent-guard/src/file_update.rs:586-590 | and a lock is held by nobody but a writer between taking it and its end: a commit, a giving up and a failed check of the name release it |
| `UpdateLock.RunInvariant` | crates/agent-guard/src/file_update.rs:888-1027 | in every interleaving a writer past its second name check holds its lock, has staged its whole body, and still owns the lock's name and the expected target unless the name was rebound or the target written since |
| `UpdateRuns.OneInside` | crates/agent-guard/src/file_update.rs:310-312 | two writers about to commit, with the lock's name not rebound behind either, are one writer |
| `UpdateRuns.Intruder` | crates/agent-guard/src/file_update.rs:970-1009 | another writer's commit inside this one's window needs the name rebound inside one of the two windows |
| `UpdateRuns.UnexpectedCommit` | crates/agent-guard/src/file_update.rs:888-1027 | a commit overwrites bytes its caller did not expect only if an external write fell between its second compare and its rename, or another writer committed there and the lock's name was rebound between the name check and that commit of one of the two |
| `UpdateRuns.UnexpectedExactly` | crates/agent-guard/src/file_update.rs:980-1009 | a commit is unexpected if and only if the last write in its window was an editor's, of bytes that do not pass, or another writer's commit, of a body that does not pass; and in the second case the lock's name was rebound inside one of the two windows |
| `UpdateRuns.LinearHistory` | crates/agent-guard/src/file_update.rs:888-1027 | with no external write and no rebinding in any window every commit finds what it expected, and of two commits with no write between them the later expected the whole body of the earlier: one compare-and-swap history |
| `UpdateRuns.CommitLeaves` | crates/agent-guard/src/file_update.rs:946-1010 | a commit leaves the writer's whole body in the target |
| `UpdateRuns.CommitsAsAsked` | crates/agent-guard/src/file_update.rs:888-1027 | which is the body its writer was last asked for, compared with what it was then told to expect |
| `UpdateRuns.TargetProvenance` | crates/agent-guard/src/file_update.rs:888-1027 | at every moment the target is its initial bytes, an external writer's bytes, or the whole body some writer was asked to write |
| `UpdateRuns.CommitsUndisturbed` | crates/agent-guard/src/file_update.rs:888-1027 | from any reachable state, a writer that finds a free lock and the bytes it expects, and whom nobody disturbs, commits its body |
| `UpdateRuns.CommitsAndReleases` | crates/agent-guard/src/file_update.rs:586-590 | and leaves every lock as it was, and every other writer where it was |
| `UpdateRuns.OneAfterTheOther` | crates/agent-guard/src/file_update.rs:888-1027 | so of two undisturbed writers, one after the other, both commit |
| `UpdateRuns.StagesOnlyAfterComparing` | crates/agent-guard/src/file_update.rs:946-979 | nothing is staged and nothing renamed before the same update found the target as expected |
| `UpdateRuns.OnlySharedHeals` | crates/agent-guard/src/file_update.rs:436-444 | a lock is replaced by a healed one only for a shared record |
| `UpdateRuns.AcquiresItsName` | crates/agent-guard/src/file_update.rs:328-354 | a writer goes on with the lock it took if and only if that is the file at the lock's name |
| `UpdateRuns.OwnWindowIsNotEnough` | crates/agent-guard/src/file_update.rs:436-452 | a run in which a commit is unexpected though no external write and no rebinding fell in its own window: the lock was healed in the other writer's |
| `ProxyOptions.WalkOptions` | crates/agent-guard/src/mcp_wire.rs:215-271 | the loop over options finds what reading them unit by unit finds: label, last agent, count and positions of agent words, last mode, a flag that takes the separator, a refused word |
| `ProxyOptions.FlattenUnits` | crates/agent-guard/src/mcp_wire.rs:215-271 | the units a reading yields are the options, cut up |
| `OptionWords.InlineIsSeparate` | crates/agent-guard/src/mcp_wire.rs:215-271 | after any options that have their values, `--mode=v`, `--label=v` and `--agent=v` give the mode, the agent and the label that `--mode v`, `--label v` and `--agent v` give |
| `OptionWords.ModeReads` | crates/agent-guard/src/mcp_wire.rs:134-147 | `guard` and `kill` refuse, `advisory` and `warn` record, and no other text is a mode |
| `OptionWords.NameReads` | crates/agent-guard/src/mcp_wire.rs:273-280 | a label or an agent says nothing of the mode, and an agent is recorded exactly when it is a plain id |
| `OptionWords.NotAnOption` | crates/agent-guard/src/mcp_wire.rs:112-147 | a flag without its value, a word that is no option, and a word that is not text leave the options unread |
| `OptionWords.ErrorResponse` | crates/agent-guard/src/mcp_wire.rs:215-271 | `--error-response` is an option, and says nothing of mode or agent |
| `OptionWords.NoOptionsRead` | crates/agent-guard/src/mcp_wire.rs:112-147 | no options at all refuse what is denied, and record no agent |
| `OptionWords.StripsExactly` | crates/agent-guard/src/mcp_wire.rs:155-174 | stripping takes a bare `--mode` with the word behind it and any `--mode=`, and no other word |
| `OptionWords.NamesTheUnnamed` | crates/agent-guard/src/mcp_wire.rs:300-314 | options that say nothing gain the agent as label and as agent |
| `OptionWords.KeepsALabel` | crates/agent-guard/src/mcp_wire.rs:285-314 | a label that is there is kept, and only the agent is added |
| `OptionWords.ReplacesAnAgent` | crates/agent-guard/src/mcp_wire.rs:288-314 | another agent's name goes, and this one's comes |
| `OptionWords.OnlyPlainNames` | crates/agent-guard/src/mcp_wire.rs:294-303 | a name that is not a plain id, or begins with a hyphen, changes nothing |
| `OptionWords.PlainIds` | crates/agent-guard/src/hook.rs:398-405 | which single characters make a plain id, that two of them put together are one while there are at most 64 characters, and that nothing longer is |
| `OptionRewrites.ProxyPrefixWithoutMode` | crates/agent-guard/src/mcp_wire.rs:155-174 | the word-by-word loop yields `proxy` and the options without their mode words |
| `OptionRewrites.WithoutModeIsModeless` | crates/agent-guard/src/mcp_wire.rs:155-174 | no word that says a mode is left, and no word is new |
| `OptionRewrites.DropsAgents` | crates/agent-guard/src/mcp_wire.rs:215-314 | dropping the positions the walk collected drops exactly the agent units |
| `OptionRewrites.NamedWalk` | crates/agent-guard/src/mcp_wire.rs:288-314 | after naming, the options are labelled, name the agent exactly once, and keep their mode |
| `OptionRewrites.NamedStays` | crates/agent-guard/src/mcp_wire.rs:300-314 | named options have nothing left to drop or add |
| `OptionReadBack.AppendedMode` | crates/agent-guard/src/mcp_wire.rs:134-147 | whatever the words before, an appended mode reads as that mode exactly when those words read, and otherwise the whole does not read: never another mode |
| `OptionReadBack.NamingTwice` | crates/agent-guard/src/mcp_wire.rs:281-314 | naming twice is naming once if and only if the options do not end in a bare `--label` that takes the appended `--agent` |
| `OptionReadBack.StripsModes` | crates/agent-guard/src/mcp_wire.rs:155-174 | where no flag value looks like a mode, stripping word by word is stripping unit by unit: the two scanners agree |
| `OptionReadBack.StrippedReadable` | crates/agent-guard/src/mcp_wire.rs:134-174 | readable options none of whose values looks like a mode stay readable once stripped |
| `OptionReadBack.NamedReadable` | crates/agent-guard/src/mcp_wire.rs:281-314 | readable options stay readable once named |
| `McpWire.WrappedServer` | crates/agent-guard/src/mcp_wire.rs:326-390 | a wrapped server runs the guard, and its separator, options, child and arguments are found where they were put |
| `ServerRewrite.NamingFor` | crates/agent-guard/src/mcp_wire.rs:300-314 | the naming computed from the walk of the loop is the naming of the options |
| `ServerRewrite.ServerEntry.Wrap` | crates/agent-guard/src/mcp_wire.rs:326-390 | the in-place rewriting, word by word, leaves the server and the changed flag that the specification gives |
| `ServerRewrite.ServerEntry.Unwrap` | crates/agent-guard/src/mcp_wire.rs:392-412 | the in-place restoration, likewise |
| `ServerRewrite.PrefixWithoutMode` | crates/agent-guard/src/mcp_wire_toml.rs:82-102 | the TOML loop yields `proxy` and the entries without their mode words, form and spacing kept |
| `ServerRewrite.ServerTable.Wrap` | crates/agent-guard/src/mcp_wire_toml.rs:131-202 | the in-place TOML rewriting leaves the table and the changed flag that the specification gives |
| `ServerRewrite.ServerTable.Unwrap` | crates/agent-guard/src/mcp_wire_toml.rs:204-228 | the in-place TOML restoration, which removes an empty list of arguments |
| `McpWiring.WrappedMode` | crates/agent-guard/src/mcp_wire.rs:95-147 | a wrapped server reads in the requested mode if and only if the words kept read and its child is not blank; otherwise it has no mode |
| `McpWiring.NeverAnotherMode` | crates/agent-guard/src/mcp_wire.rs:326-390 | whatever the old wrapper's words and the program written, a wrapped server reads in the requested mode or in none |
| `McpWiring.SwitchingMode` | crates/agent-guard/src/mcp_wire.rs:326-390 | wrapping again in any mode equals wrapping afresh in that mode, and reports no change in the same mode, if and only if the server does not lose its name to a bare label |
| `McpWiring.PlainServersSettle` | crates/agent-guard/src/mcp_wire.rs:155-390 | unwrapped servers, and readable wrappers none of whose values looks like a mode, settle and end guarded in the requested mode |
| `McpWiring.UnwrapAfterWrap` | crates/agent-guard/src/mcp_wire.rs:326-412 | unwrapping what was wrapped gives an unwrapped server back with its arguments as a list, and for a wrapper what unwrapping alone gives: no layer is added |
| `McpWiring.ReconnectOnlyNames` | crates/agent-guard/src/mcp_wire.rs:537-571 | a wrapper that wiring without a name would not change gains the name and nothing else: same program, mode and child; only agent words go, only the name comes |
| `McpWiring.LabelThatLooksLikeAMode` | crates/agent-guard/src/mcp_wire.rs:155-174 | `proxy --label --mode=guard -- npx` reads as enforcing, does not settle, and does not read once wrapped again |
| `McpWiring.RemoteLeftAlone` | crates/agent-guard/src/mcp_wire.rs:326-329 | a server reached without a program is neither wrapped nor unwrapped, and has no mode |
| `McpWiring.BrokenLeftAlone` | crates/agent-guard/src/mcp_wire.rs:340-350 | a wrapper that lost its child, with its separator or without, is neither wrapped again nor unwrapped, and has no mode |
| `ServersWritten.FreshWrapped` | crates/agent-guard/src/mcp_wire.rs:326-390 | what a server that is not behind the proxy becomes, word by word: the proxy, the name as label and agent if it is plain, the mode, the program with the arguments it had; its other fields stay |
| `ServersWritten.WrapperModeExactly` | crates/agent-guard/src/mcp_wire.rs:95-112 | a wrapper counts if and only if its options read and its child is not blank, and refuses if and only if they say so |
| `OurPrograms.GuardCommandExactly` | crates/agent-guard/src/mcp_wire.rs:24-64 | in any directory and any case exactly `innerwarden`, `iw` and `iw-guard`, with or without `.exe`, are taken for the guard |
| `McpConfig.OnlyServersChange` | crates/agent-guard/src/mcp_wire.rs:414-458 | rewriting servers changes nothing but the servers under the three table paths, and adds no table and no name |
| `McpConfig.Config.ForEachServer` | crates/agent-guard/src/mcp_wire.rs:446-458 | the loops over the three tables rewrite every server once and count the changed ones |
| `McpConfig.Config.Wrap` | crates/agent-guard/src/mcp_wire.rs:523-535 | the configuration becomes the wrapped one, and the count is the number of servers changed |
| `McpConfig.Config.Unwrap` | crates/agent-guard/src/mcp_wire.rs:583-586 | the configuration becomes the unwrapped one, and the count is the number of servers changed |
| `McpConfig.Config.Counts` | crates/agent-guard/src/mcp_wire.rs:499-515 | the counts are the numbers of stdio servers and of wrapped ones, and they are positive and equal if and only if the configuration is guarded |
| `McpConfig.Config.ReadMode` | crates/agent-guard/src/mcp_wire.rs:643-661 | the loop gives the one mode of all wrappers, `Mixed` where two differ, nothing where one does not read or there is none |
| `McpConfigRuns.WrappedReadsAsRequested` | crates/agent-guard/src/mcp_wire.rs:643-661 | after wrapping any configuration at all, its mode is the requested one or none, never another and never `Mixed` |
| `ServersWritten.GuardedModeExactly` | crates/agent-guard/src/mcp_wire.rs:643-661 | a configuration is mixed if and only if one wrapper records and another refuses, in one mode if and only if some wrapper is in it and none in the other, and without a mode if a wrapper does not read |
| `ServersWritten.ServersByKey` | crates/agent-guard/src/mcp_wire.rs:414-429 | the servers are the fields of `mcpServers`, of `servers`, and of `servers` under `mcp`, where those are objects |
| `McpConfigRuns.PlainConfigEndsGuarded` | crates/agent-guard/src/mcp_wire.rs:517-616 | a configuration with a stdio server, all of them fresh or readable wrappers without mode-like values, ends guarded in the requested mode |
| `McpConfigRuns.SwitchingModes` | crates/agent-guard/src/mcp_wire.rs:517-535 | wrapping twice, modes equal or not, is wrapping afresh in the second mode if and only if every server settles |
| `McpConfigRuns.UnwrappingRestores` | crates/agent-guard/src/mcp_wire.rs:517-586 | unwrapping a wrapped configuration restores every server in place |
| `McpConfigRuns.UnwrappingGivesBack` | crates/agent-guard/src/mcp_wire.rs:517-586 | a configuration without wrappers comes back exactly if and only if each server wiring touches has a list of arguments |
| `McpConfigRuns.OfferedServer` | crates/agent-guard/src/mcp_wire.rs:536-571 | what the offered reconnect does to each server: a stdio one is only named, another is untouched |
| `ServersWritten.OfferedExactly` | crates/agent-guard/src/mcp_wire.rs:536-571 | the reconnect that names an agent is offered if and only if the name is plain, there is a stdio server and every one runs in one mode, some proxy records another agent or none, and wiring without a name would change nothing |
| `McpConfigRuns.TakingTheOffer` | crates/agent-guard/src/mcp_wire.rs:536-571 | taking the offered reconnect only names, on every server, and leaves nothing further to offer |
| `McpWireToml.ReadsErased` | crates/agent-guard/src/mcp_wire_toml.rs:29-53 | the TOML readers of prefix and separator agree with the JSON ones once forms are forgotten |
| `McpWireToml.PartsErased` | crates/agent-guard/src/mcp_wire_toml.rs:131-170 | the two representations see the same child, rest and kept options, or both leave the server alone |
| `McpWireToml.WrapSimulates` | crates/agent-guard/src/mcp_wire_toml.rs:131-202 | forgetting after TOML wrapping is JSON wrapping after forgetting, and a change JSON reports TOML reports |
| `McpWireToml.SpacingDoesNotCount` | crates/agent-guard/src/mcp_wire_toml.rs:116-129 | wrapping a wrapped table again, however its words are spaced by then, reports a change if and only if the server does not settle |
| `McpWireToml.UnwrapSimulates` | crates/agent-guard/src/mcp_wire_toml.rs:204-228 | forgetting after TOML unwrapping is JSON unwrapping after forgetting, less an empty list of arguments; both report alike |
| `McpWireToml.UnwrapGivesBack` | crates/agent-guard/src/mcp_wire_toml.rs:131-228 | an unwrapped table gets its arguments back as written and every other key as it was; it reads as before if and only if it had no arguments or a non-empty list |
| `McpWireToml.ModeErased` | crates/agent-guard/src/mcp_wire_toml.rs:58-80 | the TOML readers of mode and stdio agree with the JSON ones |
| `McpWireToml.UnwrapRestores` | crates/agent-guard/src/mcp_wire_toml.rs:131-228 | unwrapping after wrapping is unwrapping alone for a wrapper, and otherwise restores the table |
| `McpTomlConfig.Document.ForEachServer` | crates/agent-guard/src/mcp_wire_toml.rs:230-242 | the loop edits every server table once, every other key stays, and the count is the number changed |
| `McpTomlConfig.Document.Wrap` | crates/agent-guard/src/mcp_wire_toml.rs:291-302 | the document becomes the wrapped one, and the count is the number changed |
| `McpTomlConfig.Document.Unwrap` | crates/agent-guard/src/mcp_wire_toml.rs:349-351 | the document becomes the unwrapped one, and the count is the number changed |
| `McpTomlConfig.SectionsByKey` | crates/agent-guard/src/mcp_wire_toml.rs:230-242 | the servers are the tables under `mcp_servers`; wiring changes no other key, nor anything there that is not a table |
| `McpTomlConfig.WrapKeysSimulates` | crates/agent-guard/src/mcp_wire_toml.rs:285-302 | a wrapped TOML document reads as the wrapped JSON configuration with the same servers |
| `McpTomlConfig.GuardedErased` | crates/agent-guard/src/mcp_wire_toml.rs:362-365 | the document is guarded, read from its tables, if and only if the JSON configuration it stands for is |
| `McpTomlConfig.GuardedModeErased` | crates/agent-guard/src/mcp_wire_toml.rs:398-416 | and reads in the same mode |
| `McpTomlConfig.GuardedModeOf` | crates/agent-guard/src/mcp_wire_toml.rs:398-416 | the loop over the tables gives that mode |
| `McpTomlConfig.WrappedTomlReads` | crates/agent-guard/src/mcp_wire_toml.rs:398-416 | after wrapping any document its mode is the requested one or none |
| `McpTomlConfig.PlainTomlEndsGuarded` | crates/agent-guard/src/mcp_wire_toml.rs:285-302 | a document with a stdio table, all of them fresh or readable wrappers without mode-like values, ends guarded in the requested mode |
| `McpTomlConfig.SwitchingTomlModes` | crates/agent-guard/src/mcp_wire_toml.rs:285-302 | a document wrapped twice reads as wrapped afresh in the second mode if and only if every server settles |
| `McpTomlConfig.WrappedTomlStays` | crates/agent-guard/src/mcp_wire_toml.rs:285-302 | wrapping a wrapped document again reports no change if and only if every server settles |
| `McpTomlConfig.UnwrappingGivesTomlBack` | crates/agent-guard/src/mcp_wire_toml.rs:349-351 | a document without wrappers reads as before once wrapped and unwrapped if and only if each table wiring touches has arguments in a list, or none |
| `McpTomlConfig.OfferedInJson` | crates/agent-guard/src/mcp_wire_toml.rs:304-332 | a reconnect offered for the TOML document is offered for the JSON configuration it reads as |
| `ServersWritten.OfferedTomlExactly` | crates/agent-guard/src/mcp_wire_toml.rs:304-332 | and for the TOML document likewise, a change of form being a change |
| `McpTomlConfig.TakingTheTomlOffer` | crates/agent-guard/src/mcp_wire_toml.rs:304-332 | taking that offer only names, and leaves nothing further to offer |
| `HookCommand.HookCommandWords` | crates/agent-guard/src/hook.rs:646-684 | the character loop splits a command as the grammar does: quotes, unclosed quotes, text behind a quote and empty words included |
| `HookCommand.PlainPathReads` | crates/agent-guard/src/hook.rs:376-396 | a command printed for a path without a double quote reads back as its mode and plain agent, or is not ours when the program is not |
| `HookCommand.WordsBefore` | crates/agent-guard/src/hook.rs:646-684 | text that opens no quote and starts a new word leaves the words before it as they were |
| `HookCommand.QuotedPathReads` | crates/agent-guard/src/hook.rs:758-784 | what a command printed for a path with a double quote reads as: not ours, or, if no flag was printed and the path's own words are a hook command lacking its agent, that command in the mode the path names, for the agent `hook` |
| `HookCommand.DisguisedPathReads` | crates/agent-guard/src/hook.rs:758-784 | the file name `innerwarden" hook --monitor "--agent`, printed to enforce, reads as monitoring |
| `HookCommand.ReadsBackExactly` | crates/agent-guard/src/hook.rs:376-396 | parsing undoes printing if and only if the program is one of ours and its path has no double quote |
| `HookCommand.PrintedFlags` | crates/agent-guard/src/hook.rs:376-396 | what is printed: the quoted program, `hook`, one mode flag at most, of which monitoring wins, and the agent if it is a plain id |
| `SettingsWritten.OursExactly` | crates/agent-guard/src/hook.rs:753-784 | a command is ours, in this mode and for this agent, if and only if its words are one of our programs, `hook`, and the flags for them: none more, none twice, none in another order |
| `OurPrograms.WardenAnywhere` | crates/agent-guard/src/hook.rs:713-726 | `innerwarden`, with `.exe`, `.cmd`, `.bat` or nothing behind it and in any case, is ours in every directory |
| `OurPrograms.OthersNowhere` | crates/agent-guard/src/hook.rs:713-729 | a program of any other name but `iw` is ours in none |
| `OurPrograms.IwByDirectory` | crates/agent-guard/src/hook.rs:727-740 | `iw` is ours below `.local/bin`, and below `target` in `debug` or `release`, and nowhere else |
| `OurPrograms.SystemIw` | crates/agent-guard/src/hook.rs:731-733 | `/usr/sbin/iw` is not ours |
| `OurPrograms.BuiltIw` | crates/agent-guard/src/hook.rs:735-740 | `/repo/target/debug/iw` is |
| `HookEdits.RetainHooks` | crates/agent-guard/src/hook.rs:178-203 | the in-place pass over one entry's hooks, with its `installed` flag, is the recursive specification |
| `HookEdits.RetainEntries` | crates/agent-guard/src/hook.rs:163-207 | the in-place pass over all entries, likewise |
| `HookEdits.EditedHooks` | crates/agent-guard/src/hook.rs:178-203 | of the hooks it picks a pass leaves at most one, brought up to date, none elsewhere; it leaves the others in order; a second pass finds nothing to do |
| `HookEdits.EditTwice` | crates/agent-guard/src/hook.rs:163-207 | the whole pass is idempotent on any entries |
| `HookEdits.Kept` | crates/agent-guard/src/hook.rs:178-203 | the one picked hook left among the entries that may hold it is the first there was, brought up to date |
| `HookEdits.OthersSurvive` | crates/agent-guard/src/hook.rs:163-207 | a pass leaves everything it does not pick in its entry, in order, with the entry's other fields |
| `HookEdits.EditsNothing` | crates/agent-guard/src/hook.rs:163-207 | a pass changes nothing if and only if the entries are tidy: at most one picked hook, up to date, in a host |
| `HookEdits.OthersUnder` | crates/agent-guard/src/hook.rs:163-207 | hooks a pass does not pick stay under the matchers they were under |
| `HookEdits.RemovesNothing` | crates/agent-guard/src/hook.rs:1117-1125 | removing changes nothing if and only if no hook is picked and no entry has an empty hook list |
| `HookEdits.RemovedIsClean` | crates/agent-guard/src/hook.rs:1105-1127 | what removing leaves holds nothing to remove, and a second removal changes nothing |
| `HookSettings.FileToolsCover` | crates/agent-guard/src/hook.rs:292-303 | the file-tools matcher includes each of the four file tools and excludes Bash |
| `Matchers.CoverageExactly` | crates/agent-guard/src/hook.rs:803-829 | a matcher absent, empty or `*` includes every tool; a list of names of letters, digits, `_` and `-` with bars between includes those it names and excludes the rest; every other matcher is ambiguous |
| `Matchers.FileToolsAre` | crates/agent-guard/src/hook.rs:292-303 | the file tools are the four that write files |
| `HookSettings.MergeBashHook` | crates/agent-guard/src/hook.rs:142-213 | the settings after the Bash merge, the malformed shapes it repairs included |
| `HookSettings.MergeFileHook` | crates/agent-guard/src/hook.rs:224-290 | the settings after the file-tools merge |
| `HookSettings.MergePostHook` | crates/agent-guard/src/hook.rs:103-140 | the settings after the PostToolUse merge |
| `HookSettings.RemoveHook` | crates/agent-guard/src/hook.rs:1108-1127 | the settings without our hooks, and how many there were |
| `HookMerges.BashMerged` | crates/agent-guard/src/hook.rs:142-213 | after the Bash merge of a recognised command one hook of ours runs for Bash, that command, and no other entry but the file-tools one holds any |
| `HookMerges.FileMerged` | crates/agent-guard/src/hook.rs:224-290 | the file-tools merge leaves what runs for Bash as it was, and only this command under the file-tools matcher |
| `HookMerges.BashKeepsFields` | crates/agent-guard/src/hook.rs:178-203 | the hook that then runs for Bash is the first of ours that did, with every field it had but type and command, or else a new one |
| `HookMerges.FileKeepsFields` | crates/agent-guard/src/hook.rs:252-268 | in the file-tools entry the file merge leaves the first hook of ours that was there, with every field it had but type and command, or a new one, or none |
| `HookMerges.MergesKeepFields` | crates/agent-guard/src/hook.rs:142-290 | and so after both merges |
| `HookMerges.EveryHookKeepsFields` | crates/agent-guard/src/hook.rs:142-290 | every hook of ours after both merges is new, or one that was there with nothing but type and command changed |
| `HookMerges.OneHookEntry` | crates/agent-guard/src/hook.rs:178-203 | an entry under a matcher that includes Bash whose one hook is ours stays that entry, with that hook brought up to date |
| `HookMerges.OneCommand` | crates/agent-guard/src/hook.rs:142-290 | after both merges exactly one hook of ours runs for Bash, every hook of ours anywhere is this command, and the strongest mode is the command's |
| `HookMerges.FileToolsJudged` | crates/agent-guard/src/hook.rs:305-328 | after both merges the file tools are judged the way the shell is |
| `HookMerges.JudgedExactly` | crates/agent-guard/src/hook.rs:305-328 | the file tools are judged if and only if a hook of ours that refuses runs for all of them, or one that monitors does while none that refuses runs for Bash |
| `HookMerges.StrongestRuns` | crates/agent-guard/src/hook.rs:844-859 | the strongest mode for Bash blocks review if a hook of ours running for it does, else enforces if one does, else monitors if one does |
| `HookMerges.OperatorHooksSurvive` | crates/agent-guard/src/hook.rs:103-290 | through each of the merges every operator hook stays in its entry, in order |
| `HookMerges.RemovedAfterMerges` | crates/agent-guard/src/hook.rs:1108-1127 | removing after both merges is removing alone, and gives the entries back if and only if they held no hook of ours and no empty hook list |
| `HookMerges.MergesSettle` | crates/agent-guard/src/hook.rs:103-290 | merging the same command again changes nothing |
| `HookMerges.MergesNothing` | crates/agent-guard/src/hook.rs:142-290 | the two PreToolUse merges change nothing if and only if the command is wired already: one hook for Bash, at most one in the file-tools entry, none elsewhere, all up to date, and every file tool covered |
| `HookMerges.OtherWired` | crates/agent-guard/src/hook.rs:142-290 | merging a command of ours does not change whether a command that is not ours is wired already |
| `HookRuns.AutomaticInstall` | crates/agent-guard/src/hook.rs:537-619 | the decision: refuse, skip, or write the three merges of the command kept at the stronger mode |
| `HookRuns.SafeAfter` | crates/agent-guard/src/hook.rs:330-364 | settings that setup may merge stay so after the merges |
| `HookRuns.MergedTwice` | crates/agent-guard/src/hook.rs:583-599 | the three merges of one command, repeated, change nothing |
| `HookRuns.NextReads` | crates/agent-guard/src/hook.rs:407-426 | what the next run reads: nothing ambiguous, the agent and the mode of the command written |
| `HookRuns.StrongestExactly` | crates/agent-guard/src/hook.rs:565-577 | the strongest mode afterwards is what the written command reads as, and is the stronger of before and requested if and only if the program's own words name no other mode |
| `HookRuns.SetupNeverLowers` | crates/agent-guard/src/hook.rs:565-577 | for a path without a double quote: Bash is under review afterwards if and only if it was or that was asked for, and is only monitored if and only if that was asked for and nothing stronger was there |
| `HookRuns.SetupKeepsTheAgent` | crates/agent-guard/src/hook.rs:407-426 | and every hook of ours names the agent the first of them named, or Claude Code if there was none |
| `HookRuns.WritesOnlySound` | crates/agent-guard/src/hook.rs:330-364 | setup writes only where nothing on the way to the PreToolUse hooks is malformed, key by key |
| `HookRuns.AmbiguousLeftBe` | crates/agent-guard/src/hook.rs:557-564 | a hook of ours under a matcher that could include Bash or not makes setup leave the file as it is |
| `SettingsWritten.OnlyTheHookLists` | crates/agent-guard/src/hook.rs:103-290 | setup changes the two lists of hooks, and no other key of the settings or of their hooks |
| `SettingsWritten.EntriesByKey` | crates/agent-guard/src/hook.rs:142-165 | the entries of an event are the list at its key under `hooks`, and none where that is not a list |
| `SettingsWritten.FirstSetup` | crates/agent-guard/src/hook.rs:103-290 | settings without hooks gain exactly one entry for the shell, one for the file tools and one after every tool |
| `HookRuns.SecondRun` | crates/agent-guard/src/hook.rs:498-639 | a second run leaves the file as it is: it skips, or, with a double quote in the path, refuses |
| `HookRuns.ReconcilesExactly` | crates/agent-guard/src/hook.rs:1074-1103 | something is left to reconcile if and only if the path has a double quote and the command the preview comes to was not wired all along |
| `HookRuns.SetupConverges` | crates/agent-guard/src/hook.rs:498-639 | all of this of every run of setup that goes ahead, with the file tools judged the way the shell is |
| `HookRuns.SetupCanLower` | crates/agent-guard/src/hook.rs:565-577 | settings and a program for which setup goes ahead, asked to enforce, and turns an enforcing hook into one that monitors |
| `HookRuns.NothingLeftForTheQuoted` | crates/agent-guard/src/hook.rs:1074-1103 | settings and a path with a double quote for which nothing is left to reconcile: an operator hook is word for word the command the preview comes to |
| `HookRuns.PostToolUseUnchecked` | crates/agent-guard/src/hook.rs:330-364 | what the operator had under PostToolUse survives automatic setup if and only if it was a list, which the safety check does not look at |
| `HookRuns.PostToolUseReplaced` | crates/agent-guard/src/hook.rs:330-364 | settings that pass the safety check, with anything but a list under PostToolUse: automatic setup writes its own hook in its place |
| `Json5Shape.HasBalancedShape` | crates/agent-guard/src/agents_ops.rs:333-426 | the byte loop with its state, escape flag, delimiter stack and lookahead accepts exactly the UTF-8 inputs that are a balanced object |
| `Utf8Text.Utf8Exactly` | crates/agent-guard/src/agents_ops.rs:333-336 | the bytes taken for text are exactly the UTF-8 encodings of sequences of scalar values |
| `Json5Grammar.DocRead` | crates/agent-guard/src/agents_ops.rs:333-426 | every file the grammar spells is accepted, and its object ends where the grammar says |
| `Json5Grammar.AcceptsExactly` | crates/agent-guard/src/agents_ops.rs:329-426 | the accepted shapes are exactly those the grammar spells |
| `Json5Grammar.TruncatedRefused` | crates/agent-guard/src/agents_ops.rs:329-426 | a file cut anywhere before its closing brace is refused |
| `Json5Grammar.BlankBytes` | crates/agent-guard/src/agents_ops.rs:385-391 | the bytes that may stand alone before an object, by number |
| `Json5Grammar.LineEndBytes` | crates/agent-guard/src/agents_ops.rs:367-371 | the two bytes that end a line comment |
| `Json5Grammar.QuoteBytes` | crates/agent-guard/src/agents_ops.rs:400-404 | the two bytes between which a brace does not count |
| `Json5Grammar.EscapeByte` | crates/agent-guard/src/agents_ops.rs:356-366 | the one byte that keeps a quote from closing its string |
| `Json5Grammar.MarkBytes` | crates/agent-guard/src/agents_ops.rs:385-391 | a byte order mark may stand before an object and not after it |
| `Discovery.Canonical` | crates/agent-guard/src/agents.rs:181-199 | the agent found answers to the normalized name, and none is found only if none answers |
| `AgentNames.CaseAndSeparators` | crates/agent-guard/src/agents.rs:181-199 | letters in either case, and a space, an underscore or a hyphen for one another, name the same agent |
| `AgentNames.MoreSeparators` | crates/agent-guard/src/agents.rs:181-199 | a separator more, before, after or next to another, names the same agent |
| `AgentNames.BlanksAround` | crates/agent-guard/src/agents.rs:181-199 | whitespace of any kind around a name does not count |
| `AgentNames.KnownByName` | crates/agent-guard/src/agents.rs:181-199 | lower-case words with single hyphens are taken for an agent of the table if and only if they are one of its names |
| `Discovery.OneSummary` | crates/agent-guard/src/agents.rs:341-427 | there is one list of rows for what was found, taken as sets |
| `Discovery.LeftoverAlone` | crates/agent-guard/src/agents.rs:310-328 | evidence has no repeats, `PossibleLeftover` stands only alone, and `installed` is exactly that an executable was found |
| `Discovery.RowsInOrder` | crates/agent-guard/src/agents.rs:422-427 | names stand in order of the first character in which two differ, pids ascend, and evidence runs from an executable down to a leftover |
| `AgentListing.AddEvidence` | crates/agent-guard/src/agents.rs:310-328 | adding an item leaves the settled, ordered evidence of what was shown and that item, and nothing else of the row changes |
| `AgentListing.Listing.UpsertKnown` | crates/agent-guard/src/agents.rs:346-379 | the rows so far, one per name, become the rows with this piece |
| `AgentListing.Listing.UpsertUnknown` | crates/agent-guard/src/agents.rs:391-412 | likewise for a process no known agent answers to |
| `AgentListing.SortRows` | crates/agent-guard/src/agents.rs:422-427 | sorting leaves one row per name in order of name, each with its pids in order |
| `AgentListing.SummarizeDiscovered` | crates/agent-guard/src/agents.rs:341-427 | the loops leave exactly the rows of what was found: names, sorted unique pids, evidence, table fields, guarded flag |
| `AgentListing.OrderDoesNotShow` | crates/agent-guard/src/agents.rs:341-427 | the same findings in any order give the same list |
| `AgentRows.GenericName` | crates/agent-guard/src/agents_ops.rs:584-612 | the search ends, and gives the first free of the base, the base with `-mcp`, and the numbered names from 2 |
| `AgentRows.NumberedName` | crates/agent-guard/src/agents_ops.rs:604-611 | the suffix loop ends at the first free number: each name it passes is another of the finitely many taken |
| `AgentNames.OneFirstFree` | crates/agent-guard/src/agents_ops.rs:597-611 | there is one such name, and for the folder of a known agent it is the base with `-mcp` if that is free |
| `AgentNames.FolderNames` | crates/agent-guard/src/agents_ops.rs:584-596 | leading dots, case and separators of a folder do not show in the base, a plain folder is its own base, and without a folder it is `unknown` |
| `AgentNames.DecimalReads` | crates/agent-guard/src/agents_ops.rs:606-607 | the number is written in decimal digits without leading zeros |
| `AgentRows.RowsFromSources` | crates/agent-guard/src/agents_ops.rs:863-918 | all rows have distinct names in order; every summary row is there; every other row tells of a compatible configuration whose path no summary row has, under a name no known agent has, guarded only if it can be wrapped and is; every compatible configuration is told of, or its path is a row's |

## Left out

- LoopBreaker.Breaker.Record: does not model the wrap-around of the touch counter after 2^64 calls; the counter is a natural number.
- McpWireToml.WrapSimulates: does not model the space and comments a TOML library puts around words it adds; they do not enter any comparison.
- AgentListing.SummarizeDiscovered: takes the table of known agents with name, aliases and wiring paths only; executables, configuration files and profiles belong to the scan of the disk.
- AgentRows.GenericName: takes the folder's name as given; splitting a path into its folder is the path library's.
- File-system work behind the steps of the update: ownership and modes of locks and targets, access control lists, symlink inspection, syncing, the Windows replacement calls. A failure of any of them is a writer that gives up.
- `lock_still_names` outside Unix, which always says yes; there the second name check is no check.
- Owner-refusal and mode-bit rules of `file_update.rs`: finite tables.
- Reading, parsing and pretty-printing settings and configurations; an absent or blank settings file is an empty object.
- Explicit (non-automatic) hook installation, which differs from the automatic decision in three branches and shares its merges.
- The offer to name an unnamed hook, the judgement of whether a hook's or proxy's program can start, and `effective_iwguard_hook_mode`.
- `is_automatic_wrap_safe` and its TOML twin, counts of remote servers, and lists of wrapper programs: single passes over shapes.
- Process scanning, `PATH` lookup, bounded directory walks and format checks of discovery, whose results are inputs here.
- Messages, listings, notifications, the dashboard, launchers and installers.
- `identity.rs`, `file_tools.rs` (beyond the file-tools matcher), `redact.rs`, `deobfuscate.rs`, `benchmark.rs`, `asi.rs`, `hook_targets.rs` and `detect.rs`.
