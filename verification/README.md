# PoracleNG: a verified model of its hardest parts

PoracleNG turns game webhooks into chat alerts. This project models the parts of it
with the most state and branching, and proves what they are relied on for.

- **The JSON5 reader and writer** (`scripts/vendor-json5.js`; the standard is the JSON5
  Data Interchange Format 1.0.0). A character-level lexer, a token-level parser with an
  explicit stack, a serialiser with quote selection, escaping, gaps and cycle detection.
  Reading undoes writing for every finite tree and style; white space and comments
  between tokens never change what is read; the reader as the source runs it, on module
  variables and heap containers, computes what the specification says, ends on every
  input and reports only lines that exist; the writer throws exactly when a cycle is
  reachable.
- **The config migration** (`scripts/migrate-from-poracle.js`; TOML v1.0.0, sections
  "Keys", "Table" and "Array of Tables"). The lines of `writeToml`, read by an evaluator
  with a current-table pointer, rebuild the tree without its nulls and empty tables; and
  overlaying what `deepDiff` keeps gives the same configuration as the overrides.
- **The alert pipeline** (`processor/cmd/processor/`). The tile gate and the shutdown as
  state machines over every interleaving; the wall-clock scheduler; the summary digest;
  the raid template lifecycle over every run; the fan-out of pokemon alerts.
- **Saving the configuration** (`processor/internal/api/`). Default elision, masking and
  the flattening of table rows, the text that is written, and for every field exactly when
  the next start reads what was saved.

`dafny verify dfyconfig.toml` checks everything.

## How the model reads the source

- Text is a Dafny `string` of Unicode code points. What counts as an identifier
  character comes from two tables; only what the proofs need of them is stated
  (`Json5Text.SoundTables`).
- Code that changes things step by step is imperative here too: `Json5Reader.Json5Reader`
  has the module variables of the reader as fields and builds heap containers;
  `Json5Graph.Stringifier` pushes and pops its stack; the filters of
  `processor/cmd/processor/helpers.go` compact an array in place;
  `ConfigSave.ConfigFile`, `ConfigForm.Submission` and `QuestBuffer.SummaryBuffer` are
  updated in place. Each method is proved against a function or a relation of its inputs,
  and the lemmas are about that.
- Map iteration in Go is unordered, so loops over a map pick any remaining key; what
  depends on the pick is proved for every one, as for the listings of the summary buffer.
- Goroutines, channels and wait groups are steps of a state machine; a theorem about a
  run is about every sequence of possible steps.
- The render pool and its channel have at least one place each, as start-up makes sure
  (`processor/cmd/processor/main.go:170-173` and `processor/cmd/processor/main.go:1643-1646`).
- A configuration file is read as `config.Load` reads it: along the dotted path of a
  section's name, falling back to the loader's own defaults
  (`processor/internal/config/config.go:792-946`), which are independent of the defaults
  that the schema declares.
- Enrichment, translation, template lookup, the rate limiter, the validator, mutes, the
  human store and clocks are parameters: arbitrary functions or values.

## What turned out to be false

Where the code does not meet a property, the model keeps the code and the exact
condition is proved.

- A tree with a null inside an array is written to lines that TOML cannot read:
  `TomlCorrect.ReadableIff`.
- A shared base tile next to an alert with a tile of its own lets a worker read the map
  while the gate writes it, if that alert is among the first that the pool can take:
  `TileGate.SafeIff`, and for any pool `TileGate.SafeIffApart`. The premise that the two never occur
  together is stated at `processor/cmd/processor/enrich.go:631-638`.
- A sender that the wait group does not count can meet the closed render channel:
  `ShutdownGuarantees.SafeIffAllCounted`. The profile scheduler
  (`processor/cmd/processor/main.go:256`), which nothing waits for, dispatches by itself
  and can do so after the dispatcher stopped: `ShutdownGuarantees.NoLateDispatchIff`.
- In zones a quarter hour off the half hour, three ticks can see one fire:
  `Schedule.ThriceIff`.
- Default elision is not invisible. A value equal to the schema's default is not written,
  and what is read for it then is the loader's default, which may differ: `telegram.enabled`
  is false in `processor/internal/api/config_schema.go:190` and true in
  `processor/internal/config/config.go:924`, `pvp.filter_max_rank` is 10 at line 250 and
  100 at line 809, `locale.address_format` is a template at line 120 and empty at lines
  847-856. Saving such a value does not take effect: `ConfigSave.TelegramComesBackOn`,
  and exactly when in `ConfigSave.TakesEffectIff` and `ConfigSave.ElisionIsInvisibleIff`.
- An update of a section with a dotted name is saved where the loader does not look, with
  its outer section or without: `ConfigSave.DottedSectionIsNotRead`. The comment at
  `processor/internal/api/config_writer.go:33-35` says that the caller expands such names;
  the handler at `processor/internal/api/huma_config.go:210-220` does not.
- Resubmitting the form unchanged changes a field that was written out with a schema
  default that is not the loader's; it also renames a tileserver key with white space
  around it and loses an empty one: `ConfigForm.ResubmittingIff`,
  `ConfigForm.SettingsComeBackIff`.
- A section of an update need not be a table: both validators let such a body through
  (`processor/internal/api/config_values.go:143-146`,
  `processor/internal/api/config_validate.go:31-34`). Its value is written as a key without
  a header, and behind the header of another section, so it becomes a key of that one. For
  `{"general": 5}` the section reads as the loader's defaults:
  `ConfigText.ScalarForSection`. `{"locale": "fr"}` sets `general.locale`, or, where that is
  set, makes the whole file unreadable: `ConfigText.ScalarForAnotherField`. Exactly when the
  file can be read is `ConfigText.UpdateLoadsIff`, and what is read then
  `ConfigText.NextStart`.
- Quests do not come in the order in which they arrived, as the comment at
  `processor/cmd/processor/quest_summary_dispatch.go:66-68` has it: the buffer is a map, and
  its listing is in any order (`processor/internal/tracker/summary_buffer.go:166-180`). Two
  that come in reverse: `DigestOrder.ListedInReverse`. The digest is that of the order of
  arrival from every listing exactly when all that pays has one key and one view:
  `DigestOrder.DigestKeptIff`, and apart for groups and rows `DigestOrder.OrderKeptIff` and
  `DigestOrder.ViewsKeptIff`.
- Whether a digest is sent at all depends on the listing too, as the validator is asked
  about the row listed first (`processor/cmd/processor/quest_summary_dispatch.go:141`):
  `DigestOrder.ReadyKeptIff`.

Only a comment is wrong at `processor/cmd/processor/render.go:261-264`: under queue pressure
one of the two channels of a pending tile is drained and not both, but each has a place of
its own (`processor/internal/staticmap/staticmap.go:408-409`), so nothing blocks.

## Model

| member | source | states |
|---|---|---|
| `Json5Lexer.Step` | scripts/vendor-json5.js:476-1050 | every turn of the lexer reads a character, leaves the loop, or moves from `default` to `value`, which is why `lex` ends |
| `Json5Lexer.StepKeeps` | scripts/vendor-json5.js:443-447 | in every lexer state that a parser state can reach, a turn stays reachable, so the branches marked unreachable are, and what it emits fits the parser state |
| `Json5Lexer.LexPromises` | scripts/vendor-json5.js:430-449 | on every text, a token that `lex` returns is one its parser state accepts, and every token but eof has consumed a character |
| `Json5Lexer.RunRemains` | scripts/vendor-json5.js:430-474 | what is left unread is always the end of what there was |
| `Json5Lexer.HexDigits` | scripts/vendor-json5.js:1150-1184 | an escape reads exactly its digits or fails on the first that is none |
| `Json5Parser.LexerIsSound` | scripts/vendor-json5.js:430-449 | the lexer as one function keeps all its promises to the parser |
| `Json5Parser.Advance` | scripts/vendor-json5.js:1186-1306 | each token that fits the state leads to a consistent parser again |
| `Json5Parser.Complete` | scripts/vendor-json5.js:1331-1367 | attaching a finished value leaves a consistent parser, at the end if nothing is open |
| `Json5Parser.Pop` | scripts/vendor-json5.js:1373-1384 | closing the innermost container leaves a consistent parser |
| `Json5Parser.ReachedIsConsistent` | scripts/vendor-json5.js:367-376 | in every state the parser reaches, `parseState` agrees with the top of the stack and with whether `root` is set |
| `Json5Parser.AcceptsAtEndOnly` | scripts/vendor-json5.js:357-384 | a text is accepted exactly when a state `end` with an empty stack and one complete root is reached and only eof follows |
| `Json5Trivia.SkipGaps` | scripts/vendor-json5.js:477-580 | any white space and closed comments in front of a text do not change its first token or what is left after it |
| `Json5Trivia.RunLocal` | scripts/vendor-json5.js:430-449 | a token depends on what follows it only through whether that goes on with the token |
| `Json5Trivia.FirstTokenKept` | scripts/vendor-json5.js:430-449 | a token before the gap is read as without the gap |
| `Json5Trivia.InsertGaps` | scripts/vendor-json5.js:357-384 | inserting any white space or closed comments between two tokens of a text leaves the outcome of `parse` unchanged (sections 7 and 8 of the JSON5 specification) |
| `Json5Writer.ScanString` | scripts/vendor-json5.js:1565-1612 | the loop builds the product and counts both quotes |
| `Json5Writer.QuoteStringLoop` | scripts/vendor-json5.js:1565-1623 | the literal with the quote that needs fewer escapes |
| `Json5RoundTrip.ReadQuoted` | scripts/vendor-json5.js:1565-1623 | for every string, the lexer started on `quoteString(s)` consumes exactly the whole literal and yields `s`, whichever quote is chosen (section 5.1 of the JSON5 specification) |
| `Json5RoundTrip.ReadCode` | scripts/vendor-json5.js:1585-1612 | whenever one turn of the loop of `quoteString` writes an escape for a character, NUL before a digit and control characters included, that escape reads back as the character |
| `Json5RoundTrip.ReadNumber` | scripts/vendor-json5.js:729-913 | every number written is read back as the same number, when no identifier character follows |
| `Json5RoundTrip.ReadKey` | scripts/vendor-json5.js:1671-1688 | every key, bare or quoted, is read back as itself up to its colon |
| `Json5RoundTrip.ReadValue` | scripts/vendor-json5.js:1522-1563 | whatever is open and whatever follows, reading a written value completes exactly that value and leaves what follows |
| `Json5RoundTrip.ReadItems` | scripts/vendor-json5.js:1690-1723 | the items of a written array, with its separators and trailing comma, are read in order |
| `Json5RoundTrip.ReadMembers` | scripts/vendor-json5.js:1625-1669 | the members of a written object are read in order |
| `Json5RoundTrip.ParseUndoesStringify` | scripts/vendor-json5.js:1462-1724 | for every finite tree, every gap of white space and every quote choice, parsing the output of `stringify` gives the value of the tree |
| `Json5RoundTrip.ParseUndoesIndented` | scripts/vendor-json5.js:1510-1519 | in particular for every numeric space option |
| `Json5Writer.CollectedLookup` | scripts/vendor-json5.js:1341-1346 | members with distinct keys all keep their values |
| `Json5Reader.Json5Reader.Read` | scripts/vendor-json5.js:457-474 | `line` stays 1 plus the newlines before `pos` |
| `Json5Reader.Json5Reader.Lex` | scripts/vendor-json5.js:430-449 | the loop on module variables gives the specified token and stops where it ends |
| `Json5Reader.Json5Reader.PushToken` | scripts/vendor-json5.js:1308-1371 | the heap stack goes on representing the specified one when a value is attached in place |
| `Json5Reader.Json5Reader.Pop` | scripts/vendor-json5.js:1373-1384 | so it does when a container is closed |
| `Json5Reader.Json5Reader.ParseToken` | scripts/vendor-json5.js:1186-1306 | one call of `parseStates[parseState]` is one specified step |
| `Json5Reader.Json5Reader.Parse` | scripts/vendor-json5.js:357-384 | on every text `parse` ends, and returns a root that denotes the specified value or fails where the specification does |
| `Json5Reader.ReportedLineExists` | scripts/vendor-json5.js:1455-1460 | a text is rejected at one of its own ends, and the line reported for that is one of the lines that `readJsonc` splits the text into (`scripts/migrate-from-poracle.js:28-46`) |
| `Json5Graph.Stringifier.SerializeProperty` | scripts/vendor-json5.js:1522-1563 | a node is written as what it unfolds to, or refused, with `stack` and `indent` restored |
| `Json5Graph.Stringifier.SerializeObject` | scripts/vendor-json5.js:1625-1669 | the same for the members of an object |
| `Json5Graph.Stringifier.SerializeArray` | scripts/vendor-json5.js:1690-1723 | the same for the items of an array |
| `Json5Graph.UnfoldFailsOnCycles` | scripts/vendor-json5.js:1625-1630 | descending with the stack of open containers fails exactly when a cycle is reachable from the root; shared nodes on no cycle never trip it |
| `Json5Graph.Stringifier.StringifyGraph` | scripts/vendor-json5.js:1462-1724 | `stringify` ends on every finite graph, throws exactly when a cycle is reachable, and otherwise writes the unfolding |
| `TomlWriter.WriteToml` | scripts/migrate-from-poracle.js:151-194 | the three loops together give the specified lines |
| `TomlWriter.SortEntries` | scripts/migrate-from-poracle.js:156-169 | every entry goes to the one place that writes it |
| `TomlWriter.WriteTables` | scripts/migrate-from-poracle.js:171-181 | each table's header, unless omitted, in front of its content |
| `TomlWriter.WriteItemField` | scripts/migrate-from-poracle.js:140-149 | a field of an item pushes its line, or one dotted line for each field below it |
| `TomlWriter.WriteItems` | scripts/migrate-from-poracle.js:183-192 | each item of an array of tables gets a header and its fields |
| `TomlCorrect.WrittenUnder` | scripts/migrate-from-poracle.js:171-181 | writing under a prefix puts that prefix in front of every header and changes nothing else |
| `TomlCorrect.EvalUnder` | scripts/migrate-from-poracle.js:171-181 | lines written under a table are read into that table as a document of their own would be |
| `TomlCorrect.OmittedHeader` | scripts/migrate-from-poracle.js:173-179 | when `hasDirect` is false no key is written before the first header inside the table |
| `TomlCorrect.EvalUnderFresh` | scripts/migrate-from-poracle.js:173-179 | so omitting the header misplaces no key, wherever the pointer was |
| `TomlCorrect.WrittenMeans` | scripts/migrate-from-poracle.js:151-194 | for every tree without a null in an array, the lines are readable, no header is defined twice, and they mean the tree without its nulls and empty config tables |
| `TomlCorrect.ReadableIff` | scripts/migrate-from-poracle.js:102-117 | the lines are readable exactly when no array holds a null |
| `TomlCorrect.NullInArrayIsUnreadable` | scripts/migrate-from-poracle.js:106-108 | one that is not |
| `ConfigDiff.DeepDiffLoop` | scripts/migrate-from-poracle.js:81-94 | the loop fills in the specified difference |
| `ConfigDiff.DiffFind` | scripts/migrate-from-poracle.js:81-94 | key by key, what the difference holds |
| `ConfigDiff.DiffKeepsOverlay` | scripts/migrate-from-poracle.js:81-94 | overlaying the difference on the defaults equals overlaying the overrides themselves |
| `ConfigDiff.KeptLeavesDiffer` | scripts/migrate-from-poracle.js:81-94 | every leaf that is kept differs from the default at its path |
| `TileGate.RunKeeps` | processor/cmd/processor/weather.go:212-304 | what every interleaving of dispatcher, gates and workers keeps |
| `TileGate.NoReadOverlapsWrite` | processor/cmd/processor/weather.go:217-228 | no read of the shared enrichment map overlaps the gate's write |
| `TileGate.SafeIff` | processor/cmd/processor/weather.go:217-304 | for a given call and pool, that holds exactly when none of the first jobs that the workers can take has a tile of its own next to a shared base tile |
| `TileGate.SafeIffApart` | processor/cmd/processor/weather.go:284-304 | for a pool of any size, it holds exactly when a shared base tile and alerts with tiles of their own do not go out together |
| `TileGate.OneTileForAll` | processor/cmd/processor/render.go:122-129 | all jobs on the shared gate render the tile it resolved to |
| `TileGate.OneReceiver` | processor/cmd/processor/render.go:48-59 | no pending tile has two receivers; the base tile and the tile of every alert that goes out have one, the tile of a suppressed user none |
| `Shutdown.StepKeepsControl` | processor/cmd/processor/main.go:1752-1778 | each step keeps the order in which the parts go down |
| `Shutdown.StepBalances` | processor/cmd/processor/render.go:111-118 | each step keeps every sent job queued, in a worker's hands or processed |
| `ShutdownGuarantees.CloseIsSafe` | processor/cmd/processor/main.go:1752-1778 | in every interleaving only a sender that is not counted sends on the closed channel, only a goroutine that nothing waits for dispatches after the dispatcher stopped, and by then every job sent has been processed as often as it was sent |
| `ShutdownGuarantees.SomeStepProgresses` | processor/cmd/processor/main.go:1752-1778 | until it is done, some step always gets the shutdown nearer its end, with workers blocked on a full channel too |
| `ShutdownGuarantees.CloseCanEnd` | processor/cmd/processor/main.go:1752-1778 | from every state that any interleaving reaches, `Close` can be brought to its end with nothing left queued and nothing going wrong on the way: no deadlock |
| `ShutdownGuarantees.RunsAreBounded` | processor/cmd/processor/main.go:1752-1778 | a run is no longer than what there was to do and what senders, ticks and dispatches feed it: one that does not end is fed without end |
| `ShutdownGuarantees.SafeIffAllCounted` | processor/cmd/processor/main.go:1754-1760 | the channel guarantee holds exactly when every sender is counted |
| `ShutdownGuarantees.NoLateDispatchIff` | processor/cmd/processor/main.go:1764-1777 | nothing is dispatched after the dispatcher stopped, in any interleaving, exactly when no goroutine dispatches that nothing waits for |
| `Schedule.MatchesTimeWindow` | processor/cmd/processor/profiles.go:172-189 | due exactly when one of its fires passes one of the three tests |
| `Schedule.IsScheduleActive` | processor/cmd/processor/profiles.go:137-158 | active exactly when some fire of some entry is due |
| `Schedule.DueExactly` | processor/cmd/processor/profiles.go:172-189 | the hour and minute tests in terms of circular distance around the week |
| `Schedule.DueRefinesDistance` | processor/cmd/processor/profiles.go:160-189 | never misses the ten minutes from a fire, never runs past eighteen, exact at the scheduler's marks, across hour, midnight and week |
| `Schedule.NextScheduleTime` | processor/cmd/processor/profiles.go:34-45 | the first mark not before now, and no mark in between |
| `Schedule.TicksAreDense` | processor/cmd/processor/profiles.go:16 | there is a tick within ten minutes of every minute |
| `Schedule.EveryFireIsSeen` | processor/cmd/processor/summary_scheduler.go:111-135 | whatever the zone offset, every fire is due at some tick within ten minutes |
| `Schedule.Rounds` | processor/cmd/processor/summary_scheduler.go:111-127 | each round of the loop waits for the first tick that is not before its clock |
| `Schedule.VisitsEachIff` | processor/cmd/processor/summary_scheduler.go:111-127 | a run of the loop visits every tick of its time exactly once if and only if each round is over after its own mark and not after the next |
| `Schedule.RunSeesEveryFire` | processor/cmd/processor/summary_scheduler.go:111-135 | such a run sees every fire of its time |
| `Schedule.NotThrice` | processor/cmd/processor/summary_scheduler.go:111-135 | for whole and half hour offsets no three ticks of a week see one fire |
| `Schedule.ThriceIff` | processor/cmd/processor/profiles.go:16 | of the quarter-hour offsets exactly those have that |
| `QuestDigest.DropExpired` | processor/cmd/processor/quest_summary_dispatch.go:48-55 | the compaction in place keeps exactly the rows that have not expired, in order |
| `QuestDigest.ChunkPerMessage` | processor/cmd/processor/quest_summary_dispatch.go:261-279 | the loop gives the specified chunks |
| `QuestDigest.ChunksConserve` | processor/cmd/processor/quest_summary_dispatch.go:257-279 | the chunks joined are the entries; none is empty or too large, all but the last are full, and they are numbered 1 to ceil(n / size) |
| `QuestDigest.GroupRows` | processor/cmd/processor/quest_summary_dispatch.go:88-112 | groups, their running summaries and the first-seen order |
| `QuestBuffer.SummaryBuffer.Append` | processor/internal/tracker/summary_buffer.go:83-123 | the row under its key, with the clean bits of the one it replaces added; no other bucket is touched |
| `QuestBuffer.SummaryBuffer.List` | processor/internal/tracker/summary_buffer.go:166-180 | a copy of the bucket, each row once, in any order |
| `QuestBuffer.SummaryBuffer.Clear` | processor/internal/tracker/summary_buffer.go:183-198 | removes that bucket and no other, and its user when nothing is left of them |
| `QuestBuffer.ListingsArePermutations` | processor/internal/tracker/summary_buffer.go:166-180 | the listings of a bucket are exactly the permutations of its rows in order of arrival |
| `QuestBuffer.BitsAddUp` | processor/internal/tracker/summary_buffer.go:109-121 | a row has a clean bit exactly when some row appended under its key had it |
| `QuestBuffer.LatestWins` | processor/internal/tracker/summary_buffer.go:80-82 | and is otherwise the last row appended under its key |
| `QuestDigest.Summarise` | processor/cmd/processor/quest_summary_dispatch.go:45-242 | nothing is sent unless every gate passes, and the rate limiter is charged only for a digest that is ready |
| `QuestDigest.DispatchQuestSummary` | processor/cmd/processor/quest_summary_dispatch.go:27-43 | on every path after a non-empty listing the bucket is gone and no other is touched |
| `QuestDigest.DigestPaysWhatIsOwed` | processor/cmd/processor/quest_summary_dispatch.go:93-118 | a digest that is sent delivers, for each key, each unexpired enrichable row of the bucket exactly once and in order |
| `DigestOrder.AnyListingPays` | processor/cmd/processor/quest_summary_dispatch.go:35-118 | from every listing, a digest that is sent delivers to each key each row that is owed exactly once |
| `DigestOrder.ListedInReverse` | processor/cmd/processor/quest_summary_dispatch.go:66-68 | two quests of different rewards, of which the second to arrive is listed and sent first |
| `DigestOrder.OrderKeptIff` | processor/cmd/processor/quest_summary_dispatch.go:93-101 | the groups come in order of arrival from every listing exactly when all rows that pay have one key |
| `DigestOrder.ViewsKeptIff` | processor/cmd/processor/quest_summary_dispatch.go:93-101 | the rows of each group come in order of arrival from every listing exactly when those of one key look the same |
| `DigestOrder.DigestKeptIff` | processor/cmd/processor/quest_summary_dispatch.go:190-242 | the messages are those of the order of arrival from every listing exactly when both hold |
| `DigestOrder.ReadyKeptIff` | processor/cmd/processor/quest_summary_dispatch.go:119-159 | whether anything is sent is the same from every listing exactly when the validator agrees about all rows in time, or some other gate is shut |
| `DigestOrder.NoBitIsLost` | processor/internal/tracker/summary_buffer.go:109-121 | from append to message: a message has a clean bit exactly when some row appended for its group had it, replaced since or not, and what is under that key in the end pays |
| `QuestDigest.DigestConserves` | processor/cmd/processor/quest_summary_dispatch.go:190-242 | the messages of a key carry exactly the views of its group |
| `QuestDigest.OrderIsFirstSeen` | processor/cmd/processor/quest_summary_dispatch.go:93-101 | groups come in the order in which their first rows are listed |
| `QuestDigest.DigestIsComplete` | processor/cmd/processor/quest_summary_dispatch.go:190-214 | the messages come group by group in that order, each group numbered from 1 to its total without a gap |
| `QuestDigest.CleanBits` | processor/cmd/processor/quest_summary_dispatch.go:103-111 | a message has a clean bit exactly when some row of its own group has it |
| `QuestDigest.DigestHasItsFields` | processor/cmd/processor/quest_summary_dispatch.go:190-213 | every message has the clean bits, total and lifetime of its own group, the lifetime reaching to the last expiry |
| `Recipients.FilterBlocked` | processor/cmd/processor/helpers.go:154-168 | compacts in place to the users whose destination is not paused, in order |
| `Recipients.FilterMuted` | processor/cmd/processor/helpers.go:182-211 | compacts in place to the users no mute matches |
| `Recipients.FilterValidation` | processor/cmd/processor/helpers.go:221-276 | compacts in place to the users the validator allowed, and tells each denied user that has a message, though slots before it are already overwritten |
| `Recipients.FiltersCompose` | processor/cmd/processor/pokemon.go:87-90 | two filters in a row keep exactly who passes both |
| `Recipients.LanguageIsFirstSet` | processor/cmd/processor/helpers.go:87-95 | the first that is not blank of the user's own language, the default locale and `en` |
| `Recipients.DistinctLanguages` | processor/cmd/processor/helpers.go:98-109 | every language spoken, once |
| `Recipients.GroupByLanguage` | processor/cmd/processor/helpers.go:114-121 | a bucket for exactly the languages spoken, holding their speakers in order |
| `Recipients.BucketsConserve` | processor/cmd/processor/helpers.go:111-121 | going through the buckets in any order meets every user exactly as often as they were matched |
| `RaidLifecycle.FilterRsvp` | processor/cmd/processor/raid.go:144-161 | compacts in place by RSVP preference |
| `RaidLifecycle.HasFutureRsvp` | processor/cmd/processor/raid.go:137-143 | whether any timeslot is still to come |
| `RaidLifecycle.LatestFutureTimeslotSec` | processor/cmd/processor/raid.go:414-427 | the least whole second by which every future timeslot has come, 0 exactly when there is none |
| `RaidLifecycle.PartitionRaidUsers` | processor/cmd/processor/raid.go:339-408 | who gets the compact template and who the full one |
| `RaidLifecycle.PartitionConserves` | processor/cmd/processor/raid.go:287-408 | the partition is stable and loses nobody |
| `RaidLifecycle.ProcessRaid` | processor/cmd/processor/raid.go:133-285 | filters, partition and at most two jobs, the compact one cleaned at the last future timeslot |
| `RaidLifecycle.StepKeeps` | processor/cmd/processor/render.go:189-213 | a webhook, a delivery, a loss or an expiry keeps every tracked type and every queued compact alert backed by a delivered full one |
| `RaidLifecycle.CompactOnlyAfterFull` | processor/cmd/processor/raid.go:287-334 | in every run, a compact alert of a type is queued only after a full alert of that type was delivered to that user |
| `RaidLifecycle.FirstOfATypeIsFull` | processor/cmd/processor/raid.go:362-382 | whoever has had no full alert of a type gets it in full, in particular everybody when the egg becomes a raid |
| `PokemonFanout.PriorOnly` | processor/cmd/processor/pokemon.go:180-202 | each earlier recipient who no longer matches and can be told, once, with the clean bits and template of the earlier message; nobody who is matched |
| `PokemonFanout.Translate` | processor/cmd/processor/pokemon.go:209-215 | an entry for every language spoken |
| `PokemonFanout.BuildPerLanguageOriginal` | processor/cmd/processor/pokemon.go:480-529 | an original view for every language spoken, when one can be built |
| `PokemonFanout.PerLangWithChangeFields` | processor/cmd/processor/pokemon.go:418-439 | a new map that differs from the shared one by the change fields of one language; nothing that was there is written |
| `PokemonFanout.MatchedJobs` | processor/cmd/processor/pokemon.go:321-341 | one `monster` job for each language, on the shared map |
| `PokemonFanout.ChangedJobs` | processor/cmd/processor/pokemon.go:343-384 | one `monsterChanged` job for each language, on a map of its own, with the original built for that language, or the bare one when none can be built |
| `PokemonFanout.DispatchPokemonAlert` | processor/cmd/processor/pokemon.go:298-384 | both kinds of job, each change with the original of its own language, none for an encounter-only change, one undivided job without a dispatcher |
| `PokemonFanout.ProcessPokemon` | processor/cmd/processor/pokemon.go:180-290 | the jobs partition the recipients, and the shared map still says the bare translations when all jobs are made |
| `PokemonFanout.EverybodyIsTranslated` | processor/cmd/processor/pokemon.go:204-215 | whoever is in a job speaks a language that the shared map covers |
| `ConfigSave.ConfigFile.ApplySectionUpdates` | processor/internal/api/config_writer.go:160-188 | a section after its update, whatever the order of the fields |
| `ConfigSave.ConfigFile.ApplySchemaUpdates` | processor/internal/api/config_writer.go:141-154 | the file after all updates, whatever the order of the sections |
| `ConfigSave.PartsJoin` | processor/internal/api/config_values.go:81-93 | a section's path is its name cut at every dot |
| `ConfigSave.UpdatesTakeEffect` | processor/internal/api/config_writer.go:141-188 | what the sections say afterwards for every field: the new value of a named field of an undotted section, the loader's default if the value was elided or the section is no table any more, and otherwise what they said before |
| `ConfigSave.TakesEffectIff` | processor/internal/api/config_writer.go:167-182 | a named field reads as submitted exactly when its section is undotted and, if the value is the schema's default, it is the loader's default too, or, in a dotted section, when it read so before |
| `ConfigSave.TelegramComesBackOn` | processor/internal/config/config.go:923-928 | one that does not: turning Telegram off where the file already says so deletes the line, and the next start reads true |
| `ConfigSave.ElisionIsInvisibleIff` | processor/internal/api/config_writer.go:28-32 | the file reads as it would without elision exactly where no field is elided whose two defaults differ, while no default of a named field stays written |
| `ConfigSave.MigrateLegacyLoggingKeys` | processor/internal/api/config_writer.go:105-130 | the legacy keys are collapsed into `level` |
| `ConfigSave.MigrationKeepsTheLevel` | processor/internal/api/config_writer.go:90-130 | the level the loader would have read is kept, the legacy keys are gone, nothing else changes |
| `ConfigSave.SavedLevelIsRead` | processor/internal/config/config.go:1000-1007 | after that a saved level is the level that is read back, or, when it is the schema's default, none is left in the file |
| `ConfigSave.LegacyKeyWouldShadow` | processor/internal/api/config_writer.go:90-104 | without it, eliding the default level would bring an old one back |
| `ConfigSave.DottedSectionIsNotRead` | processor/internal/api/huma_config.go:210-220 | saving a field of a dotted section, with the outer section or without, is written under the dotted name and never changes the table the loader reads for it |
| `ConfigForm.ExtractValues` | processor/internal/api/config_values.go:22-79 | the form shows every field of the schema: secrets masked, tables as rows, the rest as the loader has it, found along the dotted path |
| `ConfigForm.Submission.StripMaskedSensitiveValues` | processor/internal/api/config_values.go:204-233 | exactly the sensitive fields that still hold the mask are removed |
| `ConfigForm.NestCommunityRows` | processor/internal/api/config_values.go:258-293 | each row nested, rows that are no table passed on |
| `ConfigForm.CommunitiesComeBack` | processor/internal/api/config_values.go:235-293 | flattening communities and nesting the rows gives the communities back |
| `ConfigForm.UnrelatedKeysSurvive` | processor/internal/api/config_values.go:254-257 | keys that no flattening knows of survive the nesting |
| `ConfigForm.NestTileserverRows` | processor/internal/api/config_values.go:349-371 | rows keyed by their trimmed map type, later ones winning |
| `ConfigForm.FlattenTileserverSettings` | processor/internal/api/config_values.go:320-343 | one row for each setting, unset flags as null |
| `ConfigForm.SettingsComeBackIff` | processor/internal/api/config_values.go:311-371 | the settings come back, unset flags included, exactly when every key is non-empty and trimmed |
| `ConfigForm.PaddedKeyIsRenamed` | processor/internal/api/config_values.go:353-361 | one that does not come back |
| `ConfigForm.Submission.NestTableUpdates` | processor/internal/api/config_values.go:298-309 | both tables nested in place, nothing else changed |
| `ConfigForm.Submission.Save` | processor/internal/api/huma_config.go:210-220 | strip, nest, migrate and apply, in that order |
| `ConfigForm.SaveTakesEffect` | processor/internal/api/huma_config.go:210-220 | after a save the sections say for every field what was said for updates, with rows nested and secrets still masked left alone; a submitted value is read exactly under the condition of `TakesEffectIff` |
| `ConfigForm.LastSaveCounts` | processor/internal/api/huma_config.go:210-220 | after any number of saves only the last value submitted for a field counts; it is read under the same exact condition, and the value read at first stays if none was submitted |
| `ConfigForm.ResubmittingIff` | processor/internal/api/config_values.go:198-233 | submitting the form as extracted leaves a field as it was, secrets included, exactly unless it reads as a schema default that is not the loader's, or a tileserver key is not clean |
| `ConfigForm.SavedReadsAsItStands` | processor/internal/api/config_writer.go:63-67 | a saved file has no legacy keys left that could change what is read |
| `ConfigText.WriteOrder` | processor/internal/config/toml_encode.go:44-77 | the sections in the order in which they are written |
| `ConfigText.TablesComeBack` | processor/internal/config/toml_encode.go:79-94 | a file of nothing but tables is read back as it was |
| `ConfigText.StraysTouchNothingElse` | processor/internal/config/toml_encode.go:79-94 | sections that are no table, written as keys behind some other header, change no plain field but those of their own names |
| `ConfigText.LoadsIff` | processor/internal/config/config.go:947-949 | the loader reads a file exactly when no such key meets its own name, and each section of the schema has tables on its path or is such a key behind some header |
| `ConfigText.BehindDatabase` | processor/internal/config/toml_encode.go:21-31 | every section of the schema is written behind the database, so such a key always has a header in front of it |
| `ConfigText.UpdateLoadsIff` | processor/internal/api/config_writer.go:141-154 | a file can be read after an update exactly when no such key meets its own name, no section is replaced by an array of tables, and the rest could be read before |
| `ConfigText.NextStart` | processor/internal/api/huma_config.go:210-220 | after any save the next start reads nothing if the file is refused, and otherwise for each plain field what the save says, but for fields named like such a key |
| `ConfigText.NextStartOfTables` | processor/internal/api/huma_config.go:210-220 | after a save that leaves nothing but tables it reads every field as the save says |
| `ConfigText.ScalarForSection` | processor/internal/api/config_writer.go:143-151 | `{"general": 5}` is read, and resets the section to the loader's defaults |
| `ConfigText.ScalarForAnotherField` | processor/internal/api/config_writer.go:143-151 | `{"locale": "fr"}` sets `general.locale`, or makes the file unreadable where that is set |

## Left out

- Column numbers of syntax errors, and the wording of errors.
- JSON5 revivers, replacers, `toJSON`, values that are not written at all, and string gaps that are not white space.
- Numbers that a double does not hold exactly (fractions, exponents, more than 2^53 - 1) are kept as the text of their literal, and negative zero is not told from zero; the round trip is about whole numbers in range, the infinities and NaN.
- Texts with lone surrogates: an escape of one reads as U+FFFD.
- The entries of `lexStates` are pure transitions; the loop, `read`, `push` and `pop` around them run on fields, as in the source.
- The shims at the top of `scripts/vendor-json5.js`.
- TOML spelling: a line is kept as the key path and value it spells, so quoting of keys and strings and the spelling of numbers are not modelled; `JSON.stringify` equality in `deepDiff` is equality of ordered trees, and keys inherited from a prototype are not modelled.
- The interactive and file-copying parts of the migration, and its table of fields.
- Clock changes of a zone within a run, and ticks that come late: a tick happens in the minute of its mark.
- `profiles.go` candidate collection and switching of profiles.
- Goroutines that `Close` does not wait for appear in the shutdown only as two flags: `uncounted` for the weather consumer (`processor/cmd/processor/main.go:250-253`), `direct` for the profile scheduler. What a send on a closed channel does to the process is not modelled: such a state is only marked.
- Fairness: the shutdown theorems say that the end can be reached from everywhere and that a run without end is fed without end, not that a schedule cannot stand still.
- Deadlines, metrics and logging.
- The choice between URL, inline and both in `resolveTilePending`, its deadlines and its queue pressure: a gate writes some tile or closes without one.
- `weatherAlertCleanUntil` and the minimum alert time: the model says only whether a user's alert is suppressed.
- An `Append` between the listing of a bucket and its clearing; the digest conserves the rows that were listed. `SweepExpired`, saving and loading of the buffer, and the time at which a row was made.
- Rendering of a digest into delivery jobs; the model ends with the view that is rendered.
- Edit keys of raid messages: a delivery leaves a tracker entry or it does not.
- The weather registrations, metrics and enrichment of `ProcessPokemon`, and the encounter tracker that decides what kind of change there is.
- `PokemonFanout.PriorOnly` takes the human found for a target to have that target as its id, as the query by primary key gives it.
- What `config.Load` does to single values after the file is decoded (resolving paths, clamping, `processor/internal/config/config.go:951-1060`), except for the logging level; and a file whose value has the wrong type for its field, or a null inside an array, which the loader or the encoder refuses.
- Updates of an outer section that name the rest of a dotted section's name as one of its fields (`ConfigSave.NamesInner`): no section of the schema has such a field, and `processor/internal/api/config_values.go:147-149` refuses them.
- The TOML reader is stricter than the standard in one place: no header may lead below a table made by dotted keys.
- How the TOML library lays out a section: taken to be plain keys first, then sub-tables by name, nulls left out.
- Live reload of the configuration after a save, validation of single fields, backup and file writing, and the order in which rows are shown.
- A null submitted for a plain field is stored as a null; what the TOML encoder makes of it is not modelled.
- The decoding of malformed rows: a cell of the wrong type reads as empty.
- HTTP registration, database access, Discord and Telegram calls, schema and template tables.
