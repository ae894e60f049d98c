# A verified model of HostTraceAI's histories, budgets, asset store and access rules

This project models the parts of HostTraceAI, an AI-assisted incident-response workspace written in Go, whose correctness
hangs on more than one function body, and proves their properties for all inputs and all runs.

- `HistoryRepair`, `ResultPairing`, `Turns`, `Trace`, told once more by positions, rows and fields in `RepairShape`,
  `ResultLanding`, `TurnRows`, `TraceShape`: chat histories. The repair that drops orphaned tool results and
  unanswered calls, the pairing of call and result events, the cutting of whole turns, and the printing, parsing and
  trimming of persisted traces.
- `TokenBudget`, `PayloadShape`, `BodyCompaction`, `CompactedText`, `RepeatedCompaction`: fitting an attack-chain prompt into
  the context window.
- `AssetKeys`, `AssetNormalization`, `AssetResubmission`, `RiskCache`, `AssetImport`, `AssetReimport`, `AssetStore`: the asset
  table with its deduplication key and its cached risk figures, and everything that writes it. `StoredAssets`,
  `ImportedFields`, `AssetWrites` and `RiskLevels` say what that leaves in the rows, by submitted fields and literals alone.
- `Access`, `AccessCases`, `Scopes`, `ScopeTexts`, `Bootstrap`: who may see which row, how far a permission reaches, and how
  roles are seeded.
- `ToolStats`, `ToolFigures`, `RunningTools`, `LegacyGuard`: statistics that mirror the log of tool executions, and the
  migration of old refusals.
- `Throttle`, `EnvExpand`, `FrontMatter`: three small components around them.
- `Base`, `Text`, `Chat`: what they share, strings included.

Tables are maps, and a transaction is a method that changes everything or nothing. Where the source loops or updates fields
in place, a method with loops or a class does, and its contract ties it to a function of the old state; lemmas about that
function carry the properties. A query answers in any order, and so does a walk over a Go map: methods pick elements
freely, and their contracts hold whichever they pick. Identifiers are trimmed and not blank unless the code tests for blank.

## What differs from the comments in the source

- `internal/database/conversation.go:1357` promises at most one result per call. A result whose ID has no open call
  overwrites the last one matched (`ResultPairing.OverwritesIff`, `SecondResultOverwrites`).
- The history repair reaches only the last assistant message with calls; an earlier unanswered call stays
  (`HistoryRepair.EveryCallAnsweredIff`, `EarlierCallStaysOpen`).
- With the fallback counter of runes / 4 every text cut to a budget of 268 tokens or more exceeds it by two
  (`TokenBudget.QuarterFitsIff`, `QuarterOverruns`), and where a floor lifts the payload budget, inputs that use up their
  shares cost more than the window, part by part (`PartsAlwaysFitIff`, `SmallWindowOverrun`).
- A tool body whose kept tail starts with a line end and a bracket is cut at another place on the next rung of the
  ladder (`RepeatedCompaction.RecutIff`, `TailReadAsMessage`).
- The vulnerability list ignores the project of a vulnerability's conversation, which the check of a single row honours
  (`Access.VulnerabilityAgreesIff`, `MovedConversation`).
- An asset entered by hand whose host URL is an IPv4 address is accepted alone, refused with any address beside it, its own
  included (`AssetNormalization.AddressGivenRefusedIff`), and so refused when its stored fields are submitted again
  (`AssetResubmission.AcceptedAgainIff`). `NormalizeTwiceIff` tells exactly when normalizing is idempotent.
- A tool name with white space around it breaks the statistics when its rows are purged (`ToolStats.DeleteMirrorsIff`), and
  so does a purge of a running execution while a finished one of its tool stays (`RunningTools.PurgeMirrorsIff`).
- The throttle's eviction is unobservable only for cooldowns within a factor of two (`Throttle.EvictionObservable`).

## Model

| member | source | states |
|---|---|---|
| `HistoryRepair.History.RepairOrphanToolMessages` | internal/agent/agent.go:659-746 | the list and the flag afterwards are those of `Repair`, the function whose properties the next rows prove; false leaves the list alone |
| `HistoryRepair.ForwardPass` | internal/agent/agent.go:669-705 | one pass with a multiset of pending call IDs keeps a tool message exactly when it answers a pending call |
| `HistoryRepair.StripLast` | internal/agent/agent.go:707-735 | scanning from the end, only the last assistant message with calls loses its still pending calls, each ID once |
| `HistoryRepair.ForwardBalanced` | internal/agent/agent.go:669-705 | in every prefix of the cleaned list no ID has more results than calls |
| `HistoryRepair.ForwardMaximal` | internal/agent/agent.go:669-705 | no selection of messages that keeps every other message and is balanced keeps more tool results of any ID |
| `HistoryRepair.StrippedBalanced` | internal/agent/agent.go:707-735 | taking calls out of the last calling assistant leaves every prefix balanced |
| `HistoryRepair.RepairBalanced` | internal/agent/agent.go:659-746 | the repaired list is balanced in every prefix, and a repair that reports no change met a balanced list |
| `HistoryRepair.OpenAfterRepair` | internal/agent/agent.go:707-735 | for each ID, how many of its calls stay open after the repair |
| `HistoryRepair.EveryCallAnsweredIff` | internal/agent/agent.go:656-746 | after the repair every call has its result exactly when each ID open after the forward pass is open once and is called by the last calling assistant |
| `HistoryRepair.EarlierCallStaysOpen` | internal/agent/agent.go:707-735 | a history whose earlier assistant keeps a call that is never answered: the repair does not reach it |
| `HistoryRepair.LastAssistantAnswered` | internal/agent/agent.go:707-735 | with distinct call IDs the last calling assistant keeps only blank-ID or answered calls |
| `HistoryRepair.RepairKeepsRest` | internal/agent/agent.go:659-746 | messages that are no tool results survive in order, with everything but their calls |
| `HistoryRepair.RepairDecreases` | internal/agent/agent.go:659-746 | a repair that reports a change leaves strictly fewer results and calls |
| `HistoryRepair.RepairUntilStable` | internal/agent/agent.go:653-655 | repairing until no change is reported ends, in a balanced history with the same other messages |
| `HistoryRepair.OneRepairIsEnoughIff` | internal/agent/agent.go:653-746 | a second repair has nothing to do exactly when, in what the forward pass keeps, no ID is open more often than the first repair takes it and called more often than that by the message reached next: the last calling assistant, or the one before it if all of its calls go |
| `HistoryRepair.TwiceNeedsTwo` | internal/agent/agent.go:710-735 | one unanswered ID called twice by the last calling message takes two repairs |
| `HistoryRepair.SecondReachesEarlier` | internal/agent/agent.go:710-735 | two calling messages that nobody answers: the second repair reaches the earlier one |
| `RepairShape.RepairTold` | internal/agent/agent.go:659-746 | the repaired list, told by positions: a tool result stays exactly if its ID was called in front of it more often than answered; then the last assistant message with calls loses the first call of each ID unanswered in all that stays; nothing else changes, and the flag says whether anything did |
| `ResultPairing.SummarizeEvents` | internal/database/conversation.go:1356-1441 | the event loop with its slice of matched slots, its queues per call ID and its last match per ID reaches the state of `Run` over the events; `ResultLanding.EveryStepTold` tells every step of it without queues |
| `ResultPairing.MatchToolExecutionIndex` | internal/database/conversation.go:1537-1577 | finds the slot of a result, by ID, then by the last match of the ID, then by tool name, then any free one; `ResultLanding.EveryStepTold` says which entry that is, and what it then shows |
| `ResultPairing.SkipMatched` | internal/database/conversation.go:1545-1554 | drops exactly the matched slots in front of a queue |
| `ResultPairing.StepKeepsInvariant` | internal/database/conversation.go:1373-1441 | one event keeps every unmatched call with an ID in the queue of that ID, in order, and nothing else unmatched there |
| `ResultPairing.RunInvariant` | internal/database/conversation.go:1356-1441 | that holds after every event of every stream |
| `ResultPairing.Accounting` | internal/database/conversation.go:1373-1441 | entries are the calls and the results that found no slot; free slots are the calls less the results that took one |
| `ResultPairing.MatchedForGood` | internal/database/conversation.go:1400-1438 | a slot once matched stays matched over the rest of the stream |
| `ResultPairing.ExecutionIDsCollected` | internal/database/conversation.go:1384-1437 | the set of execution IDs is exactly the non-blank ones of the events read |
| `ResultPairing.OverwritesIff` | internal/database/conversation.go:1357-1361 | a result lands on a slot that has one already exactly when its ID has no unanswered call and has been matched before; so the comment promising at most one result per call does not hold |
| `ResultPairing.SecondResultOverwrites` | internal/database/conversation.go:1357-1361 | a call and two results of its ID: the second result takes the place of the first, and only it is left |
| `ResultPairing.ResultsLandInOrder` | internal/database/conversation.go:1537-1577 | if every result names a call still unanswered, the k-th result of an ID lands on the k-th call of that ID |
| `ResultLanding.EveryStepTold` | internal/database/conversation.go:1356-1441 | at every step of every stream: a result lands on the earliest entry without result that has its ID; else where the last result of the ID landed; else on the earliest waiting entry of its tool, up to case; else, if it has an ID, on the earliest waiting entry; else it becomes an entry of its own. The entry shows its detail, its execution ID and its status or `completed`, and no other entry changes |
| `ResultLanding.LandsOnOne` | internal/database/conversation.go:1537-1577 | that names one entry, or none |
| `ResultLanding.ResultWithoutID` | internal/database/conversation.go:1559-1567 | a call of a tool, with an ID, and a result of the tool, without one: one entry, matched |
| `Turns.TurnSliceRange` | internal/database/conversation.go:950-976 | the two loops find the range of `TurnRange`, and fail exactly when the anchor is unknown |
| `Turns.MessageStore.DeleteConversationTurn` | internal/database/conversation.go:979-1042 | deletes the rows of the turn and clears the stored trace, or changes nothing |
| `Turns.ConcatSplit` | internal/database/conversation.go:950-976 | the turns of a list, one after the other, are the list |
| `Turns.SplitIsWellCut` | internal/database/conversation.go:950-976 | a turn has a user message only at its start, and every turn after the first starts with one |
| `Turns.WellCutIsSplit` | internal/database/conversation.go:950-976 | any list of turns cut that way is the list of turns of its concatenation |
| `Turns.RangeOfMember` | internal/database/conversation.go:950-976 | every message of a range has the same range |
| `Turns.RangeHoldsAnchor` | internal/database/conversation.go:950-976 | with unique IDs the range of an anchor holds the anchor |
| `Turns.SameOrDisjoint` | internal/database/conversation.go:950-976 | the ranges of two anchors are the same or share no message |
| `Turns.RangeIsTurn` | internal/database/conversation.go:950-976 | the range of a message is one of the turns, at its place |
| `Turns.DeleteRemovesOneTurn` | internal/database/conversation.go:979-1042 | deleting by any message of a turn leaves exactly the other turns with their boundaries, and every other conversation |
| `Turns.DeleteRefusedIff` | internal/database/conversation.go:979-1042 | the deletion is refused exactly when no message of the conversation has the anchor ID |
| `TurnRows.DeletionTold` | internal/database/conversation.go:979-1042 | the deletion, told by the rows of the table: it takes the rows of the conversation with no message of role user between them and the anchor, the later of the two included, and leaves all other rows in order; it is refused if no row of the conversation has the ID |
| `TokenBudget.WindowFitsIff` | internal/attackchain/truncate.go:51-68 | template, reserves, completion and the payload budget add up to at most the window exactly when no floor lifts that budget |
| `TokenBudget.TakeTokensFromStart` | internal/attackchain/truncate.go:193-208 | the upper-half binary search yields the prefix of `TakeStart` |
| `TokenBudget.TakeTokensFromEnd` | internal/attackchain/truncate.go:210-225 | the lower-half binary search yields the suffix of `TakeEnd` |
| `TokenBudget.TakeStartTight` | internal/attackchain/truncate.go:193-208 | for any counter the prefix is within the budget, and one more rune is over it, or it is the whole text |
| `TokenBudget.TakeEndTight` | internal/attackchain/truncate.go:210-225 | the same for the suffix |
| `TokenBudget.HeadIsLongest` | internal/attackchain/truncate.go:193-208 | with a monotone counter a prefix is within the budget exactly if it is no longer than the one taken |
| `TokenBudget.TailIsLongest` | internal/attackchain/truncate.go:210-225 | the same for suffixes |
| `TokenBudget.TruncateTextByTokens` | internal/attackchain/truncate.go:174-191 | the loop-free join of both searches is `Truncate`, which is the front of the text, the marker and its end (`PayloadShape.TruncateTold`), or the text itself within the budget |
| `TokenBudget.TruncateBound` | internal/attackchain/truncate.go:174-191 | with a counter subadditive up to a slack, a cut text costs at most the budget and twice the slack |
| `TokenBudget.DescendLadder` | internal/attackchain/truncate.go:89-106 | the descent through the limits, stopping at the first that is enough, and false only if nothing changed |
| `TokenBudget.FitAttackChainPayload` | internal/attackchain/truncate.go:71-122 | both outputs are `FitReact` and `FitModel`, whose shape and shares `PayloadShape.FitReactTold`, `FitModelTold` and `WindowShares` tell, and `truncated == false` means that both are the inputs |
| `TokenBudget.PayloadFits` | internal/attackchain/truncate.go:71-122 | trace and output together stay within the payload budget, for every input, with a subadditive counter and a marker of at most 256 tokens (slack 0) |
| `TokenBudget.PromptFitsWindow` | internal/attackchain/truncate.go:51-122 | template, reserves, completion and both outputs, counted one by one and not as the assembled prompt, are within the window whenever no floor applies |
| `TokenBudget.PartsAlwaysFitIff` | internal/attackchain/truncate.go:51-122 | that holds for all inputs exactly when no floor applies, for any subadditive counter under which some character costs one token each time; otherwise two inputs that use up their shares overrun the window |
| `TokenBudget.SmallWindowOverrun` | internal/attackchain/truncate.go:51-68 | counted in runes, a window of 8192 is overrun whatever the template |
| `TokenBudget.DescentShortens` | internal/attackchain/truncate.go:89-106 | descending through limits that leave room for the notice never lengthens the text |
| `TokenBudget.QuarterSlack` | internal/attackchain/truncate.go:39-48 | the fallback counter of runes / 4 is subadditive up to one token and not up to none, and the two outputs overrun the payload budget by four tokens at most |
| `TokenBudget.QuarterCut` | internal/attackchain/truncate.go:174-191 | every text over its budget costs the same number of fallback tokens after the cut: two over the budget from 268 tokens on, and from 4 to 267 half the budget and 14 |
| `TokenBudget.QuarterFitsIff` | internal/attackchain/truncate.go:174-191 | so a text ends within its budget exactly if it needs no cut, or the budget is 0 or 27 to 267 |
| `TokenBudget.QuarterOverruns` | internal/attackchain/truncate.go:71-122 | with the fallback counter the model output is within its share exactly if it is so uncut, and the trace exactly if the ladder brings it there; otherwise each is exactly two tokens over its share |
| `PayloadShape.TruncateTold` | internal/attackchain/truncate.go:174-225 | a text over its budget becomes `text[..k] + marker + text[m..]`, with a front that is tight for 60 percent of the usable tokens and an end that is tight for the others; usable is the budget less the marker, or half the budget where that leaves less than 256 |
| `PayloadShape.WindowShares` | internal/attackchain/truncate.go:17-68 | window, completion, payload budget and the two shares in numbers: an eighth between 4096 and 16384, the floors of 35 percent and 4096, and 15 percent of at least 512 for the model output |
| `PayloadShape.FitModelTold` | internal/attackchain/truncate.go:71-122 | the model output is itself within its share, and else cut to its front and its end |
| `PayloadShape.FitReactTold` | internal/attackchain/truncate.go:71-122 | the trace is compacted down the limits 12000, 6000, 3000, 1500, 800 until it is within its share, and cut to its front and its end if it never is |
| `BodyCompaction.CompactFormattedToolBodies` | internal/attackchain/truncate.go:125-172 | the loop that consumes the text tool message by tool message yields `Compact` |
| `BodyCompaction.CutLossless` | internal/attackchain/truncate.go:125-172 | outside text, headers and bodies together are the input |
| `BodyCompaction.CutWellShaped` | internal/attackchain/truncate.go:125-172 | pieces come as outside text, one header line from the tool marker, and a body up to the next message |
| `BodyCompaction.TruncatedBody` | internal/attackchain/truncate.go:227-244 | an over-long body becomes its head, the notice and its tail, 70 to 30 of what the limit leaves, or of two thirds of it where that is below 200 runes; it meets the limit exactly when the limit has room for the notice, and fills it from 200 runes on |
| `BodyCompaction.CompactionShortens` | internal/attackchain/truncate.go:125-172 | compaction never lengthens, and changes the text exactly when a body is over the limit |
| `BodyCompaction.FrameSurvives` | internal/attackchain/truncate.go:125-172 | within one cut, headers and outside text survive in order |
| `CompactedText.FirstMessageTold` | internal/attackchain/truncate.go:125-172 | told by positions in the text: everything up to the end of the first line from `[tool]` on stays, the body behind it, up to a blank line and a bracket, is cut if it is over the limit, and compaction goes on behind the body |
| `CompactedText.NoMessageTold` | internal/attackchain/truncate.go:125-172 | a text without such a line stays as it is |
| `RepeatedCompaction.RecutIff` | internal/attackchain/truncate.go:89-106 | the next rung of the ladder finds exactly the shortened pieces again if and only if no tail kept behind a notice starts like a message |
| `RepeatedCompaction.FrameSurvivesRecut` | internal/attackchain/truncate.go:89-106 | then headers and outside text of the compacted text, cut again, are those of the text |
| `RepeatedCompaction.CompactTwice` | internal/attackchain/truncate.go:89-106 | and compacting again under the same limit changes nothing |
| `RepeatedCompaction.TailReadAsMessage` | internal/attackchain/truncate.go:125-172 | a single message whose kept tail starts like a message: cut again, it is other pieces and has one outside text more |
| `RepeatedCompaction.DescentKeepsFrame` | internal/attackchain/truncate.go:89-106 | down falling limits of at least 241, headers and outside text stay, if no tail that the text itself keeps under any of the limits starts like a message |
| `RepeatedCompaction.LadderKeepsFrame` | internal/attackchain/truncate.go:89-101 | so they do down the five limits of the builder |
| `Trace.MessagesToTraceJSON` | internal/agent/agent_trace.go:181-194 | prints every message but the system messages as JSON objects |
| `Trace.ParseTraceMessages` | internal/agent/agent_trace.go:34-106 | parses what `Parse` parses, and fails exactly on text that is no array of objects |
| `Trace.RoundTripIff` | internal/agent/agent_trace.go:34-106 | given faithful encoding, printing and parsing gives back the messages, system messages and runtime flag aside, exactly if every one of them is printable: a role, non-blank call IDs, a blank-free or empty reasoning field, a trimmed tool name |
| `Trace.ExtractLastUserTurnMessages` | internal/agent/agent_trace.go:110-132 | the messages of `LastTurn`: from the last user message on, without system messages |
| `Trace.ExtractLastUserTurnTraceJSON` | internal/agent/agent_trace.go:135-159 | the text of `LastTurnJSON`: unchanged unless the last user object is not the first |
| `Trace.LastTurnShape` | internal/agent/agent_trace.go:110-132 | the last turn starts with its only user message, has no system message and is its own last turn |
| `Trace.CutCommutesIff` | internal/agent/agent_trace.go:110-159 | cutting the JSON and parsing is parsing and cutting, system messages and flag aside, exactly if the trace has a user message or no system message |
| `TraceShape.PrintedTold` | internal/agent/agent_trace.go:181-194 | what is printed: one object for each message whose role is not `system` up to case, with exactly the filled fields under their names |
| `TraceShape.ParsedTold` | internal/agent/agent_trace.go:46-104 | what is read of an object: nothing without a role, and else every text field from its name, with `name` standing in for the tool name of a message of role `tool`, and blank reasoning left out |
| `TraceShape.ModelFacingTold` | internal/agent/agent_trace.go:12-31 | the runtime flag is that of the first object that says a numeric version: at least 1 |
| `TraceShape.LastTurnTold` | internal/agent/agent_trace.go:110-132 | the last turn is the last message of role `user` up to case and what follows it, without messages of role `system`; the whole list if there is no such message |
| `AssetKeys.NormalizeAsset` | internal/database/asset.go:98-179 | the edits in sequence, with the loop over the tags, give `Normalize`; what that achieves is told by `AssetNormalization.NormalizeTwiceIff`, `NormalizedIsTrimmed` and `AddressGivenRefusedIff` |
| `AssetNormalization.NormalizedIsTrimmed` | internal/database/asset.go:98-179 | a normalized asset has no text left to trim, to fold to lower case or to default, and no blank or repeated tag |
| `AssetNormalization.NormalizeTwiceIff` | internal/database/asset.go:98-179 | normalizing again changes nothing exactly if, for an asset that is not imported, its host is no address then read as a domain, and, for an imported one, cleaning uncovers nothing that the host URL fills in |
| `AssetKeys.CleanTagsSound` | internal/database/asset.go:123-132 | the tags are exactly the trimmed non-blank ones, each once |
| `AssetKeys.ValidIsStorable` | internal/database/asset.go:192-246 | a checked asset has a target, a port from 0 to 65535 and a protocol without a bar |
| `AssetKeys.KeyInjective` | internal/database/asset.go:275-284 | two checked assets have the same key exactly if target, port and protocol agree |
| `AssetKeys.EmptyKeyUnreachable` | internal/database/asset.go:321-325 | no asset that passes the checks has the key for which the import skips it |
| `AssetKeys.MergeKeepsKey` | internal/database/asset.go:353-383 | overwriting only the fields that are not empty keeps the key, although it mixes two assets |
| `AssetNormalization.FillTwiceIff` | internal/database/asset.go:133-158 | filling fields from the host URL a second time changes nothing exactly if the host is no IP address that also passes as a domain |
| `AssetNormalization.AddressGivenRefusedIff` | internal/database/asset.go:133-178 | an asset with such a host, accepted without an address, is refused with any address given exactly if the domain read from the host fails, or the address does and is not cleaned away; where the ASCII form of the host is no domain, that is exactly if the asset is not imported |
| `AssetNormalization.ReadDomainRefusedIff` | internal/database/asset.go:133-178 | whenever the domain is read from the host URL, an asset is refused exactly if that domain fails or the rest does; by hand always if the host name does not check as a domain |
| `AssetResubmission.AcceptedAgainIff` | internal/database/asset.go:98-246 | an accepted asset is accepted again with its own stored fields exactly if it is imported or its host is no address read as a domain that fails |
| `AssetResubmission.OwnFieldsRefusedIff` | internal/database/asset.go:885-908 | a stored row is refused as invalid by an update with its own fields exactly in that case |
| `AssetResubmission.ExampleEdited` | internal/database/asset.go:133-178 | http://1.2.3.4, entered by hand, is accepted, and what is stored for it is refused |
| `AssetNormalization.ExampleRefused` | internal/database/asset.go:133-178 | the host http://1.2.3.4 is accepted alone, refused with its address beside it, and accepted again if it was imported |
| `StoredAssets.AcceptedIff` | internal/database/asset.go:181-246 | the checks pass exactly the assets with a target, a port from 0 to 65535, and a valid address, domain, protocol, status, environment and criticality within the length limits, each told by characters and literals, and change nothing but the domain |
| `StoredAssets.AcceptedIsStored` | internal/database/asset.go:98-246 | what is stored of an accepted asset, field by field from what was submitted: trimmed texts, folded names, defaults, tags in order of first appearance, and what the host URL fills in |
| `AssetImport.UpsertDeduplicated` | internal/database/asset.go:312-391 | one entry of a batch keeps each row under the key of its own fields and no key twice |
| `AssetImport.UpsertAllDeduplicated` | internal/database/asset.go:304-396 | so does the batch |
| `AssetImport.NoDuplicates` | internal/database/asset.go:275-284 | then no two rows are the same target, port and protocol |
| `AssetImport.CountersAddUp` | internal/database/asset.go:304-396 | created, updated and skipped add up to the length of a batch that goes through |
| `AssetImport.StopsBehindCounted` | internal/database/asset.go:312-320 | a batch stops at the entry whose number, the counters plus one, the error names |
| `AssetImport.UpsertAllStores` | internal/database/asset.go:304-396 | after a batch that went through, every entry is valid and is stored under its key |
| `AssetImport.UpsertAllLeaves` | internal/database/asset.go:304-396 | a row that no entry names, or that belongs to another owner in a non-global import, is left exactly as it was |
| `AssetImport.UpsertAllRowsKept` | internal/database/asset.go:304-396 | a batch removes no row and changes no key, owner, scan or cached figure |
| `ImportedFields.RowFields` | internal/database/asset.go:353-383 | after a batch that went through, each overwritable field of an earlier row that may be changed, project and tags included, is the last non-blank value that the entries of its key give for it, or its old value if they give none; port and status stay, and a row that may not be changed keeps all fields |
| `ImportedFields.NewRowFields` | internal/database/asset.go:322-351 | each new row is made by the first entry that names it, has its port, status and new ID, the last non-blank value given for every other field, the importer as owner, no scan and no findings |
| `ImportedFields.BatchCounts` | internal/database/asset.go:304-396 | created is the number of new rows, skipped the number of entries that are left out or name a row that may not be changed, and updated the number of the others |
| `ImportedFields.BatchGrants` | internal/database/asset.go:340-391 | the new assignments are exactly those of the importer, if that is a user, to the rows named that belong to the importer or to nobody |
| `ImportedFields.EntryStopsIff` | internal/database/asset.go:312-391 | an entry stops the batch exactly if it fails the checks, names an unknown project and no row that may not be changed, or names no row and its new ID is taken |
| `AssetImport.UpdateDeduplicated` | internal/database/asset.go:885-908 | an update that goes through keeps the keys right |
| `AssetImport.MergeDeduplicated` | internal/database/asset.go:1111-1175 | so does a merge |
| `AssetImport.MergeLeavesOthers` | internal/database/asset.go:1111-1175 | a merge removes exactly the named duplicates, keeps the scan and owner of the surviving row, and leaves all other rows |
| `AssetWrites.UpdateTold` | internal/database/asset.go:885-908 | an update stores every field of the asset in the row and nothing else; it goes through exactly if the asset is accepted, the row may be seen, no other row is the same target, port and protocol, and the project is known |
| `AssetWrites.MergeTold` | internal/database/asset.go:1111-1175 | a merge does that with the primary row and removes the other named rows; it goes through exactly under those conditions on the rows that stay, if there are other named rows and all of them may be deleted |
| `AssetWrites.DeleteTold` | internal/database/asset.go:1071-1107 | a deletion removes exactly the named rows, if there are any and all of them may be seen |
| `AssetImport.DistinctSound` | internal/database/asset.go:921-936 | the IDs are the given ones, each once |
| `RiskCache.ScoreIsHighest` | internal/database/asset.go:578-582 | the score is the highest rank among the open vulnerabilities of the scan; `RiskLevels.RunFiguresTold` says which severities and statuses those are |
| `RiskLevels.RunFiguresTold` | internal/database/asset.go:563-596 | after any run from an empty asset table: count is the number of vulnerabilities of the scan; the level is critical exactly if one of them has lower-cased severity `critical` and a lower-cased status other than `fixed`, `false_positive` and `ignored`; it is high, medium, low, info exactly if one such has that severity and none a graver one; 5 to 1 are the scores that go with them, and 0 is normal; a scan without a time is unassessed |
| `RiskLevels.CriticalShows` | internal/database/vulnerability.go:157-196 | creating a vulnerability of severity `critical` that is not `fixed`, `false_positive` or `ignored` makes every asset scanned in its conversation critical at once |
| `RiskLevels.FixedTakesBack` | internal/database/vulnerability.go:157-326 | updating it to `fixed`, `false_positive` or `ignored` gives every asset its score and level of before |
| `RiskLevels.UpdatedRow` | internal/database/vulnerability.go:301-326 | an update stores every field of the row but its conversation, and changes nothing else but figures |
| `RiskLevels.CompletedScan` | internal/database/asset.go:616-645 | completing a scan changes the scan of one row, as told by the tasks, and figures |
| `RiskCache.UnaffectedKept` | internal/database/asset.go:721-762 | a change of vulnerabilities within some conversations leaves the figures of every asset that the query for them does not return |
| `RiskCache.RefreshAffectedSuffices` | internal/database/asset.go:764-775 | refreshing only the returned assets makes the whole store coherent again |
| `RiskCache.RefreshIdleIff` | internal/database/asset.go:703-719 | the store is coherent exactly if refreshing everything changes nothing |
| `RiskCache.CreateVulnerabilitySound` | internal/database/vulnerability.go:157-196 | creating keeps every cached figure right |
| `RiskCache.UpdateVulnerabilitySound` | internal/database/vulnerability.go:301-326 | updating does |
| `RiskCache.DeleteVulnerabilitySound` | internal/database/vulnerability.go:372-393 | deleting does |
| `RiskCache.DeleteVulnerabilitiesSound` | internal/database/vulnerability.go:333-369 | deleting by any filter does |
| `RiskCache.MarkAssetScannedSound` | internal/database/asset.go:599-614 | linking a new scan does |
| `RiskCache.CompleteAssetScanSound` | internal/database/asset.go:620-645 | completing a scan does |
| `RiskCache.TimesSound` | internal/database/asset.go:563-567 | answers and finished tasks, which refresh nothing, change no figure |
| `AssetStore.ApplySound` | internal/database/asset.go:569-775 | each of the twelve operations, successful or not, keeps cached figures equal to computed ones |
| `AssetStore.ApplyDeduplicated` | internal/database/asset.go:275-396 | each of them keeps each row under the key of its fields and no key twice |
| `AssetStore.RunInvariant` | internal/database/asset.go:569-775 | starting without assets, both hold after any sequence of operations |
| `AssetStore.Store.RefreshAssetRiskCache` | internal/database/asset.go:676-701 | stores count, score and level computed from the tables, for one asset: the figures that `RiskLevels.RunFiguresTold` tells by severity and status |
| `AssetStore.Store.AssetIDsForVulnerabilityConversations` | internal/database/asset.go:721-762 | the assets linked to one of the non-blank conversations, by conversation or by task |
| `AssetStore.Store.RefreshAssetRiskCacheForConversations` | internal/database/asset.go:764-775 | the loop refreshes exactly those assets |
| `AssetStore.Store.RefreshAllAssetRiskCache` | internal/database/asset.go:703-719 | refreshes every asset |
| `AssetStore.Store.CreateVulnerability` | internal/database/vulnerability.go:157-196 | fills in status and project, refuses a known ID or an unknown conversation, and refreshes |
| `AssetStore.Store.UpdateVulnerability` | internal/database/vulnerability.go:301-326 | never moves the row to another conversation, and refreshes for its own and the given one |
| `AssetStore.Store.DeleteVulnerability` | internal/database/vulnerability.go:372-393 | removes the row and refreshes for its conversation |
| `AssetStore.Store.CollectVulnerabilityConversationIDs` | internal/database/vulnerability.go:395-412 | the conversations of the rows to delete |
| `AssetStore.Store.DeleteVulnerabilitiesByFilter` | internal/database/vulnerability.go:333-369 | removes exactly the selected rows, counts them and refreshes for their conversations |
| `AssetStore.Store.MarkAssetScanned` | internal/database/asset.go:599-614 | links a visible asset to its scan and refreshes it, or changes nothing |
| `AssetStore.Store.CompleteAssetScan` | internal/database/asset.go:620-645 | keeps task and queue links only if the task belongs to the conversation |
| `AssetStore.Store.UpsertAssets` | internal/database/asset.go:304-396 | one transaction: the whole batch is stored, or nothing; the counters are those of `UpsertAll` either way, and `ImportedFields` tells fields, new rows, counters and assignments by the entries alone |
| `AssetStore.Store.UpsertAsset` | internal/database/asset.go:312-391 | one entry: skip, refuse, insert or overwrite as `Upsert` says, whose fields, counters and refusals `ImportedFields.RowFields`, `BatchCounts` and `EntryStopsIff` tell |
| `AssetStore.Store.UpdateAsset` | internal/database/asset.go:885-908 | replaces a visible row under its new key, or changes nothing |
| `AssetStore.Store.DeleteAssets` | internal/database/asset.go:1071-1107 | deletes all of the distinct IDs, counted exactly, or none |
| `AssetStore.Store.MergeAssets` | internal/database/asset.go:1111-1175 | replaces the primary row and removes its duplicates, or changes nothing |
| `AssetStore.CountVisible` | internal/database/asset.go:1086-1092 | the number of accessible rows among distinct IDs equals the number of IDs exactly if all are accessible |
| `AssetReimport.ImportTwice` | internal/database/asset.go:304-396 | a batch that went through goes through again, creates nothing and leaves the store exactly as it was, even where its entries overwrite each other |
| `AssetReimport.ChainTwice` | internal/database/asset.go:353-383 | merging a sequence of assets into a row twice is merging it once |
| `AssetReimport.RowsFollow` | internal/database/asset.go:304-396 | after a batch each earlier row is its old self with exactly the entries of its key merged in, in order, unless it belongs to another owner; `ImportedFields.RowFields` tells the fields |
| `RiskCache.CompletedScanCounts` | internal/database/asset.go:616-645 | after completing a scan exactly the findings of its conversation count for the asset: no stale task stays linked |
| `RiskCache.NewVulnerabilityShows` | internal/database/vulnerability.go:157-196 | a new vulnerability raises count and score of exactly the assets scanned in its conversation, and changes no other row |
| `RiskCache.CreateDeleteUndone` | internal/database/vulnerability.go:372-393 | deleting a vulnerability just created restores the whole store, cached figures included |
| `Access.AccessIffHoldsAncestor` | internal/database/rbac.go:496-559 | a user sees a row exactly if the user holds it or, over a chain of parents, an ancestor; ownership counts under the scope `own` only |
| `Access.ParentAccess` | internal/database/rbac.go:528-559 | the check of a row in terms of the check of its parents |
| `Access.ProjectsAgree` | internal/database/project.go:159-170 | the project list shows exactly what the check grants, with scope `own` |
| `Access.AssetsAgree` | internal/database/asset.go:286-302 | so does the asset list, even for a project that no longer exists |
| `Access.ConversationHiddenIff` | internal/database/conversation.go:313-336 | the list would hide a conversation the check grants exactly if it is reached only through the assignment of a missing project, which the foreign key rules out |
| `Access.ListsAgree` | internal/database/conversation.go:313-336 | on stored rows with stored projects all three lists agree with the check |
| `Access.ListsAgreeAlways` | internal/database/database.go:1216 | whatever rows, projects and assignments are written and deleted under the foreign keys, each list then shows exactly what the check grants, with scope `own` |
| `Access.ListedIff` | internal/database/conversation.go:313-336 | a filtered list shows what is owned or assigned, itself or through its project, whatever the scope |
| `Access.AssignedSubset` | internal/database/rbac.go:496-559 | with scope `assigned` the check grants a subset of the list, and misses exactly what is reached by ownership alone |
| `Access.BlankUserDiffers` | internal/database/conversation.go:313-319 | without a user the lists show everything and the check grants nothing |
| `Access.AccessGrows` | internal/database/rbac.go:496-559 | more assignments and a wider scope never take access away |
| `Access.VulnerabilityAgreesIff` | internal/database/vulnerability.go:97-129 | vulnerability list and check agree for all users and assignments exactly if the conversation adds no project of its own |
| `Access.MovedConversation` | internal/database/project.go:312-330 | a conversation moved into a project after its vulnerability was stored: a user of the project passes the check, and the list does not show the vulnerability |
| `AccessCases.CheckTold` | internal/database/rbac.go:496-559 | the check in closed form, by the columns of the tables: nothing without user, kind or ID; everything with scope `all`; else what the user owns, under scope `own`, or is assigned, itself or by the project or conversation it names |
| `AccessCases.VulnerabilityListTold` | internal/database/vulnerability.go:97-129 | the vulnerability list under any filtering scope, by owner and assignment of the row, its project and its conversation |
| `Scopes.ResolveRBACAccess` | internal/database/rbac.go:423-484 | the two loops give the overall scope, the permitted keys and the scope of each |
| `Scopes.MergeLevel` | internal/database/rbac.go:486-494 | merging two scopes is the maximum in own < assigned < all |
| `Scopes.ScopeIsJoin` | internal/database/rbac.go:457-484 | the scope of a key is the join over exactly the roles of the user that grant it, whatever the row order |
| `Scopes.ScopeDependsOnGrantingRoles` | internal/database/rbac.go:457-484 | only the granting roles and their scopes matter, unknown scope texts included |
| `Scopes.OtherKeysUnchanged` | internal/database/rbac.go:457-484 | one more role changes no key that it does not grant |
| `Scopes.OverallIsJoin` | internal/database/rbac.go:440-455 | the overall scope is the join over all roles of the user |
| `Scopes.OverallBounds` | internal/database/rbac.go:440-484 | it reaches at least as far as every single permission |
| `Scopes.SingleRole` | internal/database/rbac.go:471-482 | text that names no scope is left exactly where a single role grants the key |
| `Scopes.NewPrincipalWithScopes` | internal/authctx/principal.go:24-39 | keeps the allowed permissions and their trimmed non-blank scopes, and trims the overall scope |
| `Scopes.ScopeForJoinsIff` | internal/authctx/principal.go:66-72 | the scope a principal reports for a permitted key is the join exactly if the key is not misread: granted by a single role whose text is blank beside a wider role, or names a wider scope only once trimmed |
| `Scopes.PrincipalForUser` | internal/authctx/principal.go:24-72 | from stored roles to principal: permitted exactly if granted, and with the join exactly if the key is not misread |
| `Scopes.StoredScopesRead` | internal/database/rbac.go:1107-1112 | with scopes as role storage writes them no key is misread, so the principal always reports the join |
| `ScopeTexts.KeyScopeTold` | internal/database/rbac.go:457-484 | the scope of a permitted key is `all` exactly if a role of the user that grants it has scope `all`, and `assigned` exactly if none has and one has scope `assigned` |
| `ScopeTexts.OverallTold` | internal/database/rbac.go:440-455 | the same for the overall scope and all roles of the user |
| `ScopeTexts.ReportedTold` | internal/database/rbac.go:423-494 | from the scope texts of the stored roles to what a principal reports: `all` exactly if the trimmed text of a granting role is `all`, `own` exactly if all of them are `own`, and else `assigned` |
| `Bootstrap.RbacStore.BootstrapRBAC` | internal/database/rbac.go:243-337 | all or nothing; it goes through exactly if the names are free in that sense, there is a user or a password, and every catalogue key is stored or clean. Then the permission table is the catalogue, the four system roles have their names and scopes, the administrator is there, and the grants are told key by key: all keys for the administrator, and for the others by literal prefixes and endings |
| `Bootstrap.RbacStore.WritePermissions` | internal/database/rbac.go:251-263 | writes the trimmed keys, in any order, each with a description that the catalogue gives for it, and leaves all others |
| `Bootstrap.RbacStore.GrantSystemRolePermissions` | internal/database/rbac.go:339-385 | rebuilds the grants of the system roles, in any order, and fails exactly on a key that is not stored; `Bootstrap.FinalGrantsTold` tells them |
| `Bootstrap.RbacStore.WriteRoleList` | internal/database/rbac.go:293-308 | overlays the system roles on the table, and fails exactly when a role that is neither the one being written nor written before it has its name |
| `Bootstrap.SeedRolesIff` | internal/database/rbac.go:293-308 | writing row after row goes through exactly under that condition on the stored names, and leaves every other role as it was |
| `Bootstrap.RenamedFirst` | internal/database/rbac.go:293-308 | an administrator stored under the name of the operator is no obstacle: it is renamed first |
| `Bootstrap.KnownKeys` | internal/database/rbac.go:251-291 | the table left after stale keys are gone is the catalogue exactly if each of its keys is stored already or clean |
| `Bootstrap.RolesNested` | internal/database/rbac.go:339-385 | viewer grants are operator grants, operator grants are administrator grants, and the administrator has the catalogue |
| `Bootstrap.AuditorIsViewerPlus` | internal/database/rbac.go:339-385 | the auditor has the grants of the viewer and `audit:read` if it is in the catalogue |
| `Bootstrap.GrantsDetermined` | internal/database/rbac.go:339-385 | grants of system roles do not depend on earlier grants, custom roles keep theirs, and no role keeps an unknown key |
| `Bootstrap.AudienceTold` | internal/database/rbac.go:358-385 | the viewer gets a key exactly if it is `auth:self`, or ends in `:read` and starts with none of `rbac:`, `config:`, `audit:`; the auditor gets `audit:read` besides; the operator gets every key outside the literal list of administrative keys and endings |
| `Bootstrap.FinalGrantsTold` | internal/database/rbac.go:339-385 | that, and the whole catalogue for the administrator, are the grants afterwards; custom roles keep theirs |
| `Bootstrap.BootstrapTwice` | internal/database/rbac.go:243-337 | bootstrapping again goes through and changes nothing: roles, users, grants and permission keys, and also the descriptions if keys of the catalogue that differ only in white space have the same one |
| `ToolStats.Monitor.PurgeToolExecutionsBefore` | internal/database/monitor.go:839-900 | sums the groups, deletes the old rows and decreases each tool by its delta |
| `ToolStats.Monitor.SumGroups` | internal/database/monitor.go:852-877 | the deltas are the counts of the rows under each trimmed name, whatever the order of the groups |
| `ToolStats.Monitor.DecreaseToolStats` | internal/database/monitor.go:1090-1129 | figures less the given counts, never below zero; a zero total removes the row |
| `ToolStats.Monitor.UpdateToolStats` | internal/database/monitor.go:977-1005 | adds to the figures of a tool, or starts them |
| `ToolStats.Monitor.MigrateLegacyToolGuardBlocks` | internal/database/tool_guard_migration.go:38-84 | blocks the qualifying rows and takes them off the failures, or changes nothing |
| `ToolStats.DeleteMirrorsTool` | internal/database/monitor.go:839-900 | deleting rows with clean names takes the figures to the new counts, and no zero floor takes effect |
| `ToolStats.DeleteMirrorsIff` | internal/database/monitor.go:860-863 | after a purge the statistics mirror the log exactly if no deleted row has a blank name or white space around it |
| `ToolStats.MigrateMirrors` | internal/database/tool_guard_migration.go:38-84 | the migration keeps the mirror, and its zero floor never takes effect |
| `ToolStats.MigrateTwice` | internal/database/tool_guard_migration.go:35-38 | a second migration finds and changes nothing |
| `ToolStats.RunMirrors` | internal/database/monitor.go:839-1005 | the statistics mirror the log after any run of finished executions with clean names, purges and migrations |
| `ToolFigures.RunFiguresTold` | internal/database/monitor.go:839-1005 | after any such run a tool has figures exactly if the log has rows of it, and they are how many there are, how many have status `completed`, and how many have one of the statuses failed, hard timeout and orphaned |
| `ToolFigures.EndedFiguresTold` | internal/database/monitor.go:15-100 | with queued and running rows in the log the figures are those of the rows with any other status |
| `ToolFigures.StepLogTold` | internal/database/monitor.go:839-900 | what a purge and a migration leave in the log: the rows from the cutoff on; and the old refusals among the failed rows blocked, with their marked results, or nothing changed if one cannot be marked |
| `ToolFigures.StepPurgeTold` | internal/database/monitor.go:839-900 | whatever the names, a purge lowers the figures of a tool by those of the purged rows whose trimmed name is its name, not below zero, and removes a tool whose total is used up |
| `RunningTools.PurgeMirrorsIff` | internal/database/monitor.go:839-900 | with queued and running rows in the log and figures that count the finished ones, a purge of rows with clean names keeps the figures right exactly if no tool loses a pending row and keeps a finished one |
| `RunningTools.RunMirrorsDone` | internal/database/monitor.go:15-100 | after any run of executions queued, started and finished, migrations, and purges of that kind, the figures count the finished rows |
| `RunningTools.RunningPurged` | internal/database/monitor.go:839-900 | a purge that deletes the row of a running execution removes the figures of a finished one that stays |
| `LegacyGuard.LegacyRefusalIff` | internal/database/tool_guard_migration.go:13-33 | a text passes the legacy test exactly if it has one of the two openings and falls into a front, a rule with its ID on one line and a string literal without a further content mark: only the exact envelope is recognized |
| `Throttle.FailureThrottle.Allow` | internal/audit/throttle.go:19-38 | decides as `Denies` says, records the time of an allowed call and evicts above 4096 keys |
| `Throttle.PlainDeniedIff` | internal/audit/throttle.go:19-38 | without eviction a call with a key and a cooldown is denied exactly if an earlier allowed call of its key is less than its cooldown away, and no other call is |
| `Throttle.EvictionUnobservable` | internal/audit/throttle.go:30-35 | with cooldowns from some length to twice that length plus one, and a clock that never goes back, eviction changes no decision of any run |
| `Throttle.AllowedRowsApart` | internal/audit/throttle.go:19-38 | two allowed rows of a key are at least the cooldown apart |
| `Throttle.EvictionObservable` | internal/audit/throttle.go:30-35 | with a cooldown of one tick more some run lets a call through that should be denied |
| `EnvExpand.ExpandEnvVar` | internal/config/envexpand.go:10-50 | the cursor loop gives `Expand`, the recursive reading of the string |
| `EnvExpand.ParseLossless` | internal/config/envexpand.go:10-50 | plain text and references together are the string |
| `EnvExpand.FirstReferenceReplaced` | internal/config/envexpand.go:10-50 | a reference is replaced and reading goes on behind it: inserted text is never read again |
| `EnvExpand.UnclosedVerbatim` | internal/config/envexpand.go:24-29 | text without a closing brace stays as it is |
| `EnvExpand.TailVerbatim` | internal/config/envexpand.go:24-29 | so does everything behind the last closing brace, an unclosed reference included |
| `EnvExpand.UnchangedIff` | internal/config/envexpand.go:10-50 | a string survives every environment exactly when it has no complete reference |
| `EnvExpand.VariableExpanded` | internal/config/envexpand.go:10-50 | a reference is replaced by the value of its variable |
| `EnvExpand.DefaultExpanded` | internal/config/envexpand.go:36-50 | one with a default is replaced by the value, and by the default if the value is empty |
| `EnvExpand.PlainExpanded` | internal/config/envexpand.go:10-23 | text without the start of a reference stays |
| `FrontMatter.BuildMarkdownFile` | internal/agents/markdown.go:499-526 | the file is `Build` of the serialized header and the instruction |
| `FrontMatter.RoundTripIff` | internal/agents/markdown.go:114-129 | splitting a built file gives back trimmed header and trimmed instruction exactly when the header is more than line ends and no line after its first starts with the fence |
| `FrontMatter.GoodHeaderComesBack` | internal/agents/markdown.go:114-129 | the direction that callers rely on, for any instruction |
| `FrontMatter.FenceLineCutsHeader` | internal/agents/markdown.go:114-129 | a header with a fence line of its own loses that line |
| `FrontMatter.EmptyHeaderSwallowsFence` | internal/agents/markdown.go:114-129 | an empty header leaves the opening fence in the header, or no fence to find |

## Left out

- Letter case is folded for A to Z only; Unicode folding of roles and targets is not modelled.
- Strings are sequences of characters: invalid UTF-8 and the difference between bytes and runes are not modelled.
- The JSON and YAML libraries, the tokenizer, URL and IDNA parsing, `net.ParseIP`, `strconv.Unquote` and the encoding of
  blocked results are parameters; `Trace` assumes that decoding undoes encoding, for numbers within 53 bits, and
  the lemmas on normalizing that addresses, ASCII domains and URL schemes have no white space around them, and that the
  stored form of a domain is its own stored form.
- SQL text, drivers, schema migration, time parsing, logging, audit rows and HTTP routes.
- First-seen, last-seen, created and updated times of asset rows, and the edits that `normalizeAsset` leaves in the caller's
  object.
- `UpdateAssetsBulk`, `UpdateAssetsProject` and single deletion: they touch neither key nor figures.
- `DeleteConversation`, `UpdateBatchTaskStatus` and `ResetBatchQueueForRerun`: they move tasks and vulnerabilities to other
  conversations without a refresh, so the cached figures are right again only after the next one.
- Facts that point to deleted vulnerabilities, and the deletion of users; deleting a project is modelled for access only.
- Filters of the vulnerability list other than access are one parameter, a predicate on rows.
- `CancelOrphanedRunningToolExecutions` and `FinalizeStaleRunningToolExecutions`, which change a status without touching the
  statistics: rows that end that way are never counted, and a purge takes them off.
- `MergeYAMLAndMarkdown`, `MergeAssistantTraceOutput`, `ExpandConfigEnv`, directory loading and the status that persisted tool
  executions add to a summary: they would add only easy members.
- Access to messages, process details and tool executions, which is access to their conversation.
- Concurrency: the throttle's lock makes its calls a sequence, which is what is modelled.
- BodyCompaction.FrameSurvives: speaks of the pieces of one cut; `RepeatedCompaction` tells when the next cut agrees.
- Throttle.AllowedRowsApart: stated for cooldowns within a factor of two, because beyond it the property is false
  (`Throttle.EvictionObservable`).
