# Verified model of the benchmark harness

This project models the Python evaluation harness of ELF in Dafny and proves what its
parts promise. Every module stands for one component; the loops and the objects the
harness updates in place are methods and classes proved against specification
functions, and the promises are lemmas about those functions.

| component | modules | what is proved about it |
|---|---|---|
| budget gateway | `BudgetLedger`, `BudgetGateway` | over every interleaving, crash and restart, spending stays within what was reserved, saved and allowed |
| agent conversation | `AgentRun`, `AgentTurns` | budgets, pairing of calls and results, what every turn sends and runs, resuming equals not having been interrupted |
| case scheduler | `JobSchedule` | a bounded, duplicate-free schedule that stops at the first observed failure |
| OpenKB target | `SourceTrace`, `SourceMutation` | exact tracing over cyclic page graphs; content hashes and evidence ids stay paired |
| evidence host | `Json`, `JsonText`, `Compact`, `EvidenceHandles`, `HandleSize`, `Truncation`, `PackRepair`, `RepairedPack`, `PackLinks`, `HostBudget`, `HostSafety`, `HostTranscript`, `HostReferences`, `HostRead`, `HostRecall`, `RecallSize`, `HostService`, `SourceTools`, `ExcerptRead` | the byte budget, whole-record truncation, handles, and what a reader may cite |
| corpus and ingest | `Corpus`, `Paging`, `Ingest` | lines, windows and pages tile a source; each window is sent at most once |
| evaluation cell | `PilotCell` | turn and call budgets, what every turn executes, how a cell ends, and when an answer can still be submitted |
| scoring and reports | `EvaluationGate`, `RankMetrics`, `PilotReport` | exact coverage before metrics, bounded scores, a report its verifier agrees with |

`Wrappers` holds the two stock result shapes, `Bounds` the smaller and the larger of two
integers, and `FirstSeen` the lists without duplicates that several components build.

Conventions. Money, scores and discounts are exact reals. A text whose size in bytes
matters is its UTF-8 encoding, one `char` per byte. Anything outside a component (a model
reply, a native service, a disk that is replaced atomically, the moment a process dies) is
an arbitrary parameter, so a lemma about runs speaks of all of them. An exception is a
result value.

Where the code does not meet a promise in general, the model keeps the code and a lemma
states when it holds:

- The host asks the native service for 1024 bytes less than its cap, to leave room for
  source ids, white space and repairs. Whether that suffices for a reply is told exactly
  from its separators, its ids, what handles save and what a repair adds
  (`HostRead.AlwaysFitsIff`, `HostRead.AlwaysWithinCapIff`). With handles it keeps every
  native recall within its cap (`HostRecall.NativeRecallWithinCap`). Without handles a
  recall of twelve notes with sixty-four facts each can cost one byte more than its cap
  and leave the budget at -1 (`HostRecall.RecallMayOverdraw`), also under the released
  limits (`RecallSize.CitingIsSmall`). In either mode a recall of as many facts and no
  originals may be refused as too large (`HostRecall.RecallMayNotFit`).
- The budget goes negative exactly as `HostSafety.ToolOverdrawsIff` and
  `HostSafety.PackOverdrawsIff` say, told from the result before it is cut or repaired. How
  far is bounded for any requests by `HostSafety.NeverOverdrawn`; when packs and recalls are
  native ones it never does with handles, and ends at -9 at the lowest without
  (`HostService.BudgetIsSafe`).
- A truncated recall loses valid quotes of originals the conversation already holds,
  because their bodies are left out before quotes are looked up: which quotes stay is
  `PackLinks.QuoteKeptIff`, an input that loses one `PackLinks.QuoteOfDeliveredOriginal`.
- A result list that names one original both by its opaque and by its own id counts it
  twice, for a recall of 2 (`RankMetrics.BothWaysCountsTwice`); recall and nDCG stay in
  [0, 1] for every judgement exactly without such a pair (`RankMetrics.ScoresBoundedIff`).
- A raw object whose reference is spelled like a handle the table already holds passes
  unchanged and makes that handle visible without a body
  (`EvidenceHandles.ForgedHandlePasses`).
- The tool call kept for `submit_answer` is spent by a batch that runs on to the full
  budget, after which a cell cannot complete (`PilotCell.ReserveSurvivesIff`).
- The two-worker schedule ends early, and returns normally, after a second `None` in the
  iterable (`JobSchedule.SecondGapEndsSchedule`).
- Two sources with one native document name share their pages, so one of them can no
  longer be traced (`SourceMutation.SharedNameLosesEvidence`); all can be exactly if names
  differ (`SourceMutation.EveryDocumentTraceable`).
- The search reports that there may be more as soon as it holds twenty matches, also when
  there are exactly twenty (`Paging.SearchFiles`).

Run `dafny verify dfyconfig.toml` in this directory to check the whole project.

## Model

| member | source | states |
|---|---|---|
| `BudgetLedger.Totals` | scripts/benchmark_budget.py:34-40 | one pass yields exactly what was paid and what is exposed |
| `BudgetLedger.PaidWithinExposure` | scripts/benchmark_budget.py:34-40 | what is paid never exceeds what is exposed, for any rows |
| `BudgetLedger.ExcessGrows` | scripts/benchmark_budget.py:34-40 | the excess of settled over reserved amounts only grows with the ledger |
| `BudgetLedger.TotalsAfterUpdate` | scripts/benchmark_budget.py:118-122 | changing one row moves the totals by that row's difference alone |
| `BudgetLedger.ContributionIsLeast` | scripts/benchmark_budget.py:29-40 | a row adds to the exposure the least amount that covers its reported cost and, unless it completed with one, its reservation |
| `BudgetLedger.ReservationDominatesCharge` | scripts/benchmark_budget.py:43-77 | a bill that honours the limits put in the request costs at most the reserved amount, for both kinds |
| `BudgetLedger.ReservationIsTight` | scripts/benchmark_budget.py:43-44 | no less would do: the bill of 8192 tokens beyond the request, at the limit prices and the output limit, honours the limits and costs the whole reservation |
| `BudgetLedger.PreparedOutputIsEnforced` | scripts/benchmark_budget.py:53-77 | a prepared chat request carries its own positive output limit within the profile, and every reservation is positive |
| `BudgetLedger.OutputLimitIff` | scripts/benchmark_budget.py:53-64 | the output limit is what the body asks for, cut to the profile's, or the profile's where that is forced or nothing is asked; a request with another number of choices, other parts than text or no positive limit has none |
| `BudgetLedger.RetriedIff` | scripts/benchmark_budget.py:127-135 | a request is retried exactly if it is an embedding throttled with 429, attempts are left, and a given `Retry-After` is 1 to 30 seconds |
| `BudgetLedger.RetryDelays` | scripts/benchmark_budget.py:127-135 | the delay is the given one, else 2 seconds and twice as long with every attempt |
| `BudgetLedger.Ledger.constructor` | scripts/benchmark_budget.py:95-100 | a process starts from the saved ledger and remembers the exposure it found |
| `BudgetLedger.Ledger.Reserve` | scripts/benchmark_budget.py:107-116 | a reservation is refused exactly when exposure with it would exceed the ceiling, or exceed the opening exposure by more than the tranche; otherwise its row is added last, with the next ordinal, and saved before it is returned |
| `BudgetLedger.Ledger.Finish` | scripts/benchmark_budget.py:118-124 | settling changes one row, is saved, and reports the true totals |
| `BudgetGateway.StepKeepsInv` | scripts/benchmark_budget.py:95-124 | every step of the gateway keeps the ledger, the file and all handlers consistent |
| `BudgetGateway.RunKeepsInv` | scripts/benchmark_budget.py:174-238 | so does every run of any processes and handlers |
| `BudgetGateway.ExposureOverHistory` | scripts/benchmark_budget.py:107-124 | over all histories the saved exposure stays within the highest ceiling and the sum of tranches, but for settled excesses; rows are numbered 1..n |
| `BudgetGateway.ExposureWithinProcess` | scripts/benchmark_budget.py:107-116 | within one process exposure stays within its ceiling and its growth within its tranche, but for its own excesses |
| `BudgetGateway.RefusedIff` | scripts/benchmark_budget.py:107-116 | a handler that reserves is closed if and only if the exposure of the book with its row appended exceeds the ceiling, or the opening exposure by more than the tranche; otherwise that row is appended |
| `BudgetGateway.LimitsOfProcess` | scripts/benchmark_budget.py:95-99 | all along a process its limits are those it was started with, and its opening exposure is that of the file it found |
| `BudgetGateway.RefusedInRunIff` | scripts/benchmark_budget.py:107-116 | so in any run a reservation is refused if and only if the exposure with it exceeds the ceiling of the process, or that of the file it started on by more than its tranche |
| `BudgetGateway.SettledAs` | scripts/benchmark_budget.py:208-238 | settling changes the own row alone, to completed exactly for a usable cost, else to cost unknown, provider failure or uncertain as the request ended |
| `BudgetGateway.AttemptFollowsIff` | scripts/benchmark_budget.py:219-238 | once settled and saved, another attempt follows exactly after a 429 to an embedding with attempts left and a usable `Retry-After` |
| `BudgetGateway.EverySendHasItsOwnSavedRow` | scripts/benchmark_budget.py:193-207 | every request ever sent upstream has its own saved row holding its full reservation |
| `BudgetGateway.SendAfterSave` | scripts/benchmark_budget.py:194-207 | a request goes out only when its in-flight row is already on file and was not sent before |
| `BudgetGateway.NeverReplayed` | scripts/benchmark_budget.py:127-135 | before the latest attempt of a request there are only explicit provider failures; uncertain or answered attempts are not replayed |
| `BudgetGateway.SpendWithinSavedExposure` | scripts/benchmark_budget.py:193-238 | what the provider bills, also for attempts lost in a crash, stays inside the saved exposure but for overruns of the reservation |
| `BudgetGateway.SpendNeverExceedsCeiling` | scripts/benchmark_budget.py:43-124 | while the provider honours each request's limits, neither billed money nor exposure ever exceeds the highest ceiling or all tranches |
| `BudgetGateway.SavedRowsRise` | scripts/benchmark_budget.py:107-124 | from any moment of a run on, saved rows are only added to and their settled costs only rise |
| `FirstSeen.AppendNewMeaning` | scripts/benchmark_contract/metrics.py:14-19 | first-seen lists hold each value once, keep their prefix and lose none |
| `FirstSeen.FirstSeenOrder` | scripts/benchmark_contract/metrics.py:14-19 | values stand in the order of their first occurrence |
| `SourceTrace.ResolveSourcePath` | scripts/benchmark_targets/openkb.py:410-427 | the recursion over one shared visited set computes the specified search |
| `SourceTrace.TraceIsExact` | scripts/benchmark_targets/openkb.py:410-427 | a top-level trace returns, without duplicates, exactly the evidence of direct pages reachable through pages that are not direct, on any graph |
| `SourceTrace.InnerCallMayForget` | scripts/benchmark_targets/openkb.py:418-420 | an inner call on a visited page can miss evidence that page stands for |
| `SourceTrace.NativeSourceTrace` | scripts/benchmark_targets/openkb.py:430-462 | one row per call that names a page, and the rows' evidence in first-seen order |
| `SourceTrace.PageNamed` | scripts/benchmark_targets/openkb.py:438-449 | `read_file` names its path, `get_page_content` the source page of its document, and no other call a page |
| `SourceTrace.RowsMean` | scripts/benchmark_targets/openkb.py:438-458 | the rows are those of the calls that name a page, with that page and its evidence |
| `SourceTrace.TraceUnionIsExact` | scripts/benchmark_targets/openkb.py:430-462 | the reported ids are, without duplicates, exactly the evidence of the pages that the calls name |
| `SourceMutation.MaterializeSources` | scripts/benchmark_targets/openkb.py:117-133 | succeeds if and only if equal content never belongs to two evidence ids, and then maps exactly the items |
| `SourceMutation.SourcePaths` | scripts/benchmark_targets/openkb.py:136-151 | succeeds if and only if evidence ids are distinct |
| `SourceMutation.NativeDocumentRecords` | scripts/benchmark_targets/openkb.py:292-314 | succeeds if and only if every hash has a usable registry entry and path, and inverts the hash map |
| `SourceMutation.PathsIdentifyPages` | scripts/benchmark_targets/openkb.py:280-283 | the pages of documents never share a path |
| `SourceMutation.NativeDocumentMap` | scripts/benchmark_targets/openkb.py:266-289 | accepts exactly a registry of the expected sources, each with a non-empty document name, and says which of the two is wrong |
| `SourceMutation.EveryDocumentTraceable` | scripts/benchmark_targets/openkb.py:266-289 | every live document can be traced if and only if no two share a native name |
| `SourceMutation.SharedNameLosesEvidence` | scripts/benchmark_targets/openkb.py:266-289 | two sources registered under one document name are accepted, and only one of them can be traced |
| `SourceMutation.ApplyKeepsIdentity` | scripts/benchmark_targets/openkb.py:532-617 | one completed delete or update keeps both maps inverse and means just that change |
| `SourceMutation.UpdateCollidesIff` | scripts/benchmark_targets/openkb.py:573-579 | an update collides exactly when another live source already has its new content |
| `SourceMutation.OperationMeans` | scripts/benchmark_targets/openkb.py:532-617 | when an operation completes, which failure stops every other one, and the whole record, maps and receipt it leaves: an update stores the new content under its newly registered name and in its file, a delete forgets its target, nothing else changes |
| `SourceMutation.RenderMeans` | scripts/benchmark_targets/openkb.py:573-575 | a rendered source is its text without trailing white space, and one line feed |
| `SourceMutation.Mutator.ApplyOperation` | scripts/benchmark_targets/openkb.py:532-617 | the in-place mutation of both maps is the specified operation, with its receipt |
| `SourceMutation.Mutator.ApplyOperations` | scripts/benchmark_targets/openkb.py:510-645 | returns if and only if every operation completes and the closing check accepts; one receipt per operation |
| `SourceMutation.IngestEstablishesIdentity` | scripts/benchmark_targets/openkb.py:292-314 | after ingest the hash map and the records are inverse |
| `SourceMutation.MutationKeepsIdentity` | scripts/benchmark_targets/openkb.py:510-645 | through any jobs that do not raise, the maps stay inverse and the closing check accepts exactly the surviving sources |
| `AgentRun.Resume` | scripts/benchmark_agent/runner.py:47-54 | messages and call count are rebuilt from a recorded trace, or it is refused |
| `AgentRun.Run` | scripts/benchmark_agent/runner.py:43-95 | the loops carry out the conversation, fresh or resumed, that `AgentTurns` tells turn by turn |
| `AgentRun.BoundaryHolds` | scripts/benchmark_agent/runner.py:55-94 | whenever a turn begins, messages, call count and trace agree, every batch answered once and in order |
| `AgentRun.FreshRunWithinBudget` | scripts/benchmark_agent/runner.py:55-95 | a fresh run makes at most its rounds of requests, each recorded as a step but perhaps a last one that raises, and its calls of executions, none on a closing turn, each batch executed as a prefix |
| `AgentTurns.NoticeIff` | scripts/benchmark_agent/runner.py:57-62 | the request of every turn follows the opening or the answers of the turn before, and carries the closing notice exactly in the last round, once all calls are used, or without tools |
| `AgentTurns.ExecutedOfTurn` | scripts/benchmark_agent/runner.py:63-94 | in those turns nothing is executed; in every other recorded turn the calls run in order, with the results the tools gave, until the calls are used up, one is unreadable or running it raises |
| `AgentTurns.EndingIff` | scripts/benchmark_agent/runner.py:55-95 | a run uses all its rounds exactly if every reply has calls and all of them were answered; else it ends as its last turn does, by an answer or by raising, for the reasons stated |
| `AgentTurns.SavedEveryTime` | scripts/benchmark_agent/runner.py:65-93 | the trace is saved with every reply and again after every executed call, each time as far as it had got, and at no other time |
| `AgentRun.AcceptsCompleteBatches` | scripts/benchmark_agent/runner.py:48-54 | a trace is accepted exactly when every step is a completely executed batch |
| `AgentRun.SavedDuringSomeTurn` | scripts/benchmark_agent/runner.py:65-93 | every saved trace was saved during some turn the run reached |
| `AgentRun.ResumeEquivalence` | scripts/benchmark_agent/runner.py:47-61 | resuming a saved trace is accepted exactly for complete batches, then equals the uninterrupted run; closing turns are refused |
| `AgentRun.RunContinues` | scripts/benchmark_agent/runner.py:55-95 | a run is, from any turn it reaches, the run continued from there |
| `AgentRun.FinalizeRecorded` | scripts/benchmark_agent/runner.py:24-35 | the final request carries the recorded messages with results aligned by index |
| `AgentRun.FinalizeReplaysConversation` | scripts/benchmark_agent/runner.py:29-34 | that alignment gives back the conversation the agent had, each result under the call that produced it |
| `JobSchedule.RunSerial` | scripts/benchmark_agent/schedule.py:6-9 | one worker calls the jobs in turn up to the first failure |
| `JobSchedule.RunTwo` | scripts/benchmark_agent/schedule.py:12-30 | for any completion order the submissions are a prefix of the jobs, and a normal return means all scheduled jobs succeeded |
| `JobSchedule.RunJobs` | scripts/benchmark_agent/schedule.py:5-30 | only one or two workers are accepted; a return means the scheduled jobs succeeded |
| `JobSchedule.BoundedLogMeans` | scripts/benchmark_agent/schedule.py:20-27 | at most two jobs are in flight, none is submitted twice, nothing follows an observed failure |
| `JobSchedule.TwoWorkersCallAllIff` | scripts/benchmark_agent/schedule.py:16-27 | two workers call the jobs of the serial loop if and only if the iterable holds no `None` |
| `JobSchedule.SecondGapEndsSchedule` | scripts/benchmark_agent/schedule.py:16-27 | a job is scheduled exactly when fewer than two `None` precede it |
| `Json.EscapingBound` | scripts/benchmark_pilot/tools.py:155-160 | escaping costs at most six bytes per original byte (section 7 of RFC 8259) |
| `Json.PopDecreases` | scripts/benchmark_pilot/tools.py:273-288 | dropping a record lowers the total length of the outermost lists by one |
| `Json.PopIsCut` | scripts/benchmark_pilot/tools.py:287 | dropping a record leaves every list a prefix with intact records |
| `JsonText.SizeIsLength` | scripts/benchmark_pilot/tools.py:271-287 | the sizes of this model are the lengths of the text `json.dumps` writes, with non-ASCII characters kept or escaped (section 7 of RFC 8259) |
| `JsonText.CompactIsLength` | packages/elf-service/src/evidence/pack/budget.rs:56-60 | the sizes of the native service are the lengths of that text without spaces |
| `JsonText.MeasuredAsText` | scripts/benchmark_pilot/tools.py:282-287 | a result fits when that text with characters kept is within the cap; the heaviest list is the one whose escaped text is longest |
| `Compact.SizeWithSeparators` | packages/elf-service/src/evidence/pack/budget.rs:56-60 | the host counts one byte more than the native service for every comma and colon, and nothing else |
| `EvidenceHandles.HandleNameInjective` | scripts/benchmark_pilot/evidence.py:44 | handles E1, E2, ... are distinct |
| `EvidenceHandles.WithIsValid` | scripts/benchmark_pilot/evidence.py:40-46 | looking up or adding a reference keeps the table a bijection between E1..En and distinct references |
| `EvidenceHandles.ProjectIsValid` | scripts/benchmark_pilot/evidence.py:48-69 | projecting keeps the bijection, only adds handles and shows none |
| `EvidenceHandles.ProjectThenRestore` | scripts/benchmark_pilot/evidence.py:48-69 | putting the native references back, now or later, gives the value with just the already-read bodies removed, if the value forges no handle |
| `EvidenceHandles.ProjectAccounts` | scripts/benchmark_pilot/evidence.py:50-67 | a projected object shows a handle without a body only for an original that was visible before |
| `EvidenceHandles.AccountedNames` | scripts/benchmark_pilot/evidence.py:71-80 | so exposing such a value makes nothing visible whose body is missing |
| `EvidenceHandles.ResolveUndoesProject` | scripts/benchmark_pilot/evidence.py:82-90 | the handle shown for an original resolves to its native reference, then and ever after |
| `EvidenceHandles.ForgedHandlePasses` | scripts/benchmark_pilot/evidence.py:50-80 | an object that already names a handle of the table passes unchanged and makes the handle visible without a body |
| `HandleSize.ProjectSize` | scripts/benchmark_pilot/evidence.py:48-69 | projecting changes the size of a value by exactly what names, hidden bodies and marks come to |
| `EvidenceHandles.Registry.Handle` | scripts/benchmark_pilot/evidence.py:40-46 | the loop returns the reference's handle, adding the next one if there is none |
| `EvidenceHandles.Registry.ProjectValue` | scripts/benchmark_pilot/evidence.py:48-69 | the visit in place computes the specified projection |
| `EvidenceHandles.Registry.Expose` | scripts/benchmark_pilot/evidence.py:71-80 | exactly the handles naming an object of the value become visible |
| `EvidenceHandles.Registry.Resolve` | scripts/benchmark_pilot/evidence.py:82-90 | claims resolve if and only if every citation is a visible handle, and only references change |
| `Truncation.HeaviestMeans` | scripts/benchmark_pilot/tools.py:283-287 | the list that loses a record is the first of the heaviest non-empty ones |
| `Truncation.ShedDecreases` | scripts/benchmark_pilot/tools.py:282-288 | every pass drops a record, so the loop ends |
| `Truncation.FitKeepsWholeRecords` | scripts/benchmark_pilot/tools.py:273-288 | a fitted value is within the cap, says if it was cut, and is otherwise the original with lists cut to prefixes |
| `Truncation.FitStopsAtOnce` | scripts/benchmark_pilot/tools.py:282-288 | no record is dropped needlessly |
| `Truncation.GivenUpIff` | scripts/benchmark_pilot/tools.py:282-286 | a result becomes the fixed error exactly when not even the value without any record fits |
| `Truncation.Truncate` | scripts/benchmark_pilot/tools.py:274-288 | the loop computes the specified fit |
| `PackRepair.LinkedAreAvailable` | scripts/benchmark_pilot/tools.py:296-299 | exactly the references to originals of the pack are kept, each as often as it was there |
| `PackRepair.KeptQuotes` | scripts/benchmark_pilot/tools.py:300-303 | exactly the quotes that a still-linked original contains are kept, each as often as it was there |
| `PackRepair.RepairedNoteIsClosed` | scripts/benchmark_pilot/tools.py:295-303 | a repaired note links and quotes only originals of the pack, and is incomplete if it lost a link |
| `PackRepair.RepairLeavesNoDanglingLink` | scripts/benchmark_pilot/tools.py:289-303 | a truncated pack claims no completeness, keeps its originals, and has no dangling link or quote |
| `PackRepair.RepairTwice` | scripts/benchmark_pilot/tools.py:289-303 | repairing a repaired value changes nothing |
| `RepairedPack.RepairMeans` | scripts/benchmark_pilot/tools.py:289-303 | a result is left alone unless its `truncated` is true in Python's sense and it, or its `pack`, has sources and notes; then completeness is withdrawn, every note keeps just the references some source has and the quotes its text contains, and all else stays |
| `RepairedPack.TruthyMeans` | scripts/benchmark_pilot/tools.py:290 | false are nothing, empty values and numbers with a mantissa of zeros |
| `PackRepair.RepairGrows` | scripts/benchmark_pilot/tools.py:294-303 | a repair changes the size of a value by exactly what its flags, dangling links and lost quotes tell beforehand |
| `PackRepair.GrowthWithinClaims` | scripts/benchmark_pilot/tools.py:294-303 | a repair adds at most nineteen bytes per withdrawn completeness claim |
| `PackRepair.ClosedPackGrowth` | scripts/benchmark_pilot/tools.py:290-303 | a pack without dangling links or lost quotes grows by one byte if it claims to be complete, else not at all |
| `PackRepair.LinkedPackGrowth` | scripts/benchmark_pilot/tools.py:290-303 | a pack without dangling links grows by at most the byte between true and false, and not at all if it claims nothing |
| `PackRepair.WithdrawClaims` | scripts/benchmark_pilot/tools.py:290-303 | the loops carry out the specified repair |
| `PackLinks.LinkSurvivesIff` | scripts/benchmark_pilot/evidence.py:61-62 | a reference of a note finds its original in the projected pack exactly if it did in the native one |
| `PackLinks.OriginalShown` | scripts/benchmark_pilot/evidence.py:50-60 | an original is shown under a handle that resolves to it, with its text and excerpt unless the conversation already holds it; then with neither and a mark |
| `PackLinks.QuoteKeptIff` | scripts/benchmark_pilot/tools.py:300-303 | after projection and repair exactly the quotes stay that stand in a linked original whose body is shown now, each as often as it was there |
| `PackLinks.DeliveredQuoteIsLost` | scripts/benchmark_pilot/evidence.py:56-60 | a quote goes when every original of the pack that holds it was delivered before |
| `PackLinks.QuoteOfDeliveredOriginal` | scripts/benchmark_pilot/tools.py:300-303 | a pack whose quote is backed loses it for a reader who holds the original |
| `HostBudget.SpentIsWhatWasReturned` | scripts/benchmark_pilot/tools.py:250-335 | the budget used is, byte for byte, the size of all that was returned; only the refusal at an exhausted budget is free |
| `HostSafety.FittedIsRepairedOnlyIf` | scripts/benchmark_pilot/tools.py:290-292 | only a result shaped like a pack is repaired, and a pack or recall only if it arrived truncated |
| `HostSafety.ChargeOfACall` | scripts/benchmark_pilot/tools.py:264-321 | a charged reply is what is left of the result after the cut, within the cap or the fixed error of 110 bytes, plus exactly what the repair adds; a check costs its verdict within the cap or 84 bytes |
| `HostSafety.GrowsOnlyIf` | scripts/benchmark_pilot/tools.py:290-292 | a reply grows after the cut only if the raw result is shaped like a pack, and for a pack or recall only if it arrived truncated |
| `HostSafety.UnansweredIff` | scripts/benchmark_pilot/tools.py:250-261 | a call is refused for free exactly with at most 100 bytes left, or 2148 with handles except for a check, and raises exactly on uncaught errors, status 402 and 500 on |
| `HostSafety.CaughtAs` | scripts/benchmark_pilot/tools.py:256-261 | what a caught error is answered with |
| `HostSafety.CheckInNumbers` | scripts/benchmark_pilot/tools.py:268-272 | a verdict is returned exactly if it is within what remains and `max_tool_result_bytes`, else the error of 84 bytes |
| `HostSafety.FittingInNumbers` | scripts/benchmark_pilot/tools.py:264-303 | another result within what remains, less 2048 bytes with handles, and `max_tool_result_bytes` comes back uncut, then repaired |
| `HostSafety.UnfittingPackInNumbers` | scripts/benchmark_pilot/tools.py:265-288 | a larger pack or recall is replaced by its error if that fits, else by the one of 110 bytes |
| `HostSafety.UnfittingInNumbers` | scripts/benchmark_pilot/tools.py:273-303 | any other larger result is cut to what fits and marked, then repaired, or becomes the error of 110 bytes, exactly if not even its records dropped it fits |
| `HostSafety.ProvidedIff` | scripts/benchmark_pilot/tools.py:323-335 | originals are provided exactly if they leave 2048 bytes, whole and charged in full |
| `HostSafety.OverrunsIff` | scripts/benchmark_pilot/tools.py:264-303 | a call costs more than its cap exactly when its cut result and its growth do, or when not even the error for it fits |
| `HostSafety.PacksAreWhole` | scripts/benchmark_pilot/tools.py:265-267 | packs and recalls come back whole or as an error |
| `HostSafety.PackOverrunsIff` | scripts/benchmark_pilot/tools.py:264-303 | a pack or recall that fits costs more than its cap exactly when its size and its growth exceed it, one that does not exactly when the cap is below 110 |
| `HostSafety.ClosedPackOverrunsIff` | scripts/benchmark_pilot/tools.py:290-303 | without dangling links a repaired pack or recall exceeds its cap exactly when it fills the cap and claims to be complete |
| `HostSafety.NoFitSize` | scripts/benchmark_pilot/tools.py:285 | the error for a result that does not fit is 110 bytes |
| `HostSafety.NoVerdictSize` | scripts/benchmark_pilot/tools.py:270 | the error for a verdict that does not fit is 84 bytes |
| `HostSafety.ToolOverdrawsIff` | scripts/benchmark_pilot/tools.py:264-321 | a tool other than pack and recall makes the budget negative exactly when less than 110 bytes are left and its projected result fits neither whole nor without its records |
| `HostSafety.PackOverdrawsIff` | scripts/benchmark_pilot/tools.py:264-321 | a pack or recall does exactly when it fits and its size and its growth exceed what is left, or when it does not fit and not even the error does |
| `HostSafety.StepDips` | scripts/benchmark_pilot/tools.py:250-335 | any other request than a check reaches below the check reserve, or below zero without handles, by at most nine bytes or its own growth |
| `HostSafety.NeverOverdrawn` | scripts/benchmark_pilot/tools.py:250-335 | over any sequence of requests the budget is overdrawn by no more than the largest growth of a reply reaches beyond the check reserve with handles, and beyond zero without (or nine bytes) |
| `HostSafety.CheckReserveIsKept` | scripts/benchmark_pilot/tools.py:96-98 | until the first check, over any requests, the bytes kept for it are touched by at most nine or the largest growth of a reply |
| `HostSafety.NativePacksStayWithinBudget` | packages/elf-service/src/evidence/pack.rs:27-28 | with at most twelve notes in any result the budget is never negative with handles and never below -247 without, and with handles all but 247 of the bytes kept for the first check remain |
| `HostSafety.UnrepairedStaysWithinBudget` | scripts/benchmark_pilot/tools.py:250-335 | while no reply grows by more than nine bytes the budget is never negative with handles and never below -9 without |
| `HostTranscript.FitKeepsAccounted` | scripts/benchmark_pilot/tools.py:273-288 | cutting records never separates a handle from its body |
| `HostTranscript.RepairKeepsAccounted` | scripts/benchmark_pilot/tools.py:289-303 | nor does repairing a pack |
| `HostTranscript.RunIsConsistent` | scripts/benchmark_pilot/tools.py:315-335 | after any conversation every visible handle was delivered with its body and counts as seen |
| `HostTranscript.AlreadyReadWasDelivered` | scripts/benchmark_pilot/evidence.py:54-60 | at every turn an object shown without its body had it delivered in an earlier reply |
| `HostTranscript.HandlesNeverChange` | scripts/benchmark_pilot/evidence.py:40-46 | a handle keeps its meaning and its visibility for the rest of the conversation |
| `HostTranscript.CitedOriginalsWereDelivered` | scripts/benchmark_pilot/evidence.py:82-90 | every citation that resolves is of an original whose body was delivered |
| `HostReferences.NativesMean` | scripts/benchmark_pilot/tools.py:304-314 | the references counted as seen in a reply are the native ones that stand under `reference` anywhere in it |
| `HostReferences.ReferencesAreCited` | scripts/benchmark_pilot/tools.py:304-314 | without handles, after any conversation, exactly the references that its replies cite count as seen |
| `HostRead.NamedReplySize` | scripts/benchmark_pilot/tools.py:242-248 | adding source ids to a pack or recall adds exactly the sum of what each id costs |
| `HostRead.ExecutedIsRead` | scripts/benchmark_pilot/tools.py:229-240 | a service that keeps the limit it is asked for answers with a reply within it, to which ids are added |
| `HostRead.AskedInNumbers` | scripts/benchmark_pilot/tools.py:229-240 | the service is asked for the least of what the call asks and 1024 bytes below what may be returned, and not at all below 1024 |
| `HostRead.ReadWithinCapIff` | scripts/benchmark_pilot/tools.py:229-240 | a reply within its native limit costs more than the cap of the host exactly when it fits with its overhead but not with what the repair adds |
| `HostRead.AlwaysFitsIff` | scripts/benchmark_pilot/tools.py:230-232 | whatever the budget, a reply the service may send fits exactly if white space and ids, less what handles save, are within 1024 bytes (more below the least limit) |
| `HostRead.AlwaysWithinCapIff` | scripts/benchmark_pilot/tools.py:230-232 | whatever the budget, it costs no more than its cap exactly if the repair adds nothing or stays within them as well |
| `HostRecall.NativeGrowth` | packages/elf-service/src/evidence/recall.rs:54-71 | repairing a native recall, with or without handles, adds at most one byte, and nothing if its pack is incomplete |
| `HostRecall.NativeRecallWithinCap` | scripts/benchmark_pilot/tools.py:229-240 | with handles no native recall within its limit costs more than its cap |
| `HostRecall.RecallMayExceedCap` | scripts/benchmark_pilot/tools.py:230-232 | without handles 1024 bytes do not suffice for a native recall of twelve notes with sixty-four facts |
| `HostRecall.RecallMayOverdraw` | scripts/benchmark_pilot/tools.py:289-320 | without handles that recall, sent within its limit, costs its cap and one byte, and leaves a budget it just fits at -1 |
| `HostRecall.RecallMayNotFit` | scripts/benchmark_pilot/tools.py:265-267 | with or without handles a native recall within its limit may not fit the cap, by white space alone |
| `RecallSize.CitingIsSmall` | config/benchmark/evidence/2026-10-15-complete-memory/protocol.json:10-11 | with short strings the recall that overdraws is within the released limit of 12000 bytes for one reply |
| `HostService.BudgetIsSafe` | scripts/benchmark_pilot/tools.py:186-335 | over any conversation whose packs and recalls are native replies within their limits, the budget is never negative with handles and never below -9 without, and until the first check all but nine of the bytes kept for it remain |
| `SourceTools.SourceTools.constructor` | scripts/benchmark_pilot/tools.py:84-94 | a conversation starts with the full budget and nothing seen |
| `SourceTools.SourceTools.Call` | scripts/benchmark_pilot/tools.py:250-321 | the method updates budget, references and handles, and replies, as the specified turn, which `HostSafety` tells in numbers |
| `SourceTools.SourceTools.ProvideOriginals` | scripts/benchmark_pilot/tools.py:323-335 | frozen originals are handed over whole within the budget less the check reserve, or not at all |
| `SourceTools.SourceTools.Finalize` | scripts/benchmark_pilot/tools.py:337-348 | a final answer is the draft with resolved citations, returned exactly when the checker confirms every claim by its index and in order, and rejected with the verdicts when it does not confirm one; references are all seen exactly when one is cited and, without handles, each was returned before |
| `SourceTools.ResolvedAreSeen` | scripts/benchmark_pilot/tools.py:347-348 | resolved citations are all of originals seen in the conversation |
| `ExcerptRead.SecondReadFits` | scripts/benchmark_pilot/tools.py:154-161 | the second read fits the cap whatever its text is made of, if the native side honours its limit and metadata grows by at most 32 bytes |
| `ExcerptRead.SixBytesAreNeeded` | scripts/benchmark_pilot/tools.py:155 | a text of control characters needs all six bytes per byte |
| `ExcerptRead.ReadExcerpt` | scripts/benchmark_pilot/tools.py:134-162 | what is returned fits, is the first read if that fits, and metadata alone is refused exactly when it leaves no room |
| `Corpus.JoinOfLines` | scripts/benchmark_pilot/corpus.py:87 | the lines of a source concatenate to it |
| `Corpus.LinesMean` | scripts/benchmark_pilot/corpus.py:87 | lines end with LF, CR or CR LF, which is never split; no line holds an end before its own, and every line but the last has one |
| `Corpus.LinesOfSlice` | scripts/benchmark_pilot/tools.py:124-132 | any run of consecutive lines splits back into those lines |
| `Corpus.SpansTile` | scripts/benchmark_pilot/corpus.py:83-94 | windows are contiguous, keep every line whole and in order, are within the maximum unless a single line, and no smaller than they had to be |
| `Corpus.CutSpans` | scripts/benchmark_pilot/corpus.py:83-94 | the loop yields the specified windows |
| `Paging.TakeLines` | scripts/benchmark_pilot/tools.py:118-128 | lines are taken while they join, and no further |
| `Paging.ReadLines` | scripts/benchmark_pilot/tools.py:109-132 | a read fails exactly on a bad range or when its first line does not fit; otherwise it is the source's bytes at its offsets, with the right next line |
| `Paging.PagesAdvance` | scripts/benchmark_pilot/tools.py:131-132 | every page moves on, so following pages ends |
| `Paging.PagesCoverSource` | scripts/benchmark_pilot/tools.py:109-132 | following `next_line` from line 1 to the end gives the source without gap or overlap |
| `Paging.ItemContainsItsLine` | scripts/benchmark_pilot/tools.py:172-180 | a search item is the source's bytes at its offsets and contains its matched line |
| `Paging.ItemIsContextIff` | scripts/benchmark_pilot/tools.py:174-180 | a search item is its line with one before and two after exactly if these are at most 2000 bytes, else the line alone |
| `Paging.MatchesInMeans` | scripts/benchmark_pilot/tools.py:172-180 | the items of a source are those of its matching lines and no others |
| `Paging.SearchFiles` | scripts/benchmark_pilot/tools.py:164-184 | the first twenty matches in source order, and more are announced from twenty on |
| `Ingest.WindowsKeepInv` | scripts/benchmark_pilot/runner.py:204-230 | from any point of a source, sending goes on in order and only adds |
| `Ingest.AtMostOnce` | scripts/benchmark_pilot/runner.py:204-230 | over any crashes and restarts no window is sent twice, and each source's sent windows are its first ones in order |
| `Ingest.CompletionTiles` | scripts/benchmark_pilot/runner.py:204-233 | once a process returns normally the sent ranges of its sources tile the originals exactly |
| `Ingest.WindowsLeave` | scripts/benchmark_pilot/runner.py:206-230 | what a process does to one source: it gets past every window that has its result or is answered now, and just those attempts, posts and results are added that say so |
| `Ingest.CompletesIff` | scripts/benchmark_pilot/runner.py:204-233 | after any history a process returns normally if and only if every window of its sources has its result, or was never attempted and is answered now |
| `Ingest.LostAnswerBlocks` | scripts/benchmark_pilot/runner.py:210-212 | an attempt without a result is never resent and blocks its source for good |
| `Ingest.MarkerFiles.IngestSource` | scripts/benchmark_pilot/runner.py:206-232 | the loop over windows writes markers and sends as specified |
| `Ingest.MarkerFiles.IngestStage` | scripts/benchmark_pilot/runner.py:204-232 | so does the loop over sources |
| `PilotCell.CellWithinBudget` | scripts/benchmark_pilot/runner.py:81-152 | a cell never exceeds its rounds or tool calls, a closing turn runs nothing but a submission, and a client cell completes by a submission only |
| `PilotCell.BatchStaysWithin` | scripts/benchmark_pilot/runner.py:114-150 | a batch stays within the tool calls, runs nothing but a submission when closing, and only adds executions |
| `PilotCell.BatchAnswersInOrder` | scripts/benchmark_pilot/runner.py:114-150 | the tool messages answer a first part of a batch, call by call and in order, and all of it if the cell goes on |
| `PilotCell.SpentCellNeverCompletes` | scripts/benchmark_pilot/runner.py:116-140 | once all calls are used no later round can complete the cell |
| `PilotCell.ReserveSurvivesIff` | scripts/benchmark_pilot/runner.py:82-140 | the call kept for `submit_answer` survives a batch of tool calls and rejected submissions exactly when the batch leaves it |
| `PilotCell.BatchMeans` | scripts/benchmark_pilot/runner.py:114-150 | which calls of a batch run: on a closing turn the submission that ends it, else the first calls up to the budget or the first one that ends the cell; and the status that one gives |
| `PilotCell.CellTurn` | scripts/benchmark_pilot/runner.py:81-152 | every turn of a cell is closing, executes its calls and ends or goes on exactly as its reply, the rounds and the calls used before it say |
| `PilotCell.EndsIff` | scripts/benchmark_pilot/runner.py:97-152 | a cell is completed if and only if an accepted submission was executed in its last turn, or for other cells the prose answer was confirmed; and what exactly leaves it invalid, unfinished by the provider, or open |
| `PilotCell.AnswerCalls` | scripts/benchmark_pilot/runner.py:114-150 | the loop over a batch carries out the answers that `PilotCell.BatchMeans` tells |
| `PilotCell.RunCell` | scripts/benchmark_pilot/runner.py:81-152 | the loop over turns carries out the cell that `PilotCell.CellTurn` and `PilotCell.EndsIff` tell |
| `EvaluationGate.CoverageIsPermutation` | scripts/benchmark_contract/evaluation.py:154-170 | coverage passes exactly when the reported ids are a permutation of the suite's |
| `EvaluationGate.NormalMeans` | scripts/benchmark_contract/evaluation.py:41-58 | opaque job ids are mapped back to the suite's ids, every other id stands for itself |
| `EvaluationGate.NoNativeFailuresIff` | scripts/benchmark_contract/evaluation.py:80-123 | there is no native failure exactly when every scheduled job reported its operations and every mutating one a ranked readback |
| `EvaluationGate.NativeFailuresMean` | scripts/benchmark_contract/evaluation.py:80-123 | each kind of native failure is reported for exactly the scheduled jobs that give cause for it |
| `EvaluationGate.RowsMean` | scripts/benchmark_contract/evaluation.py:53-152 | the rows are the classifications of the scheduled jobs, in order if all are scheduled |
| `EvaluationGate.AllCompletedIff` | scripts/benchmark_contract/evaluation.py:171-173 | all rows are completed exactly when every scheduled job is |
| `EvaluationGate.CollectRows` | scripts/benchmark_contract/evaluation.py:51-152 | ids are normalised, scheduled jobs become rows, missing native readbacks become failures |
| `EvaluationGate.Count` | scripts/benchmark_contract/evaluation.py:171-173 | completed, failed and not-applicable rows partition the rows |
| `EvaluationGate.EvaluatePhase` | scripts/benchmark_contract/evaluation.py:46-267 | what a phase reports, and every contract failure it causes; a given status is its classification, a phase without one counts as the unit, and an absent phase has no rows and no coverage |
| `EvaluationGate.EvaluateUnit` | scripts/benchmark_contract/evaluation.py:20-288 | which units are out of contract; which failures a completed unit has, told from the status and jobs of its phases; that any of them withdraws all metrics; and that metrics are published exactly for an eligible completed unit whose both phases completed, cover the suite, have only completed jobs and are natively clean |
| `RankMetrics.DcgIsAtMostItsHits` | scripts/benchmark_contract/metrics.py:25-30 | hits are worth no more than as many first positions, and as much only if they are those |
| `RankMetrics.NdcgBound` | scripts/benchmark_contract/metrics.py:22-31 | with distinct results nDCG is in [0, 1], and 1 exactly when the first min(5, relevant) results are relevant |
| `RankMetrics.DcgOfOne` | scripts/benchmark_contract/metrics.py:25-30 | a relevant result is worth the discount of its position |
| `RankMetrics.DcgAdds` | scripts/benchmark_contract/metrics.py:25-30 | gains of different relevant ids add up |
| `RankMetrics.RecallIsShare` | scripts/benchmark_contract/evaluation.py:135-137 | with distinct results recall is the share of the relevant ids that were retrieved |
| `RankMetrics.RecallBoundedIff` | scripts/benchmark_contract/evaluation.py:135-137 | recall is in [0, 1] for every judgement exactly when no result occurs twice |
| `RankMetrics.NdcgBoundedIff` | scripts/benchmark_contract/metrics.py:22-31 | nDCG@5 is in [0, 1] for every judgement exactly when no result occurs twice |
| `RankMetrics.DistinctIff` | scripts/benchmark_contract/evaluation.py:62-74 | mapping after removing duplicates keeps results distinct exactly when no original is named both ways |
| `RankMetrics.ScoresBoundedIff` | scripts/benchmark_contract/evaluation.py:62-92 | recall and nDCG are each in [0, 1] for every judgement exactly when no original is named both ways |
| `RankMetrics.OneNamespaceIsBounded` | scripts/benchmark_contract/evaluation.py:62-92 | results from one namespace score within [0, 1] |
| `RankMetrics.BothWaysCountsTwice` | scripts/benchmark_contract/evaluation.py:67-74 | an original named both ways gives a recall of 2 |
| `RankMetrics.DedupeIds` | scripts/benchmark_contract/metrics.py:14-19 | the loop keeps first occurrences |
| `RankMetrics.MeanWithin` | scripts/benchmark_contract/metrics.py:34-36 | a mean exists exactly when something was measured, and stays within the bounds of what was |
| `PilotReport.Recount` | scripts/benchmark_pilot/verify_export.py:26-31 | the verifier's recount of paid and exposure is the gateway's totals |
| `PilotReport.DeltaAndInterval` | scripts/benchmark_pilot/report.py:28-61 | a cell's paid delta differs from its interval's sum by earlier rows settled meanwhile less own rows settled later |
| `PilotReport.DeltaIsIntervalIff` | scripts/benchmark_pilot/verify_export.py:48-50 | with its own requests settled, the delta is the interval's sum exactly when no outside row settled during the cell |
| `PilotReport.CellDeltaIff` | scripts/benchmark_pilot/report.py:28-61 | the same for the ledger files of any gateway run, before and after a cell and at any later time |
| `PilotReport.SpansAreWeighted` | scripts/benchmark_pilot/verify_export.py:83-86 | intervals together pay for each request as often as they hold it |
| `PilotReport.PartitionAccounts` | scripts/benchmark_pilot/verify_export.py:83-86 | intervals that hold every request once account for everything paid |
| `PilotReport.GroupFormal` | scripts/benchmark_pilot/report.py:64-67 | formal cells are grouped by task and repetition in one pass |
| `PilotReport.MatchedMeans` | scripts/benchmark_pilot/report.py:64-77 | matched are exactly the reviewed formal cells of a condition whose task and repetition have one formal cell for each condition, no other, and none that failed in transport or harness |
| `PilotReport.ReportMatched` | scripts/benchmark_pilot/report.py:68-77 | the report's matched cells are the reviewed ones of comparable groups |
| `PilotReport.VerifierMatched` | scripts/benchmark_pilot/verify_export.py:62-69 | the quadratic scan finds the cells of comparable groups |
| `PilotReport.ReportAgreesIff` | scripts/benchmark_pilot/report.py:68-77 | report and verifier pick the same cells exactly when every comparable cell is reviewed |
| `PilotReport.MatchedIsPaired` | scripts/benchmark_pilot/report.py:68-77 | every condition has the same matched tasks and repetitions, each once |

## Left out

- PilotReport.ReportAgreesIff: is about the cells that are matched; the sums, medians and rates taken over them are the same expressions on both sides and are not modelled.
- EvaluationGate.EvaluateUnit: says when metrics are published, not what they are; rows keep their order, while the original sorts them by job id.
- SourceTools.SourceTools.Call: does not model `seen_candidates`, the receipts of original reads, or a native value that is not an object.
- HostTranscript.AlreadyReadWasDelivered: assumes of raw results that an object has one field per key and names an original, or anything spelled like a handle, only together with its body; verdicts of the citation checker are not counted as deliveries.
- EvidenceHandles.ProjectThenRestore: assumes that a raw result does not name a handle of the table where a reference is expected; `EvidenceHandles.ForgedHandlePasses` shows why.
- HostRead.ReadWithinCapIff: takes from the native service that a reply is within the limit it was asked for; the loop that cuts it there is not modelled.
- HostRead.NamedReply: a reply without a pack, or with a source that is not an object with a document id, is refused with one message; the original words some of these differently and raises on others.
- HostRecall.NativeRecallWithinCap: is about source ids of at most fifty bytes and handles of at most ten, which covers a billion originals; what the service stores and reads (sixty-four facts, four pointers, the sizes of references and entity ids) is taken from its code.
- ExcerptRead.ReadExcerpt: takes the two native reads as functions of the requested limit; which fields are copied from a native response is not modelled.
- PackRepair.Repair: shapes for which the original raises (a pack, source or note that is not an object, a text that is no string) are left unchanged instead.
- EvidenceHandles.Project: entries of a reference list that are not strings are left as they are; the original would fail on one that cannot be a key of a set.
- SourceMutation.MaterializeSources: takes SHA-256 to be injective.
- AgentRun.Run: the text of prompts, the parsing of a final answer and its grounding are a given verdict per turn; tool arguments are opaque text.
- Ingest.AtMostOnce: is about extraction windows; the document upload before them is saved only after the call and may be repeated after a crash.
- Ledger rows are settled with whatever the provider answered; a failing `print` inside `finish`, after which a row would be settled a second time, is not modelled.
- I/O errors, partial writes and the lock file: a saved file is replaced atomically and at most one gateway process is alive.
- HTTP, streaming replies, authentication, redaction, sockets and Docker.
- The Rust service, PostgreSQL and Qdrant: calls to them are arbitrary parameters.
- Model answers, prompts, semantic review, regular-expression matching and date canonicalisation: a matcher is an arbitrary predicate.
- Floating-point rounding, `_rounded`, confidence intervals, medians and percentiles.
- `source_trace_rate`: more evidence than returned rows can be mapped, so no bound holds.
- `memory_use`, `parse_claim_answer`, `compact_check` and the tool schemas, which would add only easy members.
- The other product adapters (mem0, honcho, gbrain, hindsight, ragflow, pageindex, memos, lightrag, graphrag, graphiti) and report prose.
