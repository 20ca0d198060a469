# The delivery protocols of telegram_presence, in Dafny

`telegram_presence` decides when an agent speaks in Telegram groups. Whether it speaks well is up to
a language model. Whether a message is lost, answered twice or never answered is up to four stateful
protocols underneath, and to a text splitter. This project models those and proves what they guarantee,
with everything outside them (the decider, the composer, the transports, clocks, crashes) left free.

| part | files | main results |
|---|---|---|
| Engage loop (`engage.py`) | `Candidates`, `GreedyCut`, `Coalesce`, `Schedule`, `Plans`, `Intents`, `Ceilings`, `TopicCursor`, `CarryOut`, `Deliveries`, `ChatPass`, `Assessed`, `Answers`, `Quarantine`, `Ledger`, `LedgerMerge`, `Progress`, `LaneRuns`, `LaneWaits`, `LaneTurns`, `EngageRuns`, `EngageStore` | no message is consumed without having been assessed or given up, over all runs; settled means carried out; cursors follow everything that is through, and a plan is put off for named reasons only; quarantine makes progress; waiting is bounded; daily budgets balance |
| Durable outbox (`outbox.py`, `delivery.py`) | `Delivery`, `DeliveryRules`, `Outbox`, `Dispatch`, `OutboxTries`, `OutboxRuns`, `OutboxBounds`, `OutboxClock`, `OutboxStore` | lease fencing and sound acknowledgement in every interleaving; mutual exclusion by timeout; claims are bounded from above and below; dispatch refines sorting |
| Inbox spool (`inbox.py`, `transports/bot_api.py`) | `Utf8`, `Spool`, `SpoolRuns`, `Inbox`, `BatchOrder`, `Paging`, `InboxStore` | crash consistency at any byte of an append; numbers rise over the whole life of the spool; persist before acknowledge over all runs, and for exactly which batches; paged reading refines one filter |
| Group outbox (`group_delivery.py`) | `GroupActions`, `GroupRuns`, `GroupTries`, `GroupStore` | one live intent per natural key from any legacy table on; an acknowledged row is final exactly when no delivery of it is under way, hence always under the lease assumption |
| Chunker (`content.py`) | `Tokens`, `Chunks` | nothing is lost, words and sentences that fit stay whole, the number of chunks is bounded |

Each part has the same shape. Value modules define the operations as functions on the state (`Ingested`,
`ClaimDueIn`, `EnqueueIn`, `DrainAll`, `TakeTurn`, ...), run modules turn the operations of all processes
into a transition relation `Next` and prove invariants over every run, and store modules (`EngageStore`,
`OutboxStore`, `InboxStore`, `GroupStore`) hold the mutable classes, whose methods and loops are proved
equal to those functions, so that the run theorems are about what the methods do.
`Prelude`, `Sorting`, `Tables`, `Text` and `Peers` are shared.

Safety alone would be met by a loop that does nothing. So each part also says that work is done: lemmas named
`...Exactly` or `...ExactlyWhen` state in numbers, and in both directions, what an operation does and when,
without the function that computes it, and `Progress`, `Deliveries`, `LaneTurns`, `OutboxTries`, `GroupTries` and
the poll lemmas of `Inbox` lift that to passes, tries and runs.

Where the assumptions are:

- A locked block or a database transaction is one atomic step. Processes may crash between steps, and
  inside an append of the spool between any two writes or after any byte of the line.
- The decider returns `Undecodable` or any list of plans, the composer any text or nothing, the senders any
  answer, clocks any reading. Identifiers derived by hashing are arbitrary functions and may collide.
- `Spool.CodecOk` is the one assumption about JSON text: a row's text reads back, is UTF-8 without a line
  break, and no proper prefix of it is complete (section 4 of RFC 8259). `Spool.UnaryCodecOk` shows that the
  assumption can be met. Which bytes are UTF-8 is defined in `Utf8` (section 4 of RFC 3629).
- `Ledger.TurnOk`: a pass that an exception breaks off has moved no cursor, has spent no more than its caps allowed
  and made no more decider calls than the purse held. A pass that ends needs no such assumption.
- `EngageRuns.SpoolOk` and `EngageRuns.FetchedAll`: rows are spooled in the order of their time and message
  id, and a fetch returns every row of the chat in the range it covers, which ends at or below the largest
  number given out. A read that finds the spool torn covers nothing.
- `EngageRuns.Surprises`: the spool does not start numbering over below a cursor. `SpoolRuns.NumbersRise` says
  when it does not, and `EngageRuns.StartOverLosesMessages` what happens when it does.
- `OutboxClock.Prompt` and `GroupRuns.Timely` state the timing assumptions of the two exclusion theorems.
  `OutboxBounds.CrashSendsTwice` and `GroupRuns.LateFailureUndoesAck` show what happens without them.

Obvious statements that the code does not satisfy, with what holds instead:

- Coalescing compares targets only with the previous message, so a burst can mix targets:
  `Coalescing.MixedTargetsWitness`; `TargetsMeetOnlyThroughUntargeted` says exactly when.
- A delegate plan beyond the ceiling whose draft is longer than a reply may be vanishes:
  `Ceilings.LongDraftVanishes`; `SpeakingPlanFate` says exactly when a plan vanishes.
- Failures of a topic do not simply add up to three. A valid answer starts the record over, so a pass with one
  leaves at most one failure for a later bad answer and one for undelivered replies (`LaneRuns.ValidAnswerCounts`),
  and delivery failures alone never quarantine (`LaneRuns.DeliveryFailuresNeverQuarantine`). They do shorten the
  way: with k failures noted, exactly Max(1, 3 - k) bad answers quarantine (`LaneRuns.QuarantineProgress`).
- Waiting is bounded at the head of a topic only (`LaneWaits.WaitIsBounded`). A batch behind another one that stays
  unsettled can be held forever (`LaneWaits.WaitBehindNeverExpires`); `HeldExactlyWhen` says exactly when one is held.
- A settled batch does not mean that every demand was carried out: `Answers.UnsendableMeans` lists what the pass
  has no use for.
- Recovery in the group outbox does not look at `attempts`, and `deliver` does not exclude superseded rows:
  `GroupRuns.RecoveryExceedsLimit`; `AttemptsStayWithinExactlyWhen` says exactly when the limit holds.
- The end of a delivery does not look at the status of its row, so an acknowledgement can be undone:
  `GroupRuns.LateFailureUndoesAck`; `AckedFallsExactlyWhenHeld` says exactly when.
- A batch of updates out of order can lose a message on a storage failure: `Inbox.UnsortedBatchLosesAMessage`;
  `BatchOrder.SafeOrderIsSafe` and `UnsafeOrderLoses` say for exactly which batches.
- Spool numbers start over when the counter is lost while the spool is empty:
  `Spool.NumbersStartOverExactlyWhen`, `SpoolRuns.StartingOverRepeats`.
- A crash in the middle of a character hides every row from readers until the next append:
  `Spool.CutCharacterHidesRows`; `ReadBack` says exactly what a reader sees.

Run `dafny verify dfyconfig.toml` to check everything.

## Model

| member | source | states |
|---|---|---|
| Coalescing.Coalesce | telegram_presence/engage.py:285-385 | the loop with its open group produces one candidate for each burst of the recursive definition, in order |
| Candidates.FromRowsMember | telegram_presence/engage.py:256-279 | the candidates of a packet are exactly the messages of its rows that are not filtered |
| Candidates.FilteredExactly | telegram_presence/engage.py:69-70 | filtered are the agent's own messages and those whose first character besides white space is a slash, and no others |
| Candidates.KindsInOrder | telegram_presence/engage.py:280-280 | a reply to the agent counts more than a mention, a mention more than the bare name |
| Coalescing.BurstsPartition | telegram_presence/engage.py:297-385 | bursts cut the time-ordered candidates into contiguous, maximal runs: nothing lost, repeated or reordered |
| Coalescing.MergeKeepsLane | telegram_presence/engage.py:301-346 | a merged candidate has the topic and sender of all its members and their largest spool number; own messages are never merged |
| Coalescing.MergeAnchors | telegram_presence/engage.py:301-346 | it answers the first of the most strongly addressed members, else the last one, and is addressed iff a member is |
| Coalescing.MergeSaysAll | telegram_presence/engage.py:301-346 | the snippet of a merged candidate contains the snippet of each member that says something, in their order, without overlap |
| Coalescing.MergeCarries | telegram_presence/engage.py:301-346 | a merged candidate is cut off, is aimed at others or names a handle iff one of its members is or does |
| Coalescing.MergeCounts | telegram_presence/engage.py:301-346 | its length is the sum of what its members count for, a cut-off one with its full length |
| Coalescing.HandlesInOrder | telegram_presence/engage.py:301-346 | its handles are listed in the order in which the burst names them |
| Coalescing.BurstsInTime | telegram_presence/engage.py:297-385 | the messages of the bursts, one after the other, are in the order of time, then of id |
| Coalescing.BurstsEndExactly | telegram_presence/engage.py:349-385 | two neighbours are in one burst iff chat, topic, sender and target agree, neither is the agent's own, at most three minutes lie between them and the burst has room |
| Coalescing.TargetsExactly | telegram_presence/engage.py:349-365 | whom a message is aimed at, by what it replies to and whom it names |
| Coalescing.TargetsMeetOnlyThroughUntargeted | telegram_presence/engage.py:349-379 | a burst keeps one target unless an untargeted message in its middle lets two different ones meet (iff) |
| Coalescing.MixedTargetsWitness | telegram_presence/engage.py:366-379 | such a mixed burst exists: self, nobody, @bob |
| Scheduling.BuildWork | telegram_presence/engage.py:1850-1871 | the nested loops build the round-robin work list |
| Scheduling.LanesAreOk | telegram_presence/engage.py:1789-1805 | lanes hold exactly the candidates, one lane a topic, each sorted by spool number, addressed and older lanes first |
| Scheduling.LanesInOrder | telegram_presence/engage.py:1789-1805 | each lane begins with its oldest message; a lane with a mention or a reply to the agent comes before one without, and among equals the one whose oldest message is older |
| Scheduling.LaneGoesByNumber | telegram_presence/engage.py:1789-1805 | inside a lane messages go by their numbers, then by time and id |
| Scheduling.LaneBatchAt | telegram_presence/engage.py:1864-1871 | batch i of a lane is its i-th slice of eight |
| Scheduling.LaneBatchesCover | telegram_presence/engage.py:1850-1871 | cutting a lane into batches of one to eight loses, repeats and reorders nothing, in ceil(n/8) batches |
| Scheduling.WorkIsRoundRobin | telegram_presence/engage.py:1862-1871 | batch k of any topic comes before batch k+1 of every topic; each batch is a non-empty slice of at most eight of its lane |
| Scheduling.WorkOfTopic | telegram_presence/engage.py:1862-1871 | the batches of a topic occur in their own order, each once |
| Scheduling.WorkPartitionsCandidates | telegram_presence/engage.py:1789-1871 | the batches of a topic hold exactly the topic's candidates, in spool order |
| TopicLanes.CallsBounded | telegram_presence/engage.py:1872-1896 | at most four decider calls a chat, each paid from the cycle's purse, one per evaluated batch |
| Assessed.ValidIsFlawless | telegram_presence/engage.py:696-781 | an answer is accepted iff it is a list in which every required message is named exactly once, no other is named, and every item has what its action needs |
| Assessed.ValidExactlyWhen | telegram_presence/engage.py:1979-2021 | in any pass, an evaluated batch is `Valid` iff the decider's answer for it is flawless, else it is a strike; if valid, each message of others in it got exactly one well-formed item |
| Assessed.JudgedIsWeighed | telegram_presence/engage.py:1979-2021 | whatever a pass counts as judged was in a quarantined batch or assessed by exactly one well-formed item |
| Intents.DemandedExactly | telegram_presence/engage.py:792-818 | a message is confirmed demand iff it mentions or answers the agent and the decider reads it as aimed at the agent |
| Intents.AnswerYieldsExactly | telegram_presence/engage.py:855-967 | which plans a valid answer contributes (iff): each item's own plan, deep replies as delegates, and the note it asks for on the side, unless paused, waiting or done before |
| Intents.AnswerYieldsInOrder | telegram_presence/engage.py:2022-2090 | the five policies in a row, each over the whole list, come to one walk over the answer: item by item, its own plan, then its note |
| LaneTurns.PlansInOrder | telegram_presence/engage.py:2078-2090 | the list of a pass is what its batches put on it, one batch after the other |
| LaneTurns.GatheredExactly | telegram_presence/engage.py:2022-2069 | a message is held, or demanded, by a pass iff it is by the verdict on one of its batches |
| LaneTurns.VerdictExactly | telegram_presence/engage.py:1872-1896 | which of blocked, backing off, out of calls or evaluated a batch's turn comes to, and when it stops its topic |
| LaneTurns.AskedExactlyWhen | telegram_presence/engage.py:1872-1896 | over a whole pass, the decider is asked about a batch iff no earlier batch closed its topic, its lane is not waiting (which only a head batch can find), and fewer than four calls, and fewer than the purse holds, went to earlier batches |
| LaneTurns.QuietPassFinishes | telegram_presence/engage.py:2384-2426 | if calls suffice, no lane waits and every batch gets a flawless answer that wants nothing, then every batch is through and no topic stays pending |
| LaneTurns.QuietPassFollows | telegram_presence/engage.py:2463-2469 | and the chat cursor then reaches the end of the packet |
| TopicLanes.EvalAllInv | telegram_presence/engage.py:1872-2090 | the evaluated batches of a topic are a prefix of its batches, nothing follows a bad one, and a topic is blocked only by one of its own batches |
| TopicLanes.EvalKeepsCursors | telegram_presence/engage.py:1872-2090 | evaluating batches moves no cursor; new lanes start at the chat cursor |
| TopicLanes.DrainPassesOnlySettled | telegram_presence/engage.py:2397-2426 | a topic cursor only passes candidates of settled batches: whatever it comes to stand at or past was there before or is in one |
| TopicLanes.DrainMovesForward | telegram_presence/engage.py:1609-1624 | the cursor loop never moves a cursor back and leaves lanes without a batch alone |
| TopicLanes.DrainCursorSource | telegram_presence/engage.py:1609-1624 | a moved cursor stands on the last candidate of one of the topic's batches |
| Progress.DrainProgress | telegram_presence/engage.py:2397-2426 | after the cursor loop a topic is pending iff one of its batches is not settled, and its cursor is the larger of its old value and the last number of the longest settled beginning of its batches |
| Progress.PassMoves | telegram_presence/engage.py:2384-2426 | the same for every topic of a whole pass, with settled spelled out: answered or given up, and nothing of it put off or failed |
| Progress.PendingExactlyWhen | telegram_presence/engage.py:2397-2426 | a pass leaves something pending iff some batch is not through |
| Progress.PutOffOnlyFor | telegram_presence/engage.py:2092-2384 | a message is put off only because it was told to wait, a ceiling is used up, there is neither a composed answer nor a draft, its scene changed or cannot be seen, or a daily counter, a missing owner or the sender's answer held it up |
| Progress.TurnMoves | telegram_presence/engage.py:1437-1493 | after a turn the chat cursor is the larger of its old value and the packet's last number if every batch is through, and unchanged otherwise; the retry record is cleared |
| Progress.BreakWaits | telegram_presence/engage.py:1437-1476 | a chat whose pass broke off waits 15, 30, 60, 120, 240, then 300 seconds and keeps its cursor |
| Progress.OtherTurns | telegram_presence/engage.py:1437-1476 | a waiting chat is left alone; an idle one stops waiting |
| Progress.NewChat | telegram_presence/engage.py:1437-1442 | a chat met for the first time has sent and read nothing and waits for nothing |
| Ceilings.ValidateActions | telegram_presence/engage.py:970-1048 | the pass with running counters computes the recursive admission |
| Ceilings.CeilingsHold | telegram_presence/engage.py:970-1048 | for any plan list: at most three addressed replies, one other reply, two delegates, two memory actions |
| Ceilings.SpeakingPlanFate | telegram_presence/engage.py:985-1048 | a speaking plan of an unpaused chat is output or deferred, or its content was unusable, which alone makes it vanish |
| Ceilings.CeilingsConserveWork | telegram_presence/engage.py:970-1048 | over the whole list, each speaking plan is in the output, deferred, or was unusable |
| Ceilings.LongDraftVanishes | telegram_presence/engage.py:1036-1045 | the third of any three delegate plans with a draft over 600 characters is neither output nor deferred |
| Deliveries.CountsAreSizes | telegram_presence/engage.py:970-1048 | the running counters are the numbers of replies, notes and delegates already let through |
| Deliveries.AdmittedExactly | telegram_presence/engage.py:985-1048 | what the ceilings do with a plan, action by action: admitted, put off or dropped, and on which number that depends |
| Deliveries.CeilingsAreUsed | telegram_presence/engage.py:970-1048 | over any plan list, each message put off has a plan whose ceiling is in fact used up by what was let through |
| CarryOut.ResolveDelegates | telegram_presence/engage.py:1081-1140 | the composer loop computes the recursive resolution |
| CarryOut.ResolutionConservesWork | telegram_presence/engage.py:1081-1140 | whatever the composer does, each speaking plan is resolved to its terminal action, deferred, or was done before |
| CarryOut.ResolutionLeavesNoDelegate | telegram_presence/engage.py:1081-1140 | no delegate plan is left over, and no plan or deferral is invented |
| Deliveries.ResolvedExactly | telegram_presence/engage.py:1081-1140 | a delegate plan becomes the composed reply, else its draft, else it is put off |
| Deliveries.ComposerIsNeeded | telegram_presence/engage.py:1081-1140 | over any list, each message the composer puts off had neither an answer nor a draft |
| CarryOut.SceneConservesWork | telegram_presence/engage.py:2111-2185 | a plan dropped because the scene changed, or could not be checked, is deferred |
| Deliveries.SceneExactly | telegram_presence/engage.py:2111-2185 | a plan is held back iff the refetch failed or its topic has newer messages |
| CarryOut.ApplyConservesWork | telegram_presence/engage.py:2188-2384 | applying plans closes each speaking one: done, deferred, failed, dead-lettered or without content |
| CarryOut.ApplySpends | telegram_presence/engage.py:2194-2235 | global and chat counters grow by the same amounts and only below the caps in force |
| CarryOut.DoneStaysQuiet | telegram_presence/engage.py:2194-2262 | an action already completed is never carried out again |
| Deliveries.CapsExactly | telegram_presence/engage.py:2472-2517 | the caps of a day, and how an operator's override is cut to its range |
| Deliveries.ReplyExactly | telegram_presence/engage.py:2194-2258 | a reply not sent before is put off iff one of its two counters is at its cap; else, delivered, it is completed and raises exactly those two by one, refused or raised it fails, dead-lettered it is buried |
| Deliveries.ReactionExactly | telegram_presence/engage.py:2259-2293 | the same for a reaction and the cap of three |
| Deliveries.NoticeExactly | telegram_presence/engage.py:2334-2384 | a notice is put off iff there is no owner |
| Deliveries.NoteExactly | telegram_presence/engage.py:2294-2333 | a note is taken, dropped or put off, by the roster's answer |
| Deliveries.AppliedInOrder | telegram_presence/engage.py:2188-2384 | plans are applied one after the other, each on what those before it left, with its own sender answer |
| Deliveries.NothingToDo | telegram_presence/engage.py:2194-2262 | what was done before, and what is no action, changes nothing |
| Deliveries.AppliedUnlessHeldUp | telegram_presence/engage.py:2188-2384 | over any plan list, a message is newly deferred or failed only if a plan of it met a full counter, a missing owner or a bad answer of its sender |
| Quarantine.StrikeOut | telegram_presence/engage.py:1634-1650 | one bad answer, from any record: with two or more failures noted the cursor passes the head batch and the record is clean, else it counts and backs off 15 or 30 seconds |
| Quarantine.BadHeadCostsOneStrike | telegram_presence/engage.py:1979-2021 | a pass that answers a topic's head batch badly changes that lane by exactly one strike |
| Quarantine.SilentTopicStaysQuiet | telegram_presence/engage.py:2066-2090 | with distinct message ids, which the spool guarantees (`Spool.AppendIsOk`), a pass defers and delivers nothing of a topic without a valid answer, whatever the other topics do |
| Quarantine.BadTopicStaysQuiet | telegram_presence/engage.py:1979-2021 | in particular nothing touches the lane of a badly answered topic but its strike |
| ChatPass.WorkCovers | telegram_presence/engage.py:1787-1871 | a candidate is fetched iff it is in a batch, and then only in batches of its own topic |
| ChatPass.ByIdExactly | telegram_presence/engage.py:1787-1805 | looking up a message id finds the last message with it, if there is one |
| ChatPass.EvaluationKeeps | telegram_presence/engage.py:1872-2090 | the prefix and blocking rules and the call bounds hold for the evaluation of every pass |
| ChatPass.PassConsumesOnlyJudged | telegram_presence/engage.py:2384-2426 | if a topic cursor ends at or past a fetched message, it did before or the message was in a settled batch; so for all messages if nothing is pending |
| Answers.ActFinishesDemands | telegram_presence/engage.py:2092-2384 | the action half finishes each demand, defers it, or had no use for its content at the place it stood in |
| Answers.UnsendableMeans | telegram_presence/engage.py:985-1048 | what that can be: a reply no message can carry, a reaction not on offer (which no valid answer holds), or a delegate plan whose draft is over 600 characters while both delegate slots are taken |
| Answers.SettledAnswersAreFinished | telegram_presence/engage.py:2066-2426 | when a validly answered batch counts as settled, each reply, delegate, reaction and notice asked for was carried out, dead-lettered, paused by the operator, or unsendable in the sense of `UnsendableMeans` |
| Ledger.NormalizeKeepsBalance | telegram_presence/engage.py:1147-1212 | merging alias spellings of chats neither mints nor loses a counted reply |
| Ledger.RollBalances | telegram_presence/engage.py:1351-1386 | a day roll starts balanced from any ledger and keeps every cursor and lane |
| LedgerMerge.MergeGathers | telegram_presence/engage.py:1147-1212 | the merged entry of a chat has the furthest cursor, the latest deadline and the most failures among all its spellings, and exists iff one of them does |
| LedgerMerge.LanesGather | telegram_presence/engage.py:1147-1212 | so does each of its topic lanes |
| LedgerMerge.MergeAdds | telegram_presence/engage.py:1147-1212 | its counted replies are the sum over its spellings |
| LedgerMerge.MergeKeepsFirst | telegram_presence/engage.py:1147-1212 | its day, and what a lane waits for, are those of the first spelling that has one |
| LedgerMerge.RollExactly | telegram_presence/engage.py:1351-1386 | which chats survive a day roll (iff), and what is left of each; on the same day nothing changes |
| Ledger.TurnKeepsBooks | telegram_presence/engage.py:1437-1493 | a chat's turn, finished or broken off, keeps counters balanced and caps held; what is left in the purse and the decider calls it made add up to what it found there, and a finished pass makes at most four |
| LaneRuns.UnheardKeepsLane | telegram_presence/engage.py:1872-1896 | a pass that does not evaluate a topic leaves its lane as it is |
| LaneRuns.StrikeMovesLane | telegram_presence/engage.py:1979-2021 | a pass with a bad and no valid answer changes the lane by one strike for its head batch, all of which lay ahead; it is a quarantine iff one strike was left |
| LaneRuns.ValidAnswerCounts | telegram_presence/engage.py:2022-2426 | a pass with a valid answer leaves exactly one failure for a later bad answer plus one for undelivered replies, and quarantines nothing of the topic |
| LaneRuns.BadAnswersCount | telegram_presence/engage.py:1634-1650 | over any sequence of passes without a valid answer, until the topic is given up, the record is the starting one plus the bad answers and the cursor stays |
| LaneRuns.QuarantineProgress | telegram_presence/engage.py:1979-2021 | over any sequence of passes, with k failures noted at the start, exactly the Max(1, 3 - k)-th bad answer quarantines, and the cursor ends strictly past that pass's head batch with a clean record |
| LaneRuns.DeliveryFailuresNeverQuarantine | telegram_presence/engage.py:2022-2395 | over any sequence of passes without a bad answer, whatever is delivered, the record stays at one failure or less and the next bad answer is no quarantine |
| LaneWaits.HeldExactlyWhen | telegram_presence/engage.py:901-929 | a validly answered batch is held iff its answer asks to wait and the lane has not yet held a batch with this last message twice |
| LaneWaits.WaitIsBounded | telegram_presence/engage.py:2022-2069 | over any sequence of passes, whatever happens to other topics and whatever bad answers lie between, no three valid answers in a row for a topic hold a head batch that ends with the same message |
| LaneWaits.WaitBehindNeverExpires | telegram_presence/engage.py:2062-2069 | the bound needs the head: a batch behind another one of its topic is held whenever its valid answer asks to wait, however often it was held before |
| EngageRuns.StartIsSafe | telegram_presence/engage.py:1525-1553 | any ledger whose cursors lie among the numbers given out is a safe start over an orderly spool |
| EngageRuns.StepIsSafe | telegram_presence/engage.py:1437-1493 | arrivals, loads, turns and saves keep: no cursor is above the numbers given out, and nothing at or below a cursor is unaccounted for, unless numbering starts over below a cursor |
| EngageRuns.NoMessageLost | telegram_presence/engage.py:1477-1493 | over any run with crashes between saves in which numbering does not start over below a cursor, a spooled message at or below its chat's or topic's saved cursor was filtered, predates the start, or was assessed by exactly one well-formed item or given up in one of the turns, and numbers have not started over since |
| EngageRuns.JudgedWasWeighed | telegram_presence/engage.py:1979-2021 | what a run counts as judged was, in one of its turns, assessed by exactly one well-formed item or quarantined, and numbers have not started over since |
| EngageRuns.CycleIsSaved | telegram_presence/engage.py:1348-1493 | load, turn and save are possible one after the other, and what is saved is the merged and rolled ledger with the turn booked |
| EngageRuns.StartOverLosesMessages | telegram_presence/engage.py:1477-1493 | whenever numbering does start over, the next message of a chat or topic with a cursor arrives at or below it, unsettled, and is never fetched past a chat cursor |
| EngageRuns.BudgetConserved | telegram_presence/engage.py:1351-1386 | over any run from a balanced ledger, each global counter is the sum of the chats' and stays within its ceiling |
| EngageStore.LaneRun.OpenLanes | telegram_presence/engage.py:1572-1588 | every topic of the packet gets a lane that inherits the chat cursor |
| EngageStore.LaneRun.EvaluateBatches | telegram_presence/engage.py:1872-2090 | the batch loop over its mutable lanes, blocked set and counters computes `EvalAll`, the evaluation that `Assessed` and `LaneTurns` pin down |
| EngageStore.LaneRun.NoteFailures | telegram_presence/engage.py:2385-2395 | one failure is noted for every lane a delivery failed in |
| EngageStore.LaneRun.DrainCursors | telegram_presence/engage.py:2397-2426 | the cursor loop with its open flags computes `DrainAll` and the pending topics (see `Progress.DrainProgress`) |
| EngageStore.ActionRun.ApplyPlans | telegram_presence/engage.py:2188-2384 | the apply loop over its counters and sets computes `ApplyAll`, plan by plan as `Deliveries` says |
| EngageStore.ActOn | telegram_presence/engage.py:2092-2384 | ceilings, composer, scene check and delivery in this order make the pass's actions |
| EngageStore.RunChatPass | telegram_presence/engage.py:1653-2469 | the imperative pass leaves the lanes, counters, calls and pending topics of `RunPass` |
| EngageStore.EngageLedger.NormalizePerChat | telegram_presence/engage.py:1147-1212 | the alias loop over the ledger computes `Normalized` |
| EngageStore.EngageLedger.RollDay | telegram_presence/engage.py:1351-1386 | the day roll of the ledger object is `Rolled` |
| EngageStore.EngageLedger.Turn | telegram_presence/engage.py:1437-1493 | one chat's turn on the ledger object is `TakeTurn` |
| EngageStore.EngageLedger.RunCycle | telegram_presence/engage.py:1348-1493 | normalising, rolling and one turn a chat, all from one purse of eight calls |
| EngageStore.CycleKeepsBooks | telegram_presence/engage.py:1418-1493 | however its turns go, a cycle keeps counters balanced and within their ceilings, and the decider calls of all its turns and what is left in the purse add up to eight |
| Peers.CanonicalIdempotent | telegram_presence/inbox.py:135-143 | spelling a chat canonically twice changes nothing more |
| Peers.CanonicalExactly | telegram_presence/inbox.py:135-143 | which spellings of a chat fold together, and to what |
| Delivery.MadeIsOk | telegram_presence/delivery.py:70-136 | an envelope that can be built is normalised and fits its kind |
| DeliveryRules.MadeExactlyWhen | telegram_presence/delivery.py:70-136 | an envelope is built iff its names, its fields and its content are in order, each rule spelled out |
| DeliveryRules.MadeFrom | telegram_presence/delivery.py:70-136 | and says what it was given, up to white space around names and the case of transport and kind |
| DeliveryRules.StateRules | telegram_presence/delivery.py:221-274 | what each state of a record demands: lease, start, due time, acknowledgement and attempts |
| DeliveryRules.RecordMadeExactly | telegram_presence/delivery.py:221-274 | a record is built, as its fields say, iff they are in order, its times are, and its state allows them |
| Delivery.EnvelopeRoundTrip | telegram_presence/delivery.py:138-175 | writing a normalised envelope and reading it back is the identity |
| Delivery.LoadedIsOk | telegram_presence/delivery.py:221-274 | a record read from disk satisfies the per-state invariant, or reading fails |
| Delivery.RecordRoundTrip | telegram_presence/delivery.py:283-317 | persist-then-reload is the identity on valid records |
| Outbox.DelayBounds | telegram_presence/outbox.py:115-121 | retry delays never shrink with attempts and lie between base and ceiling |
| OutboxTries.DelayExactly | telegram_presence/outbox.py:115-121 | the first delay is the base and each further one twice the one before, up to the ceiling |
| Outbox.AcceptsExactly | telegram_presence/outbox.py:326-359 | which sender answers count as success: `True`, or a success receipt or mapping naming this transport and operation (iff) |
| Outbox.TransitionsFollow | telegram_presence/outbox.py:234-268 | claim, burial, settlement, recovery and requeue build valid records at any clock reading, and `updated_at` never goes back |
| Outbox.EnqueueBindsOneRequest | telegram_presence/outbox.py:186-218 | even with colliding ids, a key answers with its record iff the request is the same, else it is a conflict |
| OutboxTries.RequestExactly | telegram_presence/outbox.py:186-190 | two requests are the same iff they differ at most in their own id, their operation and their time |
| OutboxTries.QueuedExactly | telegram_presence/outbox.py:192-218 | a new record waits with no attempt made, due at once |
| OutboxTries.ClaimIdExactly | telegram_presence/outbox.py:312-324 | a claim by id leases the record iff it waits, has an attempt left and is due; the lease counts one attempt and starts now |
| OutboxTries.ClaimDueExactly | telegram_presence/outbox.py:281-301 | a claim of what is due leases a record iff one on the routes is ready, and one that has been due the longest |
| OutboxTries.OrdersExactly | telegram_presence/outbox.py:140-144 | records are listed by age and id, and tried by due time, then by age and id |
| OutboxTries.SettledExactly | telegram_presence/outbox.py:361-406 | a settle under the current lease: success is final under the reported id; else `attempts` stays, and it is a dead letter iff `attempts >= maxAttempts`, otherwise failed and due again after the delay of its attempts |
| OutboxTries.SettledInVain | telegram_presence/outbox.py:361-406 | under a stale lease nothing changes; a missing record is the only corruption |
| OutboxTries.RecoveredExactly | telegram_presence/outbox.py:472-503 | recovery ends exactly the leases a full timeout old (or all); below the limit the record is due at once, at it a dead letter |
| OutboxTries.SweptExactly | telegram_presence/outbox.py:250-279 | the attempt limit buries exactly the waiting routed records at or over it |
| OutboxTries.RequeuedExactly | telegram_presence/outbox.py:505-525 | a requeued dead letter starts over, due at once |
| OutboxTries.PurgedExactly | telegram_presence/outbox.py:527-538 | purging deletes exactly the acknowledged records before the deadline |
| OutboxTries.TryCounts | telegram_presence/outbox.py:408-421 | a try in vain, claimed by id or as due, was ready, uses one attempt, and buries the record iff that was the last |
| OutboxTries.TriedToTheEnd | telegram_presence/outbox.py:361-406 | a record whose sends all fail is tried exactly `maxAttempts - attempts` times: failed and waiting before, a dead letter after the last and not before |
| OutboxTries.AnotherTry | telegram_presence/outbox.py:281-324 | while it has attempts left, both ways of claiming lease it again once its delay is over |
| Dispatching.SoonerOrders | telegram_presence/outbox.py:286-296 | due order is a total order by due time, creation and id |
| Dispatching.DispatchIsSorted | telegram_presence/outbox.py:423-470 | with the clock standing still, a pass tries exactly the first `limit` due records of its transports, in order, each once, whatever the sender returns |
| Dispatching.PumpedOk | telegram_presence/outbox.py:423-470 | a dispatch pass keeps every record valid, at any clock readings and sender answers |
| Dispatching.OtherTransportsUntouched | telegram_presence/outbox.py:281-301 | claiming and sending never touch a record of another transport |
| OutboxRuns.SettleShape | telegram_presence/outbox.py:361-406 | a settle writes only over the very record it claimed, while that lease is current |
| OutboxRuns.StepKeepsInv | telegram_presence/outbox.py:192-538 | every step of every worker keeps all records valid and linked to their leases, sends and claim counts |
| OutboxRuns.StepMovesForward | telegram_presence/outbox.py:192-538 | no step moves a record's `updated_at` back or changes its identity, whatever the clock reads |
| OutboxRuns.AckIsSound | telegram_presence/outbox.py:326-406 | in every interleaving an ACKED record's last lease sent a message whose receipt was a success for this transport and operation, and has its message id |
| OutboxRuns.AckedIsFinal | telegram_presence/outbox.py:361-538 | an ACKED record changes only by being purged |
| OutboxRuns.AttemptsAreClaims | telegram_presence/outbox.py:234-248 | `attempts` is the number of claims since enqueue or the last requeue |
| OutboxTries.WorkerGetsWork | telegram_presence/outbox.py:281-301 | in a run, a worker that claims while some record on its routes is ready holds one that has been due the longest, and may send it |
| OutboxTries.RecoverStep | telegram_presence/outbox.py:472-503 | a recovery step of a run ends exactly the stale leases, or all |
| OutboxTries.EnforceStep | telegram_presence/outbox.py:270-279 | an attempt-limit step buries exactly the waiting records at or over the limit |
| OutboxTries.RequeueStep | telegram_presence/outbox.py:505-525 | a requeue step starts exactly the named dead letter over |
| OutboxTries.PurgeStep | telegram_presence/outbox.py:527-538 | a purge step deletes exactly the acknowledged records before the deadline |
| OutboxBounds.StepSpends | telegram_presence/outbox.py:234-301 | each claim uses up one unit of the remaining attempts and nothing else creates any |
| OutboxBounds.ClaimsAreBounded | telegram_presence/outbox.py:234-301 | without enqueues or requeues, a run claims at most the sum of the attempts left |
| OutboxBounds.LoweredLimitHolds | telegram_presence/outbox.py:250-301 | after a restart with a lower limit, a record at or over it is never claimed again |
| OutboxBounds.OneWorkerOneAcceptedSend | telegram_presence/outbox.py:472-503 | if sends settle within the timeout and recovery is not forced, no two workers hold a delivery and each has at most one accepted send until purged |
| OutboxClock.OneWorkerByTheClock | telegram_presence/outbox.py:472-503 | the same with the assumption stated on clock readings: no recovery reads the clock a full timeout after the claim of a send still under way |
| OutboxBounds.CrashSendsTwice | telegram_presence/outbox.py:3-5 | without the assumption a crash after acceptance leads to a second accepted send |
| OutboxStore.DurableOutbox.constructor | telegram_presence/outbox.py:47-93 | opening recovers stale leases and then applies the attempt limit |
| OutboxStore.DurableOutbox.Records | telegram_presence/outbox.py:140-144 | lists all records, each once, oldest first |
| OutboxStore.DurableOutbox.Enqueue | telegram_presence/outbox.py:192-218 | queues a new record, returns the existing one, or reports the conflict and changes nothing |
| OutboxStore.DurableOutbox.RecoverInflight | telegram_presence/outbox.py:472-503 | the loop turns exactly the stale (or all, if forced) sending records back and returns them |
| OutboxStore.DurableOutbox.EnforceAttemptLimits | telegram_presence/outbox.py:270-279 | the loop buries exactly the retryable records at or over the limit |
| OutboxStore.DurableOutbox.ClaimDueTransports | telegram_presence/outbox.py:281-301 | the loop buries what is exhausted and leases the soonest due record of the routed transports, if any |
| OutboxStore.DurableOutbox.ClaimId | telegram_presence/outbox.py:312-324 | leases one record by id if it is due, or buries it if it is exhausted |
| OutboxStore.DurableOutbox.Settle | telegram_presence/outbox.py:361-406 | writes the settlement if the lease is current (`OutboxTries.SettledExactly`), else returns what is there or reports corruption |
| OutboxStore.DurableOutbox.RequeueDeadLetter | telegram_presence/outbox.py:505-525 | starts a dead letter over; unknown ids and other states are errors that change nothing |
| OutboxStore.DurableOutbox.PurgeAcked | telegram_presence/outbox.py:527-538 | deletes exactly the ACKED records before the deadline and counts them |
| OutboxStore.DurableOutbox.DispatchOne | telegram_presence/outbox.py:408-421 | one delivery: recover, claim, send, settle, each with its own clock reading |
| OutboxStore.DurableOutbox.DispatchDue | telegram_presence/outbox.py:423-470 | the dispatch loop computes `Pumped`, about which the sorting theorem is proved |
| Spool.ReadBack | telegram_presence/inbox.py:386-439 | after a crash a reader of whole lines and a torn tail sees the rows, and the tail if it is complete, iff the tail ends where a character ends; otherwise it sees nothing |
| Utf8.CharactersAreAccepted | telegram_presence/inbox.py:386-439 | a strict reader accepts every character in its own bytes (section 3 of RFC 3629) |
| Utf8.OnlyCharactersAreAccepted | telegram_presence/inbox.py:386-439 | and nothing else: what it accepts are the bytes of a character |
| Spool.CutCharacterHidesRows | telegram_presence/inbox.py:386-439 | any row with a character beyond ASCII can be torn so that no row is visible |
| Spool.UnaryRowsAreHidden | telegram_presence/inbox.py:386-439 | that can happen: a text format with a two-byte character that meets `CodecOk`, in which every row can be torn so |
| Spool.RepairKeepsRows | telegram_presence/inbox.py:519-545 | repair leaves whole lines with exactly the rows that are complete in the file |
| Spool.RotationKeepsNewest | telegram_presence/inbox.py:598-639 | rotation keeps a contiguous newest run, at most 500 rows and as many as fit, and bounds the file whenever the new row fits |
| Spool.RotationKeepsLastRow | telegram_presence/inbox.py:598-639 | a spool whose newest row leaves room for the next is never emptied by rotation |
| Spool.RotationMakesRoom | telegram_presence/inbox.py:598-639 | rotation drops whole oldest rows only: none if all fit with the next line, else as few as leave at most 500 rows that fit with it |
| Spool.AppendIsOk | telegram_presence/inbox.py:641-671 | a finished append keeps distinct keys and rising numbers, and ends the spool with the new row iff its key was not there |
| Spool.AppendExactly | telegram_presence/inbox.py:641-671 | a new message gets one more than the counter, or than the largest number shown; it is the last row and the rows before it are those rotation keeps |
| Spool.CrashExactly | telegram_presence/inbox.py:641-671 | what each crash point leaves behind: the number, the rotation, and which part of the line |
| Spool.CrashIsOk | telegram_presence/inbox.py:641-671 | so does a crash after the number, after rotation, or after any byte of the line |
| Spool.ReplayLeavesOneRow | telegram_presence/inbox.py:641-671 | replaying the interrupted message, even with the counter lost, leaves exactly one row for it |
| Spool.LostSidecarIsOk | telegram_presence/inbox.py:562-596 | losing the counter file keeps the spool good |
| Spool.NumbersStartOverExactlyWhen | telegram_presence/inbox.py:562-596 | the next number is above everything ever shown unless the counter is lost while the spool shows no row (iff) |
| SpoolRuns.NumbersRise | telegram_presence/inbox.py:562-671 | over any sequence of appends, cut off at any byte or not, and lost counters, the rows ever shown have rising numbers and the next lies above them all, unless the counter is lost while the spool shows no row |
| SpoolRuns.WriteIsShown | telegram_presence/inbox.py:641-671 | a write that is not cut off and whose key is new shows its row under the next number |
| SpoolRuns.StartingOverRepeats | telegram_presence/inbox.py:562-596 | a step makes the next number fall to or below an earlier one iff it loses the counter while the spool shows no row after having shown some |
| Inbox.RememberOk | telegram_presence/inbox.py:452-458 | the cache stays bounded and free of repeats, contains the key just added, and gains nothing else |
| Inbox.RememberExactly | telegram_presence/inbox.py:452-458 | a new key goes last; only a full cache of 2048 forgets one, its oldest |
| Inbox.ChatKeyFolds | telegram_presence/inbox.py:131-133 | white space around a chat, `@` before it and capitals do not count in a key |
| Inbox.IngestIsSafe | telegram_presence/inbox.py:254-355 | whatever the append does: an acknowledged message is own or durable, and a key in the cache or on disk never gets a second row |
| Inbox.IngestExactly | telegram_presence/inbox.py:254-355 | own and remembered messages change nothing; of the others the key on disk decides between duplicate and new row, and either is remembered; a failed append is reported and not remembered |
| Inbox.ReloadIsSafe | telegram_presence/inbox.py:460-476 | a restart fills the cache only with keys that are on disk |
| Inbox.ReloadKnowsTheNewest | telegram_presence/inbox.py:460-476 | after a restart every message among the newest 2048 lines is in the cache |
| Inbox.PollIsSafe | telegram_presence/transports/bot_api.py:81-199 | inside a sorted batch, every update below the offset is handled and the offset stops at the first one not stored |
| Inbox.PollOneExactly | telegram_presence/transports/bot_api.py:98-199 | an update moves the offset past it iff its message was not refused by the storage, and counts iff it was written |
| Inbox.UnsortedBatchLosesAMessage | telegram_presence/transports/bot_api.py:98-199 | out of order, the offset can pass a message that is not durable: a two-update batch |
| BatchOrder.SafeOrderIsSafe | telegram_presence/transports/bot_api.py:98-199 | in a batch where nothing missing lies below the offset, and whatever follows an id at least its own was carried no later than that one, every update below the new offset is handled whichever append fails |
| BatchOrder.UnsafeOrderLoses | telegram_presence/transports/bot_api.py:98-199 | in any other batch some append failure leaves a message below the offset that is not durable |
| Inbox.NoUpdateIsLost | telegram_presence/transports/bot_api.py:81-199 | over any run of polls, failures, crashes and restarts that forget the offset, an update forgotten by the server or below the offset carried nothing to keep or is durable |
| Inbox.PollGoesThrough | telegram_presence/transports/bot_api.py:81-199 | while no append fails, a batch in any order is handled to its end and the offset passes all of it |
| Inbox.PollTakesTheOldest | telegram_presence/transports/bot_api.py:81-199 | a poll without failures handles and passes the oldest waiting updates, as many as it asks for |
| Inbox.PollsEmptyTheQueue | telegram_presence/transports/bot_api.py:81-199 | and the poll after it makes the server forget them |
| Paging.PageAdvances | telegram_presence/inbox.py:386-439 | moving the cursor to the last row of a page leaves exactly the rows after it |
| Paging.PagesAreOneFilter | telegram_presence/inbox.py:386-439 | pages of any size, with appends, torn tails and rotation of read rows between them, add up to one filter, once each and in order |
| Paging.ShortPageIsTheEnd | telegram_presence/inbox.py:386-439 | a short page from a file that can be decoded means that everything has been read |
| Paging.PendingIsPage | telegram_presence/inbox.py:386-439 | a page is exactly min(limit, n) of the n wanted rows, in file order; the rows left out lie after it when oldest first and before it otherwise |
| InboxStore.GroupInbox.constructor | telegram_presence/inbox.py:212-222 | a new process starts from the disk and the reloaded cache |
| InboxStore.GroupInbox.LoadSeen | telegram_presence/inbox.py:460-476 | the cache is loaded with the keys of the newest rows, or with none if the file cannot be decoded |
| InboxStore.GroupInbox.RememberSeen | telegram_presence/inbox.py:452-458 | set and bounded queue change together and stay equal |
| InboxStore.GroupInbox.RepairTornTail | telegram_presence/inbox.py:519-545 | repair on the file is `Repaired` |
| InboxStore.GroupInbox.ContainsKey | telegram_presence/inbox.py:547-560 | the scan finds a key iff a row in the file has it, and fails if the file cannot be decoded |
| InboxStore.GroupInbox.NextSeq | telegram_presence/inbox.py:562-596 | reserves one more than the counter, or than the largest number in the file without it |
| InboxStore.KeepNewest | telegram_presence/inbox.py:598-639 | walking back from the newest line keeps the longest suffix within bytes and rows |
| InboxStore.GroupInbox.Rotate | telegram_presence/inbox.py:598-639 | rotation on the file is `Rotated` |
| InboxStore.GroupInbox.Append | telegram_presence/inbox.py:641-671 | a completed append is `Appended`, one hit by an exception, its own failing scan included, is `CrashedIn` at that point and reports failure |
| InboxStore.GroupInbox.Pending | telegram_presence/inbox.py:386-439 | exactly min(max(0, limit), n) of the n visible rows past the number and of the chat, if one is named, in file order; the rows left out lie after the page when oldest first and before it otherwise; nothing if the file cannot be decoded |
| InboxStore.GroupInbox.Ingest | telegram_presence/inbox.py:254-355 | taking in one message: own, duplicate, written or storage failure, and the new cache and disk |
| InboxStore.BotApi.TakeUpdate | telegram_presence/transports/bot_api.py:100-199 | one update moves the offset past it unless its message could not be stored |
| InboxStore.BotApi.PollUpdates | telegram_presence/transports/bot_api.py:81-199 | the batch loop computes `Polled` and stops at the first storage failure |
| GroupActions.DeduplicationKeepsTheBest | telegram_presence/group_delivery.py:347-377 | one live row per natural key, the first by status rank, age and id, so an acked row wins; no row is deleted |
| GroupActions.OpeningMigrates | telegram_presence/group_delivery.py:261-378 | from any legacy table opening reaches unique natural keys and normal rows, and drops none |
| GroupActions.OpeningDeduplicates | telegram_presence/group_delivery.py:287-377 | with or without a rebuild of the index, opening is deduplication of the recovered, respelled and keyed rows |
| GroupActions.OpeningKeepsTheBest | telegram_presence/group_delivery.py:347-377 | in the opened table each natural key has one live row, the best by status rank, age and id, and an acked one if any row of the key was acked |
| GroupActions.SupersededExactlyWhen | telegram_presence/group_delivery.py:303-377 | opening supersedes a live row iff another live row with the same key on opening comes before it by status rank, age and id |
| GroupActions.PrecedesExactly | telegram_presence/group_delivery.py:354-372 | of two rows the one whose status stands first in acked, pending, retry, sending, anything else comes first, then the older, then the smaller id |
| GroupActions.OpenedExactly | telegram_presence/group_delivery.py:261-378 | what opening leaves of any row of any legacy table: the same message and attempts, chat respelled, missing intent and random id filled in, abandoned sends due at once |
| GroupActions.OpeningAgainOnlyRecovers | telegram_presence/group_delivery.py:261-378 | opening a migrated table changes nothing but abandoned sends |
| GroupActions.SecondMigrationSupersedesNothing | telegram_presence/group_delivery.py:287-377 | a second run supersedes nothing more |
| GroupActions.DistinctPostsStayDistinct | telegram_presence/group_delivery.py:303-377 | a live standalone post without an intent stays live on opening, unless another live standalone row of its chat and action has a payload with that digest or carries it as its intent |
| GroupActions.PruningBoundsTerminalRows | telegram_presence/group_delivery.py:119-149 | pruning bounds terminal rows by age and number and never touches a row still to be sent |
| GroupActions.RetainedExactly | telegram_presence/group_delivery.py:119-149 | in a listing from the newest on, a row is kept iff it is at most 30 days old and among the first 5000 |
| GroupActions.PrunedExactly | telegram_presence/group_delivery.py:119-149 | pruning keeps a terminal row, unchanged, iff it is at most 30 days old and among the newest 5000 |
| GroupRuns.NewRowsAreNormal | telegram_presence/group_delivery.py:388-458 | inserted rows are spelled and keyed the way opening would |
| GroupRuns.StepKeepsClean | telegram_presence/group_delivery.py:388-527 | enqueue, begin, fail, ack, opening and pruning by any process keep natural keys unique |
| GroupRuns.OneLiveIntentPerKey | telegram_presence/group_delivery.py:388-527 | over any run from the opening of any legacy table, at most one live row per natural key |
| GroupRuns.PayloadNeverChanges | telegram_presence/group_delivery.py:388-527 | no step changes what a row sends, where, or under which random id |
| GroupRuns.RephrasedRetryGetsFirstPayload | telegram_presence/group_delivery.py:388-458 | a rephrased retry gets the row of the first wording |
| GroupRuns.RetryOfAckedSendsNothing | telegram_presence/engage.py:2194-2258 | at any later state of a run, when recording the delivered answer failed or not, asking again in any wording gets the acked row, changes nothing, and no sender can be called |
| GroupRuns.EnqueueAnswersItsKey | telegram_presence/group_delivery.py:388-458 | what enqueue returns answers to the key and is in the table; nothing else changes; a new row is made only if no live one has the key |
| GroupTries.SameActionExactlyWhen | telegram_presence/group_delivery.py:388-458 | two calls are about one action iff chat, kind and message agree and, for posts that answer none, the request or else the text, as far as the digest can tell |
| GroupTries.EnqueuedExactly | telegram_presence/group_delivery.py:388-458 | the live row of the key, else the row under its id, else a new row, due at once with no attempt made |
| GroupTries.TakenBackExactly | telegram_presence/group_delivery.py:277-286 | opening a migrated table takes back exactly the deliveries that began 120 seconds ago or more, due at once |
| GroupTries.OpenStepExactly | telegram_presence/group_delivery.py:261-378 | in a run, opening by any process does the same and may delete terminal rows only, and exactly the old and the far-back ones |
| GroupTries.BeginsExactlyWhen | telegram_presence/group_delivery.py:476-504 | a delivery begins iff its row is there, neither ended nor under way, due, and the only live one of its key |
| GroupTries.WaitExactly | telegram_presence/group_delivery.py:505-518 | the wait after a failure doubles from the base up to five minutes |
| GroupTries.EndsExactly | telegram_presence/group_delivery.py:505-527 | a beginning counts an attempt; a failed row is dead iff its attempts are used up, else it retries |
| GroupTries.TriedToTheEnd | telegram_presence/group_delivery.py:476-518 | an action whose deliveries all fail is tried exactly as often as it has attempts left, and is dead after the last and not before |
| GroupRuns.AckedFallsExactlyWhenHeld | telegram_presence/group_delivery.py:476-527 | an acked row can leave that state in a step iff some delivery of it is still under way |
| GroupRuns.UnheldAckedStays | telegram_presence/group_delivery.py:476-527 | with none under way no step changes an acked row but pruning, at any clock reading, and none begins a delivery of it |
| GroupRuns.UnheldAckedForGood | telegram_presence/group_delivery.py:476-527 | and so over any run |
| GroupRuns.AckedForGood | telegram_presence/group_delivery.py:476-527 | over whole runs in which sender calls end within the lease, an acked row stays as it is until pruned and no delivery of it is under way |
| GroupRuns.LateFailureUndoesAck | telegram_presence/group_delivery.py:505-518 | a run that gets there: a delivery that outlives its lease fails after another one was acknowledged |
| GroupRuns.AttemptsStayWithinExactlyWhen | telegram_presence/group_delivery.py:277-286 | a step keeps attempts within the limit iff it neither recovers a last attempt nor sends a superseded row that has none left |
| GroupRuns.RecoveryExceedsLimit | telegram_presence/group_delivery.py:277-286 | recovering a last attempt leads to attempt number max + 1 |
| GroupStore.GroupActionOutbox.constructor | telegram_presence/group_delivery.py:223-378 | opening a database reaches `Opened`, pruned iff the last pruning is six hours ago or more (or unknown, or in the future), with unique and normal rows |
| GroupStore.GroupActionOutbox.NormalizeRows | telegram_presence/group_delivery.py:332-346 | the update loops rewrite every row to its normal form |
| GroupStore.GroupActionOutbox.SupersedeDuplicates | telegram_presence/group_delivery.py:347-372 | group by group: sort the live rows of a key, keep the first, supersede the rest; the result is `Deduplicated` |
| GroupStore.LosersFollow | telegram_presence/group_delivery.py:354-372 | in a group sorted by status rank, age and id exactly the rows after the first lose |
| GroupStore.GroupActionOutbox.MaybePrune | telegram_presence/group_delivery.py:119-166 | within six hours of the last pruning nothing changes; otherwise it prunes in newest-first order and notes the time |
| GroupStore.GroupActionOutbox.FindLive | telegram_presence/group_delivery.py:388-458 | finds the live row of a natural key iff there is one |
| GroupStore.GroupActionOutbox.Enqueue | telegram_presence/group_delivery.py:388-458 | insert or return the row of the key, as `EnqueueIn` |
| GroupStore.GroupActionOutbox.Deliver | telegram_presence/group_delivery.py:476-527 | a delivery begins if it may, calls the sender, and books success or failure |
| Tokens.WordsJoin | telegram_presence/content.py:46-71 | splitting at white space: the words on both sides, in order |
| Tokens.StripKeepsWords | telegram_presence/content.py:74-129 | trimming loses no word |
| Chunks.PutWord | telegram_presence/content.py:46-71 | one word is joined to the current part or cut, keeping words, sizes and total weight |
| Chunks.SplitLongUnit | telegram_presence/content.py:46-71 | the loop keeps all words in order, cuts only words over the limit, and gains no length |
| Chunks.CollectUnits | telegram_presence/content.py:99-113 | paragraphs and sentences become units with all words and no more length than the text, a sentence that fits being a unit of its own |
| Chunks.JoinUnits | telegram_presence/content.py:115-126 | joining units divides none, keeps all words, each chunk within the limit, no two neighbours that would fit together, and two units in one chunk apart by their separator |
| Chunks.SplitPieces | telegram_presence/content.py:88-113 | a text that does not fit, sentence by sentence: where two sentences share a chunk, a blank line stands between them across a paragraph break and one space otherwise |
| Chunks.DenseIsFew | telegram_presence/content.py:115-129 | such chunks number at most 2·⌊len/(max−1)⌋ + 1 |
| Chunks.ChunkList | telegram_presence/content.py:74-129 | the chunks keep the words, the limit and the bound on their number, and divide no sentence that fits and keep a blank line or a space between two in one chunk; a text that fits is one chunk |
| Chunks.SemanticChunks | telegram_presence/content.py:74-129 | bad limits are an error, too many chunks are an error and never a truncation, else all properties hold |
| Chunks.NothingIsLost | telegram_presence/content.py:74-129 | without white space, the chunks put together read like the text |
| Chunks.WordsStayWhole | telegram_presence/content.py:46-71 | a word of at most max characters lies whole in one chunk; each piece of a longer one does too |
| Chunks.NoSpaceInsideToken | telegram_presence/content.py:46-71 | each full piece of a token that had to be cut is a chunk by itself, so no space gets inside the token |

## Left out

- Timestamp cursors, rows without `spool_seq` and custom inbox overrides: rows carry their number.
- Prompts, voice card, JSON decoding of the decider's answer, the composer's text, text sanitising, reply addressing and trimming of delegated replies: they decide what is said, not whether.
- Regular expressions: name matching and redaction are not modelled, and sentence boundaries reach the chunker as the layout `pieces`, assumed only to remove white space between sentences (two characters or more at paragraph breaks).
- Letters outside ASCII when lower-casing; Unicode normalisation.
- The full text and sender names of a row, the queue of own message ids and the receipt file: a row is its key, its number and opaque content.
- `content.py` media and MIME validation: a media descriptor and the metadata are carried as JSON text.
- `hooks.py`, `policy.py`, `liveness.py`, `roster.py`, `delegate.py`, `thread.py`: configuration, single checks or rendering, which would add only easy members.
- File locks, fsync, SQLite, HTTP, threads and asyncio themselves: see the assumptions above. Loss of power after a write is not modelled.
- Floating point: time is an integer in the engage loop and a real number in the outboxes; the overflow branch of the retry delay just selects the ceiling.
- Rotation that drops unread rows: the engage runs and the paging theorem assume that it does not happen.
- Decision and action logs and alerts, apart from the fact that an action was recorded.
- The due list and drain loop of the group outbox, and its `last_error` texts.
- Delivery.LoadedIsOk: message ids and error texts are strings; conversion of other JSON values by `str()` is not modelled.
- OutboxStore.DurableOutbox.DispatchDue: the argument checks (a limit below 1, malformed route maps) are not modelled, because they end the call before any record is touched; an exception of the sender is an answer like any other.
- LaneRuns.QuarantineProgress: speaks of passes that ran to their end; a pass broken off by an exception may add strikes of its own, and merging alias spellings takes the larger record.
- EngageRuns.NoMessageLost: own messages and commands count as filtered, and rows at or below the ledger-wide cursor that precedes per-chat cursors count as older than the start.
