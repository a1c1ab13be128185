# A verified model of santree's hand-written algorithms

Santree is a desktop program that runs coding agents in git worktrees. Most of its
Rust backend adapts input and output; this project models the seven parts that are
algorithms or protocols and proves in Dafny what they promise. `dafny verify
dfyconfig.toml` checks all of it.

Code that updates things in place is modelled in place: the rollout parser, the
buffered reader, the parse cache, the account folder and the file handles are classes,
the scanners and builders are methods with loops, each proved against a specification
function; what the source promises is then proved of that function. Code that several
threads, processes or crashes interleave in is a transition system, and the theorems
are about every run of it.

**Codex rollouts** (`src-tauri/src/codex_rollouts.rs`). `RolloutFold` is the record
fold, what it means, and the join of two partial folds; `RecordMeaning` says the same of
the records' own fields: which are heard, with what text, and whose value each field
keeps. `RolloutFraming` is the line reader under a cap, for every way a stream is cut
into buffers. `RemoteSummary` puts these together for a file read only at its ends, and
says what the row shown of it holds. `ParseCache` is the cache object and every sequence
of its operations; `CacheReaders` is any number of threads using it on files that grow,
and `RolloutCache` what a read error costs them. `RateLimits` is the newest-first
selection.

**Child processes** (`src-tauri/src/agent.rs`). `ChildRunner`: a feeder, two drainers,
a polling parent, bounded pipes, a clock, and any child program with any descendants.

**Account folders** (`src-tauri/src/accounts.rs`). `Provisioning`: one pass alone, and
processes whose system calls interleave on one folder.

**The Rust scanner** (`src-tauri/src/compliance.rs`). `RustScanner` strips comments,
`StringLiterals` collects literals, and `ScannerRendering` describes the sources both
are for without mentioning the scanner; `EveryText` shows that every text is one of those
up to what is left open at its end. `BraceScan` matches braces outside literals, and
`PieceBraces` says which over those sources. `ShippedPart` removes test modules, with a
byte cursor beside a character one, and `ModuleHeaders` says character by character what
one is.

**Codex launches** (`src-tauri/src/codex_config.rs`). `LaunchFlags` builds the line,
`LaunchMeaning` says by the settings' own characters what is passed on and what refused,
`ShellWords` reads it as sections 2.2.1 and 2.2.2 of the Shell Command Language do
(IEEE Std 1003.1, XCU chapter 2), `Toml` and `ReviewOverride` write and read the
overrides by TOML v1.0.0, `Overrides` and `OverrideRoundTrip` are the hand-written
inverse, and `LaunchValidation` is the chain from configuration to what Codex reads.

**The bundled installer** (`src-tauri/src/bundled_bin.rs`). `InstallProtocol` is
installers, a sweeper and crashes, `InstallCourse` what each run decides and leaves, and
`FileCompare` the comparison by chunks.

**The log tail** (`src-tauri/src/diagnostics.rs`). `LogTail`, over UTF-8 text
(section 3 of RFC 3629).

`Wrappers`, `Bytes` and `Whitespace` hold what several modules share.

## Where the code does less than its documentation says

For each: where it fails, and the exact condition under which the promise holds.

- The counts of a sampled rollout are documented as lower bounds. They are for each
  conversation, but a row shows one of the two, and losing every event message to the
  dropped middle switches it; and it shows hand-offs only while no agent is named. What
  the sample must hold for either count to be a bound whatever was dropped:
  `SampleBoundsEveryMiddle`, `SampleBoundsEverySubagent` (`ShownCountCanExceed`).
- Joining a head and a tail gives the tail's last message and time, which are the whole
  file's only when the tail is not older (`JoinedIsTheWholeFold`, `JoinedCanBeOlder`).
- A read error in the middle of a parse ends it as the end of the file does, and the
  short parse is cached under the full length. It is harmless exactly when no record was
  lost (`ReadErrorIsLossless`, `LaterReadErrorIsLossless`, `ShortCallReturns`); else the
  call, and later ones served from the cache, return what no moment of theirs held
  (`LossIsServed`, `FailingRun`).
- Another santree process racing on an account folder is documented as tolerated. One
  other is; with two others an entry can fail (`ExactlyTwoAreSafe`).
- A real file where a link belongs is documented as left alone. One the CLI makes after a
  pass has looked and before it removes the link is lost (`CliFileIsLost`,
  `CliFileCanBeLost`).
- The overrides shown to the strict validator are those launched unless the git
  directory's own text reads as one (`ValidatorSeesTheLaunch`,
  `DirectoryCanHideAnOverride`).
- The log tail is documented as the longest suffix that fits and starts on a line; a
  suffix that fits exactly loses its first line, and a window with no newline starts in
  the middle of one (`TailKeepsItsPromise`, `ExactFitIsCut`).
- Every string literal is documented as collected. A quote in a char literal is taken for
  a string's, and displaces what follows (`TakenInPlace`, `QuoteCharIsMisread`).

## Model

| member | source | states |
|---|---|---|
| RolloutFold.ThreadCell.Reply | src-tauri/src/codex_rollouts.rs:329-337 | the last message becomes the new one unless the new one is strictly older, a missing time counting as the latest; title and count stay |
| RolloutFold.SummaryBuilder.Take | src-tauri/src/codex_rollouts.rs:396-473 | one decoded record takes the summary exactly one fold step on, every tag and every missing field included |
| RolloutFold.SummaryBuilder.TakeEvent | src-tauri/src/codex_rollouts.rs:413-425 | an event record changes the event conversation by what it says, and the settings model |
| RolloutFold.SummaryBuilder.TakeItem | src-tauri/src/codex_rollouts.rs:427-449 | an item record changes the item conversation by what it says, and the set of agents |
| RolloutFold.SummaryBuilder.TakeMail | src-tauri/src/codex_rollouts.rs:455-470 | mail to the root may be the last message and is never counted; both other ends become agents |
| RolloutFold.HeardDescribes | src-tauri/src/codex_rollouts.rs:329-337 | one more message keeps a thread a true description of all it has heard |
| RolloutFold.FoldMeaning | src-tauri/src/codex_rollouts.rs:329-337 | over every record list, each conversation: the title is the first accepted prompt, the last message has the greatest key and, among equals, the latest position, and the count is exactly the prompts and replies, mail not counted |
| RolloutFold.DescriptionIsUnique | src-tauri/src/codex_rollouts.rs:319-337 | that description admits one thread only, so it defines the thread |
| RolloutFold.TimesMeaning | src-tauri/src/codex_rollouts.rs:396-400 | the first time is that of the first record with one, the last time the greatest of all, and either is missing only when all are |
| RecordMeaning.RecordHeard | src-tauri/src/codex_rollouts.rs:408-463 | one more record is heard in a conversation exactly with the text and source its own fields say: an event or item by its tags and role, a user's text only when not injected, of several blocks the first that shows anything, mail only to the root; a record that says nothing changes nothing |
| RecordMeaning.EventsCounted | src-tauri/src/codex_rollouts.rs:407-421 | the event count grows by a record if and only if it is an event with a user's message that was not injected, or an agent's, that has a display line |
| RecordMeaning.ItemsCounted | src-tauri/src/codex_rollouts.rs:422-443 | the item count grows by a record if and only if it is a message of the user with a block that is not injected and has a display line, or of the assistant with a block that has one |
| RecordMeaning.TitleIsTheFirstPrompt | src-tauri/src/codex_rollouts.rs:407-413 | over every record list a conversation's title is the text of its first record that says a prompt, and none when there is none |
| RecordMeaning.LastIsTheLatest | src-tauri/src/codex_rollouts.rs:329-337 | its last message is said by the record with the greatest time, of equals the one furthest on, and is missing only when no record speaks |
| RecordMeaning.CountIsOfRecords | src-tauri/src/codex_rollouts.rs:407-443 | its count is the number of records that say a prompt or a reply |
| RecordMeaning.ShownIsTheEvents | src-tauri/src/codex_rollouts.rs:477-488 | the event conversation is shown if and only if some record says anything in it |
| RecordMeaning.SettingsModelIsTheLast | src-tauri/src/codex_rollouts.rs:444-448 | the applied model is that of the last record that applies one |
| RecordMeaning.TurnModelIsTheLast | src-tauri/src/codex_rollouts.rs:449-453 | the turn model is that of the last turn context that names one |
| RecordMeaning.StartIsTheFirst | src-tauri/src/codex_rollouts.rs:403-407 | the start is that of the first session record that carries one |
| RecordMeaning.AgentsAreTheMailed | src-tauri/src/codex_rollouts.rs:464-469 | an agent is counted if and only if it is an end of some mail and not the root |
| RecordMeaning.HandoffsAreCounted | src-tauri/src/codex_rollouts.rs:396-400 | the hand-offs are the inter-agent metadata records, with or without a payload |
| RolloutFold.StepInOrder | src-tauri/src/codex_rollouts.rs:730-758 | folding one more record into the tail and then joining is joining and then folding it |
| RolloutFold.FoldOfConcatenation | src-tauri/src/codex_rollouts.rs:730-758 | for every split of every record list the whole fold is the order-respecting join of the two folds |
| RolloutFold.JoinedIsTheWholeFold | src-tauri/src/codex_rollouts.rs:730-758 | the join as coded is the whole fold if and only if the tail is not older than the head; every field but the last messages and the last time agrees always |
| RolloutFold.JoinedCanBeOlder | src-tauri/src/codex_rollouts.rs:735-736 | a head that opens with its session record, and a tail, whose join reports the older reply |
| RolloutFold.SampleIsALowerBound | src-tauri/src/codex_rollouts.rs:704-758 | whatever middle is dropped, both threads' counts, the hand-offs and the agents are lower bounds; a start and a title found in the head are the whole file's |
| RolloutFold.ShownCountBound | src-tauri/src/codex_rollouts.rs:477-488 | for a given middle, the count of the thread a row shows is a lower bound if and only if the sample kept an event message, or the middle had none, or had at least as many as the sampled items |
| RolloutFold.SampleBoundsEveryMiddle | src-tauri/src/codex_rollouts.rs:477-488 | from the sample alone: the shown count is a lower bound whatever the middle if and only if the sample has an event message or at most one item message |
| RolloutFold.SampleBoundsEverySubagent | src-tauri/src/codex_rollouts.rs:675-682 | from the sample alone: the subagent count is a lower bound whatever the middle if and only if the sample names an agent or counts at most one hand-off |
| RolloutFold.ShownCountCanExceed | src-tauri/src/codex_rollouts.rs:704-709 | a rollout, opening with its session record, whose sample shows more messages than the whole has to show |
| RolloutFraming.LinesPartition | src-tauri/src/codex_rollouts.rs:370-387 | the lines and the remainder are the stream itself, in order, each line one newline at its end, the remainder none |
| RolloutFraming.CutOfConcat | src-tauri/src/codex_rollouts.rs:370-387 | the lines of a concatenation: the second part's first line continues what the first left open |
| RolloutFraming.PrefixLines | src-tauri/src/codex_rollouts.rs:370-387 | a stream that grows keeps every line it had |
| RolloutFraming.FirstLineRecords | src-tauri/src/codex_rollouts.rs:375-395 | one line read contributes its record if it is within the cap and decodes, else nothing, and the rest is unaffected |
| RolloutFraming.Reader.ReadLine | src-tauri/src/codex_rollouts.rs:375-378 | the bytes to the next newline, at most the limit, fewer only at the end of the stream, however the reader cuts it |
| RolloutFraming.Reader.SkipLine | src-tauri/src/codex_rollouts.rs:490-510 | exactly what is left of the line is passed over; false only when no newline is left |
| RolloutFraming.NextLine | src-tauri/src/codex_rollouts.rs:374-395 | one turn of the loop: the end, an oversized line dropped whole, or a line to decode; nothing else is lost |
| RolloutFraming.ParseReader | src-tauri/src/codex_rollouts.rs:368-475 | for every stream, every chunking and every read failure: the fold of exactly the records on the newline-terminated lines within the cap, in order |
| RemoteSummary.MetaFrom | src-tauri/src/codex_rollouts.rs:243-270 | for every chunking and failure: the opening record of the stream if its first terminated line is within the cap, decodes to a session record and names its thread and folder; else none |
| RemoteSummary.OpeningRecord | src-tauri/src/codex_rollouts.rs:252-270 | a rollout opens a thread if and only if its first line is a session record with an id and a directory; the start is the payload's time, else the record's |
| RemoteSummary.RowShowsThread | src-tauri/src/codex_rollouts.rs:683-688 | of the records alone: a row's title, last message, speaker and count are those of its events if any record says anything there, else of its items |
| RemoteSummary.RowShowsModel | src-tauri/src/codex_rollouts.rs:690-693 | its model is the last applied in the settings, else the last a turn names |
| RemoteSummary.RowShowsTimes | src-tauri/src/codex_rollouts.rs:694-695 | its start is the opening record's, else the first session record's, else the first time; its last activity the greatest time |
| RemoteSummary.RowShowsSubagents | src-tauri/src/codex_rollouts.rs:676-682 | its subagents are the rollouts that name it as parent, else the agents of its mail, else its hand-offs |
| RemoteSummary.RemoteRow | src-tauri/src/codex_rollouts.rs:710-728 | nothing when the bytes do not open with such a record; else its thread and the row of the whole rollout or of head and tail joined |
| RemoteSummary.SampledRow | src-tauri/src/codex_rollouts.rs:704-728 | beside the row of the whole file the sampled row has the same thread and, if the opening record gives one, the same start; each of its two counts is a lower bound under the condition above |
| RemoteSummary.Summarise | src-tauri/src/codex_rollouts.rs:704-728 | the summary of a whole rollout, or the join of its head with what follows the first newline of its tail |
| RemoteSummary.SampledRecords | src-tauri/src/codex_rollouts.rs:715-723 | a head and a tail that do not overlap hold the first and the last of the file's records, none twice and none cut |
| RemoteSummary.SampledSummaryIsALowerBound | src-tauri/src/codex_rollouts.rs:704-728 | for every file and every such head and tail, each thread's count, the hand-offs and the agents are lower bounds of the whole file's |
| ParseCache.Cache.Get | src-tauri/src/codex_rollouts.rs:531-536 | a parse is found exactly when the path has an entry tagged with that length |
| ParseCache.Cache.Insert | src-tauri/src/codex_rollouts.rs:538-553 | the entry is set, a new key is queued, and one eviction follows when the cap is passed; the cache stays consistent |
| ParseCache.Cache.RetainExisting | src-tauri/src/codex_rollouts.rs:555-559 | exactly the live keys stay, in the map and, in order, in the queue |
| ParseCache.InsertedKeys | src-tauri/src/codex_rollouts.rs:538-553 | insertion keeps the queue a repetition-free list of the map's keys within the cap, and evicts only for a new key in a full cache |
| ParseCache.InsertedFrame | src-tauri/src/codex_rollouts.rs:538-553 | every other entry still present is untouched |
| ParseCache.RetainedConsistent | src-tauri/src/codex_rollouts.rs:555-559 | dropping dead files keeps the queue and the map in step |
| ParseCache.RetainedFrame | src-tauri/src/codex_rollouts.rs:555-559 | a key stays if and only if it was there and its file is live, with the entry it had, and those that stay keep their order in the queue |
| ParseCache.QueueIsByAge | src-tauri/src/codex_rollouts.rs:518-560 | after every sequence of operations the queue runs from the key longest present to the newest; inserting again moves nothing |
| ParseCache.EvictionIsOldest | src-tauri/src/codex_rollouts.rs:538-553 | an eviction drops exactly one key, the one present longest; any other insertion drops nothing |
| ParseCache.HeadIsLongestPresent | src-tauri/src/codex_rollouts.rs:544-551 | the head of the queue is the key that has been present longest |
| CacheReaders.HitIsAMoment | src-tauri/src/codex_rollouts.rs:564-581 | a hit is the parse of the file at a moment of this call, although the entry's tag may be shorter than what was parsed |
| CacheReaders.ParsedIsAnEntry | src-tauri/src/codex_rollouts.rs:573-580 | what a call inserts was parsed when the file was at least as long as the tag |
| CacheReaders.StepKeepsInv | src-tauri/src/codex_rollouts.rs:564-581 | every step of every thread, every append, drop and read error keeps: files grow, each call's length and bytes are those of their moments; and, while read errors lose nothing, tag at most the length parsed and values true of their moments |
| CacheReaders.RunKeepsInv | src-tauri/src/codex_rollouts.rs:564-581 | so does every interleaving of any length |
| CacheReaders.EveryReturnIsAMoment | src-tauri/src/codex_rollouts.rs:562-581 | for every run whose read errors lost nothing, every value a call returns, hit or parsed, is the parse of what the file held at some moment between its reading the length and its return |
| CacheReaders.ErrorAtAnEnd | src-tauri/src/codex_rollouts.rs:374-377 | a read that fails where the file's end was at a moment of the call has read the whole of that moment and loses nothing, for any parser |
| CacheReaders.ParseWaits | src-tauri/src/codex_rollouts.rs:573-580 | a parse once made is unchanged until its own call inserts it |
| CacheReaders.InsertedParseIsServed | src-tauri/src/codex_rollouts.rs:531-553 | in every run, until the path is inserted again, evicted or dropped, every lookup at the tagged length is served that parse |
| RolloutCache.ReadErrorIsLossless | src-tauri/src/codex_rollouts.rs:374-377 | a read that fails short of the length the call read loses nothing if and only if the missing bytes up to that length complete no line that is kept and decodes |
| RolloutCache.LaterReadErrorIsLossless | src-tauri/src/codex_rollouts.rs:374-377 | one that fails further on loses nothing if and only if what was read holds the records of the last moment the file was no longer, or of the next |
| RolloutCache.ShortCallReturns | src-tauri/src/codex_rollouts.rs:562-581 | in every run, a call whose read fails short of its length returns the records of a moment of its own if and only if no record was lost up to that length |
| RolloutCache.LossIsServed | src-tauri/src/codex_rollouts.rs:562-581 | a loss stays: every later call at that length is served the same records, those of no moment of that call either, until the path is inserted again, evicted or dropped |
| RolloutCache.SummaryIsLossless | src-tauri/src/codex_rollouts.rs:368-377 | an error that loses no record loses nothing of the summary |
| RolloutCache.LostCountIsNoMoment | src-tauri/src/codex_rollouts.rs:368-377 | one that loses a prompt, a reply or a hand-off leaves a summary of no moment of the call |
| RolloutCache.FailingRun | src-tauri/src/codex_rollouts.rs:562-581 | a run of four steps on a file of one timed record: its only read fails, and the call returns, and the cache keeps under the whole length, a summary of no moment of the call |
| RateLimits.AccountIs | src-tauri/src/codex_rollouts.rs:854-863 | a rollout is an account's if and only if its thread is bound to it, or its thread is bound to none and its parent to it; else the Default's |
| RateLimits.NewestMeaning | src-tauri/src/codex_rollouts.rs:862-886 | the snapshot chosen is the first in the list that exists |
| RateLimits.AnswerStep | src-tauri/src/codex_rollouts.rs:850-879 | one more rollout can change only its own account's answer, only while it has none, and only within the account's newest five |
| RateLimits.AnswerStays | src-tauri/src/codex_rollouts.rs:851-853 | an answer once found survives every older rollout, so leaving early is safe |
| RateLimits.Collect | src-tauri/src/codex_rollouts.rs:847-880 | the pass with its early exit and skips gives every wanted account its answer over the whole listing |
| RateLimits.Consider | src-tauri/src/codex_rollouts.rs:855-879 | one rollout attributed, skipped or tried keeps what the pass knows of every account |
| RateLimits.LatestRateLimits | src-tauri/src/codex_rollouts.rs:828-889 | one entry for the Default and each id in order: the snapshot of the newest of its own five newest rollouts that has one, else the default; a repeated id gets the default |
| RateLimits.ListedInOrder | src-tauri/src/codex_rollouts.rs:879-881 | the Default account is listed first, then the given ids in order |
| RateLimits.DistinctAccountsAllAnswered | src-tauri/src/codex_rollouts.rs:881-888 | with distinct ids every entry is its account's own |
| ChildRunner.StepKeepsInv | src-tauri/src/agent.rs:353-445 | every step of child, descendants, feeder, drainers, parent and clock keeps every byte in exactly one place, in order, and the parent within its deadlines |
| ChildRunner.RunKeepsInv | src-tauri/src/agent.rs:353-445 | so does every run |
| ChildRunner.ReturnedOutput | src-tauri/src/agent.rs:385-449 | each returned buffer is a prefix of what was written, the whole of it when end of file was reported; the two takes cost one grace together; a timeout is reported no earlier than the timeout and at the killed child's death, anything else within one poll of the timeout, and a status is the child's own |
| ChildRunner.TakenIsAllAppended | src-tauri/src/agent.rs:385-391 | a take hands over everything the draining thread had appended; of all ever written only what that thread held and what was in the pipe is missing |
| ChildRunner.PollDecides | src-tauri/src/agent.rs:430-442 | a poll of an exited child takes its status, even past the timeout; a running one is killed from the timeout on and slept for before it |
| ChildRunner.WaitFailedMeansAsked | src-tauri/src/agent.rs:440-440 | in every run a failed wait is reported only if asking after the child failed |
| ChildRunner.EndsStep | src-tauri/src/agent.rs:378-384 | after any step: a forked process holds the pipe ends its parent held, an exited one none, and no other end moved |
| ChildRunner.PromptArrives | src-tauri/src/agent.rs:418-426 | what was read from stdin is a prefix of the prompt, and all of it once fed and drained |
| ChildRunner.BlockedWriterIsFreed | src-tauri/src/agent.rs:365-373 | a process blocked on a full output pipe: the draining thread's next steps are enabled and make room |
| ChildRunner.BlockedReaderIsFed | src-tauri/src/agent.rs:418-426 | a process blocked on empty stdin: the feeder can feed or close, or it has closed and the whole prompt has been read |
| ChildRunner.ParentReturns | src-tauri/src/agent.rs:430-445 | in every run a child is killed no earlier than the timeout and at most one poll after it; the parent takes at most one step per interval up to the timeout and five more, and is done by one poll after the timeout plus the grace, counted from the killed child's death when that is later, unless that child never dies |
| ChildRunner.RunIsCounted | src-tauri/src/agent.rs:430-442 | the clock counts the ticks, and every poll is paid for by the interval slept before it |
| ChildRunner.GraceRunsOut | src-tauri/src/agent.rs:443-445 | once the poll loop is left every tick uses up the one grace, nothing adds to it, and with none left a take is enabled |
| ChildRunner.LateWritesChangeNothing | src-tauri/src/agent.rs:378-384 | a descendant that writes after the call returned changes no answer |
| Provisioning.AccountFolder.Provision | src-tauri/src/accounts.rs:549-608 | a pass alone never fails; real files stay and are reported once, every other name becomes the correct link or, with no source, nothing |
| Provisioning.AccountFolder.MakeLink | src-tauri/src/accounts.rs:612-624 | an existing correct link is success, anything else in the way an error, and nothing is overwritten |
| Provisioning.ActKeepsName | src-tauri/src/accounts.rs:569-624 | each system call of either process, whatever the other is doing at that name, keeps what both have seen true and does not fail |
| Provisioning.StepKeepsInv | src-tauri/src/accounts.rs:549-624 | every step of two processes keeps it for every name |
| Provisioning.RunKeepsInv | src-tauri/src/accounts.rs:549-624 | so does every interleaving |
| Provisioning.TwoProcessesNeverFail | src-tauri/src/accounts.rs:536-539 | two processes, any number of passes, any interleaving of system calls: neither fails on an entry and no real file is touched |
| Provisioning.QuiescentIsSettled | src-tauri/src/accounts.rs:541-548 | once both are idle after a pass, every name is a real file, the correct link where the source exists, or absent |
| Provisioning.FurtherPassesChangeNothing | src-tauri/src/accounts.rs:541-543 | from a settled folder any number of passes by any number of processes change nothing and never fail |
| Provisioning.PassesEnd | src-tauri/src/accounts.rs:565-608 | each own step brings a process nearer the end of its pass and no other process sets it back |
| Provisioning.CliFileIsLost | src-tauri/src/accounts.rs:571-580 | a file the CLI puts in a link's place can be removed by some interleaving, of any number of processes, if and only if one is past its look at the link and will remove it |
| Provisioning.CliFileCanBeLost | src-tauri/src/accounts.rs:571-580 | two calls into a first pass one process alone removes such a file |
| Provisioning.ThreeProcessesCanFail | src-tauri/src/accounts.rs:612-624 | a schedule of three processes in which one fails on an entry |
| Provisioning.ExactlyTwoAreSafe | src-tauri/src/accounts.rs:536-539 | of two or more processes, no interleaving fails if and only if there are exactly two |
| InstallProtocol.DestStep | src-tauri/src/bundled_bin.rs:31-69 | no step but a rename touches the target, and a rename puts a complete copy there |
| InstallProtocol.OwnFileStep | src-tauri/src/bundled_bin.rs:46-63 | the file one run writes is untouched by every step of every other run and the sweeper |
| InstallProtocol.StepKeepsInv | src-tauri/src/bundled_bin.rs:31-95 | every step, crash or sweep keeps the target, the runs' files and what each run has learnt |
| InstallProtocol.RunKeepsInv | src-tauri/src/bundled_bin.rs:31-95 | so does every interleaving of any number of runs |
| InstallProtocol.NeverPartial | src-tauri/src/bundled_bin.rs:26-30 | for runs with a source each: at every moment the target is what it was at the start or one complete copy of one run's source with mode 0755 |
| InstallProtocol.CopyStays | src-tauri/src/bundled_bin.rs:31-95 | once such a copy, the target stays one |
| InstallProtocol.AnswerMeansInstalled | src-tauri/src/bundled_bin.rs:31-69 | from the moment a run answers, replaced or unchanged, the target is a complete copy |
| InstallProtocol.ReplacedMeansRenamed | src-tauri/src/bundled_bin.rs:64-69 | replaced is answered by a rename alone, which put the complete file of the run's own source in place |
| InstallProtocol.UnchangedMeansOwn | src-tauri/src/bundled_bin.rs:41-43 | unchanged is answered by a comparison alone, and is true of the run's own source unless another file took the target's place since it was opened |
| InstallProtocol.SweeperNames | src-tauri/src/bundled_bin.rs:78-84 | the sweeper matches every temp name an installer makes and never the installed name |
| InstallCourse.LookDecides | src-tauri/src/bundled_bin.rs:97-110 | the target is opened if and only if it is a plain file of ours, of mode 0755 and the source's length; looking changes nothing |
| InstallCourse.CompareDecides | src-tauri/src/bundled_bin.rs:119-131 | equal bytes are answered unchanged, any others lead to a new temp file, and comparing changes nothing |
| InstallCourse.NamesStep | src-tauri/src/bundled_bin.rs:45-95 | a name is given or taken only so: a run creates its own temp name, a rename moves that to the target, a clean-up or the sweeper removes one temp name |
| InstallCourse.LoneRun | src-tauri/src/bundled_bin.rs:31-69 | a run left alone: over a copy of its source it answers unchanged and every file and name is as it was; over anything else but a directory it answers replaced, the target is a copy, no temp name is left and all else is as it was |
| InstallCourse.SweptExactly | src-tauri/src/bundled_bin.rs:78-84 | the sweeper takes exactly the installed name between a dot and a dot, anything and the suffix, and the one name in which the dots coincide |
| FileCompare.ReadFull | src-tauri/src/bundled_bin.rs:134-143 | the buffer holds the next bytes of the file, as many as asked for or left, for every pattern of short reads; an error only when a read failed |
| FileCompare.SameBytes | src-tauri/src/bundled_bin.rs:119-131 | true if and only if the two files' bytes are equal, for every pattern of short reads and any two lengths; no answer if and only if a read failed |
| LogTail.BoundaryIsACharacter | src-tauri/src/diagnostics.rs:48-51 | in valid UTF-8 every character boundary is the offset of a character |
| LogTail.TailIsText | src-tauri/src/diagnostics.rs:43-57 | the result is whole characters, a suffix within the budget, and all of the text when it fits |
| LogTail.TailIsLongestShorterThan | src-tauri/src/diagnostics.rs:52-56 | when text is cut and the window holds a newline: the longest line-aligned suffix strictly shorter than the budget |
| LogTail.TailOfALongLine | src-tauri/src/diagnostics.rs:48-56 | when text is cut and the window holds no newline: the longest suffix of whole characters within the budget |
| LogTail.TailKeepsItsPromise | src-tauri/src/diagnostics.rs:38-42 | the documented result, the longest line-aligned suffix that fits, comes back if and only if exactly one of the byte before the window and the window holds a newline |
| LogTail.ExactFitIsCut | src-tauri/src/diagnostics.rs:52-56 | for every budget a text whose last line fits it exactly comes back empty, though that line is the longest fitting suffix when it starts on a line |
| LogTail.AFullLogIsEmptied | src-tauri/src/diagnostics.rs:26-28 | such a text for the export's own budget |
| RustScanner.StripRustComments | src-tauri/src/compliance.rs:302-357 | the scan computes the stripped text for every input and always ends, also when an escape overshoots the end |
| RustScanner.StripNext | src-tauri/src/compliance.rs:306-355 | one turn of the scan, comment, literal or character, is one step of the stripped text |
| RustScanner.StripKeepsLines | src-tauri/src/compliance.rs:307-331 | for every input, stripping keeps every newline and adds none |
| RustScanner.StripIsASubsequence | src-tauri/src/compliance.rs:296-301 | for every input the output is a subsequence of it |
| RustScanner.CopyQuoted | src-tauri/src/compliance.rs:361-379 | the literal is copied whole, to past its first unescaped delimiter, or to the end |
| RustScanner.CopyRawString | src-tauri/src/compliance.rs:384-399 | none and nothing written unless a raw string starts here; else it is copied whole |
| RustScanner.RawStringOpen | src-tauri/src/compliance.rs:402-409 | the hash count and the opening quote, when there is one |
| RustScanner.RawStringClose | src-tauri/src/compliance.rs:413-421 | the index past the quote and its hashes when enough hashes follow |
| RustScanner.SkipBlockComment | src-tauri/src/compliance.rs:318-337 | a block comment is passed to where all nested ones are closed, its newlines kept |
| RustScanner.QuotedEndIs | src-tauri/src/compliance.rs:361-379 | the index the scan stops at is where the literal ends, clamped at the end of the text |
| ScannerRendering.BlockOfComment | src-tauri/src/compliance.rs:317-337 | a block comment with any nesting is passed over whole, whatever surrounds it |
| ScannerRendering.RawFound | src-tauri/src/compliance.rs:384-421 | a raw string with any number of hashes is found whole |
| ScannerRendering.CharFound | src-tauri/src/compliance.rs:347-352 | a char literal is found whole and not taken for a lifetime |
| ScannerRendering.StripInvertsRendering | src-tauri/src/compliance.rs:302-357 | for every source written from well-formed pieces, code among them told by its characters alone and lifetimes code, the stripper returns exactly the pieces that are not comments, in order, and the comments' newlines |
| ScannerRendering.PlainCodeOpensNothing | src-tauri/src/compliance.rs:306-355 | a character opens neither comment nor literal if and only if it is no double quote, no slash before a slash or star, no single quote before a backslash or one character before another, and no r before hashes and a quote |
| EveryText.EveryTextIsPieces | src-tauri/src/compliance.rs:302-357 | every text whatever is well-formed pieces and then a rest that no piece starts |
| EveryText.StripOfEveryText | src-tauri/src/compliance.rs:302-357 | for every such pieces and rest, so for every input: the stripper returns the pieces that are not comments, the comments' newlines, and of the rest a literal left open as it stands or an open comment's newlines |
| PieceBraces.CommentAfterLifetime | src-tauri/src/compliance.rs:347-352 | a comment after any lifetime is dropped |
| RustScanner.NewlinesAre | src-tauri/src/compliance.rs:327-331 | a comment's newlines are as many as its line breaks and nothing else |
| StringLiterals.StringLiteralsOf | src-tauri/src/compliance.rs:426-473 | the scan collects exactly the literals of the text and always ends |
| StringLiterals.ReadLiteral | src-tauri/src/compliance.rs:431-469 | a raw string without its fence or a string with its escapes resolved, and where it ends; nothing elsewhere |
| StringLiterals.LiteralsInvertRendering | src-tauri/src/compliance.rs:423-473 | for every comment-free source with no quote inside a char literal: exactly the values of its string literals, in order |
| StringLiterals.TakenInPlace | src-tauri/src/compliance.rs:423-473 | for every comment-free source of well-formed pieces the literals are taken exactly where they stand if and only if no char literal holds a quote |
| StringLiterals.CollectedWhereTaken | src-tauri/src/compliance.rs:426-473 | for every text the literals collected are those that stand where the scan takes them |
| StringLiterals.QuoteCharIsMisread | src-tauri/src/compliance.rs:451-469 | a quote in a char literal alone is read as a string |
| BraceScan.MatchingBrace | src-tauri/src/compliance.rs:201-237 | the scan from an opening brace answers what the specification of the first closing index answers, never counts below zero, and ends |
| BraceScan.ClosingMeaning | src-tauri/src/compliance.rs:199-237 | the index is the first at which brace depth, counted outside string and char literals, is back to zero; none if and only if it never is |
| BraceScan.DepthOverLiteral | src-tauri/src/compliance.rs:206-225 | within a literal the depth stands still, and after it the rest counts as if it were alone |
| PieceBraces.MaskedIsTheCode | src-tauri/src/compliance.rs:206-225 | for every comment-free source of well-formed pieces the scan sees the code as it stands and nothing of a literal |
| PieceBraces.BraceFoundIsTheCodes | src-tauri/src/compliance.rs:201-237 | from an opening brace, or inside one, the brace found is the piece of code at which the code's braces are first all closed, whatever the literals hold, and none if and only if they never are |
| ShippedPart.FirstBraceOpensTheBody | src-tauri/src/compliance.rs:170-184 | the first brace after a module's gate is the one its header ends at, so the brace scan starts at the body |
| ModuleHeaders.ModuleIsAHeader | src-tauri/src/compliance.rs:166-178 | a module starts at a point if and only if the gate, blanks, mod and a space, a name, blanks and a brace stand there, character by character |
| ModuleHeaders.WrittenHeader | src-tauri/src/compliance.rs:168-178 | a header written out is a module if and only if a brace comes next after its name and blanks |
| ModuleHeaders.OtherItemsShip | src-tauri/src/compliance.rs:171-173 | a gate followed, after blanks, by anything but mod and a space is none |
| ShippedPart.ModuleEndMeaning | src-tauri/src/compliance.rs:182-185 | a module ends at the first point where its braces are all closed, and at the end of the text only when they never are |
| ShippedPart.SpansAreTheModules | src-tauri/src/compliance.rs:155-159 | the spans run from gate to closing brace, in order and disjoint, and every gated inline module starts inside one |
| ShippedPart.ShippedIsOutside | src-tauri/src/compliance.rs:160-197 | what ships is the source less those spans, every other character kept in order |
| ModuleHeaders.SpansAreTheHeaders | src-tauri/src/compliance.rs:155-197 | what is cut out starts at such headers alone, every such header lies in it, and what ships is the rest |
| ModuleHeaders.FirstModuleIsCut | src-tauri/src/compliance.rs:182-190 | the first module is cut out from its gate to the brace that closes its body, and the search goes on behind it |
| ShippedPart.CharsBefore | src-tauri/src/compliance.rs:180-181 | a byte cursor on a boundary names one character; the slices never leave a boundary |
| ModuleHeaders.ByteOfIsUtf8 | src-tauri/src/compliance.rs:180-193 | the byte offset of a character is the length of what precedes it in UTF-8 |
| ShippedPart.FindGate | src-tauri/src/compliance.rs:166-167 | the next gate from a boundary on, in bytes, is the next one in characters |
| ShippedPart.ModuleOf | src-tauri/src/compliance.rs:168-185 | a gate is an inline module exactly when its header says so, and then its end is the module's |
| ShippedPart.AtGate | src-tauri/src/compliance.rs:166-194 | one gate handled keeps the byte and character cursors in step; a module never starts before what has been copied, so that branch is never taken |
| ShippedPart.ShippedPartOf | src-tauri/src/compliance.rs:160-197 | the loop returns the shipped text and ends |
| ShellWords.QuotedIsVerbatim | src-tauri/src/hooks.rs:435-437 | a quoted value is read by the shell as itself, whatever it holds and whatever follows |
| ShellWords.PlainIsVerbatim | src-tauri/src/codex_config.rs:183-188 | unquoted text of plain characters is read as it stands |
| LaunchFlags.FlagIsTwoWords | src-tauri/src/codex_config.rs:183-231 | a flag and its argument are two words whatever the argument holds |
| LaunchFlags.LineSplits | src-tauri/src/codex_config.rs:179-241 | a line of such flags is split into exactly their names and arguments |
| LaunchFlags.LaunchIsTheArguments | src-tauri/src/codex_config.rs:179-241 | the shell reads every accepted launch as exactly the arguments meant, two words a flag: no configured string adds a word or a flag |
| LaunchMeaning.RefusedExactly | src-tauri/src/codex_config.rs:212-238 | each error if and only if: a first launch's model, or else its effort, is unfit between its white ends, character by character; else a review lacks its tools, another surface has them, or their configuration cannot be read; nothing else is refused |
| LaunchMeaning.ModelIsAsked | src-tauri/src/codex_config.rs:211-216 | a model is named if and only if it is a first launch and the setting has a character that is not white, and it is the setting between its white ends, by indexes |
| LaunchMeaning.EffortIsAsked | src-tauri/src/codex_config.rs:217-223 | an effort is set under the same condition, to the same part of its setting, as a TOML string |
| LaunchFlags.RestrictedFirst | src-tauri/src/codex_config.rs:96-112 | read-only surfaces are sandboxed and never ask, addressing a review never asks |
| LaunchFlags.RestrictedExactly | src-tauri/src/codex_config.rs:96-112 | a sandbox flag is there if and only if the surface is read-only, an approval flag if and only if it is not the user's own session, and neither with any other value |
| LaunchFlags.NetworkOnlyOnWork | src-tauri/src/codex_config.rs:130-144 | outbound network is opened if and only if it is the user's own session and the setting is on |
| LaunchFlags.OnlyGitIsGranted | src-tauri/src/codex_config.rs:190-199 | a directory is granted if and only if the surface writes the checkout and the git directory is text, and it is that directory |
| LaunchFlags.LaunchFlags | src-tauri/src/codex_config.rs:179-241 | the builder returns the line of the flags meant, or the first error in order |
| LaunchFlags.PushModel | src-tauri/src/codex_config.rs:213-216 | the model asked for is pushed quoted if it is a safe token, refused otherwise |
| LaunchFlags.PushEffort | src-tauri/src/codex_config.rs:217-223 | the effort is pushed as a TOML override under the same rule |
| LaunchFlags.PushReview | src-tauri/src/codex_config.rs:226-238 | the review server's override is pushed, or the launch refused |
| Overrides.ClosingQuote | src-tauri/src/codex_config.rs:417-431 | the first quote that is not part of an escape |
| Overrides.ConfigOverridesOf | src-tauri/src/codex_config.rs:401-413 | the values found at each mark, unescaped, in order, for every text |
| Overrides.CloseOfQuoted | src-tauri/src/codex_config.rs:414-431 | the closing quote of a quoted value is found where it is, whatever the value |
| Overrides.UnescapedEscaped | src-tauri/src/codex_config.rs:409-409 | unescaping undoes escaping |
| Overrides.OverrideTaken | src-tauri/src/codex_config.rs:398-413 | an override is read back verbatim with any mix of quotes and backslashes, and reading goes on after it |
| OverrideRoundTrip.CleanDirectory | src-tauri/src/codex_config.rs:401-413 | a quoted directory that neither holds the mark nor ends in it but for its quote is passed over |
| OverrideRoundTrip.MarkedDirectory | src-tauri/src/codex_config.rs:403-406 | a directory that holds the mark is read as an override of a lone backslash |
| OverrideRoundTrip.OpenDirectory | src-tauri/src/codex_config.rs:403-406 | the closing quote of a directory ending in the mark's first three characters is taken for an opening one |
| OverrideRoundTrip.RoundTrip | src-tauri/src/codex_config.rs:398-413 | for every ordered line of such flags the overrides read back are those written, in order, if and only if its directory is readable |
| LaunchValidation.ValidatorSeesTheLaunch | src-tauri/src/codex_config.rs:398-413 | for every accepted launch the validator is shown precisely the words the shell passes after each -c, if and only if the git directory has no mark in it and does not end in one left open with a flag to follow |
| LaunchValidation.DirectoryCanHideAnOverride | src-tauri/src/codex_config.rs:398-413 | a launch with an absolute git directory that makes the validator check something that is not launched |
| LaunchValidation.ValidationArgs | src-tauri/src/codex_config.rs:361-382 | the fixed arguments around each override after its own -c, or none when there is no override |
| LaunchValidation.CodexReadsWhatWasMeant | src-tauri/src/codex_config.rs:179-323 | shell words read as TOML: the network switch, the effort and the review server, each when and only when asked for and with the values configured, if and only if the review server's command and arguments have no control character but tab, newline and return |
| LaunchValidation.EffortReads | src-tauri/src/codex_config.rs:217-223 | the effort override assigns exactly the effort |
| Toml.WriteTomlString | src-tauri/src/codex_config.rs:458-472 | the loop writes the escaped string |
| Toml.ReadBody | src-tauri/src/codex_config.rs:453-472 | a written string is read back up to its first unescaped quote, if and only if it has no control character but tab, newline and return |
| Toml.WritableExactly | src-tauri/src/codex_config.rs:453-472 | the strings that can be written are those without a control character but tab, newline and return, and without delete |
| Toml.ReadsBack | src-tauri/src/codex_config.rs:289-323 | every written value, arrays and inline tables included, is read back with what follows left over, or refused if one of its strings cannot be written |
| ReviewOverride.OverrideIsWritten | src-tauri/src/codex_config.rs:314-322 | the text built is the server's table written out after its dotted key |
| ReviewOverride.OverrideReadsBack | src-tauri/src/codex_config.rs:261-323 | a reader gets exactly the configured command, the arguments in order with the agent kind added, and every tool allowed and approved; it refuses the override if and only if a string cannot be written |
| ReviewOverride.ToolNamesWritable | crates/core/src/review_tools.rs:20-28 | santree's own tool names can all be written |

## Left out

Taken as given, as uninterpreted functions or as parameters:

- JSON decoding, RFC 3339 times, the display-line helpers and the test for injected text: a record arrives decoded, and the helpers are two functions of a `Prose` value.
- The cache of first lines (`peek`, `METAS`) and the parent of a rollout in its opening record, which attribution takes from a map.
- Directory walks and the sort by modification time: the listing arrives newest first.
- Paths, process ids and account ids are numbers: only their equality matters.
- Message counts, hand-offs and lengths are unbounded numbers; the source's 32-bit counters are not near their limit.
- Reading and parsing the review configuration file: its result or its failure is an input of the launch.
- Rust's Unicode alphanumeric test: any predicate that is false of an opening brace.
- The search for ASCII text in bytes is modelled on characters; in UTF-8 no ASCII byte occurs inside another character.

Simplified, and what that does not capture:

- CacheReaders.EveryReturnIsAMoment: supposes that no read error of the run lost anything, which for the records of a rollout is exactly what `RolloutCache.ReadErrorIsLossless` and `LaterReadErrorIsLossless` say. Files only grow, as rollouts do.
- RolloutCache.LostCountIsNoMoment: the summary, unlike the records, can return to what it was, since a model can change and change back; so its condition is sufficient in each direction (`SummaryIsLossless`) and not exact.
- ChildRunner.ReturnedOutput: time stands still for a parent that has something to do, so scheduling delay is not added to the deadlines; failures to spawn, and errors on reading an output pipe, are left out; a killed child's death is an event of its own. The drainers and the parent are steps of a transition system, not objects.
- Provisioning.TwoProcessesNeverFail: sources are stable but for the folder that is always shared, the CLI makes no file of its own meanwhile, no system call fails for a reason of its own, and the mutex that serialises passes within one process is the one step at a time of a process.
- Provisioning.CliFileIsLost: speaks of a file; a folder in the link's place makes the removal fail instead.
- InstallProtocol.NeverPartial: the rename is atomic and the order of steps is what a crash sees; what a power failure leaves of unsynced writes is not modelled. Temp names are unique, and the sweeper may take any temp name at any age. `install_copy` is a transition system rather than a method, since every system call can be followed by another process's.
- FileCompare.SameBytes: the files do not change while they are compared, and the metadata checks before it are those of `InstallProtocol.LooksInstalled`.
- RateLimits.LatestRateLimits: what a rollout's tail holds is any function of its path.
- StringLiterals.LiteralsInvertRendering: leaves out sources with a quote inside a char literal, where `TakenInPlace` says the literals are not taken where they stand; that the values collected then always differ too is not claimed.
- ShippedPart.AtGate: the branch that skips a module already copied is not written, being proved never taken.
- Toml.ReadsBack: the reader refuses blanks, trailing commas and `\u` escapes, none of which is written, and does not check that the keys of a table differ.
- ShellWords.QuotedIsVerbatim: double quotes, expansions and operators are refused rather than interpreted, so a line that splits at all does so without them.
- LaunchFlags.LaunchFlags: log warnings are dropped; a git directory that is not UTF-8 is an input of its own.

Not modelled:

- `slug` and `mint_id`, `call_args`, `fn_body`, `squashed` and the policy scans built on the scanner: short, or comparisons with lists.
- `rollout_presence_in`, `last_activity_ms` and the parsing of rate limits: one-branch readers of a tail.
- Claude's side of accounts, seeding of settings, and login commands.
- The rest of the backend: commands, conversations, process trees, vendor command lines, the user interface.
