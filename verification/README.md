# github-dark-factory-watcher: a verified model

The watcher polls GitHub for open draft pull requests that carry an approved, not yet
completed dark-factory spec, and publishes one create-task command per such pull request to
Kafka. What keeps it from starting a second agent run on the same branch is state: a cursor
file with a watermark, a map of task identifiers rebuilt by every poll (`head_shas`), and a
map of already-triggered markers that outlives polls (`queued_markers`). Behind it stands a
controller that creates at most one task per identifier. This project models that machinery
and proves what it guarantees over whole runs.

`dafny verify dfyconfig.toml` checks everything.

## How the model is laid out

| file | models |
|---|---|
| `Strings.dfy` | the few pieces of Go's `strings`, `strconv`, `fmt` the code relies on |
| `TaskIds.dfy` | the key families of task identifiers and markers |
| `Frontmatter.dfy`, `Candidate.dfy` | spec frontmatter, the candidate verdict |
| `Filename.dfy`, `VaultMap.dfy` | slugs and vault filenames, the repo-to-vault map |
| `Cursors.dfy`, `Saves.dfy` | the cursor, its file, load and save; the file effects of saves that overlap |
| `Polling.dfy` | a poll as a function: reaction to one PR, fold over a batch, page loop, poll |
| `Watcher.dfy` | the watcher object; every method is proved to make the step `Polling` describes |
| `Logs.dfy`, `BatchOrder.dfy`, `Fetching.dfy` | what maps, watermark and counters are in terms of the event log; order independence; paging |
| `Runs.dfy`, `Contracts.dfy` | runs of serial polls; what events and commands mean |
| `Retry.dfy` | whether a PR is met again by the next poll, against a truthful search |
| `Trigger.dfy` | the operator's trigger command |
| `Interleaving.dfy` | concurrent polls, triggers, redelivery, crashes and the controller |
| `Overlap.dfy` | which overlapping polls keep one trigger per queued phase |
| `CrashRuns.dfy` | the serial watcher in small steps with a crash between any two |
| `PeekedBody.dfy` | the peeked and restored body of a non-2xx response |
| `Scenes.dfy` | concrete answers of GitHub for the inputs at which a promise ends |

An *event* is what processing one pull request amounts to: skipped with a reason, deduped by
`head_shas`, suppressed by a marker, published, or failed to send. A publish with prompts
queued *arms* its PR; the observations `no_spec_in_diff` and `not_open` *drop* it. A *world*
is everything one poll meets outside the process: search answers, observations per PR, send
outcomes, the number of context checks until cancellation, and how the save ends.

Modelling choices:

- A version 5 UUID (section 5.5 of RFC 9562) is a free constructor over its key, so distinct
  keys give distinct identifiers; the work is done on the key strings. Valid names are owners
  without `/` and repositories without `#`, which GitHub guarantees.
- Times are integer nanoseconds. Context cancellation is a number of checks that still find
  the context alive, so a cancelled context stays cancelled.
- YAML decoding, URL parsing, the repo-glob matcher and validator, the scope filter, Unicode
  lowercasing and all network answers are function-valued inputs, constrained by nothing
  unless a `requires` says so (lowercasing fixes `[a-z0-9-]`).
- PR titles and spec texts are sequences of Unicode characters; filenames, keys and bodies are
  bytes.

## Where the code and its own comments part

- `pkg/watcher.go:142-147` says a failed PR is re-evaluated on the next successful poll. The
  search is `updated:>=since`, so a failed PR is lost exactly when another PR of its batch that
  advanced was updated in a later second, and then for good, until GitHub gives it a new
  updated-at: `Retry.FoundAgainIff`, `Retry.OvertakenIsLost`, with a poll that does it in
  `Retry.FailedPRIsLost`.
- `pkg/cursor.go:30-32` says a marker goes when a poll sees the PR no longer open. The verdict
  looks at the draft flag first, so a closed PR that is no draft any more keeps its marker:
  `Contracts.MarkerKeptIff`, and a poll in which it does, `Contracts.ClosedPRKeepsItsMarker`.
- `pkg/command/trigger_executor.go:206-207` and `main.go:269-271` rely on redelivery and replay
  being idempotent. The command reads GitHub and the clock again, and meets its task again
  exactly when it is forced and neither head nor clock has moved, or unforced and the PR is
  still queued, or drained both times at one head: `Trigger.RedeliveryRepeatsTheIdIff`,
  `Interleaving.RedeliveryCreatesOneIff`, with the failing inputs in
  `Interleaving.ForcedRedeliveryCreatesTwo` and `Interleaving.UnforcedRedeliveryCreatesTwo`.
- `pkg/cursor.go:83` calls the save atomic. It is for one poll at a time; two at once share the
  temp file, and nothing keeps `/check` from overlapping the ticker. When exactly overlapping
  saves tear the file is `Saves.TornIff`; that it heals or loads as a cold start,
  `Saves.RenameBehindOpenTears`.
- `pkg/cursor.go:23-29` wants a queued phase handed out once. Overlapping polls send a
  queued PR twice (`Interleaving.OverlappingPollsSendTwice`) and can lose its marker, which ends
  in a second task (`Interleaving.LateSaveCreatesASecondTask`). A schedule keeps the publish of
  one step from being repeated by another, whatever is observed, exactly if the poll of the
  latter descends from the former through loads and saves: `Overlap.OneTriggerIff`.
- One trigger per queued phase holds from the moment the publishing poll is saved, and within
  that poll; a failed save is only logged (`pkg/watcher.go:101-103`), and the polls after it
  repeat its sends: `Runs.FailedSaveIsRepeated`.
- Cutting a frontmatter block inverts writing it except for blocks that hold a fence or a CRLF
  or end in a carriage return; the exact condition is `Frontmatter.BlockRoundTrip`.

## Model

| member | source | states |
|---|---|---|
| Runs.OneTriggerPerQueuedPhase | pkg/watcher.go:224-260 | in any run of serial polls, whatever is absent, failing, out of scope, cancelled or unsaved, between a PR's successful queued publish (saved, or in the same poll) and any later attempt to send for it, at any head, queued or drained, lies an observed completion or closing |
| Runs.OneTriggerWithSaves | pkg/cursor.go:23-45 | the same over everything ever sent, when no save but perhaps the last fails |
| Runs.FailedSaveIsRepeated | pkg/watcher.go:101-103 | a poll that is not saved has never happened for the next one: the same world gives the same sends |
| Runs.SavedMarkersAreExactlyTheArmedPRs | pkg/watcher.go:224-257 | after any run from a missing file, a PR is marked in the file iff its latest event among queued publish and drop is the publish, and then with its pinned identifier; no other keys exist |
| Runs.SuppressionIsHistory | pkg/watcher.go:237-250 | why each candidate of a poll is deduped, suppressed or sent, as an equivalence on the logs: known from the latest saved poll or published earlier in this one; else armed; else sent |
| Runs.DropForgets | pkg/watcher.go:224-235 | a saved poll whose only occurrence of a PR is a drop leaves no marker and no identifier of it, at any head, in the file |
| Runs.DroppedPRIsSentNext | pkg/watcher.go:148-172 | from there, through any polls that miss the PR, skip it or fail to send, its next candidate event attempts a send |
| Runs.NoIdIsSentTwiceInAPoll | pkg/watcher.go:252-259 | within one poll no identifier is sent again after a successful send, duplicate PRs in the batch included |
| Runs.PollSavesOrForgets | pkg/watcher.go:78-106 | a poll either saves watermark, rebuilt map and markers as its log says, or leaves the cursor file as it was; one that gives up before processing also sends nothing |
| Runs.FileIsHistory | pkg/cursor.go:41-45 | after any run the file's markers are the fold of the saved history, its head map that of the latest saved poll, for every start time |
| Runs.WatermarksRise | pkg/watcher.go:96-103 | the persisted watermark never falls |
| Runs.OutcomesAreConserved | pkg/watcher.go:184-260 | over any run: scanned = skipped + published or failed + silent dedups = number of events, create + create_queued = accepted commands, error = failed sends |
| Runs.PublishesAreConserved | pkg/watcher.go:288-320 | over any run create counts the drained publishes and create_queued the queued ones |
| Runs.SkipsAreConserved | pkg/watcher.go:184-250 | over any run each skip reason is counted as often as a PR was skipped for it, and queued_marker as often as one was suppressed |
| Runs.CyclesAreConserved | pkg/watcher.go:85-104 | over any run success counts the polls that worked through a batch and github_error those whose search failed |
| Contracts.EventMeans | pkg/watcher.go:178-261 | event j of a poll, from the answers alone: it passes to dedup iff its PR is a candidate as the README of the source defines it, at the head that was read, with the queued identifier iff a prompt waits there; an attempt is published iff the send went through, with a command that describes PR and details; what advances does so to the PR's own updated-at; the marker is dropped iff a draft was seen closed or with a readable diff without approved spec |
| Contracts.SkipsMean | pkg/watcher.go:184-234 | which reason a PR is skipped for |
| Runs.BatchMeans | pkg/watcher.go:78-173 | a poll works through the front part of a complete fetch, one context check in front of the processing and of each PR |
| Runs.PollEnds | pkg/watcher.go:78-106 | a poll errs iff the cursor is unreadable, and counts a failed search, a batch worked through, or nothing |
| Contracts.MarkerKeptIff | pkg/watcher.go:224-235 | a marked PR keeps its marker through a saved poll iff no observation of it ended the phase, or it was armed again behind that |
| Contracts.ClosedPRKeepsItsMarker | pkg/cursor.go:29-32 | a marked PR that a saved poll sees closed and no draft any more is still marked in the file |
| Contracts.CommandIsSound | pkg/watcher.go:324-398 | whatever the PR is called: owner/repo, which with the number is the PR's marker key, branch, head and stage; a title made of the PR's name, the slug and the suffix, cut in front of the suffix to what fits and no shorter; the vault of the first map entry that matches github.com/owner/repo, or the fixed one without a map |
| Contracts.PollCommandsAreSound | pkg/watcher.go:288-398 | every accepted command of a poll is that for its PR and the details that were read, carries the identifier pinned or of that head, and under a parsed vault map goes to a claimable vault |
| Logs.MarkersAreHistory | pkg/watcher.go:227-256 | entry by entry, the marker map after a log: armed, or marked before and never dropped; and the value held |
| Logs.MapsFollowTheLog | pkg/watcher.go:148-172 | after a batch the three maps are the folds of its event log |
| Logs.RebuiltIsWhatAdvanced | pkg/watcher.go:154-170 | the rebuilt map holds exactly the identifiers deduped, suppressed or published in the batch |
| Logs.RebuiltHoldsTheLatestHead | pkg/watcher.go:241-254 | each with the head of its last such event |
| Logs.RebuiltIsNoLargerThanTheBatch | pkg/watcher.go:154-170 | at most one entry per processed PR |
| Runs.SavedWatermarkIsTheMaximum | pkg/watcher.go:96-103 | the saved watermark is the maximum of the old one and of the updated-at of exactly those PRs of the batch that were deduped, suppressed or published |
| Retry.FoundAgainIff | pkg/githubclient.go:134-139 | under a search that answers its query truthfully, a PR that a saved poll's query was about, whatever came of it, that is unchanged and still listed is in the batch of the next poll that gets to its end iff no PR of the saved poll's batch that was deduped, suppressed or published was updated in a later second; and if one was, in no next poll's batch |
| Retry.OvertakenIsLost | pkg/watcher.go:96-98 | if something was, no later poll meets the PR through any run, until its updated-at changes |
| Retry.FailedPRIsLost | pkg/watcher.go:142-147 | for any two PRs in scope a second apart, a first start and a truthful GitHub in which the earlier PR's send fails, the other is published, the poll is saved, and the next poll finishes without the failed PR |
| Logs.ScansBalance | pkg/watcher.go:184-260 | each processed PR falls in exactly one counted class |
| Logs.PublishesBalance | pkg/watcher.go:288-320 | the create counters together count the accepted commands, the error counter the failed ones |
| Logs.PublishKindsBalance | pkg/watcher.go:314-320 | each create counter counts the publishes of its own kind |
| BatchOrder.BatchOrderDoesNotMatter | pkg/watcher.go:148-172 | for distinct PRs with fixed observations and send outcomes, any permutation of a batch gives the same cursor, counters, multiset of commands and of events |
| BatchOrder.TakesCommute | pkg/watcher.go:178-260 | processing two different PRs commutes on the whole state |
| Fetching.CompleteIff | pkg/watcher.go:110-136 | a fetch succeeds iff there is a complete chain of pages within the context's life, with exactly the page-order concatenation |
| Fetching.FailedIff | pkg/watcher.go:116-127 | it fails iff a page in front of the end is an error and is reached within the context's life |
| Fetching.RisingPagesEnd | pkg/watcher.go:116-134 | when pages only rise up to a bound, the loop ends within that many checks |
| Fetching.EndlessPagesNeverComplete | pkg/watcher.go:116-134 | when every page names a next one, only cancellation ends it |
| Polling.PollGivesUp | pkg/watcher.go:79-94 | an unreadable cursor, a failed or cancelled fetch, or a cancellation behind it leaves disk and sends untouched; only a failed search is counted |
| Polling.StepsFollowTheLog | pkg/watcher.go:178-260 | the maps, watermark, counters and commands a batch works up are those of its event log |
| Watcher.Watcher.FetchAllPRs | pkg/watcher.go:110-136 | the page loop computes the recursive fetch, with its three outcomes |
| Watcher.Watcher.ProcessPR | pkg/watcher.go:178-261 | in-place processing of one PR makes exactly the model's step on maps, watermark, counters and outbox, and what it reports as advanced is the PR's updated-at |
| Watcher.Watcher.Dispatch | pkg/watcher.go:237-260 | the dedup and publish part of it |
| Watcher.Watcher.Publish | pkg/watcher.go:288-312 | a send appends the built command and counts its status, or counts an error |
| Watcher.Watcher.ProcessPRs | pkg/watcher.go:148-172 | the batch loop, cancelled anywhere, leaves the cursor, counters and outbox of the processed front part |
| Watcher.Watcher.Poll | pkg/watcher.go:78-106 | a poll leaves exactly the disk, counters, outbox and result of the poll function |
| Cursors.LoadCursor | pkg/cursor.go:59-81 | loads a missing or corrupt file as a cold start at the start time with empty maps, missing or null maps as empty and others as they are, and fails only when unreadable |
| Cursors.SaveCursor | pkg/cursor.go:84-96 | the disk after a save that ends at any of its steps |
| Cursors.SaveIsAllOrNothing | pkg/cursor.go:83-96 | at whatever step a save stops, the next load is the saved cursor exactly, omitted markers included, or what it was before |
| Saves.TornIff | pkg/cursor.go:83-96 | over every sequence of opens, writes and renames of any number of saves sharing the temp path: the cursor file is torn at some moment iff some rename finds the temp file not written longest last since it was opened, or some write through a file another save renamed is shorter than one before it |
| Saves.SerialSavesNeverTear | pkg/cursor.go:83-96 | saves one behind another, each dying anywhere, never tear it |
| Saves.LoneSave | pkg/cursor.go:89-95 | alone, the file effects of a save are the steps SaveCursor is specified by, from any state of the two paths |
| Saves.RenameBehindOpenTears | pkg/cursor.go:89-92 | behind any effects, a rename right behind another save's open tears the file, which loads as a cold start until that save's write goes through and then as that save's cursor |
| CrashRuns.CrashSafety | pkg/cursor.go:59-96 | with crashes before, between or inside load, sends and save effects: the file is absent or holds whole what a poll completed, loads as exactly that, and each entry is backed by an accepted send for its PR |
| CrashRuns.NothingIsSuppressedUnsent | pkg/watcher.go:237-250 | in every reachable state a candidate is passed over only if its PR was already sent |
| CrashRuns.PollIsAPath | pkg/watcher.go:78-106 | every serial poll is a path of the small-step machine with the same sends and disk |
| CrashRuns.SerialRunsAreBacked | pkg/cursor.go:83-96 | hence after any run of serial polls, saved or not, each entry of the file is backed by an accepted send of that run for its PR |
| Interleaving.AtMostOneTaskPerWindow | pkg/watcher.go:142-147 | whatever polls, saves, triggers, redeliveries, crashes and cursor losses interleave, no two tasks have the same origin: one for all queued publishes of a PR at any heads and by any publisher, one per drained head; and a PR's unforced tasks number at most its drained heads, and one more if it was seen queued |
| Interleaving.EveryTaskHasItsOrigin | pkg/taskid.go:36-58 | every task was published for something seen; its identifier is that of no other PR or family; the tasks carrying an unforced identifier of a PR are exactly those counted for it, and lie among its queued identifier and those of its drained heads |
| Interleaving.OverlappingPollsSendTwice | main.go:289-295 | two polls at once, from any cursor without an entry for the PR, both send its queued command; one task is created |
| Interleaving.LateSaveCreatesASecondTask | pkg/watcher.go:101-103 | a poll that loaded earlier and saves last overwrites the other's marker: the next poll sends the drained PR and a second task arises |
| Overlap.OneTriggerIff | pkg/cursor.go:23-29 | for any schedule of loads, steps, saves, ends, crashes and cursor losses of any polls: between a queued publish at one step and an attempt for the PR at a later one, a drop is sure to lie, whatever the polls see, iff the later step's poll descends from the earlier step; the condition is computed from the schedule alone |
| Overlap.KnownPublishIsKept | pkg/watcher.go:241-257 | the sufficient half for every content, whatever a lost cursor is replaced by |
| Overlap.SuppressionIsLineage | pkg/watcher.go:237-250 | in any such schedule, why a candidate is deduped, suppressed or sent, as an equivalence on the events its poll descends from, and no others |
| Overlap.DescentPassesOn | pkg/watcher.go:78-106 | a save hands on all its poll knows in place of what was saved; a load takes over all that is saved |
| Overlap.SerialPollsKeepOneTrigger | pkg/watcher.go:224-260 | so polls that start only while none is under way keep one trigger per queued phase from the moment the publishing poll is saved, and within it |
| Interleaving.RedeliveryCreatesOneIff | main.go:268-271 | a command handled twice leads to one task iff both readings are alike as `Trigger.RedeliveryRepeatsTheIdIff` states it, and else to two |
| Interleaving.UnforcedRedeliveryCreatesTwo | pkg/command/trigger_executor.go:99-112 | an unforced command creates a second task when its queue has drained in between, and when its drained head has moved, at one clock value |
| Interleaving.ForcedRedeliveryCreatesTwo | pkg/command/trigger_executor.go:193-197 | a forced command redelivered after the clock moved creates a second task |
| Trigger.TriggerExecutor.RunTrigger | pkg/command/trigger_executor.go:75-134 | from message, answers of GitHub and clock: a command is published iff the message is valid, the details were read, the PR is a candidate, forced or not, and the send went through, and then with the identifier by force flag, head, clock and queue; it is skipped for good iff the message is invalid or the PR is rejected; it is redelivered iff details, something in front of the verdict or the send failed; and the counters of each case |
| Trigger.RunMeans | pkg/command/trigger_executor.go:75-134 | the same of the effect the other results speak about |
| Trigger.TriggerExecutor.PublishCreateCommand | pkg/command/trigger_executor.go:172-223 | the identifier by force flag, the send and its counting |
| Trigger.TriggerAgreesWithPoll | pkg/command/trigger_executor.go:43-47 | unforced, it uses the identifier a poll would use for the same observation |
| Trigger.RedeliveryRepeatsTheIdIff | pkg/command/trigger_executor.go:99-202 | over any two readings of GitHub and the clock that reach a send, a command uses one identifier iff it is forced and neither head nor clock has moved, or unforced and the PR is queued both times, or drained both times at one head |
| TaskIds.TaskIdsDetermineTheirOrigin | pkg/taskid.go:36-58 | across the SHA, queued and forced families, identifiers are equal iff PR, family and arguments are |
| TaskIds.HexIdsDetermineTheirOrigin | pkg/taskid.go:36-58 | over hexadecimal hashes, with any nonces, without further condition |
| TaskIds.KeysAreWritten | pkg/taskid.go:36-58 | the key formats, on the example of the source's documentation |
| TaskIds.TaggedKeysSplit | pkg/taskid.go:37-39 | a key splits into PR and tag in one way only |
| TaskIds.ShaMeetsQueued | pkg/taskid.go:37-40 | a SHA key equals a queued key iff the PR is the same and the hash is the word queued |
| TaskIds.ForceKeysApart | pkg/taskid.go:55-58 | a forced key equals a SHA key iff that hash is the forced hash with its nonce behind "!"; never a queued key |
| TaskIds.ForceKeysInjective | pkg/taskid.go:55-58 | forced keys determine PR, hash and nonce |
| TaskIds.MarkerKeysInjective | pkg/watcher.go:270-272 | marker keys determine the PR |
| TaskIds.DerivedIdsSeparatePRs | pkg/watcher.go:277-281 | the unforced identifiers of two PRs never meet |
| Candidate.Evaluate | pkg/darkfactory/candidate.go:98-129 | computes the decision table; keeps, fails and lacks a spec exactly as the answers of GitHub and the decoder say |
| Candidate.VerdictMeans | pkg/darkfactory/candidate.go:82-129 | every verdict, as an equivalence on those answers at the paths and the head the source reads |
| Candidate.KeptMeans | pkg/darkfactory/candidate.go:117-197 | a kept PR names each spec that counts as often as the diff lists it, and says whether a prompt waits |
| Candidate.SpecsMean | pkg/darkfactory/candidate.go:155-235 | a file counts iff it is a Markdown file of the spec directory, found at head, with a block that decodes to fields in which approved is present, not null and not blank and completed is absent, null or blank; it stops the evaluation iff it is unreadable or its block does not decode |
| Candidate.MatchedApprovedSpecsInDiff | pkg/darkfactory/candidate.go:155-197 | the approved files of the diff in order, or an error iff the listing or a spec cannot be read or decoded |
| Candidate.HasQueuedPrompts | pkg/darkfactory/candidate.go:136-150 | whether a markdown entry is listed; a 404 is none, another error an error |
| Candidate.FrontmatterSet | pkg/darkfactory/candidate.go:210-219 | set means present, not null and not a text of white space |
| Candidate.KeptIff | pkg/darkfactory/candidate.go:82-129 | kept iff open, draft, config present, readable diff with an approved spec, and no failing prompt listing; matches and queued flag exact |
| Candidate.FailedIff | pkg/darkfactory/candidate.go:96-129 | an error is returned iff one is met in front of the verdict |
| Candidate.DropVerdictIff | pkg/darkfactory/candidate.go:98-119 | when exactly the two phase-ending verdicts are given |
| Candidate.ApprovedSpecsAreTheFilter | pkg/darkfactory/candidate.go:172-196 | each approved file is matched as often as the diff lists it, others never |
| Candidate.ApprovedSpecsKeepOrder | pkg/darkfactory/candidate.go:172-196 | matches keep diff order |
| Frontmatter.BlockRoundTrip | pkg/darkfactory/candidate.go:223-233 | cutting the printed form gives back the block iff it holds no fence and, with its line end, no CRLF |
| Frontmatter.BlockIff | pkg/darkfactory/candidate.go:223-233 | a text has a block iff, its line ends normalised, it opens with a fence line and has another fence; the block ends at the first one |
| Frontmatter.CRLFCheckoutParsesAlike | pkg/darkfactory/candidate.go:224-224 | writing every LF as CRLF does not change the block |
| Frontmatter.NormalizeUndoesCRLF | pkg/darkfactory/candidate.go:224-224 | normalisation undoes such a rewrite of any text |
| Filename.SlugifyTitle | pkg/filename.go:94-113 | the loop computes the lowercase alphanumeric runs joined by hyphens, cut and trimmed |
| Filename.SlugNormalForm | pkg/filename.go:85-93 | within the cap, no edge or double hyphen, idempotent, and a smaller cap gives a prefix |
| Filename.SlugIsLongest | pkg/filename.go:107-111 | the capped slug is the longest front part of the full one that is a slug within the cap |
| Filename.SlugOfParts | pkg/filename.go:94-106 | the full slug of a title of letters and digits is the title lowercased, and any other character puts one hyphen between the slugs of its two sides, or none where one is empty |
| Filename.FullSlugKeepsLetters | pkg/filename.go:98-106 | no letter or digit is lost or moved before the cut |
| Filename.ComputeTaskFilename | pkg/filename.go:38-83 | base and slug within what room the suffix leaves, then the suffix |
| Filename.SuffixSurvives | pkg/filename.go:63-82 | the suffix always ends the name; the cap holds whenever the suffix fits; only the suffix is left iff there is no room beside it |
| Filename.FilenameIs | pkg/filename.go:45-82 | the filename, spelled out, is PR name and slug cut to what room the suffix leaves, and no shorter, then the whole suffix |
| Filename.OnlyTheSlugIsCut | pkg/filename.go:34-36 | while base and suffix fit, only slug text is cut, and none if all fits |
| Filename.FilenameIsSafe | pkg/filename.go:28-29 | no slash, colon or '#', whatever the title |
| VaultMap.Parse | pkg/vaultmap/vaultmap.go:52-93 | a map is refused iff some part between commas is not blank and has no "=", a blank glob or vault, a negated glob or a vault outside the slug language, or the collected globs are refused; it is none iff all parts are blank; else it has the entries in order |
| VaultMap.ParseMeans | pkg/vaultmap/vaultmap.go:52-93 | the same of the parse the round trip is about |
| VaultMap.ParseInvertsPrint | pkg/vaultmap/vaultmap.go:39-51 | any layout of well-formed entries, with white space and empty parts anywhere, parses to those entries in order |
| VaultMap.ResolvedVaultsAreSlugs | pkg/vaultmap/vaultmap.go:24-27 | every vault ever resolved, the default included, matches the slug language |
| VaultMap.VaultForIsFirstMatch | pkg/vaultmap/vaultmap.go:104-113 | the first matching entry, or the default when none matches |
| VaultMap.AppendingEntriesIsSafe | pkg/vaultmap/vaultmap.go:43-44 | appended entries change exactly the keys nothing matched before |
| PeekedBody.LogNon2xxResponse | pkg/non2xx_log.go:45-63 | a 2xx is untouched; else exactly the first 4096 bytes, or all in front of the end or a failure, leave the original body and are logged and buffered, and the body handed back has exactly the original's bytes and end |
| PeekedBody.ReadAllLimited | pkg/non2xx_log.go:52-56 | what the peek takes, what it leaves, and which error it keeps, for any chunking and any reader |
| PeekedBody.Peeked.Read | pkg/non2xx_log.go:57-79 | reading the restored body obeys the reader contract on its contents, for any buffer size, and makes progress |
| PeekedBody.Drain | pkg/non2xx_log.go:41-44 | draining it with any buffer sizes yields the bytes and the end |
| PeekedBody.CallersSeeTheContent | pkg/non2xx_log.go:41-44 | any caller of any reader with given contents sees a front part of the bytes, and on an error all of them and that error |

## Left out

- GitHub's HTTP calls, authentication, rate-limit fields and `parseOwnerRepo`: network client; its answers are inputs.
- Kafka, the CQRS framework, HTTP server, ticker and environment parsing: plumbing; kept are that a poll may start at any time and a command may be redelivered.
- YAML decoding, JSON syntax, SHA-1 and UUID bits, Unicode lowercasing and time-zone formatting: library internals, inputs or free constructors here.
- `repoallowlist`, `prurl` and the scope filter: external or one line; inputs here.
- `pkg/memdb.go`, metric registration, log lines, `bodySnippet`, and the prose of a command's body and frontmatter: no hard property lives there.
- Closing a restored body, which is the original body's close.
- One evaluation reads the same answer for the same path each time; a file listed twice in a diff is judged alike twice.
- Interleaving.AtMostOneTaskPerWindow: assumes, as `pkg/watcher.go:142-147` does, a controller that never forgets an identifier; a PR re-armed after a drop is sent again under the same queued identifier and gets no second task from such a controller.
- CrashRuns.CrashSafety: starts from a missing cursor file; entries written by an earlier version of the watcher have no recorded sends.
- Runs.OneTriggerPerQueuedPhase: serial polls only; overlapping ones are in `Overlap`.
- Overlap.OneTriggerIff: about pairs of poll steps; triggers do not read the cursor and are bounded by identifiers alone, in `Interleaving`.
- Saves.TornIff: a write is one step, and a save that dies writes all of its document or nothing; documents in pieces are not modelled.
- Retry.FoundAgainIff: takes GitHub's search as truthful and up to date; its index lags in practice.
- Filename.ComputeTaskFilename: takes the slug cap as non-negative, which start-up enforces (`main.go:42-58`).
