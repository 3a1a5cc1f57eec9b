# Verified model of the Hermes session protocol

`hermes_m0` answers a language model's questions about one frozen report. It hands out opaque
references and cursors instead of identifiers, keeps them across crashes and restarts, executes every
tool call at most once, and shows frozen data in bounded pieces. This project models that protocol in
Dafny and proves what it promises.

| module | what it models |
|---|---|
| `Wrappers`, `Arguments`, `Tokens`, `Lines`, `Sorting`, `Sublists`, `Sums` | shared vocabulary: outcomes, argument checks, printed references, text lines, sorted and filtered lists, sums over sets |
| `ToolResults`, `ToolExecutionLedger` | tool results with their references, and the row per tool call: concurrent callers, exceptions, process death, orphan fencing |
| `ReportTaskRefs`, `ReferenceAnswers` | session scopes and generations, staged and published references, cursors, interleaved batches |
| `ReferenceState`, `SessionStore` | saving a session, loading it into another process, adopting old references |
| `CheckpointedExecution`, `CheckpointedNavigation` | ledger and references together, over crashes, and with the tools of a report on top |
| `TranscriptMatcher` | matching an old tool result with a fresh one up to a renaming of references |
| `NavigationTokens`, `ConversationHistory` | finding references in text, and the history a model gets after a restart |
| `FrozenComments`, `LoadedComments` | the comments of a published report, from the snapshot payloads, and what each field of them is |
| `CommentBatches`, `CommentDelivery`, `CommentCalls` | comments delivered in batches that only completed turns acknowledge, by state and by the strings of the calls |
| `CommentPrinter`, `CommentRendering`, `PageReading`, `CommentMarkdown` | untrusted comments printed as Markdown, and what a reader finds |
| `SearchBudget`, `SearchWalks` | discovery of risk posts under a budget per turn, and what a caller who follows the cursors sees |
| `Navigation`, `NavigationListings`, `NavigationRuns`, `NavigationRestarts`, `NavigationCommits` | which tool shows which object, who accepts it, over runs, restarts and single calls |
| `FrozenGraph`, `FixtureContents`, `FrozenReport`, `LoadedNavigation`, `LoadedFixture`, `ListedOnce` | the graphs this relies on: fixtures, the loader, and what the two guarantee |
| `AccountActivityRefs`, `AccountPaging`, `AccountNavigation`, `AccountListing` | references, cursors, lists and navigation over accounts |
| `CorpusViews`, `SnapshotAccounts`, `UnknownAuthors` | the corpora that these read, built or taken from report snapshots, and one in which a reference is shown and never read |
| `ReportAccountStatistics`, `AccountRanking`, `ReportComparison` | counts, ranks and comparisons of the accounts of reports |
| `AccountCorpus`, `CorpusLists`, `CorpusBuilder`, `CorpusContents`, `CorpusValidity`, `AccountOverview`, `CorpusActivities` | the account corpus: builder, contents, validation, indexes, distributions, and what the report counts read of it |

How the model is built:

- Every component that changes state is a value with one function per operation, and a class or method
  whose contract equates its new state with that function. Protocols are state machines over such
  values; their results are lemmas about every run.
- What the central functions compute is stated a second time without them, in terms of arguments, tables
  and stored fields: in `CommentCalls`, `SearchWalks`, `LoadedComments`, `PageReading`, `NavigationListings`,
  `ReferenceAnswers`, `CorpusContents` and `FixtureContents`.
- A SHA-256 digest, with the JSON it is taken of, is read as a free and therefore injective
  constructor. A saved state is replaced atomically or not at all. A reference is the printed text
  that the registries allocate, and its injectivity is proved (`Tokens.TokenInjective`).
- Concurrency is interleaving: of the ledger's transactions, and of single exposures and commits.
  One process writes a session at a time.
- The report behind a service never changes; only a forced rebind opens a new generation.

What the proofs found out about the code:

- Two sessions of one service object share one counter and one nonce, but each session saves the counter
  it saw. After a restart one session can be handed a reference that the other one still owns, and loses
  it when the other session is loaded (`ReferenceState.SharedCounterCollision`); the same happens to a
  cursor alone (`ReferenceState.SharedCursorCollision`). `ReferenceState.LoadSparesOthersIff` gives the
  exact condition under which a load leaves all references and cursors of other sessions working. The
  adapter in backend/hermes_runtime/adapter.py:479-492 builds a service, and so a registry, for every
  session, so it never meets the case; the service itself allows it.
- Replacing references in a user's message can uncover a reference that was hidden before
  (`NavigationTokens.ReplacementUncovers`); `ConversationHistory.RebuiltMentionsUsableIff` gives the
  exact condition under which a rebuilt history mentions only working references.
- `render` splits comments at newlines, and Markdown also ends lines at carriage returns. Text behind a
  carriage return that stands alone leaves its quote (`CommentMarkdown.LoneReturnLeavesQuote`);
  `CommentMarkdown.MarkdownReadsBackIff` shows that nothing else changes which lines are quoted.
- Over a published report `can_continue_this_turn` is never true, because a page takes all that is left
  of the turn's budget (`SearchBudget.RealReportNeverContinues`).
- A corpus that the builder accepts fails its own validation exactly when a comment is older than its
  post (`CorpusValidity.BuiltIsValidIff`, with a source in `CorpusValidity.EarlyCommentIsInvalid`).
- The reader of an occurrence and the list of an account's occurrences look up the name of the author of
  a comment's post, and that author may be unresolved. The reference of such a comment is shown, among
  others by the list of a post's risk comments, and `read_account_occurrence` always refuses it. An
  occurrence reference can be read exactly if it is a post's or the author of its comment's post is known
  (`AccountNavigation.OccurrenceReadIff`). A list of comments is enumerated to its end exactly if it has no
  such comment, and else never gets past the first one (`AccountListing.OccurrencesEnumeratedIff`). A valid
  corpus in which this happens is in `UnknownAuthors.ShownIsRefused` and `UnknownAuthors.ListIsStuck`.
- The validation of a fixture compares the snapshot's post ids as a set, so a repeated id passes
  (`FrozenGraph.OrderedPostsListOnceIff`). A first search that lists the post twice then fails in its own
  commit, with nobody else involved (`ListedOnce.RepeatedPostBreaksSearch`). Loaded reports never repeat
  an object (`ListedOnce.LoadedListsOnce`).
- The loader's relations do not imply the fixture validation that follows them
  (`LoadedFixture.LoadedFixtureIsValidIff`). It still refuses equal payload hashes, a post that represents
  two of the shown findings (`LoadedFixture.SharedRepresentativeIsRefused`), an unknown decision or
  level, and a manifest whose decision or risk counts are not those of the findings
  (`LoadedFixture.MiscountedIsRefused`). The store counts a finding without a decision under an empty key
  and the loader reads it as `pass`, so a snapshot with the store's counts is consistent exactly when no
  finding lacks a decision or a level (`LoadedFixture.StoredCountsAgreeIff`).

## Model

| member | source | states |
|---|---|---|
| `Tokens.TokenInjective` | hermes_m0/report_task_refs.py:471-491 | two allocated references print alike only if prefix, counter and nonce agree |
| `ToolExecutionLedger.RunKeepsInv` | hermes_m0/ledger.py:41-115 | over any interleaving of callers, exceptions, crashes and recoveries: who runs owns the only running row of its key, and every reply fits its row |
| `ToolExecutionLedger.RowsAreAbsorbing` | hermes_m0/ledger.py:163-231 | tool and fingerprint of a row never change; a completed or interrupted row never changes again |
| `ToolExecutionLedger.TransactionsSettle` | hermes_m0/ledger.py:108-231 | every transaction keeps what a row is bound to and leaves completed and interrupted rows as they are; after a recovery no row runs |
| `ToolExecutionLedger.AtMostOnce` | hermes_m0/ledger.py:41-106 | no run starts the tool of one (session, tool call) twice |
| `ToolExecutionLedger.LaterCallsReplay` | hermes_m0/ledger.py:63-70 | after any caller got a real result, every later matching call gets exactly that result and starts nothing |
| `ToolExecutionLedger.ResultsAgree` | hermes_m0/ledger.py:93-106 | two real results for one tool call are the same |
| `ToolExecutionLedger.OrphansStayFenced` | hermes_m0/ledger.py:108-115 | a call that was running at a crash is refused as interrupted for ever and was started once |
| `ToolExecutionLedger.SettledAsTheToolEnded` | hermes_m0/ledger.py:93-106 | in every reachable state: a caller whose row still runs is answered with the text its tool returned and the row keeps that text; another value and an exception interrupt the row; a row that a recovery took away stays as it is and its caller gets no result |
| `ToolExecutionLedger.FirstCallIsAnswered` | hermes_m0/ledger.py:41-106 | whatever other callers do meanwhile, a call that was never made before and whose tool returns a text is answered with it, unless a crash or a recovery comes in between; every later matching call in any later state is answered with it, too |
| `ToolExecutionLedger.Ledger.Begin` | hermes_m0/ledger.py:163-206 | inserts a running row, or answers with the row there is, or with a conflict |
| `ToolExecutionLedger.Ledger.Complete` | hermes_m0/ledger.py:208-220 | completes the running row with the text, and reports a lost row |
| `ToolExecutionLedger.Ledger.MarkInterrupted` | hermes_m0/ledger.py:222-231 | interrupts the row only while it runs |
| `ToolExecutionLedger.Ledger.Execute` | hermes_m0/ledger.py:41-106 | without interference `execute` is the run enter, call, settle of the state machine; in terms of outcome and row: a first call is answered as its tool ends and its row keeps the result, a later one as its row says and changes nothing |
| `ReportTaskRefs.NextTokenIsNew` | hermes_m0/report_task_refs.py:471-491 | a token allocated next differs from every token already spent |
| `ReportTaskRefs.ResolvedIsCurrent` | hermes_m0/report_task_refs.py:227-266 | a reference resolves exactly if it was issued under the session's current scope, with the kind asked for |
| `ReportTaskRefs.PublishSucceedsIff` | hermes_m0/report_task_refs.py:504-515 | a commit reaches its end exactly if no record meets another token under its object key, in the index or earlier in the batch |
| `ReportTaskRefs.RunKeepsInv` | hermes_m0/report_task_refs.py:90-146 | over any interleaving of binds, batches, broken-off commits and cursors: the registry invariant holds, references keep scope, kind and object, objects keep their token |
| `ReportTaskRefs.ReachableRegistryIsValid` | hermes_m0/report_task_refs.py:149-208 | every object key leads to a record of exactly that session, generation, kind and object, and no object has two tokens |
| `ReportTaskRefs.ReferencesLast` | hermes_m0/report_task_refs.py:227-266 | a reference that resolves keeps resolving to the same object until its session gets a new scope, and never after |
| `ReportTaskRefs.StaleForever` | hermes_m0/report_task_refs.py:164-208 | a reference of an older generation never resolves again in any run |
| `ReferenceAnswers.BindTells` | hermes_m0/report_task_refs.py:164-208 | the scope stays exactly for the same binding without a forced generation; else its generation is one more, or the first |
| `ReferenceAnswers.ForcedBindEndsReferences` | hermes_m0/report_task_refs.py:195-208 | after a forced bind no earlier reference of the session resolves in any later state, and those of other sessions resolve as before |
| `ReferenceAnswers.ResolveTells` | hermes_m0/report_task_refs.py:227-266 | over a valid registry every reference is answered with its record or refused as unknown, foreign, stale or of the wrong kind, each exactly when it is |
| `ReferenceAnswers.SearchCursorTells` | hermes_m0/report_task_refs.py:328-378 | a search cursor is followed exactly by its own session, in its generation, for its query over the same candidates |
| `ReferenceAnswers.CommentCursorTells` | hermes_m0/report_task_refs.py:409-459 | a comment cursor is followed exactly by its own session, in its generation, for its post over the same comments |
| `ReferenceAnswers.ExposeTells` | hermes_m0/report_task_refs.py:99-141 | showing an object stages its published token with its old origins and the new one, or a new token of its kind; everything else that is staged stays |
| `ReferenceAnswers.CommitTells` | hermes_m0/report_task_refs.py:493-515 | a commit publishes exactly the staged records before the first conflict and changes nothing else; nothing the second time and nothing under a changed scope |
| `ReportTaskRefs.ReferenceRegistry.BindScope` | hermes_m0/report_task_refs.py:164-208 | keeps the scope for the same binding, else opens the next generation |
| `ReportTaskRefs.ReferenceRegistry.IssueSearch` | hermes_m0/report_task_refs.py:299-326 | stores exactly one search cursor under a newly allocated token |
| `ReportTaskRefs.ReferenceRegistry.IssueComments` | hermes_m0/report_task_refs.py:380-407 | stores exactly one comment cursor under a newly allocated token |
| `ReportTaskRefs.ReferenceRegistry.CommitRecords` | hermes_m0/report_task_refs.py:493-515 | publishes in order, refuses a changed scope as a whole, and stops at the first conflict leaving what went before |
| `ReportTaskRefs.ReferenceBatch.ExposeObject` | hermes_m0/report_task_refs.py:99-141 | reuses the published token of an object and adds the origin, or stages a record under a new token |
| `ReportTaskRefs.ReferenceBatch.CommitOnce` | hermes_m0/report_task_refs.py:143-146 | commits the staged records at most once |
| `ReferenceState.RestoreKeepsAnswers` | hermes_m0/reference_state.py:47-87 | after save and load into a fresh process every resolve and cursor call of the session has the same answer; another session's reference is unknown instead of foreign |
| `ReferenceState.RestoredIndex` | hermes_m0/reference_state.py:83-87 | the rebuilt object index covers exactly the restored objects and leads to live references, whatever the order of the saved list |
| `ReferenceState.RestoredTokensAreSpent` | hermes_m0/reference_state.py:76-78 | nothing allocated after a load equals a restored token |
| `ReferenceState.RestoreIsIdentity` | hermes_m0/reference_state.py:47-87 | for a single session without aliases, save and load give back the same registry |
| `ReferenceState.ReloadKeepsInv` | hermes_m0/reference_state.py:56-87 | loading an earlier state of the same session into the running process takes nothing away |
| `ReferenceState.LoadSparesOthersIff` | hermes_m0/reference_state.py:76-87 | loading one session leaves every reference, search cursor and comment cursor of all others working if and only if no loaded token is one that another session can still resolve |
| `ReferenceState.SharedCounterCollision` | hermes_m0/reference_state.py:47-53 | two sessions bound to one service object: both saved states are dumps of registries that ordinary calls reach, and in the next process loading one session takes a reference from the other |
| `ReferenceState.SharedCursorCollision` | hermes_m0/reference_state.py:79-82 | the same for comment cursors, as a run of two processes: loading one session takes a cursor from the other while all its references keep working |
| `ReferenceState.DumpIsWellformed` | hermes_m0/reference_state.py:47-53 | every saved state has one entry per token, as the condition on loading assumes |
| `ReferenceState.AliasResolvesAlike` | hermes_m0/reference_state.py:354-366 | an adopted old token resolves like the token it was matched with |
| `ReferenceState.AdoptAllIff` | hermes_m0/reference_state.py:354-366 | all pairs of one verified result, references and cursors, are adopted if and only if no old token already stands for something else; then every old token stands for what its fresh token stands for |
| `ReferenceState.AliasBreaksUniqueness` | hermes_m0/reference_state.py:354-366 | after adoption two tokens name one object |
| `ReferenceState.UnionHas` | hermes_m0/reference_state.py:356-360 | an adopted token has the origins of both records, the old ones first |
| `ReferenceState.LoadState` | hermes_m0/reference_state.py:56-87 | the loops of a load compute the specified registry, and a refused load changes nothing |
| `ReferenceState.LoadAcceptsIff` | hermes_m0/reference_state.py:56-79 | a saved state is loaded if and only if it is of this one session under its current binding and has no entry of another; the counter is then the larger of the two |
| `ReferenceState.DumpState` | hermes_m0/reference_state.py:47-53 | lists exactly the session's records and cursors, with counter and nonce |
| `SessionStore.BindKeepsOk` | hermes_m0/report_task_service.py:116-193 | after bind and restore the session holds all it held and all that was saved, under the saved scope |
| `CheckpointedExecution.RunKeepsInv` | hermes_m0/report_task_service.py:195-224 | over any run of callers, registry activity, failed saves, crashes, rebinds and resets: completed rows mention only saved references |
| `CheckpointedExecution.CompletedMeansSaved` | hermes_m0/report_task_service.py:213-217 | in every reachable state each reference of a completed row is in the saved state and stands there for what it stood for when it was returned |
| `CheckpointedExecution.CheckpointDecides` | hermes_m0/report_task_service.py:195-207 | in every reachable state a call whose tool has returned and whose row still runs is answered with what the tool returned if the references could be saved, and then they are; else the row is interrupted, the call raises and nothing is saved |
| `CheckpointedExecution.ReplayedReferencesWork` | hermes_m0/report_task_service.py:116-193 | after a crash at any point, recovery and rebind, a completed result is unchanged and each of its references resolves to the same object if and only if no newer generation was saved |
| `CheckpointedNavigation.RunKeepsInv` | hermes_m0/report_task_service.py:195-224 | over any run in which the tools of a report work exposure by exposure under checkpoints, crashes, rebinds, reloads and resets: memory and saved state keep only references that their consumers accept |
| `CheckpointedNavigation.ReplayedReferencesAreAccepted` | hermes_m0/report_task_service.py:116-193 | after a crash at any point of such a run, a completed result is unchanged and each of its references is accepted by every tool that consumes it, for the same object, if and only if no newer generation was saved |
| `TranscriptMatcher.MatcherIsExact` | hermes_m0/reference_state.py:338-349 | the comparison succeeds exactly if one renaming of strings takes the old result to the fresh one, and returns that renaming on the visited strings |
| `TranscriptMatcher.CompareDecides` | hermes_m0/reference_state.py:340-350 | for any proposed substitution and any renaming, comparison and renaming agree, subtree by subtree |
| `TranscriptMatcher.LeavesEqualIff` | hermes_m0/reference_state.py:350-350 | values other than lists and objects are equal if they are the same, and true and false are also 1 and 0 |
| `TranscriptMatcher.RenamingReproducesIff` | hermes_m0/reference_state.py:216-223 | replacing tokens in the matched old result gives the fresh one if and only if no string compared as plain text is a renamed token |
| `NavigationTokens.SubLeavesUncovered` | hermes_m0/reference_state.py:226-226 | the references left in a text after the replacement are exactly those that the replacement uncovers |
| `NavigationTokens.ReplacementUncovers` | hermes_m0/reference_state.py:262-264 | a concrete text in which replacing the one visible reference uncovers another |
| `NavigationTokens.FoundIsShaped` | hermes_m0/reference_state.py:226-226 | whatever is found in a text is a known prefix, digits, an underscore and six hexadecimal digits |
| `NavigationTokens.IssuedIsFound` | hermes_m0/reference_state.py:226-226 | every reference of any kind and counter, in quotes as JSON has it, is found in any text, and nothing else is lost or gained |
| `ConversationHistory.PrefixesAreKnown` | hermes_m0/reference_state.py:226-226 | every reference and cursor that the two registries allocate has one of the prefixes that are looked for |
| `ConversationHistory.IsStale` | hermes_m0/reference_state.py:252-256 | the scan reports a stale history exactly if some reference of an assistant or tool message does not work |
| `ConversationHistory.Prepare` | hermes_m0/reference_state.py:229-291 | the history is returned unchanged if all its references work, and rebuilt otherwise; by the tables alone: rebuilt if an assistant or tool message mentions a token that no table has under the current scope, unchanged if every such token has one table and is current there; what is returned mentions only current references in such messages |
| `ConversationHistory.UsableMeansResolves` | hermes_m0/reference_state.py:240-248 | a report reference is usable exactly if the registry resolves it |
| `ConversationHistory.UsableIffCurrent` | hermes_m0/reference_state.py:240-248 | a token of one table works if and only if that table of the report or account registry has it under the session's current scope; a token that no table has so never works |
| `ConversationHistory.RebuiltMentionsReport` | hermes_m0/reference_state.py:259-291 | the assistant and tool messages of a rebuilt history mention exactly what the report that was read again mentions |
| `ConversationHistory.RebuiltAt` | hermes_m0/reference_state.py:259-291 | where each message of a rebuilt history stands: user texts and notices in turn, then the call, the report and the closing text |
| `ConversationHistory.UsersAreKept` | hermes_m0/reference_state.py:259-270 | a rebuilt history has every user message, in order, changed only by the replacement |
| `ConversationHistory.RebuiltMentionsUsableIff` | hermes_m0/reference_state.py:259-291 | a rebuilt history mentions only working references if and only if every uncovered reference works |
| `ConversationHistory.RebuiltMayMentionStale` | hermes_m0/reference_state.py:262-264 | a concrete history whose rebuilt form mentions a reference that does not work |
| `CommentBatches.SelectIsFilter` | hermes_m0/pass_support.py:537-541 | a filter keeps exactly the matching comments |
| `CommentBatches.SelectKeepsOrder` | hermes_m0/pass_support.py:537-541 | a filter keeps the frozen order |
| `CommentCalls.CallIsAnswered` | hermes_m0/comment_batches.py:151-213 | after any run, by the strings of the call: "start" stores and announces the comments that the named filter asks for from the first one on, "continue" those after the progress of this post and filter, and is refused without one; a second call in a turn repeats the receipt or is refused |
| `CommentCalls.CallIsRefused` | hermes_m0/comment_batches.py:151-171 | after any run, every call that is not in order (limit, turn, action, filter name, reference) is refused and changes neither the deliveries nor the registry |
| `CommentCalls.RefusalTells` | hermes_m0/comment_batches.py:152-171 | which refusal goes first |
| `Arguments.StripTakesSpace` | hermes_m0/service.py:444-447 | an argument is taken without the white space at both ends, all of it, and nothing else |
| `CommentCalls.CallsShowAll` | hermes_m0/comment_batches.py:172-213 | after any run, a row of calls, "start" and then "continue", in turns that are completed and acknowledged, over failing saves, shows the comments that the filter names ("all", "risk", "no_risk", "unknown", by audit status and risk level), each once and in the frozen order |
| `CommentBatches.FiltersPartitionIff` | hermes_m0/pass_support.py:631-641 | over any comments the three audited filters never overlap, and show every comment if and only if no completed comment has a level outside the four known ones |
| `FrozenComments.Index` | hermes_m0/real_report_repository.py:1638-1648 | groups the entries by normalised identity in their order; refused exactly for an empty identity |
| `FrozenComments.ProjectComments` | hermes_m0/real_report_repository.py:1650-1718 | refuses exactly an empty identity, a bad status or level, or a bad time; else one comment per identity, each the projection of its first raw and compact entry, in the order of time and identity |
| `LoadedComments.DepictsIff` | hermes_m0/real_report_repository.py:1653-1716 | a comment is projected exactly as its forms say: each field from the first raw form of the identity if that says something, else from the first compact form; status and level in lower case are known ones, or missing as the loader allows |
| `LoadedComments.LoadsIff` | hermes_m0/real_report_repository.py:1638-1681 | the comments of a report are loaded if and only if every identity has an acceptable comment and, under the all-pass templates, none has a risk |
| `LoadedComments.LoadedIsShown` | hermes_m0/pass_support.py:631-641 | the delivery of a loaded report shows, per post and filter, exactly the comments that the forms say with the status and level that the filter names |
| `LoadedComments.LoadedIsOrdered` | hermes_m0/real_report_repository.py:1718-1718 | loaded comments stand in the order of their times, and of their identities at one time |
| `Sorting.StringOrderIs` | hermes_m0/real_report_repository.py:1718-1718 | strings are ordered by the codes of the first characters in which they differ, a prefix first |
| `FrozenComments.ProjectionIsDetermined` | hermes_m0/real_report_repository.py:1718-1718 | the payload determines the projected comments and their order |
| `FrozenComments.LoadComments` | hermes_m0/real_report_repository.py:820-835 | the loop over posts, the sort of the flat list and the filter by post give each post exactly its own projected comments; refused exactly for a bad payload or a risk comment under an all-pass template |
| `FrozenComments.PostGetsItsComments` | hermes_m0/real_report_repository.py:280-287 | the view by post of the sorted flat list is the sorted projection of that post's payload |
| `FrozenComments.ProjectedLevelIsKnown` | hermes_m0/real_report_repository.py:1664-1676 | every projected comment has one of five statuses, and an unknown level only while its audit is not completed |
| `FrozenComments.LoadedFiltersPartition` | hermes_m0/pass_support.py:631-641 | `risk`, `no_risk` and `unknown` partition the comments of every post of every loaded report |
| `FrozenComments.LoadedMatchesAreDistinct` | hermes_m0/pass_support.py:537-541 | what a query over a loaded report pages through has every matching comment of the payload, each identity once |
| `FrozenComments.ProjectedAuthorIsPlain` | hermes_m0/real_report_repository.py:1708-1708 | no projected author name has a carriage return |
| `CommentBatches.PageAtSlices` | hermes_m0/pass_support.py:559-570 | a page is the slice at its offset, with a cursor to the next offset exactly when more follows |
| `CommentBatches.PrepareStores` | hermes_m0/comment_batches.py:170-213 | a new turn gets the slice right after the progress of its query, or the first one; nothing refuses it |
| `CommentBatches.PrepareKeepsDeliveryOk` | hermes_m0/comment_batches.py:151-213 | preparing keeps: pages are slices, cursors are live, nothing is prepared beyond what was shown |
| `CommentBatches.AcknowledgeKeepsDeliveryOk` | hermes_m0/comment_batches.py:216-225 | acknowledging a completed turn keeps the same invariant and backs the progress by that page |
| `CommentBatches.AcknowledgeTells` | hermes_m0/comment_batches.py:216-225 | only the first acknowledgement of a turn counts: it moves the progress of its query to its page and changes nothing else |
| `CommentBatches.RepairKeepsDeliveryOk` | hermes_m0/comment_batches.py:231-238 | dropping synthetic pages loses nothing that was shown |
| `CommentBatches.ReceiptIsExact` | hermes_m0/comment_batches.py:196-205 | a receipt's numbers describe the stored slice: matched, shown range, remaining, more |
| `CommentBatches.ReadBackIsExact` | hermes_m0/comment_batches.py:112-139 | a position can be read back exactly if an acknowledged batch shows it, and then it is the frozen comment at that position |
| `CommentBatches.BatchesJoin` | hermes_m0/comment_batches.py:151-225 | consecutive batches of any sizes show one stretch of the frozen comments, without gap or repetition |
| `CommentBatches.BatchesShowAll` | hermes_m0/comment_batches.py:151-225 | from start, enough batches show every matching comment once and in order |
| `CommentDelivery.RunKeepsInv` | hermes_m0/comment_batches.py:151-241 | the delivery invariant holds in memory and on disk over any run with failed saves, crashes, rebinds, resets, and synthetic pages left by earlier versions and their repair |
| `CommentDelivery.ProgressMeansDelivered` | hermes_m0/comment_batches.py:216-241 | after any run every position up to a query's progress was shown by a completed turn and can be read back as the frozen comment, in memory and in the saved state |
| `CommentDelivery.SavedIsNotLost` | hermes_m0/reference_state.py:114-158 | after any run: once a step that changed the deliveries could save what it left, a crash, a bind and a reload give back exactly these deliveries and references |
| `CommentDelivery.NextBatchIsServed` | hermes_m0/comment_batches.py:177-213 | after any run a new turn is answered with exactly the next stretch; a stored cursor is never refused |
| `CommentDelivery.CommentSession.ReadBatch` | hermes_m0/comment_batches.py:151-213 | computes the specified page and receipt, saves, and keeps the page in memory when the save fails |
| `CommentDelivery.CommentSession.AcknowledgeTurn` | hermes_m0/comment_batches.py:216-225 | moves the progress to the page of the turn once, and saves |
| `CommentDelivery.CommentSession.Reconcile` | hermes_m0/comment_batches.py:228-241 | drops synthetic pages and acknowledges completed turns in some order; if no save fails, no completed turn is left unacknowledged |
| `CommentPrinter.LiteralIsPrint` | hermes_m0/comment_batches.py:244-247 | the three passes of `_literal` equal one pass per character |
| `CommentPrinter.LiteralReadsBack` | hermes_m0/comment_batches.py:244-247 | undoing backslash escapes and entities (CommonMark sections 2.4 and 2.5) recovers every line, for every reader that knows the three entities |
| `CommentPrinter.LiteralIsInjective` | hermes_m0/comment_batches.py:244-247 | two lines print alike only if they are equal |
| `CommentPrinter.LiteralHidesSpecials` | hermes_m0/comment_batches.py:244-247 | no character of the class is left without a backslash, and no angle bracket is left |
| `CommentPrinter.SpecialIff` | hermes_m0/comment_batches.py:244-247 | the characters that get a backslash are those that the pattern lists |
| `CommentRendering.Render` | hermes_m0/comment_batches.py:250-273 | the loop builds the specified page text; an unknown turn gives nothing |
| `CommentRendering.PageReadsBack` | hermes_m0/comment_batches.py:260-273 | where newlines alone end lines, the quoted lines of a page are exactly the lines of its comments, in order, and read back they are the stored text |
| `PageReading.PageTells` | hermes_m0/comment_batches.py:250-273 | a page read line by line gives its title with filter and counts, then of every comment, in order, its number, its author, the word for its audit, its lines and its time, and at the end whether more can be asked for |
| `PageReading.EmptyPageTells` | hermes_m0/comment_batches.py:255-257 | a page without comments says whether none match, or how many were shown before |
| `CommentMarkdown.MarkdownReadsBackIff` | hermes_m0/comment_batches.py:264-266 | where carriage returns end lines too, the quoted lines are exactly the lines of the comments if and only if no comment has a carriage return without a newline behind it |
| `CommentMarkdown.QuotesAtMost` | hermes_m0/comment_batches.py:264-266 | however the comments are written, a page has no more quoted lines than its comments have newline-separated lines |
| `CommentMarkdown.LoneReturnLeavesQuote` | hermes_m0/comment_batches.py:264-266 | a concrete comment whose text stands unquoted behind an empty line |
| `Lines.JoinOfSplit` | hermes_m0/comment_batches.py:266-266 | joining the lines of a comment gives its text back, so the quoted lines determine it |
| `SearchBudget.TotalIsUsage` | hermes_m0/report_task_service.py:932-956 | without a bind, what a turn got is exactly what its usage record says |
| `SearchBudget.TurnStaysInBudget` | hermes_m0/report_task_service.py:932-956 | between two binds no turn of any run gets more than twenty candidates and three continuations |
| `SearchBudget.FreshServiceIsWithinBudget` | hermes_m0/report_task_service.py:96-96 | a service that was just started is within every budget |
| `SearchBudget.ContinuationIsServed` | hermes_m0/report_task_service.py:972-994 | after an announced continuation the call with that cursor and the same goal is not refused and returns the next candidates, at least one, whatever happens in between other than a bind of the session or a result for the same turn |
| `SearchWalks.SearchFinds` | hermes_m0/report_task_service.py:894-988 | whatever a search finds are risk posts with the level and decision that the call names: the page from its offset, as long as page limit and budget allow, with a cursor exactly if more follow |
| `SearchWalks.CursorsEnumerateRiskPosts` | hermes_m0/report_task_service.py:894-988 | a caller who follows the cursors, in turns that have budget left and over whatever else happens but a bind of the session, sees exactly the risk posts with the named level and decision, each once and in the frozen order |
| `SearchWalks.SearchRefusedIff` | hermes_m0/report_task_service.py:933-955 | a call in order is refused if and only if its turn has got twenty candidates, or follows a cursor after three continuations |
| `SearchWalks.GoalIff` | hermes_m0/report_task_service.py:819-884 | which arguments are accepted, and what they ask for |
| `SearchBudget.RealReportNeverContinues` | hermes_m0/report_task_service.py:834-852 | over a published report no continuation within the turn is ever announced |
| `Navigation.LegitIsAccepted` | hermes_m0/report_task_service.py:1591-1699 | a record whose origins are all legitimate passes the check of every tool that consumes its kind |
| `NavigationListings.AcceptedIff` | hermes_m0/report_task_service.py:1591-1699 | a consumer accepts a record if and only if one of its origins is legitimate and no category origin of a post without category ends the check before |
| `NavigationListings.CommentAcceptedIff` | hermes_m0/report_task_service.py:269-302 | a comment reference is accepted for a post if and only if it was shown under that post and is one of its risk comments |
| `NavigationListings.AnsweredIff` | hermes_m0/report_task_service.py:597-729 | a tool answers if and only if the report has it and its reference is of the current scope, of the right kind and accepted |
| `NavigationListings.AnsweredShows` | hermes_m0/report_task_service.py:581-960 | what each tool lists, spelled out: findings and standalone posts, members with their evidence, category posts, risk posts under filters, evidence of the named types, risk comments, each in frozen order from the offset up to the limit |
| `Navigation.ItemsAreLegit` | hermes_m0/report_task_service.py:361-435 | whatever a tool lists, it lists under an origin that its consumers accept, and every evidence after its parent post |
| `NavigationRuns.PublishKeepsParents` | hermes_m0/report_task_service.py:599-621 | records published in order leave the parent post of every evidence indexed, wherever the commit stops |
| `NavigationRuns.RunKeepsInv` | hermes_m0/report_task_service.py:581-729 | over any interleaving of tools, exposure by exposure, with rebinds and broken-off commits: all records stay legitimate and all parents indexed |
| `NavigationRuns.InitialInv` | hermes_m0/report_task_refs.py:149-162 | a process that has issued nothing satisfies the navigation invariant |
| `NavigationRuns.FinishedReferencesResolve` | hermes_m0/report_task_service.py:695-729 | a tool call that commits has published every reference it shows, under the current scope |
| `NavigationRuns.ResolvedIsAccepted` | hermes_m0/report_task_service.py:1384-1504 | no check rejects a reference the service issued, and `read_evidence` finds a parent post reference that is itself accepted |
| `NavigationRuns.AcceptedForever` | hermes_m0/report_task_service.py:1591-1699 | a reference that resolved once stays accepted by every consuming tool in all later states of the generation |
| `NavigationRestarts.RestartKeepsInv` | hermes_m0/reference_state.py:47-87 | save, death, bind and load keep every restored record legitimate and every parent indexed |
| `NavigationRestarts.AcceptedAcrossRestarts` | hermes_m0/report_task_service.py:116-193 | a reference that resolved once stays accepted, for the same object, through any number of restarts and whatever happens between them, while the generation lasts |
| `NavigationCommits.LoneCallCommitsIff` | hermes_m0/report_task_refs.py:493-515 | the commit of a call that nothing interrupts goes through if and only if the call lists no object twice that has no reference yet |
| `NavigationCommits.LoneCallAnswersIff` | hermes_m0/report_task_service.py:597-729 | as a run from any reachable state: such a call commits exactly then, and every token it shows resolves to the object shown |
| `NavigationCommits.ItemsOnce` | hermes_m0/report_task_service.py:361-435 | over a report whose lists have no repetition no tool call lists an object twice |
| `NavigationRuns.Show` | hermes_m0/report_task_service.py:597-622 | the loop of a tool exposes its items in order and commits once |
| `NavigationRuns.ShownIsStaged` | hermes_m0/report_task_service.py:597-622 | every token of the result is staged in the batch that is committed |
| `FrozenGraph.ValidateGraph` | hermes_m0/domain.py:145-221 | the validation accepts exactly the valid fixtures: field types, ids, membership, ownership, ordinals, statistics and provenance counts |
| `FixtureContents.ValidTells` | hermes_m0/domain.py:145-212 | a fixture that passes its validation has exactly its parts in its snapshot, an owner for each of them, its cases in the order of their positions, and statistics that count its rows |
| `FrozenGraph.CaseIndexAgrees` | hermes_m0/repository.py:37-43 | the index of cases by post names the one case that lists the post |
| `FrozenGraph.EvidenceIsNumbered` | hermes_m0/repository.py:44-52 | the sorted evidence of a post is numbered from one without a gap |
| `FrozenGraph.ValidIsWellFormed` | hermes_m0/domain.py:145-221 | every valid fixture has the relations that navigation relies on |
| `FrozenGraph.OrderedPostsListOnceIff` | hermes_m0/domain.py:162-163 | `ordered_posts` lists every post once if and only if there are as many post ids as posts |
| `ListedOnce.FixtureListsOnceIff` | hermes_m0/domain.py:150-198 | the lists of a valid fixture have no repetition if and only if it has as many post ids as posts |
| `ListedOnce.RepeatedPostBreaksSearch` | hermes_m0/domain.py:162-163 | a concrete valid fixture whose first search fails in its own commit |
| `ListedOnce.LoadedListsOnce` | hermes_m0/real_report_repository.py:561-793 | no loaded report lists an object twice |
| `ListedOnce.LoadedCallsAnswer` | hermes_m0/report_task_service.py:597-729 | over every loaded report a call that nothing interrupts commits, and each reference it shows resolves to the object shown |
| `LoadedFixture.LoadedFixtureIsValidIff` | hermes_m0/domain.py:145-198 | the fixture that the loader builds passes its own validation if and only if payload hashes differ, category ids differ, no post represents two shown findings, decisions and levels are known ones, and the manifest's decision and risk counts are those of the findings |
| `LoadedFixture.StatisticsAgreeIff` | hermes_m0/real_report_repository.py:955-974 | the counts of cases, posts, findings, evidence and evidence types that the loader computes always agree with the graph; the statistics agree if and only if the manifest's two counts do |
| `LoadedFixture.StoredCountsAgreeIff` | hermes_m0/real_report_repository.py:886-897 | counts taken of the raw payloads agree with the projected findings if and only if no finding lacks a decision or a level |
| `LoadedFixture.MiscountedIsRefused` | hermes_m0/domain.py:199-212 | a concrete report that the loader's relations admit and whose fixture is refused for its counts |
| `LoadedFixture.SharedRepresentativeIsRefused` | hermes_m0/domain.py:175-183 | a concrete report that the loader's relations admit and whose fixture is refused because one post represents two findings, whatever ids, hashes and counts it has |
| `LoadedFixture.EvidenceIsContiguous` | hermes_m0/real_report_repository.py:922-946 | the evidence of every post of a loaded fixture is numbered without a gap |
| `FrozenReport.ByReference` | hermes_m0/real_report_repository.py:1732-1744 | indexes the rows, and refuses exactly repeated references |
| `FrozenReport.RelateFindings` | hermes_m0/real_report_repository.py:676-686 | relates posts and audit findings one to one, and refuses exactly when that is impossible |
| `FrozenReport.GroupEvidence` | hermes_m0/real_report_repository.py:688-719 | the evidence per post agrees with a scan of all rows; refused exactly for foreign evidence |
| `FrozenReport.EvidenceTypeIs` | hermes_m0/real_report_repository.py:1747-1755 | the type that evidence is shown under |
| `FrozenReport.CheckInvestigations` | hermes_m0/real_report_repository.py:1309-1403 | accepts exactly ordered findings with valid, distinct memberships and one representative each |
| `FrozenReport.CheckStandalone` | hermes_m0/real_report_repository.py:1406-1434 | accepts exactly distinct posts with their own audit findings |
| `FrozenReport.Load` | hermes_m0/real_report_repository.py:561-793 | a non-empty report is loaded exactly if all its relations hold |
| `FrozenReport.RiskPostsAreSplit` | hermes_m0/real_report_repository.py:1547-1574 | finding members and standalone posts are disjoint and together exactly `risk_posts()` |
| `FrozenReport.RiskPostsMean` | hermes_m0/real_report_repository.py:1563-1574 | a post is a risk post exactly if a finding of it is for review or rejected with a low, medium or high risk, and then it is a finding member or a standalone post |
| `FrozenReport.AfterLastColonIs` | hermes_m0/real_report_repository.py:1328-1332 | the part of a reference that is compared with its position is what stands behind its last colon |
| `FrozenReport.AccountingAddsUp` | hermes_m0/report_task_service.py:456-467 | the three numbers of the risk accounting add up for every loaded report |
| `FrozenReport.InvestigationRefsAreDistinct` | hermes_m0/real_report_repository.py:1328-1332 | findings have distinct references, so the index by reference loses none |
| `FrozenReport.MembershipEvidenceBelongs` | hermes_m0/real_report_repository.py:1370-1378 | the evidence a membership names is evidence of the member post under its own audit finding |
| `LoadedNavigation.LoadedIsWellFormed` | hermes_m0/real_report_repository.py:398-420 | every loaded report has the relations that navigation relies on |
| `AccountActivityRefs.RunKeepsInv` | hermes_m0/account_activity_refs.py:64-185 | over any run index and records agree, references and cursors do not move, generations only go up |
| `AccountActivityRefs.ExposeKeepsInv` | hermes_m0/account_activity_refs.py:135-185 | exposing never refuses, keeps the reference of an object, and adds the origin |
| `AccountActivityRefs.ExposeNeverRefuses` | hermes_m0/account_activity_refs.py:157-163 | in every reachable state the check for a conflicting parent cannot fire, and the exposed reference resolves |
| `AccountActivityRefs.ReferencesLast` | hermes_m0/account_activity_refs.py:187-236 | a reference keeps resolving to the same object and first origin until the session gets a new generation, and is stale after |
| `AccountActivityRefs.CursorOnlyForItsQuery` | hermes_m0/account_activity_refs.py:238-312 | in any later state a cursor resolves exactly for its session, generation, query, revision and order, and to its offset |
| `AccountActivityRefs.AccountReferenceRegistry.BindScope` | hermes_m0/account_activity_refs.py:84-133 | keeps the scope for the same binding, else opens the next generation |
| `AccountActivityRefs.BindTells` | hermes_m0/account_activity_refs.py:84-133 | the scope stays exactly for the same binding without a forced generation; else its generation is one more, or the first |
| `AccountActivityRefs.AccountReferenceRegistry.ExposeObject` | hermes_m0/account_activity_refs.py:135-185 | the method computes the specified registry and token |
| `AccountPaging.PageSlices` | hermes_m0/account_activity_service.py:530-558 | a page is the slice at its cursor's offset, with a next cursor exactly when more follows |
| `AccountPaging.PageShownIff` | hermes_m0/account_activity_service.py:540-575 | a page is shown exactly if the projection succeeds for every item of its slice; a refused page has issued its cursor and shows none |
| `AccountPaging.WalkShowsStretch` | hermes_m0/account_activity_service.py:523-575 | following cursors with retries and other activity in between shows one stretch of the list, never past the first item that cannot be projected, and is refused in one generation only there |
| `AccountPaging.CursorsEnumerateAllIff` | hermes_m0/account_activity_service.py:523-575 | any mix of page sizes enumerates the frozen list exactly once, in order, and ends with a null cursor, if and only if every item can be projected |
| `AccountPaging.CursorsEnumerateAll` | hermes_m0/report_account_queries.py:133-153 | a list whose items can all be projected is enumerated exactly once, in order, without a refusal |
| `AccountPaging.WalkTerminatesIff` | hermes_m0/account_activity_service.py:543-575 | a walk of more pages than ids has ended if and only if every item can be projected |
| `AccountPaging.ListPage` | hermes_m0/account_activity_service.py:540-575 | the cut of a page and the loop that projects its items |
| `AccountListing.OccurrencesEnumeratedIff` | hermes_m0/account_activity_service.py:523-575 | the cursors of `list_account_occurrences` enumerate all selected occurrences if and only if no comment among them stands under a post of unknown author |
| `AccountListing.PostsAndTargetsAreEnumerated` | hermes_m0/account_activity_service.py:507-575 | an account's posts, and its comments on a shown target's posts, are always enumerated to the end |
| `AccountListing.AccountsAreEnumerated` | hermes_m0/report_account_queries.py:193-280 | the lists of accounts in reports are always enumerated to the end |
| `AccountPaging.CursorDiesWithGeneration` | hermes_m0/account_activity_refs.py:291-294 | a cursor of an earlier generation is refused as stale |
| `AccountPaging.NextPage` | hermes_m0/report_account_queries.py:142-153 | the method cuts the specified page and stores its cursor |
| `AccountNavigation.RunKeepsProper` | hermes_m0/account_activity_service.py:388-720 | whatever the service shows, every record keeps an object of its revision, a parent and origins that its consumer accepts |
| `AccountNavigation.ResolvedIsAnswered` | hermes_m0/account_activity_service.py:507-704 | in every reachable state, for every kind, what resolves is answered with its object, and the only refusal is that of a comment under a post of unknown author by the reader of occurrences |
| `AccountNavigation.OccurrenceReadIff` | hermes_m0/account_activity_service.py:619-678 | in every reachable state an occurrence reference that resolves can be read if and only if it is a post's or the author of its comment's post is known |
| `AccountNavigation.ReachedIsAnswered` | hermes_m0/account_activity_service.py:388-704 | the same from an empty process, after any run over well-formed corpora |
| `AccountNavigation.DetailIsGiven` | hermes_m0/account_activity_repository.py:341-385 | over a well-formed corpus and reports of distinct tasks the detail of a comment's parent post is never refused: it is given exactly if an authorized report has the post |
| `CorpusViews.BuiltIsWellFormed` | hermes_m0/account_activity_repository.py:54-82 | every built corpus has what the account tools rely on: authors and targets are accounts, tasks have snapshots, and every comment agrees with its post occurrence on the author |
| `CorpusViews.KnownIffResolved` | hermes_m0/account_activity_repository.py:530-532 | in a build the author of a comment's post is known if and only if the post's row has a resolved author |
| `CorpusViews.ReachedIsAnswered` | hermes_m0/account_activity_service.py:388-704 | from an empty process, after any run over built corpora, every account reference that resolves is answered, and refused only for a comment under a post of unknown author |
| `SnapshotAccounts.Collect` | hermes_m0/pass_support.py:105-212 | the loops over reports, posts and comments collect the specified occurrences; refused exactly for two reports of one task |
| `SnapshotAccounts.SnapshotIsWellFormed` | hermes_m0/pass_support.py:105-250 | whatever the payloads are, account data taken from report snapshots, mixed with an older corpus, has what the account tools rely on, once the repository opens |
| `SnapshotAccounts.OlderIsCoherent` | hermes_m0/pass_support.py:113-128 | a built corpus supplies older reports with comments that come with their posts and agree with them on the author |
| `SnapshotAccounts.KnownIffIdentified` | hermes_m0/pass_support.py:136-154 | there the author of a comment's post is known if and only if the raw author has a source key on the platform |
| `SnapshotAccounts.OwnIsFound` | hermes_m0/pass_support.py:165-212 | every post and counted comment of an own report has its occurrence |
| `SnapshotAccounts.ContentKeyIs` | hermes_m0/pass_support.py:157-157 | the content key of a post is what stands behind the first colon of its id |
| `SnapshotAccounts.ItemsTell` | hermes_m0/pass_support.py:130-212 | what is stored of a post and of a comment: identities exist exactly for the one platform and a source key, a comment of inconsistent identity has none, and which comments count |
| `UnknownAuthors.OrphanBuildExists` | hermes_m0/account_corpus.py:436-560 | a concrete source with a post of unknown author is accepted, and its corpus passes the validation |
| `UnknownAuthors.ShownIsRefused` | hermes_m0/account_activity_repository.py:518-532 | a run over that corpus shows the comment's occurrence reference, which resolves and which the reader refuses |
| `UnknownAuthors.ListIsStuck` | hermes_m0/account_activity_repository.py:441-456 | over that corpus no walk through the account's comments gets to its end |
| `AccountNavigation.AnsweredForever` | hermes_m0/account_activity_service.py:619-704 | a reference stays answered in the same way, for the same object and account, while generation and revision last |
| `AccountNavigation.TargetOnlyForItsAccount` | hermes_m0/account_activity_service.py:517-521 | a comment target of one account is refused for another |
| `ReportAccountStatistics.CountAccounts` | hermes_m0/report_account_queries.py:176-190 | one pass counts, for every report, exactly the active accounts and the unresolved activity |
| `ReportAccountStatistics.ReportStatistics` | hermes_m0/report_account_queries.py:11-31 | the statistics are the counts they are named after |
| `ReportAccountStatistics.RolesAreCounts` | hermes_m0/report_account_queries.py:11-31 | publishers are exactly the identified accounts that published in the report, commenters those that commented |
| `ReportAccountStatistics.TotalsAreConserved` | hermes_m0/report_account_queries.py:11-31 | a report's total is the sum over its identified accounts plus the unresolved activity, for posts and comments |
| `ReportAccountStatistics.AccountsAreCountedOnce` | hermes_m0/report_account_queries.py:21-24 | publishers and commenters cover all accounts, and those that are both are counted once |
| `AccountRanking.Ranks` | hermes_m0/report_account_queries.py:58-62 | the accumulated rank of a count is one plus the number of accounts with a strictly larger count |
| `AccountRanking.RankAccounts` | hermes_m0/report_account_queries.py:56-81 | the ranked top, its ties, the cutoff ties and the omitted ties, in terms of the counts alone |
| `AccountRanking.WeightsAreCounts` | hermes_m0/report_account_queries.py:56-57 | ranked are exactly the accounts that occur in the role, with their number of occurrences |
| `AccountRanking.ReportRanking` | hermes_m0/report_account_queries.py:41-81 | from the corpus to the ranked top; as many accounts are ranked as the statistics say play the role |
| `AccountRanking.TopIsFair` | hermes_m0/report_account_queries.py:65-81 | everyone above the cutoff is shown, nobody below it, and the cutoff ties are the shown plus the omitted ones |
| `AccountRanking.RankIsFirstPosition` | hermes_m0/report_account_queries.py:58-62 | a rank is the position of the first account with that count |
| `ReportComparison.Catalog` | hermes_m0/report_account_queries.py:83-102 | lists the unified reports by position, and is refused exactly if two share a source investigation |
| `ReportComparison.SelectReports` | hermes_m0/report_account_queries.py:118-131 | succeeds exactly for references of distinct authorized reports, and lists them in catalog order |
| `ReportComparison.SelectionIgnoresOrder` | hermes_m0/report_account_queries.py:118-131 | a permutation of the references selects the same reports |
| `ReportComparison.Intersection` | hermes_m0/report_account_queries.py:226-231 | the fold over the selected reports is their set intersection |
| `ReportComparison.Compare` | hermes_m0/report_account_queries.py:215-254 | common accounts, publishers and commenters are those that occur that way in every selected report |
| `ReportComparison.RolesLieWithinCommon` | hermes_m0/report_account_queries.py:233-236 | common publishers and commenters are common accounts |
| `ReportComparison.ComparisonIgnoresOrder` | hermes_m0/report_account_queries.py:215-242 | another order of the references gives the same comparison and the same page for the same cursor |
| `CorpusBuilder.Collect` | hermes_m0/account_corpus.py:584-758 | the nested loops over posts and comments append, step by step, the occurrence, the alias and the interaction of every step that has one |
| `CorpusBuilder.Build` | hermes_m0/account_corpus.py:259-828 | refuses exactly what it does not support, and else builds the specified corpus |
| `CorpusBuilder.Accept` | hermes_m0/account_corpus.py:298-435 | the checks on rows and comments, with their identities within a task and across tasks |
| `CorpusLists.NothingIsMerged` | hermes_m0/account_corpus.py:584-758 | in any order of the lists: every accepted post and comment has exactly one occurrence, every resolved one with a nickname exactly one alias, every comment between resolved authors exactly one interaction, and there is nothing else |
| `CorpusContents.OccurrencesTell` | hermes_m0/account_corpus.py:584-736 | an occurrence has the identity, time, audit, decision, risk, title and parent of its source row or comment; identities exist exactly for the one platform and a source key |
| `CorpusContents.AliasesTell` | hermes_m0/account_corpus.py:648-760 | an alias is recorded exactly for an identified author with a nickname, with when it was observed and captured |
| `CorpusContents.InteractionsTell` | hermes_m0/account_corpus.py:737-785 | an interaction is recorded exactly from an identified commenter to the identified author of the post |
| `CorpusContents.CapturedAtIsLatest` | hermes_m0/account_corpus.py:526-529 | a snapshot was captured when its latest row was updated, or captured if never updated |
| `CorpusContents.CoverageTells` | hermes_m0/account_corpus.py:530-539 | the coverage of a snapshot counts its posts and comments with and without an identified author |
| `CorpusContents.SnapshotTells` | hermes_m0/account_corpus.py:526-583 | a snapshot states task, quality and coverage, and when it was captured, for an empty task when that was updated |
| `CorpusLists.StepsHaveOwnRefs` | hermes_m0/account_corpus.py:603-610 | no two posts or comments of an accepted source get the same occurrence reference |
| `CorpusBuilder.MissingIsCounted` | hermes_m0/account_corpus.py:530-539 | the coverage counts every post and comment as resolved or unresolved |
| `CorpusBuilder.Validate` | hermes_m0/account_corpus.py:873-1106 | the validation accepts exactly the valid corpora |
| `CorpusValidity.OccurrencesAreUnique` | hermes_m0/account_corpus.py:915-983 | a built corpus has unique references, posts and comments, within tasks and across them |
| `CorpusValidity.IndexedParent` | hermes_m0/account_corpus.py:984-994 | the validator's index leads every comment of a build to its own post |
| `CorpusValidity.CommentIsOkIff` | hermes_m0/account_corpus.py:995-1000 | a built comment occurrence is valid if and only if it does not predate its post |
| `CorpusContents.PredatesIff` | hermes_m0/account_corpus.py:995-1000 | a comment predates its post exactly if both times are known and its own is smaller |
| `CorpusContents.ValidGuarantees` | hermes_m0/account_corpus.py:873-1106 | what a corpus that passes the validation promises of every occurrence, alias and interaction: snapshots, accounts, parents and both sides exist and agree |
| `CorpusValidity.BuiltIsValidIff` | hermes_m0/account_corpus.py:873-1106 | a corpus built from accepted rows by the appending loops passes every check of the validation, uniqueness included, if and only if no comment predates its post |
| `CorpusValidity.EarlyCommentIsInvalid` | hermes_m0/account_corpus.py:995-1000 | a concrete source that the builder accepts and whose corpus fails the validation |
| `CorpusActivities.BuiltCountsAgree` | hermes_m0/report_account_queries.py:176-190 | over a built corpus the counts of the report statistics are the numbers of occurrences per account and role, unresolved ones included, and nothing is counted twice |
| `AccountOverview.BuildIndex` | hermes_m0/account_corpus.py:1130-1143 | groups and sorts all occurrences of every account |
| `AccountOverview.IndexAgreesWithScan` | hermes_m0/account_corpus.py:1192-1194 | the index answers what sorting a scan of the corpus answers |
| `AccountOverview.SourcesAddUp` | hermes_m0/account_activity_repository.py:217-236 | the source distribution adds up to the totals: comments, posts, commented posts |
| `AccountOverview.TargetsAddUp` | hermes_m0/account_activity_repository.py:192-216 | comments per target plus comments under posts of unknown authors are all comments |

## Left out

- The generation reset whose own save fails: memory is then ahead of the disk until the next save.
- `SessionStore.BindKeepsOk`: one session per registry, which has adopted no old tokens.
- `CheckpointedExecution.RunKeepsInv`: one session per process; its runs have no step that adopts old tokens (`prepare_conversation_history` on the first turn of a first generation), and account references are not part of results.
- `CheckpointedExecution.CompletedMeansSaved`: over the same runs.
- `CheckpointedExecution.ReplayedReferencesWork`: over the same runs.
- `CheckpointedNavigation.RunKeepsInv`: over the same runs, with the tools of `Navigation` as the users of the registry.
- `CheckpointedNavigation.ReplayedReferencesAreAccepted`: over the same runs.
- `CommentDelivery.RunKeepsInv`: one session with a ledger, and no step that adopts old tokens; a service without a ledger refuses batches.
- `CommentBatches.PrepareStores`: the origin check of the post record is not repeated here; `NavigationRuns.ResolvedIsAccepted` shows that it accepts every post of a unified report. The lookup of every matching comment in the account data is not modelled either; `SnapshotAccounts.OwnIsFound` shows that it succeeds for a report's own snapshot.
- `CommentDelivery.NextBatchIsServed`: over the same page, without that lookup.
- `CommentRendering.PageReadsBack`: ends lines at newlines only; `CommentMarkdown.MarkdownReadsBackIff` has carriage returns too.
- `CommentMarkdown.MarkdownReadsBackIff`: says which lines are quoted; how a Markdown renderer lays out indented or underlined lines is not modelled.
- `FrozenComments.ProjectComments`: the flags on identity and raw availability, which only comment evidence reads, Unicode normalisation, and lower case beyond ASCII.
- `ConversationHistory.RebuiltMentionsUsableIff`: takes the references after the report was read again as given; the fixed wording is assumed to hold no reference.
- `SearchBudget.ContinuationIsServed`: no bind of the session and no result for the same turn in between; the nonce has six hexadecimal digits and the counter at most 120, so that the argument check admits the cursor.
- `SearchWalks.CursorsEnumerateRiskPosts`: no bind of the session in between, and the same condition on nonce and counter.
- `CommentCalls.CallIsAnswered`: over the runs of `CommentDelivery.RunKeepsInv`.
- `PageReading.PageTells`: ends lines at newlines only.
- `LoadedComments.DepictsIff`: the same fields as `FrozenComments.ProjectComments`.
- `NavigationTokens.IssuedIsFound`: the reference stands in quotes, which are no word characters.
- `ConversationHistory.UsableIffCurrent`: for a token that several tables have, only that it is current in one of them if it works.
- `FrozenReport.ByReference`: the check of each row's payload hash is not modelled.
- `FrozenReport.CheckInvestigations`: content hashes of rows and the comparison with the report body are not modelled.
- `FrozenReport.Load`: payload and content hashes, sections and the comparison with the report body are not modelled; categories and the fixture's validation are in `LoadedFixture`.
- `CorpusBuilder.Build`: rows come normalised (Unicode, platform case, timestamps as ordered strings); the digests by which the lists are sorted, the order of posts and comments within the hashed source projection and the data-quality counters are not modelled.
- `CorpusBuilder.Validate`: the legacy schema version is not modelled.
- `NavigationRuns.AcceptedForever`: one process; `NavigationRestarts.AcceptedAcrossRestarts` goes through restarts.
- `AccountOverview.BuildIndex`: the same loop for aliases and interactions would only repeat it.
- The legacy projection of fresh results before they are compared, and the loop that reads old results again.
- `NavigationRuns.ResolvedIsAccepted`: over the report's own data; with account data configured `read_posts` also refuses a post that the corpus lacks (`unknown_occurrence`), and `list_post_risk_comments` a comment that the corpus lacks or has with another text, status or time (`snapshot_occurrence_mismatch`).
- Account references in comment pages and in the saved state: the account registry is modelled on its own.
- `SnapshotAccounts.Collect`: titles, texts, times and aliases of the collected occurrences.
- Summaries of confirmed deliveries for the prompt (`delivery_context`) and the list of recent batches.
- The search of the pass-report service, whose budget is that of `SearchBudget` without filters on risk.
- Argument dictionaries with unknown keys or wrongly typed values, and arguments that cannot be fingerprinted.
- HTTP routes, inference and provider wiring, user interfaces, SQLite and file reading, prompts, labels and wording.
