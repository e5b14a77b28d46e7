# Issue cache, markdown machines and realtime state: a verified model

This project models the parts of the front end that hold real algorithms and
state machines, and proves what they promise.

- **Issue cache.** Issues live in one bucket per status. `IssueCache` and
  `IssueCacheLaws` model the pure helpers and prove that the buckets refine a plain
  table from id to issue. `IssueQueries` and `QueryClient` model the shared query
  cache, with each mutation handler and WebSocket updater as one step;
  `OptimisticProtocol` proves rollback and staleness over whole runs,
  `MutationReplay` that the handlers on one cache go through those runs,
  `EchoTolerance` what the steps show and when echoes do no harm, `LabelSync` and
  `LabelAgreement` when the three copies of an issue's labels agree, `Paging` the
  column paging,
  `CommentCascade` the cascading comment delete, `Inbox` deduplication and archive.
- **Markdown.** `StreamingBlocks` models the block splitter of the streaming view,
  `LinkBrackets`, `LinkDetection` and `LinkPreprocessor` the rewriting of raw links.
- **Realtime and buffering.** `TaskLog`, `RefreshDebounce`, `WsClient` and
  `Analytics`. `Sorting` is the stable sort and the filter that several of them call.

Check it with `dafny verify dfyconfig.toml` (Dafny 4.11).

## How to read it

Code that works step by step is a method with a loop, or a class whose methods
write its fields, proved to compute a function of the input or of the old state;
the laws are lemmas about those functions. A run is a sequence of states with a
sequence of events, each enabled where it happens; the run theorems hold at every
position of every run.

Some choices to know about:

- The query cache is a record of slots and a set of stale keys. An updater that
  gives `undefined` writes nothing; a write makes its slot fresh; marking an absent
  slot does nothing. Marks from elsewhere and fetches may come at any time.
- `Issue.title` stands for all fields that are only copied. Statuses and board
  columns are those of packages/core/issues/config/status.ts; `cancelled` has a bucket
  but no column.
- The URL scanner, the file-path pattern and the code-span patterns enter as
  functions. Of the first two it is asked that matches are slices of the text, in
  order and disjoint (URL matches nonempty, the URL ending with the matched text;
  the captured path inside its match). Of the code spans nothing is asked.
- Dates are numbers. Strings are sequences of Unicode characters, not UTF-16 units.
- Sockets, timers and the clock are state beside the client; what the browser may do
  next is the enabling condition of an event. A socket counts as live until its close
  event, the closing handshake included.

Where the comments and the code disagree, the model follows the code:

- packages/core/analytics/index.ts:41-45 says the first pending page view is kept;
  the code at 318-322 keeps the most recent one.
- packages/ui/markdown/StreamingMarkdown.tsx:164-171 says finished blocks stay; a
  last line `$$` behind a paragraph takes one back (`StreamingBlocks.StreamingStability`
  gives the exact condition). The block boundaries named at 43-45 leave out `$$` lines.
- packages/core/realtime/use-realtime-sync.ts:283-285 says the duplicate checks make
  HTTP replies and echoes idempotent; a creation echoed after a move duplicates the
  issue (`IssueCacheLaws.AddRefinesTable` gives the exact condition), and a second
  delivery of a move can patch a row that the first left alone
  (`EchoTolerance.UpdateEchoes` gives the exact condition).

Two more promises hold only under the condition proved with them: settling a failed
mutation leaves what it rolled back marked until the next write to that slot, which
may be one that changes nothing (`OptimisticProtocol.RestoredIsStaleWhen`,
`OptimisticProtocol.LostWriteStaysLost`); and a written link is a link only when no
backslash escapes it and its parts close (`LinkPreprocessor.WrittenLinkIsLinkWhen`).

Hypotheses that carry weight: the archive law asks that archiving hits exactly the
item's group, which unique item ids that are no issue's id and nonempty issue ids
ensure (`Inbox.WellKeyedHitsGroup`); the paging law asks for a fixed server list
without duplicate ids; the socket law asks that a caller connects only an idle client.

## Model

| member | source | states |
|---|---|---|
| `StreamingBlocks.SplitIntoBlocks` | packages/ui/markdown/StreamingMarkdown.tsx:49-124 | the loop computes `Split`, the fold of one step per line and the final flush; `BlocksAreLines` and `SameBlockWhen` say what its blocks are |
| `StreamingBlocks.HashOf` | packages/ui/markdown/StreamingMarkdown.tsx:32-38 | the key hash on 32-bit integers, one character at a time |
| `StreamingBlocks.HashExamples` | packages/ui/markdown/StreamingMarkdown.tsx:32-38 | the hash of the empty text, of `a` and of `ab`, by hand |
| `StreamingBlocks.KeysTell` | packages/ui/markdown/StreamingMarkdown.tsx:214-218 | two keys at one place are equal if and only if both blocks are last, or neither is and their contents hash alike |
| `StreamingBlocks.StreamingStability` | packages/ui/markdown/StreamingMarkdown.tsx:49-124 | for every text: every suffix leaves all finished blocks and their React keys in place if and only if the text does not end in a `$$` line, outside code and math, behind a paragraph with visible text |
| `StreamingBlocks.LongerLine` | packages/ui/markdown/StreamingMarkdown.tsx:56-113 | from each of the four code/math states, a longer last line keeps what the shorter one finished and never shows fewer blocks, the one `$$` case excepted |
| `StreamingBlocks.DollarsTakeABlockBack` | packages/ui/markdown/StreamingMarkdown.tsx:80-88 | the excepted case happens: `a`, a line `$$`, then `x` takes a finished block back |
| `StreamingBlocks.Conservation` | packages/ui/markdown/StreamingMarkdown.tsx:49-124 | for every text the blocks hold exactly its visible characters, in order |
| `StreamingBlocks.CodeIsVerbatim` | packages/ui/markdown/StreamingMarkdown.tsx:60-78 | each code block is the source lines from an opening fence (an even number of fences before it) to the next fence, unchanged; an unclosed one, only at the end, runs to the last line |
| `StreamingBlocks.BlocksAreLines` | packages/ui/markdown/StreamingMarkdown.tsx:49-124 | the blocks lie on disjoint spans of source lines in order, each in the form of its kind: code from an opening fence to the next one, unchanged; any other without a fence, unchanged when its last line closes math and trimmed otherwise; each with visible text, a cut behind it and, before its last visible line, none inside; only the last may be unclosed; every visible line is in a block, and so is a last line that leaves something pending |
| `StreamingBlocks.SameBlockWhen` | packages/ui/markdown/StreamingMarkdown.tsx:49-124 | two visible lines are in one block if and only if no line between them, the second included, opens code or math, comes behind one that closes them, or is empty outside both |
| `StreamingBlocks.LinesAreText` | packages/ui/markdown/StreamingMarkdown.tsx:51 | the lines hold no line break and joined by line breaks are the text |
| `StreamingBlocks.TrimIs` | packages/ui/markdown/StreamingMarkdown.tsx:66-113 | trimming takes away just the white space at both ends |
| `LinkBrackets.IsEscaped` | packages/ui/markdown/linkify.ts:96-102 | the backward loop counts the backslashes before a position and tests the parity |
| `LinkBrackets.EscapedByBackslash` | packages/ui/markdown/linkify.ts:96-102 | a character is escaped exactly when a backslash that is not itself escaped stands before it |
| `LinkBrackets.FindMatchingBracket` | packages/ui/markdown/linkify.ts:104-120 | the loop finds the position `Match` defines for square brackets |
| `LinkBrackets.FindInlineLinkEnd` | packages/ui/markdown/linkify.ts:122-138 | the loop finds the position behind the one `Match` defines for parentheses |
| `LinkBrackets.MatchIsFirstReturn` | packages/ui/markdown/linkify.ts:104-138 | from an unescaped opening bracket the result is the first position at which the unescaped depth is back to zero, an unescaped closing bracket; it is -1 exactly when the depth never gets back |
| `LinkBrackets.FindLinkEnd` | packages/ui/markdown/linkify.ts:151-172 | the end of the inline or reference link whose label opens here: a link by `IsLink`, and -1 exactly when there is none |
| `LinkBrackets.LinkEndWhen` | packages/ui/markdown/linkify.ts:151-172 | for an unescaped `[`: the link ends here if and only if the first return of the square depth has an opening bracket of either kind next to it and the last character is the first return of that kind's depth |
| `LinkBrackets.FindMarkdownLinkRanges` | packages/ui/markdown/linkify.ts:144-176 | the loop with its jumps collects `LinkRanges`: each range is that of a link, and the label of every link opens inside one; its check against earlier ranges never fires |
| `LinkBrackets.LinkRangesApart` | packages/ui/markdown/linkify.ts:144-176 | ranges are nonempty, in bounds, in order and pairwise disjoint, even with the step back to `!` |
| `LinkBrackets.LinkRangesAreLinks` | packages/ui/markdown/linkify.ts:144-176 | every range is that of a link, said by depth and escapes alone; it begins at the label, or one earlier exactly behind an unescaped `!` |
| `LinkBrackets.LinkRangesCoverLinks` | packages/ui/markdown/linkify.ts:144-176 | the label of every link, inline or reference, opens inside some range |
| `LinkDetection.CollectLinkifyMatches` | packages/ui/markdown/linkify.ts:216-248 | the recursive scan terminates and pushes the links `Collect` defines behind those already in the list |
| `LinkDetection.CollectGood` | packages/ui/markdown/linkify.ts:216-248 | links of the scan and all its re-scans are in order, disjoint, slices of the whole text at their shifted offsets, and free of full-width terminators; the URL ends with the text |
| `LinkDetection.CollectEmits` | packages/ui/markdown/linkify.ts:220-247 | no match is lost: each up to the first cut gives a link with its kind, its place, its text up to the first terminator and the scheme before it in the URL; behind a cut so does everything a scan of the tail finds |
| `LinkDetection.TerminatorIndexIsFirst` | packages/ui/markdown/linkify.ts:24-25 | the cut is at the first full-width terminator, or there is none |
| `LinkDetection.AddFilePaths` | packages/ui/markdown/linkify.ts:259-284 | the loop adds each path that overlaps no link yet |
| `LinkDetection.DetectLinks` | packages/ui/markdown/linkify.ts:253-288 | the links are URLs first, then paths, sorted by start |
| `LinkDetection.DetectedAreGood` | packages/ui/markdown/linkify.ts:253-288 | detected links are in order and pairwise disjoint, each equals its slice of the text, and no URL text holds a full-width terminator |
| `LinkDetection.DetectedAreComplete` | packages/ui/markdown/linkify.ts:253-288 | every URL is kept; each captured path is a file link where the match first has it, with itself as destination, unless it overlaps a link; and there is no other link |
| `LinkPreprocessor.Splice` | packages/ui/markdown/linkify.ts:307-332 | the loop writes the untouched slices and the links in turn, then the last slice |
| `LinkPreprocessor.PreprocessLinks` | packages/ui/markdown/linkify.ts:294-333 | the whole run, early returns included, gives `Preprocessed` |
| `LinkPreprocessor.EraseIsInput` | packages/ui/markdown/linkify.ts:307-332 | setting every written link back to its text gives exactly the input |
| `LinkPreprocessor.OutputEncodesInput` | packages/ui/markdown/linkify.ts:294-333 | a run's output erases to its input and is longer by just what the written links add; the links written are exactly the detected ones that start outside code, overlap no markdown link, stand behind no `](` or `][` and fill no label, if the text passes the quick check |
| `LinkPreprocessor.WrittenLinksAreLinked` | packages/ui/markdown/linkify.ts:182-198 | each written link stands in the output at its input position moved by what the links before it add, and there its label and its destination read as already linked |
| `LinkPreprocessor.WrittenLinkIsLinkWhen` | packages/ui/markdown/linkify.ts:104-176 | there it is a markdown link with that label and destination, by depth and escapes alone, if and only if an even run of backslashes precedes it, its text closes between square brackets and its URL between round ones |
| `LinkPreprocessor.LinkIsRangeUnless` | packages/ui/markdown/linkify.ts:144-176 | such a link is among the link ranges of the output unless a link that opens earlier reaches over it |
| `LinkPreprocessor.EscapedLinkIsNone` | packages/ui/markdown/linkify.ts:320-324 | the excepted case happens for every URL without brackets: behind a backslash, as in `\http://a.com`, the output has no link at all |
| `LinkPreprocessor.UntouchedSurvives` | packages/ui/markdown/linkify.ts:307-332 | a stretch that no written link overlaps is in the output unchanged, at its own position moved by what the links before it add |
| `LinkPreprocessor.ExistingLinksSurvive` | packages/ui/markdown/linkify.ts:294-333 | every markdown link of the input, or the longer one that its label opens in, is in the output, character for character, at its own moved position |
| `IssueCache.FlattenIssueBuckets` | packages/core/issues/queries.ts:55-62 | the loop concatenates the visible buckets; `FlattenIsBoardOrder` says in which order |
| `IssueCacheLaws.FlattenIsBoardOrder` | packages/core/issues/queries.ts:49-62 | the list is the six columns from backlog to blocked, one behind the other |
| `IssueCache.LocationFinds` | packages/core/issues/cache-helpers.ts:27-37 | the search finds an issue with the id in a visible bucket, and fails exactly when none holds it |
| `IssueCache.AddKeepsInvariant` | packages/core/issues/cache-helpers.ts:40-50 | unique visible ids, status equal to bucket and loaded at most total survive an add if and only if no other visible bucket holds the id, or the own one does |
| `IssueCache.RemoveKeepsInvariant` | packages/core/issues/cache-helpers.ts:53-64 | the invariant survives every remove |
| `IssueCache.PatchKeepsInvariant` | packages/core/issues/cache-helpers.ts:71-100 | the invariant survives every patch, moves and hidden statuses included |
| `IssueCache.TableIsUnique` | packages/core/issues/cache-helpers.ts:27-37 | a cache represents at most one id table, so the refinements below determine the result |
| `IssueCacheLaws.HelpersRefineTable` | packages/core/issues/cache-helpers.ts:53-100 | remove is table delete; patch is table update, or delete when the new status has no column; `PatchWrites` says field by field what the update writes |
| `IssueCacheLaws.PatchWrites` | packages/core/issues/cache-helpers.ts:71-100 | a patched issue has status, parent, labels and title from the patch where it names them and its own where not, and its id; no other entry of the table changes; it leaves the table exactly when its status has no column |
| `IssueCacheLaws.PatchPlaces` | packages/core/issues/cache-helpers.ts:71-100 | column by column: a patch that keeps the status leaves every issue in its place; one that changes it takes the issue out and puts it at the end of its new column, and one count goes along |
| `IssueCacheLaws.AddPlaces` | packages/core/issues/cache-helpers.ts:40-50 | a new issue goes to the end of its column with one count, and no other column changes |
| `IssueCacheLaws.RemovePlaces` | packages/core/issues/cache-helpers.ts:53-64 | a removed issue goes out of its column with one count, and no other column changes |
| `IssueCacheLaws.AddRefinesTable` | packages/core/issues/cache-helpers.ts:40-50 | add is table insert, exactly when the id is not shown under another status |
| `IssueCacheLaws.LateCreateEchoDuplicates` | packages/core/issues/cache-helpers.ts:44-45 | a creation echoed after a move puts the id in two buckets, by example |
| `IssueCacheLaws.OthersStayInOrder` | packages/core/issues/cache-helpers.ts:40-100 | adding, removing and patching one issue leave all others of the flattened list in their order, in any cache |
| `IssueCacheLaws.RemoveShows` | packages/core/issues/cache-helpers.ts:53-64 | removing filters the flattened list |
| `IssueCacheLaws.PatchConservesTotal` | packages/core/issues/cache-helpers.ts:71-100 | a patch keeps the sum of all bucket totals, wherever it moves the issue |
| `IssueCacheLaws.AddAndRemoveCountOne` | packages/core/issues/cache-helpers.ts:40-64 | the sum of totals goes down by one for a shown issue, up by one for a new one, and not otherwise |
| `IssueCacheLaws.AddTwice` | packages/core/issues/cache-helpers.ts:40-50 | an echoed creation is a no-op in any cache |
| `IssueCacheLaws.RemoveTwice` | packages/core/issues/cache-helpers.ts:53-64 | an echoed delete is a no-op |
| `IssueCacheLaws.PatchTwice` | packages/core/issues/cache-helpers.ts:71-100 | an echoed patch is a no-op, also when it moved or hid the issue |
| `IssueCacheLaws.BatchPatchIsBySet` | packages/core/issues/mutations.ts:256-261 | a batch update is one table operation on the set of its ids: order and repetition do not matter |
| `IssueCacheLaws.BatchRemoveIsBySet` | packages/core/issues/mutations.ts:340-345 | a batch delete takes exactly the set of its ids out of the table |
| `QueryClients.QueryClient.FindParent` | packages/core/issues/mutations.ts:140-161 | the parent is looked up in the detail slot, the list, then the children slots in cache order |
| `EchoTolerance.ParentFound` | packages/core/issues/mutations.ts:140-161 | the parent is the one that the detail slot names, else the list's entry; when neither names one, the first children slot in cache order with the issue; an event goes by detail slot and list only |
| `QueryClients.QueryClient.MutateUpdate` | packages/core/issues/mutations.ts:131-180 | the optimistic step of the update, whose writes `EchoTolerance.UpdateShows` states field by field, and the context it captures |
| `QueryClients.QueryClient.MutateBatchUpdate` | packages/core/issues/mutations.ts:253-283 | the optimistic batch update: the list loop, then each children slot that holds one of the ids |
| `QueryClients.QueryClient.MutateBatchDelete` | packages/core/issues/mutations.ts:311-347 | the optimistic batch delete: the children slots, then the list loop, with the parents to mark |
| `QueryClients.QueryClient.OnBatchError` | packages/core/issues/mutations.ts:284-291 | the rollback of a batch restores the list and each captured children slot; the batch delete's handler at 348-355 is the same |
| `QueryClients.QueryClient.OnBatchSettled` | packages/core/issues/mutations.ts:292-302 | settling a batch marks the list and every captured parent; the batch delete's handler at 356-364 is the same |
| `QueryClients.QueryClient.MutateDelete` | packages/core/issues/mutations.ts:219-228 | the optimistic delete drops the issue from the list and removes its detail slot |
| `MutationReplay.MutationSession.Replay` | packages/core/issues/mutations.ts:101-366 | the hooks and WebSocket handlers, called as the events come, take the one query cache through every run of the protocol |
| `OptimisticProtocol.UpdateRollbackIsExact` | packages/core/issues/mutations.ts:131-191 | update then error with no write between leaves every slot as it was |
| `OptimisticProtocol.BatchUpdateRollbackIsExact` | packages/core/issues/mutations.ts:253-291 | batch update then error leaves every slot as it was |
| `OptimisticProtocol.BatchDeleteRollbackIsExact` | packages/core/issues/mutations.ts:311-355 | batch delete then error leaves every slot as it was |
| `OptimisticProtocol.DeleteRollbackIsExactWhen` | packages/core/issues/mutations.ts:219-231 | single delete then error restores all slots if and only if the issue had no detail slot |
| `OptimisticProtocol.NextEffect` | packages/core/issues/mutations.ts:125-366 | each step of every mutation, event, reply and fetch sets, removes and marks exactly the slots listed for it, takes the mark off exactly those it sets or removes, and leaves the content of all others |
| `OptimisticProtocol.StaleExactly` | packages/core/query-client.ts:3-18 | over every run a slot is stale if and only if nothing has set or removed it since it was last marked |
| `OptimisticProtocol.SnapshotsComeBack` | packages/core/issues/mutations.ts:181-191 | over every run, with anything in between: a failed mutation leaves each slot it overwrites with what the slot held when the mutation started |
| `OptimisticProtocol.SettlingMarks` | packages/core/issues/mutations.ts:192-210 | settling marks exactly those of the rolled-back slots that are not the list or detail copy of a label set |
| `OptimisticProtocol.SettlingMarksWhen` | packages/core/issues/mutations.ts:192-366 | settling a mutation, whatever happened since its start, marks exactly the list, an update's detail slot, the children of the parents it concerned then (those known, newly named, or with a row of the issue) and the children's progress if there were any, or a label mutation's label slot |
| `OptimisticProtocol.EventMarksOthers` | packages/core/issues/ws-updaters.ts:13-127 | which events, replies and fetches mark the filtered lists and the children's progress |
| `OptimisticProtocol.RestoredIsStaleWhen` | packages/core/issues/mutations.ts:125-366 | over every run, once a failed mutation has settled: each slot its rollback overwrote, unless removed, is there and has been marked since (label copies excepted); it is stale now if and only if nothing has written to it since its last mark; and with no write since the rollback it holds what that put back |
| `OptimisticProtocol.LostWriteStaysLost` | packages/core/issues/ws-updaters.ts:47-49 | the promise fails without that condition: an event that changes a shown issue, lost to a rollback, stays lost when after the settle an event about an issue the list does not hold rewrites the list as it is and takes its mark off |
| `EchoTolerance.UpdateShows` | packages/core/issues/mutations.ts:131-180 | an update overwrites exactly the fields it names of its issue, at once in the list's table, the detail slot and the parent's children, and no other issue anywhere |
| `EchoTolerance.BatchUpdateShows` | packages/core/issues/mutations.ts:253-283 | a batch update overwrites the named fields of every issue of the set in the list's table and in all children slots, row for row, and of no other |
| `EchoTolerance.BatchDeleteShows` | packages/core/issues/mutations.ts:311-347 | a batch delete takes every issue of the set out of the list's table and filters it out of all children slots |
| `EchoTolerance.UpdatedShows` | packages/core/issues/ws-updaters.ts:28-74 | an update event overwrites exactly the fields it names of its issue in the list's table and the detail slot, and of no other issue |
| `EchoTolerance.UpdatedReachesParents` | packages/core/issues/ws-updaters.ts:35-73 | by the parent known before the event: an unmoved issue has the named fields of its row overwritten there and nowhere else; a moved one leaves all rows and exactly the cached children of both parents are marked |
| `EchoTolerance.CreatedShows` | packages/core/issues/ws-updaters.ts:13-26 | a creation is a table insert and marks the parent's children |
| `EchoTolerance.DeletedShows` | packages/core/issues/ws-updaters.ts:105-127 | a delete event leaves the issue in no slot, keeps all others in their order and marks the parent |
| `EchoTolerance.CreateEchoes` | packages/core/realtime/use-realtime-sync.ts:282-285 | reply and echo of a creation leave the same slots in either order and however often |
| `EchoTolerance.UpdateEchoes` | packages/core/realtime/use-realtime-sync.ts:282-285 | a second delivery of an update event, or its delivery after the optimistic update, changes no slot at all if and only if it does not move the issue to a new parent that the caches know afterwards and among whose cached children a row of the issue would change; list, detail slot and labels never change |
| `EchoTolerance.MoveEchoPatchesARow` | packages/core/issues/ws-updaters.ts:55-66 | the excepted case happens: the second delivery of a move patches a row that the first left alone |
| `EchoTolerance.DeleteEchoes` | packages/core/realtime/use-realtime-sync.ts:282-285 | after the optimistic delete its echo only drops the issue's own children slot, and a second echo nothing |
| `LabelSync.LabelHooks.OnAttach` | packages/core/labels/mutations.ts:104-121 | an attach writes only when the set is cached, lacks the label and the label is known; it returns the set it saw |
| `LabelSync.LabelHooks.OnDetach` | packages/core/labels/mutations.ts:149-160 | a detach writes the cached set without the label |
| `LabelSync.LabelWritesWhen` | packages/core/labels/mutations.ts:104-160 | without a cached set neither attach nor detach writes; an attach writes nothing either when the set has the label or nobody knows it; a detach filters the label out |
| `LabelAgreement.ApplyAgreesWhen` | packages/core/issues/ws-updaters.ts:13-127 | for each event, reply and fetch: agreement survives if and only if the labels it brings agree with the copies it leaves alone |
| `LabelAgreement.FailAgreesWhen` | packages/core/issues/mutations.ts:181-191 | a rollback keeps agreement if and only if the snapshots it writes back agree with the detail and label slots as they are now; a label rollback always does |
| `LabelAgreement.StaleSnapshotDisagrees` | packages/core/issues/mutations.ts:181-183 | and it can break it: an issue relabelled while another's update is under way gets its old labels back in the list when that update fails, and keeps the new ones in its detail slot |
| `LabelAgreement.NextAgreesWhen` | packages/core/labels/mutations.ts:99-171 | every step of all issue and label mutations and other writers keeps list entry, detail slot and label slot of every issue in agreement exactly when it brings agreeing labels; attach, detach, reply and label event always do |
| `LabelAgreement.LabelsAlwaysAgree` | packages/core/labels/mutations.ts:99-171 | over every run of issue and label mutations, events, replies and fetches the three copies agree throughout if and only if they did at the start and each step brought agreeing labels |
| `LabelSync.WriteShowsEverywhere` | packages/core/issues/ws-updaters.ts:87-103 | a label write shows the same set in every place where the issue is cached and touches no other issue |
| `LabelSync.AttachThenDetach` | packages/core/labels/mutations.ts:104-160 | an attach appends the known label at the end of the set; detaching it gives the old set back |
| `LabelAgreement.LabelRollbackIsExact` | packages/core/labels/mutations.ts:104-127 | when the copies agree, a failed attach or detach restores every slot |
| `LabelSync.LabelRollbackMarksWhen` | packages/core/labels/mutations.ts:122-140 | after a label rollback settles, the label slot is stale, the list and the detail slot are not; all copies are marked if and only if there was neither list nor detail slot |
| `CommentCascade.CollectRemoved` | packages/core/issues/mutations.ts:453-470 | the repeat-until-unchanged loop ends on any parent graph, cycles included, and finds exactly the comment and its descendants |
| `CommentCascade.DescendantsAreLeast` | packages/core/issues/mutations.ts:453-470 | the descendants are the least set that holds the comment and is closed under replies |
| `CommentCascade.NoOrphans` | packages/core/issues/mutations.ts:472-474 | no surviving entry has a removed parent |
| `CommentCascade.Timeline.OnDelete` | packages/core/issues/mutations.ts:449-476 | the timeline is the old one with exactly the descendants of the comment filtered out; an absent one stays absent |
| `CommentCascade.FailedDelete` | packages/core/issues/mutations.ts:449-484 | a failed delete puts the timeline back and marks it |
| `TaskLog.TaskMessages.OnTaskMessage` | packages/core/realtime/use-realtime-sync.ts:570-578 | a message enters its own task's log unless its number is there, and no other log |
| `TaskLog.TaskMessages.OnTaskMessages` | packages/core/realtime/use-realtime-sync.ts:570-578 | in any stream for many tasks each log receives its own messages in delivery order |
| `TaskLog.DeliveredExactly` | packages/core/realtime/use-realtime-sync.ts:570-578 | in any order and duplication an ascending log stays strictly ascending and holds exactly the first message of each number |
| `TaskLog.ClientsConverge` | packages/core/realtime/use-realtime-sync.ts:570-578 | two clients that started alike and received the same messages in whatever orders hold equal logs |
| `Inbox.GroupByKey` | packages/core/inbox/queries.ts:40-46 | the map of groups keeps first-seen key order and each group's items in list order |
| `Inbox.DeduplicateInboxItems` | packages/core/inbox/queries.ts:38-59 | the loops and both sorts compute `Dedup` |
| `Inbox.DedupSpecification` | packages/core/inbox/queries.ts:38-59 | exactly one entry for each issue, or item without one, of the unarchived items, its newest with ties to the earliest listed, newest first over all |
| `Inbox.DedupTwice` | packages/core/inbox/queries.ts:38-59 | deduplicating again changes nothing |
| `Inbox.InboxList.OnArchive` | packages/core/inbox/mutations.ts:34-48 | the optimistic archive marks the item and all items of its issue |
| `Inbox.ArchiveMarks` | packages/core/inbox/mutations.ts:34-48 | archiving marks just the item and those of its nonempty issue, each in its place, and changes nothing else |
| `Inbox.FailedArchive` | packages/core/inbox/mutations.ts:34-53 | an archive that fails with no write between leaves the list as it was |
| `Inbox.ArchiveCommutesWithDedup` | packages/core/inbox/mutations.ts:34-48 | the deduplicated list after an archive is the one before without the archived item's entry, in the same order, if the archive hits exactly the item's group; with unique item ids only then |
| `Inbox.WellKeyedHitsGroup` | packages/core/inbox/mutations.ts:38-46 | with unique item ids that are no issue's id, and nonempty issue ids, archiving hits exactly the item's group |
| `Paging.FetchFirstPages` | packages/core/issues/queries.ts:64-76 | every visible status and no other gets its first page and the server's total |
| `Paging.Pager.Request` | packages/core/issues/mutations.ts:69-78 | a load asks for the offset of what is loaded, and only when idle and incomplete |
| `Paging.Pager.Receive` | packages/core/issues/mutations.ts:79-91 | a response is appended, less what is loaded by then, and sets the total |
| `Paging.ReceivedIs` | packages/core/issues/mutations.ts:79-91 | a response puts those of its issues that are not loaded behind the loaded ones, in order, and its total replaces the old one |
| `Paging.Pager.LoadAll` | packages/core/issues/mutations.ts:52-95 | from a prefix, loading until there is no more ends with the server's whole list |
| `Paging.LoadKeepsPrefix` | packages/core/issues/mutations.ts:73-88 | a prefix of the server's list stays one and grows by a page |
| `Paging.PagingIsComplete` | packages/core/issues/mutations.ts:63-92 | from the first page, n loads give n+1 pages, and there is no more exactly when the column is the server's list |
| `Paging.LoadCoversWhen` | packages/core/issues/mutations.ts:73-88 | in any column a load covers the list up to its page's end if and only if the column covered the list up to its own length |
| `Paging.LoadCanStall` | packages/core/issues/mutations.ts:73-88 | a column that lacks the first issue never gets it and always claims more |
| `Analytics.AnalyticsClient.InitAnalytics` | packages/core/analytics/index.ts:118-185 | starting up registers, flushes the buffers in order, and reports whether the library runs |
| `Analytics.AnalyticsClient.DrainPendingOps` | packages/core/analytics/index.ts:176-183 | the drain sends each buffered operation once, in order: an event under its name with the caller's properties and the defaults, a person-set as it is; and it leaves none |
| `Analytics.AnalyticsClient.Replay` | packages/core/analytics/index.ts:118-324 | any sequence of calls takes the module's variables through the run of that sequence |
| `Analytics.EnrichKeepsCaller` | packages/core/analytics/index.ts:270-287 | enrichment never overwrites what the caller says and fills in exactly the four defaults, with their values |
| `Analytics.EnvironmentIs` | packages/core/analytics/index.ts:289-305 | the environment is one of three names, by the trimmed value in lower case |
| `Analytics.Buffering` | packages/core/analytics/index.ts:196-259 | before the start nothing is sent and the buffers are what the calls since the last reset say |
| `Analytics.EmittedExactly` | packages/core/analytics/index.ts:118-324 | for any call sequence, what is sent is read off the calls alone, emission by emission: at the start the key and host, the registered properties, the last identify, the last page view and every event and person-set since the last reset, each once and in order; behind it each call once; and the buffers stay empty |
| `Analytics.ResetForgets` | packages/core/analytics/index.ts:209-214 | nothing called before a reset before the start makes any difference to what is ever sent |
| `RefreshDebounce.RefreshEffect.Replay` | packages/core/realtime/use-realtime-sync.ts:237-280 | the handlers, called as the events come, take the effect through every run |
| `RefreshDebounce.NoEventIsLost` | packages/core/realtime/use-realtime-sync.ts:237-280 | over every run, read off the events alone: behind each message that asks for a refresh its prefix's timeout has fired at least 100 ms later, the effect was cleaned up, or the timeout is live and due 100 ms after the last such message |
| `RefreshDebounce.TimersAreDue` | packages/core/realtime/use-realtime-sync.ts:237-280 | over every run each prefix has at most one live timeout, the one in the map, due 100 ms after the last message that asked for it; after the cleanup there is none |
| `RefreshDebounce.QuietMeansAnswered` | packages/core/realtime/use-realtime-sync.ts:237-280 | once no timeout is live every message that asks for a refresh was answered late enough or cleaned up |
| `RefreshDebounce.RoutedPrefix` | packages/core/realtime/use-realtime-sync.ts:274-280 | an event takes the debounced path of a name if and only if it has no own handler, the lookup finds the name, and the event is the name, alone or followed by a colon |
| `WsClients.WSClient.Replay` | packages/core/api/ws-client.ts:49-136 | the client's methods and callbacks, called as the events come, take it through every run |
| `WsClients.NextKeepsInvariant` | packages/core/api/ws-client.ts:49-136 | every step but a second connect keeps exactly one of a socket whose close is yet to come and a pending timer while active, and neither otherwise |
| `WsClients.ConnectNeedsIdle` | packages/core/api/ws-client.ts:49-64 | connecting keeps that invariant if and only if the client is idle |
| `WsClients.CallbacksRunWhen` | packages/core/api/ws-client.ts:66-136 | over every run, read off the events alone: reconnect callbacks run at each authentication since the last disconnect but the first, and those run that are registered then |
| `WsClients.ReconnectSafety` | packages/core/api/ws-client.ts:49-136 | over every run: one of such a socket and a timer while active; no step but connect opens a socket while not; callbacks ran once for each authentication but the first, and so once for each authenticated socket but the first if and only if none was authenticated twice |

## Left out

- Server, HTTP client and payload parsing: replies and fetches are any values.
- Query cancellation, garbage collection and refetch scheduling of the query library: a fetch is any value arriving at any time.
- The filtered "my issues" lists, timeline, reactions and subscriber slots of the issue: a mark on the first, nothing on the others.
- The staleness of the filtered lists and of the children's progress over runs: these two hold no data in the model, so each step's marks on them are stated, and no run of them. The settle step of a creation is one of the marks that may come at any time.
- The recently visited store written on creation, and inbox status patches on issue events: one assignment each.
- Creating, renaming and deleting labels, and the list of all labels: the list enters the attach step as any value.
- Comment create, edit, resolve and reactions, and the other inbox mutations: snapshots and maps of the same shape.
- The patterns for code and math spans, and which characters make a URL or a path: third-party or regular expressions without a stated contract.
- StreamingBlocks.HashOf: the base-36 spelling of the hash, which is injective, and characters beyond the basic plane, which the source hashes as two units.
- Rendering, memoization and the handlers for clicks.
- WebSocket message dispatch to handler sets, URL building and logging.
- The bodies of the refreshes, each a list of invalidations, and the reconnect refetch.
- Sign-up source cookie, client type detection (a parameter) and the options passed to the analytics library.
- Lower-casing of the environment name beyond ASCII letters, which matches no known name.
