# Verification of the GTFS editor, the stage scripts and the route index

This project models five parts of the repository in Dafny and proves what each of them is for.

**The draft engine of the editor** (`editor-ui/dev/mock_server.py`). A feed is three tables: stops (and
stations), routes, and the ordered rows of each route. A draft is a list of changes, replayed in front of the
live tables by an overlay. `Replay` defines what one change writes and what a list of changes shows;
`Storage` has the store and the overlay as classes that write in place; `CallIndex` is the index from stops to
the routes that call there. `Findings`, `RowRules`, `Validation` and `Checking` are the validator: the pass over
a stop list, grading against the live list, one change, a whole draft; `Reports` says what each finding about a
list means and `Passing` which changes pass, both in terms of the tables. `Updates` says what each change leaves
in a record. `Conflicts` compares base versions and `Bases` follows a change from its recording to its refusal.
`Drafts` and `Cases` are the calls (`Calls`: when each is accepted and what it leaves; `Outcomes`: what a settled
case does to the stops): editing, submitting, reviewing, committing, and settling station proposals
and coordinate reviews; `Editing` is the object that makes them in place. `Steps` turns the calls into events,
a run being any list of them from any state, by any users. The safety results rest on these: `Integrity`,
`StrandedRun`, `Merges`, `Lifecycle`, `Provenance`, `Runs`, `Batches`, `Splits`.

**The stage scripts** (`scripts/backfill_stages.py`, `scripts/map_mtc_stages.py`). `StageCut` cuts a route's rows
into fare stages, `StageChoice` chooses one stop list per stage (`Ranking`: which one, told from the runs), `Backfill` keys every run and rewrites the
routes from their stages, `Fixpoint` proves what the rewriting keeps, `Reconcile` pairs a route's stages with
those of the replica, `StageMap` is the whole mapping and its independence of the order of routes, `Keys` says
which stage a run is taken for and what is written of it. `FareCuts`
joins the two worlds: a stop list that the editor's validator accepts is cut by the scripts at its openers.

**The CSV reader and writer** (`editor-ui/js/csv.js`): `Csv`, `CsvReading`, `CsvWriting`, against the grammar of
section 2 of RFC 4180, with any of CR, LF and CRLF as a line end.

**The polyline codec** of the editor (`Polyline`) and **the route index filter** of the server (`RouteIndex`).

Code that changes things step by step is imperative here too: `Storage.Store`, `Storage.Projection` and
`Editing.EditorApi` are classes, and the validator's pass, the stage scripts' loops, the CSV reader's cursor,
both polyline loops and the index filter are methods. Each is proved equal to a function, and the results below
are about those functions.

## How to read the draft results

Referential integrity (every row that is more than a map marker names an existing, undeleted stop that is not a
station) does **not** survive every commit. Validation looks at whether the two records of a merge exist, not at
what kind of record they are; adding a merge to a draft checks the kinds, editing one does not, and what was
checked may have changed by the commit. `StrandedRun.RunStrandsACall` is a run of six accepted calls, by an editor
and an approver, that ends with a row calling at a station.

When it does survive is known exactly. `Integrity.Stranded` goes through a draft's merges: one that leaves calls on
a station or on a deleted record strands every route that calls there, and a later change frees a strand by
replacing the route's stop list or by merging the record away as a stop. `Integrity.IntegrityIsExact`: the commit of
a draft that passes validation keeps integrity if and only if nothing is stranded at its end.
`Runs.RunIntegrityIsExact`: from an intact feed every state of a run is intact if and only if no commit of the run
strands anything. For one change this is the guard `MovesSafely` (`Integrity.GuardIsExact`), and the guard on every
change is enough for longer drafts and for runs (`Integrity.ValidDraftKeepsIntegrity`, `Runs.RunKeepsIntegrity`).
Integrity here also asks for known stop types, because the grading of findings excuses an unknown type that the live
list has already.

Removing a split's stop creation restores the change list of before exactly when no stop list of the same review
that was there already names the new stop (`Splits.SplitCanBeUndone`).

The editing of a merge keeps its two records apart here; the source checks that when a merge is added and not
when it is edited. A run is otherwise unrestricted: users of any role, any interleaving, refused calls included.

## Model

| member | source | states |
|---|---|---|
| Storage.Store.constructor | editor-ui/dev/mock_server.py:233-245 | The index of a new store is a scan of its rows. |
| Storage.Store.IndexRoute | editor-ui/dev/mock_server.py:393-400 | Re-indexing a route after its rows were replaced makes the index a scan of all rows again. |
| Storage.Store.ApplyCommit | editor-ui/dev/mock_server.py:2401-2418 | A commit in place writes the tables the specification of a commit names, and the index is a scan of the new rows. |
| CallIndex.IndexIsTheScan | editor-ui/dev/mock_server.py:240-245 | As a multiset of (route, sequence), what the index holds for a stop is what a scan of all rows finds. |
| CallIndex.IndexFindsRoutes | editor-ui/dev/mock_server.py:512-516 | The routes in the index under a stop are exactly those whose rows name it. |
| Storage.Projection.FindStop | editor-ui/dev/mock_server.py:487-490 | A stop looked up through the overlay is the one of the whole projected tables. |
| Storage.Projection.RouteRows | editor-ui/dev/mock_server.py:497-500 | So are the rows of a route. |
| Storage.Projection.Using | editor-ui/dev/mock_server.py:512-516 | The index corrected by the overlay gives exactly the routes whose projected rows name the stop. |
| Storage.Projection.Platforms | editor-ui/dev/mock_server.py:518-527 | The children found by scan and correction are exactly the projected stops with that parent. |
| Storage.Projection.constructor | editor-ui/dev/mock_server.py:478-485 | Replaying a change list from an empty overlay gives the specified overlay. |
| Storage.Projection.Apply | editor-ui/dev/mock_server.py:529-631 | One change writes in place exactly the records it is specified to write, for each of the twelve kinds of change. |
| Storage.Projection.ApplyStopMerge | editor-ui/dev/mock_server.py:549-562 | A stop merge keeps the chosen name and point, deletes and redirects the merged stop, and renames it in every route that calls there. |
| Storage.Projection.ApplyStation | editor-ui/dev/mock_server.py:587-611 | A station with members: stops no longer listed lose it as parent, listed ones gain it, with their labels. |
| Storage.Projection.ApplyStationDelete | editor-ui/dev/mock_server.py:612-619 | Deleting a station frees its platforms. |
| Storage.Projection.ApplyStationMerge | editor-ui/dev/mock_server.py:620-631 | A station merge hands every platform to the station that stays and redirects the other. |
| Replay.MergeRenamesEverywhere | editor-ui/dev/mock_server.py:549-562 | Rewriting only the routes that call at the merged stop is renaming it in every route. |
| Replay.ProjectedAppend | editor-ui/dev/mock_server.py:478-485 | A projection of a longer list is the projection of the shorter one with the change applied. |
| Replay.CommitPublishesProjection | editor-ui/dev/mock_server.py:2401-2418 | After a commit the live data answer every stop, route, row, route-at-stop and children query as the draft's projection did, versions apart. |
| Replay.CommitRaisesVersions | editor-ui/dev/mock_server.py:2401-2414 | A commit raises the version of every live record it writes; a record whose version did not rise is untouched. |
| Updates.ProjectionWrites | editor-ui/dev/mock_server.py:529-631 | Replaying one more change writes, field by field, what a change of its kind is for: an update leaves the values it gives and the old ones where it gives none, a creation or deletion its record, a merge the kept name and point, the redirect and the renamed calls, a station its own record and the parents and labels of its platforms; every other field and record stays. |
| Updates.CommitWrites | editor-ui/dev/mock_server.py:2401-2418 | The commit of a draft writes the same of its last change, versions apart. |
| Updates.CommitVersions | editor-ui/dev/mock_server.py:2401-2414 | A live record whose content a commit changes is one version on, a new one is at version one, and a record left at its version is as it was. |
| Texts.StrippedIs | editor-ui/dev/mock_server.py:470-474 | What is compared and stored of a text is the text without the spaces at its ends, and nothing else is taken off. |
| Texts.BlankStrips | editor-ui/dev/mock_server.py:470-474 | Nothing is left exactly of a text of spaces. |
| Findings.Grade | editor-ui/dev/mock_server.py:766-775 | The grading loop, with its list of live keys used up one by one, gives the specified levels. |
| Findings.GradeBlocksOnlyNewProblems | editor-ui/dev/mock_server.py:766-775 | Of each key as many errors stay as the found ones exceed the live ones; the findings keep their number, order and keys, and only an error becomes a warning. |
| Findings.GradeAgainstItself | editor-ui/dev/mock_server.py:766-775 | A list graded against itself has no error. |
| Findings.NewCodeSurvivesGrade | editor-ui/dev/mock_server.py:766-775 | An error whose code the live list does not have stays an error. |
| RowRules.ValidateRows | editor-ui/dev/mock_server.py:643-738 | The pass over a stop list with its running variables reports the specified findings in order. |
| RowRules.ListReferences | editor-ui/dev/mock_server.py:643-738 | A list has a finding about what it refers to exactly when a row is of an unknown type or does not name an existing, undeleted stop that is not a station. |
| RowRules.CleanListIsFareList | editor-ui/dev/mock_server.py:643-738 | A list has no findings if and only if it decomposes into fare stages: named rows, numbers never falling, every row opening a stage or carrying the open one, the first served row a new stage, two rows served, no stop twice running. |
| Reports.ListReports | editor-ui/dev/mock_server.py:643-738 | For every finding key, the pass reports as many errors as there are rows with that very problem, each problem told from the rows alone: no such stop, a station, a number that falls below the highest so far, a stop outside the open stage or under another name, a first call that opens no stage, a repeated call, fewer than two calls, an empty list. |
| Reports.StageKeysDiffer | editor-ui/dev/mock_server.py:700-722 | Two rows have the same stage key only with the same stop, number and name, if no stop id has a bar in it: grading excuses no other row. |
| FareCuts.CutsAtOpeners | scripts/map_mtc_stages.py:509-519 | A list without findings and without markers or hidden stops is cut by the stage scripts only at rows that open a stage, with strictly rising numbers. |
| Validation.CleanStopMerge | editor-ui/dev/mock_server.py:825-858 | A stop merge passes if and only if both stops exist and no route would call twice running at the kept one. |
| Validation.CleanReplace | editor-ui/dev/mock_server.py:917-925 | If the live data have no such errors, a replaced list that passes has no row of an unknown type or without its stop: grading excuses none. |
| Passing.ChangePassesExactly | editor-ui/dev/mock_server.py:778-963 | Every kind of change passes if and only if the tables fit it: creations need a free id and a name, edits an existing undeleted record of the right kind, a deleted stop no row of the final data, a deleted route no other edit, a merge two live records and no route that serves them one after the other, a stop list no more errors of any key than the route has live, stations members that can join. |
| Passing.DraftPassesExactly | editor-ui/dev/mock_server.py:966-983 | A draft passes if and only if each of its changes fits the data just before it. |
| Passing.StopEditPasses | editor-ui/dev/mock_server.py:860-892 | A stop is created, updated or deleted without an error exactly under those conditions. |
| Passing.RouteEditPasses | editor-ui/dev/mock_server.py:893-916 | A route is created exactly under a free id with a number, updated exactly where it exists undeleted, deleted exactly where also no other change of the draft edits it. |
| Passing.RowsPass | editor-ui/dev/mock_server.py:917-925 | A stop list passes exactly for an existing undeleted route and with no new error. |
| Passing.FareListPasses | editor-ui/dev/mock_server.py:917-925 | A list that decomposes into fare stages passes for any existing undeleted route. |
| Passing.StationEditPasses | editor-ui/dev/mock_server.py:926-962 | A station is created, updated or deleted without an error exactly under those conditions, every member a live stop of no other station. |
| Passing.RepeatIsTogether | editor-ui/dev/mock_server.py:838-845 | The repeat check fires exactly where a route serves the two stops one right after the other, either way round. |
| Validation.ValidEveryChange | editor-ui/dev/mock_server.py:966-983 | A draft that passes has no error at any change, each checked against the changes before it applied. |
| Checking.ValidateChange | editor-ui/dev/mock_server.py:778-963 | The checks of one change, made through overlays, give the specified findings. |
| Checking.ValidateSet | editor-ui/dev/mock_server.py:966-983 | One pass with an advancing overlay gives every change its findings against the data just before it. |
| Checking.ConflictsFor | editor-ui/dev/mock_server.py:986-1038 | One pass with an advancing overlay gives the specified conflicts. |
| Conflicts.NoLostUpdate | editor-ui/dev/mock_server.py:986-1038 | A draft without conflicts applies every update, delete and merge to exactly the record its base version named, and every stop list to the rows it was made against. |
| Conflicts.ConflictsExactly | editor-ui/dev/mock_server.py:986-1038 | A change has no conflict if and only if the records it names are live at the versions it names, and the rows before it are the rows it was made against. |
| Conflicts.DraftConflictsExactly | editor-ui/dev/mock_server.py:986-1038 | So for a draft, each change against the data just before it. |
| Bases.AddedChange | editor-ui/dev/mock_server.py:2099-2216 | An added change is the draft's last, under the next id, with its payload and the base it was sent with, or else the live version of its stop, station or route. |
| Bases.StaleIsRefused | editor-ui/dev/mock_server.py:2258-2305 | A draft with a change whose record is live at another version is refused, whoever submits or commits it. |
| Bases.OvertakenIsRefused | editor-ui/dev/mock_server.py:2211-2305 | Over any run: once the record of an update, deletion or merge added without a base of its own has been written since, a draft that still holds the change can be neither submitted nor committed. |
| Runs.VersionNamesContent | editor-ui/dev/mock_server.py:2401-2414 | Over any run, two states that hold a stop or a route under one id and version hold the same record. |
| Runs.CommitLosesNoUpdate | editor-ui/dev/mock_server.py:2297-2305 | In any run, a draft that commits changes exactly the content its base versions named at any earlier time, and its stop lists replace the rows they were made against. |
| Integrity.ChangeKeepsIntegrity | editor-ui/dev/mock_server.py:778-963 | One change that passes, its merge replaying under the guard, strands nothing: every row stays on an existing stop, up to the stops deleted so far. |
| Integrity.ChangeStrands | editor-ui/dev/mock_server.py:529-631 | One change that passes keeps every row sound, up to the stops deleted so far, except exactly the calls that the merges so far have stranded and no later change has freed. |
| Integrity.DeletedStopsUnused | editor-ui/dev/mock_server.py:887-890 | No row of the final projection names a stop the draft deletes. |
| Integrity.IntegrityIsExact | editor-ui/dev/mock_server.py:966-983 | A draft that passes validation, of any length, keeps every row on an existing, undeleted stop that is not a station if and only if it leaves nothing stranded; in the projection and after the commit. |
| Integrity.ValidDraftKeepsIntegrity | editor-ui/dev/mock_server.py:966-983 | A draft that passes and whose merges all replay under the guard strands nothing, so its commit keeps integrity. |
| Integrity.GuardIsExact | editor-ui/dev/mock_server.py:825-858 | For a draft of one change the condition is the guard itself: the commit keeps integrity if and only if the change moves calls safely. |
| Integrity.MergeIntoStationStrands | editor-ui/dev/mock_server.py:825-858 | A draft that merges a called stop into a station passes validation, and its commit breaks integrity. |
| StrandedRun.RunStrandsACall | editor-ui/dev/mock_server.py:2229-2252 | The editor comes to hold and commit such a draft: created, a merge into a stop added, edited to go into a station, submitted, approved and committed, every call accepted. |
| Runs.RunKeepsIntegrity | editor-ui/dev/mock_server.py:2291-2316 | Where every commit of a run replays its merges under the guard, integrity holds in every state. |
| Runs.RunIntegrityIsExact | editor-ui/dev/mock_server.py:2291-2316 | From an intact feed integrity holds in every state of a run if and only if no draft the run commits leaves anything stranded. |
| Runs.StepIntegrityIsExact | editor-ui/dev/mock_server.py:2291-2316 | One call, of any kind, keeps integrity if and only if it is no commit that leaves something stranded. |
| Merges.MergeMovesEveryCall | editor-ui/dev/mock_server.py:549-562 | A stop merge leaves no row on the merged stop, gives the kept stop the union of both route sets, leaves other stops' routes alone, and changes nothing of a row but its stop. |
| Merges.MergeRepeatsExactly | editor-ui/dev/mock_server.py:838-845 | After a merge two consecutive served stops are equal exactly where they were equal before or where the repeat check fires. |
| Merges.CommitKeepsForest | editor-ui/dev/mock_server.py:549-562 | After a validated commit following the merge pointers still ends, within one more step for each merge of the draft. |
| Runs.RunKeepsForest | editor-ui/dev/mock_server.py:2401-2414 | Over every run the merge pointers stay a forest whose depth grows by at most the merges published. |
| Runs.OnlyCommitsPublish | editor-ui/dev/mock_server.py:2291-2316 | No call but a commit changes a stop, a route or a row. |
| Lifecycle.StepTied | editor-ui/dev/mock_server.py:2218-2328 | Every call keeps the cases tied to the drafts that carry them. |
| Lifecycle.RunTied | editor-ui/dev/mock_server.py:3009-3018 | In every reachable state an approved proposal or review names a draft neither committed nor discarded that still holds its change (for a review, a stop change that carries its id); a committed one names a committed draft; waiting and confirmed ones name none. |
| Lifecycle.RemoveTied | editor-ui/dev/mock_server.py:3420-3446 | Taking any change out of a draft keeps that, the stop lists of a split going with the stop it created. |
| Lifecycle.SplitTied | editor-ui/dev/mock_server.py:3318-3390 | So does a split. |
| Lifecycle.MergeReviewTied | editor-ui/dev/mock_server.py:3739-3784 | So does merging the reviewed stop away. |
| Provenance.EveryMove | editor-ui/dev/mock_server.py:2254-2361 | One call takes a draft along one edge of its life, made by a user who may (submit, approve, reject, reopen, commit, discard, edit while a draft), or leaves it; outside the draft status its changes never change. |
| Provenance.EveryStatusHasItsHistory | editor-ui/dev/mock_server.py:3571-3610 | In every run each draft's status is backed by the calls it claims: a submission of this very list, an approval after it, a commit after that. |
| Provenance.CommittedWasReviewed | editor-ui/dev/mock_server.py:2254-2361 | A committed draft was submitted, then approved, then committed with one and the same change list; reviewer and committer each differ from the submitter unless an admin approved it as their own since its last submission, and then a submitter who commits is an admin. |
| Provenance.EndedStays | editor-ui/dev/mock_server.py:2344-2347 | Committed and discarded drafts keep their status and their changes over every run. |
| Batches.BatchIsRun | editor-ui/dev/mock_server.py:2363-2399 | A batch is a run of single calls, so what holds over runs holds over batches. |
| Batches.BatchIsOneVersion | editor-ui/dev/mock_server.py:2363-2399 | A batch raises the feed version by one exactly when a draft of it committed; all that committed carry that version; the tables are those of the committed drafts published in turn, so a failed one changes nothing. |
| Batches.VersionsRise | editor-ui/dev/mock_server.py:2388-2399 | Over any sequence of requests the version never falls, and none raises it by more than one. |
| Splits.SplitConservesCalls | editor-ui/dev/mock_server.py:3318-3390 | Applied to the live data, a split moves the calls of exactly the named routes from the old stop to the fresh one, leaves every other row and record, and some undeleted route still calls at the old stop; the fresh stop has the given point and name, or the old stop's name. |
| Splits.SplitCanBeUndone | editor-ui/dev/mock_server.py:3420-3446 | Removing the split's stop creation restores the change list of before it if and only if no earlier stop list of the review names the new stop. |
| Calls.StatusCallsExactly | editor-ui/dev/mock_server.py:2254-2361 | Submit, reopen, approve, reject, commit and discard are each accepted if and only if permitted, and then the draft has the status asked for: a submit, of a draft with changes that all fit the data before them and were overtaken by nothing; a commit, of an approved draft still so, by an approver other than its submitter or the admin who approved it as their own; an approval of one's own draft, by an admin who asks to; a rejection, with a comment. |
| Calls.DiscardReturns | editor-ui/dev/mock_server.py:2344-2351 | A discard returns exactly the cases the draft carried and touches no table. |
| Calls.CommitSettles | editor-ui/dev/mock_server.py:2317-2328 | A commit settles exactly the cases the draft carried. |
| Calls.AddExactly | editor-ui/dev/mock_server.py:2117-2216 | A draft takes a change if and only if an editor sends it and it shows what the change is about; a merge two live records of its kind, a route's deletion no other edit of the route, a station two members. |
| Calls.PutReplaces | editor-ui/dev/mock_server.py:2229-2252 | An accepted edit replaces the payload, and the base where one is sent, of the one change with that id, by one for the same entity and operation; nothing else of the draft or the feed changes. |
| Calls.RemoveExactly | editor-ui/dev/mock_server.py:2218-2228 | A removal is accepted if and only if an editor makes it and the draft has the change. |
| Calls.RemoveTakesOut | editor-ui/dev/mock_server.py:3420-3446 | Exactly the change leaves and, with the creation of a split's stop, the stop lists of its review that name that stop; the rest keeps its order. |
| Calls.RemoveReturns | editor-ui/dev/mock_server.py:3420-3446 | Exactly the proposal that the change carried waits again; its review is left to the last stop change that still carries it, and waits where there is none. |
| Calls.ProposalExactly | editor-ui/dev/mock_server.py:2977-3055 | A proposal opens a station if and only if it waits, the station's id is free in the draft, it has a name, and two or more of its members are live stops of no station, none chosen twice. |
| Calls.MoveExactly | editor-ui/dev/mock_server.py:3264-3316 | A reviewed stop is moved if and only if the review is open in this draft, feed and draft show the stop, the point is another one, and the draft does not move it yet. |
| Calls.MergeExactly | editor-ui/dev/mock_server.py:3739-3784 | It is merged if and only if also the other is another live stop, the draft edits neither, merges nothing into it and holds nothing of the review. |
| Calls.SplitExactly | editor-ui/dev/mock_server.py:3318-3390 | Routes are split off if and only if they are distinct and call at the stop, another route that calls there stays, the new id is free in the feed and in every draft not discarded, and the draft does nothing to the stop or those lists. |
| Outcomes.MoveMoves | editor-ui/dev/mock_server.py:3284-3316 | After an accepted move the draft shows the reviewed stop at the given point, all else of it as before the change, and so does the feed after a commit of that draft. |
| Outcomes.ReviewMerges | editor-ui/dev/mock_server.py:3739-3784 | After an accepted merge the reviewed stop is deleted and redirected, the kept one has the chosen name and its own point, and every call at the first is at the second; in the draft and after its commit. |
| Outcomes.ApprovalOpens | editor-ui/dev/mock_server.py:3009-3055 | After an accepted approval the station stands with the corrected name and point, its members are its platforms with the labels given, the last label of each counting, and no other stop is touched; in the draft and after its commit. |
| Editing.EditorApi.AppendChange | editor-ui/dev/mock_server.py:2099-2110 | The draft ends with the change under the next id. |
| Editing.EditorApi.AddTo | editor-ui/dev/mock_server.py:2117-2216 | An editor adds a change to a draft: it goes last, under the next id, with the live version as its base if none was given; a merge of records of the wrong kind, a missing record, a second edit of a route to delete are refused, and then nothing is written. |
| Editing.EditorApi.PutIn | editor-ui/dev/mock_server.py:2229-2252 | An editor gives a change of a draft a new payload; its id, key, kind and review stay, and its base unless a new one is given. |
| Editing.EditorApi.TakeOut | editor-ui/dev/mock_server.py:2218-2228 | An editor takes a change out: the proposals it carried wait again, a split's stop lists go with its stop, and its review points at the last stop change left or waits. |
| Editing.EditorApi.ReturnProposals | editor-ui/dev/mock_server.py:3110-3121 | Exactly the approved proposals of the draft, or of the change, wait again. |
| Editing.EditorApi.ReturnReviews | editor-ui/dev/mock_server.py:3448-3456 | Exactly the approved reviews of the draft wait again. |
| Editing.EditorApi.ReviewChangeRemoved | editor-ui/dev/mock_server.py:3420-3446 | The lists of a split go with its stop; the review points at the last stop change left or waits. |
| Editing.EditorApi.SubmitSet | editor-ui/dev/mock_server.py:2258-2272 | An editor submits a draft that has changes, passes validation and has no conflicts; the submitter is noted and an earlier self-approval forgotten. |
| Editing.EditorApi.ReopenSet | editor-ui/dev/mock_server.py:2273-2279 | Whoever started or submitted it, or an admin, makes a submitted, rejected or approved set a draft again; its changes stay, submitter, reviewer and self-approval are forgotten. |
| Editing.EditorApi.ApproveSet | editor-ui/dev/mock_server.py:3571-3582 | An approver approves a submitted set of someone else's; an admin who asks to may approve their own, and that is marked. |
| Editing.EditorApi.RejectSet | editor-ui/dev/mock_server.py:2280-2290 | An approver rejects a submitted set of someone else's, with a comment. |
| Editing.EditorApi.CommitSet | editor-ui/dev/mock_server.py:2291-2328 | An approver other than the submitter, or the admin who approved their own, commits an approved set that has no conflicts and still passes: its projection goes live as the next version and its cases are settled. |
| Editing.EditorApi.DiscardSet | editor-ui/dev/mock_server.py:2344-2351 | Whoever started it, or an admin, discards a set that has not ended; every case it carried waits again. |
| Editing.EditorApi.CommitBatch | editor-ui/dev/mock_server.py:2363-2399 | An approver commits several sets, approving them first if asked: each that can be is committed, a set that cannot publishes nothing, and all committed share one version. |
| Editing.EditorApi.ApproveInto | editor-ui/dev/mock_server.py:3009-3055 | An editor approves a pending proposal into a draft: the creation of its station with some of its members, each an unattached stop, and the proposal carried by it. |
| Editing.EditorApi.Move | editor-ui/dev/mock_server.py:3284-3316 | An editor moves the reviewed stop in a draft that does not move it yet; the review is carried by that change. |
| Editing.EditorApi.Merge | editor-ui/dev/mock_server.py:3739-3784 | An editor merges the reviewed stop into another stop, in a draft with no clashing change; the review is carried by that change. |
| Editing.EditorApi.Split | editor-ui/dev/mock_server.py:3318-3390 | An editor splits routes off the reviewed stop: a new stop, then one stop list per route against the live rows, the review carried by the creation. |
| StageCut.CanonTwice | scripts/backfill_stages.py:358-369 | The compared form of a name is its own compared form. |
| StageCut.CutIsWellCut | scripts/backfill_stages.py:393-423 | The cut loses and moves no row, has no empty part, and cuts exactly where the stage number changes. |
| StageCut.CutOfJoined | scripts/backfill_stages.py:393-423 | Such a division of rows is the only one. |
| StageCut.CutRows | scripts/backfill_stages.py:413-423 | The loop with the last number seen makes that cut. |
| StageCut.CutRuns | scripts/backfill_stages.py:393-446 | A route's stretches, numbered from one and named by their first row. |
| Keys.StretchesAre | scripts/backfill_stages.py:413-446 | A stretch is one part of the cut, numbered from one, with its first row's number and stripped name. |
| Ranking.RoutesInOrder | scripts/backfill_stages.py:372-373 | Routes whose id is a number come by number, padding aside, before all others; those come by code point. |
| Ranking.ChosenExactly | scripts/backfill_stages.py:614-631 | The chosen list is given by a run; none is preferred to it, and it is preferred to every list that an earlier run gives: by the number of runs that give a list, its length and the lowest route that gives it, or by length first. |
| Ranking.CostIsWhatDiffers | scripts/backfill_stages.py:634-643 | What a run pays is the length of both lists less twice the stops common to them, counted with repeats. |
| Keys.PairedByPosition | scripts/backfill_stages.py:536-580 | Where the replica counts as many stages as a route has stretches, stretch k is keyed by the stop of its k-th stage and shown by its name; otherwise every stretch goes by its own name. |
| Keys.PairedByVerdict | scripts/map_mtc_stages.py:798-808 | In the mapping a run that has a head is that stage, and a run without one goes by its own name. |
| Keys.StageNames | scripts/backfill_stages.py:603-611 | A stage is called what the first run of its key shows. |
| Keys.RowsWrittenFor | scripts/backfill_stages.py:713-719 | The rows written for stretch k carry its own number, the name of its stage, and the stage's stops in order. |
| StageChoice.ChoiceIsOptimal | scripts/backfill_stages.py:614-631 | The chosen list is one that a run of the stage gives, and no list given is ranked ahead of it by (count, length, lowest route) or (length, count, lowest route). |
| StageChoice.ImpactIsTheSumOfRuns | scripts/backfill_stages.py:634-643 | The impact, summed list by list, is the sum over the runs of what each gains and loses, as multisets of stops. |
| StageChoice.AgreedCostsNothing | scripts/backfill_stages.py:634-643 | Where all runs agree the impact is zero. |
| StageChoice.GroupStages | scripts/backfill_stages.py:603-611 | Every run is filed under its key, and a stage is called what its first run shows. |
| StageChoice.Choose | scripts/backfill_stages.py:614-643 | The choice as the loop makes it: an observed, optimal list, with the summed cost of its runs. |
| Fixpoint.KeyRoutes | scripts/backfill_stages.py:605-611 | The loop over the routes keys every run. |
| Fixpoint.ChooseStages | scripts/backfill_stages.py:613-643 | The loop over the groups makes the specified stage of each and sums what it costs. |
| Fixpoint.BackfillIsAFixpoint | scripts/backfill_stages.py:583-719 | Reading its own output back with the same replica and order, the migration finds the same runs and keys, makes the same stages with one list each, and writes the same rows. |
| Fixpoint.KeepsWhatIsAgreed | scripts/backfill_stages.py:713-719 | The migration keeps every row's stage number and stop, for all routes, if and only if every stage was given one list. |
| Fixpoint.RouteKept | scripts/backfill_stages.py:713-719 | A single route is kept, but for spelling, if and only if each of its runs gives the list its stage has. |
| Backfill.FlatIsWellCut | scripts/backfill_stages.py:713-719 | The rows written for a route are cut where its own rows were. |
| Backfill.StageReadAgain | scripts/backfill_stages.py:583-633 | Read back, a stage is the same stage with one list. |
| Reconcile.PairingIsSound | scripts/map_mtc_stages.py:717-733 | Every pairing is with a stage of the run's own name, and no position of the replica is used twice. |
| Reconcile.PairedByName | scripts/map_mtc_stages.py:724-733 | Unless the lists are the same, a run is paired with a stage if and only if the name occurs once on each side and the stage carries it. |
| Reconcile.DistinctPairByName | scripts/map_mtc_stages.py:719-733 | Where no name repeats, a run has the stage of its name, whatever the order: by position and by name agree. |
| Reconcile.SameNamesPairAll | scripts/map_mtc_stages.py:724-733 | Equal names without repeats pair every run. |
| Reconcile.SilentWhenSame | scripts/map_mtc_stages.py:717-722 | No reason is given exactly when both lists are the same and the replica has the route. |
| Reconcile.ReasonsAreTrue | scripts/map_mtc_stages.py:734-759 | Each reason is true of the lists and the pairing: none, the same list; absent, no replica; ambiguous, repeated names and nothing paired; count, different lengths; order, the same names in another order and paired exactly those that occur once; name, pairs all in place and one missing; set, different names and a pair out of place. |
| Reconcile.ReconcileRoute | scripts/map_mtc_stages.py:691-759 | The loop over the runs gives the specified verdict. |
| Reconcile.FoldedNoneTwice | scripts/map_mtc_stages.py:590-600 | The folded replica has no stop twice running. |
| Reconcile.FoldedKeepsStops | scripts/map_mtc_stages.py:590-600 | Folding loses no stop. |
| Reconcile.FoldingSettles | scripts/map_mtc_stages.py:590-600 | Folding makes up no head, and folding again changes nothing. |
| StageMap.OrderDoesNotMatter | scripts/map_mtc_stages.py:776-841 | The same routes in another order give the same runs, stages and impacts, where no two routes sort alike. |
| StageMap.TiedRoutesKeepTheirOrder | scripts/map_mtc_stages.py:441-442 | Two routes that sort alike are sorted in the order they came in. |
| StageMap.OrderCanMatter | scripts/map_mtc_stages.py:800-822 | So that condition is needed: routes "1" and "01" give their stage different stops in different orders. |
| StageMap.EveryRunInOneStage | scripts/map_mtc_stages.py:798-808 | Each run is in the group of exactly one stage, as often as it occurs. |
| StageMap.StagesAreOptimal | scripts/map_mtc_stages.py:812-841 | Every stage of the map has an observed, optimal list; its impact is the sum over its runs, and zero where they agree. |
| StageMap.MapOne | scripts/map_mtc_stages.py:800-808 | A route's runs each get the stage their verdict pairs them with. |
| StageMap.MapEveryStage | scripts/map_mtc_stages.py:776-843 | The loops over the sorted routes and over the groups give the specified runs, stages and impacts. |
| Csv.ParseCsv | editor-ui/js/csv.js:19-92 | The cursor loop reads what the specified reader reads, errors and their lines included, and ends. |
| CsvReading.TextIsRead | editor-ui/js/csv.js:19-92 | A text spelled by the grammar reads as the records it spells. |
| CsvReading.StartsCountBreaks | editor-ui/js/csv.js:26-45 | Record i starts on line one plus the line breaks before it, a CR and its LF counted once. |
| CsvWriting.ReadsExactlyRfc4180 | editor-ui/js/csv.js:19-92 | A text reads if and only if, its byte order mark aside, the grammar spells it; it then reads as those records with those lines. |
| CsvWriting.WrittenReadsBack | editor-ui/js/csv.js:95-103 | Whatever is written reads back, a record without values as one empty value. |
| CsvWriting.RoundTrip | editor-ui/js/csv.js:95-103 | Reading what was written gives the records back if and only if there is a record and every record has a value. |
| CsvWriting.PrintedAgain | editor-ui/js/csv.js:19-103 | Printing what was read, and reading that, gives the same records if and only if the text held more than a byte order mark. |
| CsvWriting.WrittenUnmarked | editor-ui/js/csv.js:95-103 | A byte order mark at the start of the first value is not taken for the file's. |
| Polyline.PolylineEncode | editor-ui/dev/mock_server.py:148-159 | The loops write the specified encoding. |
| Polyline.PolylineDecode | editor-ui/dev/mock_server.py:162-182 | The loops read the specified points or find the text truncated. |
| Polyline.ReadValue | editor-ui/dev/mock_server.py:165-176 | One value, chunk by chunk, with the shift growing. |
| Polyline.RoundTrip | editor-ui/dev/mock_server.py:148-182 | Decoding gives back any list of integer points. |
| Polyline.PrefixesDecode | editor-ui/dev/mock_server.py:162-182 | The start of an encoding decodes to the first points, or is truncated and then encodes none of the leading lists. |
| Polyline.EncodingIsInjective | editor-ui/dev/mock_server.py:148-159 | Different lists of points have different encodings. |
| Polyline.EncodingPrints | editor-ui/dev/mock_server.py:148-159 | Every character of an encoding is a printing one, from question mark to tilde. |
| Polyline.PublishedExample | editor-ui/dev/mock_server.py:148-159 | The example the format is published with is encoded as published. |
| Polyline.PublishedLine | editor-ui/dev/mock_server.py:148-159 | So is the published line of three points, the second and third by their differences. |
| RouteIndex.WithoutRoutes | src/models.rs:865-890 | The loop over the mappings and both rebuilt indexes give the specified data. |
| RouteIndex.WithoutAgrees | src/models.rs:865-890 | Each key of either index lists, in order, the mappings it listed less those of the routes gone. |
| RouteIndex.IndexAgrees | src/models.rs:874-885 | A key is left exactly when it lists something that stays. |
| RouteIndex.CompleteStays | src/models.rs:865-890 | An index that lists every mapping once under its key and nothing else does so of what is left. |
| RouteIndex.WithoutTwice | src/models.rs:865-890 | Removing some routes and then others is removing both. |
| RouteIndex.WithoutNothing | src/models.rs:865-890 | Removing nothing changes nothing if and only if every listed position exists and every key lists something. |

## Left out

- Everything of the editor but one feed: other feeds, `feed_config` changes and the data source, pods, webhooks, GPS jobs, sessions, sign-in, the HTTP layer, audit rows and times.
- Fields carried along without being looked at: descriptions, clusters, regional and Hindi names, colours, agencies, polylines of routes, comments and notes beyond being blank or not.
- Findings that only add errors on the form of a payload (positions out of range, ids and colours of the wrong form, texts that are too long, polylines that do not decode) and all warnings of the validator, distances included. With fewer findings more drafts pass, so the results about drafts that pass are the stronger for it.
- The texts of findings: a finding is its code, its level and what it is about, which is what grading compares.
- `rows_hash` is the rows it hashes; that two lists with the same digest are the same list is taken for granted.
- `position_unchanged` (closer than half a metre) is equality of positions.
- A stop id, marker id or review id that is empty: it is `None` here, as the source treats both alike.
- The labels of an approval's members are parameters, resolved already: the corrected label where there is one, else the proposal's.
- The random part of a minted stop id: it is a parameter, and one in use is refused.
- Bulk import and approving many proposals, which repeat single calls; the superseding of reviews and the fixtures.
- Editing.EditorApi.PutIn: keeps a merge's two records apart and a deletion without payload, which the source checks when a change is added and not when it is edited.
- ConfirmReview, ReopenReview, RejectProposal, ReopenProposal, NewDraft: given as functions on the state, not as methods of the class; each writes one record.
- Route ids with digits outside ASCII, which the scripts' `isdigit` accepts: they sort as text here.
- The order in which stages are written out, their evidence, the review texts, `stage_ids_for` (a digest and a slug can coincide), `--ignore-case`, problem counts, SQL and reports of the stage scripts. The sorting of the replica's rows before folding: the folded list is proved of any list.
- Reconcile.Reconciled: pairs a run with a position of the replica's list, from which the head follows.
- CSV values that are not strings, which `csvValue` writes by `String(v)`, null and undefined as the empty value.
- Polyline.Encode: works on coordinates already rounded to integers; rounding and the division back are left out.
- Of the server, everything but `without_routes`.
