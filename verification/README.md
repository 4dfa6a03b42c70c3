# Konnekt store, backup and install protocols, verified

A Dafny model of the parts of Konnekt's backend whose promises are about runs that are cut off
anywhere, and proofs of those promises.

- **Snapshot store** (`Keys`, `Snapshot`, `World`, `Protocol`, `Assemble`, `Staging`, `Publish`,
  `Prune`, `Move`, `Link`, `Steps`, `Runs`, `Cases`): a stopped Distant Horizons database is cut into parts named by
  their hash, the missing ones are uploaded, each level's file is assembled in the bucket, and
  `latest.json` is written last; old snapshots are pruned; a link operation moves the live snapshot
  between a public base and private ones. The bucket and the link record are a class (`World`)
  that keeps every durable state it passes through, and every bucket operation may fail, before or
  after it took effect. The invariant of `Protocol` is proved for every one of those states. `Steps`
  takes a publish and a link change one durable step at a time; `Runs` interleaves them in every
  way, with only `HoldLink` and `beginMove` to keep them apart.
- **World backup and restore** (`Files`, `Archive`, `Unzip`, `Swap`, `Restore`): a disk of paths
  whose operations may each fail, the archive's round trip, and the swap of several folders with
  its rollback.
- **Console lines** (`Console`), **remote approvals** (`Approvals`), **mod dependencies**
  (`Dependencies`), **mod install** (`ModInstall`).

`dafny verify dfyconfig.toml` checks the whole project.

## How to read the model

- A history that the code does not keep is ghost: `trace` (every durable state so far), `made` and
  `everLive` (link tokens ever made and ever live), `faults` and `failed` (what failed and why).
  Properties of runs are stated over `trace`. `faults` only grows, and an operation that fails for
  any reason but what it was asked to do makes it grow: `faults == old(faults)` says that nothing
  failed, `faults <= old(faults) + 1` that at most one operation did. `sent` is the keys put in the
  bucket so far, `begun` the state a link change began in, and `refused` the count of faults after
  each rename that failed.
- SHA-256 is a constructor, `Sha256(of)`: injective, and nothing else about it is used.
- Object keys are segments; `Keys.RelPath` and `Keys.KeyOf` are the layout. Segment `Hash(d)` is 64
  hex digits.
- A method of the source that updates fields is a method here, with the loop it has; the
  functions and predicates it is proved against are the specification.

## Assumptions

The code needs these, and the proofs state them as preconditions or build them into the model:

- one publisher at a time for a key prefix (`dhClaim` is per server, `backend/services/dhsnapshot_claim.go:19-36`), and
  a non-empty prefix that does not change;
- the prefix is recorded after a publish and before its hold is released, so that a link change
  that starts later sees it (`MayChange`; `Link.CommitUnmovedIff` says what happens otherwise);
- the same `createdAt` stamp means the same index (`SameStampSameIndex`, `SameInstant`);
- fresh link tokens, which as 26 base32 characters are never `parts` or `snapshots`;
- a listing that succeeds names every object of its region; it may also name foreign keys;
- completing a multipart upload, writing the link record, a staging file or the manifest is one
  step; the source writes the last three beside and renames;
- a process that is killed is a run in which every later operation fails;
- names on a disk are not empty, `.` or `..`, and the staging folder of a restore is not named
  like one of the world's folders or their aside names;
- a reader of the console reports the end of input by itself, as the pipes of
  `backend/services/server.go:632` do.

## Findings

Properties that do not hold of the code as it is, each with a lemma that says when they do:

- A prune that stops part way is not always finished by the next one: a folder that was complete,
  is not kept, and is newer than a kept one can lose its index first, and then stays until every
  kept one is newer (`Prune.ConvergesIff`, `Prune.Stranded`). This needs `latest.json` to name an
  older folder than the `keep` newest ones; `Cases.StrandedCase` is such a bucket.
- A link change between a publish and the record of its prefix leaves the published snapshot where
  the record no longer points, and an old private link answering unrecorded
  (`Link.CommitUnmovedIff`, `Cases.CommitUnmovedCase`).
- A move to a private token cut off after its pointer was written leaves a base that a later
  change to public takes off the record (`Link.ForgottenPendingIff`, `Cases.ForgottenPendingCase`).
  Nobody was given that token.
- A console reader that returns bytes together with the end of input loses lines exactly when the
  call that ends the scan is given the LF of a cut CR LF and more, or the end of a dropped line and
  more (`Console.EndLosesIff`, `Console.EndDeliversAllIff`; `Console.EndWithDataLosesALine` has an
  input of each kind). `server.go` reads pipes, which report the end of input by itself, so such a
  read is not received there.
- The desktop can be told that its yes was taken although the call ends as timed out: a pending id
  whose select has ended never allows the call (`Approvals.TooLateToAnswer`), and one in its select
  may or may not (`Approvals.AnAcceptedYesMayAllow`, `Approvals.AnAcceptedYesMayTimeOut`).
- A project first met as an optional dependency stays optional, and its own dependencies unlooked
  at, when a required mod requires it later (`Dependencies.RequiredIffFirstMentionIs`,
  `Dependencies.FirstMetAsOptional`).
- Updating a switched-on mod under its own file name while a switched-off copy of it lies beside it
  switches the update off and leaves a row without a file (`ModInstall.AgreesIff`,
  `ModInstall.UpdateSwitchedOff`). A copy in plugins is left beside the new jar when mods holds a
  file of its name (`ModInstall.CopyLeftIff`). When the copies cannot all be moved aside, the
  download stays in the folder beside the copies that were put back: what is read is as it was
  exactly when the new name was there before with this same jar (`ModInstall.InstallOne`, outcome
  `NotReplaced`).
- A world called `level.dat` is backed up in a layout its restore takes for the old one
  (`Restore.ArchiveRoundTrip`). A failed look at the staged world folder has the same effect:
  `Restore.RestoreWorld` promises the layout only for runs without a fault.

## Model

| member | source | states |
|---|---|---|
| `Runs.AnyRun` | backend/services/scheduler_blocks_dhpublish.go:193-243 | over every interleaving of the steps of a publish, the steps of a link change, snapshots and restarts, each step failing or not: the states and the phases are those the commands lead to in turn (`Leads`), every durable state satisfies the store invariant, no publish and no change are ever both under way, the snapshot that was live when a change began stays live under whatever token is, every step of the history that changes the token keeps what a reader finds, and a change that says that no old link works is right |
| `Runs.LinkChangesKeepSnapshot` | backend/services/dhsnapshot_link.go:375-393 | wherever in such a run the live token changes, the snapshot that was live is live under the new one |
| `Runs.WhateverLatestNames` | backend/services/dhsnapshot_publish.go:22-26 | in every state of such a run, what the live `latest.json` leads to is whole: index, page, every part with the bytes its name promises, every level file equal to its parts in order and to its whole-file hash |
| `Runs.LiveStaysComplete` | backend/services/dhsnapshot_link.go:498-522 | once a publish was recorded, the base named by the record stays complete in every later state |
| `Runs.Do` | backend/services/scheduler_blocks_dhpublish.go:193-243 | one command leads where the source goes: a snapshot stages the index of its source, a publish or a change begins exactly when neither has the link, and each step of either goes on to the next phase with exactly that phase's writes when nothing fails, or stops for one of its stated reasons |
| `Runs.OneStepOn` | backend/services/dhsnapshot_publish.go:125-172 | with nothing failing each step of a publish of a staged sound index comes strictly closer to its end |
| `Runs.CarriedOn` | backend/services/dhsnapshot_publish.go:125-172 | a publish that is carried on for as many commands as it has steps left, with nothing failing, has its index live |
| `Runs.SnapshotThenPublish` | backend/services/scheduler_blocks_dhpublish.go:193-243 | a snapshot and a publish of it carried on to its end, with nothing failing, end with the prefix on the record and each level's object in the bucket byte for byte the database that was read |
| `Runs.ChangeCarriedOn` | backend/services/dhsnapshot_link.go:498-522 | a change that is carried on for as many commands as it may have steps left, with nothing failing, ends in the mode it was begun for, with nothing left to delete and the report that no old link works |
| `Steps.StartPublish` | backend/services/scheduler_blocks_dhpublish.go:193-200 | a publish begins exactly when no move has the link |
| `Steps.PublishStep` | backend/services/scheduler_blocks_dhpublish.go:197-243 | the token is read once, after the hold, and is the one worked under and the live one through the plan, each part, each level, index, page, pointer, prune and note; each step leads to the phase that follows (`PublishLeads`) and writes that phase's object alone (`PublishWrites`): only the pointer changes what is live, the prune deletes exactly what is doomed when nothing fails, and only the note changes the record; every state of each step is sound; a step in which nothing fails goes on, unless the folder or the bucket lacks what is needed or a level has more ranges than one upload takes |
| `Steps.StartChange` | backend/services/dhsnapshot_link.go:268-287 | a change begins exactly when neither a publish nor another change has the link, and the state it begins in is noted |
| `Steps.ChangeStep` | backend/services/dhsnapshot_link.go:498-522 | the token a change goes to is read at its first step: none when the link is in that mode already, which only drops stale bases; page, index, each level, pointer, commit and each delete keep every state sound and the snapshot it found; each step leads to the one phase that follows (`ChangeLeads`) and writes what that phase writes alone; a step in which nothing fails goes on, unless there is no random token or a level has more ranges than one upload takes |
| `Steps.RecordPrefix` | backend/services/dhsnapshot_link.go:215-222 | the prefix is recorded in one write, and only that changes |
| `Protocol.InitialState` | backend/services/dhsnapshot_link.go:96-115 | an empty bucket with no link file satisfies the invariant |
| `Protocol.InvFrame` | backend/services/dhsnapshot_publish.go:22-26 | the invariant survives any change of the bucket that leaves alone what the live base needs and no revoked base |
| `Protocol.InvPut` | backend/services/dhsnapshot_publish.go:462-483 | writing one object that is no pointer, and not a needed object with other bytes, keeps the invariant and what a reader finds |
| `Protocol.InvPublish` | backend/services/dhsnapshot_publish.go:513-535 | writing the pointer over a stored sound snapshot keeps the invariant and makes that snapshot the live one |
| `Protocol.InvThin` | backend/services/dhsnapshot_prune.go:64-132 | deleting any subset of keys the live snapshot does not need keeps the invariant and what a reader finds |
| `Keys.KeyOfRelPath` | backend/services/dhsnapshot_index.go:346-382 | laying a key out and reading it back gives the same key |
| `Keys.RelPathKeyOf` | backend/services/dhsnapshot_index.go:346-382 | reading any path and laying it out gives the same path |
| `Keys.LayoutIsInjective` | backend/services/dhsnapshot_index.go:389-414 | no two keys of any two layouts share a path |
| `Keys.Regions` | backend/services/dhsnapshot_index.go:375-414 | the snapshots folders of distinct bases, the parts and the `latest.json` of each base never overlap, each recognised exactly |
| `Keys.LayoutWrittenOut` | backend/services/dhsnapshot_index.go:346-382 | where index, page, level file, parts and `latest.json` lie in both layouts, and which names are tokens and stamps |
| `Keys.PointerRoundTrip` | backend/services/dhsnapshot_index.go:146-181 | `latestIndexKey` undoes `dhRelativeKey` where a publish puts its index, in both layouts |
| `Keys.AcceptedPointerStaysBelow` | backend/services/dhsnapshot_index.go:146-167 | an accepted pointer resolves strictly below the folder of `latest.json`, to its own segments and nothing else |
| `Keys.AcceptedPointerIff` | backend/services/dhsnapshot_index.go:146-167 | exactly which pointers are followed, character by character |
| `Keys.RemoveDotsKeepsPlain` | backend/services/dhsnapshot_index.go:389-414 | dot-segment removal (section 5.2.4 of RFC 3986) passes plain segments through |
| `Keys.RemoveDotsClimbs` | backend/services/dhsnapshot_index.go:389-414 | each leading `..` takes off one segment |
| `Keys.PartsBaseReachesParts` | backend/services/dhsnapshot_index.go:389-414 | `partsBase` resolved against the index key is the parts prefix, under any prefix without dot segments and in both layouts |
| `Snapshot.CompleteFrame` | backend/services/dhsnapshot_publish.go:22-26 | a complete base stays complete, and leads to the same index, while the keys it needs are untouched |
| `Snapshot.PointerCompletes` | backend/services/dhsnapshot_publish.go:513-535 | a pointer written over a stored snapshot completes its base |
| `Snapshot.PageIsTrue` | backend/services/dhsnapshot_publish.go:22-26 | the pointer of a complete base names its index by a relative path, and its page has a row for each level file below it and no other, with the size that file has |
| `Snapshot.NamesWrittenOut` | backend/services/dhsnapshot_publish.go:83-84 | which names of a server folder and of a level folder a publish accepts, character by character |
| `Snapshot.PartChunksConcat` | backend/services/dhsnapshot_assemble.go:46-52 | the parts in index order are the level |
| `Snapshot.RangesPartition` | backend/services/dhsnapshot_assemble.go:57-64 | the ranges start at 0, each begins where the one before ends, the last ends at the size, and all but the last have the same length |
| `Snapshot.RangeChunksPrefix` | backend/services/dhsnapshot_assemble.go:57-64 | the first n ranges of a file are its first n range lengths |
| `Snapshot.RangesYield` | backend/services/dhsnapshot_assemble.go:57-64 | the ranges of a file copied in order are the file, in chunks one multipart upload accepts |
| `Snapshot.RoutesAgree` | backend/services/dhsnapshot_assemble.go:46-64 | both routes give the same bytes: the parts copied in order, and the ranges of a file that already holds the level |
| `World.World.PutIfAbsent` | backend/services/dhsnapshot_publish.go:393-438 | a conditional put (section 13.1.2 of RFC 9110) writes an absent object or leaves an existing one, and a failure may come after the write |
| `World.World.CompleteUpload` | backend/services/dhsnapshot_assemble.go:70-94 | completing a multipart upload stores the concatenation of its parts in one step, or nothing |
| `World.World.Delete` | backend/services/dhsnapshot_prune.go:64-132 | a multi-key delete that fails may have deleted any subset |
| `World.World.SaveRecord` | backend/services/dhsnapshot_link.go:182-199 | the link record changes whole or not at all |
| `Assemble.CopiesOfParts` | backend/services/dhsnapshot_assemble.go:46-52 | one whole-object copy for each part, repeats included, in index order |
| `Assemble.PreviousObjectCopies` | backend/services/dhsnapshot_assemble.go:57-64 | the loop lays exactly the partition of the specification over the file |
| `Assemble.CopySteps` | backend/services/dhsnapshot_assemble.go:96-112 | success means that every source was there and the upload holds their chunks in order |
| `Assemble.AssembleObject` | backend/services/dhsnapshot_assemble.go:70-94 | the object is what copying the steps builds, or the bucket is unchanged; an upload that is not completed is aborted unless the abort fails |
| `Assemble.YieldsBuilt` | backend/services/dhsnapshot_assemble.go:70-94 | steps that yield some bytes within the rules of one upload build exactly those bytes |
| `Publish.CheckLevel` | backend/services/dhsnapshot_publish.go:273-299 | accepts exactly the publishable levels |
| `Publish.CheckIndex` | backend/services/dhsnapshot_publish.go:246-271 | accepts exactly the publishable indexes |
| `Publish.ReadStaged` | backend/services/dhsnapshot_publish.go:199-224 | the staged index is returned exactly when it parses, is publishable and was cut for this layout |
| `Publish.ReadLatestIndex` | backend/services/dhsnapshot_run.go:332-360 | a missing `latest.json` is a first snapshot; a pointer that does not lead to a sound index is a failure; otherwise it is what a reader finds |
| `Publish.ListParts` | backend/services/dhsnapshot_publish.go:316-367 | a listing is left out only when it failed; with one, the map knows exactly the parts in the bucket and their sizes |
| `Publish.PlanOne` | backend/services/dhsnapshot_publish.go:316-388 | a part is sent only from a regular file, and not sent only when it is known to be up at its size |
| `Publish.PlanLevel` | backend/services/dhsnapshot_publish.go:316-367 | each part of a level not met before is planned soundly or listed as missing |
| `Publish.PlanParts` | backend/services/dhsnapshot_publish.go:316-367 | each distinct part of the index is planned once; refused when one is neither staged nor up, and for a missing part only then; otherwise only for a fault or a staged part that is no regular file; when nothing faults, exactly the parts the bucket lacks are to be sent |
| `Publish.PlanPart` | backend/services/dhsnapshot_publish.go:316-367 | a part not met before is planned soundly, or noted when it is neither staged nor up |
| `Publish.PlanSizes` | backend/services/dhsnapshot_publish.go:316-367 | a plan has one entry for each distinct part, and one to send for each part the bucket lacks |
| `Publish.PlanRun` | backend/services/dhsnapshot_publish.go:125-172 | everything a run reads before its first write; without a fault it is refused only for what the folder or the bucket lacks |
| `Publish.SendParts` | backend/services/dhsnapshot_publish.go:393-438 | what is put in the bucket is the parts to send, in order and each once, or the beginning of that when a fault stops it; success leaves every part of the plan there, counted as uploaded or skipped; without a fault exactly the parts the bucket lacked are uploaded, and their bytes counted |
| `Publish.SendNext` | backend/services/dhsnapshot_publish.go:393-438 | one part of the plan: put once when it is to be sent, and not otherwise; without a fault uploaded when it was not there |
| `Publish.SendingIn` | backend/services/dhsnapshot_publish.go:393-438 | what is put is exactly what the plan marks to send |
| `Publish.UnchangedPreviousFile` | backend/services/dhsnapshot_publish.go:489-506 | a previous file is offered exactly for a level with the same folder, hash and size whose file is there at that size, when nothing fails; never for another |
| `Publish.UnchangedIsSame` | backend/services/dhsnapshot_publish.go:489-506 | such a file holds exactly the bytes of the new level |
| `Publish.BesideIndexIsLevel` | backend/services/dhsnapshot_publish.go:489-506 | the file beside an index is the level file of that snapshot |
| `Publish.InvOwnFile` | backend/services/dhsnapshot_publish.go:462-483 | a file written in the new snapshot's own folder keeps the invariant and what a reader finds, even when that folder is the live one |
| `Publish.StepsFor` | backend/services/dhsnapshot_publish.go:462-483 | the steps build the bytes of the level by either route; when nothing fails they are the ranges of the previous file exactly when the previous snapshot has a level of that folder, hash and size |
| `Publish.StepsBuild` | backend/services/dhsnapshot_publish.go:462-483 | what either list of steps builds is the level |
| `Publish.AssembleLevel` | backend/services/dhsnapshot_publish.go:462-483 | the level file holds the level's bytes, or the bucket is unchanged; the live snapshot is unaffected; without a fault it fails only when the file has more ranges than one upload takes |
| `Publish.AssembleLevels` | backend/services/dhsnapshot_publish.go:444-455 | the levels done so far are stored, all of them on success |
| `Publish.WriteIndexAndPage` | backend/services/dhsnapshot_publish.go:125-172 | after it everything the snapshot needs is stored, and no reader sees it yet |
| `Publish.PutIndex` | backend/services/dhsnapshot_publish.go:125-172 | the index in the new snapshot's own folder, with what the rest of the run relies on kept |
| `Publish.PutPage` | backend/services/dhsnapshot_publish.go:125-172 | with the page everything the snapshot needs is stored |
| `Publish.PutLatest` | backend/services/dhsnapshot_publish.go:513-535 | once everything is stored, one write makes this snapshot the live one |
| `Publish.WriteLatest` | backend/services/dhsnapshot_publish.go:513-535 | one write of a pointer that the reader's own rule leads back to this index |
| `Publish.PruneKeepsInv` | backend/services/dhsnapshot_publish.go:177-191 | the prune of a publish keeps the invariant whatever it leaves undone |
| `Publish.PruneAfter` | backend/services/dhsnapshot_publish.go:177-191 | a prune that fails part way leaves what readers find alone; when nothing fails and something is to be kept, the bucket is left without exactly what the decision dooms and there is no warning; without a warning all of it is done, unless no folder is complete; with nothing to be kept nothing is deleted |
| `Publish.RunPublish` | backend/services/dhsnapshot_publish.go:125-172 | refused means nothing was written; cut off means the previous or the new snapshot is live; published means the new one is live and complete; every state between is sound; when nothing fails it is refused only for what the folder or the bucket lacks, and publishes by putting the parts the bucket lacked, each once, then the index, the page and last the pointer; the bucket just after the pointer differs from the one before in what the new snapshot needs alone, and the run ends with exactly what a prune dooms there deleted and no warning, or nothing deleted when `keep` is below one (`AfterPublish`) |
| `Publish.PublishPlanned` | backend/services/dhsnapshot_publish.go:125-172 | the writes of a run that was not refused, in an order that keeps every state sound, and after them the prune; only a fault, or a level with more ranges than one upload takes, keeps it from publishing |
| `Publish.OnlyTheNewestLeft` | backend/services/dhsnapshot_publish.go:177-191 | after a publish in which nothing fails, with `keep` at least one, the complete folders left are the `keep` newest and the live one |
| `Prune.PlanUnique` | backend/services/dhsnapshot_prune.go:64-132 | what a prune deletes is a function of the bucket |
| `Prune.NewestUnique` | backend/services/dhsnapshot_prune.go:184-202 | the `keep` newest complete folders are determined |
| `Prune.KeptIsSafe` | backend/services/dhsnapshot_prune.go:184-313 | no key to be deleted is a `latest.json`, lies in a kept folder, or is a part that a kept index or the live index names |
| `Prune.KeptIsSafeIndex` | backend/services/dhsnapshot_prune.go:219-247 | no deciding index is deleted |
| `Prune.SameDecision` | backend/services/dhsnapshot_prune.go:184-202 | any bucket a stopped prune leaves decides as the one it started from |
| `Prune.ConvergesIff` | backend/services/dhsnapshot_prune.go:64-132 | a later prune ends at the same bucket wherever the first one stopped, exactly when no folder to delete is newer than a kept one while holding more than its index, and `latest.json` names an index that is not deleted |
| `Prune.Stranded` | backend/services/dhsnapshot_prune.go:252-271 | with such a folder a stopped prune can leave a bucket from which the next prune does not end where the first would have |
| `Cases.StrandedForAnyThree` | backend/services/dhsnapshot_prune.go:252-271 | three snapshots of which the oldest is live satisfy the invariant, and a prune that keeps one does not converge from there |
| `Cases.StrandedCase` | backend/services/dhsnapshot_prune.go:252-271 | such a bucket, with its stamps |
| `Prune.NewestLatestConverges` | backend/services/dhsnapshot_prune.go:139-202 | when `latest.json` names one of the `keep` newest complete folders, a stopped prune is always finished by the next one |
| `Prune.FullPruneIsFinal` | backend/services/dhsnapshot_prune.go:64-132 | a prune straight after a full one takes the same decision and deletes nothing |
| `Prune.StillComplete` | backend/services/dhsnapshot_prune.go:139-161 | a stopped prune keeps kept folders complete and completes none |
| `Prune.GroupFolders` | backend/services/dhsnapshot_prune.go:139-161 | fails exactly when a listed key lies outside the folder; otherwise each folder holds its listed objects and knows whether its index is one |
| `Prune.CurrentIndexKey` | backend/services/dhsnapshot_prune.go:167-180 | the index `latest.json` names now, by the reader's rule, or a failure |
| `Prune.SortDescending` | backend/services/dhsnapshot_prune.go:184-202 | every stamp once, newest first |
| `Prune.KeptStamps` | backend/services/dhsnapshot_prune.go:184-202 | the `keep` newest complete folders, exactly `keep` of them when there are that many, and the one `latest.json` is in |
| `Prune.AfterPrune` | backend/services/dhsnapshot_prune.go:64-132 | what a full prune leaves: of the complete folders those it keeps, of the incomplete ones those it keeps and those newer than one of them, of the parts those that an index it keeps names |
| `Prune.CompleteAfter` | backend/services/dhsnapshot_prune.go:184-202 | the complete folders after a full prune are the kept ones that were complete |
| `Prune.DoomedIff` | backend/services/dhsnapshot_prune.go:252-296 | written out: what a prune deletes is every object below a stamp folder of this base that is not kept, when the folder has its index or is older than all that are, and every part that neither the index `latest.json` names nor the index of a kept folder lists |
| `Prune.LessIff` | backend/services/dhsnapshot_prune.go:184-202 | newest first is by the first character that differs |
| `Prune.KeptParts` | backend/services/dhsnapshot_prune.go:219-247 | every part any deciding index names; an index that cannot be read fails the prune |
| `Prune.OldFolders` | backend/services/dhsnapshot_prune.go:252-271 | exactly the objects of the folders that go |
| `Prune.OrphanParts` | backend/services/dhsnapshot_prune.go:276-296 | exactly the part-named keys no deciding index names; a listed key outside the parts folder is a failure |
| `Prune.Decide` | backend/services/dhsnapshot_prune.go:64-132 | a decision is reached only when every deciding read succeeded, and then it is the one the bucket states |
| `Prune.PruneSnapshots` | backend/services/dhsnapshot_prune.go:64-132 | without a decision nothing was deleted; with one, every state is the bucket without some of what the decision dooms, and success without all of it; when nothing fails and the bucket states a decision that keeps something, it succeeds |
| `Prune.DeleteInOrder` | backend/services/dhsnapshot_prune.go:64-132 | parts are deleted only once the folders are gone |
| `Prune.FoldersAre` | backend/services/dhsnapshot_prune.go:139-161 | the folders of a truthful listing are those of the bucket |
| `Prune.DoomedIs` | backend/services/dhsnapshot_prune.go:64-132 | the two lists of keys are exactly what the decision dooms |
| `Move.RebasedIsSound` | backend/services/dhsnapshot_move.go:58-127 | an index rebased to another layout is sound there, and differs in its parts base alone |
| `Move.MoveLevel` | backend/services/dhsnapshot_move.go:133-149 | the level file of the new base holds the level's bytes, or nothing changed |
| `Move.MovePageAndIndex` | backend/services/dhsnapshot_move.go:58-127 | page and rebased index under the new base only |
| `Move.MovePointer` | backend/services/dhsnapshot_move.go:58-127 | the pointer completes the new base with the same snapshot |
| `Move.MoveSnapshot` | backend/services/dhsnapshot_move.go:58-127 | touches nothing outside the new base; the live link stays whole in every state; success means the new base is complete and holds the same snapshot, rebased; only a fault, or a level with more ranges than one upload takes, makes it fail |
| `Move.WhatToMove` | backend/services/dhsnapshot_move.go:58-127 | the snapshot to move is the live one; reading it fails only by a fault |
| `Move.MoveIndex` | backend/services/dhsnapshot_move.go:58-127 | the rebased index is up under the new base, and nothing outside it is touched |
| `Move.MoveNext` | backend/services/dhsnapshot_move.go:58-127 | one more level is up under the new base |
| `Move.DropBase` | backend/services/dhsnapshot_move.go:156-191 | touches nothing outside the base it drops; success means nothing of it is left, and `gone` means its `latest.json` is |
| `Move.InvOtherBase` | backend/services/dhsnapshot_move.go:58-127 | writes under a base that is not live and was never live keep the invariant |
| `Link.HoldLink` | backend/services/dhsnapshot_link.go:250-266 | refused exactly while a move runs |
| `Link.BeginMove` | backend/services/dhsnapshot_link.go:268-287 | one move at a time, and none while the link is held |
| `Link.PendingToken` | backend/services/dhsnapshot_link.go:349-362 | an unfinished move's token when there is one, and then nothing is written; else the fresh one given, recorded before anything is written under it; never a token that was live; it fails only by a fault or for want of a random token |
| `Link.ForgottenPendingIff` | backend/services/dhsnapshot_link.go:375-393 | a base left by a cut-off move is on no list after the next change exactly when its `latest.json` was written and the change goes elsewhere |
| `Cases.ForgottenPendingCase` | backend/services/dhsnapshot_link.go:375-393 | a bucket and a record in which it happens: a private link that answers and is on no list |
| `Link.CommitMoved` | backend/services/dhsnapshot_link.go:375-393 | committing a move to a complete base keeps the invariant |
| `Link.CommitUnmovedIff` | backend/services/dhsnapshot_link.go:375-393 | committing with nothing moved keeps the invariant exactly when nothing is published under the link being left |
| `Cases.CommitUnmovedCase` | backend/services/dhsnapshot_link.go:498-522 | a bucket and a record in which it fails: the link just left answers, the record does not hold it, and the invariant is broken |
| `Link.Commit` | backend/services/dhsnapshot_link.go:375-393 | in one write the new token, nothing pending, the base just left noted when it was moved from, and the new one noted no longer |
| `Link.KeepStale` | backend/services/dhsnapshot_link.go:398-430 | taking off the record the bases that no longer answer keeps the revocation bookkeeping |
| `Link.DropStale` | backend/services/dhsnapshot_link.go:398-430 | reports no old link working only when none of the stale bases but the live one holds a `latest.json`; without a fault it reports none and leaves none on the record; token, pending token and prefix stay, and nothing is touched but the stale bases |
| `Link.DropEach` | backend/services/dhsnapshot_link.go:398-430 | each stale base is dropped or kept on the list; only a fault keeps one; no other base is touched |
| `Link.SaveStale` | backend/services/dhsnapshot_link.go:398-430 | the list is written whole or stays |
| `Link.NoneAnswerNow` | backend/services/dhsnapshot_link.go:398-430 | when none of the stale bases answers, no private token that was ever live does but the live one |
| `Link.Finish` | backend/services/dhsnapshot_link.go:375-393 | the commit comes first and in one write; when no old link is reported working, no private token but the live one answers; nothing is touched in the bucket but the bases it drops |
| `Link.Change` | backend/services/dhsnapshot_link.go:498-522 | the record changes hands only after the new base is complete, to exactly the token asked for; the same snapshot is live before and after; without a fault it succeeds with no old link working, unless a level has more ranges than one upload takes; otherwise the record keeps its token |
| `Link.SetPrivate` | backend/services/dhsnapshot_link.go:448-474 | busy exactly while a publish or another change has the link, and then nothing is touched; a link in the mode asked for keeps its token and its live snapshot, and only stale bases are dropped; otherwise the token becomes the pending or the fresh one, or none, with the same snapshot under it, always when nothing fails; and a truthful report about old links |
| `Link.Rotate` | backend/services/dhsnapshot_link.go:479-494 | a private link gets a token that was never live, with the same snapshot under it, always when nothing fails; it is refused and nothing changes exactly when the link is public |
| `Link.SwitchTo` | backend/services/dhsnapshot_link.go:455-474 | the switch once it has the link: nothing but stale bases in the mode asked for already, else the change |
| `Link.ChangePrivate` | backend/services/dhsnapshot_link.go:464-494 | a change to the pending token, or to the fresh one, which is recorded first |
| `Staging.IndexDatabase` | backend/services/dhsnapshot_index.go:226-275 | the level describes the file it read: evenly cut parts whose bytes in order are the file, sizes and hash of it; `absent` is exactly its parts that are neither known nor staged already, each once, and the folder gains exactly those; it fails only by a fault or for a part size that is none |
| `Staging.DescribedIsPublishable` | backend/services/dhsnapshot_index.go:226-275 | a level so read passes `checkDHLevelForPublish` exactly when its file is not empty, is cut into no more parts than one upload takes, and no part is larger than one object may be |
| `Staging.PartsAreCounted` | backend/services/dhsnapshot_index.go:226-275 | a file of n bytes is cut into as many parts as n holds part sizes, and one for what is left |
| `Staging.IndexIsPublishable` | backend/services/dhsnapshot_publish.go:246-299 | the index of a source can be published exactly when the source has what that needs |
| `Staging.StageSnapshot` | backend/services/dhsnapshot_index.go:305-330 | `absent` is exactly the parts of the new index that the previous one does not name, or all of them when there is none, each once across all levels, and exactly those files are added to the folder; it fails only by a fault or for a part size that is none |
| `Staging.PruneStaged` | backend/services/dhsnapshot_run.go:589-619 | in every state on the way only files the new index does not need, or that are known to be up, are gone |
| `Staging.CheckNoWal` | backend/services/dhsnapshot_run.go:550-569 | passes exactly when no log lies beside a database, unless a look fails |
| `Staging.CopyAndPrune` | backend/services/dhsnapshot_run.go:498-587 | success means the index staged last describes the source; a failure leaves the index that was staged before, and without a fault is due to the source; nothing the previous snapshot names is newly staged; no part a publish still needs is pruned, and without a fault the folder holds exactly the parts the previous snapshot lacks |
| `Staging.SnapshotLocally` | backend/services/dhsnapshot_run.go:362-375 | a run with no destination, cut off anywhere, leaves the folder holding every part its index names; it fails only by a fault or for the source |
| `Staging.LocalRuns` | backend/services/dhsnapshot_run.go:498-542 | so does any sequence of such runs |
| `Staging.SnapshotAgainstBucket` | backend/services/dhsnapshot_run.go:300-317 | after a run against a bucket every named part is staged or named by the bucket's previous snapshot, nothing that one names is newly staged, and without a fault the folder holds exactly what it lacks; a run that fails leaves the staged index as it was; it fails only by a fault, for the source, or for a pointer that leads nowhere |
| `Staging.PlanAfterSnapshot` | backend/services/dhsnapshot_publish.go:316-367 | a publish against that unchanged bucket finds no missing part, and has its plan unless something fails |
| `Staging.SnapshotAndPublish` | backend/services/dhsnapshot_publish.go:22-26 | a snapshot of a stopped database, published: when nothing fails it is published, unless the source cannot be read or published or has a database too large to be copied by ranges; and when it is, each level's object in the bucket equals the database bytes read |
| `Staging.PublishTaken` | backend/services/dhsnapshot_publish.go:125-172 | the publish of a snapshot just taken is refused for the source alone |
| `Staging.OnlyForTheSource` | backend/services/dhsnapshot_publish.go:125-172 | after a snapshot against the bucket a publish is refused, if it is, for the source alone |
| `Staging.IndexIsOne` | backend/services/dhsnapshot_index.go:226-275 | one source, stamp and part size have one index |
| `Staging.PublishedBytes` | backend/services/dhsnapshot_index.go:226-275 | the live snapshot of an index of a source holds the bytes of the source |
| `Console.Splitter.Split` | backend/services/consolescan.go:29-79 | the closure computes the splitter's step function on its two flags |
| `Console.FirstEndAt` | backend/services/consolescan.go:29-79 | the scan stops at the first line break |
| `Console.ScanAccounts` | backend/services/consolescan.go:29-79 | whatever input is still unread, a call accounts for exactly what it consumes: nothing, the rest of a dropped line, or the next line |
| `Console.StepAccounts` | backend/services/consolescan.go:29-79 | so does a call that may first swallow the LF of a CR LF cut in two |
| `Console.StepAdvances` | backend/services/consolescan.go:29-79 | a call on a full buffer advances, and a call at the end of settled input leaves nothing behind |
| `Console.FoundEnd` | backend/services/consolescan.go:29-79 | a break found in the buffer is the first of the whole input, and what follows it is known |
| `Console.ScanLines` | backend/services/server.go:632-637 | for every input and every way of cutting it into reads, the lines delivered are those of the definition on the whole input, and the buffer is never too small |
| `Console.EndWithDataLosesALine` | backend/services/consolescan.go:29-79 | the two kinds of last read that lose a line |
| `Console.EndLosesIff` | backend/services/consolescan.go:29-79 | a call at the end of the input delivers nothing and leaves lines behind exactly when its data goes on after the LF of a cut CR LF or after the end of a dropped line |
| `Console.EndDeliversAllIff` | backend/services/consolescan.go:29-79 | a scanner that is given data together with the end of input has delivered all lines when it stops, exactly when its last call was not given such data |
| `Console.LinesAreCut` | backend/services/consolescan.go:15-28 | delivered lines hold no break and at most `maxLine` bytes |
| `Console.LinesRoundTrip` | backend/services/consolescan.go:15-28 | input of short lines each ended by LF gives back exactly those lines |
| `Console.LinesIff` | backend/services/consolescan.go:29-79 | written out: the lines of any input are the one way to cut it at LF, CR LF and CR, with no break left in a line, no CR taken alone before an LF, and only a last line that is not empty without a break; each is kept up to `maxLine` |
| `Approvals.RemoteApprovals.AskBegin` | backend/services/remote_approve.go:95-122 | busy exactly when the device already has a call waiting, full exactly when four wait; otherwise this call waits, with its method, reason, arguments and time |
| `Approvals.RemoteApprovals.AnswerTake` | backend/services/remote_approve.go:146-158 | an id is found only while it waits, and is then accepted for the first and only time |
| `Approvals.RemoteApprovals.AnswerSend` | backend/services/remote_approve.go:146-160 | the slot is free, so the send never blocks |
| `Approvals.RemoteApprovals.AskReceives` | backend/services/remote_approve.go:123-132 | what is received is the answer accepted for this id |
| `Approvals.RemoteApprovals.AskGivesUp` | backend/services/remote_approve.go:123-136 | the timer or the context may end the select whatever is in the slot |
| `Approvals.RemoteApprovals.AskEnd` | backend/services/remote_approve.go:137-143 | nothing of the ask stays pending, and it succeeds only when its own id was answered yes |
| `Approvals.AnyInterleaving` | backend/services/remote_approve.go:95-160 | over every interleaving of asks, answers, sends, timeouts and cancels, the states are those the actions lead to in turn; in each of them at most one call a device and four in all wait, a returned ask leaves nothing pending, and an allowed one has its own yes; and no later state takes back an accepted answer or how a select ended |
| `Approvals.AfterOk` | backend/services/remote_approve.go:95-160 | every action that can be taken keeps the bounds and how each ask stands |
| `Approvals.AfterIsLater` | backend/services/remote_approve.go:95-160 | no action takes back an accepted answer, how a select ended or what an ask returned |
| `Approvals.AnAcceptedYesMayTimeOut` | backend/services/remote_approve.go:123-143 | for every waiting ask, an answer reported as taken can still end as a timeout |
| `Approvals.AnAcceptedYesMayAllow` | backend/services/remote_approve.go:123-160 | for every ask in its select, a yes can still allow the call |
| `Approvals.TooLateToAnswer` | backend/services/remote_approve.go:123-160 | once the select has ended while the id is pending, the ask ends as timed out or canceled in every later state, whatever is answered |
| `Approvals.Removed` | backend/services/remote_approve.go:137-139 | deleting an id removes it alone and keeps the bounds |
| `Dependencies.Modrinth.DependencyVersion` | backend/services/modrinth.go:310-327 | the pinned version, else the newest build for the server, else the newest of all and only when the server had none to be had; nothing only when what had to be asked was not to be had |
| `Dependencies.MeetOne` | backend/services/modrinth.go:242-300 | a project is met once; one that is required, not installed and not to be had ends the walk |
| `Dependencies.ReadVersion` | backend/services/modrinth.go:242-301 | every dependency of one version that matters is met, was met before, or ends the walk |
| `Dependencies.ResolveDependencies` | backend/services/modrinth.go:215-304 | ends on every graph; without an error the rows are the first mentions, in breadth-first order, of what the root and each required row's version mention, and none that is required and not installed was left without a version; an error names what could not be had and why that ends the walk |
| `Dependencies.RootNeedsAreRows` | backend/services/modrinth.go:242-300 | without an error every project that the root requires and that is not installed is a required row, unless an optional mention stands before it |
| `Dependencies.EveryDependencyIsConsidered` | backend/services/modrinth.go:242-254 | every dependency that matters of every version looked into was met or is the root's own id; no project was met twice |
| `Dependencies.RequiredRowsAreClosed` | backend/services/modrinth.go:296-300 | every dependency that matters of the root, and of each returned required row with a version id, is a row, was dropped though optional or installed, or is the root's own id |
| `Dependencies.NoProjectTwice` | backend/services/modrinth.go:222-250 | a project is returned once |
| `Dependencies.RowsAndOpened` | backend/services/modrinth.go:287-300 | the rows are the met projects that resolved, and exactly the required ones with a version id are looked into |
| `Dependencies.RequiredIffFirstMentionIs` | backend/services/modrinth.go:246-262 | a met project is returned as required exactly when it resolved and its first mention is a required one |
| `Dependencies.FirstMetAsOptional` | backend/services/modrinth.go:246-300 | a graph in which a project that a required mod requires is returned as optional and its own requirement is never looked at |
| `Dependencies.Fewer` | backend/services/modrinth.go:222-236 | the measure of the walk: meeting a project shrinks what is left to meet |
| `Files.Disk.Rename` | backend/services/backup.go:879-928 | moves a whole tree or nothing; says that something does not exist only when there is nothing to move or no folder to move it to; without a fault nothing that is there and has a free place to go stays |
| `Files.Disk.RemoveAll` | backend/services/backup.go:879-928 | removes the tree, or when it fails any part of it, and nothing else |
| `Files.Disk.MkdirAll` | backend/services/backup.go:1630-1680 | makes exactly the missing folders on the way, one state for each |
| `Files.Disk.WriteFile` | backend/services/backup.go:1630-1680 | the file holds the data, or at most that one path changed |
| `Files.MovedIs` | backend/services/backup.go:879-928 | moving a tree carries it over exactly and touches nothing else |
| `Swap.SwapOne` | backend/services/backup.go:896-913 | one folder: in every state its old tree is at its place or aside; success is without a fault, and a failure leaves the old tree in place unless putting it back met a fault of its own |
| `Swap.UndoOne` | backend/services/backup.go:887-894 | taking one folder out again keeps the old tree at its place or aside in every state, and without a fault puts it back |
| `Swap.Rollback` | backend/services/backup.go:887-894 | undone in reverse, every target is as it was when no operation of the undoing faults |
| `Swap.PutItBack` | backend/services/backup.go:896-913 | only a fault keeps what was moved aside from going back |
| `Swap.SwapWorldDirs` | backend/services/backup.go:879-928 | all or nothing: success leaves every target as staged, and without a fault no copy aside; a failure leaves every target as it was, absent ones absent, when nothing failed, or nothing after the first rename that was refused, or one operation and nothing on the disk stood in the way; in every state of a failing run, and in every state of any run until all are in place, each original tree is at its target or aside name; without a fault only what is on the disk stops it |
| `Swap.CleanUp` | backend/services/backup.go:919-927 | removing the copies moved aside touches no target, and without a fault leaves none |
| `Swap.OthersStay` | backend/services/backup.go:896-917 | the steps about one folder leave the others alone |
| `Archive.WriteTreeToZip` | backend/services/backup.go:1498-1564 | the entries of a tree: one for each folder and each regular file but the session lock, under the prefix, and nothing else; a root that is no folder is refused |
| `Archive.EntryFor` | backend/services/backup.go:1498-1564 | the entry of one path, or none when it is the lock, a link or a device |
| `Archive.ZipRoots` | backend/services/backup.go:1474-1490 | the entries of every root, each under its own name |
| `Archive.RootsAreListed` | backend/services/backup.go:1474-1577 | such entries list exactly the tree of the roots side by side without what is not archived |
| `Archive.SideBySideIsListable` | backend/services/backup.go:1498-1564 | that tree holds folders and files only, each in a folder that is listed too |
| `Unzip.DeclaredTotal` | backend/services/backup.go:1610-1628 | refuses exactly the archives with more than 2^20 entries, a file of more than 2^36 bytes or more than 2^40 bytes in all |
| `Unzip.TotalGrows` | backend/services/backup.go:1610-1628 | a running total never exceeds the whole, so comparing it early refuses nothing else |
| `Unzip.ExtractOne` | backend/services/backup.go:1640-1678 | an entry is refused exactly when its path leads out of the folder; otherwise it is put in place or at most the folder changed |
| `Unzip.UnzipTo` | backend/services/backup.go:1630-1680 | whatever the archive holds, every state differs from the start in the staging folder only; success leaves what the entries put in place in turn |
| `Unzip.UnpackedListing` | backend/services/backup.go:1630-1680 | extracting what lists a tree is refused at no entry, and puts each in place |
| `Unzip.ListingRoundTrip` | backend/services/backup.go:1498-1680 | an archive that lists a tree is extracted to exactly that tree |
| `Unzip.NoLinks` | backend/services/backup.go:1630-1680 | extracting makes no links or devices |
| `Unzip.CleanPlain` | backend/services/backup.go:1641-1644 | cleaning a path without dot segments changes nothing |
| `Restore.SiblingsDiffer` | backend/services/worlds.go:385-391 | the three folders of a world and their aside names are distinct |
| `Restore.AsidesAreNoSiblings` | backend/services/backup.go:896-897 | no aside name is a folder of the world |
| `Restore.ExistingWorldRoots` | backend/services/worlds.go:396-405 | without a fault, exactly the folders of the world that are there, the world itself first |
| `Restore.CreateWorldBackup` | backend/services/backup.go:614-702 | the archive lists the world's folders side by side, all of them when nothing faulted; a missing world is refused |
| `Restore.StagedLayoutIsMultiRoot` | backend/services/backup.go:934-940 | without a fault, exactly whether the world folder is there and no `level.dat` is at the root |
| `Restore.StagedWorldSwaps` | backend/services/backup.go:841-868 | one swap for each of the world's folders that is staged; exactly the other folders are skipped |
| `Restore.RestoreSwapsSeparate` | backend/services/backup.go:777-819 | no folder of one swap is within a folder of another |
| `Restore.Stage` | backend/services/backup.go:768-805 | until the swap nothing but the staging folder changes |
| `Restore.RestoreWorld` | backend/services/backup.go:760-819 | success leaves the archive's folders as extracted and touches no sibling the archive lacks; every state keeps each of the world's folders or has put all of the archive's in place; a failing run keeps each of them in every state, and leaves them as they were when no rename was refused or nothing failed after the first that was; without a fault only the archive or the disk can make it fail, and with the aside names free nothing on the disk differs afterwards but the world's folders, or nothing at all when it fails |
| `Restore.OnlyTheWorld` | backend/services/backup.go:760-819 | with the staging folder and the copies gone, nothing outside the world's folders differs |
| `Restore.ArchiveRoundTrip` | backend/services/backup.go:841-868 | what was backed up is extracted to exactly the archived folders; it is seen as multi-root exactly when the world is not called `level.dat`; nothing is skipped or refused |
| `Restore.WorldRoundTrip` | backend/services/backup.go:777-819 | backed up and restored, each archived folder is exactly what it was without its lock, links and devices; each sibling that was not archived is untouched; `StoredComesBack` says what that is path by path |
| `Restore.StoredComesBack` | backend/services/backup.go:1498-1564 | a tree that is archived comes back as its folders and its regular files that are not called `session.lock`, each at its path, and as nothing else |
| `Restore.BackUpAndRestore` | backend/services/backup.go:614-819 | a backup restored over any later state: without a fault it archives the world unless there is none or a sibling is no folder; when nothing fails and nothing is in the way, in each folder of the world every folder and every regular file not called `session.lock` is back as it was, nothing else is there, a sibling that was not backed up is left as it is, and so is everything outside the world's folders |
| `Restore.GameFilesComeBack` | backend/services/backup.go:614-702 | `level.dat` and the region files of the overworld, the nether and the end, where either server layout keeps them, come back with their bytes |
| `ModInstall.RemoveSuperseded` | backend/services/modservice.go:479-560 | moves aside exactly the copies to be replaced and drops exactly their rows and those without a file; switched off exactly when it moved something and all of it was |
| `ModInstall.ReplaceRow` | backend/services/modservice.go:532-557 | one row: its jar is moved aside, its row dropped, or neither |
| `ModInstall.MoveAside` | backend/services/modservice.go:486-493 | one file under its aside name, and nothing else changed |
| `ModInstall.RestoreSuperseded` | backend/services/modservice.go:569-576 | no copy is lost in any state whatever fails; without a fault each is back under its own name; no other file that is read is touched |
| `ModInstall.DiscardSuperseded` | backend/services/modservice.go:581-587 | no name that a server or a scan reads is touched in any state |
| `ModInstall.KeepAndSave` | backend/services/modservice.go:363-434 | a failed rename or manifest save undoes all of it, fully when nothing fails after it; success installs the jar and saves the manifest; it succeeds without a fault |
| `ModInstall.Undo` | backend/services/modservice.go:363-380 | the new file goes and the copies come back; without a fault nothing that is read differs but the free name; in no state is another file lost |
| `ModInstall.InstallOne` | backend/services/modservice.go:326-434 | a file-and-manifest transaction: it succeeds unless something fails, and the manifest on disk changes only then; a failure nothing else fails after leaves the folder as it was but for the name the download wrote over, so wholly exactly when that name was free (once the copies were aside) or held this same jar (before); a crash in any state loses no other file, and finds the old manifest with all of those or the new one with the install done; success leaves the new jar, none of the copies replaced, the manifest that says so, and without a fault no copy aside |
| `ModInstall.Upsert` | backend/services/modservice.go:1299-1307 | the row is there, and no row of another file is lost or changed |
| `ModInstall.UpsertReplaces` | backend/services/modservice.go:1299-1307 | with at most one row of that file in that state before, there is exactly one after, the new one, and every other row stays where it was |
| `ModInstall.WithoutMore` | backend/services/modservice.go:1310-1319 | dropping rows jar by jar drops those of all the jars |
| `ModInstall.AgreesIff` | backend/services/modservice.go:363-423 | an install keeps every row with its file, exactly unless a row for a switched-on file of the new name exists and the new file is kept switched off |
| `ModInstall.FreshNameAgrees` | backend/services/modservice.go:326-434 | with no earlier file under the new name, folder and manifest agree and no replaced copy is loaded |
| `ModInstall.UpdateSwitchedOff` | backend/services/modservice.go:353-372 | a folder in which updating a mod that is on switches it off and leaves a row without a file |
| `ModInstall.CopyLeftIff` | backend/services/modservice.go:978-988 | an install leaves a copy of the mod to load beside the new jar exactly when it is in plugins and mods holds a file of that copy's name |
| `ModInstall.OlderCopiesAreGone` | backend/services/modservice.go:479-560 | written out: after an install no file that a row of the same project or mod id leads to is loaded, and no file of another mod or folder is touched |
| `ModInstall.AllSaw` | backend/services/modservice.go:479-485 | the two flags decide whether the new file stays off |

## Left out

- JSON, HTML and base32 encoding, regular expressions, jar metadata, S3 signing, HTTP, retries: the parsed value is the model's value, and a text that does not parse is a constructor of its own.
- Narration, progress percentages, error texts, redaction of secrets, size formatting, metrics.
- Server start and stop, RCON, the free-space probe and the warning countdown of a snapshot run.
- `dhClaim`: it is per server, so it does not give the one publisher a prefix needs; see Assumptions.
- What a prune reports of itself (how many snapshots and parts it deleted and the bytes freed), beyond zero when it had no plan.
- Objects that hold no data (index, page, pointer) have size 0 in listings; only the sizes of parts and level files are compared by the code.
- A stale entry of the link record keeps its token and not its prefix, since the prefix does not change.
- The range length of an unchanged file is a constant of the model with the value of the source.
- EntryFor: a folder called `session.lock` that cannot be listed ends the backup here, while the source leaves it out.
- CreateWorldBackup: the backup of a running server, which also leaves out level-of-detail databases, is not modelled; nor are the reservation of the archive's name, quiescing and the backup's metadata.
- RestoreWorld: the restore of a whole server directory is not modelled; it is one rename of the same kind. Zip compression, file modes and times are not part of an entry.
- ResolveDependencies: requests answer from one registry that does not change during the walk; project titles and the naming of a failed dependency are left out.
- InstallOne: the checks before the download, symbolic links in the mods folder (a sandbox refusal may happen at any time) and the row fields that take no part in a decision (display name, icon, hash, times) are left out; a file name is its base and two suffixes.
- RemoveSuperseded: mod ids are compared as equal values, so the case-folding of the source is taken as done.
- Ids of asks are fresh numbers; the order in which `Pending` lists them is left out.
- `stripANSI`, the update check, local installs, scans and the rest of the services.
