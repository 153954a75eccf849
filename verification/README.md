# Verified model of data-mig's transfers

`data-mig` moves files, objects and databases between clouds. This project
models the parts of it whose correctness is not plain from reading one function,
and proves what its code, comments and tests promise of them.

- `StableSort`, `Shards`, `TightBound`: dealing a transfer's files to rsync
  processes, largest first, each to the list lightest so far. It is list
  scheduling: the project proves Graham's 4/3 - 1/(3n) bound against every other
  split, that it is attained for every n, and exactly when a process is started on
  an empty list.
- `Ranges`, `Multipart`, `MultipartSafety`, `MultipartTags`, `MultipartRuns`,
  `MultipartRetry`, `MultipartNil`, `MultipartAbort`, `AzureBlocks`: an object written in parts.
  `Multipart` is a protocol of client, store and network steps. A response may be
  lost, a request may be acted on late, repeatedly and out of order, and the
  transfer may be cancelled at any time. Proved of every run: the key holds what it
  held or the source, never a mixture; nil means stored, and exactly when it may
  not; an error means aborted, and the abort is for good; the transfer always comes
  to an end, and exactly when it can be with nil; exactly which failures it gets
  over; and what it still does once it is stopped.
- `Paths`, `Placement`, `Download`, `StreamKeys`, `StreamRelay`: object keys as
  local paths.
  Which keys belong to a location, and where each is placed, is said segment by
  segment. Acceptance of a set of keys is exact (a directory tree exists), and an
  accepted set downloads under every interleaving of the workers. A streamed object gets
  the key the relay over local disk would give it, with the exact exceptions, and
  whole sets of objects the same set of keys.
- `Glob`, `Filter`, `WhitelistFilter`, `DirectoryFilter`, `Rsync`: the filter
  pipeline. The glob compiler is right against a direct matcher, and on the text of
  a pattern; the verdict on a path is a tree walk that never enters a dropped
  directory, and a directory's own verdict is whether the walk enters it, but for
  size rules; the simple include and exclude
  lists mean what they are documented to; and rsync, under the flags made from
  the pipeline, sends exactly the files the pipeline keeps where the size rules
  are in order; for any rules that translate, the exact condition under which the
  two differ about a file.
- `TransferOrder`, `Lanes`, `LaneSteps`, `LaneRuns`, `LaneErrors`, `LaneStops`,
  `ListingRuns`: how the objects of a transfer are called: largest first, in two lanes with two nested
  error groups, as a step system under any scheduler.
- `Progress`, `ShardSum`: the totals concurrent transfers report, of objects and of
  rsync processes.
- `PgNames`: PostgreSQL object names, written and read back, and which routine an
  exclude rule takes.
- `FieldSec`: encrypting fields of a document and decrypting them again.
- `WalkOrder`, `Rollup`: the order of a remote listing, and per-folder figures
  against the totals.
- `Selection`: which listed objects a stream sends, a download writes, a size limit
  is checked for and an inspection counts.

Functions that the source computes in loops over changing variables are methods
here, proved equal to a specification function; the theorems are about that
function. Protocols and schedulers are lists of actions that a `Legal` predicate
admits one by one.

Where the code does not do what is said of it, the code is kept and the exact
condition or a concrete case is proved:

- The comment at `data-mig/storagex/executor-s3.go:478-479` says that an object
  whose size changed since it was listed fails. Nil can be returned exactly when the
  source still has the bytes it was listed with (`NilExactly`): a source that grew is
  stored short, with nil (`GrownSourceLandsShort`).
- A lost response to a complete is recognised by the object's size alone. Nil means
  the source is stored, whatever happens, exactly when the key does not hold an
  older object of the same size and other bytes (`NilIsSourceExactly`); over one, an
  upload that somebody else discards passes for it (`DiscardedUploadPasses`).
- A key such as `data/.` below `data/` is accepted as a file in the place of the
  destination directory, and fails once it is downloaded (`DotKeyIsAccepted`,
  `FileAtRootFails`).
- Processes are counted by files, dealt by bytes: with too few files that have
  any bytes, some process is started on an empty list (`EveryListFed`,
  `EmptyFilesStarve`).
- `.` in a compiled glob does not match a newline, so a whitelist lets through
  what lies below a directory with a newline in its name (`NewlinePassesWhitelist`).
- `pkg/core/plan/target.go:373-375` says that only an include above a size rule is
  ambiguous. rsync also goes by the last of two bounds alone: with the tighter one
  first it sends what Go drops (`LooserGateSends`). `DifferExactly` says when the two
  differ.
- `data-mig/storagex/filter/filter.go:110-115` says that a directory, which has no
  size, is not to be dropped by a size rule. That holds of the directories above an
  item; a folder of an inspection, which is itself the item, is dropped exactly when
  a size rule above its first glob rule drops a size of 0 (`DirectoryKeptExactly`,
  `SmallerThanHidesFolders`).
- `data-mig/storagex/filter/size.go:69-72` refuses "at least 0 bytes" because rsync
  takes no bound below 0. "More than -1 byte" is not refused and gets such a bound;
  `GateExistsExactly` says for which rules a gate exists, and which are given one.
- `data-mig/storagex/executor-s3.go:515-518` says that streamed and relayed keys
  differ in a trailing slash only. They also differ by a backslash
  (`BackslashDiffers`) and by a slash in front (`LeadingSlashDiffers`), and by nothing
  else (`StreamEqualsRelay`).
- The bytes reported for finished objects can exceed their listed sizes, exactly when
  one was read past its own (`CompleteTotal`).
- `data-mig/storagex/executor-s3.go:587-588` says the first failure in either
  lane is the error returned. It is exactly when all objects go in one lane
  (`FirstFailureExactly`); otherwise a later one may be (`LaterFailureMayBeReturned`).
- A routine whose name is spelt like another's signature is taken by that other's
  rule (`BareTextTakesAnother`).
- The comment at `data-mig/storagex/objectpath.go:62-65` says that `dirx/y`, listed
  for the prefix `dir`, is no part of the location, and transfers leave it out. An
  inspection of the location counts it: the two agree exactly when every listed key
  belongs (`InspectionCountsListing`).
- Per-folder counts leave out the marker of the scanned folder where that folder
  is at the top of the bucket (`RollupConserves`, `MarkerIsMissing`).

## Model

| member | source | states |
|---|---|---|
| Shards.SplitBySize | data-mig/storagex/executor-rsync-shard.go:155-168 | deals every file exactly once into n lists, as the recursive dealing does, and no other split has a heaviest list less than 3n/(4n-1) of this one's |
| Shards.DealIsSplit | data-mig/storagex/executor-rsync-shard.go:155-168 | the lists together are a permutation of the input |
| Shards.BigFileFits | data-mig/storagex/executor-rsync-shard.go:162-166 | while files are over a third of what some split needs, the lightest list has room for the next one |
| Shards.GrahamBound | data-mig/storagex/executor-rsync-shard.go:155-168 | 3n times the heaviest list is at most 4n-1 times the heaviest list of any other split into n |
| Shards.HeaviestNearMean | data-mig/storagex/executor-rsync-shard.go:162-166 | heaviest <= mean + (1 - 1/n) * largest file, in any dealing order |
| TightBound.BoundAttained | data-mig/storagex/executor-rsync-shard.go:155-168 | for every n, 2n + 1 files that end at 4n - 1 where a split of 3n exists: the bound cannot be lowered |
| Shards.Spread | data-mig/storagex/executor-rsync-shard_test.go:31-35 | any two lists differ by the largest single file at most |
| Shards.ShardsForIsLargest | data-mig/storagex/executor-rsync-shard.go:124-130 | the number of processes is the largest that is worth it, by files or by bytes, within what was asked and what there is to split |
| Shards.EveryListFed | data-mig/storagex/executor-rsync-shard.go:124-168 | every process gets a file iff there are n files and n - 1 of them have bytes |
| Shards.EmptyFilesStarve | data-mig/storagex/executor-rsync-shard.go:124-168 | a hundred empty files are worth two processes, and the second is given none |
| StableSort.LargestFirstSorts | data-mig/storagex/executor-rsync-shard.go:158-159 | a stable descending sort: same elements, larger first, equal ones in their order |
| Ranges.PartBounds | data-mig/storagex/s3-multipart.go:81-95 | every part is non-empty and inside the object, all but the last are full, and the last ends at the object's end |
| Ranges.RangesJoin | data-mig/storagex/s3-multipart.go:85-103 | the ranged reads put together are the object's first size bytes |
| MultipartSafety.StepKeepsInv | data-mig/storagex/s3-multipart.go:65-125 | every step of client, store, network or outside keeps the protocol's invariant |
| MultipartSafety.JoinedIsTarget | data-mig/storagex/s3-minio.go:232-256 | the parts a complete with the recorded tags joins are the source's bytes in order |
| MultipartSafety.CommittedIsTarget | data-mig/storagex/s3-azure.go:316-351 | the blocks a commit lists are the source's bytes in order |
| MultipartSafety.AllOrNothing | data-mig/storagex/s3-multipart.go:65-125 | in every run the key holds what it held before or the source's first size bytes; no part is tried more than three times nor more than slots at once |
| MultipartSafety.NilMeansStored | data-mig/storagex/s3-multipart.go:56-125 | unless somebody else discarded the upload, nil means the object is stored; always, that an object of its size is and all of it was reported written; an error after a start means the upload was aborted |
| MultipartRuns.AlwaysReturns | data-mig/storagex/executor-s3.go:720-753 | a transfer of n parts takes at most 12n + 43 steps of its own in any run and always has one to take until it returns |
| MultipartRetry.GetsOverExactly | data-mig/storagex/executor-s3.go:720-753 | for every list of passing failures of the start, of each part and of the completing: some run in which exactly these fail returns nil iff nothing fails three times, and on Azure no start at all |
| MultipartRetry.ThreeStrikes | data-mig/storagex/executor-s3.go:727-735 | in every run: once the start, one part or the completing has failed three times, or once for good, nil is never returned |
| MultipartRetry.StopsSoon | data-mig/storagex/s3-multipart.go:90-120 | once cancelled or failed, a part that waits is tried once more at most, one under way not again, none is started but the one past the check, and there is no nil unless it was completing |
| MultipartRetry.CancelledCalls | data-mig/storagex/executor-s3.go:728-733 | after a cancellation at most one more request to start or to complete is sent |
| MultipartRetry.CancelledCanReturn | data-mig/storagex/executor-s3.go:747-751 | from wherever it is, a cancelled transfer can return without another try of anything and without the store |
| MultipartRetry.AzureAsksForBlocks | data-mig/storagex/s3-azure.go:306-355 | in every run Azure is sent blocks and block lists, and no start, abort or question |
| MultipartTags.ListedTagsAreAnswers | data-mig/storagex/s3-minio.go:229-250 | in every run a complete lists, for every part, a tag the store answered that part's own request with |
| MultipartNil.NilExactly | data-mig/storagex/s3-multipart.go:56-125 | for every source, size, part size and store: some run returns nil iff the part size is positive and the source has the listed bytes |
| MultipartNil.GrownSourceLandsShort | data-mig/storagex/executor-s3.go:474-513 | every source that grew can be stored short, with nil, in any number of parts and on either store |
| MultipartNil.NilIsSourceExactly | data-mig/storagex/s3-minio.go:246-266 | whatever else happens, nil means the source is stored iff it is not S3 over an older object of the same size and other bytes |
| MultipartNil.DiscardedUploadPasses | data-mig/storagex/s3-minio.go:258-264 | over any object of the listed size, an upload somebody else discarded returns nil and leaves that object |
| MultipartNil.FirstAnswerIsSource | data-mig/storagex/s3-minio.go:251-263 | in every run in which no complete failed, nil means the source is stored, whoever discarded the upload |
| MultipartAbort.ErrorSendsAbort | data-mig/storagex/s3-multipart.go:75-79 | after an error, an upload that was started on S3 has been sent its abort |
| MultipartAbort.AbortDiscards | data-mig/storagex/s3-minio.go:268-270 | once the store has acted on the abort the upload is gone in every later state, whatever late requests arrive |
| AzureBlocks.BlockChoiceIsExact | data-mig/storagex/s3-azure.go:287-299 | refuses iff the largest blocks do not hold the object; otherwise the block is the least that fits, the list no longer than allowed and as long as the parts are many |
| AzureBlocks.PaddedLength | data-mig/storagex/s3-azure.go:310-314 | part numbers of up to eight digits are padded to eight |
| AzureBlocks.BlockIdsDistinct | data-mig/storagex/s3-azure.go:310-314 | ids of different parts differ, and all are of one length |
| Paths.CleanBelow | data-mig/storagex/objectpath.go:55-59 | a relative path that does not climb out ends at its own segments below any base |
| Placement.EscapesAsText | data-mig/storagex/objectpath.go:55-58 | the test on the cleaned text catches exactly the keys that lead outside |
| Placement.SkippedExactly | data-mig/storagex/objectpath.go:62-71 | a key belongs to a prefix without a final slash iff the prefix's segments are the key's first ones; else iff its text starts with the prefix |
| Placement.PlacedBySegments | data-mig/storagex/objectpath.go:38-60 | for every prefix and key the text cutting comes to the key's segments after the prefix's, cleaned; a folder iff the last of them is empty |
| Placement.CheckDirs | data-mig/storagex/objectpath.go:104-122 | the second loop reports only clashes there are, and some for every key that a file is in the way of |
| Placement.FileOnTheWay | data-mig/storagex/objectpath.go:115-120 | finds the nearest file above a place, and one iff there is one |
| Placement.PlaceKeys | data-mig/storagex/objectpath.go:83-102 | places every key; what it reports is so, and it reports every key that leads outside or shares a file's place with one before it |
| Placement.ObjectLocalPaths | data-mig/storagex/objectpath.go:77-132 | accepts iff no key leads outside, no two files share a place and no file is where a directory is needed; then skips exactly the keys whose first segments are not the prefix's and places every other by its remaining segments; else every problem reported is one, and every key that has one is named |
| Download.PlaceableIffRealizable | data-mig/storagex/objectpath.go:104-121 | some directory tree holds all the keys iff those conditions hold and no key replaces the destination itself |
| Download.AcceptanceIsExact | data-mig/storagex/objectpath.go:73-132 | refuses only when it must |
| Download.StepWorks | data-mig/storagex/executor-s3.go:205-220 | with such a set of keys no MkdirAll or Create of a worker can fail |
| Download.AcceptedDownloads | data-mig/storagex/executor-s3.go:158-229 | every interleaving of the workers succeeds, nothing unasked for is on disk at any time, and the final disk is exactly the tree of the keys |
| Download.DownloadExactly | data-mig/storagex/objectpath.go:104-121 | some schedule brings all jobs through iff no file is where a directory is needed or in the destination's own place; and then no schedule fails |
| Download.FinishedMeansClear | data-mig/storagex/executor-s3.go:205-220 | a schedule that brings all jobs through shows that no file is where a directory is needed |
| Download.FinishedHoldsAll | data-mig/storagex/objectpath.go:97-101 | when all jobs are through, the disk holds what every key stands for iff no two files share a place |
| Download.SharedPlaceOverwrites | data-mig/storagex/objectpath.go:97-101 | with a shared place and nothing else in the way all jobs can come through, and one object is not there |
| Download.FileAtRootFails | data-mig/storagex/objectpath.go:55-59 | a file in the destination's own place breaks every schedule that comes to it |
| Download.DotKeyIsAccepted | data-mig/storagex/objectpath.go:43-59 | such a key is accepted, though no tree holds it |
| StreamKeys.StreamEqualsRelay | data-mig/storagex/executor-s3.go:515-530 | the streamed key is the relayed key iff no segment of the destination prefix or the place holds a backslash, and the key does not go on with a slash where there is no destination prefix |
| StreamKeys.PlainKeysAgree | data-mig/storagex/executor-s3.go:99-106 | without a backslash in key or prefix, only that leading slash can make a difference |
| StreamKeys.MarkerKeepsSlash | data-mig/storagex/executor-s3.go:515-530 | a folder marker is streamed to the key its folder's files are under, with its slash |
| StreamKeys.BackslashDiffers | data-mig/storagex/executor-s3.go:515-518 | every name with a backslash is streamed to another key than the relay's |
| StreamKeys.LeadingSlashDiffers | data-mig/storagex/executor-s3.go:515-518 | so is a key with two slashes after its prefix, where there is no destination prefix |
| StreamRelay.StreamIsRelay | data-mig/storagex/executor-s3.go:356-384 | for an accepted set of keys the stream writes exactly the keys uploaded from the downloaded tree, no two objects to one key |
| Glob.BuildGlobRegexp | data-mig/storagex/filter/glob.go:103-174 | the loop writes the expression the specification compiles to, and fails on an empty pattern; what that matches is said on the pattern's text below |
| Glob.CompilerIsRight | data-mig/storagex/filter/glob.go:126-167 | the compiled expression matches exactly what a direct reading of the pattern does |
| Glob.UnanchoredMatchesTail | data-mig/storagex/filter/glob.go:117-124 | an unanchored pattern matches iff it matches some tail that begins at a segment |
| Glob.GlobMatchesAsCompiled | data-mig/storagex/filter/glob.go:70-79 | the executable matcher the pipeline uses agrees with the compiled expression |
| Glob.AnchoredMatchesWhole | data-mig/storagex/filter/glob.go:61 | a pattern with a slash before it matches iff its text matches the whole path |
| Glob.UnanchoredMatchesAnywhere | data-mig/storagex/filter/glob.go:60 | one without matches iff its text matches some tail of the path that begins at a segment |
| Glob.SlashMeansDirectory | data-mig/storagex/filter/glob.go:104-112 | a slash after a pattern, anchored or not, changes nothing but that only directories match |
| Glob.SecondSlashMatchesNothing | data-mig/storagex/filter/glob.go:104-115 | one slash is taken off either end and no more: a pattern with two before its text, or plain text with two after, matches nothing |
| Glob.QuestionIsOneCharacter | data-mig/storagex/filter/glob.go:126-167 | a question mark between texts is exactly one character that is no slash |
| Glob.StarIsSlashFree | data-mig/storagex/filter/glob.go:126-167 | a star between texts is anything without a slash |
| Glob.DoubleStarTakesSlashes | data-mig/storagex/filter/glob.go:126-167 | a double star between texts is anything without a newline |
| Glob.SegmentMatchesBase | data-mig/storagex/filter/glob.go:67-69 | a pattern without a slash or a double star matches iff the base name does, and no newline is before it |
| Glob.LeadingDirsAreOptional | data-mig/storagex/filter/glob.go:62 | a leading double star and slash allows no directories at all |
| Glob.InnerDirsAreNeeded | data-mig/storagex/filter/glob.go:63 | an inner one needs at least one directory between |
| Glob.DoubleStarIsBeneath | data-mig/storagex/filter/glob.go:64 | a trailing double star matches everything beneath a directory |
| Filter.WithDirPass | data-mig/storagex/filter/filter.go:206-220 | puts the traversal rule right before the first catch-all exclude of a list with an include, and nowhere else |
| Filter.BuildEffective | data-mig/storagex/filter/filter.go:171-186 | the effective pipeline of either form of option |
| Filter.MatchPath | data-mig/storagex/filter/filter.go:119-136 | the loop over ancestors gives the recursive verdict: the item, file or directory, kept by all rules, every directory above it by the glob rules; what that is for each is said by WalkIsMatchPath and DirectoryKeptExactly |
| Filter.WalkIsMatchPath | data-mig/storagex/filter/filter.go:101-149 | for every tree and rule list, the files kept are, in order, those a walk collects that does not enter a dropped directory |
| Filter.SlashesDoNotMatter | data-mig/storagex/filter/filter.go:123-126 | slashes around a path do not change its verdict, and the root is always kept |
| DirectoryFilter.DirectoryKeptExactly | data-mig/storagex/filter/filter.go:119-136 | for globs and size excludes: a directory is kept iff the walk enters it and no size rule above its first glob drops the size it is asked about with |
| DirectoryFilter.GlobDirectoryKept | data-mig/storagex/inspect.go:755-758 | for globs only, the directories kept are those the walk enters |
| DirectoryFilter.SimpleFormDirectoryExactly | data-mig/storagex/filter/filter.go:159-220 | in the simple form a directory is kept iff its own name and those of all directories above are |
| DirectoryFilter.SmallerThanHidesFolders | data-mig/storagex/inspect.go:755-758 | a first rule that excludes what is smaller hides every folder, though the walk enters the same as without it |
| WhitelistFilter.TraverseSparesFiles | data-mig/storagex/filter/filter.go:188-194 | the traversal rule changes no file's verdict, whatever the rules |
| WhitelistFilter.TraverseReopensDirectories | data-mig/storagex/filter/filter.go:196-201 | it keeps a directory iff no rule above had an opinion or the first that had one keeps it |
| WhitelistFilter.SimpleFormExactly | data-mig/storagex/filter/filter.go:159-220 | the exact verdict for all lists and names: a catch-all among the excludes, and newlines in names, included |
| WhitelistFilter.SimpleFormMeaning | data-mig/storagex/filter/filter.go:159-186 | without newlines: kept iff no exclude matches the file or a directory above it and, given includes, one matches it |
| WhitelistFilter.NewlinePassesWhitelist | data-mig/storagex/filter/filter.go:179-184 | below a directory with a newline in its name a whitelist keeps every file, whatever is on it |
| WhitelistFilter.GoWhitelistPassesNewline | data-mig/storagex/filter/filter.go:179-184 | a whitelist of one pattern keeps a file that pattern does not match |
| Rsync.RsyncFilterArgs | data-mig/storagex/executor-rsync.go:708-731 | one flag for each rule in order; an error iff some effective rule is of a type without a translation, or a size rule that keeps, is for one size, or is "at least" a bound not above 0 |
| Rsync.GateIsRule | data-mig/storagex/filter/size.go:53-85 | a size flag lets through exactly what its rule does not drop, the bound included |
| Rsync.GateExistsExactly | data-mig/storagex/filter/size.go:62-85 | for every operator and bound: whether a gate that rsync takes does what the rule says, and whether the flag made from the rule is one |
| Rsync.LastGateDecides | data-mig/storagex/filter/size.go:64-85 | the last upper and lower gate say what all say, for every size, iff no earlier one is tighter |
| Rsync.DifferExactly | data-mig/storagex/executor-rsync.go:701-706 | for any rules that translate: Go and rsync differ on a file iff its first glob rule keeps it, or it has none, and the size rules above and the last gates disagree about its size |
| Rsync.DifferWhenTightest | data-mig/storagex/executor-rsync.go:701-706 | with no gate looser than one before, they differ iff an include above the size rules that drop the file decided it; then rsync never sends what Go drops |
| Rsync.LooserGateSends | pkg/core/plan/target.go:373-389 | with two upper bounds, the tighter first and no include, rsync sends what Go drops |
| Rsync.RsyncSendsWhatIsKept | data-mig/storagex/executor-rsync.go:695-731 | with size rules above every include and the last gates tightest, rsync sends exactly the files that are kept, for every tree |
| Rsync.IncludeAboveSizeDiffers | dmdl/common-model/filter.go:43-45 | with an include above a size rule it does not |
| TransferOrder.LargestFirst | data-mig/storagex/s3-concurrency.go:67-74 | fills an array with the indices and sorts it stably by size, largest first |
| TransferOrder.OrderIsLargestFirst | data-mig/storagex/s3-concurrency.go:60-74 | every index once, larger first, ties in listing order |
| Lanes.SplitLanes | data-mig/storagex/executor-s3.go:590-597 | the two lanes keep the order |
| Lanes.LanesCover | data-mig/storagex/executor-s3.go:590-597 | they share nothing, repeat nothing and leave nothing out |
| Lanes.ConnectionsCapped | data-mig/storagex/s3-concurrency.go:29-47 | objects and parts together keep to 256 connections iff fewer than 256 objects are asked for; parts are at least one, at most as many as objects, one where none is left, and cut back only at the cap |
| LaneSteps.StepKeepsInv | data-mig/storagex/executor-s3.go:548-621 | every step of any goroutine keeps the invariant |
| LaneRuns.CallsAreBounded | data-mig/storagex/executor-s3.go:578-615 | no index is called twice; at most one object in parts and s3Objects others are in flight, at any time |
| LaneRuns.ReturnTellsTheTruth | data-mig/storagex/executor-s3.go:548-621 | nil means every index was called and succeeded; without an outside cancellation an error is one a call gave of its own; no call outlives the return |
| ListingRuns.NilMeansAllMoved | data-mig/storagex/executor-s3.go:368-408 | for a listing taken largest first, nil means that exactly its objects were called and each succeeded |
| LaneRuns.LanesReturn | data-mig/storagex/executor-s3.go:589-621 | it always returns: at most 5n + 5 steps, and always one to take |
| LaneRuns.NilIsReached | data-mig/storagex/executor-s3.go:617-620 | for every order and lanes, some run returns nil |
| LaneErrors.FirstFailureExactly | data-mig/storagex/executor-s3.go:587-588 | every error returned without an outside cancellation is the run's first failure iff all objects are in parts, or none is |
| LaneErrors.LaterFailureMayBeReturned | data-mig/storagex/executor-s3.go:570-615 | with an object in each lane, a run whose first failure is the whole one's returns the parted one's |
| LaneStops.NoCallOnceStopped | data-mig/storagex/executor-s3.go:599-615 | once a lane sees the cancellation it calls nothing more, and the feeder starts one more goroutine at most |
| Progress.S3Progress.Done | data-mig/storagex/executor-s3.go:639-646 | counts a finished object and reports |
| Progress.S3Progress.Credit | data-mig/storagex/executor-s3.go:648-662 | counts only what is past the object's own count, and reports once a step is reached |
| Progress.S3Progress.Finish | data-mig/storagex/executor-s3.go:664-675 | adds what the reads did not reach, and reports |
| Progress.TotalsAreConserved | data-mig/storagex/executor-s3.go:623-681 | in any interleaving, bytes are, object by object, the furthest point credited plus the sizes done, and files the ends reported |
| Progress.ReportsGrow | data-mig/storagex/executor-s3.go:623-637 | reports never decrease, and less than 1 MiB is unreported |
| Progress.ReportsAreFew | data-mig/storagex/executor-s3.go:635-662 | however small the steps credited, there are no more reports than files and MiB |
| Progress.CompleteTotal | data-mig/storagex/executor-s3.go:639-681 | when every object is done or finished once at its listed size, the files are the objects and the bytes at least the sum of the sizes, and that sum iff nothing was read past its size; the last report says so |
| ShardSum.ShardSum.Report | data-mig/storagex/executor-rsync-shard.go:193-207 | replaces the figures the shard gave, keeps all others, and passes on the new sums |
| ShardSum.ShardSum.FinalReporter | data-mig/storagex/executor-rsync-shard.go:209-213 | the final run's reporter counts from the sums of what the shards have moved by then |
| ShardSum.OffsetReporter.Report | data-mig/storagex/executor-rsync-shard.go:214-223 | passes on the figures that are given, counted from there, and those not given as they are |
| ShardSum.Total | data-mig/storagex/executor-rsync-shard.go:226-232 | the sum of an array |
| ShardSum.ReportsAreSums | data-mig/storagex/executor-rsync-shard.go:180-207 | in any interleaving, every report is the sum of the last figure each shard has given by then |
| ShardSum.ReportsGrow | data-mig/storagex/executor-rsync-shard.go:180-207 | if no shard takes a figure back, no report does |
| ShardSum.FinalGoesOn | data-mig/storagex/executor-rsync-shard.go:209-224 | a figure the final run gives is added to what the shards reported last, one it does not give stays missing; its reports go on from theirs |
| PgNames.SplitPgName | data-mig/dbmsx/filter/object_name.go:95-143 | the index and prefix loops accept and read exactly what the recursive reader of names does |
| PgNames.QualifiedTableNames | data-mig/dbmsx/handle.go:629-639 | writes every table's qualified name |
| PgNames.SplitInvertsShow | data-mig/dbmsx/filter/object_name.go:91-143 | splitting gives back schema, name and arguments, each identifier quoted or bare, whatever they hold |
| PgNames.SplitSkipsBlanks | data-mig/dbmsx/filter/object_name.go:95-143 | blanks about the dot and before the arguments, and space around the name, make no difference |
| PgNames.SplitRefuses | data-mig/dbmsx/filter/object_name.go:91-143 | no name has three parts, goes on after its identifier or leaves its arguments open |
| PgNames.QualifiedReadsBack | data-mig/dbmsx/handle.go:620-646 | a qualified table name is read back as its schema and name, unless the name is empty |
| PgNames.NormalizePgArgs | data-mig/dbmsx/filter/object_name.go:148-161 | rewrites the argument list in place: IN left out, one space between words, a comma and a space between arguments |
| PgNames.NormalizeCompares | data-mig/dbmsx/filter/object_name.go:145-161 | two argument lists have one normal form iff they agree word by word, the IN mode left out |
| PgNames.OnlyInIsDropped | data-mig/dbmsx/filter/object_name.go:145-161 | a word before an argument makes no difference iff it is IN, in either case of its letters |
| PgNames.RoutineRuleExactly | data-mig/dbmsx/filter/object_name.go:47-89 | a routine rule takes a routine iff the identifiers are equal and the arguments, if given, agree; or its text is the bare name |
| PgNames.TableRuleExactly | data-mig/dbmsx/filter/object_name.go:63-89 | a rule for tables or views takes an object iff it is its printed name, or the bare name with or without schema of one without a signature |
| PgNames.BareTextTakesAnother | data-mig/dbmsx/filter/object_name.go:48-50 | a routine named like another's signature is taken by that other's rule |
| FieldSec.GetFieldByPath | data-mig/storagex/fieldsec/path.go:9-34 | the walk finds the text the path leads to, or nothing |
| FieldSec.SetAfterGet | data-mig/storagex/fieldsec/path.go:39-68 | after a successful get, set succeeds, changes that field alone and keeps the document's shape |
| FieldSec.Encrypt | data-mig/storagex/fieldsec/encrypt.go:106-126 | encrypts every listed field that is there and not empty, in order, and sets the key id; fails where the cipher does |
| FieldSec.Decrypt | data-mig/storagex/fieldsec/decrypt.go:82-102 | clears the key id and decrypts every listed field that is there and not empty, in order |
| FieldSec.EncryptedHolds | data-mig/storagex/fieldsec/encrypt.go:106-126 | the encrypted document has the document's shape, every text wrapped as often as its field is listed and no other changed, and the key id as given |
| FieldSec.OnlyCipherFails | data-mig/storagex/fieldsec/encrypt.go:112-126 | with a cipher that does not fail, every list of fields succeeds |
| FieldSec.DecryptUndoesEncrypt | data-mig/storagex/fieldsec/decrypt.go:54-110 | decrypting what was encrypted gives the document back but for the cleared key-id entry, for every list of fields, repeated and nested ones included |
| WalkOrder.EntriesApart | data-mig/storagex/inspect.go:508-514 | of two entries, everything at or below the first is before everything at or below the second |
| WalkOrder.VisitSorted | data-mig/storagex/inspect.go:508-514 | the walk of a tree with sorted entries is strictly increasing |
| WalkOrder.SortingIsWalking | data-mig/storagex/inspect.go:367-370 | any listing of a tree, sorted, is the order of the walk |
| WalkOrder.PlainOrderDiffers | data-mig/storagex/inspect.go:508-514 | comparing paths as they are is not that order |
| Rollup.RelExactly | data-mig/storagex/filter/path.go:16-36 | relative to a root, a path is its names after the root's; one not below the root stays as it is, however its text begins |
| Rollup.ExtractFolderPrefixes | data-mig/storagex/inspect.go:798-823 | every folder above every key, once, in order, and nothing else |
| Rollup.FolderAboveExactly | data-mig/storagex/inspect.go:801-816 | a folder is derived from a key iff the key goes on below it |
| Rollup.DirectIsFolder | data-mig/storagex/inspect.go:651-659 | the folder an object is counted in is one of those derived from its key, or the bucket where it has none |
| Rollup.Aggregate | data-mig/storagex/inspect.go:727-752 | one pass gives the totals and what is directly in each folder |
| Rollup.InspectObjectStorage | data-mig/storagex/inspect.go:707-796 | lists every folder the filter shows, once and in order, with its own figures, and the totals |
| Rollup.ShownByNames | data-mig/storagex/inspect.go:755-758 | a folder is shown iff the pipeline keeps its names below the scanned one |
| Rollup.ShownToDepth | data-mig/storagex/inspect.go:759-769 | of those kept, exactly the ones with no more names than the depth asked for, counted from the bucket; 0 asks for all |
| Rollup.TotalIsSum | data-mig/storagex/inspect.go:727-745 | the totals are the number of objects and the sum of their sizes |
| Rollup.FoldersSumUp | data-mig/storagex/inspect.go:743-789 | the folders' figures sum to those of the objects whose folder is listed, and to the totals iff none is missing |
| Rollup.RollupConserves | data-mig/storagex/inspect.go:707-789 | without a filter the figures add up iff the whole bucket was scanned or no object is at its top |
| Rollup.MarkerIsMissing | data-mig/storagex/inspect.go:651-659 | they do not for any top-level folder that is scanned and has a marker |
| Selection.SelectForStream | data-mig/storagex/executor-s3.go:361-366 | the objects that belong to the location and the filter keeps, in listing order; s3-sizelimit.go sizes the same ones |
| Selection.SelectForDownload | data-mig/storagex/executor-s3.go:145-198 | a download refuses iff what the filter keeps cannot be placed, and else gives its workers exactly the objects a stream sends, in the same order |
| Selection.JudgedWherePlaced | data-mig/storagex/executor-s3.go:145-161 | the filter is asked about an object by the very path it is placed at |
| Selection.ChosenByPlace | data-mig/storagex/executor-s3.go:361-366 | an object below the location is sent iff the filter keeps the path it is placed at, at its size |
| Selection.InspectionCountsListing | data-mig/storagex/inspect.go:697-745 | without a filter an inspection counts as many objects as a transfer of the location takes iff every key listed belongs to it, else more |

## Left out

- Integer widths: sizes and totals are unbounded here; sums near 2^63 are not modelled.
- SSH, HTTP, presigned URLs, running rsync, `find` and `sha256sum`: the outside is modelled as choices, or as a tree and a list of flags.
- Running the shards (`runShards`: listing the source, the processes, the final pass) is not modelled; which files it deals is MatchPath's verdict on each.
- Multipart uploads: the upload objects are fields of one state rather than classes, because the store may act between any two of their steps; the source is taken not to change during the transfer, and other writers to the key not to write, except that somebody may discard the upload.
- MultipartSafety.NilMeansStored: an upload whose start was acted on but whose response was lost is started again; that first upload stays on the store unaborted, as in the code.
- OptimalPartInfo, which chooses the part size on S3, belongs to a library; any part size is allowed here.
- Whether a failure is permanent (`sdkError`, `statusError`, `minioError`, `azureError`) is a choice of each failing step; the waits between tries take no time.
- Placement: the destination is absolute and clean, and a place is the list of names below it; Windows separators and the text of error messages are not modelled.
- Download.AcceptedDownloads: a file's content is the key it came from; retries of one download count as one step.
- Glob: patterns with `[` and patterns that are not ASCII, which the compiler re-encodes byte by byte, are not modelled; the cache of compiled patterns is not either.
- Filter: an item's base name and time of change, which only registered matchers read, are left out of the item; JSON decoding and the once-only caches of the pipeline are not modelled.
- Rsync: rsync's own matcher is taken to read patterns as `glob.go` does, which is the premise of that file; its refusal of a bound below 0 is a condition of `GateExistsExactly` only, and a bound one past the largest 64-bit size is not modelled.
- LaneSteps: goroutines are steps, and keeping an error is one step with returning it; when a cancellation is seen is left to the scheduler, which allows more runs than the code has.
- `withRetry` is modelled where a part, a start and a complete are retried, not as a function of its own; `PipeExecutor` and the session pump are left out.
- Progress: the lock admits calls one by one; that is how a run is a list of calls.
- PgNames.RoutineRuleExactly: an inventory name with no schema is matched on its whole text, which adds an easy case.
- FieldSec: nested maps are values, so setting a field rebuilds the maps above it; a decoded document shares no maps, so there is no aliasing to lose. RSA and AES are a pair of functions, and the conversion to JSON and back is left out.
- WalkOrder: characters are compared as code points, which is the byte order of UTF-8; pruning of `/proc` and the like is not modelled.
- Rollup: times of change, counts by extension and the flags that choose figures are left out, as they add only cases; all figures are computed.
- Database drivers, charsets, the REST server, configuration, validation chains and the user interface are plumbing and not modelled.
