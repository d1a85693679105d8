# OpenList, verified models of its hardest logic

OpenList mounts many storage providers behind one file tree. This project models, in Dafny, the parts of
it that carry state, branching and arithmetic, and proves what they are for. Everything else is a thin
layer over some provider's HTTP interface.

| module | models |
|---|---|
| `Common` | result types and facts about lists and sets |
| `AliasPolicy` | the alias driver: conflict policies, the in-place sweep over the candidate list, the compressed list that `Get` builds |
| `AliasMove` | matching sources to destinations for a move, and the move itself |
| `AliasCopy` | matching sources to destinations for a copy |
| `AliasSelect`, `AliasPut` | the weighted choice by free space, with 64-bit wrap-around, and the targets of an upload |
| `Multipart115` | the multipart upload of 115 as steps of producer, worker, collector, waiter and main loop |
| `Slicing` | cutting a file into slices and tiling it with parts |
| `SliceHash` | the slice hashes of 189 and 189 PC |
| `ResumeUpload` | the resumable upload of 189 PC over any history of cancelled and resumed calls |
| `PartPlan` | part sizes and part loops of 115, 115 Open, 189 PC and AliDoc |
| `RateLimiter` | the request limiter of 123 Open, as timed steps |
| `B64Hex` | the base64-to-hex machine of 189 |
| `LinkTree`, `LinkForest`, `LinkText`, `LinkNodes`, `LinkBuild`, `LinkLookup` | the text of the 123 link driver: its lines, its indentation stack, the node tree, path lookup and folder sizes |
| `MergeJson` | merging generated translations into existing ones |

Loops and in-place updates of the program are loops and in-place updates here (arrays for the
candidate lists, classes for the filter, the hash writers, the tree nodes and the nested maps), each
proved against a function; concurrent code is a state machine over its atomic steps, and its theorems
are about every run. Chance and order that the program leaves open are left open here: random draws are
parameters, map iteration takes any element, and the server's answers are steps.

## Findings

Some laws that the code is written for do not hold of it without a condition. The model keeps the code
as it is; the exact condition is a theorem.

- **A move can crash.** The remark at `drivers/alias/util.go:439` says that the spare sources suffice
  for the free destinations. They do exactly when the sources that resolve to a storage are at least as
  many as the destinations (`AliasMove.RemarkHoldsIff`); the earlier check counts the unresolved ones
  too. `AliasMove.RemarkFails` gives an input that is accepted, `AliasMove.MoveCrashes` moves it, and
  `AliasMove.Move` ends in a crash (index out of range) exactly then. Sources that do not resolve are
  dropped (`AliasMove.NothingLost`).
- **Weights can wrap.** The shares of `selectRandom` are exact if and only if the weights sum to less
  than 2^64 (`AliasSelect.SharesExactIff`).
- **A strict choice by quota need not have room.** `getPutObjs` asks for the size of the target
  directory, not of the file. Every strict choice has room for the file if and only if every storage
  that some draw can choose has (`AliasSelect.StrictRoomIff`); without overflow these are the storages
  whose free space is not zero and not below the directory's size (`AliasSelect.PickableBySpace`,
  `AliasSelect.StrictChoiceTooSmall`).
- **115 can complete with an empty or unread part.** The worker and the main loop write the same
  variable `err`, and the worker looks at it in steps of its own after each read, each upload and the
  last attempt. `parts` holds all receipts at `CompleteMultipartUpload` if and only if the worker was
  never misled (`Multipart115.CompletesWholeIff`): it never found `err` nil, at the test of an upload or
  at the final check after all attempts, although its last upload of the chunk had failed, had sent a
  buffer that was not read, or had not taken place. What it finds differs from what it wrote exactly
  when a token refresh of the main loop with the other outcome came in between
  (`Multipart115.DeceivedIff`), and it is misled only after a successful refresh between a failed call,
  or a read that met the end of the file, and the look at it (`Multipart115.SpoilsNeedsRefresh`).
  `Multipart115.CanCompleteWithLoss` and `Multipart115.CanCompleteUnread` are such runs.
- **115 can report a failure and return no error.** `case <-errCh: return nil, err` drops what it
  receives and returns the last value anyone assigned. That is nil if and only if the worker's last call
  since then succeeded or, if there was none, it had panicked with `err` nil, or a token refresh of the
  main loop succeeded while it waited to report (`Multipart115.ReturnsNilIff`,
  `Multipart115.CanReturnNil`).
- **123 Open can block itself.** Releases are deferred inside the retry loop, so one request that is
  retried as often as there are tokens waits for itself. A blocked request can still get through if and
  only if not every token is held by blocked requests (`RateLimiter.GetsThroughIff`,
  `RateLimiter.SelfDeadlock`).
- **`SplitFile` has a gap.** A file of exactly 9 GB meets no branch and panics; files below 1000 bytes
  are refused (`PartPlan.SplitFile`).
- **An empty file would plan one whole slice** in `StreamUpload` (`PartPlan.StreamParts`); `uploadFile`
  sends empty files to `FastUpload` instead (`drivers/189pc/driver.go:527-528`).
- **115 Open** keeps to 10000 parts exactly up to 50000 GB (`PartPlan.CalPartCountIff`).
- **An `https://` address that contains `http://`** is not read back: the parser looks for `http://`
  first (`LinkText.FileLineReadsIff`, `LinkText.MirroredIsMisread`).
- The comment at `drivers/123_link/parse.go:21` shows a line `name1:url1`. The code does not accept a
  name there: what precedes the address must be numbers. The model follows the code.

## Model

| member | source | states |
|---|---|---|
| `AliasPolicy.Filter.Call` | drivers/alias/util.go:187-223 | the policy closure answers and remembers as the policy automaton says, for every policy and every error |
| `AliasPolicy.NotYetOverwritten` | drivers/alias/util.go:126-168 | although the sweep writes its result over the list it reads, the entry it is about to read and the first entry are still the original ones |
| `AliasPolicy.Compact` | drivers/alias/util.go:123-168 | the loop leaves the accepted entries at the front of the same array, in order, followed by the untouched rest, and stops with the failure of the sweep |
| `AliasPolicy.GetAllObjs` | drivers/alias/util.go:123-173 | returns the accepted entries as a prefix of the array, or the error; nothing accepted is an error |
| `AliasPolicy.SweepMeetsPromise` | drivers/alias/util.go:187-223 | after any candidates the automaton's memory, answer and kept entries are what the policy promises of those candidates |
| `AliasPolicy.PolicyOutcome` | drivers/alias/util.go:123-223 | `all` gives all valid candidates in order, `first` the first valid one, `all_strict` succeeds only when all are valid, `deterministic` only when exactly one is, `deterministic_or_all` only when one or all are; no valid candidate fails every policy |
| `AliasPolicy.LeadStays` | drivers/alias/util.go:126-168 | a valid first candidate stays first in what is kept |
| `AliasPolicy.FirstHit` | drivers/alias/driver.go:119-124 | the first root where the path exists, all earlier ones being misses |
| `AliasPolicy.FillProbes` | drivers/alias/driver.go:162-166 | the roots after the hit are appended untested, in order |
| `AliasPolicy.Get` | drivers/alias/driver.go:114-170 | the list is the hit, one empty entry for all earlier misses if there are any, then the later roots; not found exactly when no root has the path |
| `AliasPolicy.MissesMove` | drivers/alias/driver.go:114-170 | misses before the hit can be replaced by one miss after it without changing what any policy promises |
| `AliasPolicy.CompressionFaithful` | drivers/alias/driver.go:114-170 | for every policy and every pattern of existing roots, the compressed list is accepted or refused with the same objects as the policy promises for the full list of roots |
| `AliasPolicy.NothingExists` | drivers/alias/driver.go:114-170 | with no existing root every policy fails on the full list |
| `AliasPolicy.KeptEntries` | drivers/alias/util.go:154-164 | every kept entry comes from its own, valid candidate |
| `AliasPolicy.SelectedDistinct` | drivers/alias/util.go:123-173 | distinct candidates give distinct accepted objects |
| `AliasPolicy.CompressedDistinct` | drivers/alias/driver.go:114-170 | the list of `Get` holds distinct objects |
| `AliasMove.GroupByMount` | drivers/alias/util.go:405-415 | destinations queued by mount in order; refused exactly when one does not resolve |
| `AliasMove.PairedOnMount` | drivers/alias/util.go:418-437 | on each mount, the greedy loop pairs the first sources with the first destinations, as many as both sides have |
| `AliasMove.PairPosition` | drivers/alias/util.go:418-437 | a pair joins a source and a destination at the same position of the same mount |
| `AliasMove.DstsDistinct` | drivers/alias/util.go:418-437 | no destination is given out twice |
| `AliasMove.Accounting` | drivers/alias/util.go:418-440 | paired and spare sources together are exactly the sources that resolve |
| `AliasMove.PairingIsMaximum` | drivers/alias/util.go:418-437 | no other same-mount matching is larger |
| `AliasMove.BooksBalance` | drivers/alias/util.go:405-437 | after any number of sources, the queues, the free destinations and the lists built so far agree with the pairing |
| `AliasMove.PairSources` | drivers/alias/util.go:416-437 | the loop writes the paired destinations through the array of `dstDir` and builds the source lists |
| `AliasMove.PlaceRest` | drivers/alias/util.go:438-443 | the free destinations follow, each once, in any order |
| `AliasMove.Accept` | drivers/alias/util.go:390-404 | which objects are accepted, and the refusals: writing disabled, a failed policy, fewer sources than destinations |
| `AliasMove.AllotMove` | drivers/alias/util.go:405-445 | the destinations are a permutation of the accepted ones that begins with the paired ones; the sources are the paired and then the spare ones |
| `AliasMove.GetMoveObjs` | drivers/alias/util.go:390-445 | the same for the whole operation on the two candidate arrays, with every refusal |
| `AliasMove.Execute` | drivers/alias/driver.go:373-385 | moves the sources that have a destination, removes the others, and runs out of range exactly with too few sources |
| `AliasMove.Move` | drivers/alias/driver.go:371-386 | the whole move: refused, crashed exactly when fewer sources resolve than there are destinations, or finished with this log of effects |
| `AliasMove.MoveOpensWith` | drivers/alias/driver.go:373-385 | the log begins with the same-mount moves |
| `AliasMove.MoveConserves` | drivers/alias/util.go:390-445 | in a finished move every resolving source is used exactly once, every destination is reached exactly once, and no same-mount matching has more moves |
| `AliasMove.NothingLost` | drivers/alias/util.go:418-422 | no source is lost if and only if all resolve |
| `AliasMove.RemarkHoldsIff` | drivers/alias/util.go:439 | the remark holds if and only if enough sources resolve |
| `AliasMove.RemarkFails` | drivers/alias/util.go:439 | two candidate lists that are accepted and break the remark |
| `AliasMove.MoveCrashes` | drivers/alias/driver.go:371-386 | moving them crashes before anything is done |
| `AliasCopy.CopyPairsServe` | drivers/alias/util.go:363-377 | a paired destination is served by the first resolvable source on its own mount |
| `AliasCopy.CopyPairsCover` | drivers/alias/util.go:363-377 | the paired destinations are exactly those with a source on their mount |
| `AliasCopy.CopyBooksBalance` | drivers/alias/util.go:362-377 | after any number of sources, queues, free destinations and lists agree with the pairing |
| `AliasCopy.Assign` | drivers/alias/util.go:370-374 | one source takes all destinations waiting on its mount, written through the array |
| `AliasCopy.PairCopies` | drivers/alias/util.go:362-377 | the pairing loop on the array |
| `AliasCopy.PickFallback` | drivers/alias/util.go:380-383 | the fallback source is the first one, or any one under the balanced policies |
| `AliasCopy.PlaceCopies` | drivers/alias/util.go:378-386 | the free destinations follow, each once, each with a fallback source |
| `AliasCopy.AcceptDsts` | drivers/alias/util.go:340-357 | the accepted destinations and the refusals |
| `AliasCopy.AcceptSrcs` | drivers/alias/util.go:358-361 | the accepted sources, never none |
| `AliasCopy.GetCopyObjs` | drivers/alias/util.go:339-388 | lists of equal length; the destinations are a permutation of the accepted ones; each has the first resolvable source of its own mount whenever there is one, and a fallback source otherwise |
| `AliasSelect.SelectRandom` | drivers/alias/util.go:320-337 | falls through exactly when the wrapped total is zero, and otherwise picks the slot the draw falls into |
| `AliasSelect.OneSlot` | drivers/alias/util.go:328-335 | a draw falls into one slot only |
| `AliasSelect.ExactShare` | drivers/alias/util.go:320-337 | without overflow, exactly `weight(i)` of the draws below the total give `i` |
| `AliasSelect.SharesExactIff` | drivers/alias/util.go:320-337 | the shares are exact if and only if the weights sum to less than 2^64 |
| `AliasSelect.SelectBySpace` | drivers/alias/util.go:293-318 | the draw decides among the storages with enough known space; if there is none, any with unknown space outside strict mode, and no pick otherwise |
| `AliasSelect.ChosenHasSpace` | drivers/alias/util.go:293-318 | a pick with known space has at least the size asked for and, for a size that is not negative, more than none; one with unknown space only outside strict mode and when no other qualifies |
| `AliasSelect.StrictRoomIff` | drivers/alias/util.go:240-253 | every strict pick has room for the file if and only if every storage that some draw can choose has |
| `AliasSelect.PickableBySpace` | drivers/alias/util.go:294-299 | without overflow, some draw chooses a storage if and only if its known space is not zero and not below the directory's size |
| `AliasSelect.StrictChoiceTooSmall` | drivers/alias/util.go:249 | a strict pick with one byte left, since directories have size 0 |
| `AliasPut.GetPutObjs` | drivers/alias/util.go:232-257 | the refusals, the accepted entries, one of them at random, or the one chosen by space for the size of the first entry |
| `AliasPut.FirstEntryStays` | drivers/alias/util.go:236-249 | the entry whose size is asked for is still the original first one after the list was compacted |
| `Multipart115.RunKeeps` | drivers/115/util.go:369-455 | every interleaving, with every assignment of and every look at `err` a step of its own, keeps the invariant: chunk order, receipts, WaitGroup, what the collector holds |
| `Multipart115.CompletesWhole` | drivers/115/util.go:369-455 | `CompleteMultipartUpload` is reached only with one entry per chunk in order, each a receipt for bytes that were read unless the worker was misled about that chunk, and with no reported failure |
| `Multipart115.ReportedNeverCompletes` | drivers/115/util.go:414-450 | after a reported failure it is never reached |
| `Multipart115.GivenUpStays` | drivers/115/util.go:432-455 | a main loop that has given up stays so, and a return is final |
| `Multipart115.LossIff` | drivers/115/util.go:395-420 | no chunk was wrongly taken for uploaded if and only if no look of the worker at the upload test or the final check misled it |
| `Multipart115.CompletesWholeIff` | drivers/115/util.go:369-455 | at completion all receipts are there if and only if the worker was never misled |
| `Multipart115.ErrIsLastWrite` | drivers/115/util.go:400-442 | in every run `err` is the value of the last assignment of anyone |
| `Multipart115.DeceivedIff` | drivers/115/util.go:400-438 | what the worker sees is not what it wrote if and only if a token refresh of the main loop with the other outcome came since |
| `Multipart115.SpoilsNeedsRefresh` | drivers/115/util.go:395-438 | the worker is misled only after a successful refresh of the main loop between a failed read, upload or last attempt, or a read at the end of the file, and its look |
| `Multipart115.ReturnsLastWrite` | drivers/115/util.go:436-442 | the error returned is nil if and only if the last assignment of anyone was nil |
| `Multipart115.ReturnsNilIff` | drivers/115/util.go:441-442 | after a received error, nil is returned if and only if the worker's last call since succeeded or, without one, it had panicked with `err` nil or a refresh of the main loop succeeded while it waited to report |
| `Multipart115.CanComplete` | drivers/115/util.go:369-455 | for every number of chunks there is a run that completes with all receipts |
| `Multipart115.CanCompleteWithLoss` | drivers/115/util.go:406-455 | a run whose only upload fails and that completes with an empty part |
| `Multipart115.CanCompleteUnread` | drivers/115/util.go:406-455 | a run that completes with a part whose bytes were never read |
| `Multipart115.CanReturnNil` | drivers/115/util.go:388-442 | a run without any refresh that reports a panic and returns no error |
| `ResumeUpload.PartIsBlock` | drivers/189pc/utils.go:1078-1084 | the byte range sent for part n is the n-th slice of the data |
| `ResumeUpload.SavedCovers` | drivers/189pc/utils.go:1095-1100 | dropping the cleared entries keeps every part either sent or listed |
| `ResumeUpload.HistoryKeeps` | drivers/189pc/utils.go:1029-1117 | every history of begun, cancelled, failed, resumed and expired calls keeps the invariant |
| `ResumeUpload.HistoryCovers` | drivers/189pc/utils.go:1029-1117 | in every history each sent part carries the range of its own number, and every part is on the server or on a list |
| `ResumeUpload.CommittedIsWhole` | drivers/189pc/utils.go:1029-1117 | a committed upload had the data on the server, or all parts were sent and put together are the file |
| `ResumeUpload.CanResume` | drivers/189pc/utils.go:1029-1117 | a history in which a cancelled upload is resumed and committed |
| `RateLimiter.RunKeeps` | drivers/123_open/util.go:41-91 | every run keeps tokens, holders and release times consistent |
| `RateLimiter.RateIsKept` | drivers/123_open/types.go:17-29 | in every run the k-th and the (k+qps)-th acquisition are at least a second apart |
| `RateLimiter.StuckForever` | drivers/123_open/util.go:60-90 | when blocked requests hold all tokens, no later step changes that |
| `RateLimiter.GetsThroughIff` | drivers/123_open/util.go:60-90 | a blocked request can still get its token if and only if that is not so |
| `RateLimiter.SelfDeadlock` | drivers/123_open/util.go:60-90 | for every positive rate, one request alone reaches that state by retrying |
| `SliceHash.Feed` | drivers/189/util.go:526-561 | adding bytes that stay within the open slice completes that slice or extends it |
| `SliceHash.BlocksAreFullAndTail` | drivers/189/util.go:326-346 | the complete slices and the open one are the consecutive blocks of the data |
| `SliceHash.SliceHashWriter.Write` | drivers/189/util.go:526-561 | an uncancelled write takes all bytes and keeps the hashes of the data so far; a cancelled one takes none; the inner loop ends |
| `SliceHash.SliceHashWriter.Flush` | drivers/189/util.go:342-345 | the final flush leaves exactly the hashes of the blocks, one of the empty block for an empty stream |
| `SliceHash.HashWrites` | drivers/189/util.go:326-346 | however the data is split into writes, the hashes are those of its blocks |
| `SliceHash.Roller.Roll` | pkg/torrent/hash_writer.go:79-118 | the writer of either size keeps the digests of the data so far |
| `SliceHash.HashTwice` | pkg/torrent/hash_writer.go:66-130 | one pass yields slice and piece digests, each of its own blocks, whatever the writes |
| `SliceHash.ComputeSliceMD5s` | drivers/189pc/torrent.go:301-329 | the file hash and the hashes of the blocks, none for empty data; a size that is not positive means the default |
| `SliceHash.SliceSizes` | drivers/189pc/utils.go:946-954 | count and last length are those of the blocks |
| `SliceHash.InfoAt` | drivers/189pc/utils.go:994-996 | part info i names part i + 1 and the digest of that slice |
| `SliceHash.PrepareSlices` | drivers/189pc/utils.go:956-1019 | file hash, slice hashes and part infos of the upload loop are those of the blocks |
| `SliceHash.RapidHash` | drivers/189pc/torrent.go:81-94 | what the rapid upload sends: the hash of several upper-cased slice hashes, else the stored slice hash, else the file hash |
| `SliceHash.CombinedHashesAgree` | drivers/189pc/torrent.go:30-50 | the combined hash sent, stored and recomputed, also from a record without it, is the same one, because the size exceeds the slice size exactly when there is more than one slice |
| `B64Hex.Masked` | drivers/189/help.go:64-77 | the masks keep the low two and four bits |
| `B64Hex.Joined` | drivers/189/help.go:67-76 | shift and or put the carry in front of the high bits |
| `B64Hex.B64ToHex` | drivers/189/help.go:53-85 | the loop panics if and only if some character is outside the alphabet, and otherwise is the four-state machine on the values |
| `B64Hex.IndicesBelow16` | drivers/189/help.go:61-78 | with a value of the alphabet every index of `int2char` is below 16, and the indices are the digits the machine adds |
| `B64Hex.IndexPanics` | drivers/189/help.go:60-78 | with any other character one index is -1, in every state |
| `B64Hex.MachineDecodes` | drivers/189/help.go:53-85 | for every byte sequence the machine turns its six-bit groups into its four-bit groups |
| `B64Hex.SextetsOfBase64` | drivers/189/help.go:45-60 | reading padded base64 text, per section 4 of RFC 4648, gives the six-bit groups |
| `B64Hex.DecodesThenHexes` | drivers/189/help.go:45-85 | for every byte sequence, its padded base64 text becomes its lowercase hex text, per sections 4 and 8 of RFC 4648 |
| `B64Hex.OnlyHexDigits` | drivers/189/help.go:49-51 | every character produced is a lowercase hex digit |
| `PartPlan.SplitByPartNum` | drivers/115/util.go:495-521 | succeeds exactly for 1 to 10000 chunks and no more than bytes; that many chunks tile the file |
| `PartPlan.SplitByPartSize` | drivers/115/util.go:523-551 | succeeds exactly for a positive size with fewer than 10000 full chunks; the chunks tile the file |
| `PartPlan.SplitFile` | drivers/115/util.go:470-493 | panics exactly for 9 GB, fails exactly below 1000 bytes, otherwise at most 10000 numbered chunks tile the file, all but the last of at least 100 KB |
| `PartPlan.PartCountBound` | drivers/189pc/help.go:196-209 | at most 999 parts of 10 or 20 MiB, at most 1999 of 50 MiB and more |
| `PartPlan.PartSizeLeast` | drivers/189pc/help.go:196-209 | a larger size only where the next smaller one breaks its limit |
| `PartPlan.StreamParts` | drivers/189pc/utils.go:731-762 | as many parts as slices; they tile the file if and only if it is not empty |
| `PartPlan.StreamCount` | drivers/189pc/utils.go:731-738 | count and last length make up the size |
| `PartPlan.CalPartCountIff` | drivers/115_open/upload.go:19-37 | at most 10000 parts if and only if the file has at most 50000 GB |
| `PartPlan.OpenParts` | drivers/115_open/upload.go:95-135 | the part loop tiles the file |
| `PartPlan.AliDocPartLeast` | drivers/alidoc/upload.go:114-127 | the chosen size is the least, from the minimum on, with at most 10000 parts |
| `PartPlan.AliDocParts` | drivers/alidoc/upload.go:156-204 | at most 10000 parts tile the file, all but the last of at least the minimum |
| `Slicing.TilesCover` | drivers/115/util.go:495-551 | in a tiling every byte is in exactly one chunk |
| `Slicing.TilesOrdered` | drivers/115/util.go:495-551 | chunks of a tiling do not overlap |
| `Slicing.FlattenBlocks` | drivers/189pc/utils.go:956-1019 | the slices put together are the data |
| `Slicing.BlockCount` | drivers/189pc/utils.go:946-954 | the slice count of the drivers is the number of blocks |
| `LinkTree.StackIsOpenFolders` | drivers/123_link/parse.go:59-75 | after any number of lines the stack holds, above the root, exactly the open folders |
| `LinkTree.ParentsAreOpenFolders` | drivers/123_link/parse.go:32-86 | the parent of each line is the latest folder line of smaller level with no line of its level or less in between, else the root |
| `LinkTree.ParentUnique` | drivers/123_link/parse.go:32-86 | there is only one such parent |
| `LinkTree.Popped` | drivers/123_link/parse.go:59-62 | popping keeps the root and strictly increasing levels and stops below the level of the line |
| `LinkForest.StackBuildsGroups` | drivers/123_link/parse.go:32-86 | for every list of lines, the tree built with the stack is the one got by cutting the lines into blocks of deeper lines |
| `LinkForest.BuildOfFlat` | drivers/123_link/parse.go:32-86 | writing a forest out as lines and building it again gives it back |
| `LinkForest.FlatOfBuild` | drivers/123_link/parse.go:32-86 | building a tree and writing it out keeps every line, once and in order |
| `LinkText.JoinOfSplit` | drivers/123_link/parse.go:33 | the pieces of a split text hold no separator and joined again are the text |
| `LinkText.IndexIsFirst` | drivers/123_link/parse.go:99-102 | the address is looked for at its first occurrence |
| `LinkText.ParseOfNumber` | drivers/123_link/parse.go:123-133 | every 64-bit number is read back from its decimal text |
| `LinkText.FolderLineReadsIff` | drivers/123_link/parse.go:36-73 | the line of a folder is read back if and only if its name does not start with white space |
| `LinkText.UrlFoundIff` | drivers/123_link/parse.go:96-104 | after numbers, the address is found where it was put if and only if it is an `http://` one or has no `http://` inside |
| `LinkText.FileLineReadsIff` | drivers/123_link/parse.go:94-139 | the line of a file is read back if and only if its address is found so and does not end in a colon or white space |
| `LinkText.MirroredIsMisread` | drivers/123_link/parse.go:99-104 | an `https://` address with `http://` inside that is not read back |
| `LinkText.TextRoundTrip` | drivers/123_link/parse.go:32-139 | a tree whose folder names and addresses pass the conditions above and hold no line break, written in the accepted format and parsed, gives the tree back without a fault |
| `LinkNodes.CountIndent` | drivers/123_link/parse.go:38-44 | the loop counts the leading spaces |
| `LinkNodes.ReadOne` | drivers/123_link/parse.go:36-83 | a line is odd-indented, blank, a folder, a file or a fault, as the reading function says |
| `LinkNodes.Pop` | drivers/123_link/parse.go:59-62 | the loop pops the node stack as the number stack is popped, never the root |
| `LinkNodes.Append` | drivers/123_link/parse.go:64-82 | appending to the children of one node keeps all child lists as the parents say |
| `LinkNodes.AddLine` | drivers/123_link/parse.go:57-83 | a line is popped for, appended and, if a folder, pushed; the tree and the stack of the longer text result |
| `LinkBuild.BuildTree` | drivers/123_link/parse.go:32-86 | fails with the first fault of the text, or returns the root of a new tree whose nodes are the lines and whose child lists are the lines with that parent, in order |
| `LinkLookup.GetByPath` | drivers/123_link/types.go:20-37 | finds a node if and only if a chain of children with these names exists, and then the end of the first chain in depth-first order |
| `LinkLookup.GetNodeFromRootByPath` | drivers/123_link/parse.go:141-152 | the same from the root, for a slash-separated path |
| `LinkLookup.WholeIsClosed` | drivers/123_link/parse.go:32-86 | children of a built tree are nodes of it, so every built tree can be looked up |
| `LinkLookup.CalSize` | drivers/123_link/types.go:43-53 | returns the total and sets exactly the folders at or below the node to their totals; everything else is unchanged |
| `LinkLookup.FillTwice` | drivers/123_link/types.go:43-53 | a second time nothing changes and the total is the same |
| `LinkLookup.BytesAreFileBytes` | drivers/123_link/types.go:43-53 | the total of a folder is the sum over the files below it |
| `LinkLookup.RootCountsEveryFile` | drivers/123_link/types.go:43-53 | the total of the root counts every file of the text once |
| `LinkLookup.Load` | drivers/123_link/driver.go:28-36 | after initialisation every folder has the bytes of its files, every file its own, in the tree of the text |
| `MergeJson.KeepsTexts` | cmd/lang.go:80-96 | every text of the target stays where it is |
| `MergeJson.AddsMissing` | cmd/lang.go:80-96 | at every depth, a place exists afterwards if and only if the target had it, or the source has it and the target misses it |
| `MergeJson.AddsSource` | cmd/lang.go:80-96 | what is added is what the source has there |
| `MergeJson.UnchangedIff` | cmd/lang.go:80-96 | nothing changes if and only if nothing is missing |
| `MergeJson.MergedCovers` | cmd/lang.go:80-96 | after merging nothing is missing, so merging again changes nothing |
| `MergeJson.MergeEntry` | cmd/lang.go:83-93 | one key, in place: added, merged or left alone |
| `MergeJson.Merge` | cmd/lang.go:80-96 | for any order of the keys, the nested maps of the target become the merged ones, and the result is true if and only if they did not change |
| `MergeJson.MergeCovered` | cmd/lang.go:80-96 | into a target that lacks nothing, whatever maps the two share, nothing is written and the result is true |
| `MergeJson.MergeTwice` | cmd/lang.go:80-96 | the first merge is true if and only if nothing was missing; a second one of the same source, whose maps the target then shares, is always true |

## Left out

- Requests to storage providers, login, tokens and signatures: only their success or failure is modelled.
- MD5 and SHA-1 are symbols: equal digests mean equal data, and no property of the functions is used.
- The mount table and the existing paths of the alias driver are one snapshot; they do not change during an operation.
- `Init`, `getRootsAndPath` and `getPair` of the alias driver (splitting configured paths into groups), `getAllSort`, and listing and linking through the alias would only add easy members.
- `Put` of the alias driver beyond the choice of its targets, and the collection of free space with its one-second limit: the known values are a parameter.
- The 115 upload takes each access to `err` to be atomic and seen at once by the other side, which the Go memory model does not promise for a race; the shared token is not modelled, and a read that meets the end of the file has filled the buffer.
- `pkg/errgroup` and the progress cache of `drivers/base/upload.go` appear as steps: saved progress is taken out when it is read, may expire, and `Wait` fails after a cancellation. The cache key does not hold the directory; the model has one key.
- The branch of `fastUpload` for a stream whose size is not known in advance, and `newUpload` with a hash given by the caller, are not modelled. The server is taken to answer for the part number it is asked about.
- `SetQPS` and the rate of zero of the 123 Open limiter are not modelled; time is counted in whole ticks.
- Rounding of floating-point numbers in `partSize` and `calcAliDocPartSize`: the ceilings are exact.
- Overflow of 64-bit file sizes in `calSize` and in offsets is not modelled; sizes are unbounded.
- The text of the 123 link driver is a sequence of bytes; white space of more than one byte is not trimmed by the model. `Base` and `PathUnescape` are written out, the clock is a parameter.
- GetAllObjs: takes a list as `Get` builds it, not empty and with a known first entry, which `AliasPolicy.Get` establishes.
- GetMoveObjs: takes two such lists, each without an object twice, which `AliasPolicy.CompressedDistinct` establishes.
- GetCopyObjs: as for `GetMoveObjs`.
- Move: as for `GetMoveObjs`.
- GetPutObjs: as for `GetMoveObjs`.
- Execute: errors of single moves and removals are joined and stop nothing, so the log lists what is attempted.
- Merge: the first merge is proved for a source and a target that share no map, as where `mergeJson` is called; for shared maps see `MergeJson.MergeCovered`.
- `convert`, `firstUpper` and the writing of the language files.
