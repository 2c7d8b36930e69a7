# linkyhost core, modelled in Dafny

linkyhost is a self-hosted photo and audio gallery. This project models the
parts of it that hold real logic and proves properties of them:

- **Gallery pager** (`Gallery.dfy`, from `website/src/lib/gallery.ts`). The
  class `Gallery` has three fields. `buckets` is the timeline of month buckets.
  `loadedBuckets` is the sorted list of buckets the page shows; the source
  spells it `loaddedBuckets`. `loadedFiles` is a cache from bucket date to
  files, and nothing is ever evicted from it. The fetch of a bucket's files is
  an oracle function passed to `GetLoadedBuckets`. Bucket dates are JavaScript
  `Date` objects that the source compares with `===`. `BucketDate` therefore
  carries an identity and the time value `getTime()` reads.
- **Upload queue** (`UploadQueue.dfy`, from `website/src/lib/queue.ts`). The
  module-level `queue` and the `isProcessing` flag become the fields of the
  class `UploadQueue`. `processQueue` is async. The model splits it at its
  `await` points. The field `pending` records where the single running
  invocation waits. Each event is its own method: an upload promise settling,
  the nested call settling, or another `enqueueUpload`. A pure function gives
  each step on `QueueState`, and the lemmas are stated about those functions.
- **Month window** of `FileRepository.getBucketFiles` (`FileRepository.dfy`).
  The model follows ECMA-262's `MakeDay`, `MakeTime` and `MakeDate`. It covers
  the `Date` constructor's handling of two-digit years and its day-0 rule, which
  turns day 0 of month+1 into the last day of the month. The model proves the
  bounds the query uses.
- **Row mapping** of `FileRepository.createFile` (`FileRepository.dfy`). An
  option key that is absent is `None`, and so is SQL null.
- **MIME classifiers** `isImage` and `isAudio` (`Utils.dfy`). The prefix lists
  are parameters.
- **`generateSecret` and `JWT_EXP`** (`UserRepository.dfy`). The random bytes
  are a parameter. The model covers `toString(16)` and `padStart(2, "0")`, and
  it includes a decoder that proves the encoding loses nothing.

### Where the code and its intent part ways
The model follows the code:
- `getNewer` reverses the timeline in place. It then loads the first bucket of
  the reversed order that is older than the newest loaded one. On a timeline in
  the server's descending order, as on the first call, that is the OLDEST such
  bucket, not the next one (`Gallery.NewerFromFreshLoadsOldest`). The reversal
  persists, so the next call reverses the timeline back and loads the next older
  bucket after the newest loaded one (`Gallery.NewerTwiceLoadsNext`).
- `getOlder` looks for a bucket newer than the oldest loaded one. On a fresh
  gallery over a timeline in descending order it does nothing
  (`Gallery.OlderFromFreshIsNoop`).
- The nested `processQueue()` runs while `isProcessing` is still set, so it
  returns at once. Each trigger processes at most one batch. A batch enqueued
  during the last upload of the batch before it waits for the next
  `enqueueUpload` (`UploadQueue.EnqueuedDuringLastUploadWaits`).
- The status of a batch never goes past `uploading`, because the line that
  would set it is commented out (`UploadQueue.BatchStatusNeverSettles`).

## Model

| member | source | states |
|---|---|---|
| Gallery.WithDateMs | website/src/lib/gallery.ts:22-26 | the object literal with `dateMs` set to the date's time value; dropping `dateMs` gives back the input bucket |
| Gallery.Timeline | website/src/lib/gallery.ts:22-26 | the constructor's `map`: same length, every `dateMs` the time of its date, and each entry gives back the input bucket at its index |
| Gallery.Gallery.constructor | website/src/lib/gallery.ts:21-28 | needs a non-empty input; the timeline has the input's length and order with each `dateMs` taken from its date; the loaded list is exactly the first bucket; the cache is empty; the invariant holds, including a non-empty loaded list |
| Gallery.Gallery.HasBucket | website/src/lib/gallery.ts:30-32 | true exactly when the date is one of the timeline's dates |
| Gallery.Gallery.IsBucketLoaded | website/src/lib/gallery.ts:34-36 | true exactly when the date is one of the loaded dates |
| Gallery.Gallery.AddLoadedBucket | website/src/lib/gallery.ts:38-48 | pushes and re-sorts exactly when the date is in the timeline and not loaded; keeps the loaded-list invariant; the loaded list never shrinks |
| Gallery.AddLoaded | website/src/lib/gallery.ts:38-45 | the loaded list after `addLoadedBucket`: push then stable sort when the date is in the timeline and not loaded, else unchanged; its properties are those of `AddLoadedSpec` |
| Gallery.AddLoadedSpec | website/src/lib/gallery.ts:38-45 | no change when the date is missing from the timeline or already loaded; otherwise exactly one entry is added, at its place by time; invariant kept: dates drawn from the timeline, no duplicates, descending `dateMs` |
| Gallery.StableSortDesc | website/src/lib/gallery.ts:45 | `Array.prototype.sort` with `(a, b) => b.dateMs - a.dateMs` as a stable insertion sort; `StableSortDescSorts` proves it sorts and permutes |
| Gallery.StableSortDescSorts | website/src/lib/gallery.ts:45 | the stable sort by the descending comparator gives a descending list that is a permutation of its input |
| Gallery.StableSortDescOfSorted | website/src/lib/gallery.ts:45 | sorting a list already in descending order leaves it unchanged |
| Gallery.PushThenSort | website/src/lib/gallery.ts:40-45 | push followed by sort on a sorted list is insertion after every entry that is not older |
| Gallery.InsertDescSorted | website/src/lib/gallery.ts:45 | insertion keeps the list sorted; the new entry goes after the entries not older than it and before the older ones |
| Gallery.InsertDescPermutes | website/src/lib/gallery.ts:40-45 | insertion adds exactly the new entry |
| Gallery.FindIndex | website/src/lib/gallery.ts:67-75 | `Array.prototype.find`: the index of the first match, or none when nothing matches |
| Gallery.Reversed | website/src/lib/gallery.ts:67 | the timeline after the in-place `reverse()`; `ReversedPermutes` proves it keeps the entries and undoes itself |
| Gallery.ReversedPermutes | website/src/lib/gallery.ts:67 | in-place `reverse()` keeps the same entries, and reversing twice restores the order |
| Gallery.Gallery.GetLoadedBuckets | website/src/lib/gallery.ts:50-63 | the loop's answer and cache equal `FetchLoaded` over the loaded list; a rejected fetch rejects the call |
| Gallery.FetchLoaded | website/src/lib/gallery.ts:50-62 | the loop of `getLoadedBuckets` as a recursive function: answer, cache and failure flag after each loaded bucket; the lemmas below state its properties |
| Gallery.FetchStep | website/src/lib/gallery.ts:53-59 | one iteration: after a rejection nothing changes; a rejection comes from an uncached date whose fetch failed; otherwise the date is cached and its files are appended to the answer; no cache entry is removed or overwritten |
| Gallery.FetchLoadedAnswers | website/src/lib/gallery.ts:50-62 | on success: one entry per loaded bucket, in loaded order, `bucketId` the bucket's date; every loaded date cached; cached dates answered from the old cache, uncached ones with the fetched files |
| Gallery.FetchLoadedCacheGrows | website/src/lib/gallery.ts:53-58 | the cache only grows; no entry is overwritten; every new key is a loaded date whose fetch succeeded |
| Gallery.FetchLoadedCacheHit | website/src/lib/gallery.ts:53-55 | when every loaded date is cached, the call fetches nothing (its result does not depend on the fetch), succeeds, and leaves the cache as it was |
| Gallery.SecondFetchIsCached | website/src/lib/gallery.ts:53-59 | a second call after a successful one returns the same buckets and cache, whatever the network would answer |
| Gallery.FetchLoadedFailure | website/src/lib/gallery.ts:57 | a failed call failed on a loaded date that was not cached and whose fetch rejected |
| Gallery.FetchLoadedFailureStops | website/src/lib/gallery.ts:52-57 | after a rejected fetch the rest of the loop changes nothing |
| Gallery.Gallery.GetNewer | website/src/lib/gallery.ts:65-71 | needs the invariant, which includes a loaded bucket; new timeline and loaded list are `NewerStep` of the old ones; cache untouched; invariant kept |
| Gallery.NewerStep | website/src/lib/gallery.ts:65-71 | timeline and loaded list after `getNewer`: reverse, find the first bucket older than the newest loaded one, add it; `NewerStepSpec` states the result |
| Gallery.NewerStepSpec | website/src/lib/gallery.ts:65-71 | the timeline is reversed (same multiset); the bucket loaded is the LAST bucket of the old order older than the newest loaded one; nothing is loaded when there is none; invariant kept |
| Gallery.NewerFromFreshLoadsOldest | website/src/lib/gallery.ts:65-71 | from a fresh gallery with strictly descending times, `getNewer` loads the oldest bucket of the timeline |
| Gallery.NewerTwiceLoadsNext | website/src/lib/gallery.ts:65-71 | from a fresh gallery with strictly descending times, a second `getNewer` reverses the timeline back to descending order and loads the next older bucket, giving `[t0, t1, t_last]` |
| Gallery.Gallery.GetOlder | website/src/lib/gallery.ts:73-79 | needs the invariant, which includes a loaded bucket; the loaded list becomes `OlderStep` of the old one; timeline and cache untouched; invariant kept |
| Gallery.OlderStep | website/src/lib/gallery.ts:73-79 | loaded list after `getOlder`: find the first bucket newer than the oldest loaded one, add it; `OlderStepSpec` states the result |
| Gallery.OlderStepSpec | website/src/lib/gallery.ts:73-79 | loads the first bucket of the current order newer than the oldest loaded one, or nothing if there is none; invariant kept |
| Gallery.OlderFromFreshIsNoop | website/src/lib/gallery.ts:73-79 | from a fresh gallery over a descending timeline, `getOlder` changes nothing |
| Gallery.Gallery.SetCurrentBucket | website/src/lib/gallery.ts:81-84 | the loaded list becomes `AddLoaded` of the old one; invariant kept; the loaded list never shrinks |
| UploadQueue.UploadQueue.constructor | website/src/lib/queue.ts:17-18 | empty queue, not processing |
| UploadQueue.UploadQueue.GetUploadStatus | website/src/lib/queue.ts:24-26 | the first batch in the queue with that id, or none exactly when no batch has it |
| UploadQueue.FindUpload | website/src/lib/queue.ts:25 | first match by id; none exactly when no batch has the id |
| UploadQueue.UploadQueue.EnqueueUpload | website/src/lib/queue.ts:28-39 | returns the given id; the new state is `EnqueueStep` of the old one; invariant kept |
| UploadQueue.NewUpload | website/src/lib/queue.ts:30-34 | the batch literal: the given id, one entry per input file in input order, batch and every file queued with no error |
| UploadQueue.EnqueueStep | website/src/lib/queue.ts:28-38 | `enqueueUpload` up to its return: append the new batch, then `processQueue`; `EnqueueStepSpec` states the result |
| UploadQueue.EnqueueStepSpec | website/src/lib/queue.ts:28-38 | appends one batch at the tail with the id, one queued item per input file in input order, batch queued; earlier batches unchanged; then `processQueue`; invariant kept |
| UploadQueue.EnqueueWhileBusy | website/src/lib/queue.ts:35-42 | while processing, `enqueueUpload` only appends |
| UploadQueue.EnqueueStartsOldest | website/src/lib/queue.ts:35-57 | while idle, `enqueueUpload` starts the oldest waiting batch, not necessarily the new one |
| UploadQueue.EnqueuedIsFound | website/src/lib/queue.ts:24-38 | a batch with a new id cannot be looked up after `enqueueUpload` exactly when it has no files and was pushed into an empty, idle queue (it is shifted off at once) |
| UploadQueue.UploadQueue.ProcessQueue | website/src/lib/queue.ts:41-57 | the new state is `ProcessStep` of the old one; invariant kept |
| UploadQueue.ProcessStep | website/src/lib/queue.ts:41-57 | `processQueue` up to its first `await`: return while processing or empty, else mark the head batch uploading and run on; `ProcessStepSpec` states the result |
| UploadQueue.RunFrom | website/src/lib/queue.ts:54-73 | the rest of the loop from file i: start file i, or after the last file shift the batch and either await the nested call or clear the flag |
| UploadQueue.UploadQueue.Continue | website/src/lib/queue.ts:54-70 | the new state is `RunFrom` of the old one at file i |
| UploadQueue.UploadQueue.ProcessQueueWhileRunning | website/src/lib/queue.ts:69 | the nested call is `ProcessStep` and, with `isProcessing` set, changes nothing |
| UploadQueue.ProcessStepSpec | website/src/lib/queue.ts:41-73 | no change while processing or with an empty queue; otherwise the head batch becomes uploading and its first file starts; a batch with no files is removed at once; invariant kept |
| UploadQueue.UploadQueue.UploadSettled | website/src/lib/queue.ts:55-63 | the new state is `SettleStep` of the old one; invariant kept |
| UploadQueue.SettleStep | website/src/lib/queue.ts:55-63 | the awaited upload settles: record its outcome in the file and run on from the next file; nothing happens when no upload is awaited; `SettleStepSpec` states the result |
| UploadQueue.UploadFileOutcome | website/src/lib/api/files.ts:31-41 | the upload promise fulfils exactly on a response with `ok` set; a response without it rejects with `Error('Failed to upload file')`; a rejected request passes its reason on |
| UploadQueue.Record | website/src/lib/queue.ts:56-61 | the file is kept; its status is completed exactly when the upload fulfilled; a rejection sets status error with the message `ErrorMessage` gives; a file without an error ends settled |
| UploadQueue.ErrorMessage | website/src/lib/queue.ts:61 | the error's own message for an `Error`, otherwise "Upload failed" |
| UploadQueue.SettleStepSpec | website/src/lib/queue.ts:54-70 | the awaited file becomes completed exactly when its upload succeeded, otherwise error with the message; then the next file starts, or the batch is removed after its last file; nothing else changes; invariant kept |
| UploadQueue.UploadQueue.NestedSettled | website/src/lib/queue.ts:69-73 | the new state is `NestedStep` of the old one; invariant kept |
| UploadQueue.NestedStep | website/src/lib/queue.ts:69-73 | the awaited nested call settles and the `finally` clause clears the flag; `NestedStepSpec` states the result |
| UploadQueue.NestedStepSpec | website/src/lib/queue.ts:69-73 | the `finally` clause clears `isProcessing` and leaves the queue as it is |
| UploadQueue.SettlePrefix | website/src/lib/queue.ts:54-63 | settling the first uploads of a batch records their outcomes in order while the batch stays at the head |
| UploadQueue.SettleBatch | website/src/lib/queue.ts:52-70 | once every upload of the head batch has settled, that batch alone is removed and retired with each file recorded with its outcome, and the next batch has not been started |
| UploadQueue.AtMostOneUploading | website/src/lib/queue.ts:42-57 | at most one file is uploading: the awaited one, in the head batch |
| UploadQueue.BatchStatusNeverSettles | website/src/lib/queue.ts:52-65 | a batch's status is only ever queued or uploading |
| UploadQueue.EnqueuedDuringLastUploadWaits | website/src/lib/queue.ts:66-73 | a batch enqueued during the last upload of the only other batch waits, untouched, with nothing running |
| UploadQueue.RetiredIsNotFound | website/src/lib/queue.ts:24-66 | with distinct ids, a finished batch can no longer be looked up |
| UploadQueue.RejectedResponseMessage | website/src/lib/api/files.ts:31-41 | a response that is not ok records error "Failed to upload file"; an ok one records completed |
| UploadQueue.InitialInv | website/src/lib/queue.ts:17-18 | the initial state satisfies the queue invariant |
| FileRepository.FullYear | server/src/repos/files.ts:103 | the `Date` constructor's reading of years 0 to 99 as 1900 to 1999 |
| FileRepository.NewDate | server/src/repos/files.ts:103-112 | `new Date(y, m, d, h, min, s, ms)` as ECMA-262 `MakeDate(MakeDay(...), MakeTime(...))` |
| FileRepository.StartOfMonth | server/src/repos/files.ts:103 | `startOfMonth`: day 1 of the month at midnight; `StartOfMonthIsMonthStart` states what it is |
| FileRepository.EndOfMonth | server/src/repos/files.ts:104-112 | `endOfMonth`: day 0 of the next month at 23:59:59.999; `EndOfMonthIsLastDay` and `EndOfMonthBeforeNext` state what it is |
| FileRepository.MonthWindowIsCalendarMonth | server/src/repos/files.ts:102-112 | start of month is the first instant of the month; end of month is the instant before the next month starts; start before end |
| FileRepository.EndOfMonthIsLastDay | server/src/repos/files.ts:104-112 | day 0 of month+1 at 23:59:59.999 is the last calendar day of the month (28 to 31 by the Gregorian rule), and 31 December for December |
| FileRepository.StartOfMonthIsMonthStart | server/src/repos/files.ts:103 | day 1 of the month at midnight |
| FileRepository.EndOfMonthBeforeNext | server/src/repos/files.ts:104-112 | one millisecond after the end of the month is the start of the next month |
| FileRepository.MonthWindowsOrdered | server/src/repos/files.ts:102-122 | windows of distinct months do not overlap: an earlier month's window ends before a later one's starts |
| FileRepository.DayFromYearIsEcma | server/src/repos/files.ts:103-112 | the day count from 1970 equals ECMA-262's closed form `DayFromYear` with the leap-year corrections |
| FileRepository.MakeDayNextMonth | server/src/repos/files.ts:104-107 | the first day of the next month is the first day of this month plus its length, across year ends |
| FileRepository.MakeDayIncreasing | server/src/repos/files.ts:103-107 | later months start on later days |
| FileRepository.CreateFileRow | server/src/repos/files.ts:64-79 | the options can be read back from the row, so no option is lost or moved to another column |
| FileRepository.ImageRow | server/src/repos/files.ts:61-78 | image options: base fields copied, name and type from the file, width and height set, waveform null |
| FileRepository.AudioRow | server/src/repos/files.ts:61-78 | audio options: width and height null, duration and waveform set |
| Utils.IsImage | server/src/utils/index.ts:19-21 | true exactly when some image prefix starts the MIME type |
| Utils.IsAudio | server/src/utils/index.ts:23-25 | true exactly when some audio prefix starts the MIME type |
| Utils.StartsWithAny | server/src/utils/index.ts:19-25 | `prefixes.some((p) => mimeType.startsWith(p))` as a left-to-right scan; `StartsWithAnyIsSome` states what it decides |
| Utils.StartsWithAnyIsSome | server/src/utils/index.ts:19-25 | the recursive `some` holds exactly when some prefix starts the MIME type |
| Utils.StartsWithAnyBounds | server/src/utils/index.ts:19-25 | an empty list classifies nothing; a MIME type equal to an entry is classified |
| Utils.IsImageExtends | server/src/utils/index.ts:19-21 | classification survives appending a suffix |
| Utils.IsAudioExtends | server/src/utils/index.ts:23-25 | classification survives appending a suffix |
| UserRepository.GenerateSecret | server/src/repos/user.ts:102-107 | 64 characters, each a lowercase hex digit, for the 32 random bytes |
| UserRepository.HexEncode | server/src/repos/user.ts:104-106 | two hex digits per byte |
| UserRepository.HexEncodeAt | server/src/repos/user.ts:104-106 | characters 2i and 2i+1 are the high and low digits of byte i |
| UserRepository.ToHex | server/src/repos/user.ts:105 | `toString(16)` of a byte: one or two lower-case hex digits, one exactly below 16 |
| UserRepository.PadStart2 | server/src/repos/user.ts:105 | `padStart(2, "0")`: the string kept at the end, zeros in front, length at least 2 |
| UserRepository.ByteHex | server/src/repos/user.ts:105 | the map callback writes exactly two lower-case hex digits |
| UserRepository.ByteHexDigits | server/src/repos/user.ts:105 | `toString(16).padStart(2, "0")` is the two-digit hex of the byte |
| UserRepository.HexRoundTrip | server/src/repos/user.ts:104-106 | decoding the secret gives back the bytes |
| UserRepository.HexEncodeInjective | server/src/repos/user.ts:104-106 | distinct byte arrays give distinct secrets |
| UserRepository.JwtExpIsThirtyDays | server/src/repos/user.ts:10 | `JWT_EXP` is 2 592 000 000 ms, thirty days |

## Left out
- Network I/O is not modelled. This covers `getBuckets`, `getBucketFiles`, the HTTP part of `uploadFile`, GitHub profile requests, every server route, the S3 store and the database queries. Fetches and uploads are oracle inputs. The network's answer to `uploadFile` is reduced to a `FetchResult`.
- Gallery: the `focuson` callback, the `console.log` calls and the lazy singleton `getGallery` are UI hooks and global initialisation.
- Gallery.Gallery.GetLoadedBuckets: the model runs the loop without interruption. In the source, other gallery methods could run while a fetch is awaited, and the model does not capture that.
- Gallery.BucketDate: the source types the timeline's dates as strings but fills them with `Date` objects. The model treats them as objects compared by identity, which is how `===` compares them.
- UploadQueue.UploadQueue.GetUploadStatus: returns the batch as a value. The source returns the live object that the processor keeps changing. `retired` tracks what such a held object ends up showing after `queue.shift()`.
- UploadQueue: the branch `if (!upload)` at website/src/lib/queue.ts:47-50 cannot be taken after the length check, so it is not modelled.
- UploadQueue: ids from `crypto.randomUUID()` are a parameter. The lemmas that need distinct ids take that as a hypothesis.
- FileRepository.MonthWindowIsCalendarMonth: defines "in the month" as lying between two consecutive month starts computed by `MakeDay`/`MakeDate`. It does not go through ECMA-262's `YearFromTime`/`MonthFromTime` decoding of an arbitrary instant.
- Gallery.Gallery.constructor: requires a non-empty timeline. In the source an empty bucket list makes `setCurrentBucket(buckets[0])` (website/src/lib/gallery.ts:27) read `bucket.date` of `undefined` at website/src/lib/gallery.ts:39 and throw a `TypeError`. `getGallery` (website/src/lib/gallery.ts:91) passes `getBuckets('image')` unchecked, and that is `[]` for an account with no images. The model does not capture that failure.
- FileRepository: parsing the date string, the local time zone and daylight saving time are not modelled. Year and month are integer inputs, and local time is taken as UTC. `TimeClip`, NaN dates and the microsecond precision of database timestamps are also left out.
- FileRepository.CreateFileRow: the database assigns nothing beyond the given columns in the model. The `returning()` row and any defaults of the schema are left out.
- UserRepository: `crypto.getRandomValues` is replaced by the byte sequence passed in. JWT signing and verification are left out because they belong to a library.
- Utils.StartsWithAny: compares Unicode scalar values, while JavaScript's `startsWith` compares UTF-16 code units. The two agree on ASCII MIME types, and the model does not cover strings where they differ.
- The Rust backend, `debounce`, Svelte stores and build configuration have no logic of their own to model.
