# A verified model of aigo's stateful core

aigo is a Go client for media-generation services. Most of it is HTTP plumbing; this project
models the parts that hold state or transform data and proves what they are for:

- the URI form of an engine configuration: printing, parsing, comma-separated lists, redaction
  (`Uri*.dfy`, with Go's query escaping in `QueryCodec.dfy` and `QueryWeight.dfy`);
- the task store: a JSON file rewritten under `flock` by temporary file and rename, used by any
  number of processes that may crash at any step, the Submit / Resume / RecoverPending life cycle
  on top of it, and the theorem that joins the two (`TaskStore.dfy`, `StoreProtocol.dfy`,
  `TaskLifecycle.dfy`, `ClientProtocol.dfy`);
- the local vector index: bounded top-k selection through a min-heap, and an entry list kept in
  step with its path index by calls that interleave (`Heap.dfy`, `TopK.dfy`, `VectorIndex.dfy`);
- the TTL result cache: interleaved calls, calls that do not overlap, and exactly what an overlap
  breaks (`Cache*.dfy`);
- the limiters and backoffs (`SlidingWindow.dfy`, `OverlappingWaits.dfy`, `TokenBucket.dfy`,
  `Retry.dfy`, `Poll.dfy`);
- the concurrent search over several backends (`FanOut.dfy`, `MultiSearch.dfy`);
- tool parameter validation (`ToolParams.dfy`) and workflow graphs (`WorkflowGraph.dfy`,
  `LookupOrder.dfy`, `BuildGraph.dfy`, `OptionValues.dfy`).

Code that updates fields, slices or maps is modelled as classes and methods with loops, each
proved equal to a specification function of its inputs and old state; the theorems are then about
that function. Concurrent code is a state machine whose steps are the lock-protected sections (or,
for the task store, single file-system and lock actions), and the theorems hold of every sequence
of steps. Every lemma switches Dafny's automatic induction off, so the proof it has is the one
that is written.

Where the code does not do what its documentation says, or not always, the model follows the code,
and a lemma says exactly when the promise holds:

- `ToURI` followed by `ParseURI` gives back a configuration if and only if it is plain and
  `WellFormed` (`UriRoundTrip.RoundTripIff`); `https://localhost`, a name equal to the provider
  beside a model, and negative numbers are among the families that are lost
  (`UriRoundTrip.Exclusions`). A registered alias of a name with `://` in it would be the one way
  for another configuration to come back (`UriAlias.AliasBringsBack`).
- `ParseURIs` says duplicate names are de-duplicated; the names are distinct if and only if no
  name is another one with a suffix that de-duplication hands out (`UriList.DistinctIff`).
- `isLocalHost` compares with `[::1]` after cutting at the first colon: exactly `localhost` and
  `127.0.0.1` are local (`Uri.LocalHostIff`), and the IPv6 loopback address never is
  (`Uri.LoopbackIsNotLocal`).
- The search limiter is documented as rpm requests per minute; a stretch of `t` ticks can grant
  exactly up to `tokens + t` requests, hence up to twice the limit after an idle time
  (`TokenBucket.MostGranted`, `TokenBucket.MinuteOverLimitIff`).
- The embedding limiter keeps its window for callers that do not overlap and a clock that moves
  between a grant and the next call (`SlidingWindow.WindowHolds`). With any number of callers that
  overlap, late or cancelled, it keeps it if and only if no sleeper that is granted would have had
  to sleep again, had it looked again (`OverlappingWaits.WindowIff`); a sleeper that wakes up at the
  earliest would not exactly if nobody else was granted while it slept
  (`OverlappingWaits.EarliestWakeIff`). On a clock that may stand still, if and only if the condition of
  `SlidingWindow.EarliestGrantSpacedIff` holds. `OverlappingWaits.OverlappingSleepersBreakWindow`
  and `SlidingWindow.StandingClockBreaksWindow` are runs that break it.
- The cache comment says "LRU"; the policy is oldest inserted first. In any interleaving the queue
  stays exact if and only if no insertion finds its key still stored
  (`CacheOverlap.AlwaysExactIff`), and then the cache is a bounded list that forgets its oldest
  insertions (`CacheOverlap.FreshRunRefines`); calls that do not overlap are always of that kind
  (`CacheSequential.SequentialRefines`). `CacheOverlap.OverlapForgetsYounger` and
  `CacheOverlap.QueueGrows` are runs of overlapping misses after which a younger result is forgotten
  before an older one, and the queue is as long as one likes. The bound on stored results holds
  always (`CacheRuns.AlwaysBounded`).
- A search backend gets its pagination cursor back if and only if it describes itself, and its
  results carry no name or the same one (`MultiSearch.CursorsComeBack`); one without a stored cursor receives the
  composite token itself (`MultiSearch.TokenReceived`).
- Retry delays can be waited for with every jitter, however many retries there are, if and only if
  base and maximum are at least two nanoseconds and below 2^62 (`Retry.AlwaysSoundIff`, and for a
  given number of retries `Retry.WaitableIff`). Otherwise one of two things goes wrong. The doubling
  wraps around or the jitter has no room: a call that reaches such a retry panics, and no other does
  (`Retry.PanicIff`, `Retry.NoPanicIff`). Or the last delay and its jitter together wrap around,
  which takes a delay of two thirds of 2^63 (`Retry.NeverWrapsIff`): the wait is negative and the
  retry comes at once (`Retry.NeverFiresAtOnceIff`).
- Two overlapping `Resume` calls of one task can turn a completed task into a failed one
  (`TaskLifecycle.OverlappingResumesFlip`). A settled task keeps its status if and only if no resume
  of it that ended otherwise is saved afterwards (`TaskLifecycle.SettledStatusIff`), and its record
  if and only if all that are saved afterwards ended with the same outcome at the same time
  (`TaskLifecycle.SettledRecordIff`).
- `FindByClassType` sorts ids as strings: it returns the nodes of a class in the order they were
  added if and only if string order is number order on their positions
  (`LookupOrder.FoundInOrderIff`). A task whose references are all images, or all videos, gets them
  back in order if and only if these and the nodes before them are at most nine
  (`BuildGraph.OneKindInOrderIff`).

## Model

| member | source | states |
|---|---|---|
| QueryCodec.UnescapeEscape | engine/uri.go:358 | unescaping an escaped byte string gives it back (percent-encoding of RFC 3986 section 2.1, with `+` for space) |
| QueryCodec.ParseEncode | engine/uri.go:136-140 | parsing the encoded form of any parameter map, keys in sorted order, gives exactly its entries, one value each |
| QueryCodec.EncodeShape | engine/uri.go:356-359 | the encoded form of a non-empty map is not empty and holds only unreserved characters and `%+=&` |
| QueryCodec.QueryCharsArePlain | engine/uri.go:356-359 | such a text holds no `?`, comma or `@` and does not end in a space, so it cannot be cut anywhere else |
| QueryCodec.UnreservedAlphabet | engine/uri.go:358 | the characters left alone are the 66 of RFC 3986 section 2.3 |
| QueryCodec.HexAlphabet | engine/uri.go:358 | hexadecimal digits are written in capitals and read in either case |
| QueryCodec.EscapeByte | engine/uri.go:358 | what each byte is escaped to: itself, a plus sign, or a percent sign and its two digits, the higher one first |
| Uri.ParseAuthority | engine/uri.go:90-129 | splitting at the last `@` and the first `:` loses nothing: the parts put together are the text |
| Uri.LocalHostIff | engine/uri.go:488-497 | a host is local exactly if its name, cut at the first slash and colon, is `localhost` or `127.0.0.1` |
| Uri.LoopbackIsNotLocal | engine/uri.go:488-497 | `[::1]` is not local, whatever port and path follow |
| UriScan.ScanPrinted | engine/uri.go:61-85 | a text `p://a?q` whose parts hold no earlier mark is cut exactly there, with the trimming ParseURI does |
| UriScan.BaseForward | engine/uri.go:109-114 | a base URL whose scheme is implied by its host, or carried by `scheme=http`, is rebuilt from its host part |
| UriScan.BaseBackward | engine/uri.go:109-148 | and no other base URL is |
| UriScan.AuthorityForward | engine/uri.go:286-302 | a clean key, secret and base URL are read back from the printed authority |
| UriScan.AuthorityBackward | engine/uri.go:90-129 | and if they are read back, from the printed authority or a trimmed beginning of it, they were clean |
| UriCode.FieldParams | engine/uri.go:304-345 | the method that sets query keys one by one builds the map of printed fields |
| UriCode.ChoiceParams | engine/uri.go:324-345 | the conditional keys complete the map of printed fields |
| UriCode.AddMetadata | engine/uri.go:346-354 | metadata overrides printed fields, except the secret key, in whatever order the map is walked |
| UriCode.ToURI | engine/uri.go:278-362 | `ToURI` builds the printed text of the specification |
| UriCode.ApplyParams | engine/uri.go:433-486 | every known parameter overrides its field when not empty (numbers and durations when they parse); every other parameter goes to the metadata |
| UriCode.AddExtra | engine/uri.go:476-485 | exactly the unknown keys with a value are copied, the first value of each |
| UriCode.ReadAuthority | engine/uri.go:90-129 | the branches over `@` and `:` yield key, secret, base URL as the split says |
| UriCode.ReadParams | engine/uri.go:135-160 | scheme override, parameters and default name together give the described configuration |
| UriCode.ParseRest | engine/uri.go:131-162 | missing key and bad query are the errors; otherwise the configuration |
| UriCode.Resolve | engine/uri.go:404-416 | a registered factory goes before an alias, an alias before the name itself |
| UriCode.ParseURI | engine/uri.go:61-163 | `ParseURI` computes the specified result, errors included |
| Uri.DefaultNameMeans | engine/uri.go:499-508 | the default name is the provider, or provider, dash and a text of a-z, 0-9 and inner dashes: the model in lower case with dashes for everything else, outer ones trimmed |
| Uri.NameMeans | engine/uri.go:152-159 | a configuration has the name given by its `name` parameter, and only without one the default name |
| UriRoundTrip.ConfigureIff | engine/uri.go:278-362 | parsed fields rebuild the configuration exactly when each field survives on its own: provider, key, secret, base URL, number signs, name |
| UriRoundTrip.ParsePrinted | engine/uri.go:61-163 | what parsing any plain printed text yields, well formed or not |
| UriRoundTrip.RoundTrip | engine/uri.go:276-362 | every well-formed plain configuration comes back with the same fields and metadata |
| UriRoundTrip.ParsedFacts | engine/uri.go:61-163 | whatever the text, a parsed configuration has a non-empty key without `:` or `?` and no known parameter in its metadata |
| UriRoundTrip.OnlyWellFormed | engine/uri.go:276-362 | a plain configuration that comes back is well formed |
| UriRoundTrip.ParsedPlain | engine/uri.go:61-163 | whatever the text, one that does not name its own secret or base URL in its query, nor an alias of a name with a scheme mark, parses to a plain configuration |
| QueryWeight.TextBeforeQuery | engine/uri.go:135-163 | whatever text a printed query is appended to, what the whole is parsed to beyond the printed parameters has come out of that text |
| UriRoundTrip.NeverQuotes | engine/uri.go:81-163 | a configuration whose query is cut off inside its secret or base URL does not come back with either of them named in that query |
| UriRoundTrip.BackIsPlain | engine/uri.go:81-163 | so what comes back has no `?` in its secret or base URL |
| UriRoundTrip.RoundTripIff | engine/uri.go:276-362 | the round trip holds if and only if the configuration is plain and well formed |
| UriAlias.AliasBringsBack | engine/uri.go:394-416 | with an alias of a name that has `://` in it, a configuration that is not plain comes back |
| UriRoundTrip.Exclusions | engine/uri.go:109-114 | families that never come back: https on a local host, name equal to the provider beside a model, provider plus a dash without a model, negative numbers |
| UriRoundTrip.LocalHttpsBecomesHttp | engine/uri.go:295-302 | for every local host, its https URL is read back as http |
| UriList.ParseURIs | engine/uri.go:167-199 | the method computes the specified list or first error, blank parts skipped |
| UriList.ParseParts | engine/uri.go:173-194 | the loop with its counting map gives each configuration the suffix of its rank among equal names |
| UriList.SuffixInjective | engine/uri.go:188-191 | a suffixed name determines name and number |
| UriList.RankTaken | engine/uri.go:188-191 | every rank from 1 to the number of occurrences of a name is taken by some position |
| UriList.DistinctIff | engine/uri.go:173-194 | final names are pairwise distinct if and only if no input name is `y-k` with `k` from 2 to the number of times `y` occurs |
| UriList.CollisionExample | engine/uri.go:187-191 | `a, a, a-2` ends with `a-2` twice |
| UriList.DistinctKeepNames | engine/uri.go:187-191 | no name is changed if and only if the input names are distinct |
| UriList.ListRoundTrip | engine/uri.go:165-199 | parsing the comma-joined printed texts of well-formed comma-free configurations returns exactly the list, if and only if the names are distinct |
| UriRedact.RedactURI | engine/uri.go:238-265 | the method computes the specified redaction |
| UriRedact.MaskRest | engine/uri.go:248-264 | the part behind the mark is split at `?` and the last `@` and the key masked |
| UriRedact.RedactSingleTwice | engine/uri.go:372-378 | masking a key again changes nothing and brings in no character but `*` |
| UriRedact.RedactKeyTwice | engine/uri.go:364-370 | nor does masking a key pair again |
| UriRedact.RedactTwice | engine/uri.go:238-265 | `RedactURI` is idempotent on every string |
| UriRedact.MaskedParts | engine/uri.go:248-264 | key and secret are masked, host and query stay, whichever of them are there |
| UriRedact.KeyIsHidden | engine/uri.go:234-265 | two URIs of one shape that differ in key and secret redact to the same text if and only if the same is shown of both: nothing of up to four bytes, three bytes of more |
| TaskStore.FindUpsert | taskstore.go:87-98 | after a save the saved id has the saved record and every other id what it had |
| TaskStore.FilterMembers | taskstore.go:154-186 | delete and purge keep exactly the records they should, and ids stay unique |
| TaskStore.FindApply | taskstore.go:72-189 | each operation seen from one id, and ids stay unique |
| TaskStore.ReplayUnique | taskstore.go:72-189 | ids stay unique over any sequence of operations |
| TaskStore.NoLostUpdate | taskstore.go:72-189 | a saved record is found, stamped, until a later operation on its id or a purge that may drop it |
| TaskStore.FileTaskStore.Save | taskstore.go:72-101 | the file becomes the updated list; a failing lock, read, decoding or write is the error and leaves it alone |
| TaskStore.FileTaskStore.Delete | taskstore.go:139-162 | the same for deletion |
| TaskStore.FileTaskStore.Purge | taskstore.go:165-189 | the same for purging at `now - maxAge` |
| TaskStore.FileTaskStore.Load | taskstore.go:103-124 | the first record with the id, not found, or the error of lock, read or decoding |
| TaskStore.FilterInPlace | taskstore.go:154-159 | filtering into the front of the same array yields exactly the kept records in order |
| StoreProtocol.TmpStep | taskstore.go:220-227 | a step of the exclusive holder on the temporary file keeps the invariant for everyone |
| StoreProtocol.RenameInv | taskstore.go:224 | the rename commits one operation, the one the call asked for, and what becomes visible is that operation applied to what was visible |
| StoreProtocol.StepInv | taskstore.go:72-229 | every step, crashes included, keeps the invariant |
| StoreProtocol.RunInv | taskstore.go:72-229 | so every reachable state satisfies it |
| StoreProtocol.VisibleIsReplay | taskstore.go:212-229 | in every run the visible file decodes to the committed operations applied in rename order, whatever crashed and whatever temporary file is left |
| StoreProtocol.ReturnsAreAtomic | taskstore.go:72-189 | every call that returned took effect at one moment between start and return: a reader saw that state, a successful writer committed once there, a failed call never committed |
| StoreProtocol.CommittedOnce | taskstore.go:72-189 | no call commits twice; a committed save is its record stamped with the clock reading of the call, a committed delete its id, and a committed purge has the cutoff that lies its age before the reading |
| StoreProtocol.PurgeShows | taskstore.go:165-190 | in every run, the commit of a purge takes exactly the completed and failed records out of the visible file that were last updated that age or longer before its clock reading |
| StoreProtocol.SaveShows | taskstore.go:72-160 | the commit of a save leaves its stamped record under its id, that of a delete none, and neither touches another id |
| StoreProtocol.SoloWrite | taskstore.go:72-189 | a save, delete or purge nobody disturbs is committed and reported, with no temporary file left and a left-over one reused |
| StoreProtocol.CrashRecovers | taskstore.go:212-229 | a writer that crashes with a half-written temporary file leaves it there and the visible file as it was; the next writer gets the lock, reuses the file and commits |
| StoreProtocol.SoloRead | taskstore.go:104-135 | a load or listing no writer disturbs returns what the path shows |
| StoreProtocol.ReadersShare | taskstore_flock.go:24-40 | readers do not wait for each other |
| StoreProtocol.LogGrows | taskstore.go:212-229 | nothing committed is undone by later steps |
| StoreProtocol.WritersExclude | taskstore_flock.go:10-40 | two agents inside the store are both readers |
| TaskLifecycle.StoreIsReplay | client.go:1169-1263 | the store of a run of client events is the replay of the operations they commit |
| TaskLifecycle.StoreUnique | client.go:1169-1263 | ids in the store stay unique in every run |
| TaskLifecycle.RecordStep | client.go:1169-1263 | what each event does to the record of each id |
| TaskLifecycle.IdentityNeverChanges | client.go:1176-1192 | id, engine, remote id and creation time of a task never change, in every interleaving |
| TaskLifecycle.NeverPendingAgain | client.go:1245-1256 | a task that has left pending never becomes pending again |
| TaskLifecycle.PendingStays | client.go:1197-1200 | a pending record stays unchanged until a resume of its id is saved or it is deleted |
| TaskLifecycle.PendingMembers | client.go:1277-1282 | recovery lists exactly the pending records |
| TaskLifecycle.SubmittedIsRecovered | client.go:1265-1284 | after a pending submit, recovery finds the record in every later state until the task ends, once |
| TaskLifecycle.TerminalIsFinal | client.go:1245-1256 | it is enough that no resume that loaded the task before it was settled is saved later |
| TaskLifecycle.FlipIff | client.go:1245-1256 | an event turns a completed task into a failed one exactly if it saves a broken resume of it, and a failed one into a completed one exactly if it saves a successful one |
| TaskLifecycle.SettledStatusIff | client.go:1245-1256 | a settled task keeps its status, whenever it is there, if and only if no resume of it that ended otherwise is saved in between |
| TaskLifecycle.SettledRecordIff | client.go:1245-1256 | the record a resume has saved stays as it is, whenever it is there, if and only if every resume saved later ended with the same outcome at the same clock reading; submits, purges and deletions never change it |
| TaskLifecycle.SettledAtOnce | client.go:1218-1230 | a task that is settled before any resume of it is saved is never resumed, and its record is final |
| TaskLifecycle.OverlappingResumesFlip | client.go:1210-1263 | without that condition a completed task can become failed |
| TaskLifecycle.Submit | client.go:1169-1200 | afterwards the store holds under the fresh id a record with the engine and creation time, pending with the remote id for a plain-text result, and else completed with the result; the id is returned exactly for a pending one, and a failure stores nothing |
| TaskLifecycle.SubmitThenResume | client.go:1169-1243 | a `Resume` after a `Submit` loads that record, with the remote id the engine gave, or gives back its result at once |
| TaskLifecycle.ResumeTwice | client.go:1210-1263 | a `Resume` after a settled one gives back its result, or its error, without asking the engine |
| TaskLifecycle.BeginResume | client.go:1210-1241 | every outcome a resume can have before the engine is called: no store, a store error, an unknown id, completed, failed, no engine, an engine that cannot resume, or ready |
| TaskLifecycle.FinishResume | client.go:1243-1262 | the settled record is saved over the store as it is then; a failing save is dropped |
| TaskLifecycle.RecoverPending | client.go:1267-1284 | the pending records of the store in order, or the store's error |
| ClientProtocol.ClientRunIsLifecycle | client.go:1169-1263 | a protocol run whose committed operations come from submits, resumes, deletes and purges is a valid run of the life cycle, and the visible file is its store, whatever crashes |
| ClientProtocol.StoreAgrees | taskstore.go:72-229 | the same after each committed operation |
| ClientProtocol.SubmittedSurvives | client.go:1265-1284 | once the save of a pending submit has returned, recovery finds the task in the visible file until a delete of it or one of its resumes is committed, whatever crashes |
| ClientProtocol.DiskTellsOneStory | client.go:1169-1263 | between any two moments of such a run the file shows the same id, engine, remote id and creation time of a task, and never pending again |
| Heap.RootIsLeast | material/local/local.go:288-291 | in an ordered heap no score is below the root's |
| Heap.SmallerChild | material/local/local.go:291 | if the parent is not above the chosen child, order is restored |
| Heap.DownSwap | material/local/local.go:291-292 | one swap of sifting down moves the only misplaced element to the child |
| Heap.UpSwap | material/local/local.go:291-292 | one swap of sifting up moves it to the parent |
| Heap.MinHeap.Up | material/local/local.go:288-293 | sifting up orders the heap and permutes it |
| Heap.MinHeap.Down | material/local/local.go:288-300 | sifting down orders the first `n` elements, permutes them and leaves the rest |
| Heap.MinHeap.Push | material/local/local.go:293-313 | pushing keeps order and adds exactly the element |
| Heap.MinHeap.FixRoot | material/local/local.go:314-317 | fixing a replaced root orders the heap again |
| Heap.MinHeap.Pop | material/local/local.go:294-300 | popping takes a least element and keeps the rest, in order |
| TopK.DescendingUnique | material/local/local.go:303-326 | a descending list is determined by its elements, so there is one answer up to ties |
| TopK.BagOfScores | material/local/local.go:303-326 | permuting candidates permutes their scores |
| TopK.ReplaceSplits | material/local/local.go:314-317 | a better candidate in place of the root keeps the best `k` seen |
| TopK.BestAreFirst | material/local/local.go:303-326 | a descending list no worse than anything left out is the beginning of the sorted scores |
| TopK.Offer | material/local/local.go:307-318 | after each candidate the heap holds the best `k` seen so far, and what was dropped is no better |
| TopK.Drain | material/local/local.go:320-325 | popping into the result from the back yields everything in descending order |
| TopK.ContainsMediaType | material/local/local.go:345-352 | the loop finds the media type exactly if it is listed |
| TopK.Select | material/local/local.go:303-326 | the result is a choice of places in the entry list: each once, in descending order, all passing the filter, `k` of them or all that pass, and none that passes and is left out scores higher; its scores are the first of all the candidates' scores sorted |
| TopK.Search | material/local/local.go:78-118 | empty index, failed embedding, default k and total; otherwise the selection above |
| VectorIndex.LoadedInverseIff | material/local/local.go:245-262 | the rebuilt path index is the inverse of the entries if and only if the paths are unique |
| VectorIndex.ExistingFacts | material/local/local.go:211-231 | compaction keeps exactly the entries of existing files |
| VectorIndex.ExistingUnique | material/local/local.go:211-231 | unique paths stay unique |
| VectorIndex.ExistingInOrder | material/local/local.go:211-231 | and keeps their order |
| VectorIndex.CommittedKeeps | material/local/local.go:168-175 | the write phase keeps the index the inverse and sets exactly one path |
| VectorIndex.PrunedKeeps | material/local/local.go:211-231 | pruning keeps the index the inverse and removes exactly the missing paths |
| VectorIndex.Searcher.constructor | material/local/local.go:245-262 | loading builds the path index entry by entry |
| VectorIndex.Searcher.Unchanged | material/local/local.go:122-145 | the read phase finds the entry in bounds and reports whether size and time are the same |
| VectorIndex.Searcher.Commit | material/local/local.go:168-175 | the write phase updates in place or appends |
| VectorIndex.Searcher.RemoveStale | material/local/local.go:211-231 | the loop compacts entries and index together and returns the number dropped |
| VectorIndex.ReadPhaseIff | material/local/local.go:130-139 | the read phase goes on to embed a file unless its path is indexed with the same size and modification time |
| VectorIndex.IndexedOnce | material/local/local.go:122-178 | an undisturbed `IndexFile` sets its path and no other, and indexing the unchanged file again does nothing |
| VectorIndex.Run | material/local/local.go:122-231 | the inverse holds in every state of every interleaving |
| VectorIndex.StepKeeps | material/local/local.go:122-231 | each step keeps it |
| VectorIndex.RunIsTable | material/local/local.go:122-231 | entries and index together are one table from paths to what was last written and not pruned |
| Cache.RebuiltIsExact | engine/cache.go:83-92 | after the rebuild step the queue holds exactly the stored keys, even when the length test skips it |
| Cache.PopOldestBounds | engine/cache.go:94-99 | eviction leaves fewer than the maximum, for the queue cannot run out first |
| Cache.InsertedBounds | engine/cache.go:64-69 | an insertion keeps the bound and every stored key in the queue |
| Cache.ResultCache.constructor | engine/cache.go:31-44 | defaults for non-positive arguments, and an empty cache |
| Cache.ResultCache.DropExpired | engine/cache.go:76-81 | exactly the expired entries go |
| Cache.ResultCache.Rebuild | engine/cache.go:83-92 | the in-place filter keeps exactly the stored keys in order |
| Cache.ResultCache.EvictLocked | engine/cache.go:74-100 | expiry, rebuild and popping as specified |
| Cache.ResultCache.Insert | engine/cache.go:64-69 | eviction, then the entry, then the queue |
| CacheRuns.FreshAnswers | engine/cache.go:47-56 | a call that finds a result younger than the TTL under its key answers with it and changes nothing |
| CacheRuns.MissRuns | engine/cache.go:58-72 | a call that finds none asks the engine: a failure stores and answers nothing, a success is stored, queued last and answered |
| CacheRuns.RunKeeps | engine/cache.go:47-121 | the invariant of all interleavings of lookups, engine runs, insertions and clears |
| CacheRuns.AlwaysBounded | engine/cache.go:47-121 | in every interleaving the store is within its bound and every stored key is queued |
| CacheRuns.HitsAreRecent | engine/cache.go:50-56 | every hit repeats a result an earlier successful run produced for the same key and that was inserted less than the TTL before |
| CacheRuns.Transparent | engine/cache.go:46-72 | with injective keys and a deterministic engine every answer is the engine's own |
| CacheSequential.EvictionRefines | engine/cache.go:74-100 | eviction is: drop the expired, keep the youngest `max - 1` |
| CacheSequential.InsertionRefines | engine/cache.go:64-69 | an insertion after a miss is the abstract one |
| CacheSequential.CallRefines | engine/cache.go:47-72 | one call on an exact shelf answers as the abstract list does and leaves what it leaves, still in order of age |
| CacheSequential.SequentialRefines | engine/cache.go:47-100 | for non-overlapping calls and a non-decreasing clock the queue is exactly the stored keys without duplicates, in order of age, and the cache is a bounded oldest-inserted-first TTL list |
| CacheSequential.AnswersRefine | engine/cache.go:47-72 | and every call answers what that list answers |
| CacheSequential.ExactInsertionIff | engine/cache.go:64-69 | an insertion leaves the queue exact if and only if its key is not stored any more after the eviction |
| CacheOverlap.FreshRunRefines | engine/cache.go:47-121 | in any interleaving whose insertions all find their key gone, the cache is the bounded list that forgets its oldest insertions |
| CacheOverlap.AlwaysExactIff | engine/cache.go:47-121 | the queue is exact after every step of a run if and only if all its insertions are of that kind |
| CacheOverlap.QueueGrows | engine/cache.go:47-69 | for every `n`, a run of `n` overlapping misses on one key stores one result and queues `n` places |
| CacheOverlap.OverlapMisplaces | engine/cache.go:47-69 | a run of overlapping calls after which a renewed key stands at the head of the queue, before an older one |
| CacheOverlap.OverlapForgetsYounger | engine/cache.go:94-99 | and the next call forgets the younger result and keeps the older one |
| SlidingWindow.RateLimiter.Enter | engine/embed/ratelimit.go:28-39 | pruning, the sleep computed from what is left, and the panic exactly for a maximum below one and nothing left |
| SlidingWindow.PrunedSuffix | engine/embed/ratelimit.go:30-36 | what is kept is a suffix of the history, and all that is dropped is older than a minute |
| SlidingWindow.PrunedAtMostMax | engine/embed/ratelimit.go:30-38 | with a clock past every grant, at most `max` timestamps are left |
| SlidingWindow.GrantSpaced | engine/embed/ratelimit.go:38-52 | a grant after the computed sleep keeps the window |
| SlidingWindow.CallKeeps | engine/embed/ratelimit.go:24-54 | each call, granted or cancelled, keeps the invariant |
| SlidingWindow.WindowHolds | engine/embed/ratelimit.go:17-54 | over a whole run any `max + 1` consecutive grants span at least a minute |
| SlidingWindow.EarliestGrantSpacedIff | engine/embed/ratelimit.go:30-52 | for any clock, a grant at the earliest moment keeps the window if and only if at most `max` timestamps are kept or the second one is a minute old |
| SlidingWindow.StandingClockBreaksWindow | engine/embed/ratelimit.go:30-39 | after a run of three timely calls a fourth at the instant of the last grant breaks it |
| OverlappingWaits.RunKeeps | engine/embed/ratelimit.go:24-54 | the invariant of any number of callers that sleep at the same time, wake up late or are cancelled |
| OverlappingWaits.EarliestWakeIff | engine/embed/ratelimit.go:38-52 | a sleeper that wakes up as early as it can keeps the window if and only if exactly `max` timestamps were left when it entered and nobody was granted while it slept |
| OverlappingWaits.AwakeIff | engine/embed/ratelimit.go:30-52 | a caller that need not sleep keeps it, at the time it enters, if and only if at most `max` timestamps are left |
| OverlappingWaits.WindowIfAllFit | engine/embed/ratelimit.go:24-54 | any run whose grants all fit keeps the window, late wake-ups included |
| OverlappingWaits.LookIff | engine/embed/ratelimit.go:30-52 | a grant keeps the window exactly if a caller that looked just then would not have to sleep |
| OverlappingWaits.WindowIff | engine/embed/ratelimit.go:24-54 | any run, with any overlaps, late wake-ups and cancellations, keeps the window if and only if no sleeper that is granted would have had to sleep again, had it looked again |
| OverlappingWaits.OverlappingSleepersBreakWindow | engine/embed/ratelimit.go:41-52 | a run of two overlapping sleepers that breaks it |
| TokenBucket.RateLimiter.constructor | material/ratelimit.go:17-26 | capacity, its default, and one token from the start |
| TokenBucket.RateLimiter.Fill | material/ratelimit.go:27-34 | a tick adds a token unless the bucket is full |
| TokenBucket.RateLimiter.Wait | material/ratelimit.go:40-47 | a grant takes one token; a cancelled or blocked caller takes none |
| TokenBucket.TokensAccounted | material/ratelimit.go:17-47 | never more than the capacity is held, and grants plus tokens left are at most tokens at the start plus ticks, equal when no tick can be dropped |
| TokenBucket.GreedyTakesAll | material/ratelimit.go:40-47 | there is a run that grants all of them |
| TokenBucket.MostGranted | material/ratelimit.go:16-47 | so a stretch can grant `n` requests if and only if `n` is at most tokens plus ticks |
| TokenBucket.MinuteOverLimitIff | material/ratelimit.go:16-26 | in as many ticks as a minute has, more than the limit goes through exactly when it starts with a token, and up to twice the limit from a full bucket |
| Retry.DelayClosedForm | engine/httpx/retry.go:68-72 | the first delays are base and then min(base·2^(n-1), max), if and only if no doubling so far leaves the range |
| Retry.UsableIff | engine/httpx/retry.go:50-72 | the delays of a given number of retries are all at least two if and only if base, maximum and the last but one doubling meet bounds a caller can check |
| Retry.AlwaysUsableIff | engine/httpx/retry.go:50-72 | those of every number of retries are if and only if base and maximum are at least two and below 2^62 |
| Retry.NeverWrapsIff | engine/httpx/retry.go:50-51 | the 64-bit sum of a delay and its jitter is right for every jitter if and only if the delay is below two thirds of 2^63 |
| Retry.WaitableIff | engine/httpx/retry.go:50-72 | all delays of a number of retries can be waited for with every jitter if and only if they are usable and the last one is below that bound |
| Retry.AlwaysSoundIff | engine/httpx/retry.go:50-72 | those of every number of retries can if and only if base and maximum are at least two and below 2^62 |
| Retry.NeverFiresAtOnceIff | engine/httpx/retry.go:50-61 | among usable delays, no jitter makes a wait negative if and only if the caller's condition holds |
| Retry.RoundTrip | engine/httpx/retry.go:20-87 | at most R+1 attempts, all but the last a network error, a 429 or a status from 500 up; every wait is Retry-After or the 64-bit sum of the delay and a jitter below half of it; it gives up exactly at the first wait during which the context ends, panics exactly at a delay below two, and otherwise returns the last attempt |
| Retry.TotalGeometric | engine/httpx/retry.go:47-73 | waits below 3/2 of the doubled delays sum to less than 3/2 of base·(2^R - 1) |
| Retry.TotalLinear | engine/httpx/retry.go:47-73 | waits below 3/2 of the maximum sum to less than 3/2 of R·max |
| Retry.TotalWait | engine/httpx/retry.go:47-73 | without Retry-After the total wait of any call is below 3/2 of the smaller of the two, with the base for a maximum below it |
| Retry.WaitsAsMeant | engine/httpx/retry.go:50-60 | under the caller's condition each wait without Retry-After lies between min(base·2^(n-1), max) and 3/2 of it |
| Retry.PanicIff | engine/httpx/retry.go:50 | a call panics if and only if it reaches a retry whose delay is below two |
| Retry.NoPanicIff | engine/httpx/retry.go:50 | no call can panic if and only if the configured delays are usable for its retries |
| Retry.ReturnsFirst | engine/httpx/retry.go:75-81 | the first attempt that is not retryable is returned, after exactly that many waits, if the context lives and the delays are usable |
| Poll.GrowingWait | engine/poll/poll.go:86-149 | with growth the n-th wait is min(interval·backoff^(n-1), max) from the second on |
| Poll.WaitClosedForm | engine/poll/poll.go:86-149 | the closed form of every wait |
| Poll.CappedIff | engine/poll/poll.go:86-149 | a wait respects the cap exactly when the interval does or it is a grown one |
| Poll.PollV2 | engine/poll/poll.go:86-149 | at most MaxAttempts fetches, all before the last pending, which outcome ends the loop, and the waits are the closed form's |
| FanOut.StepKeeps | material/multi.go:73-127 | every step of senders, closer and collector keeps the invariant |
| FanOut.ReachedInv | material/multi.go:73-127 | so every reachable state has it |
| FanOut.SendNeverBlocks | material/multi.go:73 | the buffered channel always has room for a sender |
| FanOut.NoDeadlock | material/multi.go:108-127 | until the collection is over some step is possible |
| FanOut.StepProgresses | material/multi.go:73-127 | every step lowers a measure |
| FanOut.RunsAreShort | material/multi.go:73-127 | so every run ends within `3 n + 2` steps |
| FanOut.EachConsumedOnce | material/multi.go:73-127 | in every finished run each backend's outcome is consumed exactly once: items a permutation, totals summed, errors exactly the failures, and the same cursors when cursors agree |
| MultiSearch.Collect | material/multi.go:113-137 | the collecting loop leaves the first items, as many as asked for, and the total, errors and cursors of everything that arrived |
| MultiSearch.OrderDoesNotMatter | material/multi.go:117-127 | items and errors as multisets and the total do not depend on the order of arrival |
| MultiSearch.NextStateMembers | material/multi.go:124-126 | the cursor map holds exactly sources that sent a cursor, each with one it sent |
| MultiSearch.SameNextState | material/multi.go:124-126 | with one cursor per source the cursor map does not depend on the order |
| MultiSearch.LastCursorWins | material/multi.go:124-126 | whichever cursor arrives last is the one kept |
| MultiSearch.NextStateStableIff | material/multi.go:124-126 | the cursor map is the same for every order if and only if each source has one cursor |
| MultiSearch.ErrorsNamed | material/multi.go:101-119 | exactly the failed backends are reported, in order of arrival, each under the name in its result or, where that is empty, the one it describes itself by |
| MultiSearch.CursorsComeBack | material/multi.go:88-104 | a backend gets its own cursor back with the next page if and only if it describes itself, and its result names no source or the same one |
| MultiSearch.TokenReceived | material/multi.go:88-98 | a backend receives the cursor stored under its described name, or else the composite token |
| MultiSearch.RenamedLosesCursor | material/multi.go:100-104 | one whose results name another source does not get its cursor back |
| ToolParams.BlankIff | tooldef/tooldef.go:53 | trimming to nothing means being all white space |
| ToolParams.FirstMatchStable | tooldef/tooldef.go:72-78 | the first match equals the value up to case and is its own first match |
| ToolParams.CanonicalKeeps | tooldef/tooldef.go:72-78 | rewriting a value changes nothing any check looks at, and rewriting again changes nothing |
| ToolParams.AlikeCounts | tooldef/tooldef.go:86-92 | nor does it change how many of a group are provided |
| ToolParams.AlikeValid | tooldef/tooldef.go:46-104 | so rewriting any of the parameters does not change validity |
| ToolParams.SecondCheck | tooldef/tooldef.go:44-104 | after a success a second check succeeds and changes nothing |
| ToolParams.EqualFoldMeans | tooldef/tooldef.go:73 | two texts match exactly if they have the same letters up to case |
| ToolParams.ValidMeans | tooldef/tooldef.go:46-122 | the constraints hold exactly if all required parameters are there and no blank text, every text with an enum is one of its words up to case, and of each group exactly one is given |
| ToolParams.RewrittenMeans | tooldef/tooldef.go:72-77 | a text with an enum is left in the spelling of the first word it matches, everything else as it was |
| ToolParams.CheckRequired | tooldef/tooldef.go:47-56 | nil exactly when all are present, otherwise the first missing one |
| ToolParams.CheckEnums | tooldef/tooldef.go:58-83 | nil exactly when all enums hold, and then the rewritten parameters, in any order of the map; an error names a bad one |
| ToolParams.CheckGroups | tooldef/tooldef.go:85-102 | nil exactly when each group has one provided parameter, otherwise the first bad group and on which side |
| ToolParams.ValidateParams | tooldef/tooldef.go:46-104 | nil exactly when all constraints hold of the parameters passed in; the result does not depend on map order; which error otherwise |
| WorkflowGraph.Validate | workflow/types.go:30-45 | ok exactly for a non-empty graph without blank ids or class types |
| WorkflowGraph.FindByClassType | workflow/types.go:58-67 | the nodes of the class by sorted id |
| Lex.SortedKeys | workflow/types.go:48-55 | the keys, each once, in increasing byte order |
| Lex.SortedUnique | workflow/types.go:48-55 | which determines the list |
| WorkflowGraph.FoundExact | workflow/types.go:58-67 | a reference is found exactly when its id holds that node of that class |
| WorkflowGraph.NumberedExact | client.go:693-1026 | the ids are exactly the decimals 1 to n, each with its own node: nothing is overwritten |
| WorkflowGraph.IdsSortedIff | workflow/types.go:48-55 | string order is number order exactly up to nine |
| WorkflowGraph.FoundInOrder | workflow/types.go:58-67 | with at most nine nodes lookup returns a class in the order it was added |
| WorkflowGraph.FoundBag | workflow/types.go:58-67 | with any number it returns each node of the class as often as it was added |
| LookupOrder.FoundInOrderIff | workflow/types.go:48-67 | lookup returns the references of a class, ids and nodes, in the order they were added if and only if string order is number order on their positions |
| LookupOrder.NodesInOrderIff | workflow/types.go:48-67 | the same for the nodes alone, when those of the class differ |
| LookupOrder.OneDigitInOrder | workflow/types.go:48-55 | positions up to nine are in order |
| LookupOrder.NineAndTen | workflow/types.go:48-55 | a class at positions nine and ten is not |
| LookupOrder.OneClassInOrderIff | workflow/types.go:48-67 | a graph of different nodes of one class gives them back in order exactly up to nine |
| LookupOrder.TwoOfTenReversed | workflow/types.go:58-67 | a graph of ten nodes with only two of a class, the ninth and tenth, gives them back in another order |
| BuildGraph.Place | client.go:706-713 | placing under the running id appends to the numbered graph |
| BuildGraph.MergeImage | client.go:726-805 | the image settings merged variable by variable are the specified ones |
| BuildGraph.MergeVideo | client.go:726-808 | and the video settings |
| OptionValues.PromptFound | client.go:695-702 | in the graph of any task, of any size, lookup finds the one node with its prompt |
| OptionValues.LatentFound | client.go:704-713 | the latent image exactly for a positive width or height |
| OptionValues.NegativeFound | client.go:715-724 | the negative prompt exactly if there is one |
| OptionValues.AudioFound | client.go:845-853 | the audio loader exactly for an audio URL |
| OptionValues.ImageValues | client.go:726-813 | lookup finds at most one image option node, and it holds for each key the structured value where it is set, else the flat one, and no other key |
| OptionValues.VideoValues | client.go:726-824 | the same for the video option node |
| OptionValues.SpeechValues | client.go:855-876 | lookup finds the speech settings that are set, key by key, and no other key; nothing without speech |
| OptionValues.MusicValues | client.go:878-908 | the same for music |
| OptionValues.EffectValues | client.go:910-925 | for effects |
| OptionValues.MixValues | client.go:927-948 | for mixing, which is there exactly with at least two tracks |
| OptionValues.SearchValues | client.go:950-992 | for search |
| OptionValues.VoiceValues | client.go:994-1023 | for a voice design, which is there exactly with all three required texts |
| BuildGraph.BuildHead | client.go:693-824 | prompt, latent size, negative prompt and the option nodes, under their ids |
| BuildGraph.BuildReferences | client.go:826-843 | a loader for every reference with a URL, in order |
| BuildGraph.BuildAudio | client.go:845-925 | the audio, speech, music and effects nodes that apply |
| BuildGraph.BuildFinal | client.go:927-1024 | the mixing, search and voice-design nodes that apply |
| BuildGraph.Build | client.go:693-1026 | the graph is the specified node list numbered from 1 |
| BuildGraph.BuiltIsValid | workflow/types.go:30-45 | every built graph passes validation |
| BuildGraph.LoadersAreReferences | client.go:826-843 | its image and video loaders are exactly the non-empty reference URLs, in order and with multiplicity |
| BuildGraph.ReferencesFound | workflow/types.go:58-67 | lookup returns exactly those loaders, in task order up to nine nodes |
| BuildGraph.ReferencesInOrderIff | workflow/types.go:58-67 | different reference URLs of a kind come back in task order if and only if string order is number order on their positions |
| BuildGraph.OneKindInOrderIff | client.go:693-843 | with references of one kind, if and only if they and the nodes before them are at most nine |

## Left out

- Strings are sequences of characters below 256, the bytes of a Go string. Lower-casing, trimming and case folding are the ASCII ones; `sanitizeName` works per byte, so a non-ASCII letter of a model name gives one dash per byte. The round trip does not depend on which name is invented.
- A nil metadata map is the empty map. `Enabled`, the HTTP client and hooks of a configuration are not part of a URI and not modelled.
- `time.Duration` text is a pair of inverse functions on positive durations; for `UriRoundTrip.RoundTripIff` it also has no percent sign, underscore or capital K in it.
- UriRoundTrip.RoundTripIff: says nothing of a provider with `://` in it when an alias is registered that leads to a name with `://` in it; `UriAlias.AliasBringsBack` shows that the equivalence fails there.
- UriList.ListRoundTrip: for texts without a comma in the unescaped parts and without a leading space in the provider, since the list is cut at every comma.
- UriRedact.KeyIsHidden: for parts in which each delimiter only separates; a query parameter is never masked by the code.
- Environment lookup, factories, `ParseAndValidateURI` and `RedactURIs` (each part redacted on its own).
- The mutex of `FileTaskStore`: the file lock alone allows more interleavings, and the theorems hold for those. A process crash is a crash of each of its calls.
- Power loss, fsync and the Windows variant of the lock, which does nothing. JSON coding is lossless, and encoding does not fail.
- TaskLifecycle.SettledStatusIff: settling counts when its save commits; a failing save in `Resume` is dropped by the code and leaves the task pending.
- Task ids are fresh: `newTaskID` draws 128 random bits.
- The heap's scores are real numbers: no NaN, and cosine similarity is any function of two vectors. A non-positive k cannot reach `topK` from `Search`.
- `Search` reading the entries after releasing the lock: the selection is stated for one value of the entries. Saving the index, walking a directory and guessing media types.
- VectorIndex.RunIsTable: from an index with unique paths; a file with duplicate paths loads into one that is not an inverse, as `LoadedInverseIff` says.
- Hashing of graphs is a function to keys; `CacheRuns.Transparent` takes it to be injective.
- OverlappingWaits.WindowIff: for a maximum of at least one and a clock past the last grant at every later reading; with a maximum below one the first call panics, as `RateLimiter.Enter` says.
- The token bucket counts received ticks, not wall-clock time, and takes a minute as `max` ticks. `Stop` and the `Retry` helpers of that file are not modelled, nor is the panic of a ticker whose interval rounds to zero.
- Floating-point rounding in `PollV2`, which is over real numbers; progress callbacks; and `Poll.PollV2` needs a context that ends when attempts are unlimited.
- Parsing of a Retry-After header: its value is an input of `Retry.RoundTrip`. Closing of bodies.
- Base64 and JSON of the pagination token, and the timeout of each backend: any outcome, at any time, is allowed.
- Schemas of tools beyond names, enums, required and exactly-one-of; their tables are static data.
- Typed input accessors of a node, provider engines, HTTP, signing, model catalogues, routing, fallback execution, rule filters, error classification and middleware: request building and table lookups, or easy members.
