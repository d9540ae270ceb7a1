# Verified models of flob

flob is a content-addressed blob store: a blob is named by the digest of its bytes, many
stores share one copy of it, and three very different backends (memory, a file system, an
S3 bucket) promise one meaning. These Dafny files model the backends, the cache tap, the
canonical encodings of the S3 client, the HTTP layer and the parallel add of the command
line, and prove what they promise.

There are two kinds of model.

* **Protocols.** A protocol is a state machine with any number of concurrent calls, each with
  a program counter, and one step per system call, atomic map operation or HTTP request. A
  state is everything that concerns one digest; `OsSystem` and `MemSystem` put the digests
  together. Results hold for every interleaving; the file-system protocol also has crashes
  and failing system calls at any point, the S3 protocol crashes and lost responses.
* **Programs.** Code that changes things in place, one call at a time, is classes and methods
  with loops, proved against a specification on values (`StoreSpec` for the backends).

| files | source |
|---|---|
| `OsProtocol`, `OsInvariant`, `OsSafety`, `OsOutcomes`, `OsRefcount`, `OsProgress`, `OsAnswers`, `OsSchedule`, `OsAtomic`, `OsWitness`, `OsSystem` | `os.go`, concurrent, with `nlink_linux.go` and `nlink.go` |
| `MemProtocol`, `MemInvariant`, `MemSteps`, `MemSafety`, `MemLinear`, `MemLinearProof`, `MemLinearizable`, `MemSpec`, `MemLaws`, `MemSystem` | `mem.go`, concurrent |
| `S3Protocol`, `S3Safety`, `S3Answers` | `s3.go`, concurrent |
| `OsPaths` | the paths of `os.go`, and `filepath.Join` on them |
| `Digests`, `StoreSpec`, `MemStore`, `OsStore`, `S3Store`, `Backends` | `digest.go`, `store.go` and the three backends, one call at a time |
| `LabelWire` | `labels.go`, and what the Go library's header writer and reader do to labels |
| `Headers`, `S3Meta`, `S3Keys`, `Encoding`, `CanonicalQuery`, `SignedHeaders` | the encodings of `s3.go` and `sigv4.go` |
| `CacheTap`, `TapProtocol` | `cache.go` |
| `HttpUrl`, `HttpWire`, `HttpReply`, `HttpStore` | `http.go`, with URL parsing and header transport |
| `BatchAdd` | `cmd/flob/cmd/op.go` |

SHA-256 is any function from bytes to digests. Where a result needs that no two contents
collide it says so (`Injective`), and where it needs that computed digests pass validation
it says that (`Canonical`).

Where the code and its comments disagree, the models follow the code:

* `os.go:223-231` and `README.md:76-78` say that Add and Erase always succeed. A concurrent
  Erase can make Add fail (`os.go:239-242`), and a concurrent Label can make Erase's RemoveAll
  fail, so that it skips the clean-up. Both leave the shared copy behind; `OsWitness` has the
  two runs. `OsSchedule` proves that all is well on every schedule without crashes and I/O
  errors in which no unfinished Add or Label of a store coexists with an unfinished Erase of
  that store, on one digest: every Erase succeeds, every Add succeeds unless the entry is
  there or the content is not the one named, and nothing leaks. The two runs break exactly
  this condition, which `OsWitness` states with them.
* An Open reads the labels and then opens the blob (`os.go:404-444`). An Erase in between can
  make it return the blob without its labels (`OsWitness.EraseTearsOpen`). While no Erase
  runs beside other calls of its store, each call acts at one step like a map (`OsAtomic`).
* Store ids are joined into paths as they are (`os.go:57`, `462-468`). The ids "r", "./r", "r/"
  and "x/../r" name one directory, and some ids lie inside an entry of another store, where
  its Erase removes them. `OsPaths` has these, and the exact conditions.
* The labels file, S3's metadata and HTTP carry different sets of labels unchanged. Names that
  are no header names, values with blanks at an end or control characters, keys without
  values, and keys in another case are dropped, refused or rewritten. `LabelWire`, `S3Meta`
  and `HttpWire` say exactly which labels pass each.
* The HTTP client puts ids and digests into URLs as they are (`http.go:242-247`): what follows
  a "?" or "#" is lost and "%41" becomes "A", so a call can reach another store, or erase a
  blob although its digest was malformed. `HttpUrl.PathRoundTrip` has the exact condition.
* The handler shows labels as bare response headers (`http.go:212-216`). A label
  "Content-Encoding: gzip" makes Open fail or return other bytes, and a label
  "Content-Length" makes Get fail. `HttpReply` says exactly which labels do no harm.
* `README.md:81-84` expects two copies of one content after a race with a clean-up. With exact
  link counts there is never more than one (`ExactDedup`).
* `s3.go:19-20` says that Erase removes the shared blob with its last marker. It never does
  (`s3.go:493-512`), and the proofs that no marker dangles rest on that.
* `s3.go` checks a marker and then writes it. Two Adds of one blob to one store can both
  succeed, and a Label can bring back a marker that an Erase has removed. `S3Safety` has both
  runs, and proves that neither happens while calls of one store on one digest do not overlap.
* Backends answer an invalid digest with "not exist" or a silent Erase; through HTTP the client
  sees an unexpected status. `HttpStore.Through` states exactly when the errors agree.

## Model

| member | source | states |
|---|---|---|
| OsInvariant.StepKeepsInv | os.go:68-402 | every system call of every call, a crash or an I/O error at any point included, keeps the lock discipline, the shape of each staged directory at each program point, and the integrity of every shared, staged and committed inode |
| OsSafety.ContentIntegrity | os.go:108-130 | in every reachable state, with any answers from nlink, the shared name, every committed entry and every open reader hold complete content that hashes to the digest |
| OsSafety.OneContent | os.go:189-217 | if the hash has no collisions, all of these hold exactly the bytes that were added |
| OsSafety.LinkNeverFails | os.go:179-208 | after the stat of the shared path, the link out of it finds its source and the link into it finds no destination, whatever other processes do |
| OsSafety.ShareChangesUnderLock | os.go:380-397 | the shared name changes only in a step of the lock holder, and no other call is then past its lock |
| OsSafety.ReplacesOnlyOrphans | os.go:140-144 | from the second duplicate check until the rename, RemoveAll included, the path Add is about to replace has no committed blob, and what it stages is complete |
| OsSafety.OnlyEraseUnlinks | os.go:335-365 | only an Erase of the same store takes a committed entry away; removing the shared name changes nothing any entry reads |
| OsRefcount.ExactDedup | os.go:367-402 | with exact link counts, after any run and any crashes, every committed entry is the shared inode itself, and a clean-up about to remove it finds no entry and no staged directory linking to it |
| OsSchedule.OrderlyCallsSucceed | os.go:335-365 | on every schedule without crashes and I/O errors where no unfinished Add or Label coexists with an unfinished Erase of its store: every Erase that returns has succeeded, every Add has unless the entry was there or the content is not the one named, and no Add needs a second rename |
| OsSchedule.OrderlyNoLeak | os.go:347-402 | when all calls of such a schedule have returned, the shared blob exists exactly if some store has it, every directory is a whole entry, and nothing is left in stage |
| OsSchedule.OrderlyOrphanHasCleaner | os.go:347-402 | at any moment of such a schedule, when nothing but the shared name links to the inode, some Erase is still going to look at the count |
| OsAtomic.AddActsOnTheMap | os.go:68-248 | while no Erase runs beside other calls of its store, Add adds its entry to the map of entries in the step that decides Ok, where there was none, changes nothing in any other step, and says AlreadyExists at its two checks exactly if the map has the entry |
| OsAtomic.LabelActsOnTheMap | os.go:273-330 | there, Label replaces the labels in the step that decides Ok, of an entry that is there, and says NotExist at its stat exactly if the map has no entry |
| OsAtomic.ReadsAreOfTheMap | os.go:404-444 | there, Get and Open change nothing, say NotExist at their stat exactly if the map has no entry, take the labels the map has, and open the content it has |
| OsAtomic.EraseActsOnTheMap | os.go:335-365 | there, each step of Erase leaves the map alone or takes its own entry out, and it decides Ok when the entry is out |
| OsOutcomes.AddAnswersAreTrue | os.go:68-248 | whatever else runs, Add says Ok in the very step that commits its entry, where there was none, with its labels and content of the digest; AlreadyExists when the entry is there; a mismatch when the content is not the one named |
| OsOutcomes.OnlyAddsCommit | os.go:210-221 | an entry appears only in the step of an Add of that store that decides Ok |
| OsOutcomes.DecisionsStay | os.go:68-402 | a decided answer is what is returned, unless the process dies |
| OsAnswers.CallsAreExplained | os.go:68-444 | in every run, with races, crashes and failures: an Open or Get that succeeds found the blob in its own store's directory at its stat, took the labels that directory had afterwards and, if it is for the bytes, opened that directory's blob; NotExist means that it missed the blob at one of its steps; a Label that succeeds found the blob and put its labels there; an Add that says AlreadyExists found the blob at a check, and one that says Ok or DigestMismatch found none at its first check; an Erase that succeeds has seen its directory gone; any other answer means a fault |
| OsProgress.NoDeadlock | os.go:479-489 | any unfinished call can take a step, or waits for a lock whose holder can |
| OsProgress.CommitsWithinTwoRenames | os.go:232-248 | from any leftover directory, and whatever other stores do, an undisturbed Add commits with at most two renames |
| OsProgress.AttemptsNeverRunOut | os.go:232-248 | in every run, with any disturbance, crashes and failures, no Add needs a third rename, and one that gets to the second commits with it: the exit after the last attempt is dead |
| OsWitness.LabelMakesEraseLeak | os.go:355-362 | a run without crashes or I/O errors in which a Label makes Erase fail and the shared copy stays although no store has the blob; no orderly schedule leads there |
| OsWitness.EraseMakesAddFail | os.go:239-242 | a run without crashes or I/O errors in which an Erase makes Add fail, and the shared copy stays although no store has the blob; no orderly schedule leads there |
| OsWitness.EraseTearsOpen | os.go:404-444 | a run in which an Open returns a blob without the labels it had when the Open began |
| OsPaths.EntriesAliasIff | os.go:457-468 | two entries have one path exactly if their digests are equal and their store ids resolve to one directory |
| OsPaths.OwnDirectoryIffPlain | os.go:54-60 | a store id has a directory of its own name exactly if it is one plain path element |
| OsPaths.PlacesAreApart | os.go:457-489 | the entries of plain ids, the shared blobs and the lock files of all digests have different paths, and none lies inside another |
| OsPaths.PathsAre | os.go:457-507 | under a clean root, the entry, the shared blob and the lock of a digest are at root/repos/id/algorithm/xx/yy/rest, root/share/algorithm/xx/yy/rest and root/locks/digest |
| OsPaths.AliasedIds | os.go:54-60 | "r", "./r", "r/" and "x/../r" have one path for every digest |
| OsPaths.NestedId | os.go:54-60 | an id whose directory lies inside another store's entry |
| OsSystem.ComponentsAreApart | os.go:457-489 | at any point of any run on plain ids, two places in use, of one digest or of two, have different paths and neither contains the other |
| OsSystem.WholeStoreSafe | os.go:457-468 | in every run of the whole store, over all digests, what a store serves for a digest hashes to it, and with exact counts is the one shared inode |
| OsSystem.WholeStoreNoLeak | os.go:347-402 | when all calls of an orderly run over all digests have returned, share holds exactly the digests some store has |
| MemSteps.StepKeepsInv | mem.go:69-186 | every atomic step of Add, Erase, Label, Get and Open keeps the mutex discipline, the reference counts and the links between maps, entries and blobs |
| MemSafety.RefcountConserved | mem.go:105-181 | whenever a blob's mutex is free, its count is the number of stores whose entry points at it plus the Erases that still owe it a decrement |
| MemSafety.NoUnderflow | mem.go:177-181 | the unsigned counter is never decremented at zero |
| MemSafety.EntriesShareTheGlobalBlob | mem.go:78-107 | every live entry of a digest points at the one blob the global map names |
| MemSafety.DeleteRemovesTheDyingBlob | mem.go:177-183 | the delete from the global map removes the caller's own blob, whose count has reached zero and which no store uses |
| MemSafety.FreshBlobIsNeverStranded | mem.go:78-107 | an Add that published its own blob can insert its entry: it never leaves by the duplicate exit with a blob nobody counts |
| MemSafety.RetryMeansDeleted | mem.go:87-93 | Add starts over only for a blob that has left the global map, and never twice for the same one |
| MemSafety.RetriesBoundedByDeletions | mem.go:71-96 | no Add retries more often than blobs of the digest were deleted in the run |
| MemSafety.DeletionsAreCounted | mem.go:183 | a step deletes from the global map exactly when it is Erase's delete, and each delete is of a different blob |
| MemSafety.NoDeadlock | mem.go:71-97 | a call that waits for a blob's mutex holds none, and the holder can go on |
| MemSafety.NoLeak | mem.go:167-186 | when all calls have returned the global map has the digest exactly if some store does, with the number of those stores as its count |
| MemLinear.CutIsTraceless | mem.go:154-158 | a Label or Get put just before the Erase of its entry changes nothing of what the history says afterwards |
| MemLinearProof.RecordKeepsLinInv | mem.go:42-186 | every step of the protocol extends the explaining history: a settling call is placed at the end, or just before the Erase that detached the entry it had loaded |
| MemLinearProof.PresentAgrees | mem.go:42-186 | Add at its look-up or insertion, Erase at its LoadAndDelete, Label and Get at their access to a live entry answer and act as the map from stores to entries does |
| MemLinearizable.Linearizable | mem.go:42-186 | every concurrent run is explained at every moment by a sequential history of the specification that contains each settled call once, with its answer, inside its own interval |
| MemLinearizable.RealTimeOrder | mem.go:42-186 | a call that returned before another began comes before it in that history |
| MemLinearizable.AnswersAreLegal | mem.go:42-186 | a call that has returned is in the history exactly once, and gave the answer the specification gives after the events before it |
| MemLinearizable.LateLabelsNeverShow | mem.go:154-162 | an entry that an Erase has detached while a Label was about to write to it is never in a store again, so at every later moment of the run what labels it holds makes no difference to what the stores hold |
| MemSpec.SpecStepIsStoreSpec | mem.go:42-186 | the specification of these histories is the one all backends share, seen at one digest: each operation acts and answers alike, with error, content and labels |
| MemSpec.ExplainedByStore | mem.go:42-186 | so a history that explains a run is one of the shared specification: it leads to what the maps hold, and each call gave the reply to the calls before it |
| MemLaws.GetAfterAdd | mem.go:42-146 | in every run, a Get that begins after an Add has returned Ok returns that content with those labels, if no Label or Erase of the store runs from the start of the Add to the end of the Get |
| MemLaws.GetAfterLabel | mem.go:114-165 | in every run, a Get that begins after a Label has returned Ok returns content of the digest with those labels, if no other Label or Erase of the store runs meanwhile |
| MemLaws.GetAfterErase | mem.go:114-186 | in every run, a Get that begins after an Erase has returned finds nothing, if no Add of the store runs meanwhile |
| MemSystem.WholeStoreConserves | mem.go:21-40 | in every run over all digests, what a store holds hashes to its digest, through the one global blob of that digest, with an exact count |
| MemSystem.WholeStoreNoLeak | mem.go:167-186 | when all calls on all digests have returned, the global map holds exactly the digests some store has |
| S3Safety.NoDanglingMarker | s3.go:365-382 | after any interleaving, crashes and lost responses, every marker has its blob, whose content hashes to the digest and whose length is the marker's size |
| S3Safety.OpenPastTheGateSucceeds | s3.go:401-442 | an Open that has read the marker finds the blob and returns content of that digest with its length: the not-exist exit at the blob is never taken |
| S3Safety.ContentIsForever | s3.go:485-513 | uploaded content is never lost nor changed by any later step |
| S3Safety.AnswersAreTrue | s3.go:318-513 | each answer is true at the request that decides it: Add and Label have written their marker, Erase has removed it, Open hands out the shared content with the marker it passed; a call says NotExist or AlreadyExists at its gate exactly by its own store's marker |
| S3Answers.CallsAreExplained | s3.go:318-513 | in every run, with races, crashes and lost responses: an Open that succeeds found its own store's marker at its first request and reports just that marker, with content fetched later; NotExist means that there was none; a Label that succeeds found the marker and rewrote it with its size; an Add that succeeds found none and wrote one, and AlreadyExists means that it found one; an Erase that succeeds removed it and nothing else |
| S3Answers.NoMarkerNoContent | s3.go:407-411 | a store that never had a marker during a run gets no content, whatever other stores have |
| S3Answers.LostIsFailure | s3.go:209-225 | a call whose response is lost reports a failure |
| S3Safety.SerialCallsActOnWhatTheyRead | s3.go:467-483 | if calls of one store on one digest do not overlap, a committing Add meets no marker, a Label rewrites the labels of the marker that is there, and an Open's marker is current |
| S3Safety.TwoAddsBothSucceed | s3.go:326-382 | a run in which two Adds of one blob to one store both succeed |
| S3Safety.LabelResurrects | s3.go:473-482 | a run in which a marker is there after its Erase has returned, put back by a Label |
| Digests.SanitizeIsIdentity | digest.go:13-19 | sanitizing accepts exactly the valid digests and returns them unchanged |
| Digests.ValidIffParts | digest.go:13-19 | a digest is valid exactly if it is one of three algorithms, a colon, and as many lower-case hexadecimal digits as the algorithm has |
| StoreSpec.AddAnswers | store.go:14-22 | Add says Ok exactly if the digest is empty or the content's own and the store has no such entry, AlreadyExists exactly if the entry of the digest named, or else computed, is there, DigestMismatch exactly if the digest is valid, absent and another, and an error exactly for an invalid one; the digest it replies is the content's, and only an Ok changes the store, by just that entry |
| StoreSpec.ReadAnswers | store.go:23-28 | Get and Open say NotExist exactly if the store has no entry, and otherwise tell its digest, labels, size and, for Open, content; they change nothing |
| StoreSpec.ChangeAnswers | store.go:29-34 | Label replaces the labels and keeps the content of an entry that is there, and says NotExist exactly if it is not; Erase removes just the entry and never fails |
| StoreSpec.PresentIffKept | store.go:13-35 | after any history a store has an entry exactly if some Add of it, by any name for its digest, was not followed by an Erase of it |
| StoreSpec.ShowsWhatWasGivenLast | store.go:13-35 | such an entry has content of its digest, and the labels of the last Label of it, or of the Add that made it |
| StoreSpec.RepliesInOrder | store.go:13-35 | each reply of a history is the answer on what the calls before it left |
| StoreSpec.AddThenOpen | store.go:14-28 | what a successful Add stored, Open returns under the digest that Add replied, with its labels and size, after any calls that do not touch the entry |
| StoreSpec.OutcomeIsSound | store.go:20-23 | after any history, what is stored under a digest has that digest |
| MemStore.MemStores.Add | mem.go:42-112 | answers and acts as the specification, for every digest argument, and keeps blobs shared, counted and in use |
| MemStore.MemStores.Look | mem.go:114-146 | Get and Open answer as the specification |
| MemStore.MemStores.Label | mem.go:148-165 | answers and acts as the specification |
| MemStore.MemStores.Erase | mem.go:167-186 | answers and acts as the specification, and drops a blob with its last entry |
| MemStore.MemStores.KeepsWhatIsUsed | mem.go:17-20 | the blobs in memory are exactly those of digests some store has, each counted by its entries |
| OsStore.OsStores.Add | os.go:68-221 | for a plain store id, answers and acts as the specification, with the labels as the labels file keeps them, also over directories left by a crash |
| OsStore.OsStores.MoveStageToRepo | os.go:232-248 | the loop moves the staged directory into place, over a leftover, before its attempts run out |
| OsStore.OsStores.OneLinkMeansUnused | os.go:368-394 | an exact count above one means exactly that some store still has the digest |
| OsStore.OsStores.TryCleanup | os.go:368-402 | changes at most the one shared name, and with exact counts keeps it only for a digest some store has |
| OsStore.OsStores.Look | os.go:250-271 | Get and Open answer as the specification, or fail exactly when the entry's labels file cannot be read |
| OsStore.OsStores.Label | os.go:273-330 | answers and acts as the specification, with the labels as the labels file keeps them; a directory without a blob does not exist |
| LabelWire.FileKeepsIffPlain | labels.go:29-41 | a labels file gives back its labels exactly if every key is a canonical header name with a value, and no value has control characters or a blank at an end |
| LabelWire.WriteLabels | labels.go:29-41 | in any iteration order, the file lists the values of every key that is a header name, trimmed, and no others |
| LabelWire.ReadLabels | labels.go:13-27 | reads every line under its canonical key, or fails exactly on a value with control characters |
| LabelWire.ScrubIsMiddle | labels.go:39-41 | of each value the file keeps all between its outer blanks, with spaces for line ends |
| OsStore.OsStores.Erase | os.go:347-365 | answers and acts as the specification, and with exact counts leaves no unused shared inode |
| OsStore.OsStores.EraseInterrupted | os.go:225-231 | an Erase that dies after unlinking the blob has erased the entry all the same |
| OsStore.OsStores.Perform | os.go:68-402 | for plain ids and labels that the file keeps, every call answers and acts exactly as the specification |
| S3Store.S3Stores.Add | s3.go:318-383 | answers and acts as the specification, with the labels as the marker keeps them; fails, with no marker written, exactly when the client refuses to send them; deletes nothing |
| S3Store.S3Stores.Look | s3.go:385-442 | Get and Open answer as the specification |
| S3Store.S3Stores.Label | s3.go:467-483 | answers and acts as the specification, with the labels as the marker keeps them; fails and changes nothing exactly when the client refuses to send them |
| S3Store.S3Stores.Erase | s3.go:485-513 | answers and acts as the specification, and removes exactly the store's marker |
| Backends.RunMem | README.md:43 | any sequence of calls, valid or not, gets the replies of the specification |
| Backends.RunOs | README.md:43 | the same for the file system, with exact or inexact link counts, for plain store ids and labels that the labels file keeps |
| Backends.RunS3 | README.md:43 | the same for S3, for labels that survive the headers, and any store ids |
| Backends.RunAll | README.md:43-52 | the three backends give equal replies to every such sequence with plain store ids and labels that survive the headers |
| Headers.CasedIsCanonical | s3.go:518-525 | a token is its own canonical header name exactly if each letter is upper case at the start and after a dash, and lower case elsewhere |
| Headers.FoldedNamesAgree | s3.go:537-542 | names that differ only in case have one canonical form |
| Headers.DecimalRoundTrip | s3.go:280 | a size written in decimal reads back as itself |
| Headers.DecimalGrows | s3.go:280 | a number is written digit by digit, the last digit last |
| S3Meta.SetLabelMeta | s3.go:518-525 | in any iteration order, the header holds under each canonical prefixed name the joined values of a key with that name, and nothing else |
| S3Meta.MarkerHeader | s3.go:273-280 | the marker's header gives back the size, even against a label of the reserved name, and labels as they may be stored; or the client refuses it, for a label that it cannot send |
| S3Meta.MetaToLabels | s3.go:529-549 | in any iteration order, returns exactly the labels under the prefix without the size, and the size |
| S3Meta.LabelsSurviveIffPortable | s3.go:515-549 | labels are sent and come back unchanged exactly if every key is a canonical header name and not reserved, and has one value, without control characters or a blank at an end |
| S3Keys.RefKeyIsInjective | s3.go:166-168 | a marker's key determines digest and store id, whatever characters the id has |
| S3Keys.BlobKeyIsInjective | s3.go:162-164 | a blob's key determines the digest |
| S3Keys.KindsAreDisjoint | s3.go:162-168 | no marker has the key of a blob |
| S3Keys.KeysOfParts | s3.go:162-168 | the keys of "algorithm:hex" are prefix + "blob/algorithm/hex" and prefix + "refs/algorithm/hex/id" |
| S3Keys.PrefixesAreApart | s3.go:162-168 | stores under prefixes that do not extend one another share no object |
| S3Keys.PlainRequestPath | s3.go:189-206 | a path of letters, digits, "-", "_", ".", "~" and slashes is sent as it is, with the bucket exactly in path style |
| S3Keys.PathNamesOneObject | s3.go:189-206 | for a fixed prefix, bucket and addressing style, the encoded request path determines which blob or marker is meant |
| Encoding.AwsUriEncode | sigv4.go:226-249 | the loop computes the byte-wise encoding, in both slash modes |
| Encoding.DecodeEncode | sigv4.go:226-249 | percent-decoding is a left inverse of it in both slash modes |
| Encoding.EncodedAlphabet | sigv4.go:221-225 | the result has only unreserved characters, percent signs, and slashes if they are left alone |
| Encoding.PlainStays | sigv4.go:226-240 | letters, digits and "-", "_", ".", "~" encode to themselves in both modes, and slashes too if they are to be left alone |
| Encoding.OthersAreEscaped | sigv4.go:241-246 | every other byte becomes a percent sign and its two upper-case hexadecimal digits |
| Encoding.EncodesPiecewise | sigv4.go:226-249 | the encoding of a concatenation is the concatenation of the encodings |
| CanonicalQuery.CanonicalQuery | s3.go:553-577 | returns a canonical form: the encoded pairs of the query, each as often as it occurs, ascending by key and then value in the order of bytes, and joined |
| CanonicalQuery.StrLeIsLex | s3.go:561-566 | the comparison is the lexicographic one: prefix, or smaller at the first byte that differs |
| CanonicalQuery.CanonicalIsText | s3.go:553-577 | a canonical form has only letters, digits, four marks, percent signs and the separators |
| CanonicalQuery.TwoKeys | s3.go:553-577 | a query of two plain keys reads "a=1&b=2", the smaller key first |
| CanonicalQuery.CanonicalIsUnique | s3.go:551-552 | a query has one canonical form, whatever order the map is visited in |
| CanonicalQuery.SortedIsUnique | s3.go:561-566 | two sorted arrangements of the same pairs are equal |
| CanonicalQuery.ParseRecovers | s3.go:567-576 | splitting and decoding the canonical form gives back exactly the pairs of the query, with multiplicity |
| CanonicalQuery.CanonicalDetermines | s3.go:553-577 | queries with one canonical form have the same keys and, key by key, the same values up to order |
| SignedHeaders.CanonicalValueIffFields | sigv4.go:217-219 | two header values have one canonical form exactly if they have the same fields |
| SignedHeaders.CanonicalValueKeepsFields | sigv4.go:214-219 | canonicalizing keeps the fields, and doing it again changes nothing |
| SignedHeaders.WordsAreCanonical | sigv4.go:214-219 | words with single spaces between them are canonical as they are |
| SignedHeaders.HeadersToSign | sigv4.go:85-96 | in any iteration order, collects the host and every header that is not excluded, once, ascending by lower-case name in the order of bytes |
| SignedHeaders.AllOthersAreSigned | sigv4.go:85-94 | the host and every header but the six excluded ones are in the list, with their values joined by commas |
| SignedHeaders.TheseAreNotSigned | sigv4.go:85-94 | the six excluded names are not |
| SignedHeaders.SignedIsUnique | sigv4.go:85-96 | there is one such list |
| SignedHeaders.CanonicalHeaders | sigv4.go:98-106 | the loop renders the list one line a header |
| SignedHeaders.TextGrows | sigv4.go:98-106 | each header adds its name, a colon, its canonical value and a line end |
| SignedHeaders.TextDetermines | sigv4.go:98-106 | the text determines every signed name and the fields of every signed value |
| SignedHeaders.RequestDetermines | sigv4.go:113-120 | the canonical request determines method, path, query, payload hash, every signed name and the fields of every signed value |
| CacheTap.BlobTap.Read | cache.go:100-111 | the caller gets the origin's bytes and errors; a tap copies what is taken and ends the copy with the reader's own end, or with the pipe's error if not all was taken, so a blob read to its end is in the sink with a clean end; tapping goes on exactly if all was taken and nothing ended |
| CacheTap.BlobTap.Seek | cache.go:113-121 | ends the tapping with an unexpected end and adds nothing to the sink |
| CacheTap.BlobTap.Close | cache.go:123-126 | ends the tapping with an unexpected end and adds nothing to the sink |
| CacheTap.BlobTap.Stop | cache.go:128-131 | closes the pipe with the first error only, and drops it |
| TapProtocol.TapIsSafe | cache.go:57-79 | for every sequence of reads, seeks and closes and every pace of the adder: the sink has a prefix of the origin, a clean end only after all of it, the caller reads the origin, and Primary is unchanged or holds exactly the origin's blob |
| TapProtocol.CachedIffEndedCleanly | cache.go:57-79 | in every run, once the adder has come to the end of the pipe, Primary has the origin's blob with its labels for good, if it had no such entry, exactly if that end was clean; and it is if the caller has read on without seeking, closing or a read error |
| TapProtocol.ReadToTheEndEndsThePipe | cache.go:100-111 | a caller that has so read to the end has ended the pipe cleanly, after all of the blob, when its Read returns, and the adder can come to that end |
| TapProtocol.ReadsFromWhereItSought | cache.go:113-121 | what the caller has read since a seek is the origin's blob from there |
| TapProtocol.BlockedReadReturns | cache.go:70-76 | while the caller is blocked in a read, somebody can go on, and after at most a fixed number of the adder's steps the read returns, also if the adder never drains the pipe |
| TapProtocol.AdderEndsAfterClose | cache.go:70-76 | once the pipe is closed the adder can step until it ends |
| TapProtocol.AdderStepsAreBounded | cache.go:70-76 | and it takes no more steps than a bound fixed at the close, whatever the caller does |
| HttpUrl.PathRoundTrip | http.go:242-247 | through the URL and its parser, a call reaches its own store and digest exactly if neither has a slash, "?", "#", "%" or a control character, and something names the store |
| HttpUrl.QueryIsCut | http.go:43-51 | whatever follows a question mark is lost, and the call acts on what is before it |
| HttpUrl.EscapedStore | http.go:43-49 | a call on the store "%41" acts on the store "A" |
| HttpUrl.TheseAreRefused | http.go:242-247 | a space behind a question mark, or a bad escape behind a "#", and the request reaches no store |
| HttpStore.EraseReachesBlob | http.go:331-342 | an Erase of a valid digest followed by a question mark, which is malformed, reaches the blob of that digest |
| LabelWire.AddAll | http.go:345-351 | in any iteration order, adds every value of every label under its canonical name, in order, and only that |
| HttpWire.ParseLabels | http.go:198-204 | takes exactly the headers under the label prefix |
| HttpWire.ParseMetaLabels | http.go:366-380 | takes exactly the headers that are not standard ones |
| HttpWire.LabelHeader | http.go:345-351 | a canonical label goes to the header "Flob-" and its name, and is shown under its name |
| HttpWire.RequestCarriesLabels | http.go:345-351 | labels reach the handler unchanged, with the order of their values, exactly if every key is a canonical token with a value, and no value has control characters or a blank at an end; otherwise the client refuses them or the handler sees others |
| HttpWire.ResponseShowsLabels | http.go:206-216 | labels reach the client unchanged exactly if, besides, no key is empty or a standard header |
| HttpReply.ReceivedIffUnharmed | http.go:206-216 | a response about a blob arrives without an error, with the stored content and size, exactly if its labels can be read, do not contradict the length, and declare no gzip encoding on a body that is read |
| HttpReply.ReceivedShows | http.go:366-380 | whenever it arrives, its digest is the blob's, and its labels are exactly if they are of the kind that responses show |
| HttpReply.HeadersTell | http.go:206-209 | the first ETag is the digest in double quotes, and the first Content-Length reads back as the size |
| HttpReply.GzipLabelHarms | http.go:212-216 | with a label "Content-Encoding: gzip", Open of a blob with content fails or reports no size |
| HttpReply.LengthLabelHarms | http.go:206-209 | with a label "Content-Length" that is not the blob's length, Get fails |
| HttpStore.Through | http.go:249-342 | every call whatever: one that cannot be sent or routed fails and changes nothing; any other acts on the store exactly as the call the handler sees, with the store's error for a valid digest, and in answers about a blob the store's digest, content, size and labels under the exact conditions above; a digest the handler refuses changes nothing, and only Add reports it as a store does |
| HttpStore.AddressedIff | http.go:242-247 | the call that the handler sees is the caller's own exactly for ids and digests that URLs carry |
| HttpStore.StatusesAre | http.go:65-176 | the status of each answer: 201, 200 and 422 for Add, 200 and 404 for reads, 204 and 404 for Label, 204 for Erase |
| HttpStore.ShownIsTransparent | http.go:278-342 | for a valid digest and labels that responses show, a caller of Get, Open, Label and Erase cannot tell the client from the store |
| BatchAdd.AtMostParallelInFlight | cmd/flob/cmd/op.go:155-163 | under every schedule at most the given number of Adds are in flight |
| BatchAdd.ResultsArePositional | cmd/flob/cmd/op.go:164-176 | each result is at the position of its file: the digest of its bytes, or the failure to read it |
| BatchAdd.OneSuccessPerNewDigest | cmd/flob/cmd/op.go:146-181 | under every schedule, a digest new to the store succeeds exactly once among the files that have it, and one already there never |
| BatchAdd.FilesAreStored | cmd/flob/cmd/op.go:164-176 | after every schedule, each file that could be read is in the store under its digest, byte for byte |
| BatchAdd.BatchProgresses | cmd/flob/cmd/op.go:157-178 | until all workers are done, the loop or a worker can go on |
| BatchAdd.AddOutcome | cmd/flob/cmd/op.go:114-139 | reports every failure, in order, if there is one; and "already exists" exactly if there are results and all of them existed |
| BatchAdd.FailuresInOrder | cmd/flob/cmd/op.go:116-128 | the failures of two batches are those of the first and then those of the second |
| BatchAdd.AlreadyExistsMeansNothingNew | cmd/flob/cmd/op.go:132-137 | so under every schedule the command says so exactly if there is a file, all are readable, and every digest was in the store from the start |

## Left out

- MemSafety.NoUnderflow: counts are unbounded above; a count past the largest unsigned integer would need as many stores.
- MemLinearizable.Linearizable: one digest at a time; a call concerns one digest, and linearizability composes over objects that share nothing.
- MemStore.MemStores.Add: the retry loop is in the protocol model; one call at a time it is never entered twice, which the method proves.
- MemLaws.GetAfterAdd: for runs in which no Label or Erase of the store runs beside it (`GetAfterLabel` and `GetAfterErase` have conditions alike); `MemLinearizable.Linearizable` is for all runs.
- OsSchedule.OrderlyNoLeak: one direction, since a crash, a failed call or a race of Erase with Add or Label may or may not leave the shared copy behind; the witness runs show that each of the two races can.
- OsAtomic.ReadsAreOfTheMap: for schedules in which no Erase runs beside other calls of its store; beside one, an Open may return a blob without its labels (`OsWitness.EraseTearsOpen`).
- OsStore.OsStores.Add: ids that are no plain path element, whose directories may be shared with or lie inside those of others; `OsPaths` says exactly when.
- OsStore.OsStores.Look: a labels file is its lines; the syntax of a line is the Go library's.
- S3Meta.MetaToLabels: sizes are unbounded integers, and the overflow error of the decimal parser is not modelled.
- HttpStore.Through: the size that Add reports is not compared, because the handler removes the length header; nothing is said of responses whose labels are named Transfer-Encoding or Trailer, which steer the transfer itself; the host of the URL has no path, and nothing rewrites paths before the handler.
- Presigned redirects of the handler, and the query that presigning builds beyond its canonical form.
- The temporary file an Add of the file-system or S3 backend hashes into, and directory creation and permissions.
- Contexts and their cancellation, sockets, TLS, and the lock file's polling.
- The bytes of SHA-256 and HMAC, dates, and the signature value.
- Header values outside ASCII, and the metadata size limit of S3.
- The one-branch decorators of `util.go`, and the reads of CacheStore that fall back to Origin.
- Configuration, telemetry and command-line parsing.
