# transfs: causal claims, checkpoints and chunked content in Dafny

transfs is a content-addressed archive. Documents are sets of claims that refer to earlier claims by hash and are kept
in append-only logs. Copies of a store publish checkpoints of their logs to passive remotes, and large files are stored
as shared chunks under Merkle lists. This project models those four parts and proves what they promise:

| files | source | what is proved |
|---|---|---|
| `Order`, `Bytes`, `Tags`, `Claims` | `src/causal.rs`, `src/document.rs` | the normal form of a claim and an injective identity encoding |
| `CausalGraph`, `Fold`, `Convergence`, `Document` | `src/causal.rs`, `src/document.rs` | the worklist fold succeeds exactly on acyclic, legal sets; replicas converge |
| `Library`, `Log` | `src/library.rs`, `src/log.rs` | edits from stale snapshots keep the log foldable; appends cut at any byte |
| `RefFrame`, `Slots`, `WriteOnce` | `src/remote.rs` | ref frames; the write-once path over all interleavings and crashes |
| `Merkle`, `Replica`, `ReplicaSafety`, `ReplicaTheorems` | `src/replica.rs`, `src/writer.rs` | the checkpoint protocol over all runs |
| `CopiedStores`, `SoleStore`, `Publisher`, `WriterFile` | `src/replica.rs`, `src/writer.rs` | copies of one store; a store alone with its writer ID; the program text of `publish` |
| `LegacyState`, `LegacyRun`, `Recovery` | `src/replica.rs`, `src/writer.rs` | publish state in the old format; recovery |
| `Chunker`, `ChunkList`, `ObjectStore`, `ContentStore` | `src/chunker.rs`, `src/objects.rs`, `src/content.rs` | packs, ranged reads, storing files beside other processes and through crashes, what checking a record means |
| `Leaves`, `Ulid` | `src/mount.rs`, `src/writer.rs` | the label-growing loop; minted identifiers |

`dafny verify dfyconfig.toml` checks the whole project.

## How the source is modelled

Loops that change maps, sets and vectors are methods with loops; objects that change their fields are classes
(`Convergence.ClaimSet`, `Log.LogFile`, `Publisher.Session`, `WriterFile.WriterRecord`, `ObjectStore.Objects`,
`ContentStore.Store`, `Chunker.Source`). Each is proved against a specification function or predicate, and the theorems
are about that specification. The checkpoint protocol and the write-once path are transition systems whose steps are
single durable file operations; `Publisher.Session.Publish` is the program text of `publish`, proved to be a path of the
transition system however it ends.

A definition that theorems are stated through has a lemma of its own that says what it means on the claims' fields, the
text, the bytes or the slots: the members named `…Means` and `…Are`, such as `Fold.FoldableMeans`, `Fold.StateMeans`,
`Document.ConflictMeans`, `Log.ReadMeans`, `Replica.LatestRefMeans` and `Replica.BlobsAreTheVersions`.

Assumptions, each stated where it is used:

- SHA-256 is never assumed injective on strings. A claim's ID is `idOf(c)` for an arbitrary function, and a collision is
  a refused insertion, as in the source. `Claims.IdentifyInjective` is about the bytes that are hashed. `WriteOnce`
  assumes only that the callers of one path have no digest collision among them. Merkle objects, packs and refs stand
  for their own identities.
- `Replica.Env.minted` holds every claim minted in a run, so two stores never hold different claims under one ID. A fork
  takes a writer ID that no store has.
- merkle-champ maps and sequences are given by round-trip contracts (`Replica.Lossless`, `ChunkList.LegalFormat`),
  FastCDC by length bounds (`Chunker.LegalCutter`), JSON lines by a codec without newlines (`Log.FaithfulJson`). That a
  store alone with its writer ID always settles also needs `SoleStore.RootsStandAlone`: the root of one ledger is no inner
  node of another. `merkle_champ::pack::encode_members` refuses members that its roots do not reach, as src/pack.rs
  (line 7) says of `encode`.
- Renames and hard links are atomic, and stored bytes are not damaged, except where a property is about damage.
- Clocks, nonces, random bytes and interruptions are arbitrary inputs.

## What the proofs found

- `publish` can leave a ref without its pack when a store still carries format-1 publish state with a pending ref:
  `WriterState::remote` moves the whole state to the remote whose tip is the *last* ref, and re-sends the pending ref
  there, although its pack was uploaded elsewhere. A call that moves old state keeps every complete ref whole, on every
  course, exactly when nothing is pending, or the tip is the pending ref, or the remote has what the pending ref needs, or
  the slot after the tip is taken (`LegacyState.MoveLosesIff`). `LegacyRun.CarelessMoveLosesPack` is a run from empty
  remotes to such a call, after which that remote cannot be recovered. docs/storage-protocol.md (line 137) says a ref
  cannot come to point to missing objects; the model follows the code. The safety theorems hold for every run whose
  moves are careful in this sense, and so for every run without old state.
- A crash inside the first append of a new document leaves a file that loads as a document exactly when the create record
  is whole, and that takes further claims exactly when the cut is at the end of a record (`Log.CrashedAddLoads`). Any
  shorter file, an empty one too, neither loads nor accepts its create claim again (`Log.EmptyLogIsStuck`).
- `Content::read` checks chunked content against its hash, but returns a whole blob as it is; its comment promises the
  check for both. What it returns has the hash that was asked for exactly when there is no blob of that name or the blob
  has it (`ContentStore.Store.Read`); `ContentStore.ReadDamaged` reads a blob that has not.
- `put_file` looks for the chunks first and for the list nodes later, without the store lock that
  docs/chunked-storage.md (line 122) names. A pack of another process in between can make it fail: what it found missing
  is refused as a pack exactly when one of the objects, the root aside, has no parent among them
  (`ContentStore.Store.PutFile`). With the nodes looked for at once, that is a chunk found missing earlier which has
  arrived with all the nodes that name it (`ContentStore.RefusedIff`). `ContentStore.OvertakenPutIsRefused` is the input:
  another process stores the same file and has not recorded it yet. The call fails, nothing is lost, and without arrivals
  it never fails (`ContentStore.AloneIsNeverRefused`).
- `leaves` may give two leaves one label when a current name contains `~`: `Leaves.TildeNamesCollide` gives rows for any
  two documents with 64-digit IDs. All labels differ whenever no two leaves have the same label with whole suffixes
  (`Leaves.WholeLabelsSettle`), which holds in particular when no name contains `~` and no ID a dot
  (`Leaves.CleanWholeLabelsDiffer`, `Leaves.DottedIdsCollide`). The converse fails: the loop stops as soon as shorter
  suffixes tell the leaves apart (`Leaves.EqualWholeLabelsMaySettle`).
- Without hard links, a crash between creating a ref's reservation and completing its marker ends the writer's chain: no
  step of any store ever publishes in that slot or after it (`ReplicaTheorems.TornSlotStops`), until somebody removes the
  file by hand as docs/storage-protocol.md (line 57) asks.
- `decode_ref` gives back what `encode_ref` framed exactly when the frame's length fits in 64 bits
  (`RefFrame.FrameRoundTrip`).

## Model

| member | source | states |
|---|---|---|
| Tags.NormalizeIdempotent | src/document.rs:101-107 | normalizing a tag path twice changes nothing more |
| Tags.NormalizePlain | src/document.rs:101-107 | text without `/` and `=` is its own path form |
| Tags.NormalizeCuts | src/document.rs:101-107 | `=` and `/` both cut a tag into parts, and empty parts are dropped |
| Tags.DescendantMeans | src/causal.rs:584-586 | a path is below another exactly when it begins with that one and a slash |
| Tags.CheckedMeansPath | src/causal.rs:572-582 | the checked form leaves a path alone exactly when it is nonempty parts between single slashes, free of `=`, NUL and dot names |
| Tags.CheckedMeans | src/causal.rs:572-582 | the checked form is the path form, refused exactly when that is no path |
| Tags.CheckedExtend | src/causal.rs:572-582 | `key/value` is a legal path exactly when key and value each are |
| Claims.NormalMeansWellFormed | src/causal.rs:314-388 | a claim needs no normalizing exactly when every field is legal, its tags are paths, its scope is a strict ancestor and its references ascend without repeats |
| Claims.NormalizedIsNormal | src/causal.rs:314-388 | normalization is idempotent |
| Claims.NormalizedKeepsMeaning | src/causal.rs:314-388 | normalization changes only the spelling of tag paths and the order and repetition of references |
| Claims.NormalizedIgnoresReferenceOrder | src/causal.rs:563-570 | references that have the same members normalize to the same claim, or fail alike |
| Order.LessMeans | src/causal.rs:563-570 | IDs sort by their first difference, and a prefix before what it begins |
| Claims.IdentifyInjective | src/causal.rs:79-174 | two normal claims with equal identity bytes are equal |
| Claims.IdentifyFollowsTheTable | src/causal.rs:79-174 | the identity bytes are the documented tag, kind code and fields in order, each encoded as the table says |
| Bytes.Utf8CharMeans | src/causal.rs:79-155 | characters are encoded in the shortest form of RFC 3629, section 3, and the form gives the character |
| Bytes.Utf8Injective | src/causal.rs:79-155 | text fields can be read back from their bytes |
| CausalGraph.TopologicalMeansAcyclic | src/causal.rs:466-485 | an order that puts parents first rules out every cycle |
| CausalGraph.StuckMeansCycle | src/causal.rs:466-485 | a nonempty set of claims that all wait for one another contains a real cycle |
| CausalGraph.LegalMeansInField | src/causal.rs:525-547 | a legal reference stays in its field: versions to versions, names to names, a scoped tag to tags at or under its key, an unscoped one to its path or those above it, a removal to its own path |
| Fold.IndexReferences | src/causal.rs:452-465 | fails exactly when a reference is missing or illegal; otherwise counts and files every reference |
| Fold.Release | src/causal.rs:473-481 | visiting a claim lowers its children's counts and frees exactly those that reach zero |
| Fold.Sort | src/causal.rs:466-485 | the worklist visits every claim exactly when the graph has no cycle |
| Fold.Frontiers | src/causal.rs:487-521 | the frontiers are the untargeted names, tag assertions and versions, in ID order |
| Fold.FoldClaims | src/causal.rs:444-523 | folding succeeds exactly on sets of one document whose references are present, in their field and acyclic; its value is the frontiers; a failure names a fault that is there |
| Fold.FoldableMeans | src/causal.rs:444-547 | foldable, in terms of the claims alone: one owner, every reference to a claim of the set in the field it may point to, and no cycle of references |
| Fold.StateMeans | src/causal.rs:487-521 | the folded state lists, with their fields and in ID order, exactly the names, tag assertions and heads that no claim points at, and all versions |
| Fold.TakenOutInField | src/causal.rs:525-547 | in a set that folds, an assertion is current unless a scoped one whose key it is at or under, an unscoped one whose path it is or is above, or a removal of its own path points at it |
| Fold.FoldOutcomes | src/causal.rs:444-485 | a set is foldable exactly when no error applies to it |
| Convergence.ClaimSet.InsertClaim | src/causal.rs:419-430 | a claim is filed under its ID, repeats are harmless, and a failure changes nothing |
| Convergence.ClaimSet.InsertSequence | src/causal.rs:411-417 | inserting claims in turn stops at the first failure |
| Convergence.ClaimSet.Merge | src/causal.rs:432-438 | union copies one set and inserts the other's claims |
| Convergence.InsertAllSucceedsIff | src/causal.rs:411-430 | a delivery succeeds exactly when every claim is legal and no ID is taken by a different claim |
| Convergence.DeliveryOrderIsIrrelevant | src/causal.rs:411-430 | any order and any repetition of a delivery gives the same set, or fails alike |
| Convergence.UnionIsMapUnion | src/causal.rs:432-438 | union succeeds exactly when shared IDs agree, and then is the union of the maps |
| Convergence.UnionLaws | src/causal.rs:432-438 | union is idempotent and commutative |
| Convergence.UnionAssociative | src/causal.rs:432-438 | union is associative, failures included |
| Convergence.UnionFoldable | src/causal.rs:432-485 | the union of two foldable agreeing sets is foldable exactly when both are of one document |
| Convergence.FrontiersOfUnion | src/causal.rs:487-521 | a head, name or tag of A survives in the union exactly when no claim of B targets it, and nothing else appears |
| Convergence.VersionsReachHeads | src/causal.rs:487-521 | every version is reached from some head by a walk of references |
| Convergence.NamesReachCurrent | src/causal.rs:487-521 | every name claim is reached from some current name |
| Convergence.FrontiersAreNotEmpty | src/causal.rs:487-521 | a document has heads exactly when it has versions, and current names exactly when it has name claims |
| Document.ProjectedTagsAreTheLeaves | src/causal.rs:214-224 | the projection keeps exactly deepest paths: each assertion is covered, and none shown is an ancestor of another |
| Document.PairConflictSymmetric | src/causal.rs:226-258 | whether two assertions conflict does not depend on their order |
| Document.ConflictMeans | src/causal.rs:226-258 | a key conflicts exactly when two assertions were both set with it, or one was and the other with a key below it while neither value is or extends the other |
| Document.TagConflictKeys | src/causal.rs:226-258 | the nested loops report a key exactly when two assertions were both set with it, or one was and the other with a key below it while neither value is or extends the other |
| Document.SetMultiValueKeys | src/causal.rs:262-277 | reports exactly the keys that were set and show more than one value |
| Document.Creates | src/document.rs:59-64 | collects exactly the create claims |
| Document.FoldSet | src/document.rs:45-87 | after insertion, a document folds exactly when it is one foldable set with one create claim, its own |
| Document.FoldDocument | src/document.rs:45-87 | a log loads exactly when it starts with its create claim, is bound to its document and makes a foldable set; the result is the folded state with its one name, creation time, shown tags, conflict keys and keys with several values |
| Document.UnionOfDocuments | src/causal.rs:432-485 | agreeing replicas of a document merge into that document |
| Library.RenameObserves | src/library.rs:170-181 | a rename from any snapshot refers only to what that snapshot showed |
| Library.VersionObserves | src/library.rs:126-164 | so does a new version, whatever heads were named |
| Library.SetObserves | src/library.rs:238-270 | so does `set` |
| Library.TagObserves | src/library.rs:187-232 | so does every claim of `tag` |
| Library.AppendBatch | src/library.rs:41-44 | such claims keep a newer log foldable, drop nothing from it, and target exactly what they mention |
| Library.EditLoadsIff | src/library.rs:41-44 | an edit from a stale snapshot is refused only for an illegal field or an ID collision |
| Library.UnseenSurvives | src/library.rs:41-44 | no edit takes out a name, tag or head its snapshot had not seen |
| Library.RenameSettlesName | src/library.rs:170-181 | after a rename from an up-to-date snapshot the new name is the only one |
| Library.VersionJoinsHeads | src/library.rs:126-164 | one head is left exactly when the version names every head; the heads are the new version and those not named, and its parents are the versions the prefixes stand for |
| Library.VersionParents | src/library.rs:126-164 | the parents a version is recorded with are those its prefixes stand for, one for each |
| Library.SetLeavesOneAssertion | src/library.rs:238-270 | `set` leaves exactly its own assertion at or under the key |
| Library.SetClearsConflict | src/library.rs:238-270 | `set` takes its key out of the conflict keys |
| Library.TwoSetsDispute | src/library.rs:238-270 | two replicas that set one key from the same snapshot merge into a document in which that key is a conflict key |
| Library.EditsRefused | src/library.rs:126-270 | a key or value without a path form, no parent, and a prefix that fits no version or several are refused; nothing else is |
| Library.TagTakesOutObserved | src/library.rs:187-232 | `tag` takes out exactly the assertions its snapshot showed of the paths given to delete, or at or above those given to add, and no name or head |
| Library.TagAddsPaths | src/library.rs:187-232 | every path given to add that has a path form is newly current without scope, and nothing else is filed but removals of the paths given to delete |
| Library.NormalizedPathsAre | src/library.rs:321-327 | the paths of an edit are the path forms of all arguments that have one, each once |
| Library.ResolveFinds | src/library.rs:126-150 | parent prefixes resolve exactly when each fits one version, and then to those versions |
| Library.SnapshotVersionsDiffer | src/causal.rs:487-521 | a snapshot shows each version once |
| Library.AddShowsFile | src/library.rs:50-80 | a new document has the one name and the one version it was added with, and no tags |
| Library.EditPrefixLoads | src/library.rs:41-44 | every prefix of an accepted edit leaves a log that loads |
| Library.AddPrefixLoads | src/library.rs:50-80 | a new document's log loads from its create claim on, and not before |
| Log.LogFile.ReadLog | src/log.rs:115-180 | the line loop computes the claims and torn tail of the file's bytes |
| Log.FileIsLines | src/log.rs:115-180 | every file is whole lines, each with its newline, and a tail without one |
| Log.ReadMeans | src/log.rs:115-180 | what any file reads as, by its lines and tail: the claims of the lines, and a tail after the first line as torn; or corruption at the first line that does not parse, a tail alone included |
| Log.DamagedLineIsReported | src/log.rs:161-178 | a damaged line with its newline is corruption at its number, whatever records precede and whatever follows |
| Log.TornTailMeans | src/log.rs:150-178 | a torn tail is reported exactly for a readable file of more than one line that does not end in a newline, at its last line |
| Log.LogFile.Append | src/log.rs:66-113 | an append is refused exactly when the result would not fold or the log is torn; otherwise the file grows by the records, or by a prefix of them in a crash |
| Log.LogFile.EncodeAll | src/log.rs:92-96 | the bytes of an append are one line per claim in canonical form |
| Log.RecordsRead | src/log.rs:115-180 | records read back as the claims written |
| Log.CutAppend | src/log.rs:115-180 | an append cut at any byte reads as the old claims and the whole records, with a torn tail exactly when the cut is inside a record or just before its newline |
| Log.CrashedEditLoads | src/log.rs:66-180 | after such a cut of an edit the log still reads and loads as a document |
| Log.CrashedAddLoads | src/log.rs:66-180 | a new document's append, cut anywhere, loads exactly when the create record is whole, and takes further claims exactly at the end of a record |
| Log.EmptyLogIsStuck | src/log.rs:66-113 | an empty log file can neither be read as a document nor appended to |
| RefFrame.FrameRoundTrip | src/remote.rs:524-571 | decoding undoes encoding exactly when the frame's length fits in 64 bits, and encoding fails exactly when the length of the bytes does not |
| RefFrame.FramePrefixIncomplete | src/remote.rs:535-571 | every strict prefix of a frame decodes to nothing |
| RefFrame.ReservationIncomplete | src/remote.rs:517-522 | a reservation and each of its prefixes decode to nothing |
| RefFrame.PrefixesAre | src/remote.rs:17-18 | the frame and reservation prefixes, byte by byte |
| RefFrame.DecodedIsFramed | src/remote.rs:535-571 | what decodes is a whole frame or a plain file of those bytes |
| RefFrame.PlainRoundTrip | src/remote.rs:535-571 | an unframed ref decodes to itself |
| WriteOnce.StepKeepsInv | src/remote.rs:407-515 | every file operation and crash of any caller keeps the path committed to one publication |
| WriteOnce.StepRefinesSlot | src/remote.rs:407-515 | every file operation is no step or one step of the slot the protocol uses: empty, torn, reserved, complete |
| WriteOnce.ValueIsSlot | src/remote.rs:198-239 | the decoded value of the path is the slot's value exactly when it is complete |
| WriteOnce.ValueNeverChanges | src/remote.rs:454-515 | over every run, once a value is decoded it never changes |
| WriteOnce.WinnersAgree | src/remote.rs:454-515 | a caller that returned true passed the value the path has from then on |
| WriteOnce.LosersLostToOthers | src/remote.rs:472-482 | a caller without hard links returns false only when the path is not its own reservation; if the value is its own bytes, they were linked there unframed |
| WriteOnce.LinkersLoseToOthers | src/remote.rs:454-470 | a caller with hard links returns false only when the path holds something else than its own bytes |
| WriteOnce.AloneCallerWins | src/remote.rs:454-515 | a caller that finds the path free and is not interfered with is told that it published, with and without hard links |
| WriteOnce.PlacedStays | src/remote.rs:407-515 | no operation of any caller touches a whole file, and one whose frame is in place writes no more |
| WriteOnce.FilesAreWritten | src/remote.rs:454-515 | over every run a whole file is the plain bytes of a caller with hard links or the frame of one without |
| WriteOnce.CallEnds | src/remote.rs:454-515 | a caller that has not returned always has a next operation, and each brings it closer to its answer |
| WriteOnce.StepIsClaim | src/remote.rs:407-515 | every file operation of a caller is invisible to the checkpoint protocol, or exactly a slot move that the caller's stage allows it there |
| Merkle.NewObjectsAreRooted | src/content.rs:366-390 | the objects a closed store lacks are reached from their root inside the pack, which holds the root unless it is empty |
| Replica.BlobsAreTheVersions | src/replica.rs:337-365 | the blobs of a ledger are the content hashes of all its versions |
| Replica.LatestRefMeans | src/replica.rs:385-421 | on any remote: the chain reads exactly when refs from 1 up each name the one below and keep its packs, and at the most one more file is there, above them and not whole; the tip is the top |
| Replica.ReconcileMeans | src/replica.rs:197-245 | a pending ref is sent again exactly by the writer it was made by, after the ref it was made after, while that is the tip; taken over exactly when it is the tip; refused otherwise |
| Replica.CaptureMeans | src/replica.rs:97-116 | a publish goes on exactly when the tip is the last ref, its packs and nodes are on the remote and its documents and claims are all here |
| ReplicaSafety.LatestRefFindsTip | src/replica.rs:385-421 | on every reachable remote the chain reads without error and ends at the highest complete ref |
| ReplicaSafety.ChainHasNoGaps | src/replica.rs:385-421 | below any used slot every slot is complete |
| ReplicaSafety.NextRefIsGood | src/replica.rs:139-167 | the next ref extends its predecessor's packs, ledger and closure |
| ReplicaSafety.PackIsAlwaysWritable | src/replica.rs:139-151 | the new-nodes pack is always rooted at the ledger's root |
| ReplicaSafety.AdoptOk | src/writer.rs:95-108 | a careful move of old state fits the remote it moves to |
| ReplicaSafety.PublishStepKeeps | src/replica.rs:73-245 | every durable step of a publish keeps the remote and the store sound |
| ReplicaSafety.NextKeepsInv | src/replica.rs:57-245 | so does every step of the world: edits, copies, forks, crashes, publishes |
| ReplicaSafety.RunKeepsInv | src/replica.rs:57-245 | over every run of stores and remotes, every complete ref has its packs, its blobs and its predecessors, and every store's state and publish in progress fit them |
| ReplicaSafety.PublishedIsWhole | src/replica.rs:57-245 | over every run, every node of a complete ref's ledger is in a pack on the remote, and the content of every version in it is there |
| ReplicaSafety.PublishEnds | src/replica.rs:73-245 | over every run, a publish under way always has a next step, whatever others did, and each step brings it closer to its end |
| ReplicaSafety.ContentIsHeld | src/replica.rs:118-124 | over every run, whatever content is on a remote is held by some store |
| ReplicaSafety.PacksAreDisjoint | src/replica.rs:139-151 | no node is in two packs of a chain |
| ReplicaSafety.PacksHoldLedgers | src/replica.rs:139-151 | the packs of a ref hold exactly the nodes of its ledger and of those before it |
| ReplicaTheorems.ChainGrows | src/replica.rs:385-421 | along a chain, pack lists only extend and ledgers only grow |
| ReplicaTheorems.ChainIsSound | src/replica.rs:385-421 | a chain is numbered from 1 without gaps, each ref links the one before, and only the end can be incomplete |
| ReplicaTheorems.PublishedForever | src/remote.rs:454-515 | a published ref stays published over every run |
| ReplicaTheorems.TornSlotStops | src/remote.rs:454-515 | over every run, a reservation torn by a crash stays torn, and no ref is published in its slot or after it |
| ReplicaTheorems.CaptureProceeds | src/replica.rs:97-113 | when the last ref is the tip, the prior ledger loads and its claims are all present |
| ReplicaTheorems.UploadProceeds | src/replica.rs:118-124 | every blob the ledger names is in the store that publishes it |
| CopiedStores.OvertakenIffTip | src/replica.rs:86-117 | being overtaken, as the slots after a state's last ref tell, is that the tip is neither its last nor its pending ref, for stores that never published here too |
| CopiedStores.OvertakenAddsNothing | src/replica.rs:73-245 | at whatever stage of a publish, an overtaken copy adds no ref, and stays overtaken whatever anyone does, until it forks, falls back to old state or has the tip itself pending |
| CopiedStores.OvertakenUntilFork | src/replica.rs:57-245 | so over a whole run, with everyone's steps interleaved, none of its steps adds a ref |
| SoleStore.PackIsNew | src/replica.rs:139-151 | the new pack is empty exactly when the prior packs hold the ledger's root |
| SoleStore.ChangedLedgerHasNewRoot | src/replica.rs:126-151 | a ledger that grew from the tip's either is the tip's or has a root that none of the writer's packs holds, older checkpoints' included |
| SoleStore.SoloCrash | src/replica.rs:73-193 | a crash at any step of a publish leaves the store sound, alone, and consistent with the tip up to its pending ref |
| SoleStore.SoleStaysSolo | src/replica.rs:57-245 | over every run, from the moment its writer ID is minted, a store that no copy was made of is alone: edits, crashes, publishes elsewhere and other writers' steps interleaved |
| SoleStore.PublishSettles | src/replica.rs:73-245 | over every such run, each call of `publish` that is not cut off settles, whatever crashes came before and whoever is at work meanwhile: the last ref is the tip and holds exactly the logs, nothing is pending, and a ref that was pending is published |
| LegacyState.MoveFitsIff | src/writer.rs:95-108 | moved state fits its remote exactly when the move is careful |
| LegacyState.MoveLosesIff | src/replica.rs:73-245 | a call that moves old state leaves every complete ref its packs and blobs, on every course and wherever it stops, exactly when the move is careful or the slot after the tip is taken |
| LegacyState.MovesOnce | src/writer.rs:95-108 | over every run, careful or not, through saves and crashes, old state stays as it is until one step saves it under one remote |
| LegacyRun.CarelessMoveLosesPack | src/replica.rs:73-335 | a run from empty remotes to a call that sends a pending ref to a remote without its pack, which then cannot be recovered |
| Recovery.ReadLatestRef | src/replica.rs:385-421 | the chain loop computes the specified tip or rejects the chain |
| Recovery.ListWriters | src/remote.rs:169-196 | writer directories are refused exactly when two of them differ only by case |
| Recovery.UppercaseMeans | src/remote.rs:169-196 | two names have one uppercase form exactly when they are the same letter by letter but for the case of ASCII letters |
| Recovery.CollectTips | src/replica.rs:255-265 | recovery reads exactly the tips of all writers, or fails |
| Recovery.MergeClaims | src/replica.rs:273-291 | merging fails exactly on a claim that is not canonical, is misfiled or contradicts another |
| Recovery.MergeLedger | src/replica.rs:267-293 | merging ledgers merges each document |
| Recovery.FoldOne | src/replica.rs:294-317 | a recovered document is accepted exactly when it folds under its ID |
| Recovery.TipsHoldEverything | src/replica.rs:248-293 | the union of the tips' ledgers is the union of everything any writer ever published |
| Recovery.Recover | src/replica.rs:248-335 | on any remote recovery succeeds exactly when there is a ledger that is the union of the tips', with every chain reading, every pack and node and blob there, hex IDs and every document folding, and returns it with the hashes of its versions; on every reachable remote, exactly when some ref is complete and no writer IDs differ only by case, with exactly the published claims |
| Recovery.RecoveredStoreFits | src/replica.rs:248-335 | a recovered store can publish: its ledger is sound |
| Recovery.PublishThenRecover | src/replica.rs:73-335 | after a publish by the only writer, recovery gives back the same documents with the same states |
| Recovery.RecoveredIsTheUnion | src/replica.rs:248-335 | with any number of writers, recovery gives exactly the claims that some writer published |
| Recovery.OwnDocumentComesBack | src/replica.rs:73-335 | a published document comes back equal exactly when no other store has published more of it |
| Publisher.Session.PublishRef | src/replica.rs:178-182 | claiming a slot follows the protocol's steps through crashes between file operations; on a free slot, or one this store reserved, it succeeds with and without hard links |
| Publisher.Session.ClaimSlot | src/remote.rs:454-515 | the file operations of one claim are steps of the protocol, with and without hard links |
| Publisher.Session.NamedContent | src/replica.rs:337-365 | collects the content of every version, log by log and claim by claim |
| Publisher.Session.SendBlob | src/replica.rs:118-124 | sends one blob, or stops when it is missing here |
| Publisher.Session.ReconcilePending | src/replica.rs:197-245 | adopts or re-sends the pending ref along the protocol's steps; refuses, writing nothing, one of another writer, after another ref, or with the tip elsewhere |
| Publisher.Session.UploadBlobs | src/replica.rs:118-124 | uploads blob by blob until none is missing |
| Publisher.Session.SendLedger | src/replica.rs:126-193 | packs, saves the pending ref, claims it and records it, or stops quietly when nothing changed |
| Publisher.Session.SendRef | src/replica.rs:160-193 | saves the pending ref, claims it and records it |
| Publisher.Session.CaptureAndSend | src/replica.rs:97-193 | with nothing pending, refuses and writes nothing unless the tip is the last ref, loads and has all its claims here; otherwise sends |
| Publisher.Session.Publish | src/replica.rs:73-193 | every call, however it ends, is a path of the protocol; done means that the last ref is published, holds exactly the logs, extends the tip it read, has every version's content on the remote and has nothing pending; a store alone with its writer ID never fails, and is done and settled when no crash comes before it has made as many file operations as there are blobs, four, and those of two claims |
| Publisher.PathKeeps | src/replica.rs:73-193 | wherever such a path stops, remote and store are sound, old state that moves carefully included |
| Publisher.SoloWorldIsAlone | src/replica.rs:73-193 | wherever a run leaves a store alone with its writer ID, its next call starts as `Publish` requires of it |
| WriterFile.WriterRecord.ForkWriter | src/writer.rs:85-90 | a fork takes a fresh valid ID and forgets every remote, or fails leaving everything |
| WriterFile.WriterRecord.RemoteState | src/writer.rs:95-108 | reads a remote's state, moving old state there when the tip proves it |
| WriterFile.WriterRecord.SetRemoteState | src/writer.rs:110-112 | replaces one remote's state and no other |
| Chunker.PagedIsFaithful | src/chunker.rs:38-50 | pages concatenate to the file, number `ceil(length/page)`, and are full but for the last |
| Chunker.ChunkCountIsBounded | src/content.rs:251-263 | no cutting has more chunks than the check allows |
| Chunker.BoundIsReached | src/content.rs:251-263 | pages always have exactly that many chunks, and so has a cutting into shortest chunks unless it comes out even |
| Chunker.ReadFull | src/chunker.rs:61-72 | fills the buffer unless the source ends, through short reads and interruptions |
| Chunker.ReadPages | src/chunker.rs:38-50 | the page loop yields exactly the pages of the data |
| ChunkList.LocateFinds | src/content.rs:217-221 | locating an offset finds the chunk that holds it, and fails only past the end |
| ChunkList.PrefixStep | src/content.rs:221-234 | consecutive prefix sums bound each chunk's stretch of the content |
| ChunkList.SliceMeans | src/content.rs:200-236 | a slice is the bytes from the offset on, as many as were asked for and are left |
| ObjectStore.Objects.AddIndex | src/objects.rs:103-124 | indexing a pack keeps earlier locations and adds the pack's |
| ObjectStore.Objects.Refresh | src/objects.rs:75-94 | after a refresh exactly the packs on disk are known |
| ObjectStore.Objects.Contains | src/objects.rs:126-137 | finds an object exactly when some pack on disk holds it, also one written by another process |
| ObjectStore.Objects.PackOf | src/objects.rs:140-144 | names a pack that holds the object |
| ObjectStore.Objects.NonBlobs | src/objects.rs:191-219 | gives exactly the list nodes of the named packs, or fails when one is missing |
| ObjectStore.Objects.WritePack | src/objects.rs:222-254 | writes a pack exactly when its root reaches every member inside it |
| Merkle.RootedMeansParents | src/objects.rs:222-229 | objects of one tree form a rooted pack exactly when each but the root has a parent among them |
| ContentStore.CompletedStays | src/content.rs:366-390 | storing objects that complete a list keeps the store closed |
| ContentStore.AloneIsNeverRefused | src/content.rs:324-390 | without arrivals from other processes a call is never refused and means to write exactly the missing objects |
| ContentStore.RefusedIff | src/content.rs:340-390 | with the nodes looked for at once, a call is refused exactly when a chunk found missing has arrived with all the nodes that name it |
| ContentStore.OvertakenPutIsRefused | src/content.rs:324-390 | the failing input, for every nonempty file: another process stores the same file between the passes |
| ContentStore.NewRepOk | src/content.rs:392-411 | the record `put_file` writes is sound and spells the file |
| ContentStore.PieceCovers | src/content.rs:223-234 | the part taken of each chunk extends the covered range without gap or overlap |
| ContentStore.Store.Remember | src/content.rs:106-114 | the cache holds each list once, the newest last, and drops only when full |
| ContentStore.Store.List | src/content.rs:300-320 | gives the list of the record's root, and never fails on a sound record |
| ContentStore.Store.Chunk | src/content.rs:282-297 | gives a stored blob of the right length and nothing else |
| ContentStore.Store.Read | src/content.rs:180-197 | chunked content matches its hash and length; what is returned has the hash asked for exactly when there is no whole blob or the blob has it; on an undamaged store it is exactly what is held |
| ContentStore.ReadDamaged | src/content.rs:180-183 | a damaged blob is returned without an error |
| ContentStore.Store.ReadAt | src/content.rs:200-236 | a ranged read is the slice of the whole, for all offsets and lengths, from blobs and chunks alike |
| ContentStore.Store.VerifyChunked | src/content.rs:241-274 | passing means packs, list, bounds, chunks and (deep) the hash are right; every record of an undamaged store passes |
| ContentStore.Store.CollectChunks | src/content.rs:340-360 | collects every chunk's reference, and once each chunk not stored when it came to it, while other processes store packs |
| ContentStore.Store.CollectNodes | src/content.rs:366-374 | collects each list node not stored when it came to it, while other processes store packs |
| ContentStore.Store.WriteMissing | src/content.rs:366-390 | adds one pack of exactly the collected objects under the list, or none if there are none; refuses exactly when one of them, the root aside, has no parent among them |
| ContentStore.Store.WriteRecord | src/content.rs:392-414 | adds one sound record that spells the file |
| ContentStore.Store.PutFile | src/content.rs:324-415 | one call, with packs of other processes arriving between any two steps: the file is held under its hash unless a crash came before the record or its pack was refused, no other hash changes, every file written is sound, and one pack of exactly the objects found missing is added, or none |
| ContentStore.ContentStays | src/content.rs:324-415 | over any run of calls and crashes, content once held stays, and no hash comes to stand for anything else |
| ContentStore.DiskStays | src/content.rs:324-415 | over any run a sound disk stays sound: every record keeps its packs, nodes, chunks and hash, and so passes the deep check |
| ContentStore.PutReadsBack | src/content.rs:324-415 | over any run, every file whose call completed is held at the end |
| ContentStore.RetryAddsNoPack | src/content.rs:361-415 | over any run, after a call that was not refused, a later one for the same file, a retry after a crash included, is not refused and writes no pack of its own |
| Leaves.CollectOwners | src/mount.rs:133-143 | maps each name to exactly the documents that carry it |
| Leaves.LeavesAre | src/mount.rs:124-169 | the candidates are exactly the leaves, each once: every row's names, or `untitled-` and eight characters of its ID if it has none, with each of its heads |
| Leaves.SplitsBase | src/mount.rs:213-218 | stem and extension make up the name; there is an extension exactly when a dot comes after its first character, and it begins at the last one |
| Leaves.LabelMeans | src/mount.rs:170-180 | a label is the stem, the two suffixes as far as they have grown and the extension |
| Leaves.CollectCandidates | src/mount.rs:144-169 | one candidate per row, name and head, in order |
| Leaves.Duplicates | src/mount.rs:182-190 | exactly the candidates whose label another one has |
| Leaves.GrowOne | src/mount.rs:195-205 | a duplicate grows each suffix by up to four characters unless it is whole |
| Leaves.Settle | src/mount.rs:181-209 | the growing loop computes `Final`: rounds of growth until one changes nothing |
| Leaves.FinalIs | src/mount.rs:181-209 | the loop only lengthens suffixes, by steps of four, and labels still shared at its end belong to candidates that cannot grow |
| Leaves.SameBaseSameLabel | src/mount.rs:170-180 | whole suffixes tell two leaves of one name apart |
| Leaves.LabelDeterminesBase | src/mount.rs:213-218 | with no separator in names, a label determines the name it was made from |
| Leaves.WholeLabelsSettle | src/mount.rs:170-211 | all labels differ whenever no two leaves have the same label with whole suffixes |
| Leaves.CleanWholeLabelsDiffer | src/mount.rs:170-218 | which holds when no name contains `~` and no ID a dot |
| Leaves.EqualWholeLabelsMaySettle | src/mount.rs:181-209 | rows with equal whole labels whose labels all differ, because the loop stops before |
| Leaves.Leaves | src/mount.rs:124-211 | lists every leaf under the label the loop gives it; leaves of one name never share a label, and none do when whole labels differ |
| Leaves.TildeNamesCollide | src/mount.rs:124-211 | for any two documents with 64-digit IDs, names with `~` that leave two leaves of the listing with one label |
| Leaves.DottedIdsCollide | src/mount.rs:124-218 | two leaves of a listing share a label when a dot in an ID passes for an extension |
| Ulid.ValidMeans128Bits | src/writer.rs:194-200 | the validity check accepts exactly the texts of 128-bit values |
| Ulid.CrockfordDigits | src/writer.rs:194-200 | the digits are 0 to 9 and the capitals but I, L, O and U |
| Ulid.MintId | src/writer.rs:202-223 | minting fails exactly when the clock exceeds 48 bits; its 26 digits decode to the timestamp and random bytes and are valid |
| Ulid.OrderIsNumeric | src/writer.rs:218-221 | identifiers sort as text in the order of their values |
| Ulid.EarlierSortsFirst | src/writer.rs:202-223 | an identifier minted earlier sorts first |
| Ulid.TimestampIsReadable | src/writer.rs:211-221 | the timestamp and random part can be read back |

## Left out

- The SQLite index, search, MIME detection, FUSE callbacks other than the labels, the command line, settings and the
  reporting pass in `src/check.rs`: plumbing over what is proved here, or foreign code.
- The inside of merkle-champ, FastCDC, zstd, JSON and SHA-256: contracts and parameters, as listed above.
- `fsync`, directory syncing and capability probing: durable operations are atomic steps with a crash possible between
  any two; whether a remote has hard links is an arbitrary input.
- Claims.NormalizedIsNormal: `normalized` takes its claim by value and edits it in place; the model computes the edited
  claim, since nothing else can see the one given up.
- The exact error texts, and which of several applicable faults a failure reports first.
- Wrap-around of ref sequences at 2^64 and the source's checked addition there: sequences are unbounded.
- SoleStore.PublishSettles: assumes `RootsStandAlone`, that the root of one ledger is no inner node of another; whether
  merkle-champ can produce such a root is not part of this model, and `SoleStore.PackIsNew` shows that it is exactly when
  `publish` would have an empty pack to write. It is stated for atomic claims; `ReplicaTheorems.TornSlotStops` says what a
  crash inside another claim can do.
- ReplicaSafety.RunKeepsInv: holds for runs in which old, unassigned state moves carefully; `LegacyState.MoveLosesIff`
  says exactly what the other moves do.
- ReplicaSafety.NextKeepsInv: the same for one step of the world.
- ReplicaSafety.PublishStepKeeps: the same for one step of a publish.
- Publisher.Session.Publish: one process's call, with crashes but without other stores' steps between its own;
  `SoleStore.PublishSettles` and `ReplicaSafety.RunKeepsInv` have them.
- Recovery.Recover: the staging directory, its rename into the target and a crash among them.
- Chunk compression is a choice per chunk that only `NonBlobs` looks at; frames, dictionaries and decoded lengths are
  not modelled beyond the size limit in `ContentStore.Store.Chunk`.
- ContentStore.Store.PutFile: packs of other processes may arrive between any two steps of a call; records and blobs that
  they write are not seen. A call computes the hash of the bytes it cut; a file that changes while it is read is not
  modelled.
- Several records for one hash: the model keeps one, the first the source would read.
- Reading a whole blob at an offset beyond the largest file offset the system supports is an error of the system and is
  not modelled.
- The lazy first load of the pack index (`ensure_loaded`) is part of `Refresh`; packs are indexed in arbitrary order,
  the source sorts their names.
- `WriterState::load_or_create` and `save`: loading is the start of a run, saving a single step of `Publisher.Session`.
- A torn tail stops a publish before it reads anything (src/replica.rs, lines 345-349): the protocol's stores have whole
  logs, and `Log.TornTailMeans` says when a tail is torn.
- `Document::has_conflicts`, `head`, `head_id` and `version_count`: one-line views of a folded state.
- Leaves.Leaves: rows are reduced to their document, names and heads; slicing an ID is by character, and IDs are ASCII.
