# mybench: a verified model

mybench commits coding-agent transcripts to a tamper-evident ledger and derives statistics from
them without publishing their content. This Dafny project models its evidence pipeline and proves
what the pipeline is built to guarantee. `dafny verify dfyconfig.toml` covers the whole project.

What is modelled, file by file:

- `records`, `commitments`, `commitment_tree`: salted item commitments and Merkle trees in the shape
  of section 2.1 of RFC 6962. Digests are a free datatype, so hashing is injective;
  `Preimages.EncodeInjective` shows on bytes that the domain tags and lengths justify this.
- `framing`, `ledger*`: the hash-chained ledger over the bytes of its file, with verification, repair,
  the four appending operations, and every interleaving of locked writers, kills, repairs and power
  loss. `ledger_view` relates these bytes to the rows that the capture runs see, `ledger_laws` says
  what each append puts there.
- `nonces`, `archive`, `capture*`: the capture daemon over its three append-only stores. A capture is
  a list of disk operations; `capture_steps`, `capture_plans` and `capture_runs` prove what every run
  keeps, `capture_effects` what one capture does, `capture_verdicts` when it raises, passes over or
  commits, and `capture_daemon` is the daemon as a class proved against those plans.
- `lifecycle*`: the lifecycle queue, replayed after any number of deaths, and what its rows state.
- `normalized_store`: the hard-link install of an artifact, as directory operations with link counts.
- `lineage_graph`, `union_find`, `episodes`, `episode_laws`: session stitching.
- `corpus*`, `episode_table`, `transcripts`, `admission*`, `claude*`, `codex*`, `noninterference`,
  `pointers`: the two transcript normalizers, the validator that re-checks their artifacts, the input
  filter, and content pointers with their resolution.
- `readings`, `coverage_laws`, `manifest_laws`, with `*_readings` and `*_coverage` for each normalizer:
  what an artifact must say of the records it was made from, told from their JSON, and that it does:
  every event, every coverage counter, every manifest entry.
- `repo*`: the repository normalizer and its own validator.
- `anchor*`: anchor ranges from cut through publish to the verifier and the scorer.
- `leakscan`: the canary needles. `agent_hours`: active and wall-clock time.

Code that works by steps is a method or a class with fields, proved against a specification function;
the theorems are about these functions and about whole runs. Reachability is always from the empty
state, by any finite sequence of steps, kills and power losses.

Where the code does less than one might expect, the model follows the code and proves exactly when it
does what is wanted:

- A nonce row that lost only its newline loads, but the next appended nonce merges with it and the
  file never loads again, even though the capture in between commits its row: `Nonces.AppendLoads`,
  `CaptureEffects.RescanQuiet`, `CaptureEffects.StrandedSession`, `CaptureEffects.StrandedIsReachable`.
- `recover` removes up to three pieces, among them a row with a wrong hash behind a torn tail:
  `LedgerRepair.RecoveredExactly`, `LedgerRepair.RecoverTakesMoreIff`.
- Queue compaction overwrites before it truncates, and a kill in between can make the next flush record
  an event that no queue line held: `Lifecycle.CompactionSafeIff`, `Lifecycle.CompactionReplays`,
  `Lifecycle.CompactionAddsRow`.
- A backward cut date breaks the tiling in date order: `Anchors.TilesIffForward`,
  `Anchors.PublishTripsIff`. The scorer sorts by range and does not notice: `Anchors.RowOrderTiles`.
- An event file written into the clone by a process that died before its `git add` is taken for
  published from then on, and a later event then leaves a gap: `Anchors.ContinuityIff`,
  `Anchors.OrphanStays`, `Anchors.HoleHistory`. After the `git add` the next commit takes it along.
- The second producer raises on JSON that puts a list or object where it asks a set, or a call whose
  argument string has an unpaired surrogate: `CodexCorpus.CodexRaisesIff`, `CodexCorpus.ListRoleRaises`,
  `CodexNormalizer.NormalizeCodex`.
- Six bytes is the exact bound for base64 needles: `LeakScan.SixIsExact`, `LeakScan.FiveIsTooShort`.
- A timing may carry observations outside its bounds; those of the normalizer never do:
  `AgentHours.ActiveBeyondWall`, `AgentHours.NormalizeOne`.
- The repository normalizer does not force a reference to carry its commit's provenance, its validator
  does: `Repo.RepoAcceptedIff`, `Repo.DisagreementRefused`.

## Model

| member | source | states |
|---|---|---|
| Preimages.EncodeInjective | src/mybench/commitment_tree.py:28-74 | Leaf, node, session-root, day-root and ledger-row values never share a hashed byte string: the domain tags separate the five kinds and fixed lengths make each kind uniquely decodable |
| Framing.SplitSerialized | src/mybench/archive.py:95-107 | Splitting at newlines undoes writing records and then an unterminated tail: the complete lines are exactly the records, the rest exactly the tail |
| Framing.Reassemble | src/mybench/daemon/capture.py:203-207 | For every byte string, its complete lines written out again followed by its unterminated tail are the byte string |
| Framing.CutSerialized | src/mybench/archive.py:64-70 | Any cut of a file of records leaves whole records and a strict part of the next; the number of whole records is the largest that fits |
| CommitmentTree.Split | src/mybench/commitment_tree.py:49-54 | The doubling loop returns the power of two k with k < n <= 2k (1 for a tree of at most one leaf) |
| CommitmentTree.SplitPointUnique | src/mybench/commitment_tree.py:49-54 | No other power of two has that property (section 2.1 of RFC 6962) |
| CommitmentTree.RootBinding | src/mybench/commitment_tree.py:57-74 | Two leaf lists have equal Merkle, session or day roots if and only if they are equal element by element, length included |
| CommitmentTree.HonestPathVerifies | src/mybench/commitment_tree.py:77-103 | The audit path of any index verifies its leaf against the root |
| CommitmentTree.PathLength | src/mybench/commitment_tree.py:77-86 | An audit path has at most ceil(log2 n) steps (section 2.1.1 of RFC 6962) |
| CommitmentTree.FoldPath | src/mybench/commitment_tree.py:89-98 | The fold loop climbs the whole path, or fails at the first side that is neither "L" nor "R" |
| CommitmentTree.VerifiedPathIsHonest | src/mybench/commitment_tree.py:89-103 | Any path that verifies a leaf commitment is the audit path of an index where that leaf stands |
| CommitmentTree.PathFixesIndex | src/mybench/commitment_tree.py:77-86 | No two positions of a tree share an audit path |
| CommitmentTree.InclusionTheorem | src/mybench/commitment_tree.py:77-108 | A path verifies against the raw or the wrapped root if and only if it is the audit path of one single position of the leaf |
| CommitmentTree.NodeLeafVerifies | src/mybench/commitment_tree.py:101-103 | Why the theorem speaks of leaf commitments: an interior node offered as leaf verifies with the empty path, at no position |
| Commitments.RootReveals | src/mybench/archive.py:110-115 | A session root determines its items and the nonces that salted them |
| Commitments.RootBindsItems | src/mybench/archive.py:118-130 | Roots over two item lists are equal if and only if items and used nonces are equal |
| Ledger.ReadLedger | src/mybench/ledger.py:145-167 | Rows of a file; a missing final newline or an undecodable last line is a torn tail, any other undecodable line corruption, in the order the loop finds them |
| Ledger.VerifyChain | src/mybench/ledger.py:169-205 | The verdict of the loop over links, hashes, versions, the provenance boundary and the expected tip |
| Ledger.ChainReads | src/mybench/ledger.py:169-205 | What the verified chain is: one genesis, first; sequential indexes; each row hashed and naming its predecessor; at most one boundary, before every other v3 row |
| Ledger.IntactIffChain | src/mybench/ledger.py:169-205 | The loop accepts exactly the linear chains and returns their length |
| Ledger.TipBinding | src/mybench/ledger.py:169-205 | Two verified ledgers with the same tip hash have the same rows |
| Ledger.ExpectedTipFixesLedger | src/mybench/ledger.py:169-205 | With the tip of a chain expected, exactly that chain passes, so truncation and extension are both noticed |
| Ledger.RecoveredLaws | src/mybench/ledger.py:229-267 | On arbitrary bytes repair ends; the rest followed by the pieces in reverse removal order is the original file; it stops only at a file that is not torn; each piece is one line; nothing is removed from a file that is not torn |
| Ledger.LedgerFile.Recover | src/mybench/ledger.py:229-267 | The while loop leaves the repaired rest, appends the removed pieces to the quarantine file in removal order, and returns normally exactly when the rest verifies, with the count of bytes removed |
| Ledger.ReadRendered | src/mybench/ledger.py:145-167 | A file of rows with a cut-off last line reads as torn, and without one as exactly its rows |
| Ledger.RecoverRendered | src/mybench/ledger.py:229-267 | Repairing a chain with a torn tail removes the tail and nothing else |
| LedgerRepair.TornIff | src/mybench/ledger.py:145-205 | Which bytes count as torn: an unterminated tail, a last line alone that cannot be decoded, or a last row linked to a chain with a wrong hash |
| LedgerRepair.RecoveredExactly | src/mybench/ledger.py:229-267 | All that repair takes from arbitrary bytes, in order: the tail, one undecodable last line, one last row with a wrong hash; the rest is the lines before them |
| LedgerRepair.RecoverTakesMoreIff | src/mybench/ledger.py:243-267 | Repair removes more than one piece if and only if two of these three are there, and never more than three |
| LedgerRepair.RecoverTakesTamperedRow | src/mybench/ledger.py:243-267 | A class of such files: behind a torn tail, a last row with a wrong hash is itself removed |
| LedgerWriters.WithBoundaryOnChain | src/mybench/ledger.py:294-347 | On a chain the provenance boundary is always obtained, by adding at most one row, and both refusals of the source are out of reach |
| LedgerWriters.VersionedKeepsChain | src/mybench/ledger.py:349-421 | A versioned append plans rows that keep the chain: the new payload last, before it only a genesis or boundary row |
| LedgerWriters.PlanKeepsChain | src/mybench/ledger.py:349-649 | Whatever any of the four writers plans on a chain keeps it a chain; session and binding rows are always planned; an event is a replay exactly when its key is recorded |
| LedgerLaws.PlanAppends | src/mybench/ledger.py:294-543 | What an append writes carries its request field by field, with the time and version due to it, after a genesis row exactly on an empty ledger and a boundary of its provenance exactly when it has one and the ledger none |
| LedgerLaws.WritesIff | src/mybench/ledger.py:571-640 | A receipt is written if and only if event and times stand and no earlier receipt shares its id or range; the first that does decides between replay, when everything is the same, and refusal |
| LedgerLaws.RootsInOrder | src/mybench/anchor/batch.py:87-99 | The leaves of a batch are the roots of the session rows in row order |
| LedgerLaws.FitsIff | src/mybench/ledger.py:571-640 | A staged event fits exactly when its range, root, tip and counts are those of the session rows it covers |
| LedgerWriters.AppendRow | src/mybench/ledger.py:271-292 | One validated row is appended and made durable, or a row the schema refuses changes nothing |
| LedgerWriters.Append | src/mybench/ledger.py:349-649 | The locked section: a torn tail, corruption or refusal leaves the file unchanged, otherwise exactly the planned rows up to the first the schema refuses are appended |
| LedgerWriters.WriteRows | src/mybench/ledger.py:405-421 | Planned rows are written one by one and the last one is returned |
| LedgerRuns.ActKeeps | src/mybench/ledger.py:210-347 | Each step of a writer, repairer, kill or power loss keeps: the file is a chain of rows and at most part of one more line, and every returned row is in it and durable |
| LedgerRuns.RunKeeps | src/mybench/ledger.py:210-347 | So does every run of any number of writers, kills and repairs, from the empty file |
| LedgerRuns.LedgerSafety | src/mybench/ledger.py:145-347 | After any run the repaired file is one verified linear chain holding every row ever returned at its index, repair removes at most the torn tail, and a writer that meets a torn tail refuses and changes nothing |
| LedgerRuns.ReturnedOnlyGrows | src/mybench/ledger.py:271-292 | What appends have returned only grows along a run |
| LedgerView.ActShown | src/mybench/ledger.py:210-347 | Every byte-level step is matched by at most two moves on rows, durable count and torn flag |
| LedgerView.RunShown | src/mybench/ledger.py:210-347 | So every byte-level run shows, at its end, a state those moves reach from the empty ledger |
| LedgerView.SessionMove | src/mybench/daemon/capture.py:480-487 | Capture's own append, whole or cut short, is one such move |
| LedgerView.OtherMove | src/mybench/daemon/capture.py:312-318 | Every other move is a happening of the capture runs |
| Nonces.LoadNonces | src/mybench/nonces.py:120-135 | The loading loop: every row decodes and carries its own index, or the load fails |
| Nonces.LoadsIff | src/mybench/nonces.py:120-135 | A nonce file loads if and only if it is row texts, each with the number of its line and 32 bytes, one to a line; what is loaded is their nonces |
| Nonces.LoadIsCarried | src/mybench/nonces.py:120-135 | A load that succeeds returns the carried nonces of the file, all of them in order |
| Nonces.AppendLoads | src/mybench/nonces.py:72-93 | After an append the file loads, with the nonce added, if and only if it ended in a newline before; without one the new row merges with the unterminated row |
| Archive.ReadbackOfSerialized | src/mybench/archive.py:95-107 | Reading back serialized items returns the items |
| Archive.SerializedOfReadback | src/mybench/archive.py:102-107 | Serializing what was read back returns the bytes |
| Archive.AuthenticIff | src/mybench/archive.py:118-130 | A file authenticates against the row of some items if and only if it is exactly their serialization |
| Archive.SourceMatchesIff | src/mybench/archive.py:209-252 | A live source is accepted if and only if it is exactly the committed items |
| Archive.DecisionTheorem | src/mybench/archive.py:186-278 | From any prefix of the committed items: complete files are left alone, others are completed from a matching source, and only a missing match fails |
| Archive.ArchiveFile.WriteAll | src/mybench/archive.py:64-70 | The write loop appends all bytes whatever parts the system accepts |
| Archive.ArchiveFile.ArchiveSession | src/mybench/archive.py:186-278 | A refusal changes nothing; otherwise the file ends as exactly the serialized source, durable, and the call returns normally exactly when it verifies |
| Archive.ArchiveFile.ReadVerified | src/mybench/archive.py:133-183 | Items are returned exactly when the file authenticates; they have the committed count and root and serialize to the file |
| CaptureSteps.PerformKeeps | src/mybench/daemon/capture.py:420-510 | Every completed nonce, ledger or archive operation keeps the joint invariant of the three stores |
| CaptureSteps.CutShortKeeps | src/mybench/daemon/capture.py:420-510 | So does every operation killed at any byte or row |
| CaptureSteps.PowerLossKeeps | src/mybench/nonces.py:96-117 | So does power loss dropping any suffix not yet synced of any file |
| CapturePlans.PrefixHoldsIff | src/mybench/daemon/capture.py:448-461 | The prefix test passes if and only if the live source begins with the items the latest row committed |
| CapturePlans.CommitExtends | src/mybench/daemon/capture.py:446-491 | A capture that commits strictly extends the items of the latest row of its session under the same nonces |
| CapturePlans.PlanReady | src/mybench/daemon/capture.py:420-510 | Every operation of a capture is safe when its turn comes, in particular the row comes after all its nonces are durable |
| CaptureRuns.HappensKeeps | src/mybench/daemon/capture.py:311-418 | Scans, other writers, deaths, repairs and power loss in any order keep the invariant |
| CaptureRuns.RunKeeps | src/mybench/daemon/capture.py:311-418 | The invariant holds in every world of every run |
| CaptureRuns.OtherRowsForeign | src/mybench/ledger.py:423-649 | What other writers add keeps the chain and is never a session row |
| CaptureRuns.CommittedPrefixesGrow | src/mybench/daemon/capture.py:420-499 | In every reachable world the item sequences committed by successive rows of a session are strict prefixes of each other, with the same nonces, so a rewritten prefix is never committed |
| CaptureRuns.NoncesBeforeRows | src/mybench/daemon/capture.py:461-491 | Write-ahead order: in every reachable world, also after a kill or power loss, the nonces of every session row are durable and unchanged |
| CaptureRuns.ArchiveIsPrefix | src/mybench/archive.py:186-278 | In every reachable world an archive copy is a byte prefix of the serialized items of the latest row, and of the latest durable row, of its session |
| CaptureRuns.StoresOnlyGrow | src/mybench/daemon/capture.py:311-510 | Without power loss nothing is ever taken from rows, nonces or archives; with it, nothing that was durable |
| CaptureEffects.CommitsIff | src/mybench/daemon/capture.py:432-461 | A capture commits if and only if the nonces load, are no more than the items, and the items strictly extend what the latest row committed |
| CaptureVerdicts.VerdictsIff | src/mybench/daemon/capture.py:429-461 | All four verdicts, told from stores and source: raise, pass over, commit, or only look after the archive |
| CaptureVerdicts.RejectedWritesNothing | src/mybench/daemon/capture.py:429-461 | A source that is rejected leaves every store as it was |
| CaptureVerdicts.QuietArchive | src/mybench/daemon/capture.py:436-444 | After a look that commits nothing the archive is exactly the committed items if it was or the source is, and untouched otherwise |
| CaptureEffects.WritesEffect | src/mybench/daemon/capture.py:462-464 | Writing the drawn nonces carries all of them; the file loads afterwards if and only if none was drawn or it ended in a newline |
| CaptureEffects.CommitEffect | src/mybench/daemon/capture.py:446-510 | The state after a committing capture: latest root over all items, all nonces carried, archive exactly the items when archiving is on |
| CaptureEffects.QuietEffect | src/mybench/daemon/capture.py:434-444 | A capture that does not commit changes at most the archives |
| CaptureEffects.RescanQuiet | src/mybench/daemon/capture.py:420-510 | A scan of an unchanged source after a capture that went through draws nothing and appends nothing; it raises exactly when the first one glued a nonce to an unterminated line |
| CaptureEffects.CleanRescan | src/mybench/daemon/capture.py:420-510 | In every reachable world: after a capture that went through, looking again at an unchanged source draws no nonce and changes neither rows nor nonces |
| CaptureEffects.UnloadableIsFinal | src/mybench/nonces.py:120-135 | A session whose nonce file does not load is never captured again, whatever its source |
| CaptureEffects.StrandedSession | src/mybench/nonces.py:72-135 | From any such disk the capture succeeds, commits a row, and is the last one of that session |
| CaptureEffects.StrandedIsReachable | src/mybench/nonces.py:72-135 | A run from the empty disk into that state: a scan dies leaving a nonce row without its newline, the next scan looks at one more item and commits |
| CaptureEffects.ArchiveEffect | src/mybench/daemon/capture.py:513-536 | The archive step over a prefix of the committed items leaves exactly the items, and touches nothing else |
| CaptureEffects.ArchiveCompletes | src/mybench/archive.py:209-278 | An archive left short by a death is completed by the next look at a source that still is what the latest row committed |
| CaptureDaemon.Daemon.BuildCovered | src/mybench/daemon/capture.py:331-340 | The table the scan builds holds exactly the latest row of every session |
| CaptureDaemon.Daemon.AppendNonces | src/mybench/daemon/capture.py:462-464 | The nonce loop performs the planned writes, up to the first that raises |
| CaptureDaemon.Daemon.ArchiveFile | src/mybench/daemon/capture.py:513-536 | The archive step performs the planned operations; its failure is counted and never raised |
| CaptureDaemon.Daemon.DrawNonces | src/mybench/daemon/capture.py:462-462 | One 32-byte nonce per uncovered item |
| CaptureDaemon.Daemon.CommitRow | src/mybench/daemon/capture.py:472-491 | Durability of all nonces, then the row, then the archive, in this order; the table then covers the new row |
| CaptureDaemon.Daemon.Commit | src/mybench/daemon/capture.py:446-510 | The committing half performs exactly the plan of the capture |
| CaptureDaemon.Daemon.CaptureFile | src/mybench/daemon/capture.py:420-510 | One call performs exactly the planned operations; it raises exactly when an operation fails or the source is rejected, and then without a write: an unloadable nonce file, or a longer source that does not begin with the committed items; it counts a row exactly for an extended source |
| CaptureDaemon.Daemon.ScanOnce | src/mybench/daemon/capture.py:311-418 | A scan performs, from the repaired ledger, the plan of every file in order; it counts as failed exactly the files rejected and those with a failed operation, as committed exactly the others whose source was extended, keeps the invariant and takes nothing away |
| Lifecycle.RecordedIffSeen | src/mybench/ledger.py:498-507 | The replay test on ledger rows is the replay test on event rows |
| Lifecycle.TakeAllKeeps | src/mybench/hooks/lifecycle.py:336-349 | Flushing keeps each (session, kind, time) unique and each session's generations rising by at most one per row, never falling |
| Lifecycle.TakeAllGrows | src/mybench/hooks/lifecycle.py:361-418 | Every offered record ends up among the event rows and no event row is lost |
| Lifecycle.Resume | src/mybench/hooks/lifecycle.py:361-418 | A flush that stopped after any number of records, started again from the beginning, ends as if it had not stopped |
| Lifecycle.RowsForView | src/mybench/ledger.py:471-543 | Appending one event keeps the chain and adds exactly that event; the rows before the last add none |
| Lifecycle.InterruptedKeeps | src/mybench/hooks/lifecycle.py:361-418 | A death inside an append, or rows of other writers, do not change where the flush ends |
| Lifecycle.FlushTheorem | src/mybench/hooks/lifecycle.py:361-418 | Any number of deaths and other writers before the flush that completes leave the event rows, order and generations of one undisturbed flush |
| LifecycleLaws.SplitIsLines | src/mybench/hooks/lifecycle.py:385-402 | What the queue holds is its newline-terminated lines, in order, without the unterminated rest |
| LifecycleLaws.FlushAdds | src/mybench/hooks/lifecycle.py:361-418 | A flush adds exactly one event row, in queue order, for the first record of each session, kind and time that no row has yet, with the fields of that record |
| LifecycleLaws.GenerationsCount | src/mybench/hooks/lifecycle.py:336-349 | After any flush from the empty view the generation of every event row is the number of compactions of its session up to it: each notice before a compaction counts one, and a start after compaction one exactly when the row of its session just before is not such a notice |
| Lifecycle.CompactionSafeIff | src/mybench/hooks/lifecycle.py:405-411 | A kill during compaction leaves the queue unchanged at every point if and only if the leftover tail already stood at its start |
| Lifecycle.OverwrittenLines | src/mybench/hooks/lifecycle.py:405-411 | What such a kill leaves as lines: the start of the tail glued to the rest of the line it reached, the later lines, and the tail; or no line at all |
| Lifecycle.CompactionReplays | src/mybench/hooks/lifecycle.py:405-411 | The next flush of that queue adds exactly the records of the glued line, so it adds a row if and only if one of them is not yet recorded |
| Lifecycle.CompactionAddsRow | src/mybench/hooks/lifecycle.py:405-411 | Queues for which it does: the second observation with the end of the first is recorded although no line ever held it |
| Lifecycle.QueueFile.Flush | src/mybench/hooks/lifecycle.py:361-418 | Success cuts the queue to its tail, leaves the ledger of a complete flush and counts its new event rows; failure leaves the queue alone and the ledger at a point the theorem resumes from; what a complete flush adds is told by the laws of LifecycleLaws |
| Lifecycle.QueueFile.Drain | src/mybench/hooks/lifecycle.py:385-402 | The loop over records appends what each of them needs, stopping at the first refusal |
| NormalizedStore.PerformKeeps | src/mybench/normalized_store.py:269-328 | Every directory operation that is safe in its place keeps: the final name is absent or complete and durable |
| NormalizedStore.CutShortKeeps | src/mybench/normalized_store.py:166-172 | So does an artifact write killed at any byte |
| NormalizedStore.PowerLossKeeps | src/mybench/normalized_store.py:269-300 | So does power loss dropping any unsynced names and bytes |
| NormalizedStore.StoreSucceeds | src/mybench/normalized_store.py:303-328 | From every such state one call ends with the artifact under the final name alone, linked once, and never replaces a final name that exists |
| NormalizedStore.StoreAgain | src/mybench/normalized_store.py:303-328 | A second call with the same artifact changes nothing |
| NormalizedStore.HappenKeeps | src/mybench/normalized_store.py:209-328 | A call in progress, its death, its cleanup and power loss keep the invariant and leave the remaining operations safe |
| NormalizedStore.RunIsGood | src/mybench/normalized_store.py:209-328 | It holds in every state of every run |
| NormalizedStore.StoreSafety | src/mybench/normalized_store.py:209-328 | In every reachable state the final name is absent or complete, also after power loss there, and the next call succeeds |
| NormalizedStore.NeverOverwritten | src/mybench/normalized_store.py:269-300 | No step, failure or kill changes the file or the bytes behind an existing final name, and no power loss does once the name is durable |
| NormalizedStore.InvRecoverable | src/mybench/normalized_store.py:209-241 | Every state the protocol reaches passes the link-count tests of recovery |
| NormalizedStore.AllAloneRecoverable | src/mybench/normalized_store.py:209-241 | When each temporary name passes its own link-count test the directory is one recovery accepts |
| NormalizedStore.LinkCheck | src/mybench/normalized_store.py:233-241 | The link counts seen while temporary names disappear say of each name whether it shared its file in the beginning |
| NormalizedStore.ArtifactDirectory.FindLinked | src/mybench/normalized_store.py:198-231 | The name that shares the final file is found; a final name with a link count other than one or two is refused, and with two so is any temporary name with another count |
| NormalizedStore.ArtifactDirectory.Recover | src/mybench/normalized_store.py:209-241 | Recovery succeeds exactly on recoverable directories, removes every temporary name and never touches the final one |
| NormalizedStore.ArtifactDirectory.Install | src/mybench/normalized_store.py:269-300 | Create, write, sync, link, sync, unlink, sync, in this order |
| NormalizedStore.ArtifactDirectory.Store | src/mybench/normalized_store.py:303-328 | A call succeeds exactly when the directory is recoverable and any installed artifact is the same; an installed artifact is kept in every case |
| LeakScan.EncodeConcat | src/mybench/leakscan.py:24-39 | Encoding is compositional at multiples of three bytes (section 4 of RFC 4648) |
| LeakScan.TrimmedIsAligned | src/mybench/leakscan.py:30-38 | What the needle loop keeps of a padded encoding is the encoding of the whole groups of the canary at that phase |
| LeakScan.FindBase64Needles | src/mybench/leakscan.py:24-39 | The loop over phases and alphabets returns the non-empty aligned encodings |
| LeakScan.AlignedInStream | src/mybench/leakscan.py:24-39 | Whatever surrounds the canary, the aligned encoding of its phase is inside the encoded stream |
| LeakScan.NeedleCompleteness | src/mybench/leakscan.py:24-39 | For every canary of at least six bytes, prefix, suffix and both alphabets, the encoding contains a generated needle (sections 4 and 5 of RFC 4648) |
| LeakScan.SixIsExact | src/mybench/leakscan.py:24-39 | All three phases give a needle if and only if the canary has at least six bytes |
| LeakScan.FiveIsTooShort | src/mybench/leakscan.py:24-39 | A five-byte canary whose encoding holds none of its needles |
| LeakScan.EmbeddedLeaks | src/mybench/leakscan.py:42-77 | A canary of at least six bytes, written raw, hexadecimal or base64 anywhere in a searched haystack, is a leak |
| LeakScan.Find | src/mybench/leakscan.py:52-65 | The first occurrence at or after a position, or none |
| LeakScan.Haystacks | src/mybench/leakscan.py:52-65 | The haystacks are the bytes themselves and every stream that inflates, at every header offset |
| LeakScan.ScanFile | src/mybench/leakscan.py:68-77 | Exactly the canaries with a needle in some haystack are reported |
| AgentHours.SortedUnique | src/mybench/scorer/agent_hours.py:112-127 | Sorting a set of moments is determined by the set |
| AgentHours.ActiveBounds | src/mybench/scorer/agent_hours.py:112-127 | Active time lies between zero and the span, and equals the span if and only if every gap is within the threshold |
| AgentHours.ComputeActive | src/mybench/scorer/agent_hours.py:112-127 | The loop adds exactly the capped gaps |
| AgentHours.ActiveAddsUp | src/mybench/scorer/agent_hours.py:112-127 | Active time is the sum, over the distinct moments in order, opening and closing among them, of the steps between neighbours capped at the threshold |
| AgentHours.TotalsAddUp | src/mybench/scorer/agent_hours.py:172-193 | The totals add up, session by session, closing minus opening where both are known and active time where coverage is complete as well |
| AgentHours.ActiveWithinWall | src/mybench/scorer/agent_hours.py:112-127 | For observations within the bounds active time never exceeds wall-clock time, with equality exactly when no gap is idle |
| AgentHours.ActiveBeyondWall | src/mybench/normalizer/session_timing.py:57-84 | A timing its constructor accepts, with an observation outside its bounds, whose active time exceeds its wall-clock time |
| AgentHours.ObservationNeverLowers | src/mybench/scorer/agent_hours.py:112-127 | One more observation within the bounds never lowers active time |
| AgentHours.ThresholdNeverLowers | src/mybench/scorer/agent_hours.py:112-127 | A larger idle threshold never lowers active time |
| AgentHours.NormalizeOne | src/mybench/normalizer/session_timing.py:130-229 | A given start or end is the boundary, observed, an end before the opening dropped; else the time of the first opening or last closing marker of the subject, scan-inferred for Codex; else unknown. Exactly the timed records of the subject inside these markers and bounds contribute moments; the result is constructible and within its bounds |
| AgentHours.KeptSorted | src/mybench/normalizer/session_timing.py:192-229 | The collected observations are those of the eligible records, sorted, none outside the known bounds |
| AgentHours.TotalsBounded | src/mybench/scorer/agent_hours.py:172-193 | Total active time lies between zero and total wall-clock time and grows with the threshold |
| AgentHours.TotalsAgree | src/mybench/scorer/agent_hours.py:172-193 | The totals agree when every bounded session is active throughout |
| AgentHours.Score | src/mybench/scorer/agent_hours.py:172-193 | For any sessions the produced timings are those just described, valid, and 0 <= active <= wall in total |
| Anchors.BuiltBatchVerifies | src/mybench/anchor/batch.py:71-137 | A built batch covers the asked range and verifies against the ledger it was cut from and every extension of it |
| Anchors.BatchRefusals | src/mybench/anchor/batch.py:71-111 | A batch is built if and only if the ledger is a chain, the range is non-empty and inside it, and it holds a session row |
| Anchors.EventFixesHistory | src/mybench/anchor/batch.py:114-137 | A published batch that verifies against two chains fixes their whole common history up to its end |
| AnchorLaws.VerifiesIff | src/mybench/anchor/batch.py:114-137 | A batch verifies against its rows if and only if it is signed and fits them in range, root, tip and number of sessions; the number of items is not checked |
| Anchors.TilesReads | src/mybench/anchor/publish.py:166-171 | Tiling ranges start where the ranges before them end, in order, disjoint and without gap |
| Anchors.TilesConcat | src/mybench/anchor/publish.py:166-171 | Two lists tile one after the other exactly when the second starts at the end of the first |
| Anchors.KnownRowEnd | src/mybench/anchor/__main__.py:43-50 | The running maximum over staging and clone |
| AnchorLaws.CutIff | src/mybench/anchor/__main__.py:43-90 | A day is cut if and only if neither directory has an event of that day and a verified chain holds a session row past the end of all known events; the event starts at that end and covers all rows after it |
| Anchors.Publish | src/mybench/anchor/publish.py:218-237 | The publishing loop: skip what is there unchanged, refuse a changed or non-contiguous event, commit the rest in order |
| AnchorLaws.PublishIff | src/mybench/anchor/publish.py:197-237 | The loop goes through if and only if every staged event is in the clone as it stands, or is the only one of its day and starts where all events before it end; it stops at the first that is neither; by then the clone holds, tracks and has committed exactly what it did and the events taken |
| Anchors.PublishTiling | src/mybench/anchor/publish.py:218-237 | Publishing tiling staged events on top of any published prefix of them never trips and publishes all |
| Anchors.VerifyContinuity | src/mybench/verify/cli.py:188-198 | The verifier's loop reports no failure if and only if every range starts at the maximal end before it |
| Anchors.NoFailureIffTiles | src/mybench/verify/cli.py:188-198 | Which for non-empty ranges is exactly that they tile from zero |
| Anchors.LedgerChainValid | src/mybench/scorer/score.py:156-165 | True exactly for a plain hash chain that starts at genesis |
| Anchors.AnchorChainContinuity | src/mybench/scorer/score.py:168-178 | True exactly when anchors exist, the ledger is a chain, the ranges tile from zero and each tip is the hash of its last row |
| Anchors.CutKeepsSound | src/mybench/anchor/__main__.py:53-90 | A cut with a later date extends the tiling by one range that fits the ledger |
| Anchors.PublishKeepsSound | src/mybench/anchor/publish.py:174-264 | Publishing any listed prefix never trips its continuity test and commits what it adds, together with whatever waits in the index |
| Anchors.DieKeepsSound | src/mybench/anchor/publish.py:197-237 | A death after an event file is written leaves it an orphan if it comes before `git add`, and in the index, for the next commit, if it comes after |
| Anchors.ActKeepsSound | src/mybench/anchor/publish.py:174-264 | Appends, forward cuts, publishes, commits of other files and both kinds of death keep: index, committed and remote are prefixes of the staging without the orphans |
| Anchors.HistorySound | src/mybench/anchor/__main__.py:53-90 | It holds in every state of every history of forward cuts, with exactly the orphans of its deaths |
| Anchors.WithoutTilesIff | src/mybench/verify/cli.py:188-198 | A listed prefix without the orphans tiles from zero if and only if it holds no event later than an orphan |
| Anchors.ContinuityIff | src/mybench/verify/cli.py:188-198 | For every history with increasing dates publish never trips, and the pushed ranges tile from zero if and only if no event was orphaned by a death before its `git add` and followed by a later pushed one |
| Anchors.ContinuityTheorem | src/mybench/verify/cli.py:188-198 | For every such history without a death before a `git add`, the verifier finds no failure and the scorer's value is true and stays true under every later append |
| Anchors.TilesIffForward | src/mybench/anchor/__main__.py:53-90 | After a cut the ranges in date order tile if and only if its date is later than all listed dates |
| Anchors.RowOrderTiles | src/mybench/scorer/score.py:168-178 | In row order they tile in any case |
| Anchors.PublishTripsIff | src/mybench/anchor/publish.py:221-237 | Publishing after a cut goes through if and only if the date is later or everything before was already published |
| Anchors.OrphanStays | src/mybench/anchor/publish.py:197-237 | Once orphaned, an event is never committed or pushed by anything that happens later |
| Anchors.HoleHistory | src/mybench/anchor/publish.py:197-237 | A history of six acts whose remote does not tile when the death comes before `git add`, and does when it comes after |
| Anchors.HoleExists | src/mybench/anchor/publish.py:197-237 | Such a history exists, with two session rows on two days |
| LineageGraph.EdgeKeepsAcyclic | src/mybench/normalizer/claude.py:518-526 | Adding an edge keeps the graph acyclic when its target does not already reach its source |
| LineageGraph.Reaches | src/mybench/normalizer/claude.py:478-489 | The search loop decides reachability |
| LineageGraph.EndingIsAcyclic | src/mybench/normalizer/claude.py:452-467 | Parent chains that all end form an acyclic graph |
| LineageGraph.ParentsAcyclic | src/mybench/normalizer/claude.py:452-467 | The cycle test passes if and only if the recorded parents are acyclic |
| UnionFind.HalvingKeepsRoots | src/mybench/normalizer/claude.py:531-535 | Path halving keeps every root and keeps parents at or below their keys |
| UnionFind.LinkMergesRoots | src/mybench/normalizer/claude.py:537-541 | Linking two roots gives all keys of both the smaller root and moves no other key |
| UnionFind.MergedIffConnected | src/mybench/normalizer/claude.py:528-556 | Uniting along links merges two keys if and only if a path of links joins them |
| UnionFind.Components.constructor | src/mybench/normalizer/claude.py:528-530 | Every key starts as its own root |
| UnionFind.Components.Find | src/mybench/normalizer/claude.py:531-535 | The loop ends, returns the root, and changes no root; the key itself is the measure under halving |
| UnionFind.Components.Union | src/mybench/normalizer/claude.py:537-541 | After a union the structure represents the links so far and the new one |
| Episodes.SortKeeps | src/mybench/normalizer/claude.py:501-510 | The order of inference keeps the sessions and sorts them by start, end and key |
| Episodes.Choose | src/mybench/normalizer/claude.py:510-520 | The chosen predecessor is the latest earlier session of the same repository with a continuous head, inside the adjacency window, that would close no cycle |
| Episodes.InferLinks | src/mybench/normalizer/claude.py:484-526 | The inference loop adds exactly the chosen edges, one per session at most |
| EpisodeLaws.LinksAreLast | src/mybench/normalizer/claude.py:484-526 | Told from the sessions: each inferred link is to the last one that ended in the same repository, at the head the later one starts from, at most half an hour before it, and closes no cycle with the parents and the links of earlier sessions; there is none exactly when no session is open or the last one is the parent already |
| Episodes.InferredAcyclic | src/mybench/normalizer/claude.py:484-526 | Recorded and inferred edges together stay acyclic |
| Episodes.InferredEdges | src/mybench/normalizer/claude.py:484-526 | The edges are the recorded parents and the inferred links, and nothing else |
| Episodes.UniteRecorded | src/mybench/normalizer/claude.py:543-550 | The recorded links among the sessions are united; exactly the parents outside them are counted unresolved |
| Episodes.UniteInferred | src/mybench/normalizer/claude.py:551-556 | The inferred links are united on top |
| Episodes.GroupByRoot | src/mybench/normalizer/claude.py:557-560 | Groups hold, in key order, exactly the keys with the same root |
| Episodes.LabelGroups | src/mybench/normalizer/claude.py:561-568 | Exactly the members of groups of two or more get an id, the id of the whole group |
| Episodes.LabelsAreComponents | src/mybench/normalizer/claude.py:557-580 | Ids are the connected components: singletons get none |
| Episodes.SameIdIffConnected | src/mybench/normalizer/claude.py:571-580 | Two sessions have the same episode id if and only if the edges connect them |
| Episodes.EpisodeMap | src/mybench/normalizer/claude.py:443-568 | The stitcher raises exactly on a recorded cycle; otherwise edges are acyclic, ids are components, inferred links and the unresolved count are as specified |
| CorpusBuild.AppendGrows | src/mybench/normalizer/claude.py:1274-1467 | Adding the events of one more record keeps order, contiguous subevents, rising generations, earlier tool calls behind results, and at most one forge event per call |
| CorpusBuild.TallyParsed | src/mybench/normalizer/claude.py:1625-1747 | A parsed record keeps every coverage equation and inequality |
| CorpusBuild.TallyUnparsed | src/mybench/normalizer/claude.py:1625-1747 | So does an unsupported one |
| CorpusBuild.JoinForgeOutcomes | src/mybench/normalizer/claude.py:1244-1271 | The join gives each forge event the one status of its call, or unknown |
| CorpusBuild.RejoinedHold | src/mybench/normalizer/claude.py:2286-2366 | After the join all event conditions of the validator hold |
| CorpusBuild.TallyRejoined | src/mybench/normalizer/claude.py:2368-2393 | And the coverage conditions too |
| CorpusLineage.StitchedLineageHolds | src/mybench/normalizer/claude.py:2211-2285 | A manifest that states the stitcher's answer passes the validator's rebuilt graph, components and unresolved count |
| CorpusChecker.Visit | src/mybench/normalizer/claude.py:2237-2246 | The depth-first visit fails only on a cycle and otherwise completes everything it can reach |
| CorpusChecker.CheckLineage | src/mybench/normalizer/claude.py:2216-2236 | Edges and unresolved count are rebuilt from the manifest; it fails exactly on a self parent or an unresolved predecessor |
| CorpusChecker.EdgesAcyclic | src/mybench/normalizer/claude.py:2248-2250 | The visits pass if and only if the rebuilt graph is acyclic |
| CorpusChecker.CheckEpisodes | src/mybench/normalizer/claude.py:2252-2280 | Passes if and only if every session states the id of its component |
| CorpusChecker.CheckOrder | src/mybench/normalizer/claude.py:2431-2433 | Comparing neighbours decides whether the whole event list is in order |
| CorpusChecker.CheckRecords | src/mybench/normalizer/claude.py:2291-2319 | Passes if and only if every event is in place and events of one record agree about it |
| CorpusChecker.CheckRuns | src/mybench/normalizer/claude.py:2320-2326 | Passes if and only if subevents are contiguous and generations strictly rise |
| CorpusChecker.CheckResults | src/mybench/normalizer/claude.py:2327-2341 | Passes if and only if every linked result targets an earlier tool call; the collected statuses are those of each call in order |
| CorpusChecker.CheckForges | src/mybench/normalizer/claude.py:2343-2366 | Passes if and only if every forge event binds an earlier call with the same pointer and its joined outcome, and no two share a call |
| CorpusChecker.ValidateCorpus | src/mybench/normalizer/claude.py:2178-2437 | The validator accepts exactly the artifacts that satisfy the declarative condition |
| CorpusChecker.CheckEpisodeOrder | src/mybench/normalizer/claude.py:2140-2183 | Passes if and only if the episode ids are sorted and unique |
| EpisodeTables.TableHolds | src/mybench/normalizer/claude.py:820-844 | The derived episode table is sorted and unique, has rows only for ids that some session carries, and one for each of them |
| Admission.CheckInputSessions | src/mybench/normalizer/claude.py:287-440 | The filtering loop: refuses an empty input, a duplicate admitted session or an invalid one, else the admitted sessions and records sorted; what is admitted is told by the laws of AdmissionLaws |
| Admission.CheckedInput | src/mybench/normalizer/claude.py:287-440 | What it returns satisfies everything the producers rely on |
| Admission.SameAnswer | src/mybench/normalizer/claude.py:287-440 | Whether it raises depends only on what is admitted |
| Admission.SameViews | src/mybench/normalizer/claude.py:287-440 | So does its result, up to the numbering of records |
| AdmissionLaws.ExcludedSessionUnread | src/mybench/normalizer/claude.py:296-316 | A session that is not the subject's, or has only records of others, is not read: taking it out of the input changes neither the refusal nor the answer, malformed or not |
| AdmissionLaws.ExcludedRecordUnread | src/mybench/normalizer/claude.py:303-330 | So does a record of another author inside an admitted session |
| AdmissionLaws.AnswerShows | src/mybench/normalizer/claude.py:287-440 | The answer is the sessions of the subject with a record not of another author, each once and in order of id, each with exactly those records in order and with its own fields |
| AdmissionLaws.AnswersIff | src/mybench/normalizer/claude.py:287-440 | An answer is given if and only if the input is not empty, the sessions shown have different ids, and each states well-formed fields, ranges, times and records |
| Transcripts.CheckedNodes | src/mybench/normalizer/claude.py:443-451 | Checked sessions are valid input of the stitcher |
| ClaudeCorpus.BlocksRead | src/mybench/normalizer/claude.py:1315-1440 | Any list of content blocks adds only details that may follow each other, counts them exactly, and binds results to calls already noted |
| ClaudeCorpus.MessageOk | src/mybench/normalizer/claude.py:1274-1467 | Every message, well formed or not, yields acceptable details, exact counts and consistent tool positions |
| ClaudeCorpus.UnknownOk | src/mybench/normalizer/claude.py:1470-1534 | So does every record of unknown authorship |
| ClaudeCorpus.LifecycleOk | src/mybench/normalizer/claude.py:1537-1576 | So does every lifecycle record; a generation appears only on a context boundary |
| ClaudeCorpus.ParentEarlier | src/mybench/normalizer/claude.py:847-871 | A linked parent is an earlier record |
| ClaudeCorpus.RecordKeeps | src/mybench/normalizer/claude.py:1682-1747 | One step of the record loop keeps the whole growing-corpus invariant |
| ClaudeCorpus.SessionKeeps | src/mybench/normalizer/claude.py:1625-1747 | So does one session |
| ClaudeCorpus.WrittenAccepted | src/mybench/normalizer/claude.py:1749-1781 | An artifact assembled from such a corpus and the stitcher's answer satisfies the validator |
| ClaudeCorpus.ClaudeAccepted | src/mybench/normalizer/claude.py:1617-1781 | For every accepted input the produced artifact satisfies every condition of the validator |
| ClaudeNormalizer.MessageEvents | src/mybench/normalizer/claude.py:1274-1467 | The block loop computes the specified outcome |
| ClaudeNormalizer.NoteCalls | src/mybench/normalizer/claude.py:1442-1467 | The positions of unambiguous tool calls are noted |
| ClaudeNormalizer.SessionRecords | src/mybench/normalizer/claude.py:1679-1747 | The record loop computes the specified progress |
| ClaudeNormalizer.NormalizeClaude | src/mybench/normalizer/claude.py:1617-1781 | On checked sessions the producer raises exactly on a recorded cycle, and what it returns is accepted by the validator |
| ClaudeReadings.SidechainIs | src/mybench/normalizer/claude.py:583-595 | The mode of a session is what all its message records state, and unknown when they do not agree |
| ClaudeReadings.ConflictIs | src/mybench/normalizer/claude.py:1667-1677 | A session is inconsistent exactly when two records of the subject name different sessions |
| ClaudeReadings.GivenIs | src/mybench/normalizer/claude.py:874-888 | A tool id is ambiguous exactly when two tool-use blocks of the session carry it |
| ClaudeReadings.ParentIs | src/mybench/normalizer/claude.py:847-871 | The parent link: root without a parent uuid, missing when it is no string, ambiguous when two records carry it, the one earlier record that carries it, else dangling |
| ClaudeReadings.BlocksRead | src/mybench/normalizer/claude.py:1315-1440 | Block by block: a text gives a turn of the agent, of the human, or a paste by speaker, sidechain and the paste test; a tool use a call and what its input gives away; a tool result its call and a status that is failed, success or unknown as `is_error` is true, false or anything else |
| ClaudeReadings.MessageReads | src/mybench/normalizer/claude.py:1274-1467 | A message parses exactly when type, role and content fit, and states model and token counts from `model`, `provider`, `effort` and `usage`, then its blocks, at its own time |
| ClaudeReadings.UnknownReads | src/mybench/normalizer/claude.py:1470-1534 | A record of unknown authorship states the shapes of its texts and nothing else, and parses exactly when there is one |
| ClaudeReadings.LifecycleReads | src/mybench/normalizer/claude.py:1537-1576 | A lifecycle record states the marker of its subtype; a boundary its generation exactly when it is greater than that of every earlier boundary |
| ClaudeReadings.ReaderKnows | src/mybench/normalizer/claude.py:1127-1143 | A result is linked to the one earlier call under its id; ambiguous when the session gives the id out twice, dangling when no such call came before, missing without an id |
| ClaudeReadings.ClaudeSays | src/mybench/normalizer/claude.py:1617-1781 | The artifact says what the records say: every event states the fact that its record has at that place, with its time, parent and episode, and every fact of every record has its event |
| ClaudeCoverage.ClaudeCounts | src/mybench/normalizer/claude.py:1625-1747 | Every coverage counter is the sum of what each record adds: malformed, unsupported or parsed once, each block seen once, each text that is nobody's, each reference, each content not pointed at and each invalid member |
| ManifestLaws.ClosureIs | src/mybench/normalizer/claude.py:753-779 | Git closure: a moved head is bound exactly when a binding of the repository strictly between the rows of the session names it; no change exactly when the head did not move and there is no such binding |
| ManifestLaws.ClaudeLists | src/mybench/normalizer/claude.py:1644-1665 | The manifest has one entry for each session, in order, with its own fields, closure, episode and predecessor, the lane all its messages state, and whether it has a queue record |
| Noninterference.StitchingUnique | src/mybench/normalizer/claude.py:443-568 | The stitcher's specification determines its answer |
| Noninterference.SessionsUnmoved | src/mybench/normalizer/claude.py:1625-1747 | Renumbering records in order changes no event, counter or manifest entry |
| Noninterference.NormalizeInput | src/mybench/normalizer/claude.py:1617-1781 | From raw sessions: nothing where the filter or the stitcher raises, else an accepted artifact |
| Noninterference.FilterNoninterference | src/mybench/normalizer/claude.py:287-440 | Two inputs that admit the same sessions and records, up to session order and order-preserving renumbering, get the same output, whatever else they hold |
| Noninterference.ExcludedSessionUnwritten | src/mybench/normalizer/claude.py:287-440 | With or without a session that is not the subject's or has only records of others the first producer writes the same, or raises alike |
| Noninterference.ExcludedRecordUnwritten | src/mybench/normalizer/claude.py:287-440 | With or without a record of another author too |
| Pointers.MessageResolves | src/mybench/normalizer/claude.py:1106-1124 | The details of a message stand in the order of its emitting blocks, and each pointer resolves, in its own record, to exactly the whole text or the `input` value of the very block it was emitted for, whose name gives the tool family |
| Pointers.EveryPointerResolves | src/mybench/normalizer/claude.py:2506-2548 | Each event of a produced artifact has a pointer only if its record has a block for that subevent, and it resolves to exactly that block's text or input |
| Pointers.CommittedRecord | src/mybench/normalizer/claude.py:2440-2464 | The scan finds one subject match exactly when there is exactly one match and it is the subject's |
| Pointers.ResolveContentPointer | src/mybench/normalizer/claude.py:2551-2581 | A value returned from live or archived records is the value in the committed record; a live record is preferred; a missing target is reported only without an archive |
| CodexCorpus.RecordPartialsOk | src/mybench/normalizer/codex.py:539-606 | A decoded record raises exactly when it reaches a set test on a list or object or an argument string that cannot be encoded; every other record yields acceptable details, exact counts and a generation that rises |
| CodexCorpus.CodexRaisesIff | src/mybench/normalizer/codex.py:651-681 | The whole walk raises exactly when some admitted record does |
| CodexCorpus.ListRoleRaises | src/mybench/normalizer/codex.py:148-155 | A well-formed JSON record that makes the producer raise: a message whose role is a list |
| CodexCorpus.CodexAccepted | src/mybench/normalizer/codex.py:609-716 | Whatever artifact the second producer returns satisfies the same validator |
| CodexNormalizer.CodexRecords | src/mybench/normalizer/codex.py:651-681 | The record loop computes the specified progress and raises where it does |
| CodexNormalizer.NormalizeCodex | src/mybench/normalizer/codex.py:609-716 | On checked sessions it raises exactly on a recorded cycle or on an admitted record whose decoded JSON puts a list or object where a set is asked or arguments that cannot be encoded; what it returns is accepted by the validator |
| CodexReadings.TextsRead | src/mybench/normalizer/codex.py:148-201 | Only output texts of the assistant and input texts of the user say something: a turn of the agent, a turn of the human, or a paste |
| CodexReadings.CallReads | src/mybench/normalizer/codex.py:212-316 | A call states its family, and what its decoded input gives away |
| CodexReadings.OutputReads | src/mybench/normalizer/codex.py:319-355 | An output states the shape of its text, the call it belongs to, and success, failure or neither by its status |
| CodexReadings.UsageReads | src/mybench/normalizer/codex.py:358-391 | Token counts are those of the last usage under their new names, and none when one is no count |
| CodexReadings.SettingsRead | src/mybench/normalizer/codex.py:394-462 | Settings state the start of the session, the names that are allowed, and a change exactly when the model differs from the one named last before |
| CodexReadings.CompactionTells | src/mybench/normalizer/codex.py:465-492 | A compaction states a boundary, with its generation exactly when it is greater than all before |
| CodexReadings.UnknownReads | src/mybench/normalizer/codex.py:495-522 | A record of unknown authorship states the shapes of its texts and nothing else |
| CodexReadings.CodexSays | src/mybench/normalizer/codex.py:609-716 | Whatever artifact is returned says what the records say: every event states the fact that its record has at that place, with its time, chained parent and episode, and every fact has its event |
| CodexCoverage.CodexCounts | src/mybench/normalizer/codex.py:609-716 | Every coverage counter is the sum of what each record adds |
| ManifestLaws.CodexLists | src/mybench/normalizer/codex.py:616-641 | The manifest has one entry for each session with its own fields, closure, episode and predecessor, and neither lane nor launcher |
| CodexNormalizer.NormalizeCodexInput | src/mybench/normalizer/codex.py:609-716 | From raw sessions: nothing exactly where the filter, the stitcher or an admitted record raises, else an accepted artifact |
| CodexNormalizer.RecordResolves | src/mybench/normalizer/codex.py:148-253 | Every pointer of a record resolves in it to exactly the text of its own block or the value of its own call |
| CodexNormalizer.EveryCodexPointerResolves | src/mybench/normalizer/claude.py:2467-2503 | In a produced artifact each event that points at content resolves to exactly the text or call value its subevent came from |
| CodexNormalizer.CodexNoninterference | src/mybench/normalizer/codex.py:609-716 | What the filter leaves out, session order and record numbering do not reach the second producer's output |
| CodexNormalizer.ExcludedSessionUnwritten | src/mybench/normalizer/codex.py:609-716 | With or without a session that is not the subject's or has only records of others the second producer writes the same, or raises alike |
| CodexNormalizer.ExcludedRecordUnwritten | src/mybench/normalizer/codex.py:609-716 | With or without a record of another author too |
| Repo.CheckReferences | src/mybench/normalizer/repo.py:253-262 | Passes if and only if references are distinct and to admitted commits |
| Repo.CheckCommits | src/mybench/normalizer/repo.py:197-251 | Passes if and only if commits are distinct, each is well formed and its parents are admitted |
| Repo.CheckSnapshot | src/mybench/normalizer/repo.py:180-272 | Accepts exactly the well-formed snapshots |
| Repo.NormalizeRepoEvidence | src/mybench/normalizer/repo.py:275-403 | Raises exactly on an empty input, a malformed snapshot or a repeated repository; the artifact passes its validator if and only if every reference and worktree carries the provenance of its commit |
| Repo.BuildRepoArtifact | src/mybench/normalizer/repo.py:287-403 | The loops produce the specified artifact |
| Repo.SnapshotEvents | src/mybench/normalizer/repo.py:291-370 | One repository's events, numbered in order, and its counters |
| RepoLaws.ArtifactStates | src/mybench/normalizer/repo.py:291-370 | Each commit, tip, reflog entry and worktree of each snapshot has an event of its repository that states it field by field, change and class counts and every blob among them, and there is no other event |
| RepoLaws.ArtifactInOrder | src/mybench/normalizer/repo.py:291-370 | Within a repository events are numbered commits first, then tips, reflog entries and worktrees, each by rising name |
| RepoLaws.CoverageAddsUp | src/mybench/normalizer/repo.py:287-385 | Coverage adds up over the snapshots: commits by provenance, their blobs, those without a structure, and references and worktrees, each once |
| RepoLaws.StructureFineIff | src/mybench/normalizer/repo.py:209-245 | A structure is accepted exactly when the two lists of counts have their lengths and the same sum, blobs are sorted, distinct and of a known class, and no class has more blobs than changes |
| Repo.BodiesHoldIff | src/mybench/normalizer/repo.py:645-650 | The per-event conditions of the validator hold for a repository if and only if provenances agree |
| Repo.RepoAcceptedIff | src/mybench/normalizer/repo.py:447-658 | The validator accepts a produced artifact if and only if every reference and worktree carries its commit's provenance |
| Repo.DisagreementRefused | src/mybench/normalizer/repo.py:253-262 | A well-formed snapshot whose artifact the validator refuses: a live branch tip on an imported commit |
| Repo.GroupEvents | src/mybench/normalizer/repo.py:499-543 | Events are grouped by listed repository, in order, with recounted coverage, or refused |
| Repo.CheckRepository | src/mybench/normalizer/repo.py:544-656 | Passes if and only if the events of one repository satisfy the declarative condition |
| Repo.ValidateRepoArtifact | src/mybench/normalizer/repo.py:447-658 | The validator accepts exactly the artifacts that satisfy the declarative condition |

## Left out

- SHA-256, HMAC, Ed25519, OpenTimestamps, Bitcoin headers: digests are injective symbols, signature validity is a flag of an event, proofs are not modelled.
- JSON text: rows, records and artifacts are decoded values; printing and parsing are functions that satisfy the laws `Ledger.Faithful` names, and decoding of transcript records is an arbitrary function.
- Integers are unbounded as in Python. Ids, commits, repositories and file classes are numbers in the order of their strings; timestamps are microseconds, which is the order of their canonical text.
- LedgerWriters.AppendRow: assumes that one `os.write` takes the whole row unless the process dies, as the code does; `LedgerRuns.ActKeeps` covers a row of which any part was written.
- LedgerWriters.Append: the optional metadata fields of rows (models, token counts, worktrees, heads) are left out; they take part only in the row hash.
- Nonces.AppendLoads: nonce files are sequences of row texts, newlines and fragments of a row, not bytes.
- CaptureRuns.RunKeeps: sees the ledger as rows, a durable count and a torn-tail flag; `LedgerView.RunShown` matches every byte-level run by moves of that view, but the two models are not joined into one run.
- CaptureDaemon.Daemon.ScanOnce: leaves out directory walking, exclusions, provenance lookup, health records and the lifecycle flush inside the scan; the event rows a flush adds are rows of another writer in `CaptureRuns.RunKeeps`.
- CaptureDaemon.Daemon.DrawNonces: random bytes are arbitrary 32-byte strings, not necessarily different.
- Lifecycle.QueueFile.Flush: decoding and field rules of a queue record are one arbitrary function; the git fields of event rows are left out.
- Lifecycle.CompactionSafeIff: power loss during compaction may also reorder the overwrite and the truncation; only kills are modelled.
- NormalizedStore.ArtifactDirectory.Store: leaves out mode bits, symbolic links, the read-back comparison, the race against a second installer, and retries of a random temporary name; inode numbers are never reused.
- NormalizedStore.NeverOverwritten: after power loss the final name may be gone if its link was not yet synced; it is never there with other bytes.
- Anchors.Publish: leaves out the contents of records and proofs, the leak gate and git itself; a commit takes the whole index, a commit of other files is one act, and a torn event file is not modelled.
- Anchors.AnchorChainContinuity: takes ranges inside the ledger, which the scorer has established before (`src/mybench/scorer/score.py:102-153`).
- AgentHours.Score: coverage, backfill and duration bands are tables over these totals and are left out.
- LeakScan.ScanFile: reports canaries, not the place and form of each hit; decompression is an arbitrary partial function.
- ClaudeNormalizer.NormalizeClaude: label, shape, tool-family, reference, test-command and forge classifiers, and the tables for arrival pattern, opening and outcome of an episode, are arbitrary functions, so the results hold for every choice of them. Serialization and the corpus commitment of the artifact are left out.
- CorpusChecker.ValidateCorpus: the classifications of an episode table row are one arbitrary function of its id, the sessions and the events, on both sides as in the code; field whitelists of events are types; remaining regular-expression tests are flags of an event. The order test comes first in the model and last in the code, which changes which error is raised and not whether one is.
- CorpusChecker.Visit: Python's recursion limit on very long lineage chains is not modelled.
- CodexNormalizer.NormalizeCodex: which strings can be encoded as UTF-8, and the decoding of call arguments for the classifiers, are arbitrary functions.
- Admission.CheckInputSessions: tests of Python types are part of one flag per session and record.
- Pointers.ResolveContentPointer: finding the live and archived files of a session is left out; both are given as lists of candidate records.
- Repo.NormalizeRepoEvidence: object formats and hexadecimal syntax are left out; change kinds and file classes are five and eight counters.
- Registry, claims, scan configuration and health, topology inventory, key bootstrap, report rendering, command lines and scheduler units would add only shape tests and formatting.
