# A verified model of the mcpip gateway

mcpip puts a gateway between AI agents and the tools they call. Every decision goes into a
signed, Merkle-batched write-once ledger; a dangerous call runs only after a human approved its
exact payload under a PIN; the tools themselves are registered under a posture floor. This
project models those three parts in Dafny and proves what they promise. The command
`dafny verify dfyconfig.toml` checks it all.

## The ledger

* `Merkle` – the tree with domain-separated leaves and duplicate-last levels: what a root
  determines, what a proof of any shape proves.
* `WormStore`, `WormVerify`, `Anchor`, `WormIncremental`, `WormProofs`, `DecisionQuery` – the Redis
  keys and scripts, the full and the incremental verifier, the anchor file, inclusion proofs and
  the two event readers, each a method with the source's loops, proved against a function.
  `QuerySelection` – what those readers select, stated on the stream.
* `WormSoundness` – what an accepted store is, whatever it contains. `WormHotWindow` – which events
  acceptance protects, exactly. `WormFirstBad`, `WormTamper` – which epoch a refusal names.
* `WormMachine` – one step per Redis command or script, crashes between any two, emits at any time.
  `WormInvariant`, `WormSteps`, `WormTrim`, `WormFold` keep its invariant; `WormRuns` draws the
  conclusions; `WormHonest` proves an undisturbed store intact.
* `WormRetention` – what a close and a compaction leave in every key and in the anchor file.
* `WormCheckpoint` – folding a prefix into a checkpoint keeps the verdict. `WormScope`, `WormHotFold`,
  `WormRows` – which location and index rows exist, and what strands them. `WormOverlap` – what the
  lock is for.
* `WormLogger` – the logger as a class; its operations, uninterrupted, are runs of the machine.
* `WormHash`, `WormSha` – the abstract hashes built from SHA-256 over the bytes the source hashes,
  and soundness down to those bytes.

## One approval, one execution

* `CanonicalJson`, `CanonicalText`, `CanonicalInjective`, `CanonicalNodes` – the canonical encoder:
  its bytes determine the value, and bound its node count. `CanonicalForms` – its text and bytes,
  form by form.
* `ArgumentWalker`, `WalkerFacts` – the ingress walk and its counter. `ReservedKeys` – what it refuses.
* `PayloadLock`, `LockRuns` – the lock record, its script and the validator, over any sequence of
  attempts, and what a lock does for the one it was made for.
* `Gateway`, `GatewayRuns`, `GatewayCall` – concurrent calls over lock store and ledger, with
  failures and lost replies anywhere, and the pipeline of one call as a method. `GatewayTraces` –
  what comes before an execution.
* `ProofOfPossession` – freshness and replay; the delegation chain.

## Targets and the posture floor

* `Targets`, `TargetGrammar`, `TargetSecondPass` – the canonicaliser as a method, the grammar its
  fixed points form, and when one pass reaches them. `TargetSpellings` – the spellings it folds.
* `PostureFloor`, `PostureTemplates` – overlap of patterns, and the floor over sequences of
  registrations.

## How to read the claims

A hash is arbitrary, so no statement assumes that collisions do not exist: each names two *finite*
sets of inputs that were really hashed and says "or some input of one collides with a different
input of the other". A signature is the message it was made for, and it verifies when that message
is in the set of signed messages. Where the ledger is compared with what really happened, the
comparison is with a `History`: all events ever emitted and all headers ever committed.

## Where the code says otherwise than its comments

The model follows the code in each of these, and a lemma states what then holds.

* The roots of `[a, b, c]` and `[a, b, c, c]` agree, and the empty root is the root of one empty
  record; equal leaf counts are needed to recover the list (`Merkle.RootDetermines`,
  `Merkle.CountAndRootDetermine`).
* The commit guard compares epoch numbers only. A closer that outlived its lock can append a header
  over the wrong events; it verifies exactly when the events are the next ones (`WormOverlap.CommitIntactIff`).
* Location and index rows are not always those of the window. A location is stranded for good by a
  crash between a commit and the drop of the fallen epoch's locations, and by a trim that no longer
  finds the fallen header because a compaction folded into the hot window; by nothing else
  (`WormScope.PopulationExactIff`, `WormScope.LeftBehindForGood`, `WormHotFold.FoldingHotStrands`).
  An index row is stranded by a crash between the two deletions of a clean-up (`WormRows.RowsExactIff`).
* The replay skips headers folded into the checkpoint, so their events are not looked at, even inside
  the hot window: a store without any event of such an epoch is accepted
  (`WormHotWindow.DeletionUnseenIff`, `WormHotWindow.HotUnseenIff`), and after a compaction that keeps
  no epochs, so is one without any event at all (`WormHotWindow.EmptiedIsIntact`).
* A closer whose commit was refused still records its own hash in the anchor, which can make an honest
  ledger fail verification (`WormOverlap.RefusedRecordIntactIff`).
* Compaction signs the header it finds in the index, not the one it verified in the stream
  (`WormCheckpoint.SignedFoldingIsGenuineIff`).
* Incremental verification takes the last sequence number of the trusted header on faith
  (`WormIncremental.EndIsTakenOnFaith`).
* Anchor rotation keeps the head only when the head is at or above the cut
  (`Anchor.RotationKeepsHeadIff`).
* No cursor does not mean that nothing is left: a decision query with a zero limit or budget, or
  whose first read fails, returns none with `exhausted` false
  (`DecisionQuery.QueryDecisions`).
* A wrong PIN in the very millisecond of expiry makes the lock record permanent
  (`PayloadLock.ExpiryKeptIff`, `PayloadLock.PermanentIff`, `PayloadLock.InstantOutlives`).
* The node ceiling can refuse arguments that the byte limit would admit, when keys collide under NFC:
  exactly when is `WalkerFacts.CeilingDecidesIff`, and the 64 spellings of one key with K and the
  Kelvin sign, an array under each, are such an input and fit a request body
  (`WalkerFacts.KelvinHitsCeiling`). Otherwise it never decides
  (`WalkerFacts.CeilingNeverDecides`).
* The order of members whose keys collide under NFC does change the bytes, exactly when it changes a
  key's last value (`CanonicalNodes.OrderMattersIff`, `CanonicalNodes.CollidingOrderMatters`).
* The canonicaliser is not idempotent: `https://h/%2541` takes two passes (`TargetSecondPass.EncodedTwice`),
  and so does `https://h/%20`, whose blank is stripped only once it is decoded
  (`TargetSecondPass.BlankUncovered`); what one pass is enough for is `TargetSecondPass.SecondPassIff`.
* `_target_subsumes` is symmetric (`PostureFloor.SubsumesIff`).
* The posture table has no rank for `classified`, so an existing classified entry can be undercut in
  classification (`PostureFloor.UndercutUnseenIff`, `PostureFloor.SensitivityFallsIff`); the shipped
  telemetry skill is one (`PostureFloor.TelemetryIsUndercut`).
* The PIN pattern ends in `$`, so six digits followed by one line feed match as well; `PayloadLock.Hashing.PinShaped`
  accepts them.

## Model

| member | source | states |
|---|---|---|
| Merkle.MerkleRoot | audit/merkle.py:48-62 | the level-by-level loop computes the recursive root, the fixed one for no leaves |
| Merkle.InclusionProof | audit/merkle.py:65-83 | the loop over levels collects the sibling path of the leaf |
| Merkle.VerifyInclusion | audit/merkle.py:86-92 | accepts exactly the proofs whose climb from the leaf ends at the root |
| Merkle.PathVerifies | audit/merkle.py:65-92 | a generated path climbs to the root and is as long as the tree is high |
| Merkle.HeightIsCeilLog2 | audit/merkle.py:57-61 | the number of levels is the least k with 2^k at least the leaf count |
| Merkle.PathDescends | audit/merkle.py:73-82 | the sides of a generated path spell the index it was generated for |
| Merkle.ProofSound | audit/merkle.py:86-92 | any verifying proof, of any length and shape, is as long as the tree is high and names the record at the position its sides spell, or an input hashed in checking it collides with one of the tree's |
| Merkle.RootDetermines | audit/merkle.py:48-62 | two lists share a root iff the duplicate-last rule completes them alike, collisions of their inputs aside |
| Merkle.CountAndRootDetermine | audit/merkle.py:48-62 | lists of one length with one root are equal, collisions aside, so the signed leaf count closes the gap |
| Merkle.RepeatedLastRecordSharesRoot | audit/merkle.py:58-60 | repeating the last record of an odd list keeps the root |
| Merkle.CollisionInBytes | audit/merkle.py:38-45 | a collision of tagged inputs is a SHA-256 collision of two different byte strings: the domain prefixes keep leaves and nodes apart |
| WormHash.CoreCollisionInBytes | audit/worm_logger.py:568-589 | a collision of header cores is a SHA-256 collision of different canonical bytes |
| WormHash.CoreBytesInjective | audit/worm_logger.py:568-589 | the hashed bytes of a header determine its nine fields |
| WormStore.HashEpochLeaves | audit/worm_logger.py:608-617 | one pass gives both the leaf digests and the root over them |
| WormStore.CommitIdempotent | audit/worm_logger.py:146-169 | running one commit a second time changes no key and replies as the first did |
| WormVerify.ReadAllRecords | audit/worm_logger.py:2187-2193 | the buffer read into a map, the later entry winning |
| WormVerify.VerifyHeaderFields | audit/worm_logger.py:1974-2057 | the checks of one header: accepts iff link, number, start, presence, hash and signature all hold |
| WormVerify.ReplayHeaders | audit/worm_logger.py:1861-1935 | the replay loop with its running variables is the fold of the single-header step |
| WormVerify.VerifyEpoch | audit/worm_logger.py:1831-1972 | the whole verification, as a function of everything it read |
| WormFirstBad.VerdictExactly | audit/worm_logger.py:1831-1972 | the verdict read off the stored entries: 0 for an unverifiable checkpoint; else the number of the first entry after it that does not continue the one before, is not hashed and signed, or lacks its events; else what counters and anchor say, with the number they report |
| WormTamper.ChangedEntryLocated | audit/worm_logger.py:1894-1935 | on every reachable ledger left alone before epoch k, with another entry in the place of k, the verdict names k, or headers collide; with no entry left from there it names the last one |
| WormTamper.ChangedRecordLocated | audit/worm_logger.py:1996-2029 | likewise when the records of k are not those it was sealed over, unless they are all gone and k is behind the hot window; or records collide |
| WormSoundness.AcceptedStoreIsHonest | audit/worm_logger.py:1831-2057 | for arbitrary stored content, an intact verdict pins the headers after the checkpoint to the honestly sealed epochs up to the claimed number, the events of every epoch both after the checkpoint and above the watermark to the sealed records in order, and so those of every hot epoch when the checkpoint lies behind the hot window, and the anchor's epoch at or below it; or exhibits a collision between sealed and stored inputs |
| WormSha.AcceptedStoreInBytes | audit/worm_logger.py:1831-2057 | the same with SHA-256 over the bytes the source hashes, the collision being of two different byte strings |
| WormHotWindow.DeletionUnseenIff | audit/worm_logger.py:1889-2020 | for each sealed epoch: some accepted store claiming the same number lacks all its events iff the epoch is folded into the checkpoint or behind the hot window, two sealed headers that collide aside |
| WormHotWindow.HotUnseenIff | audit/worm_logger.py:1889-2020 | so a hot epoch's events can vanish unseen iff the checkpoint lies inside the hot window |
| WormHotWindow.EmptiedIsIntact | audit/worm_logger.py:1097-1171 | after a compaction that keeps no epochs, from any safe state, the store without its headers and events still verifies |
| WormHonest.HonestSnapshotIntact | audit/worm_logger.py:1831-1972 | whatever retention, folding and emits have done, what an undisturbed ledger holds verifies as (True, None) |
| WormRuns.NoFalseTamper | audit/worm_logger.py:878-1202 | no state reached by any interleaving of emits, closes, trims, compactions, anchor appends and crashes is called tampered with, read at once or over several steps |
| WormRuns.EpochsPartition | audit/worm_logger.py:889-1020 | on every reachable state the sealed epochs partition the sealed sequence numbers into ranges of at most the leaf cap, and the four linkage counters match the last header |
| WormRuns.CommittedIsFixed | audit/worm_logger.py:146-169 | two entries of one epoch number seen at any two moments of a run are the same entry, and the counter never goes back |
| WormRuns.RunAdvances | audit/worm_logger.py:1120-1171 | the checkpoint only moves forward |
| WormOverlap.CommitIntactIff | audit/worm_logger.py:147-151 | a commit over any stretch of the log leaves an intact ledger iff the stretch starts right after the last sealed event |
| WormOverlap.RefusedRecordIntactIff | audit/worm_logger.py:1022-1027 | after a refused commit has recorded its hash, the ledger verifies iff the anchor already reached that epoch, the checkpoint covers it, or the hash is the sealed one |
| WormScope.PopulationExactIff | audit/worm_logger.py:1045-1083 | on every run, whenever the lock is free: an id has a location entry iff its event is in a hot epoch, if and only if no step stranded any, that is, no crash came between a commit and the drop of a fallen epoch's locations and no trim missed the fallen header |
| WormScope.KeptPopulationExactIff | audit/worm_logger.py:1045-1083 | when every compaction keeps the hot window, such a crash is the only cause |
| WormScope.StrandingLeavesBehind | audit/worm_logger.py:1045-1083 | each such step leaves a location of the fallen epoch, shown by its id, with the lock free |
| WormScope.LeftBehindForGood | audit/worm_logger.py:1045-1083 | such a location stays for the rest of every run |
| WormHotFold.FoldingHotStrands | audit/worm_logger.py:1097-1202 | a compaction that keeps less than the hot window makes the next close leave locations outside the window |
| WormRows.RowsExactIff | audit/worm_logger.py:1173-1202 | on every run, whenever the lock is free: every index row has its header in the stream, if and only if no crash came between the deletion of folded headers and that of their rows |
| WormRows.CrashLeavesRow | audit/worm_logger.py:1173-1202 | such a crash leaves the row of the folded target |
| WormRows.RowLeftForGood | audit/worm_logger.py:1173-1202 | such a row stays for the rest of every run |
| WormLogger.Logger.Emit | audit/worm_logger.py:117-124 | allocates the next sequence number and appends the event in one step |
| WormLogger.Logger.CloseEpoch | audit/worm_logger.py:878-1043 | the whole close: which header is returned and the new content of every key |
| WormLogger.Logger.TrimRetention | audit/worm_logger.py:1045-1083 | the whole trim of the epoch that fell out of the hot window |
| WormLogger.Logger.VerifyChain | audit/worm_logger.py:1602-1654 | the verdict over the store as it stands |
| WormLogger.Logger.TrimCompactedHeaders | audit/worm_logger.py:1173-1202 | the folded headers go from the stream and the three lookups |
| WormLogger.Logger.Compact | audit/worm_logger.py:1097-1171 | the whole compaction: the checkpoint returned and the new content of every key |
| WormLogger.CloseSeals | audit/worm_logger.py:878-1043 | from any safe state a close seals exactly the next stretch of the log, up to the cap, and leaves a safe state |
| WormRetention.CloseRecords | audit/worm_logger.py:1022-1027 | after a close from any safe state the anchor file's head is the epoch just sealed |
| WormRetention.CloseTrims | audit/worm_logger.py:1045-1083 | once an epoch falls out of the hot window the buffer starts right after it and its leaf vector is gone |
| WormRetention.CloseKeeps | audit/worm_logger.py:1045-1060 | while every epoch is hot nothing is trimmed |
| WormLogger.CompactFolds | audit/worm_logger.py:1097-1171 | from any safe state a compaction signs the genuine checkpoint of the epoch `keep` before the last exactly when there is one, past the last checkpoint by at least the stride, and leaves a safe state |
| WormRetention.CompactClears | audit/worm_logger.py:1140-1202 | a compaction leaves exactly the headers past its target, drops the folded rows from the three lookups, rotates the anchor file and touches nothing else |
| WormLogger.CompactRuns | audit/worm_logger.py:1097-1202 | the method's effect is a run of the machine |
| WormLogger.CloseRuns | audit/worm_logger.py:878-1083 | the method's effect is a run of the machine |
| WormCheckpoint.CompactionKeepsVerdict | audit/worm_logger.py:1840-1904 | folding a clean prefix, with any part of it still undeleted, gives the verdict the replay from before the fold gives, unless the anchor contradicts the prefix, and then that replay was not intact either |
| WormCheckpoint.FoldingIntactStaysIntact | audit/worm_logger.py:1120-1202 | folding any prefix of an intact ledger is intact, half deleted or not |
| WormCheckpoint.SignedFoldingIsGenuineIff | audit/worm_logger.py:1133-1160 | the checkpoint signed is genuine iff the indexed header agrees with the verified one on hash and end |
| WormIncremental.VerifyEpochIncremental | audit/worm_logger.py:2059-2185 | the resumed verification, as a function of everything it read |
| WormFirstBad.IncrementalExactly | audit/worm_logger.py:2059-2185 | the incremental verdict, likewise: the full one where it is deferred to, the trusted number when the trusted header is not found, else from the entries after it |
| WormIncremental.IncrementalAcceptance | audit/worm_logger.py:2059-2185 | on any store, acceptance re-anchors at the trusted header and pins every later header, and the events of every later epoch in the hot window, to the history, or exhibits a collision; with nothing later the counters equal what the trusted header says |
| WormIncremental.EndIsTakenOnFaith | audit/worm_logger.py:2117-2126 | for every end there is an accepted store whose trusted header claims it |
| WormIncremental.IncrementalAgreesIff | audit/worm_logger.py:2059-2185 | on every reachable state it agrees with full verification iff the trusted pair was sealed, or the checkpoint makes it fall back |
| WormProofs.ProveInclusion | audit/worm_logger.py:1229-1299 | the proof assembled from four reads made at different times |
| WormProofs.ProofsVerify | audit/worm_logger.py:1229-1299 | however its reads are spread over a run, a returned proof is about the id asked for, climbs to the root of its signed header and has the height of its epoch |
| WormProofs.ProvableEventsAreProven | audit/worm_logger.py:1229-1299 | every event of an epoch still provable at the last read gets a proof |
| Anchor.AnchorStore.Record | audit/anchor.py:76-91 | appends one signed line |
| Anchor.AnchorStore.ReadHead | audit/anchor.py:97-112 | the scan finds the head over the lines that verify |
| Anchor.HeadIsHighest | audit/anchor.py:97-112 | the head is a verified line and no verified line has a higher epoch |
| Anchor.AnchorStore.CompactFile | audit/anchor.py:152-178 | keeps exactly the verified lines at or above the cut, in order |
| Anchor.RecordRaisesHead | audit/anchor.py:76-112 | appending makes the new line the head unless a line of that epoch or a later one already is |
| Anchor.RotationKeepsHeadIff | audit/anchor.py:152-178 | rotation keeps the head iff there is none or it is at or above the cut, and otherwise leaves no head |
| Anchor.RotationKeepsExactly | audit/anchor.py:152-178 | of the lines exactly the verified ones at or above the cut are left, each once and in order |
| DecisionQuery.QueryDecisions | audit/worm_logger.py:1452-1497 | a page is an exact account of the entries it examined, whatever failed, and stops where limit, budget or range say when nothing did; it has no cursor though not exhausted iff limit or budget is zero or the first read fails |
| DecisionQuery.FollowingIsExact | audit/worm_logger.py:1452-1497 | following cursors returns the matching entries of the part examined, newest first, each once, and an exhausted page means that part is the whole range |
| DecisionQuery.FollowingEnds | audit/worm_logger.py:1452-1497 | the pages followed are at most one more than the entries of the range |
| DecisionQuery.ProgressOrDone | audit/worm_logger.py:1452-1497 | with limit and budget at least one and no error, a page is exhausted or can be followed |
| QuerySelection.PageSelects | audit/worm_logger.py:1452-1497 | a page holds, newest first, exactly the matching entries of the range down to its cursor, or all of them when exhausted |
| QuerySelection.WindowIff | audit/worm_logger.py:1463-1480 | an entry is read backwards iff it is in the range |
| QuerySelection.AfterIff | audit/worm_logger.py:1565-1600 | an entry is read forwards iff it comes after the cursor |
| QuerySelection.MatchingIff | audit/worm_logger.py:1480-1497 | an entry examined is returned iff it matches |
| QuerySelection.StopExactly | audit/worm_logger.py:1463-1497 | a reader stops at the first point where limit or bound is reached or nothing is left |
| DecisionQuery.ScanAlerts | audit/worm_logger.py:1565-1600 | returns the matching entries up to its bounds and a cursor after which exactly the rest comes; an error moves nothing |
| DecisionQuery.PollingIsExact | audit/worm_logger.py:1565-1600 | any sequence of polls, failing or not, returns the matching entries of one front part, each once and in order |
| CanonicalText.RenderUnique | interfaces.py:521-534 | rendered text parses one way: equal texts followed by delimiters have equal values and rests |
| CanonicalText.Utf8Injective | interfaces.py:521-534 | equal UTF-8 bytes have equal text |
| CanonicalForms.ContainersWritten | interfaces.py:521-534 | items and members between commas, a key and its value around a colon, without blanks |
| CanonicalForms.CharactersWritten | interfaces.py:521-534 | the two-character escapes, six characters for other controls, all other characters as they are |
| CanonicalForms.Utf8Middle | interfaces.py:521-534 | three bytes carry the code point, as one, two and four do for theirs |
| CanonicalInjective.CanonicalIffSame | interfaces.py:465-534 | canonical bytes are equal iff the NFC-normalised values are equal, arbitrarily nested, whatever order members were inserted in |
| CanonicalNodes.OrderDoesNotMatter | interfaces.py:465-534 | values that are equal up to the order of members, at any depth, have the same bytes when no keys of one object collide under NFC |
| CanonicalNodes.SameBytesIffLast | interfaces.py:465-534 | any two objects have the same bytes iff under every normalised key the last member's values agree under NFC |
| CanonicalNodes.OrderMattersIff | interfaces.py:465-534 | two orders of the same members have the same bytes iff they agree on the last value of every normalised key |
| CanonicalNodes.CollidingOrderMatters | interfaces.py:478-492 | two members whose keys collide give different bytes in the two orders |
| CanonicalNodes.NodesWithinBytes | bridge/intent_parser.py:50-75 | when no keys of one object collide under NFC, the node count is at most the canonical length |
| CanonicalNodes.CollidingKeysOutgrowBytes | bridge/intent_parser.py:163-178 | different keys that collide are all counted, while the bytes stay those of one member |
| ArgumentWalker.RejectUnsafeString | interfaces.py:410-462 | the scan with its printable-ASCII shortcut decides as the full scan would |
| ArgumentWalker.NodeCounter.Bump | bridge/intent_parser.py:62-75 | counts one node and says whether the ceiling still holds |
| ArgumentWalker.WalkNode | bridge/intent_parser.py:134-202 | the recursive walk and its mutable counter compute the specified walk, failures included |
| ArgumentWalker.EnforceArgumentSafety | bridge/intent_parser.py:231-257 | walk, then byte limit: exactly the specified result |
| ReservedKeys.DisguiseFoundIff | bridge/intent_parser.py:82-130 | the test finds a key iff its casefolded compatibility form is one of the thirteen reserved names with format characters inserted anywhere |
| ReservedKeys.ReservedRefused | bridge/intent_parser.py:134-202 | arguments with such a key at any depth are refused |
| ReservedKeys.ReservedIsInjection | bridge/intent_parser.py:165-175 | when such a key is the first thing wrong the walk comes to, it is refused as an identity injection |
| ReservedKeys.StringRefusedIff | interfaces.py:367-462 | a string is refused for a character iff its NFC form has a control, bidirectional, zero-width or hidden one, and then for its length |
| ReservedKeys.SmugglingRefused | bridge/intent_parser.py:134-202 | arguments with such a character in a key or value at any depth are refused |
| ReservedKeys.NonFiniteRefused | bridge/intent_parser.py:189-197 | NaN and the infinities are refused at any depth |
| WalkerFacts.WalkIff | bridge/intent_parser.py:134-202 | the walk succeeds iff the arguments are admissible at every level and the nodes fit, and then yields their NFC form and the count |
| WalkerFacts.EnforcedIsSafe | bridge/intent_parser.py:231-257 | admitted arguments are safe at every level, within the byte limit, and are admitted again unchanged |
| WalkerFacts.CeilingNeverDecides | bridge/intent_parser.py:50-75 | with keys distinct under NFC, any larger ceiling gives the same verdict and the same value |
| WalkerFacts.CeilingDecidesIff | bridge/intent_parser.py:50-75 | a larger ceiling changes the verdict iff the arguments are admissible, their nodes exceed the ceiling but not the larger one, and the normal form fits the byte limit; what is admitted stays admitted unchanged |
| WalkerFacts.CollidingKeysHitCeiling | bridge/intent_parser.py:163-178 | with 64 different keys that collide and an array of 256 zeros under each, the ceiling refuses an object a larger one admits |
| WalkerFacts.KelvinHitsCeiling | bridge/intent_parser.py:163-178 | the 64 spellings of six Ks with K or the Kelvin sign give such an object, and its JSON is within the size of a request body |
| PayloadLock.PayloadHashBinds | auth/pin_validator.py:176-195 | lock hashes agree iff tenant, agent, alias and arguments agree under NFC, a collision of those two payloads aside |
| PayloadLock.Diff | auth/pin_validator.py:128-169 | the byte loop's XOR-fold is zero iff the digests are equal |
| PayloadLock.PinSaltIff | auth/pin_validator.py:93-112 | PIN digests of two locks have one salt iff tenant, lock id and payload hash agree under NFC |
| PayloadLock.LockStore.Consume | auth/pin_validator.py:128-169 | the script: 1, -1, -2 or -3 and what each leaves of the record, from the record, the clock and the digests presented; all other keys unchanged |
| PayloadLock.LockStore.Register | auth/pin_validator.py:211-269 | SET NX with the TTL: never replaces a live lock |
| PayloadLock.LockKeyIff | auth/pin_validator.py:198-200 | the key text tells tenant and lock id apart when the ids hold no colon |
| PayloadLock.LockKeyBinds | auth/pin_validator.py:198-200 | whatever ids were presented, one key text for tenants that agree under NFC is one tenant and one lock id |
| PayloadLock.PinValidator.Register | auth/pin_validator.py:211-269 | refuses exactly a misshapen PIN, issues exactly when no live lock is there, stores digest and payload hash of exactly this request, and leaves other locks alone |
| LockRuns.PinShapedIff | auth/pin_validator.py:211-240 | a PIN is six digits, or six digits and a newline |
| PayloadLock.PinValidator.Consume | auth/pin_validator.py:271-318 | replies as the script does for the digest and hash of exactly this request |
| PayloadLock.LockBounds | auth/pin_validator.py:128-169 | over any sequence of attempts at most one succeeds, at most PIN_MAX_ATTEMPTS fail on the PIN, fewer if one succeeds, and the success had the stored PIN digest and payload |
| LockRuns.LockExactly | auth/pin_validator.py:128-169 | over any attempts before the expiry the record keeps its digests and expiry and counts the wrong PINs, until the right attempt or the last wrong PIN allowed removes it |
| LockRuns.AnswersExactly | auth/pin_validator.py:128-169 | an attempt in time is answered 1 iff it is right, none before it was, and fewer than the maximum were wrong PINs; -2, -3 and -1 likewise |
| LockRuns.LastWrongPin | auth/pin_validator.py:153-156 | the PIN_MAX_ATTEMPTS-th wrong PIN leaves nothing, and everything after is answered -1 |
| PayloadLock.WrongPayloadsAreFree | auth/pin_validator.py:128-169 | any number of payload mismatches, presented in time, leave the record as it was |
| PayloadLock.ExpiryKeptIff | auth/pin_validator.py:156-163 | an attempt makes an expiring record permanent iff it is a wrong PIN for the right payload, short of the lockout, in the millisecond of expiry; otherwise the expiry stays |
| PayloadLock.PermanentIff | auth/pin_validator.py:156-163 | over any sequence of attempts the record has lost its expiry iff one of them was such an attempt |
| PayloadLock.ExpiryNeverMoves | auth/pin_validator.py:156-163 | over any attempts off that instant the expiry never moves and later attempts find nothing |
| PayloadLock.InstantOutlives | auth/pin_validator.py:156-163 | after a wrong PIN in that instant the right PIN is accepted at any later time |
| GatewayRuns.ExactlyOnce | main.py:305-410 | in every interleaving of concurrent calls with failures anywhere, each execution follows a durable ALLOW with its own correlation id, and each PIN execution spends a lock of its own, registered for the same tenant, lock id, agent, alias and arguments up to NFC, or a colliding payload; locks are found by the key text |
| GatewayRuns.StepKeeps | main.py:305-410 | every step keeps the invariant that gives this |
| GatewayCall.MCPIPGateway.AuthorizeAndExecute | main.py:282-410 | allowed iff the gates pass, a PIN call presents what its live lock holds and is told so, the ALLOW is acknowledged, and the transport runs and succeeds; what is executed, logged and left of the locks is stated from the state before; a call whose gates fail executes nothing and touches no lock |
| GatewayCall.CallOutcome | main.py:282-410 | the same of the specified stages |
| GatewayCall.ApprovedCallExecutes | main.py:365-395 | after a registration that goes through, the call it was for executes iff its gates pass, its effects are answered and the lock has not expired |
| GatewayTraces.ExecutedInOrder | main.py:305-410 | in every interleaving an execution comes after its call's passed gate, its answered consume if a PIN is required, and its acknowledged ALLOW, in this order, and no call whose gate failed is executed |
| GatewayCall.AuthorizedFacts | main.py:636-672 | before any ALLOW, a PIN call got past the stages only by a successful consume of its own lock, and an auto call touched no lock |
| GatewayCall.ConcludedFacts | main.py:674-728 | dispatch happens iff the call was authorised, its ALLOW is durable and the transport was reached; the caller sees success iff it also reported one |
| ProofOfPossession.RedisReplayGuard.Record | auth/pop.py:146-162 | SET NX EX: newly seen iff reachable and no live record, which it then leaves |
| ProofOfPossession.RedisReplayGuard.Verify | auth/pop.py:257-269 | accepts iff fresh and not on record, and records for max age plus skew |
| ProofOfPossession.SingleUseIff | auth/pop.py:257-269 | over every non-decreasing clock a proof is accepted at most once iff records are kept at least max age plus skew, so the bound is tight |
| ProofOfPossession.AcceptedOnce | auth/pop.py:257-269 | no two presentations of one proof are both accepted when records are kept that long |
| ProofOfPossession.AcceptedIff | auth/pop.py:257-269 | a presentation is accepted iff the guard is reached, the proof is in its window, and no accepted one of its id is still on record |
| ProofOfPossession.ProjectActChain | auth/pop.py:308-341 | the whole chain in order, or refusal when a hop is malformed or the chain longer than its ceiling |
| ProofOfPossession.NestedIff | auth/pop.py:308-341 | a chain is well formed with these subjects iff it is these subjects nested, none empty |
| Targets.ResolveSegments | app/main.py:6173-6215 | the stack loop over the segments |
| TargetSpellings.UpCancels | app/main.py:6190-6205 | a `..` cancels with a naming segment right before it, whatever stands around them |
| TargetSpellings.LeadingUp | app/main.py:6190-6205 | with nothing before it a `..` is dropped |
| TargetSpellings.DotSkipped | app/main.py:6190-6205 | empty and `.` segments are dropped anywhere |
| TargetSpellings.NamesStay | app/main.py:6190-6205 | without these the segments stay, decoded and in order |
| TargetSpellings.SegmentSpelt | app/main.py:6191-6194 | a segment is its text up to the first semicolon, whichever of its characters are escaped |
| Targets.CanonicalTarget | app/main.py:6136-6215 | the canonicaliser: the strip, then the folds in the source's order |
| TargetSpellings.SameCanonicalIff | app/main.py:6136-6215 | two written URLs have one canonical form iff they agree in the scheme up to case, the folded location and what is left of their segments |
| TargetSpellings.UpCancelsInUrl | app/main.py:6136-6215 | so a segment and the `..` after it, and a query or fragment, may be left out |
| TargetSpellings.SpeltUrl | app/main.py:6136-6215 | however its segments are escaped and parametrised, a URL's canonical form has their names |
| TargetSpellings.HostSpelt | app/main.py:6180-6187 | letter case and trailing dots of a host make no difference |
| TargetSpellings.PortSpelt | app/main.py:6183-6187 | a port is kept as a plain number unless zero or the scheme's own |
| TargetSpellings.InfoDropped | app/main.py:6181-6187 | user information is dropped |
| TargetGrammar.GrammarIff | app/main.py:6112-6126 | a target is its own canonical form iff it has no surrounding blanks and is in syntactic normal form, and passes the check for registration iff its stripped text is |
| TargetGrammar.ShortensOrLowers | app/main.py:6136-6215 | canonicalising never lengthens, and at equal length only changes case |
| TargetGrammar.PathFolds | app/main.py:6190-6215 | the path is never lengthened, and is unchanged iff normal |
| TargetSecondPass.SecondPassIff | app/main.py:6136-6215 | a second pass changes nothing iff, in the parts the first one read, the host stands on its own, every surviving segment is free of URL delimiters and parts into normal segments, and the last segment ends in no blank, nor, with no segment and no port left, does the host; when no location is left, iff the segments hold no capitals and end in no blank; and for a target not read as a URL, unless lower case makes it one |
| TargetSecondPass.EncodedTwice | app/main.py:6136-6215 | one pass of a doubly encoded target is not yet a fixed point |
| TargetSecondPass.BlankUncovered | app/main.py:6173-6215 | nor is one pass of a target whose last segment is an encoded blank |
| PostureFloor.SubsumesIff | app/main.py:6236-6258 | two patterns overlap iff some concrete resource matches both, in either order |
| PostureTemplates.TemplatesOverlapIff | app/main.py:6236-6258 | two templates overlap iff their segments pair up, a braced name with anything and the rest with its like |
| PostureTemplates.TemplateCoversIff | app/main.py:6236-6258 | a template covers the paths its braced names can stand for |
| PostureFloor.FirstConflict | app/main.py:6295-6337 | the scan finds an undercut entry iff there is one |
| PostureFloor.Catalog.PostureConflict | app/main.py:6295-6337 | conflict iff the overlay is unreadable or some entry is undercut; the alias disclosed is that of the first such entry, unless it has a compartment |
| PostureFloor.Catalog.RegisterSkill | app/main.py:6393-6428 | appends the entry to overlay and registry iff it is valid, new and undercuts nothing |
| PostureFloor.PosturesOffered | app/main.py:6103-6126 | a skill is valid iff name and target are in bounds, the target is canonical, and its posture is one of the three offered |
| PostureFloor.OverlayOffered | app/main.py:6103-6126 | over any run no overlay entry has another posture, so none is restricted without a PIN |
| PostureFloor.RegistersIff | app/main.py:6295-6337 | a valid entry is registered iff the overlay can be read, its name is new in both stores and no entry sharing a resource with it is ranked above it |
| PostureFloor.StrictestRegisters | app/main.py:6295-6337 | restricted and behind a PIN, it always is |
| PostureFloor.WeakestIsLeast | app/main.py:6129-6133 | the weakest posture of a resource is at most that of every entry covering it |
| PostureFloor.WeakestIsReached | app/main.py:6129-6133 | some entry covering it has that posture |
| PostureFloor.FloorHolds | app/main.py:6261-6337 | over any sequence of sequential registrations, on whichever workers, the weakest posture of a resource already reachable never changes, in either component as the check ranks it |
| PostureFloor.UndercutUnseenIff | app/main.py:6129-6133 | with classifications in their real order, the check overlooks a weaker posture iff the existing entry is classified and no riskier than the new one |
| PostureFloor.SensitivityFallsIff | app/main.py:6261-6337 | over any run the real classification floor of a reachable resource falls iff everything it was reachable by was classified and some registration reaches it; it never rises |
| PostureFloor.ClassifiedIsUndercut | app/main.py:6295-6337 | any classified entry under a plain name is undercut by registering the name again, unclassified |
| PostureFloor.TelemetryIsUndercut | obfuscator/tenant_catalog.py:103-108 | the shipped telemetry skill is undercut in this way |

## Left out

- Redis stream ids are ordinals; only their order is modelled.
- Ed25519 and the step between signing and publishing: a signature is its message, signed and published in one step.
- Stored content outside the modelled shapes: unparseable counters, leaf vectors and events, and header text that is not ASCII; a header may be unreadable in any of its fields.
- At-rest encryption of events, `per_event` mode, replica WAIT and redaction.
- Lock holders that outlive the TTL, except for the stale commit in `WormOverlap`.
- Replies lost after Redis applied a command, in the ledger; the gateway machine has them.
- The ledger clock: timestamps are arbitrary.
- The witness details an anchor keeps about compaction.
- Float text is opaque: a float is its shortest repr, told apart from integers by its characters.
- Lone surrogates, non-string keys and values that are not JSON.
- NFC, NFKC, case folding, character categories, scrypt and the UTF-8 replacement decoding are parameters with the laws the proofs name.
- The Rust fast walker.
- Policy, grant, quarantine, canary, compartment and community gates are arbitrary results; alias lookup returns the alias called.
- Unknown filter fields, the retention floor and the projection of rows in decision queries.
- Constant-time comparison: only the result is modelled.
- The other checks of a possession proof (signature, method, URI, token and payload hashes).
- Targets.CanonicalTarget: ASCII targets with a valid port, because host folding of other text is a library table and an invalid port raises outside the handler.
- TargetSecondPass.SecondPassIff: targets whose first result is ASCII with a valid port, because the second pass raises or folds by a library table on the others.
- PayloadLock.LockKeyIff: for lock ids without a colon, as `register` makes them; for all others LockKeyBinds needs tenants that agree under NFC.
- PostureFloor.Catalog.RegisterSkill: the ceiling on overlay entries and the ledger emit before the add, either of which can stop a registration.
- PostureFloor.FloorHolds: registrations are sequential, because the check and the add are separate steps and two workers can interleave them.
- WormIncremental.IncrementalAcceptance: says nothing about events before the trusted header, which the code does not replay.
- DecisionQuery.FollowingIsExact: over a fixed buffer; entries trimmed or added between pages are not modelled.
- Advisory service and access metadata, HTTP endpoints, licences, telemetry and configuration.
