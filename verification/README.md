# A model of the site's harder logic

This project models the parts of the Proofweave site whose correctness is not obvious from one
reading, and proves what they promise.

- **Anchor log** (`AnchorTables`, `AnchorStore`, `AnchorEffects`, `AnchorLog`, `AnchorRuns`, `AnchorHistory`,
  `AnchorProgress`, `AnchorExamples`). The five anchoring tables and the SQL statements the store runs on them; every
  operation as a transaction that commits or rolls back, with its whole effect in bare columns; and an invariant
  that every transaction keeps however old its reads are. From it:
  one gapless head log, one chain of live batches, anchored history that is never rewritten, records that
  are never lost or bound twice, and evidence from which every batch status can be recomputed. Beside what
  never happens it says when the log can still move on.
- **Anchor proofs** (`MerkleTree`, `RecordOrder`, `AnchorProofs`, `AnchorManifest`). The Merkle tree, its proofs,
  and what an accepted proof is worth when nothing is assumed of SHA-256: it is genuine, or a collision can be
  read off it. Then the whole way from a built batch to a later check that rebuilds its tree, for one record and
  for the whole manifest.
- **Witness authority** (`Delegation`, `WitnessAuthority`). Which keys may witness an anchor, and a verifier
  that caches imported keys.
- **History timeline** (`TrackAllocation`, `TimelineLayout`, `TimelineZoom`). First-fit placement of labels
  and nodes with its minimality, and zooming that keeps the point under the pointer.
- **Catalog browser** (`CatalogProtocol`, `ExploreCatalog`). A small concurrent protocol of typing, a debounce
  timer, paging, retries and late responses, as a step system and as the component that performs its steps.
- **Locales** (`Negotiation`, `Regex`, `Routing`, `LocaleRouting`). Accept-Language negotiation (sections 12.4.2
  and 12.5.4 of RFC 9110), the middleware's regular expression against the hand-written page test, and the
  redirects and alternate addresses that follow.
- **Dictionaries and templates** (`ClientDictionary`, `Translation`). A two-level memo and the placeholder scan.
- **Paper graphs** (`PaperGraph`). Citation maps, sharing nodes out by a decimal number, and grouping for display.
- **Base64url** (`Base64Url`). The printer and the parser of keys (sections 3.2, 4 and 5 of RFC 4648).

## What holds only under a condition

What the code or its comments promise, or a reader would take for granted, and what does not always hold. For each
of these there is a lemma with the exact condition under which it does, or the exact cases, and a lemma with a
concrete input that fails.

- `createBatch` says its guard always conflicts because the expected version's row always exists. For a version
  that is not in the log the guard commits instead, with unbound leaves and a gap. A call that goes through leaves
  a log exactly when its version was at most the newest (`AnchorHistory.VersionsMustExist`; version 5 on fresh
  tables in `AnchorHistory.AnUnreadVersionForks`).
- `markSubmitted` checks after its commit that projection and evidence agree. They agree exactly when the batch is
  still `built` at the commit; after an abandonment in between, a pending submission and its event stay behind on a
  failed batch (`AnchorHistory.SubmissionAgreesIffStillBuilt`; a run of four calls in
  `AnchorExamples.SubmissionLeftBehind`).
- The coordinator leaves a batch whose platform submission failed to be abandoned. When a witness of it has landed
  and every platform submission was dropped it cannot be, and no call ever moves the head again. A waiting batch can
  still be confirmed or abandoned, and the head log can still get another row, exactly when no batch is in that
  state (`AnchorProgress.MovesOnUnlessStuck`, `AnchorProgress.LogGrowsUnlessStuck`, `AnchorProgress.StuckForEver`; a
  run of six calls in `AnchorExamples.StuckIsReached`).
- The batch builder sorts records in JavaScript and the record check lists them in database order. The two lists
  are the same exactly when no two records of one type have ids that straddle the basic plane where they first
  differ; otherwise the rebuilt root differs and no record of the batch can be proved
  (`AnchorProofs.RecordsProvableUnlessStraddling`; two receipts in `RecordOrder.WideLetterAndEmoji`). The manifest of
  that same batch still verifies, because its leaves are sorted in JavaScript before they are hashed
  (`AnchorManifest.ManifestHoldsWhereProofsFail`).
- The comment in `routing.ts` says matcher and page test cannot drift apart. The matcher has no `i` flag, so they
  disagree exactly on assets spelled in unusual case that nothing else rules out
  (`Routing.MatcherAgreesUnlessOddlySpelled`; `/A.PNG` in `Routing.UpperCaseAssetDisagrees`).
- One would expect that zooming in takes no more room. It reserves no more tracks in a lane, exactly except across
  zoom 4, where the compact view ends
  (`TimelineLayout.ZoomingInReservesNoMore`), and on either side of it the drawing gets no taller
  (`TimelineLayout.ZoomingInGetsNoTaller`; zoom 1 to 4 in `TimelineLayout.FullViewIsTaller`).
- A page and its Chinese form announce the same alternate addresses exactly when the page's own path does not start
  with the Chinese prefix (`LocaleRouting.AlternatesAgreeIffUnprefixed`; `/zh-CN/guide` in
  `LocaleRouting.PrefixedGuide`).
- Looking a section such as `constructor` up in the dictionary groups finds an inherited member, not a list; the
  call fails exactly for those sections and a non-empty dictionary
  (`ClientDictionary.Memo.ClientDictionaryForPath`; `/constructor` in `ClientDictionary.ConstructorFails`).
- A revocation time that cannot be read strictly does not always block a delegation. The delegation's own is passed
  over when its signing key's is still ahead and the platform's looser date parser either cannot read its own or
  puts it later; the key's is passed over when the delegation's own is still ahead and the looser parser reads the
  key's and puts it no earlier (`Delegation.ValidIff`, `Delegation.UnreadableRevocation`; three delegations in
  `Delegation.PassedOver`).
- A section listed twice, or listed as blank, draws its nodes more than once (`PaperGraph.NodesAreDrawn`;
  `PaperGraph.ListedTwiceIsDrawnTwice`).

## Model

| member | source | states |
|---|---|---|
| `AnchorStore.LeafGuardIsExact` | services/anchoring/d1-anchor-store.mjs:102-126 | after the leaf updates the guard's COUNT equals the number of leaves exactly when every leaf was a pending record and none was listed twice |
| `AnchorStore.CreateBatchCommits` | services/anchoring/d1-anchor-store.mjs:73-181 | running the statements one by one, `createBatch` commits exactly when the log is where its caller saw it, the predecessor is confirmed, id and root are free and all leaves are pending; then batch row, bindings, event and head row land together, otherwise nothing does |
| `AnchorStore.CreateBatchPastHead` | services/anchoring/d1-anchor-store.mjs:111-139 | for an expected version without a row, the guard inserts that row itself and the batch commits whatever its leaves and predecessor are |
| `AnchorStore.MarkSubmittedCommits` | services/anchoring/d1-anchor-store.mjs:258-302 | when `markSubmitted` commits, and that it inserts submission and event even where its status update changes no row |
| `AnchorStore.MarkConfirmedCommits` | services/anchoring/d1-anchor-store.mjs:483-542 | `markBatchConfirmed` commits exactly when the batch still reads submitted inside the transaction |
| `AnchorStore.UpdateSubmissionCommits` | services/anchoring/d1-anchor-store.mjs:343-411 | a submission settles, with its event, only from pending and only while its batch has not failed; otherwise both the update and the event change no row |
| `AnchorStore.RecordWitnessRuns` | services/anchoring/d1-anchor-store.mjs:327-341 | a witness submission is recorded once per id and transaction reference and is otherwise ignored |
| `AnchorStore.AbandonBatchCommits` | services/anchoring/d1-anchor-store.mjs:570-661 | running the statements one by one, `abandonBatch` commits exactly when its guard does not trip; which means, by `AnchorEffects.AbandonBatchEffect`, that the batch is the tip and every submission of it was dropped |
| `AnchorEffects.InsertRecordEffect` | services/anchoring/d1-anchor-store.mjs:33-44 | a record is inserted once, pending; the columns it leaves, and the row count that is reported as created |
| `AnchorEffects.CreateBatchEffect` | services/anchoring/d1-anchor-store.mjs:73-181 | in bare columns: a build on a version of the log goes through exactly when its 1 to 96 leaves are pending records listed once each, id, event and root are free (the root of a failed batch is), the predecessor is what that version names and confirmed, and the next version is not there; all five tables it then leaves |
| `AnchorEffects.MarkSubmittedEffect` | services/anchoring/d1-anchor-store.mjs:258-302 | in bare columns: when a platform submission is recorded, that only a built batch moves on, and all five tables |
| `AnchorEffects.RecordWitnessEffect` | services/anchoring/d1-anchor-store.mjs:327-341 | in bare columns: a witness submission is recorded, pending, and reported as created, exactly when neither its id nor its transaction is known |
| `AnchorEffects.UpdateSubmissionEffect` | services/anchoring/d1-anchor-store.mjs:343-411 | in bare columns: a submission settles exactly when it is pending and its batch has not failed, with its event, and nothing else moves |
| `AnchorEffects.MarkConfirmedEffect` | services/anchoring/d1-anchor-store.mjs:483-542 | in bare columns: exactly a batch that is submitted when the transaction runs is confirmed |
| `AnchorEffects.AbandonBatchEffect` | services/anchoring/d1-anchor-store.mjs:570-661 | in bare columns: `abandonBatch` commits exactly when the newest head row names the batch, every submission of it was dropped, and the next version and the event are free; then the batch is failed, its records are freed and the head is put back |
| `AnchorEffects.NothingInFlightIsAbandoned` | services/anchoring/d1-anchor-store.mjs:607-631 | in every run with reads of any age, whenever an abandonment changes the tables every submission of its batch was dropped in the state before |
| `AnchorLog.FreshIsOk` | drizzle/0046_add_anchor_tables.sql:22-30 | the tables as migrated satisfy the invariant |
| `AnchorLog.StillObserved` | services/anchoring/d1-anchor-store.mjs:82-88 | what a call read before its transaction still holds in every later state |
| `AnchorRuns.CreateBatchKeeps` | services/anchoring/d1-anchor-store.mjs:73-181 | a build with any stale arguments keeps log, chain, records and evidence in step and only adds to what was recorded |
| `AnchorRuns.MarkSubmittedKeeps` | services/anchoring/d1-anchor-store.mjs:258-302 | the same for recording a platform submission |
| `AnchorRuns.UpdateSubmissionKeeps` | services/anchoring/d1-anchor-store.mjs:343-411 | the same for settling a submission, so settled submissions and their events agree |
| `AnchorRuns.MarkConfirmedKeeps` | services/anchoring/d1-anchor-store.mjs:483-542 | the same for confirming, so every confirmed batch has a confirmed platform submission |
| `AnchorRuns.AbandonBatchKeeps` | services/anchoring/d1-anchor-store.mjs:570-661 | the same for abandoning, which takes exactly the tip off the chain |
| `AnchorRuns.CallKeeps` | services/anchoring/d1-anchor-store.mjs:28-685 | every operation of the store, with reads of any age, keeps the invariant and extends the tables |
| `AnchorHistory.RunsAreSound` | db/schema.ts:1996-2029 | in every run of any number of builders, submitters and operators, every state has one gapless head log and one chain of live batches, and keeps all earlier head rows, batch rows, settled submissions and events |
| `AnchorHistory.NoTwoShareAPredecessor` | services/anchoring/d1-anchor-store.mjs:111-120 | no two live batches name the same predecessor |
| `AnchorHistory.OnlyTheTipWaits` | services/anchoring/anchor-coordinator.mjs:103-106 | a live batch that is not confirmed is the one the newest head row names |
| `AnchorHistory.AnchoredHistoryStays` | db/schema.ts:2022-2029 | confirmed batches keep their rows and their places: the confirmed part of the chain is a prefix of every later chain |
| `AnchorHistory.LandedIsNeverAbandoned` | services/anchoring/d1-anchor-store.mjs:607-614 | once a submission is confirmed, its batch is never failed, then or in any later state |
| `AnchorHistory.EvidenceTellsStatus` | services/anchoring/d1-anchor-store.mjs:175-179 | every batch status is the one its immutable events determine, and exactly the batches with a built event exist |
| `AnchorHistory.RecordsAreConserved` | services/anchoring/d1-anchor-store.mjs:102-110 | the number of records is the number pending plus the leaf counts of the live chain |
| `AnchorHistory.OneWriterPerVersion` | db/schema.ts:2022-2023 | of all writers that read one head version, none commits once the next version exists |
| `AnchorHistory.AbandonUndoesBuild` | services/anchoring/d1-anchor-store.mjs:617-637 | abandoning a batch just built is possible and restores head, records and submissions; only two versions, the failed row and events remain |
| `AnchorHistory.CommitsPersistTogether` | services/anchoring/d1-anchor-store.mjs:169-179 | after a committed build, confirmation or abandonment the row counts are the ones the code checks for, so it cannot report a partial write |
| `AnchorHistory.SubmissionAgreesIffStillBuilt` | services/anchoring/d1-anchor-store.mjs:258-302 | what `markSubmitted` commits agrees with the batch exactly when the batch is still built; otherwise a pending submission and its event are left on a failed batch |
| `AnchorHistory.VersionsMustExist` | services/anchoring/d1-anchor-store.mjs:83-88 | when a build goes through, the log is still well formed exactly when its version was at most the newest |
| `AnchorHistory.AnUnreadVersionForks` | services/anchoring/d1-anchor-store.mjs:115-117 | on fresh tables, version 5 with an unknown leaf commits and leaves a gap |
| `AnchorProgress.StuckForEver` | services/anchoring/d1-anchor-store.mjs:587-625 | once a submitted batch has a landed witness and only dropped platform submissions, no sequence of calls confirms it, abandons it or adds a head row |
| `AnchorProgress.MovesOnUnlessStuck` | services/anchoring/anchor-coordinator.mjs:122-123 | from every sound state a waiting batch can be confirmed or abandoned by some further calls exactly when it is not in that state |
| `AnchorProgress.LogGrowsUnlessStuck` | services/anchoring/anchor-coordinator.mjs:103-113 | from every sound state some further calls add a row to the head log exactly when no batch is in that state |
| `AnchorExamples.SubmissionLeftBehind` | services/anchoring/d1-anchor-store.mjs:258-302 | a run that reads a batch as built, abandons it and then submits it ends with a pending platform submission on a failed batch |
| `AnchorExamples.StuckIsReached` | services/anchoring/d1-anchor-store.mjs:343-411 | a run of six calls from fresh tables reaches the state nothing leads out of |
| `MerkleTree.LargestPowerOfTwoBelow` | packages/protocol/merkle-tree.mjs:75-79 | the doubling loop finds the largest power of two below the count |
| `MerkleTree.VerifyInclusionProof` | packages/protocol/merkle-tree.mjs:38-52 | the loop accepts exactly the proofs that climb from the leaf to the root |
| `MerkleTree.EveryLeafIsProvable` | packages/protocol/merkle-tree.mjs:18-36 | every leaf of every tree has a proof that climbs to the root, and exactly the indices outside the tree are errors |
| `MerkleTree.ProofsAreShort` | packages/protocol/merkle-tree.mjs:64-73 | a proof has at most as many steps as doublings are needed to reach the number of leaves |
| `MerkleTree.AcceptedProofsAreGenuine` | packages/protocol/merkle-tree.mjs:38-52 | genuine proofs are accepted; and an accepted proof of a leaf's content, against any tree and the empty one too, is the proof the tree gives for a leaf with that content, or the collision it contains is exhibited |
| `MerkleTree.RootBindsLeaves` | packages/protocol/merkle-tree.mjs:54-62 | two lists of leaves of any lengths with one root are equal, or a collision is read off the two trees |
| `MerkleTree.RootIsTreeHash` | packages/protocol/merkle-tree.mjs:54-79 | the root obeys the equations of section 2.1 of RFC 6962 for no leaves, one leaf, and a split at the largest power of two below their number |
| `RecordOrder.SurrogatesEncode` | services/anchoring/anchor-batch-builder.mjs:40-42 | the units JavaScript compares are those of section 2.1 of RFC 2781: a character above the basic plane is two surrogates with half its bits each |
| `RecordOrder.OrdersAgreeUnlessStraddling` | services/anchoring/anchor-batch-builder.mjs:40-42 | UTF-16 order and code point order of two strings disagree exactly when they straddle where they first differ |
| `RecordOrder.ListsAgreeUnlessStraddling` | services/anchoring/anchor-batch-builder.mjs:11-34 | the builder's sorted list and the database's are the same exactly when no two records straddle |
| `RecordOrder.WideLetterAndEmoji` | services/anchoring/anchor-batch-builder.mjs:34-42 | two receipts named by a full-width letter and an emoji sort oppositely in the two orders |
| `AnchorProofs.CallKeepsLeaves` | services/anchoring/d1-anchor-store.mjs:94-101 | no operation changes which records a batch holds that is live before and after |
| `AnchorProofs.LeavesStay` | services/anchoring/d1-anchor-store.mjs:455-469 | over any run a batch lists the same records for as long as it lives |
| `AnchorProofs.BuiltHoldsItsLeaves` | services/anchoring/d1-anchor-store.mjs:94-101 | what a build binds is exactly the leaves it was given |
| `AnchorProofs.VerifyListed` | services/anchoring/anchor-verifier.mjs:72-84 | the rebuilding loop reports a missing leaf exactly for an unlisted record, and includes a listed one, at a place that holds it, exactly when the rebuilt root is the batch's |
| `AnchorProofs.RecordsProvableUnlessStraddling` | services/anchoring/anchor-verifier.mjs:72-84 | rebuilding from database order gives the built root when no records straddle, and a different one when some do, up to a collision that is exhibited |
| `AnchorProofs.BuiltRecordsStayProvable` | services/anchoring/anchor-verifier.mjs:72-84 | from a build that went through to any later state of any run in which its batch has not failed: the tree rebuilt from the database has the root in the batch row, exactly (up to an exhibited collision) if no two of its records straddle |
| `AnchorManifest.NormalFormForgetsOrderOnly` | packages/protocol/anchor-manifest.mjs:44-57 | two lists of leaves have one normal form exactly when they list the same leaves equally often, in whatever order |
| `AnchorManifest.AcceptableFieldByField` | packages/protocol/anchor-leaf.mjs:24-30 | exactly which leaves can be hashed: one of three record types, an id of 1 to 256 UTF-16 units, and a hash of 64 hexadecimal digits behind its prefix |
| `AnchorManifest.AcceptableHashIsPrefixed` | packages/protocol/anchor-leaf.mjs:30 | and no hash without the prefix can be hashed |
| `AnchorManifest.VerifyAnchorManifest` | packages/protocol/anchor-manifest.mjs:67-80 | a manifest is accepted exactly when its count is right, every leaf can be hashed, and the tree over its sorted leaves has the declared root |
| `AnchorManifest.ManifestHoldsWhereProofsFail` | packages/protocol/anchor-manifest.mjs:44-80 | for one batch: the manifest is accepted and has the builder's normal form however its leaves are listed, while the check of a record, which does not sort, fails as soon as two records straddle, up to a collision that is exhibited |
| `AnchorManifest.RebuiltManifestHolds` | app/lib/anchor-routes.ts:344-357 | from a build that went through to any later state of any run in which its batch has not failed, the manifest rebuilt from the tables is accepted and has the builder's normal form |
| `Delegation.ValidMeansUnrevoked` | packages/domain/delegation.mjs:112-128 | a valid delegation is inside its window and no readable revocation, of it or of its signer's key, has been reached |
| `Delegation.ValidIff` | app/lib/anchor-routes.ts:671-685 | for all stored delegations: valid exactly inside the window with every revocation there is still ahead, or with one that cannot be read strictly passed over for the other, in exactly two ways |
| `Delegation.UnreadableRevocation` | app/lib/anchor-routes.ts:681-685 | a revocation that cannot be read strictly blocks, except where one of the two is passed over |
| `Delegation.PassedOver` | app/lib/anchor-routes.ts:681-685 | three concrete delegations: an unreadable revocation of its own is passed over, the mirror image is not, and a signing key revoked on a bare day is passed over |
| `Delegation.ValidFieldByField` | packages/domain/delegation.mjs:18-128 | validity in the fields of the certificate alone: its key, scopes and window, a readable event inside the window, its end excluded, and both revocations |
| `Delegation.RawKeyIs43Characters` | packages/domain/delegation.mjs:163-171 | a text passes as the key of 32 bytes exactly when it is 43 letters, digits, hyphens or underscores |
| `WitnessAuthority.WitnessAuthorityCandidatesFromProfile` | app/lib/anchor-routes.ts:458-482 | the two loops collect exactly the specified candidates in order |
| `WitnessAuthority.CandidatesHaveAuthority` | app/lib/anchor-routes.ts:458-482 | in the fields alone: a candidate is a Person's key with algorithm `ed25519` and no or a blank revocation, given some valid delegation, or the key of an agent with status `active` and no or a blank revocation whose id and key a valid delegation names; and all of those are candidates |
| `WitnessAuthority.KeysInOrder` | app/lib/anchor-routes.ts:466-471 | wherever a key stands in the profile it puts forward its candidate, there in the order, or nothing |
| `WitnessAuthority.AgentsInOrder` | app/lib/anchor-routes.ts:473-480 | and so does every agent |
| `WitnessAuthority.Verifier.WitnessVerificationKey` | app/lib/anchor-routes.ts:687-697 | the cached key is what importing would give, and is remembered |
| `WitnessAuthority.Verifier.VerifyWitnessAuthority` | app/lib/anchor-routes.ts:484-506 | however many calls came before, the verdict is the one without a cache, error cases included |
| `WitnessAuthority.FirstVerifying` | app/lib/anchor-routes.ts:495-501 | the candidate taken verifies and none before it does |
| `WitnessAuthority.PrintedKeysArrive` | app/lib/anchor-routes.ts:699-705 | a key printed by the browser imports as its bytes when it has 32 of them and never otherwise |
| `WitnessAuthority.AcceptedIffAuthorised` | app/lib/anchor-routes.ts:458-506 | a witness is accepted exactly when its signature verifies under someone with authority, spelled in the fields, and as one of those; each of the three errors says exactly what was wrong |
| `WitnessAuthority.PersonComesFirst` | app/lib/anchor-routes.ts:466-480 | what a Person's key verifies is attributed to the Person even if an agent has the same key |
| `TrackAllocation.Separation` | app/history/HistoryTimeline.tsx:279-285 | items on one track are a gap apart for any input order |
| `TrackAllocation.TrackIsLowest` | app/history/HistoryTimeline.tsx:279-285 | each item takes the lowest track with room: on every lower one the latest item is less than the gap behind |
| `TrackAllocation.FirstFitIsLegal` | app/history/HistoryTimeline.tsx:279-285 | first fit is a legal assignment that uses exactly tracks 0 to k-1 |
| `TrackAllocation.TrackCountIsLargestCrowd` | app/history/HistoryTimeline.tsx:279-285 | in date order the number of tracks is the size of the largest set of items pairwise closer than the gap |
| `TrackAllocation.FirstFitIsMinimal` | app/history/HistoryTimeline.tsx:279-285 | in date order no legal assignment of any kind uses fewer tracks |
| `TrackAllocation.OrderIsNeeded` | app/history/HistoryTimeline.tsx:279-285 | out of date order first fit can be beaten |
| `TrackAllocation.SmallerGapFewerTracks` | app/history/HistoryTimeline.tsx:274-275 | a smaller gap never needs more tracks |
| `TimelineLayout.DistributeTimelineLabels` | app/history/HistoryTimeline.tsx:271-289 | the single pass over interleaved lanes is first fit on each lane and on all nodes separately |
| `TimelineLayout.LargestTrackIsTrackCount` | app/history/HistoryTimeline.tsx:110-112 | the maximum read off the layout is the number of tracks the lane opened |
| `TimelineLayout.NodeClearanceIsReach` | app/history/HistoryTimeline.tsx:113 | the clearance is exactly how far the used node tracks reach |
| `TimelineLayout.LabelsApart` | app/history/HistoryTimeline.tsx:274-282 | two labels of one lane on one track are 188 pixels apart |
| `TimelineLayout.NodesApart` | app/history/HistoryTimeline.tsx:283-286 | for any order of dates two nodes are 48 pixels apart along the axis or across it |
| `TimelineLayout.NodesFitHeight` | app/history/HistoryTimeline.tsx:181 | the computed axis and height leave 84 pixels and every label track clear of every node, above and below, and exactly the reach of the nodes between |
| `TimelineLayout.WiderNeedsNoMoreTracks` | app/history/HistoryTimeline.tsx:56-57 | on a wider canvas every lane and the node axis need no more tracks |
| `TimelineLayout.ZoomingInReservesNoMore` | app/history/HistoryTimeline.tsx:58-112 | zooming in reserves no more tracks in a lane, exactly unless it crosses zoom 4 |
| `TimelineLayout.ZoomingInGetsNoTaller` | app/history/HistoryTimeline.tsx:110-181 | on either side of zoom 4, zooming in never makes the drawing taller |
| `TimelineLayout.FullViewIsTaller` | app/history/HistoryTimeline.tsx:58-181 | from zoom 1 to 4 one milestone makes it taller |
| `TimelineLayout.LanesAreMinimal` | app/history/HistoryTimeline.tsx:271-289 | no other way to hang a lane's labels with those of a track 188 pixels apart takes fewer tracks |
| `TimelineLayout.NodesAreMinimal` | app/history/HistoryTimeline.tsx:283-286 | and no other way to keep the nodes of a track 48 pixels apart has them reach less far from the axis |
| `TimelineLayout.OffsetsAlternate` | app/history/HistoryTimeline.tsx:286 | node tracks alternate, the odd ones up and the even ones down, 48 pixels a step |
| `TimelineLayout.CanvasIsZoomedViewport` | app/history/HistoryTimeline.tsx:56 | the canvas is the viewport, of a pixel at least, times the zoom |
| `TimelineLayout.AxisIsLinear` | app/history/HistoryTimeline.tsx:299-303 | the axis runs evenly from 2 percent on 1 January to 98 percent on 31 October 2026 |
| `TimelineZoom.SettledIsNearest` | app/history/HistoryTimeline.tsx:68-71 | the layout effect leaves the viewport at a legal offset, none nearer to the one that centres the stored centre, and the centre is in the middle exactly when that offset is legal |
| `TimelineZoom.NearestIsUnique` | app/history/HistoryTimeline.tsx:68-71 | there is only one such offset |
| `TimelineZoom.Timeline.ZoomAbout` | app/history/HistoryTimeline.tsx:87-91 | the centre stored anchors the fraction under the pointer, the viewport settles as near to it as is legal, and the fraction is unchanged exactly when the anchored offset needs no clamping, and always when zooming in |
| `TimelineZoom.Timeline.OnWheel` | app/history/HistoryTimeline.tsx:76-92 | which turns count; that they aim from the stored aim below 180 ms after the last one and from the zoom otherwise; that the zoom is the quarter step nearest to the aim; and where the viewport ends up, the pointer on its fraction |
| `TimelineZoom.AimIsClosest` | app/history/HistoryTimeline.tsx:83 | the aim is the zoom from 1 to 32 closest to the product of base and factor |
| `TimelineZoom.Timeline.ChangeZoom` | app/history/HistoryTimeline.tsx:98-105 | the controls clamp the zoom, reset the wheel, and keep the middle in place when zooming in |
| `TimelineZoom.Timeline.ZoomOut` | app/history/HistoryTimeline.tsx:142 | the minus button lands on the whole step nearest to two thirds of the zoom, strictly below it unless at the bottom |
| `TimelineZoom.Timeline.ZoomIn` | app/history/HistoryTimeline.tsx:146 | the plus button lands on the first whole step from one and a half times the zoom on, or the top, strictly above it unless there, with the middle fixed |
| `TimelineZoom.ZoomInNeedsNoClamp` | app/history/HistoryTimeline.tsx:87-91 | zooming in, the anchored offset is a legal scroll position |
| `TimelineZoom.AnchoredIffUnclamped` | app/history/HistoryTimeline.tsx:68-71 | the pointer keeps its fraction exactly when nothing was clamped |
| `TimelineZoom.QuickTurnsAddUp` | app/history/HistoryTimeline.tsx:81-84 | two quick turns the same way land where one turn of their sum does |
| `TimelineZoom.OppositeTurnsForget` | app/history/HistoryTimeline.tsx:81-84 | two opposite turns need not |
| `CatalogProtocol.StepKeepsInv` | app/explore/ExploreCatalog.tsx:50-94 | every event keeps request numbers, pending state and page in agreement |
| `CatalogProtocol.SettledPageAnswersCriteria` | app/explore/ExploreCatalog.tsx:50-94 | after any interleaving a settled page is the service's answer for the criteria on screen, and Retry asks for those criteria |
| `CatalogProtocol.BackStackIsChain` | app/explore/ExploreCatalog.tsx:154-160 | the back-stack and page cursor are the service's own chain of cursors, and the page number is the depth in it |
| `CatalogProtocol.PendingMeansOneThingToCome` | app/explore/ExploreCatalog.tsx:50-94 | loading is shown exactly while the timer is armed or one live request is out, never both, and at most one request is un-aborted |
| `CatalogProtocol.StaleResponseIsIgnored` | app/explore/ExploreCatalog.tsx:64-71 | a response to a superseded request changes nothing that is shown |
| `CatalogProtocol.NextThenPrevious` | app/explore/ExploreCatalog.tsx:159-160 | Next then Previous restores page, cursor and back-stack |
| `CatalogProtocol.RetryRepeats` | app/explore/ExploreCatalog.tsx:50-57 | from every state of the invariant: when the request a timer, Next, Previous or Retry sent fails, Retry sends the very same request, and its success brings the page, cursor and back-stack the first attempt would have brought |
| `CatalogProtocol.SuccessShows` | app/explore/ExploreCatalog.tsx:58-71 | the page, cursor and back-stack shown when the request a timer, Next or Previous sent succeeds |
| `CatalogProtocol.WhatCanBeClicked` | app/explore/ExploreCatalog.tsx:154-160 | nothing while loading, only Retry on an error, otherwise Next while there is a non-empty next cursor and Previous on every page but the first |
| `CatalogProtocol.LoadingNeverSticks` | app/explore/ExploreCatalog.tsx:50-94 | without user events only boundedly many events occur and then the page has settled |
| `ExploreCatalog.Component.constructor` | app/explore/ExploreCatalog.tsx:36-48 | the component starts in the protocol's initial state |
| `ExploreCatalog.Component.RequestPage` | app/explore/ExploreCatalog.tsx:50-57 | starting a request is the protocol's request step |
| `CatalogProtocol.ChangeLeavesOneTimer` | app/explore/ExploreCatalog.tsx:75-94 | after a filter change every request in flight is aborted and can no longer reach the page, what is shown has not moved, and all that is to come is one timer for the new criteria, which waits exactly when the search text changed |
| `ExploreCatalog.Component.ChangeFilter` | app/explore/ExploreCatalog.tsx:75-119 | a filter change with its cleanup and effect is one protocol step |
| `ExploreCatalog.Component.FireTimer` | app/explore/ExploreCatalog.tsx:85-89 | the timer requests the first page of the criteria it was armed for |
| `ExploreCatalog.Component.ClickNext` | app/explore/ExploreCatalog.tsx:160 | Next is one protocol step |
| `ExploreCatalog.Component.ClickPrevious` | app/explore/ExploreCatalog.tsx:159 | Previous is one protocol step |
| `ExploreCatalog.Component.ClickRetry` | app/explore/ExploreCatalog.tsx:155 | Retry is one protocol step, which repeats the request that failed (`CatalogProtocol.RetryRepeats`) |
| `ExploreCatalog.Component.Settled` | app/explore/ExploreCatalog.tsx:58-72 | a response or failure, current or not, is one protocol step |
| `Negotiation.NegotiationChoosesBest` | app/i18n/config.ts:54-78 | filter, stable sort and scan give the locale of the earliest entry among those of highest positive quality that the site has a locale for, and the default if there is none |
| `Negotiation.ChineseIffHeaviest` | app/i18n/config.ts:54-78 | over tags and weights alone: Chinese exactly when the earliest entry of greatest positive weight, among those tagged `en`, `en-…`, `zh`, `zh-…` or `*`, is `zh` or `zh-…`; otherwise English, also without a header |
| `Routing.MatcherMeans` | app/i18n/routing.ts:62-69 | what the negative-lookahead pattern excludes, for any non-empty lists of segments and extensions |
| `Routing.LowerFolds` | app/i18n/routing.ts:54 | ignoring case identifies a letter of ASCII with its capital and nothing else |
| `Routing.SimpleMeans` | app/i18n/routing.ts:10-54 | an extension without an optional letter is a dot and its letters at the end of the path |
| `Routing.DotSegments` | app/i18n/routing.ts:58 | some segment starts with a dot exactly when the path does or contains `/.` |
| `Routing.MatcherAgreesUnlessOddlySpelled` | app/i18n/routing.ts:54-69 | matcher and page test disagree exactly on assets in unusual case that nothing else rules out |
| `Routing.MatcherAgreesOnLowerCase` | app/i18n/routing.ts:54-69 | on lower-case paths they always agree |
| `Routing.UpperCaseAssetDisagrees` | app/i18n/routing.ts:7-69 | with the lists as shipped, the path `/A.PNG` reaches the middleware although it is no page |
| `LocaleRouting.StripUndoesPrefix` | app/i18n/config.ts:86-102 | stripping undoes prefixing |
| `LocaleRouting.PrefixUndoesStrip` | app/i18n/config.ts:86-102 | prefixing undoes stripping, up to one trailing slash |
| `LocaleRouting.SlashIsAdded` | app/i18n/config.ts:86-91 | a missing slash in front is put there, for either locale |
| `LocaleRouting.PrefixedPageIsPage` | app/i18n/routing.ts:56-60 | a page path stays a page path when prefixed |
| `LocaleRouting.MatcherOnlySkipsUntouched` | middleware.ts:67-69 | putting the matcher in front changes no response |
| `LocaleRouting.AtMostOneRedirect` | middleware.ts:31-65 | a redirect leads to the rewrite of the very route asked for, in Chinese, so at most one is followed |
| `LocaleRouting.MiddlewareAnswers` | middleware.ts:31-65 | every answer: assets and service paths untouched, a Chinese address rewritten, and any other page redirected exactly when it is asked for by GET or HEAD and Chinese is preferred, by cookie or else by header, and otherwise served in the preferred language |
| `LocaleRouting.HeaderlessIsStartPage` | app/layout.tsx:23 | without the pathname header a page announces the start page |
| `LocaleRouting.AlternatesAgree` | app/layout.tsx:20-37 | an unprefixed page and its Chinese form announce the same alternates, whoever asks; the canonical address is the Chinese form exactly when that was asked for or Chinese is preferred |
| `LocaleRouting.AlternatesAgreeIffUnprefixed` | app/layout.tsx:20-37 | the alternates are the same exactly for an unprefixed page; otherwise none of them is |
| `LocaleRouting.PrefixedGuide` | app/layout.tsx:20-37 | `/zh-CN/guide` and its Chinese form announce different English addresses |
| `ClientDictionary.KeysNeverCollide` | app/i18n/client-dictionary.ts:130-142 | every cache key has one meaning and the path keys differ from the two fixed ones |
| `ClientDictionary.SectionIgnoresLocale` | app/i18n/client-dictionary.ts:139 | an unprefixed path and its Chinese form have the same section |
| `ClientDictionary.SectionIsFirstWord` | app/i18n/client-dictionary.ts:139 | the section is the first word of the path, however many slashes are in front, and empty if there is none |
| `ClientDictionary.Memo.FilterDictionary` | app/i18n/client-dictionary.ts:111-128 | the memo is transparent: the result is the uncached filter's, is remembered, and nothing remembered is replaced |
| `ClientDictionary.Memo.ClientDictionary` | app/i18n/client-dictionary.ts:130-132 | exactly the entries under any client prefix |
| `ClientDictionary.Memo.ClientDictionaryCore` | app/i18n/client-dictionary.ts:134-136 | exactly the entries under the core prefix |
| `ClientDictionary.Memo.ClientDictionaryForPath` | app/i18n/client-dictionary.ts:138-142 | exactly the entries of the section's group, failing exactly for inherited member names and a non-empty dictionary |
| `ClientDictionary.ConstructorFails` | app/i18n/client-dictionary.ts:138-142 | for `/constructor` the filter fails on any dictionary with an entry |
| `Translation.ScanSplits` | app/i18n/translate.ts:18-20 | the scan splits in front of every brace, so placeholders cannot overlap |
| `Translation.EveryPlaceholderIsFilled` | app/i18n/translate.ts:18-20 | in any context a placeholder becomes its variable's value, unread, or stays in its braces when there is none, and the text around it is scanned on its own |
| `Translation.EveryStringIsATemplate` | app/i18n/translate.ts:18-20 | every string is text and placeholders in turn, and its interpolation fills each in its place |
| `Translation.UnnamedStays` | app/i18n/translate.ts:15-21 | nothing changes when no placeholder names a variable |
| `Translation.TranslateFillsIn` | app/i18n/translate.ts:15-21 | the looked-up template, or the key itself when it is missing, written as plain text and `{word}` holes in turn: with variables the answer is that text with each hole its variable, or the hole itself when there is none; without variables the template |
| `Translation.EveryTemplateHasPieces` | app/i18n/translate.ts:15-21 | and every template can be written so |
| `PaperGraph.Cite` | app/proof-evolution/PaperDerivedMap.tsx:17-24 | the loop lists exactly the known edges into and out of every node, in order |
| `PaperGraph.CitationsTranspose` | app/proof-evolution/PaperDerivedMap.tsx:17-24 | the two maps are transposes with multiplicity, equal to the number of edges between known nodes |
| `PaperGraph.Dependencies` | app/proof-evolution/PaperGraphView.tsx:44-48 | the loop lists exactly the edges within the given nodes |
| `PaperGraph.BuildStrategy` | app/proof-evolution/PaperGraphView.tsx:39-71 | a manuscript's strategy has its nodes in order, each with the edges into it |
| `PaperGraph.StrategyIsNumbered` | app/proof-evolution/PaperGraphView.tsx:39-43 | a manuscript counted from one owns the nodes whose ids begin with `m`, its numeral and a dash, and no others |
| `PaperGraph.NumeralIsDecimal` | app/proof-evolution/PaperGraphView.tsx:40-41 | the printed number is the one numeral, without a zero in front, that has its value |
| `PaperGraph.EdgesInOrder` | app/proof-evolution/PaperDerivedMap.tsx:17-24 | wherever an edge stands, it adds its source to its target's list, there in the order, and its target to its source's, if both ends are known |
| `PaperGraph.DecimalIsInjective` | app/proof-evolution/PaperGraphView.tsx:40-41 | different numbers print differently |
| `PaperGraph.OneManuscriptEach` | app/proof-evolution/PaperGraphView.tsx:41-42 | no id has the prefixes of two manuscripts |
| `PaperGraph.StrategiesAreDisjoint` | app/proof-evolution/PaperGraphView.tsx:39-43 | no node is in two strategies |
| `PaperGraph.DependenciesStayInside` | app/proof-evolution/PaperGraphView.tsx:44-65 | whatever a step depends on is a node of its own strategy |
| `PaperGraph.EachEdgeIsDrawn` | app/proof-evolution/PaperGraphView.tsx:39-71 | with unique ids every edge is drawn as often as the paper lists it when one manuscript has both its ends, and otherwise not at all |
| `PaperGraph.GraphKeepsEdges` | app/proof-evolution/PaperGraphView.tsx:39-71 | and so the total of the dependencies is the number of edges with both ends in one manuscript |
| `PaperGraph.NodesAreDrawn` | app/proof-evolution/PaperDerivedMap.tsx:25-38 | how often a node is drawn, for any lists of sections and manuscripts |
| `PaperGraph.DrawnOnceIffListed` | app/proof-evolution/PaperDerivedMap.tsx:25-38 | with distinct, non-blank titles a node is drawn once if it is listed or has no section, and not at all otherwise |
| `PaperGraph.ListedTwiceIsDrawnTwice` | app/proof-evolution/PaperDerivedMap.tsx:25-30 | a section listed twice, or listed as blank, draws its node more than once |
| `Base64Url.Base64Url` | app/workbench/browser-signing-key.ts:115-119 | the loop, `btoa` and the replacements print the digits in the URL-safe alphabet without padding |
| `Base64Url.SameNumber` | app/workbench/browser-signing-key.ts:118 | three bytes and their four digits are the same 24-bit number |
| `Base64Url.EncodedLength` | app/lib/anchor-routes.ts:709 | the length is ceil(4n/3), never 1 modulo 4, so what the parser pads is what was stripped |
| `Base64Url.RoundTrip` | app/lib/anchor-routes.ts:707-711 | parsing what was printed gives the bytes back |
| `Base64Url.EncodeIsInjective` | app/workbench/browser-signing-key.ts:115-119 | different bytes print differently |
| `Base64Url.PrintsBackIffCanonical` | app/lib/anchor-routes.ts:707-711 | of all the texts the parser reads, those that print back to themselves are exactly the URL-safe digits whose dropped bits are zero |
| `Base64Url.ReadsBothAlphabets` | app/lib/anchor-routes.ts:707-711 | of texts without white space and padding the parser reads exactly those of a possible length made of letters, digits and the two last characters of either alphabet |
| `Base64Url.WhitespaceVanishes` | app/lib/anchor-routes.ts:709 | `atob` drops tab, line feed, form feed, return and space wherever they stand, and nothing else |
| `Base64Url.AlphabetRuns` | app/workbench/browser-signing-key.ts:118 | the alphabet printed is that of section 5 of RFC 4648 |
| `Base64Url.PlusADoesNotPrintBack` | app/lib/anchor-routes.ts:707-711 | `+A` is read but does not print back |

## Left out

- AnchorStore.RecordWitnessRuns: the store lets any submitter kind be recorded this way; only the coordinator's use, with witnesses, is modelled.
- AnchorProgress.MovesOnUnlessStuck: by the operations as the coordinator uses them; a platform submission recorded by hand, as witnesses are, would be a way out.
- AnchorHistory.RunsAreSound: the store's methods, whose only field is the database, appear as the transactions they end in, on values, with reads of any age in front; the early refusals that only read are not separate steps. Versions given to `createBatch` are ones the log had; `VersionsMustExist` is about the others.
- LocaleRouting.AtMostOneRedirect: the URL, headers and cookie the middleware sets in place are the fields of the response it returns.
- TimelineZoom.Timeline.OnWheel: the exponential of the scaled delta is an arbitrary positive factor, and arithmetic is exact, without floating-point rounding.
- TrackAllocation.FirstFitIsMinimal: minimality is for items in date order only, as the shipped milestones are; `OrderIsNeeded` shows why.
- Routing.MatcherMeans: paths contain no line terminators.
- WitnessAuthority.Verifier.VerifyWitnessAuthority: overlapping calls that share a pending import are taken one after the other.
- Witness counts, the prepared-submission outbox, listing and paging of batches, and the coordinator's confirmation polling.
- Event identifiers are the batch and the kind of event rather than strings joined with colons; event payloads and timestamps of batches are not kept.
- Digests are opaque texts; hexadecimal conversion and the format check of the digests a tree is given are not modelled.
- A manifest's unknown fields, protocol version and field types, and the checks of the identifiers in its header.
- The record check's comparison with the chain, its manifest hash, and its confirmation threshold.
- The order of UTF-8 bytes is taken to be the order of code points, and strings are well formed (no lone surrogates).
- Date parsing: milestones carry instants, and a timestamp carries the instant that was parsed from it, if any.
- Cookie parsing, `decodeURIComponent`, splitting of Accept-Language and `parseFloat`: the model starts from parsed entries.
- Dictionary keys that name an inherited member of an object, which `translate` would find; its key type has none.
- Search strings, the return-path header, cookie attributes and rewriting headers other than locale and pathname.
- React timing beyond one commit with its effect, Strict Mode, unmounting, `history.replaceState` and focus handling.
- Abort controllers are named by the number of the request they were made for.
- Resizing, dragging, the scroll handler and tick labels of the timeline; the viewport is at least one pixel wide and its observed width is up to date.
- `fetch`, WebCrypto, IndexedDB and the catalog service, which are functions or parameters here.
- Role slugs, colours and labels of the paper graph.
- Table declarations of `db/schema.ts` other than those of the anchor tables.
- JSX, styling, copy, translations, status ladders and step playback.
