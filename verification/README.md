# Sectum AI: a verified model of the isolation checks, the grading and the evidence

Sectum AI tests whether a multi-tenant AI stack keeps its tenants apart. It plants canary
markers in synthetic tenants, drives probes against the stack, grades what leaked, exports
control findings, and wraps the record in evidence that can be checked offline. This project
models the logic of those parts and proves what each of them promises, over every input, every
history of operations, or every record.

`dafny verify dfyconfig.toml` checks everything.

## How it is laid out

* **Transparency-log proofs** - `Bits`, `Merkle`, `Rekor`. The recursive tree of RFC 6962
  (sections 2.1 and 2.1.1) is the specification; the two bit-driven loops of the offline check
  are proved to compute it. The hash is any function to 32 bytes: no injectivity is assumed, and
  every binding result exhibits a collision instead.
* **Grading and the control exporter** - `Records`, `Labels`, `Score`, `ScoreLaws`,
  `Letters`, `Deletions`, `MoreFindings`, `ScoreExamples`, `Controls`, `Oscal`, `Renderers`,
  `RendererExamples`; `RecordReadings`, `CountReadings`, `ExportReadings` and `LetterFacts` say the same in the
  record's own fields. Weights and thresholds are integers, compared by cross-multiplication.
* **In-memory tenant stores** - `OrderedDict`, `FakeVectors`, `FakeCaches`, `FakeModels`,
  `FakeMemories` are classes over the source's fields, each method proved against a step
  function. `Isolation` says, over those steps and for any interleaving, what two-trace
  non-interference is and what a delete erases - both in terms of what is observed; `UserIsolation`
  puts users in the place of tenants; the other theorems say what a later read returns after a
  write. `VectorLaws` has the ranking and the recall laws, `VectorUsers` and `RecallLaws` say what
  is shown in terms of what was stored, and `CanaryLaws` has the embedding sweep's rate.
* **The embedding bridge** - `Embeddings` (the class and its batching loops), `EmbeddingLaws`
  (what holds after every history, whatever requests fail), `FillLaws` (one fill, request by
  request).
* **The runner** - `Runner` (the class, driving an arbitrary stack whose answers may depend on
  every call before), `RunnerLaws` (accounting), `PlantLaws` (what is dropped and lost, from the
  plan and the stack's answers), `Rates` (headline rates).
* **The run diff** - `FindingDiffs`, `FindingDiffLaws`, `Baseline`, `GateReadings`.
* **The substrate** - `Decimal`, `Markers`, `Corpus`, `CorpusLaws`, `Build`.
* **The evidence bundle** - `Utf8`, `Pae`, `InToto`, `Bundle`, `BundleLaws`, `BundleReadings`,
  `BundleBuild`.

Where the source updates an object or runs a loop, a class method or a loop here does the same
and its contract equates the new state with a function of the old one; the theorems are about
that function. Errors are values of `Result`.

## Where a promise fails, and exactly when it holds

* Rule 7 of `docs/scorecard.md` says withholding a class must not flatter the letter. Deleting a
  provenance key can take a record from F to D (`ScoreExamples.DeletingAKeyCanImprove`): the
  failing class leaves the weighted score and only its cap remains. The cap itself is never lifted
  (`ScoreLaws.DeletingProvenanceNeverLiftsTheCap`). A deletion keeps the scope, empties the block or
  takes the last live key (`Deletions.DeletionScopes`), and each has its exact condition: within
  one scope the letter is better if and only if the grade without the weights of the classes that
  lose their slot or their findings beats the old letter under the worst band then at fault, which
  needs a failing class to lose one of them (`Deletions.SameScopeDeletion`); `Deletions.EmptiedBlock`
  and `Deletions.LastLiveKey` do the same for the other two.
* One more confirmed finding never improves the letter if its surface is not withheld
  (`ScoreLaws.MoreEvidenceNoBetter`). One on a withheld surface can
  (`ScoreExamples.WithheldEvidenceCanImprove`), and so can an unverified one, though it fails no class
  (`ScoreExamples.UnverifiedFindingCanImprove`): if and only if its probe, new to the run, brings its
  class a slot that counts where it had none, the class is without fault, and the class's weight
  lifts the grade past the cap; otherwise it stays or worsens, and where the class's placing does
  not change the letter does not either (`MoreFindings.HarmlessFinding`). One more finding of any kind
  turns a letter into a refusal exactly as `MoreFindings.RefusedWithFindingIff` says.
* The sweep's premise that a stronger embedding model leaks more (`sweep.py`) holds of foreign hits
  (`VectorLaws.RecallMonotone`) but not of its own rate, which counts the queries that show a foreign
  canary: more recall can let in documents without one that take its place
  (`CanaryLaws.PivotRateCanFall`). No gate and no pair of recalls hides a query's canary if and only
  if none in its ranking - behind no canary of the asker's own tenant - fits among the first k after
  the own hits alone and not after those and the foreign documents without a canary
  (`CanaryLaws.NeverHidesIff`); where that is so of every query the rate never falls
  (`CanaryLaws.PivotRateMonotone`).
* The exporter and the scorecard disagree, when the one says satisfied and the other grades,
  exactly over confirmed same-principal findings outside the withheld set
  (`Renderers.RenderersDisagreeIff`); `RendererExamples.RenderersCanDisagree` has records on which
  they do.
* "Verified" in the signed erasure assertion is stronger than the `satisfied` state by one
  condition: no surface called erased has an unverifiable count (`Renderers.WordingMatchesState`).
* Quiet diffs chain across a middle record, whatever comes before and after it, if and only if
  every id confirmed in that record has a confirmed first copy there
  (`FindingDiffLaws.QuietChainsIff`). Distinct ids are enough; with repeated ones an escalation can
  hide (`FindingDiffLaws.RepeatedIdsHideAnEscalation`).
* The turn rate never exceeds the sequence rate, whichever steps leak, if and only if all sequences
  have one length (`Rates.TurnsUnderstateIff`); the upper bound needs only that no sequence is
  longer (`Rates.UpperBoundAlways`).
* Answers and routing of the in-memory model are isolated if and only if its weights are not shared,
  with a prefix cache or without (`FakeModels.ResponsesIsolatedIff`); its timings need the prefix
  cache off too (`FakeModels.ModelIsolationIff`).
* A model's delete does not unlearn a tenant's warmed prefixes: nothing anyone can observe tells of
  the tenant if and only if the backend neither soft-deletes nor keeps a prefix cache
  (`FakeModels.ModelErasureIff`), and for a cache only if keys fold the tenant in
  (`FakeCaches.CacheErasureIff`).
* An A does not say that an isolation control is stated: it is exactly where some driven live surface
  was not scanned for erasure (`Renderers.AMeansNoFailure`).
* The PAE the code writes counts characters of the payload type where the DSSE protocol counts
  bytes: the two agree if and only if the type is ASCII (`Pae.ProtocolFormIffAscii`). It is
  injective all the same.
* The in-memory vector store hides a sibling's documents if and only if it is scoped by user
  (`VectorUsers.SiblingsHiddenIff`), but its upsert replaces by id whoever owns the document, so a
  sibling who reuses an id takes it away (`VectorUsers.SiblingUpsert`).
* `build_bundle` accepts member names that `verify_bundle` refuses
  (`BundleBuild.BuiltMembersPassIffKnown`).
* `embed_batched` with a batch size below zero sends nothing and returns an empty list; with zero
  it raises (`Embeddings.EmbedBatched`).

## Model

| member | source | states |
|---|---|---|
| Rekor.RootFromInclusionProof | packages/evidence/src/sectum_ai/evidence/rekor.py:274-298 | refused exactly for an index out of range or a path that is not as long as the tree's own; otherwise the result is the root the recursive tree gives this leaf and these siblings |
| Rekor.ClimbPath | packages/evidence/src/sectum_ai/evidence/rekor.py:290-298 | the two loops fold the siblings on the sides of the index's low bits and then of the right border |
| Rekor.LoopSidesAreTreeSides | packages/evidence/src/sectum_ai/evidence/rekor.py:286-297 | for every tree size and index, the sides read off `xor`, `bit_length` and the population count are the sides of the recursive split |
| Rekor.PathLengthBound | packages/evidence/src/sectum_ai/evidence/rekor.py:286-289 | the required length, inner plus border, is at most the bit length of the last index |
| Merkle.HonestPathClimbsToRoot | packages/evidence/src/sectum_ai/evidence/rekor.py:269-298 | completeness: the honest path of every leaf of every tree has the required length and climbs to the tree hash |
| Merkle.ProofBindsLeaf | packages/evidence/src/sectum_ai/evidence/rekor.py:269-298 | binding: a path that recomputes the root of a list carries that list's leaf and honest path, or yields a hash collision - though sibling lengths go unchecked |
| Merkle.EqualClimbsOrCollision | packages/evidence/src/sectum_ai/evidence/rekor.py:269-298 | two climbs of one shape to one root are the same climb or exhibit two strings with one hash |
| Merkle.SmallestLogs | packages/evidence/src/sectum_ai/evidence/rekor.py:269-298 | the roots in bytes: an entry alone hashes after a zero byte, two after a one byte and both hashes, and the proofs of either climb to that |
| Merkle.OneRootOneLog | packages/evidence/src/sectum_ai/evidence/rekor.py:269-298 | two logs of any two sizes with one tree hash are the same log, or two strings with one hash are exhibited |
| Rekor.VerifyRekorProof | packages/evidence/src/sectum_ai/evidence/rekor.py:213-250 | the check accepts exactly when log id, body digest, path, checkpoint root and size, key hint, signature and time all hold, and returns the entry's time |
| Rekor.AcceptedEntryIsInTheLog | packages/evidence/src/sectum_ai/evidence/rekor.py:213-336 | when the signed checkpoint's size and root are a log's own - nothing is asked of the proof's own size - the accepted entry is the log's entry at the index, records the digest and came with the honest path, or a collision is exhibited |
| Rekor.SignedSizeIsTheSize | packages/evidence/src/sectum_ai/evidence/rekor.py:278-325 | the size compared as text is the size computed with: a field that prints as a numeral coerces to that number |
| Rekor.AcceptedProofsAgree | packages/evidence/src/sectum_ai/evidence/rekor.py:213-336 | two accepted proofs with one index, size and committed root have one body, path and digest, or exhibit a collision |
| Rekor.HonestProofIsAccepted | packages/evidence/src/sectum_ai/evidence/rekor.py:213-336 | the honest proof of any entry of any log is accepted when its checkpoint is well formed and signed by a pinned key |
| Rekor.SignatureAfterHint | packages/evidence/src/sectum_ai/evidence/rekor.py:325-336 | with four-byte hints the signature blob is good iff it is the pinned key's hint followed by a signature of its over the lines |
| ScoreLaws.CountsDecide | packages/core/src/sectum_ai/score.py:407-453 | subtracting withheld and unattributed counts leaves exactly the attributable findings, and never goes below zero |
| ScoreLaws.VerdictClosedForm | packages/core/src/sectum_ai/score.py:456-705 | a class fails iff it ran on a surface that counts and holds an attributable finding, and passes iff it ran there and holds none at fault |
| RecordReadings.VerdictOnLiveRun | docs/scorecard.md:260-287 | in the record's fields, on a run with live surfaces: a class whose slot some live surface fills fails iff a confirmed finding of it rests on one - the cache finding on the model adapter - and passes iff each rests on a recorded fake; no other has a verdict |
| RecordReadings.VerdictOnFakes | packages/core/src/sectum_ai/score.py:471-598 | on a run of fakes alone a class fails iff a confirmed finding of it rests on a recorded surface, and passes iff it has none |
| RecordReadings.VerdictUnrecorded | packages/core/src/sectum_ai/score.py:471-598 | with no provenance a class that ran fails iff it has a confirmed finding |
| CountReadings.ClassCount | packages/core/src/sectum_ai/score.py:471-598 | the number on a class's line: with a verdict, how many confirmed findings rest where the run's verdicts are about; without, none, all, or those unaccounted for, by whether its probes ran and its slot counts |
| RecordReadings.ScoreReadsAlike | packages/evidence/src/sectum_ai/evidence/labels.py:14-23 | records whose findings differ only in principal, severity, id or between the key-value cache and the model adapter get one scorecard or one refusal |
| ScoreLaws.RefusedForCounts | packages/core/src/sectum_ai/score.py:269-285 | a run is refused for impossible counts exactly when class 2 would have been graded on them |
| ScoreLaws.CappingIffAtFault | packages/core/src/sectum_ai/score.py:407-425 | a class caps iff it holds a confirmed finding outside the withheld fakes, whichever rule decided its verdict |
| ScoreLaws.CapClosedForm | packages/core/src/sectum_ai/score.py:783-826 | `capped_by` is exactly the worst band over the classes holding such a finding |
| ScoreLaws.LetterMeaning | packages/core/src/sectum_ai/score.py:783-826 | a graded run is A iff no such finding exists; any one holds the letter at its band's cap or worse; B is never given |
| ScoreLaws.MoreEvidenceNoBetter | packages/core/src/sectum_ai/score.py:471-826 | one more confirmed catalog finding on a surface that is not withheld, anywhere in the record, never improves the letter |
| ScoreLaws.DeletingProvenanceNeverLiftsTheCap | docs/scorecard.md:171-191 | deleting provenance keys never lifts the cap, never creates an A, and never beats the old cap |
| Letters.LetterClosedForm | packages/core/src/sectum_ai/score.py:783-826 | the letter of every graded record: the weight of the classes placed and without fault against that of those that fail, capped at the worst band at fault |
| Letters.ScoredOrRefused | packages/core/src/sectum_ai/score.py:729-781 | every record's outcome, each refusal as an iff in the code's order; the zero-weight guard is never reached |
| LetterFacts.ThresholdsAreRatios | docs/scorecard.md:292-331 | the integer comparisons give the grade and the confidence of the published thresholds on the weighted score and the coverage |
| LetterFacts.OneFailureLetter | docs/scorecard.md:231-315 | a run that covers the whole catalog and fails one class: by the probe that leaked, F and 36 of 41, D and 38, or C and 40 |
| LetterFacts.PlacedBySurfaces | packages/core/src/sectum_ai/score.py:456-535 | given the live surfaces, a class can be graded iff a probe that ran speaks for one of them |
| Deletions.DeletionScopes | docs/scorecard.md:149-152 | a deletion keeps the scope, empties the block or takes the last live key: the three cases below are all there are |
| Deletions.SameScopeClass | docs/scorecard.md:161-177 | class by class, on the remaining keys: placed iff a counted surface of its slot is left, failed only on a counted finding left; nothing becomes placed or attributable, nothing stops being at fault |
| Deletions.SameScopeDeletion | docs/scorecard.md:171-180 | within one scope: exact new weights, cap and letter; better iff the remaining weights beat it under the worst band at fault on the remaining keys - the old cap where the same fakes are withheld; never where every failing class keeps slot and finding |
| Deletions.SameScopeStillGraded | packages/core/src/sectum_ai/score.py:763-781 | such a deletion leaves a letter iff some graded class keeps its slot and its findings |
| Deletions.EmptiedBlock | docs/scorecard.md:152-152 | deleting every key: graded on every confirmed finding; the letter is better iff those weights beat it under the worst band with a finding, which takes a clean class that was not placed before |
| Deletions.LastLiveKey | docs/scorecard.md:150-151 | deleting the last live key: graded as a run about the fakes that are left; the letter is better iff those weights beat it under the worst band with a finding, which takes a clean class that had only a fake or a failing one that loses its slot or findings |
| MoreFindings.HarmlessFinding | docs/scorecard.md:192-198 | one more finding, unverified or on a withheld fake, in every scope: the letter moves only if its class becomes placed, and is better iff the class is then without fault and its weight lifts the grade past the cap |
| MoreFindings.HarmlessFindingClass | packages/core/src/sectum_ai/score.py:456-598 | such a finding holds nothing against any class, and places its own iff its new probe brings a slot that counts where there was none |
| MoreFindings.PlaceableAfterInsert | packages/core/src/sectum_ai/score.py:471-535 | a finding of any status and surface places its class iff its probe, new to the run, brings a slot that counts where there was none |
| MoreFindings.RefusedWithFindingIff | packages/core/src/sectum_ai/score.py:729-781 | exactly when one more finding of any kind turns a letter into each of the refusals |
| MoreFindings.UnknownProbeKeepsLetter | packages/core/src/sectum_ai/score.py:733-745 | a finding of a probe no class knows changes no letter that is still given |
| ScoreExamples.DeletingAKeyCanImprove | docs/scorecard.md:171-191 | rule 7 overclaims: for such records deleting one key turns an F into a D |
| ScoreExamples.WithheldEvidenceCanImprove | packages/core/src/sectum_ai/score.py:471-598 | where the surface is withheld, one more confirmed finding can turn an F into a D |
| ScoreExamples.UnverifiedFindingCanImprove | docs/scorecard.md:192-198 | an unverified finding on a live store can turn an F into a D |
| Controls.ErasureAssertion | packages/evidence/src/sectum_ai/evidence/controls.py:289-355 | each kind of erasure failure is named iff some named surface has it, and none hides another |
| ExportReadings.VerifiedInFields | packages/evidence/src/sectum_ai/evidence/controls.py:289-355 | the assertion reads "verified" iff every live surface a scan can reach is called erased and none has a count that could not be verified |
| Controls.ControlMappings | packages/evidence/src/sectum_ai/evidence/controls.py:358-384 | one mapping for each supported row, in order, naming its surfaces, unqualified iff nothing failed on them |
| Controls.IsolationSupportedIffNamed | packages/evidence/src/sectum_ai/evidence/controls.py:194-254 | an isolation row is asserted iff there is a surface for it to name |
| Controls.ErasureSupportedIff | packages/evidence/src/sectum_ai/evidence/controls.py:194-270 | an erasure row is asserted iff some surface it names was cleared or shown to hold residue |
| Oscal.ProjectMappings | packages/evidence/src/sectum_ai/evidence/oscal.py:455-486 | over any mappings of any rows: findings in order, reviewed and withheld ids once each |
| Oscal.RunToOscal | packages/evidence/src/sectum_ai/evidence/oscal.py:367-486 | the findings are the exported ones; reviewed and withheld ids list, once each, the ids of supported controls stated and not stated |
| ExportReadings.IsolationInFields | packages/evidence/src/sectum_ai/evidence/oscal.py:417-470 | in owners and observers: a supported isolation control is stated not satisfied iff a confirmed finding rests on a live surface and crosses a tenant or a named-user boundary, satisfied iff there is none such and none unaccounted for |
| ExportReadings.ErasureInFields | packages/evidence/src/sectum_ai/evidence/oscal.py:367-470 | a supported erasure control is stated not satisfied iff some live scannable surface is not called erased, satisfied iff all are and no same-principal finding there is unaccounted for |
| ExportReadings.WithheldErasureInFields | packages/evidence/src/sectum_ai/evidence/oscal.py:400-470 | what withholds an erasure control that would be satisfied: a confirmed same-principal finding on a scannable surface the record does not account for |
| ExportReadings.ErasureControls | packages/evidence/src/sectum_ai/evidence/controls.py:52-165 | exactly the two erasure articles are stated for an erasure, and nothing else is |
| ExportReadings.RetrievalControl | packages/evidence/src/sectum_ai/evidence/controls.py:52-254 | the retrieval control is stated on retrieval surfaces alone |
| ExportReadings.RecordsReadAlike | packages/evidence/src/sectum_ai/evidence/labels.py:14-64 | records whose findings differ only in severity, id or between the key-value cache and the model adapter are exported and graded alike |
| ExportReadings.CacheIsModelAdapter | packages/evidence/src/sectum_ai/evidence/labels.py:14-23 | naming the cache or the model adapter on any one finding changes neither the letter nor the export |
| Oscal.ExportedExactly | packages/evidence/src/sectum_ai/evidence/oscal.py:455-486 | a control finding is exported iff its row is supported and its requirement is not withheld, in the one state the requirement has |
| Renderers.EmitsExactly | packages/evidence/src/sectum_ai/evidence/oscal.py:367-486 | a requirement is stated in a state iff some row of it is supported, that is its state, and it is not withheld |
| Renderers.SatisfiedIsolationIsSound | packages/evidence/src/sectum_ai/evidence/oscal.py:417-470 | behind a satisfied isolation control, a confirmed cross-principal finding can only sit on a surface the record calls a fake |
| Renderers.RenderersDisagreeIff | packages/evidence/src/sectum_ai/evidence/oscal.py:367-486 | given a satisfied isolation control and a grade, the grade is not A (and is capped) iff there is a confirmed same-principal finding outside the withheld set |
| RendererExamples.RenderersCanDisagree | packages/evidence/src/sectum_ai/evidence/oscal.py:367-486 | a leaking store beside a clean model is an F, while isolation is exported satisfied iff the finding crosses no principal |
| RendererExamples.CleanRunAgrees | packages/evidence/src/sectum_ai/evidence/oscal.py:367-486 | the same run without the finding is exported satisfied and graded A |
| Renderers.SatisfiedMeansA | packages/core/src/sectum_ai/score.py:754-826 | with cross-principal catalog findings and possible counts, a satisfied isolation control means the scorecard grades, caps nothing and gives an A |
| Renderers.AMeansNoFailure | packages/evidence/src/sectum_ai/evidence/oscal.py:367-486 | the converse for every A: no isolation control is failed, and one is stated, satisfied, iff some driven live surface was not scanned for erasure |
| Renderers.AMeansSatisfied | packages/evidence/src/sectum_ai/evidence/oscal.py:367-486 | so for a live run without erasure scans an A means an isolation control is stated and every one stated is satisfied |
| Renderers.WordingMatchesState | packages/evidence/src/sectum_ai/evidence/controls.py:289-355 | the signed assertion reads "verified" iff the control's state is satisfied and no surface called erased has an unverifiable count |
| Isolation.PrivateViewWithinSuffices | packages/adapters/src/sectum_ai/adapters/fakes.py:108-217 | a store whose reachable states give each principal a private view does not interfere, over any interleaving of operations |
| Isolation.PrivateViewSuffices | packages/adapters/src/sectum_ai/adapters/fakes.py:108-217 | a store in which each tenant has a private view does not interfere, over any interleaving of operations |
| Isolation.SameSeenErases | packages/adapters/src/sectum_ai/adapters/fakes.py:207-212 | a delete after which all that can be seen is what would be had the tenant never acted erases it: nobody ever observes otherwise, whatever follows |
| Isolation.TwoStepWitness | packages/adapters/src/sectum_ai/adapters/fakes.py:108-217 | one operation that changes what another tenant's next one shows is interference |
| FakeVectors.FakeVectorStore.Query | packages/adapters/src/sectum_ai/adapters/fakes.py:178-194 | the ranked, recall-filtered hits of the visible documents, cut at k |
| FakeVectors.FakeVectorStore.Upsert | packages/adapters/src/sectum_ai/adapters/fakes.py:147-153 | the store's next state: documents replaced in place or appended under the tenant |
| FakeVectors.FakeVectorStore.Fetch | packages/adapters/src/sectum_ai/adapters/fakes.py:196-205 | the visible document of an id, or nothing |
| VectorUsers.ReadsIgnoreOthers | packages/adapters/src/sectum_ai/adapters/fakes.py:155-205 | on a user-scoped store a user reads the same from any two contents that agree, as far as its tenant reaches, once other users' documents are dropped |
| VectorUsers.FetchFinds | packages/adapters/src/sectum_ai/adapters/fakes.py:155-205 | a fetch misses iff no document of the id that the reader may be shown is stored where the tenant reaches, and else returns such a one |
| VectorUsers.SiblingsHiddenIff | packages/adapters/src/sectum_ai/adapters/fakes.py:167-205 | after any trace neither fetch nor query shows a user what only others own, iff the store is user-scoped |
| VectorUsers.QueryFinds | packages/adapters/src/sectum_ai/adapters/fakes.py:67-105 | every hit is a stored document the reader may be shown, scored by the words it shares - of title, content and every metadata value - and past the gate if foreign; where k leaves room, all such are hits |
| VectorUsers.QueryOrder | packages/adapters/src/sectum_ai/adapters/fakes.py:81-99 | hits come best first and then by id, at most k of them, and a larger k only adds at the end |
| VectorUsers.QueryCut | packages/adapters/src/sectum_ai/adapters/fakes.py:178-194 | any integer k keeps that many of the uncut hits, and a negative one leaves that many out at the end |
| VectorUsers.EarlierTenantAnswers | packages/adapters/src/sectum_ai/adapters/fakes.py:155-205 | on a shared index an id two tenants use is answered by the one stored first |
| VectorUsers.SiblingUpsert | packages/adapters/src/sectum_ai/adapters/fakes.py:147-153 | a sibling's upsert takes from a user exactly the documents whose ids it reuses - replacement does not look at the owner - and adds nothing |
| VectorLaws.VectorErasureIff | packages/adapters/src/sectum_ai/adapters/fakes.py:207-212 | after any trace and a delete, all that any reader observes from then on is what it would be had the tenant never acted, iff the backend does not soft-delete |
| FakeVectors.FakeVectorStore.Rank | packages/adapters/src/sectum_ai/adapters/fakes.py:81-99 | the candidates sharing a token with the query, sorted by score and id |
| VectorLaws.VectorIsolationIff | packages/adapters/src/sectum_ai/adapters/fakes.py:147-212 | over every interleaving a tenant sees what it would see alone, iff the index is not shared |
| VectorLaws.RecallMonotone | packages/adapters/src/sectum_ai/adapters/fakes.py:81-105 | for fixed contents, query and any integer k, more recall never returns fewer foreign hits |
| VectorLaws.ForeignQueriesMonotone | packages/adapters/src/sectum_ai/adapters/fakes.py:178-194 | over one corpus and one suite of queries, more recall never lowers the number of queries that return a foreign hit |
| CanaryLaws.NeverHidesIff | packages/core/src/sectum_ai/sweep.py:1-12 | for any integer k and distinct foreign ids: more recall never hides a query's canary, for every gate and pair of recalls, iff none in the ranking can be crowded out of the first k by foreign documents without one |
| CanaryLaws.MoreRecallStillShows | packages/adapters/src/sectum_ai/adapters/fakes.py:178-194 | where none can, whatever the ids, a shown canary stays shown |
| CanaryLaws.PivotRateMonotone | packages/core/src/sectum_ai/sweep.py:45-71 | over one corpus and a plan of such queries the retrieval-pivot rate never falls |
| CanaryLaws.MoreRecallHides | packages/core/src/sectum_ai/sweep.py:45-71 | two foreign documents that match equally, the first without a canary: full recall hides what partial recall showed |
| CanaryLaws.PivotRateCanFall | packages/core/src/sectum_ai/sweep.py:45-71 | so the sweep's rate can fall from one to none as recall rises |
| VectorLaws.RankingIsRight | packages/adapters/src/sectum_ai/adapters/fakes.py:81-99 | the ranking is ordered and holds exactly the candidates sharing a token with the query |
| VectorLaws.SortIsStable | packages/adapters/src/sectum_ai/adapters/fakes.py:81-99 | hits that tie on score and id keep their order |
| VectorLaws.FetchAfterUpsert | packages/adapters/src/sectum_ai/adapters/fakes.py:147-205 | on an unshared store a fetch after an upsert returns the last document written for the id, and every other id is unchanged |
| FakeCaches.ReadAfterWrite | packages/adapters/src/sectum_ai/adapters/fakes.py:628-644 | a write is read back under its key; no other tenant's read on a tenant-scoped cache, no sibling's on a user-scoped one and no other key's is moved by it |
| FakeCaches.SlotsShared | packages/adapters/src/sectum_ai/adapters/fakes.py:628-644 | who else reads a written value back: every tenant or every user where keys do not fold them in, and the user whose prefix a tenant-level key spells out |
| FakeCaches.CacheErasureIff | packages/adapters/src/sectum_ai/adapters/fakes.py:655-663 | after any trace and a delete, all that any reader observes from then on is what it would be had the tenant never acted, iff keys fold the tenant in and the backend does not soft-delete |
| FakeCaches.ListedAfterWrite | packages/adapters/src/sectum_ai/adapters/fakes.py:649-653 | the tenant's listing holds its new value, and no other tenant's listing on a tenant-scoped cache is moved by it |
| FakeCaches.FakeCache.Delete | packages/adapters/src/sectum_ai/adapters/fakes.py:655-663 | the cache's next state without the tenant's entries |
| FakeCaches.CacheIsolationIff | packages/adapters/src/sectum_ai/adapters/fakes.py:628-663 | over every interleaving a tenant sees what it would see alone, iff keys fold the tenant in; rests on the prefix of a fixed-length, colon-free id |
| FakeCaches.SiblingKeysDiffer | packages/adapters/src/sectum_ai/adapters/fakes.py:628-638 | on a user-scoped cache no two users of a tenant ever share a key |
| FakeModels.InferAfterTrain | packages/adapters/src/sectum_ai/adapters/fakes.py:714-735 | on unshared weights, trained texts that match the prompt are recalled after what was recalled before, by whoever may see the trainer's |
| RecallLaws.AnswerIff | packages/adapters/src/sectum_ai/adapters/fakes.py:719-735 | an answer is the matching texts written where the caller reads and that it may see, a space between any two, and with none the fixed reply |
| RecallLaws.ServedByIff | packages/adapters/src/sectum_ai/adapters/fakes.py:737-750 | a prompt is served by the first other tenant trained on anything it matches where weights are shared, else by the caller's adapter |
| FakeModels.ResponsesIsolatedIff | packages/adapters/src/sectum_ai/adapters/fakes.py:714-768 | over every interleaving, a caller without a clock is answered and routed as if alone, iff the weights are not shared - with or without a prefix cache |
| FakeModels.FakeModel.ServedBy | packages/adapters/src/sectum_ai/adapters/fakes.py:737-750 | whose adapter answers, in the model's scope |
| FakeModels.ModelErasureIff | packages/adapters/src/sectum_ai/adapters/fakes.py:775-780 | after any trace and a delete, everyone is answered, routed and timed as if the tenant had never acted, iff the backend neither soft-deletes nor keeps a prefix cache |
| FakeModels.LatencyAfterInfer | packages/adapters/src/sectum_ai/adapters/fakes.py:752-768 | one inference makes exactly the prompts of its first twenty characters faster, for every tenant, and only with a prefix cache |
| RecallLaws.LatencyTellsWhatWasAsked | packages/adapters/src/sectum_ai/adapters/fakes.py:684-773 | after any trace: 100 ms and the jitter, less 60 iff there is a prefix cache and anybody of any tenant has asked a prompt of the same first 20 characters |
| FakeModels.ModelIsolationIff | packages/adapters/src/sectum_ai/adapters/fakes.py:714-780 | over every interleaving of training, inference, routing, timing and deletion, timings included: isolated iff neither weights nor prefix cache are shared |
| FakeMemories.RecallAfterRemember | packages/adapters/src/sectum_ai/adapters/fakes.py:819-830 | on an unshared memory a remembered text is recalled last, by whoever may see the writer's and shares a token, and no recall changes otherwise |
| RecallLaws.RecallsIff | packages/adapters/src/sectum_ai/adapters/fakes.py:819-830 | shared or not, over all tenants: exactly the texts written where the caller reads, that it may see and that share a token with the query |
| RecallLaws.EarlierTenantsFirst | packages/adapters/src/sectum_ai/adapters/fakes.py:819-830 | a shared memory recalls tenant by tenant, in the order they first wrote |
| FakeMemories.MemoryErasureIff | packages/adapters/src/sectum_ai/adapters/fakes.py:832-837 | after any trace and a delete, all that any reader recalls from then on is what it would be had the tenant never acted, iff the backend does not soft-delete |
| FakeMemories.MemoryIsolationIff | packages/adapters/src/sectum_ai/adapters/fakes.py:819-837 | over every interleaving a tenant recalls what it would recall alone, iff the memory is not shared |
| UserIsolation.CacheUsersIsolatedIff | packages/adapters/src/sectum_ai/adapters/fakes.py:628-644 | over every interleaving of users, in whatever tenants, each reads what it would read alone, iff keys fold the user in |
| UserIsolation.MemoryUsersIsolatedIff | packages/adapters/src/sectum_ai/adapters/fakes.py:819-830 | over every interleaving of a tenant's users, each recalls what it would recall alone, iff the memory is scoped by user |
| UserIsolation.ModelUsersIsolatedIff | packages/adapters/src/sectum_ai/adapters/fakes.py:714-768 | over every interleaving of a tenant's users, each is answered and routed - and, with a clock, timed - as if alone, iff adapters are scoped by user and, with a clock, no prefix cache is kept |
| Embeddings.EmbedderBridge.Prefetch | packages/core/src/sectum_ai/embeddings.py:671-673 | the document cache filled as the specification fills it, failure included |
| Embeddings.EmbedderBridge.PrefetchQueries | packages/core/src/sectum_ai/embeddings.py:675-682 | every text registered as a query before anything is sent, and the unindexed ones cached |
| Embeddings.EmbedderBridge.Call | packages/core/src/sectum_ai/embeddings.py:684-696 | the answer and the state after one lookup |
| Embeddings.EmbedderBridge.FillCache | packages/core/src/sectum_ai/embeddings.py:705-717 | the batching loop: cache, log and failure of the recursive fill |
| Embeddings.EmbedBatched | packages/core/src/sectum_ai/embeddings.py:605-633 | on success the batch answers joined in input order, with a consistent provider the pointwise map; an error iff some chunk is refused, and then that chunk's; zero raises, a negative size returns nothing |
| EmbeddingLaws.HistoryKeepsInvariant | packages/core/src/sectum_ai/embeddings.py:636-717 | after any history and with any provider, whatever it answers or refuses: cache keys are exactly what was successfully sent, requests carry 1 to batch-size texts, nothing is successfully sent twice in a mode |
| EmbeddingLaws.HistoryIsTrue | packages/core/src/sectum_ai/embeddings.py:636-717 | with a provider that answers each text with the model's vector, every vector cached after any history is the model's for that mode |
| EmbeddingLaws.HistoryRegisters | packages/core/src/sectum_ai/embeddings.py:675-682 | a text counts as a query iff some registration named it, even one whose embedding failed |
| EmbeddingLaws.CallAfterHistory | packages/core/src/sectum_ai/embeddings.py:684-696 | after any history a successful call gives the document vector iff the text was ever embedded as a document or never registered, else the query vector |
| EmbeddingLaws.OnceADocument | packages/core/src/sectum_ai/embeddings.py:675-696 | once embedded as a document, whatever follows, a call gives the document vector and sends nothing |
| EmbeddingLaws.BatchesCover | packages/core/src/sectum_ai/embeddings.py:620-633 | the batches are the missing texts cut in order into runs of 1 to batch-size |
| EmbeddingLaws.AnsweredThenRefused | packages/core/src/sectum_ai/embeddings.py:705-717 | the answered batches are the first ones and the refused one is the next |
| EmbeddingLaws.FillSends | packages/core/src/sectum_ai/embeddings.py:705-717 | a fill sends the answered batches, then the refused one if any, and no more |
| FillLaws.FillRequests | packages/core/src/sectum_ai/embeddings.py:620-633 | a fill's requests one by one: the missing texts in order, exactly batch-size to each but the last, stopping at the first without one vector a text |
| FillLaws.FillFromTexts | packages/core/src/sectum_ai/embeddings.py:705-717 | the missing texts are those given and not cached, once, in order of first appearance; no request for a batch size of zero, which raises, or below |
| FillLaws.FillRaises | packages/core/src/sectum_ai/embeddings.py:572-598 | a failed fill raises the provider's own typed error, and an adapter error for an SDK failure or a wrong count |
| EmbeddingLaws.FillCaches | packages/core/src/sectum_ai/embeddings.py:705-717 | the cache after a fill equals the old one with the answered batches' texts under the vectors they were answered with |
| EmbeddingLaws.FillCachesPointwise | packages/core/src/sectum_ai/embeddings.py:705-717 | text by text: the i-th answered text has the i-th answered vector, every other text is as it was, and nothing else is cached |
| EmbeddingLaws.FillKeepsOldValues | packages/core/src/sectum_ai/embeddings.py:705-717 | a fill overwrites nothing already cached |
| Runner.ScenarioRunner.Preflight | packages/core/src/sectum_ai/runner.py:109-122 | refused iff a declared adapter is not configured |
| Runner.ScenarioRunner.SendStep | packages/core/src/sectum_ai/runner.py:155-169 | one turn of the loop: dropped, or executed, judged and, for a plant, read back |
| Runner.ScenarioRunner.RunPerStep | packages/core/src/sectum_ai/runner.py:124-214 | results, counters and calls are those of the specified run, errors midway included |
| RunnerLaws.RunReturnsTheSentSteps | packages/core/src/sectum_ai/runner.py:124-323 | a run returns nothing or exactly what `steps_to_send` names, in order, and raises wherever it raises |
| RunnerLaws.EveryPlantIsSent | packages/core/src/sectum_ai/runner.py:295-307 | every plant is sent, in order, as itself or as its tenant where the adapter carries no user |
| RunnerLaws.RunnableStepsAreSent | packages/core/src/sectum_ai/runner.py:286-307 | the judged steps sent are exactly those whose adapter can carry whom they name, unchanged and in order |
| RunnerLaws.PlannedIsSentPlusDropped | packages/core/src/sectum_ai/runner.py:295-307 | planned steps are the sent ones plus the dropped ones |
| RunnerLaws.NoUserIsMadeUp | packages/core/src/sectum_ai/runner.py:286-307 | no step is sent as a user on an adapter that cannot carry one |
| RunnerLaws.DriveAccounts | packages/core/src/sectum_ai/runner.py:155-169 | a plan driven to its end executed exactly the sent steps in order, and its counts are those of the calls it made |
| RunnerLaws.DiscardedIff | packages/core/src/sectum_ai/runner.py:179-202 | executed results are discarded iff there were plants, none of them read back, and nothing was confirmed |
| PlantLaws.ReadBacksAreAnswers | packages/core/src/sectum_ai/runner.py:216-277 | every read-back a run records is of a plant just executed, and says landed iff the stack's answer then held what was planted |
| PlantLaws.UnconfirmedIffVanished | packages/core/src/sectum_ai/runner.py:155-277 | a completed run counts a plant unconfirmed iff a payload field is missing, the read-back raised an adapter error or no returned text holds the plant; it discards iff all plants did so and no finding is confirmed |
| PlantLaws.NothingIsLost | packages/core/src/sectum_ai/runner.py:155-277 | over any probes, on a stack that gives back what it was given, no plant is counted and no completed run discards results |
| PlantLaws.ResultsAreJudgements | packages/core/src/sectum_ai/runner.py:155-169 | each result is the probe's judgement of the stack's answer to that step after the calls before it, and no step without a known action and an adapter gets one |
| PlantLaws.SentFailsWith | packages/core/src/sectum_ai/runner.py:216-359 | what ends a run at a step: no adapter or unknown action, the stack's own error, or a read-back error that is not an adapter's |
| PlantLaws.DropsWholeIff | packages/core/src/sectum_ai/runner.py:286-293 | a probe is dropped whole iff it judges something and every judged step names a user its adapter cannot carry |
| PlantLaws.SentIff | packages/core/src/sectum_ai/runner.py:286-307 | a judged step is sent, as it is, iff its adapter carries whom it names; an unconfigured one is an error |
| PlantLaws.PreparesAsItRuns | packages/core/src/sectum_ai/runner.py:109-323 | `steps_to_send` raises for a missing adapter as the run does, sends nothing where the run drops the probe whole, and else names the steps sent |
| PlantLaws.NotRunIsCount | packages/core/src/sectum_ai/runner.py:155-178 | the dropped count is the number of places of the plan with such a step |
| PlantLaws.FamilyIsPrefix | packages/core/src/sectum_ai/runner.py:325-330 | the adapter of an action is the one its name starts with |
| RunnerLaws.TrainingIsExempt | packages/core/src/sectum_ai/runner.py:216-277 | a probe that trains a model is never discarded for unconfirmed plants |
| RunnerLaws.CountersAreTotals | packages/core/src/sectum_ai/runner.py:124-214 | over any sequence of probes each counter is, id by id, the exact total over completed runs, and names an id iff that total is not zero |
| Rates.ConfirmedSequenceRate | packages/core/src/sectum_ai/runner.py:558-585 | the dictionary loop computes the fraction of sequences holding a leaking step |
| Rates.ConfirmedFindingRate | packages/core/src/sectum_ai/runner.py:588-600 | the fraction of leaking steps |
| Rates.SequencesAre | packages/core/src/sectum_ai/runner.py:558-585 | a sequence is a tenant, a user and a name some step acted in, and leaks iff one of those steps surfaced a confirmed finding |
| Rates.StepsPerSequence | packages/core/src/sectum_ai/runner.py:558-585 | where no sequence has more than m steps there are at most m steps to a sequence, and exactly m iff each has m |
| Rates.SequenceRateBounds | packages/core/src/sectum_ai/runner.py:558-600 | with sequences of m steps each: turn rate <= sequence rate <= m times the turn rate |
| Rates.UpperBoundAlways | packages/core/src/sectum_ai/runner.py:558-600 | where no sequence has more than m steps, the sequence rate is at most m times the turn rate |
| Rates.TurnsUnderstateIff | packages/core/src/sectum_ai/runner.py:558-600 | for given steps, the turn rate is at most the sequence rate whichever of them leak, iff all sequences have one length |
| Rates.UnevenSequencesBreakTheBound | packages/core/src/sectum_ai/runner.py:558-600 | with sequences of different lengths the turn rate can be the higher one |
| FindingDiffs.SelectFirst | packages/core/src/sectum_ai/baseline.py:490-498 | the first finding of each kept id, in order |
| FindingDiffs.ChangedInPlace | packages/core/src/sectum_ai/baseline.py:504-512 | the first later copies whose status or severity differs from the first earlier copy |
| FindingDiffs.DiffFindings | packages/core/src/sectum_ai/baseline.py:470-520 | the loops over seen ids, first copies and changes compute the specified buckets |
| FindingDiffLaws.BucketsPartition | packages/core/src/sectum_ai/baseline.py:470-520 | repeats or not: appeared and persisting split the later ids, resolved and persisting the earlier ids |
| FindingDiffLaws.BucketsInOrder | packages/core/src/sectum_ai/baseline.py:480-520 | each bucket lists an id once, as a subsequence of its source, in its first copy there |
| FindingDiffLaws.QuietIff | packages/core/src/sectum_ai/baseline.py:347-362 | both gates are quiet iff every id confirmed later was confirmed earlier and no id's first copies escalate |
| FindingDiffLaws.GatesAreDisjoint | packages/core/src/sectum_ai/baseline.py:347-362 | no finding is both newly confirmed and a severity escalation |
| FindingDiffLaws.QuietIffKnown | packages/core/src/sectum_ai/baseline.py:347-362 | with distinct ids both gates are quiet iff each later confirmed finding has an earlier confirmed one of its id, no less severe |
| FindingDiffLaws.QuietChainsIff | packages/core/src/sectum_ai/baseline.py:347-362 | quiet diffs chain across a middle record, for every record before and after it, iff each id confirmed in it has a confirmed first copy there |
| FindingDiffLaws.QuietIsTransitive | packages/core/src/sectum_ai/baseline.py:347-362 | so they chain where the middle record's ids are distinct |
| FindingDiffLaws.RepeatedIdsHideAnEscalation | packages/core/src/sectum_ai/baseline.py:500-512 | with repeated ids two quiet diffs can add up to one that gates |
| Baseline.NoRegressionIff | packages/core/src/sectum_ai/baseline.py:425-467 | a diff does not regress iff the finding gates are quiet, no gated number grew (counts exactly, rates within the tolerance, bounded effect sizes aside), everything once measured still is, and scenario and embedder are the same |
| Baseline.NeverAgainstItself | packages/core/src/sectum_ai/baseline.py:523-571 | no record regresses against itself |
| Baseline.ErasureLostIff | packages/core/src/sectum_ai/baseline.py:598-649 | no erasure is lost iff residue counts, caveats and scanned rows are all still there |
| GateReadings.PivotRegressesIff | packages/core/src/sectum_ai/baseline.py:163-185 | of counts and an asserted pivot rate only what the counts give is compared, and a record without counts is held to what it asserts |
| GateReadings.PoisoningRegressesIff | packages/core/src/sectum_ai/baseline.py:69-118 | a run that differs in one headline rate regresses iff it is no longer measured or grew by more than one part in a billion |
| GateReadings.EffectSizeRegressesIff | packages/core/src/sectum_ai/baseline.py:120-160 | an effect size gates iff neither run's is a mere bound, an absent one reading as zero |
| GateReadings.ResidueRegressesIff | packages/core/src/sectum_ai/baseline.py:120-281 | a residue count has no slack |
| GateReadings.CaveatsNeverRegress | packages/core/src/sectum_ai/baseline.py:120-281 | a count of caveats gates nothing |
| GateReadings.SeverityRegressesIff | packages/core/src/sectum_ai/baseline.py:316-362 | one confirmed finding given another severity regresses iff it is a higher one |
| GateReadings.EverySurfaceIsReported | packages/core/src/sectum_ai/baseline.py:120-281 | every surface either record has a residue or a caveat count for is compared, absent as zero |
| GateReadings.LosingLiveRegresses | packages/core/src/sectum_ai/baseline.py:652-661 | a surface no longer live is a regression by itself |
| Decimal.PaddedIsInjective | packages/core/src/sectum_ai/substrate/markers.py:127-127 | a prefix with a padded number determines the number, however far it outgrows its width |
| Decimal.PaddedForm | packages/core/src/sectum_ai/substrate/markers.py:127-127 | a padded numeral is digits only, at least the width, and longer only without a leading zero |
| Markers.GenerateMarkers | packages/core/src/sectum_ai/substrate/markers.py:93-135 | six markers, two a type in order, numbered on from the start, dealt to the users in turn |
| Markers.MarkerSays | packages/core/src/sectum_ai/substrate/markers.py:93-135 | each of the six markers: two of each type in order, its running number, its owner, and the words of its type and shape, which rotates with the tenant |
| Markers.DealtInClosedForm | packages/core/src/sectum_ai/substrate/markers.py:124-124 | round robin gives everyone the quotient and the first few one more |
| Markers.OwnershipIsEven | packages/core/src/sectum_ai/substrate/markers.py:106-135 | a tenant's distinct users own marker counts that differ by at most one, and no marker is left without one |
| Corpus.PivotAssignments | packages/core/src/sectum_ai/substrate/corpus.py:166-191 | an error iff markers outnumber documents (and there is something to plant), else the even spread |
| Corpus.SlotsIncrease | packages/core/src/sectum_ai/substrate/corpus.py:187-190 | the indices (i*size)//n strictly increase |
| CorpusLaws.SlotIsFloor | packages/core/src/sectum_ai/substrate/corpus.py:187-190 | a slot is the marker's share of the corpus, rounded down |
| Corpus.PivotsAreSpread | packages/core/src/sectum_ai/substrate/corpus.py:181-191 | each marker has a slot of its own below the corpus size, with its entity in turn, and there are no other pivots |
| Corpus.GenerateCorpus | packages/core/src/sectum_ai/substrate/corpus.py:194-256 | the documents and the recorded locations are those the pivots prescribe |
| CorpusLaws.EachMarkerInOneDocument | packages/core/src/sectum_ai/substrate/corpus.py:213-242 | each marker is carried by exactly one document, owned by its owner, and its locations are that document's body, title and metadata |
| CorpusLaws.PivotNamesBoth | packages/core/src/sectum_ai/substrate/corpus.py:155-163 | that document names the entity and the marker in its body, and the marker in title and metadata |
| CorpusLaws.LocationsAreTrue | packages/core/src/sectum_ai/substrate/corpus.py:213-256 | a marker's recorded locations are the body, the title and the metadata of one document, and its text is in each |
| CorpusLaws.DocumentSays | packages/core/src/sectum_ai/substrate/corpus.py:213-242 | every document's id, tenant, type, heading and metadata, and that only a pivot refers to a marker |
| CorpusLaws.FillersCarryNothing | packages/core/src/sectum_ai/substrate/corpus.py:239-242 | every other document carries no marker and has no owner |
| CorpusLaws.EntitiesCovered | packages/core/src/sectum_ai/substrate/corpus.py:181-191 | a shared entity placed before the number of markers has a pivot - with the marker of its place, in that marker's slot - and the document there names it |
| CorpusLaws.EntityHasPivotIff | packages/core/src/sectum_ai/substrate/corpus.py:186-190 | with distinct entities, one is in some pivot iff it is placed before the number of markers |
| CorpusLaws.DocumentIdsDiffer | packages/core/src/sectum_ai/substrate/corpus.py:218-218 | document ids are distinct within a tenant |
| Build.Provision | packages/core/src/sectum_ai/substrate/build.py:42-66 | one tenant: refused iff its corpus has no room, else its planted markers and documents |
| Build.BuildSubstrate | packages/core/src/sectum_ai/substrate/build.py:34-73 | built iff every corpus has room for its markers; then all tenants' planted markers and documents, in order |
| Build.MarkerIdsAreContiguous | packages/core/src/sectum_ai/substrate/build.py:42-67 | across tenants marker ids are the numbers from zero, without a gap and all distinct, and tell their tenant |
| Build.EveryMarkerIsPlanted | packages/core/src/sectum_ai/substrate/build.py:50-67 | every marker of the substrate is in exactly one document of its tenant, in all three fields; without shared entities nothing is planted |
| Build.OnlyEntitiesAreEmbedded | packages/core/src/sectum_ai/substrate/build.py:16-32 | entity canaries and no others get an embedding address, of the first model named or the built-in one |
| Build.EveryMarkerInOneDocumentOfAll | packages/core/src/sectum_ai/substrate/build.py:50-73 | among all tenants' documents together exactly one carries a given marker, and it is of the marker's own tenant |
| Utf8.DecodeEncoded | packages/evidence/src/sectum_ai/evidence/dsse.py:37-42 | as many characters as were encoded decode back, leaving what follows |
| Utf8.ShortestForm | packages/evidence/src/sectum_ai/evidence/dsse.py:37-42 | each character has the one to four bytes of RFC 3629's table (section 3), and no overlong form |
| Pae.DecodingInvertsEncoding | packages/evidence/src/sectum_ai/evidence/dsse.py:30-42 | a decoder inverts the encoding for every type, ASCII or not, and every payload |
| Pae.EncodingIsInjective | packages/evidence/src/sectum_ai/evidence/dsse.py:30-42 | equal encodings are of one type and one payload |
| Pae.EncodingIsText | packages/evidence/src/sectum_ai/evidence/dsse.py:30-42 | the encoding of a text is one line of text: version, length and type, length in bytes and payload |
| Pae.ProtocolFormIffAscii | packages/evidence/src/sectum_ai/evidence/dsse.py:30-42 | the encoding is the DSSE protocol's iff the type is ASCII |
| InToto.StatementRoundTrip | packages/evidence/src/sectum_ai/evidence/dsse.py:45-90 | a pack's statement verifies against it, and its envelope gives back exactly that statement |
| InToto.StatementBindsOneResult | packages/evidence/src/sectum_ai/evidence/intoto.py:96-133 | two packs one statement verifies against share run name, digest and predicate |
| InToto.AcceptedStatement | packages/evidence/src/sectum_ai/evidence/intoto.py:59-133 | an accepted statement, field by field: of the two published types, about this run alone, saying exactly what the pack says, its anchors included |
| InToto.AcceptedEnvelope | packages/evidence/src/sectum_ai/evidence/dsse.py:61-90 | an accepted envelope is of the published payload type and carries an accepted statement |
| InToto.BuiltStatement | packages/evidence/src/sectum_ai/evidence/intoto.py:59-93 | the statement built, key by key and with no key besides |
| InToto.BuiltEnvelope | packages/evidence/src/sectum_ai/evidence/dsse.py:45-59 | the envelope built: unsigned, of the published payload type, with the statement's text as base64 |
| InToto.PredicateTellsAll | packages/evidence/src/sectum_ai/evidence/intoto.py:71-93 | packs with one predicate agree on every field in it and on the anchors they claim |
| Bundle.VerifyBundle | packages/evidence/src/sectum_ai/evidence/bundle.py:132-362 | passes iff every itemized check does, iff the archive opens, its members are the manifest's, known and unaltered, and everything in it binds to its pack |
| Bundle.MemberChecks | packages/evidence/src/sectum_ai/evidence/bundle.py:208-250 | all member checks pass iff the member set is the manifest's, each known, each digest matching |
| Bundle.PackChecks | packages/evidence/src/sectum_ai/evidence/bundle.py:302-319 | all of the pack's own checks pass but for its word on the PDF |
| Bundle.PdfChecks | packages/evidence/src/sectum_ai/evidence/bundle.py:298-338 | all PDF checks pass iff each present PDF hashes to the pack's reference and a bound PDF is present |
| Bundle.SidecarChecks | packages/evidence/src/sectum_ai/evidence/bundle.py:339-357 | all sidecar checks pass iff each present attestation verifies against the pack |
| BundleLaws.PassingArchive | packages/evidence/src/sectum_ai/evidence/bundle.py:170-250 | a passing archive has distinct names, exactly the manifest's besides the manifest, all known, each content with its listed digest |
| BundleReadings.PassesIff | packages/evidence/src/sectum_ai/evidence/bundle.py:132-362 | passing in the archive's own terms, both ways: readable distinct members, a manifest listing exactly the others, all of the ten names written, by digest, and an evidence pack that run record, PDFs, statements and envelope agree with and that verifies |
| BundleLaws.SameEvidenceSameRun | packages/evidence/src/sectum_ai/evidence/bundle.py:278-297 | passing bundles with one evidence member carry one run record, as JSON |
| BundleLaws.SameEvidenceSamePdf | packages/evidence/src/sectum_ai/evidence/bundle.py:298-338 | and one PDF, or two inputs with one hash |
| BundleLaws.SameEvidenceSameAttestation | packages/evidence/src/sectum_ai/evidence/bundle.py:339-357 | and attestations, bare or enveloped, of one subject name, digest and predicate |
| BundleBuild.BuildBundle | packages/evidence/src/sectum_ai/evidence/bundle.py:106-129 | refused iff the evidence is missing or the manifest's name is taken; else the members and their digest manifest, by name |
| BundleBuild.BuiltArchiveOpens | packages/evidence/src/sectum_ai/evidence/bundle.py:106-206 | a built archive opens as the members it was built from and their digests |
| BundleBuild.BuiltMembersPassIffKnown | packages/evidence/src/sectum_ai/evidence/bundle.py:106-250 | a built archive passes every member check iff its names are all known |
| BundleBuild.HonestBundlePasses | packages/evidence/src/sectum_ai/evidence/bundle.py:106-362 | a bundle of members drawn from a pack passes iff the pack verifies |

## Left out

- Cryptography, base64, JSON text, ZIP and YAML: functions given as parameters; where a round trip needs it, that what is written reads back is a hypothesis.
- SHA-256: any function to 32 bytes; results that would need collision resistance name the collision.
- Network, file and SDK code: live adapters, provider embedding classes, log submission.
- Probe plans and detection: a probe is any plan with any detector, and the sweep's detector any predicate on hits; which findings a leak produces is not part of this model.
- The stack under test in the runner: any function of the calls made so far, so it may keep any state.
- `verify_pack` inside a bundle: any list of named checks; its timestamp and anchoring rules are not modelled.
- Floating point: rates, thresholds and effect sizes are exact; the diff's tolerance is kept.
- Pseudo-random text: marker words, filler text and templates are parameters, and a pivot's body is some lead, the entity, some tail and the marker.
- UUIDs: natural numbers where only equality matters, and 36-character colon-free text where the cache builds keys from them.
- Admin listings of the stores (`keys`, `list_namespaces`): not observations a tenant makes.
- The tokenizer, latency jitter and the recall gate's hash: parameters.
- Runner.ScenarioRunner.RunPerStep: a probe's plan and detector are total functions, so an error raised by either of them is not modelled.
- EmbeddingLaws.CallAfterHistory: a provider fails whenever it likes, but when it answers with the right count it gives each text the model's one vector for that mode.
- CorpusLaws.DocumentIdsDiffer: within a tenant only, because the eight hexadecimal digits in a document id may coincide for two tenants.
- BundleLaws.SameEvidenceSameRun: an integer, a float and a truth value are different JSON values, so Python's equality of 1, 1.0 and true is not modelled; not-a-number and the infinities are no JSON values.
- CanaryLaws.NeverHidesIff: for foreign documents of distinct ids in the ranking, since the gate cannot tell two of one id apart; the sufficient half needs no such thing.
- Build.BuildSubstrate: the markers and documents; the manifest's hash and the scenario's other fields are not modelled.
- Refusing to grade a run that cannot be identified (its digest, a not-a-number metric): a record here always has a digest.
- Prose: scorecard notes and headlines, assertion wording (kept as surfaces and named failures), log lines, the order of metric lines in a diff.
- The `bounded` and tolerance rules break transitivity by design: only the finding gate is proved transitive.
- `_swap_scoped`, `embedder_scoped` and the `baseline_absent`/`current_absent` flags: renderings of the diff that gate nothing.
- Latency, throughput and thread pools.
