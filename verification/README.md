# Document review: verified models

A Dafny model of the deterministic core of the document review service, with proofs of what
that core is for. `dafny verify dfyconfig.toml` checks the whole project.

The project follows the program's components, a few modules each:

- **Chunking** (`Tokenizer`, `EmbeddingText`, `ForcedSplit`, `AtomSplit`, `OffsetDrift`,
  `NodeDrafts`, `Drafting`, `NodeOffsets`, `ContextRoom`, `Windows`, `Projection`). A run-based tokenizer,
  packing, a splitter with two passes and a binary search, and greedy parent windows. Characters
  are Unicode code points tagged with one of three classes: white space, single-token, word.
  The check that a chunk's serialization fits can never fire on text, and the profiles for which
  nothing can fail are characterised exactly.
- **Patches** (`DocumentTree`, `PatchTree`, `PatchLaws`, `HashLaws`, `PatchLimits`, `Patches`,
  `PatchHeap`, `PatchInPlace`, `PatchValidation`, `PatchRequests`, `PatchCommit`, `CommitStore`, `PatchCodec`,
  `PatchText`). The theory is on values: sequential edits against one simultaneous rewrite. The
  program's own form, a cloned tree of mutable nodes located, checked, edited and rehashed in
  place, is proved to compute it. Commits run against tables that other commits change between
  their reads and their write. Hashes are injective functions of what they are taken over.
- **Agent graph** (`GraphModels`, `AgentGraph`, `GraphRuns`, `GraphProgress`, `GraphReach`). Nodes
  are functions from a state and an arbitrary answer to the next state or an error, which states
  and answers outside the schema always give; the laws are about every run.
- **Approvals** (`ApprovalFacts`, `ApprovalBackend`, `ApprovalLaws`). A repository of mutable
  tables with snapshot transactions, and what holds after any sequence of calls.
- **Parsing and ingestion** (`TextLines`, `LineScanner`, `TextParser`, `SectionTree`, `Ingestion`,
  `IngestedDocument`, `IngestLaws`). Scanners over lines whose patterns are parameters, and the
  tree built from a stack of open headings.
- **Event stream** (`EventFrames`, `FrameParser`, `LineEnds`, `StreamDelivery`, `StreamResume`,
  `TurnRunner`). A polling runner over a growing log, a printer, an incremental parser, a client
  cursor, and reconnecting after a break. The format is the part of section 9.2.6 of the WHATWG
  HTML Standard, "Interpreting an event stream", that the program uses. JSON text is a codec with a
  round-trip law and no raw line ends.
- **Tool runtime, rate limits, context** (`ToolRuntime`, `RateLimit`, `ContextAssembly`).

`Options`, `JsonValues`, `Decimal` and `Digests` hold shared small notions.

Where the program loops over updated variables or changes objects in place, the model is a method
with loops or a class, proved equal to a specification function; the laws are lemmas about the
specification.

## Findings

Some promises do not hold of the code; the model keeps the code, and the exact condition is proved.

- Fragment offsets count unit lengths while white space before the first unit and between units is
  dropped, so they point at the fragment's own text exactly when the block does not begin with
  white space and none of what is dropped is followed by something visible
  (`NodeOffsets.OffsetsExactIff`, `OffsetDrift.SpaceAfterSentenceDrifts`). The offsets of a packed
  draft do so exactly when its blocks have no white space around them and only blank lines between
  them (`NodeOffsets.PackedExactIff`).
- A profile accepted by the profile check can leave no room for text, even with the hard maximum at
  twice the heading limit and twice the overlap (`ContextRoom.TwiceIsNotEnough`), and a parent limit
  below the child limit fails too (`Projection.BuildNeverFailsIff`).
- The order of operations matters exactly when one deletes a node above another's target
  (`PatchLaws.EveryOrderWorksIff`, `PatchValidation.ParentDeletedFirst`), and a patch that passes
  every check can still bring a blank key that its application refuses
  (`PatchRequests.ChecksSufficeIff`).
- Validation takes the limits of the request, but hashing, application and commit fall back to the
  default ones: a patch within larger limits raises an error where others are reported
  (`PatchRequests.ValidatePatch`).
- The remediation notes on chunking ask to keep fenced code blocks as they are. The code
  looks for the code mark in a node's attributes while it is stored in its metadata, so a paragraph
  after a code block is joined to it (`Ingestion.CodeAbsorbsIff`).
- Parsing counts JSON depth and validation counts node depth against the same limit, and the
  parsed set is checked under the default limits once more, so a valid patch can print as text that
  is refused (`PatchCodec.ChainParsesIff`, `PatchCodec.DeepChainIsRefused`).
- A graph run whose validated patch names no key to commit it under can never move again
  (`GraphProgress.StuckIff`), and such a run exists (`GraphReach.StrandedReachableIff`). A run
  identifier may have 200 characters, but request identifiers are made from it and may have no more:
  with 164 the very first node refuses every answer (`GraphProgress.FirstNodeStuckIff`), and only
  up to 162 can a run end (`GraphReach.EndReachableIff`).
- The page asks again after a break only while no done or error frame was shown, so nothing behind
  one is made up for: a failed or cancelled turn that breaks behind its error frame never shows
  done (`StreamResume.FailedTurnStaysOpen`). Otherwise a connection that breaks between the two
  frames of one event loses the second one when later events follow, and after the last event the
  closing frame of the next response stands in for it. A read that fails loses the cursor, and all
  that had been shown is shown again (`StreamResume.ResumeIff`). The closing frame is dropped by the
  client's cursor once anything newer was shown (`StreamResume.ClosingFrameShownIff`). A CR LF cut
  between two chunks can lose a frame (`LineEnds.FramesSurviveIff`, `LineEnds.CutLineEndIsLost`).
- A fixed window keeps a stretch of its own length to the limit only when the stretch is a window;
  any other can admit twice the limit (`RateLimit.LimitHoldsIff`, `RateLimit.AtMostTwice`,
  `RateLimit.TwiceIsReached`).

## Model

| member | source | states |
|---|---|---|
| `Tokenizer.Spans` | src/docreview/knowledge/chunking.py:126-146 | The scanning loop gives the tokens of the text in order, none missed: their number is the token count, they lie apart, cover every visible character, and token k begins where the longest prefix of k tokens ends. |
| `Tokenizer.CountAcrossSpace` | src/docreview/knowledge/chunking.py:123-146 | Counts add up across white space: text put together with white space between costs exactly the sum. |
| `Tokenizer.CountPrefix` | src/docreview/knowledge/chunking.py:126-146 | Counts never fall when a prefix grows. |
| `Tokenizer.CountExtend` | src/docreview/knowledge/chunking.py:126-146 | One more character costs at most one token, and does so exactly when it starts one. |
| `Tokenizer.LongestFitSplits` | src/docreview/knowledge/chunking.py:712-742 | Cutting at the longest prefix within a limit divides the token count exactly: the prefix has the limit and the rest has what is left. |
| `Tokenizer.TailCount` | src/docreview/knowledge/chunking.py:914-921 | The tail of at most `limit` tokens is a suffix with exactly min(limit, count) tokens. |
| `Tokenizer.TailOf` | src/docreview/knowledge/chunking.py:914-921 | The tail computed from the spans is that suffix, the fallback of four characters a token for text without tokens included. |
| `EmbeddingText.SerializedCount` | src/docreview/knowledge/chunking.py:851-873 | Serialized text costs exactly the tokens of heading context, overlap and raw text together; blank parts and separators cost nothing. |
| `EmbeddingText.CompactPath` | src/docreview/knowledge/chunking.py:812-848 | The loop drops middle headings and shortens the outer two exactly as the compact path defines. |
| `EmbeddingText.ContextBound` | src/docreview/knowledge/chunking.py:812-848 | Whatever the outline, the compact path keeps its first and last heading and costs at most the widest context a heading limit allows. |
| `ForcedSplit.LongestFitting` | src/docreview/knowledge/chunking.py:726-735 | The binary search finds the longest prefix that still fits behind context and overlap. |
| `ForcedSplit.ForceTokenUnits` | src/docreview/knowledge/chunking.py:712-742 | The forced splitter terminates with the pieces the specification gives, or with the error when not even one character fits. |
| `ForcedSplit.ForcedSucceeds` | src/docreview/knowledge/chunking.py:736-737 | The "context alone" error is raised exactly for non-empty text when the room is below zero, or zero and the text costs a token. |
| `ForcedSplit.ForcedPieces` | src/docreview/knowledge/chunking.py:712-742 | Pieces are non-empty, lie end to end, put together are the input, each fits, all but the last are full, and their counts add up. |
| `ForcedSplit.ForcedFewest` | src/docreview/knowledge/chunking.py:712-742 | No contiguous splitting into pieces that fit has fewer pieces. |
| `AtomSplit.ForceSplitAtom` | src/docreview/knowledge/chunking.py:636-698 | Both passes, filling fragments with whole units and cutting again those that do not fit behind the overlap they will carry, compute the specified split. |
| `AtomSplit.SplitAtomCarries` | src/docreview/knowledge/chunking.py:636-698 | Every fragment fits together with the tail of the fragment before it, even when cutting it again made that tail longer than the one it was checked with; visible characters are kept in order and offsets lie end to end. |
| `AtomSplit.SplitAtomSucceeds` | src/docreview/knowledge/chunking.py:636-698 | With room for the overlap and one token more, splitting never fails. |
| `NodeOffsets.AtomExactIff` | src/docreview/knowledge/chunking.py:636-698 | Split for any room, the fragments of a block point, in the node's content, at their own text exactly when the block does not begin with white space and no white space that splitting drops is followed by something visible: after a sentence end; in text of one sentence, after a clause end. |
| `NodeOffsets.OffsetsExactIff` | src/docreview/knowledge/chunking.py:314-318 | All forced drafts of a node point in its content at their own text exactly when each of its blocks that has to be split is exact in that sense. |
| `NodeOffsets.PackedExactIff` | src/docreview/knowledge/chunking.py:551-587 | A packed draft is the join of neighbouring blocks of its node, and points at its own text exactly when nothing was stripped off any of them and only a blank line lies between any two. |
| `OffsetDrift.SpaceAfterSentenceDrifts` | src/docreview/knowledge/chunking.py:701-709 | Any white space after any sentence end is white space that is dropped and matters, as soon as something visible follows. |
| `NodeDrafts.PackAtoms` | src/docreview/knowledge/chunking.py:506-549 | The packing loop forms the specified groups. |
| `NodeDrafts.PackingLaws` | src/docreview/knowledge/chunking.py:506-549 | The groups put together are the atoms in order, each fits the hard maximum when its atoms do, and a group ends only where the next atom would not join it. |
| `NodeDrafts.NodeAtomsInk` | src/docreview/knowledge/chunking.py:576-587 | Cutting a paragraph at blank lines loses no visible character. |
| `Drafting.NodeDraftList` | src/docreview/knowledge/chunking.py:419-503 | Packing and forced splitting alternate over the atoms of a node exactly as specified. |
| `Drafting.DraftsConserveText` | src/docreview/knowledge/chunking.py:419-549 | The drafts of any paragraph or list entry hold exactly its visible characters, each once and in order. |
| `Drafting.DraftsAreBounded` | src/docreview/knowledge/chunking.py:292-294 | Every draft, serialized with its heading context and its real overlap, is within the hard maximum: the last check on it never fires. |
| `ContextRoom.DraftingNeverFailsIff` | src/docreview/knowledge/chunking.py:36-52 | Drafting succeeds for every node under every outline if and only if the widest heading context, the overlap and one token fit the hard maximum. |
| `ContextRoom.TwiceIsNotEnough` | src/docreview/knowledge/chunking.py:36-52 | Twice the heading limit plus twice the overlap within the hard maximum is not enough: a profile and a node that fail. |
| `ContextRoom.ReviewProfileHasRoom` | src/docreview/knowledge/chunking.py:53-53 | The default profile can never fail. |
| `Windows.AssignWindows` | src/docreview/knowledge/chunking.py:745-767 | The grouping loops place the entries section by section as specified, and fail exactly when a draft exceeds the parent limit. |
| `Windows.FewestWindows` | src/docreview/knowledge/chunking.py:745-767 | The greedy rule uses the fewest contiguous windows of those any acceptable grouping uses. |
| `Windows.WindowsAreBounded` | src/docreview/knowledge/chunking.py:745-767 | Window totals stay within the parent limit, and within the target when every draft does. |
| `Windows.PlacementIsStable` | src/docreview/knowledge/chunking.py:745-767 | Placing rearranges the drafts by section: the same drafts, each section's in their old order. |
| `Projection.BuildProjection` | src/docreview/knowledge/chunking.py:257-346 | Collecting drafts, windows, numbering and the last check run as specified, errors included. |
| `Projection.BuildSucceedsIff` | src/docreview/knowledge/chunking.py:257-346 | With room and parents no smaller than children, building fails exactly when some heading without children is too long by itself. |
| `Projection.BuildNeverFailsIff` | src/docreview/knowledge/chunking.py:257-346 | Building never fails on any paragraphs and list entries if and only if there is room and parents are no smaller than children. |
| `Projection.ChunksAreTheDrafts` | src/docreview/knowledge/chunking.py:281-344 | Every chunk fits, each section's chunks are its drafts in order, and chunks are numbered through their document and their section. |
| `PatchLaws.SequentialIsSimultaneous` | src/docreview/document/patch.py:493-525 | For distinct targets in the base tree and fresh inserted identifiers, applying operation after operation succeeds exactly when each passes its checks on the base tree and lies under no node deleted before it, and then equals one simultaneous rewrite. |
| `PatchLaws.OrderDoesNotMatter` | src/docreview/document/patch.py:493-525 | Any two orders of the operations that both succeed give the same tree. |
| `PatchLaws.AnyOrderWorks` | src/docreview/document/patch.py:493-525 | When no target lies under a node another operation deletes, every order succeeds with the same tree. |
| `PatchLaws.FindRewrite` | src/docreview/document/patch.py:556-573 | Locating a node in the edited tree finds the hash and parent it had in the base tree, unless a deletion above removed it. |
| `PatchLaws.EveryOrderWorksIff` | src/docreview/document/patch.py:493-525 | Every order of a plan's operations is applied exactly when each passes its checks on the base tree and no target lies under a node that any of them deletes. |
| `PatchValidation.ParentDeletedFirst` | src/docreview/document/patch.py:493-525 | On a valid document, replacing a child and deleting its parent is a valid set and passes the checks on operations in both orders, and one order is applied while the other fails. |
| `HashLaws.NodeSurvives` | src/docreview/document/patch.py:493-525 | After the rewrite a surviving node is found as itself with its own operation made, and no other node is found under its identifier. |
| `HashLaws.HashKeptIff` | src/docreview/document/model.py:139-209 | A surviving node keeps its base hash exactly when its content and attributes came out as they were and its list of children was not edited, whatever changed below. |
| `Patches.PatchRewrites` | src/docreview/document/patch.py:493-525 | A successful patch gives a valid document of the same identity whose tree is the rehashed rewrite. |
| `Patches.PatchOrderDoesNotMatter` | src/docreview/document/patch.py:493-525 | Patches that differ only in the order of operations give the same document. |
| `Patches.PatchedHashes` | src/docreview/document/model.py:181-209 | In the patched document hashes are kept under the exact condition above. |
| `PatchHeap.Clone` | src/docreview/document/patch.py:528-541 | Cloning gives new objects throughout that stand for the same value, and leaves the source as it was. |
| `PatchHeap.Visit` | src/docreview/document/patch.py:556-573 | The walk over the objects finds the first node with the identifier, its parent object and its position. |
| `PatchHeap.ApplyInPlace` | src/docreview/document/patch.py:499-523 | One operation on mutable nodes: located, checked against the hashes the objects carry, and edited in place, with the outcome and the error of the specification. |
| `PatchHeap.ApplyOperations` | src/docreview/document/patch.py:498-523 | The loop over operations leaves the objects standing for the sequential result, or returns its first error. |
| `PatchHeap.RehashNode` | src/docreview/document/model.py:189-199 | Rehashing node by node, children first, writes only hashes and gives the rehashed tree. |
| `PatchInPlace.ApplyPatchInPlace` | src/docreview/document/patch.py:493-525 | The imperative application on heap documents returns the specified document or error and leaves the input document's value unchanged on success and on failure. |
| `PatchInPlace.Validate` | src/docreview/document/model.py:228-290 | The validating walk with its set of seen identifiers accepts exactly the valid documents. |
| `PatchInPlace.Rehash` | src/docreview/document/model.py:189-209 | A document's tree and its own hash are brought up to date. |
| `PatchValidation.Index` | src/docreview/document/validation.py:425-446 | The index keeps the first node and parent of every identifier and reports repetition exactly when identifiers repeat. |
| `PatchValidation.IndexAgreesWithFind` | src/docreview/document/validation.py:425-446 | Where identifiers are unique, the index and the locating walk agree on node and parent. |
| `PatchValidation.CheckInserted` | src/docreview/document/validation.py:449-505 | The walk over an inserted tree counts no error exactly when the tree is admissible, has distinct identifiers and repeats none seen before. |
| `PatchValidation.CheckOperations` | src/docreview/document/validation.py:265-375 | The validating loop reports no error exactly when every operation passes every check on nodes, parents, hashes, scope and inserted trees, and then names the targets in order. |
| `PatchValidation.ValidatedIsPlan` | src/docreview/document/validation.py:265-375 | Validated operations form a plan, and each passes its hash and parent checks on the base tree. |
| `PatchValidation.ValidatedAppliesIff` | src/docreview/document/validation.py:391-406 | Operations that pass the loop, under any limits, are applied successfully exactly when their patch is a valid set under the default limits, none works below a node an earlier one deleted and no blank key they bring reaches the result. |
| `PatchRequests.CheckEvidence` | src/docreview/document/validation.py:236-263 | The evidence and citation loops count no error exactly when every reference is known, each bound one belongs to this version and document, and every citation is known. |
| `PatchRequests.ValidatePatch` | src/docreview/document/validation.py:132-422 | A request is accepted exactly when its patch is a valid set under its own limits and the default ones, its claims, scope, versions, hashes, evidence, operations and approval all hold and the patch applies to a private copy. An error is raised instead of reported exactly when the patch is within the request's limits and not within the default ones. |
| `PatchRequests.ChecksSufficeIff` | src/docreview/document/validation.py:132-422 | A request that passes every check is accepted exactly when the document is the resource, the patch is within the default limits, no operation is buried and no blank key reaches the result. |
| `PatchCommit.ValidatedCommits` | src/docreview/document/commit.py:58-133 | With a new key on the same snapshot, a validated patch passes every re-check of commit and is handed over as the validated result with the base hashes. |
| `CommitStore.Database.WriteCommit` | src/docreview/storage/postgres/document_commit.py:213-390 | The transaction looks up key, base version, node hashes and identifier again, and writes version, event and commit row together or nothing. |
| `CommitStore.Database.CommitPatch` | src/docreview/document/commit.py:58-133 | A commit that nothing interrupts has the specified outcome. |
| `CommitStore.RunsStaySound` | src/docreview/storage/postgres/document_commit.py:213-390 | Whatever commits run, however stale their reads: each version of a resource is what one commit's patch makes of the one before, commits and versions correspond one to one, each is announced once, with the hash of the version it made, and nothing written changes. |
| `CommitStore.TurnTells` | src/docreview/document/commit.py:79-133 | A call is told the stored result of its key, for its own patch only, and that it created the version exactly when it did; any other call changes nothing. |
| `CommitStore.KeysAreWrittenOnce` | src/docreview/document/commit.py:79-89 | Once a call under a key succeeded, later calls under it change nothing: the same patch is told the same version, another never succeeds. |
| `CommitStore.HistoryReplays` | src/docreview/storage/postgres/document_commit.py:213-390 | The committed patches, replayed on a resource's first version, give each of its versions. |
| `CommitStore.ValidatedIsWritten` | src/docreview/document/commit.py:58-133 | A patch validated against the latest version is written when nothing comes between, its key is new and the new identifier is free. |
| `PatchCodec.ParsesBackIff` | src/docreview/document/patch.py:228-336 | A printed patch set parses back to itself exactly when it is valid under the limits given and under the default ones, its texts are trimmed, its nodes readable and its JSON within the depth limit given; otherwise it is refused. |
| `PatchCodec.NodesRead` | src/docreview/document/patch.py:136-210 | Recursive nodes are read back exactly when all of them are readable; omitted lines come back as zero. |
| `PatchCodec.OperationRead` | src/docreview/document/patch.py:279-325 | An operation, with its omitted fields, is read back exactly when it is valid and readable. |
| `PatchCodec.ParsedIsShallow` | src/docreview/document/patch.py:125-133 | Each level of inserted nodes costs two levels of JSON and the innermost one more: nodes nested h deep need a limit of 2h + 5. |
| `PatchCodec.ChainParsesIff` | src/docreview/document/patch.py:125-133 | That bound is exact: a chain of nodes n deep is valid for limits of n and more, and its text parses back exactly when the limit is at least 2n + 5 and n is within the default limit, under which parsing checks the set at its end. |
| `PatchCodec.DeepChainIsRefused` | src/docreview/document/patch.py:217-225 | Any other chain passes validation under its limits while its own text is refused. |
| `PatchText.ParsedPrintsBack` | src/docreview/document/patch.py:228-336 | Whatever text was parsed, printing the patch and parsing that gives the same patch again. |
| `PatchText.PatchReadsBackIff` | src/docreview/document/patch.py:228-336 | A document's patch is read back from its own text exactly when that text is well-formed under the limits given and the default ones, readable and within the depth limit given, for hashes that their texts tell apart. |
| `PatchText.ValidSetIff` | src/docreview/document/patch.py:339-374 | A document's patch is a valid set under some limits exactly when its text is well-formed under them. |
| `GraphRuns.StepKeepsGood` | src/docreview/agent_graph/graph.py:117-470 | Every step, whatever the runtime answers, keeps the facts of a good state: patch, commit, action and counter facts. |
| `GraphRuns.RunIsGood` | src/docreview/agent_graph/graph.py:117-470 | Every state of every run from the initial one is good. |
| `GraphRuns.CommitProvenance` | src/docreview/agent_graph/graph.py:288-453 | A commit exists only after five steps of the run that generated a patch, had the same artifact, fact and content hash validated, created a pending approval and had that approval approved. |
| `GraphRuns.DecisionNeverApproves` | src/docreview/agent_graph/policy.py:32-69 | In every run no patch is valid where the model decides, no decision for approval is taken, and approval is requested only right after a validation that accepted the patch. |
| `GraphRuns.StepDescends` | src/docreview/agent_graph/graph.py:60-81 | Every step spends a cycle or moves down the ranks of nodes. |
| `GraphRuns.RunsAreShort` | src/docreview/agent_graph/graph.py:60-81 | No run is longer than four steps a cycle and five more. |
| `GraphRuns.RunsFitTheSchema` | src/docreview/agent_graph/models.py:265-284 | With limits that keep the counters in bounds, every state of every run is one the schema accepts: identifiers, texts, hashes and counters. |
| `GraphRuns.AnalyzesOnce` | src/docreview/agent_graph/graph.py:267-286 | Evidence is analysed at most once in a run. |
| `GraphReach.CommitReachableIff` | src/docreview/agent_graph/graph.py:117-453 | Some run whose answers the schema accepts commits exactly when the limits allow three cycles, whatever the other limits. |
| `GraphReach.StrandedReachableIff` | src/docreview/agent_graph/graph.py:313-373 | A run whose answers the schema accepts can come to a validated patch that names no key exactly when three cycles are allowed. |
| `GraphReach.EndReachableIff` | src/docreview/agent_graph/graph.py:57-81 | Some run with given identifiers comes to its end exactly when the run identifier has at most 162 characters. |
| `GraphProgress.CanFinish` | src/docreview/agent_graph/graph.py:117-470 | From every state that is not stranded some answers lead to the end, for run identifiers of at most 157 characters and limits that keep the counters in bounds. |
| `GraphProgress.StuckIff` | src/docreview/agent_graph/graph.py:57-89 | In a run, no answer at all moves on exactly at the end, where the validated patch names no key to commit it under, where a counter is past its bound in the schema, and where the request would need an identifier of more than 200 characters. |
| `GraphProgress.RoomyStuckIff` | src/docreview/agent_graph/graph.py:344-373 | With a run identifier of at most 157 characters and limits that keep the counters in bounds, only the first two are left. |
| `GraphProgress.FirstNodeStuckIff` | src/docreview/agent_graph/graph.py:57-81 | The very first node refuses every answer exactly when the run identifier has 164 characters or more. |
| `GraphProgress.RunRequestsDiffer` | src/docreview/agent_graph/graph.py:60-81 | No two requests of a run have the same identifier. |
| `ApprovalBackend.Repository.CreateApproval` | src/docreview/approval/backend.py:153-212 | A transaction over mutable tables: create has the specified outcome, and any failure restores the snapshot. |
| `ApprovalBackend.Repository.DecideApproval` | src/docreview/approval/backend.py:281-361 | Deciding writes steps, run, record and event as specified, and any failure restores the snapshot. |
| `ApprovalBackend.Repository.EnqueueOutbox` | src/docreview/approval/backend.py:111-131 | An event is appended once; the same event again changes nothing and a different one in its slot is a conflict. |
| `ApprovalLaws.RepositoryLaws` | src/docreview/approval/backend.py:41-361 | After any calls from no approvals: keys and approvals in bijection, one requested event each and one decided event when decided, at most one decided approval a run, and one queued commit step for each approved one. |
| `ApprovalLaws.RecordsPersist` | src/docreview/approval/backend.py:153-361 | A call never removes an approval, alters its request, or changes it once decided. |
| `ApprovalLaws.RecordsAreFinal` | src/docreview/approval/backend.py:153-361 | No sequence of calls removes an approval, alters its request, or changes it once decided. |
| `ApprovalLaws.CreateReplays` | src/docreview/approval/backend.py:166-178 | Whatever calls follow a create, repeating it returns the same approval as it has become by then, and changes nothing. |
| `ApprovalLaws.DecideReplays` | src/docreview/approval/backend.py:281-306 | Whatever calls follow a decision, repeating it returns the same record and changes nothing, and the opposite decision is a conflict. |
| `LineScanner.ReadLines` | src/docreview/document/parser.py:406-414 | The numbering loop gives the numbered lines of the text with their offsets. |
| `LineScanner.LinesTile` | src/docreview/document/parser.py:406-414 | The lines tile the text once its line ends are made the same: nothing between them but one line end each, nothing left over. |
| `TextParser.MarkdownElements` | src/docreview/document/parser.py:277-357 | The markdown scanner terminates with one element a block, blocks cut the lines completely, and each block ends where its kind ends. |
| `TextParser.TextElements` | src/docreview/document/parser.py:360-403 | The plain text scanner, which gathers paragraphs and flushes them, does the same under its own rules. |
| `TextParser.ListElementAt` | src/docreview/document/parser.py:436-471 | The list loop takes the maximal run of item lines, and is ordered when any marker is a number. |
| `TextParser.TableElementAt` | src/docreview/document/parser.py:496-512 | The table loop takes the maximal run of table lines, with the header's cells and those of every further line that is no separator. |
| `TextParser.CellsKeepText` | src/docreview/document/parser.py:492-493 | Cells hold what is visible in their line, in order, and are one more than the bars between them. |
| `TextParser.ParsedCoversOnce` | src/docreview/document/parser.py:277-403 | Every line that is not blank is in exactly one block, and no other cut into blocks exists. |
| `TextParser.ParsedIsSound` | src/docreview/document/parser.py:277-471 | Elements come in order with non-decreasing offsets and lines, and attributes that are valid JSON. |
| `TextParser.IngestText` | src/docreview/document/parser.py:134-158 | Of an uploaded file: an empty one and one too large are refused, one without a text extension goes to another parser, and any other, whatever the patterns recognise in it, is ingested as a valid document exactly when the document, version and file have names. |
| `SectionTree.OutlineIsUnique` | src/docreview/document/ingestion.py:54-90 | An outline nested by level is determined by its preorder walk. |
| `SectionTree.PopFindsNearest` | src/docreview/document/ingestion.py:59-62 | Popping the stack of open headings leaves the nearest earlier heading of smaller level on top. |
| `Ingestion.BuildTree` | src/docreview/document/ingestion.py:54-90 | The loop with its heading stack builds the specified tree, and fails exactly on an unsupported kind. |
| `Ingestion.TreeIsOutline` | src/docreview/document/ingestion.py:54-122 | The tree is nested by heading level and its walk is the elements' blocks in source order, adjacent paragraphs joined. |
| `Ingestion.OnlyOutline` | src/docreview/document/ingestion.py:54-122 | It is the only nested outline with that walk. |
| `Ingestion.ParentIsNearest` | src/docreview/document/ingestion.py:59-62 | Each heading is put under the nearest earlier heading of strictly smaller level, or the root. |
| `Ingestion.CodeAbsorbsIff` | src/docreview/document/ingestion.py:101-122 | The element after a code block joins it exactly when it is a paragraph without code of its own. |
| `IngestedDocument.RootIsUnique` | src/docreview/document/ingestion.py:189-191 | Structural paths are distinct, and so are the identifiers made from them. |
| `IngestedDocument.IdTellsPath` | src/docreview/document/model.py:73-75 | Within one document an identifier tells its path. |
| `IngestLaws.IngestSucceedsIff` | src/docreview/document/ingestion.py:29-98 | Sound elements of known kinds give a document that passes its own validation exactly when the names are not blank. |
| `EventFrames.FramesOf` | src/docreview/turn/sse.py:28-50 | Every event gives one or two frames under its own sequence, and a second one is always done. |
| `FrameParser.SSEParser.Push` | frontend/src/api/sse.ts:7-20 | A push returns the frames its chunk completes and keeps the rest of the text. |
| `FrameParser.ParseFrame` | frontend/src/api/sse.ts:22-43 | The line loop reads a frame as specified: last identifier and event win, data lines join, anything but a JSON object is dropped. |
| `FrameParser.CutAppend` | frontend/src/api/sse.ts:7-20 | What has been cut stays cut: appending text only affects what was waiting. |
| `FrameParser.NormalizedIff` | frontend/src/api/sse.ts:8-8 | Normalising chunk by chunk gives the normalised text exactly when no CR LF is cut in two. |
| `FrameParser.ChunkingDoesNotMatter` | frontend/src/api/sse.ts:7-20 | Chunkings that cut no CR LF all give the same frames. |
| `LineEnds.FramesSurviveIff` | frontend/src/api/sse.ts:7-43 | A stream with CR LF line ends, cut into any chunks, gives its frames exactly when no cut falls inside the line end of an identifier, of a name other than the default, or of a blank line. |
| `LineEnds.CutLineEndIsLost` | frontend/src/api/sse.ts:8-8 | Any frame is lost when its text is cut inside its very last line end. |
| `StreamDelivery.StreamParses` | src/docreview/turn/sse.py:53-59 | The printed stream parses back to its frames with trimmed names, and nothing is left over. |
| `StreamDelivery.StreamTurn` | frontend/src/api/sse.ts:75-93 | The client's read loop shows what the cursor filter lets through; it returns the cursor when the body ends, and none when reading fails. |
| `StreamDelivery.DeliveredExactly` | frontend/src/api/sse.ts:83-87 | From new events in order, through any chunking of the printed stream, the client shows exactly their frames, each once and in order. |
| `StreamResume.ResumeIff` | frontend/src/features/assistant/AssistantPage.tsx:130-144 | Whether the page shows every frame exactly once: never once a done or error frame was shown; otherwise, after a body that ended, unless it broke between the two frames of an event that was not the last or the run then raised; after a failed read, only if nothing had been shown. |
| `StreamResume.FailedTurnStaysOpen` | frontend/src/features/assistant/AssistantPage.tsx:130-130 | A turn that failed or was cancelled and broke behind its error frame is not made up for: nothing more is shown. |
| `StreamResume.ClosingFrameShownIff` | src/docreview/api/routes/assistant_turns.py:161-173 | The frame the server adds at the end carries the request's cursor, so the client shows it exactly when the response brought nothing newer. |
| `TurnRunner.StreamLog` | src/docreview/turn/coordinator.py:114-120 | The coordinator's stream hands over the events past the cursor, and the observer sees those past the request's. |
| `TurnRunner.DeterministicStatus` | src/docreview/turn/pipeline.py:190-201 | The backward scan finds the last event that tells a deterministic status. |
| `TurnRunner.Execute` | src/docreview/turn/pipeline.py:83-121 | Over any growing log the observer sees each event past the cursor exactly once, in order; the loop stops at the first poll whose projection matches and has caught up, or whose deadline passed. |
| `TurnRunner.RunReachesClient` | src/docreview/turn/pipeline.py:83-121 | The frames of the shown events reach the client as exactly those of the log's events past its cursor. |
| `ToolRuntime.Preflight` | src/docreview/tool_runtime/runtime.py:193-330 | The backend may be called exactly when schema, resource, policy, approval, rate limit and claim allow it, and they are asked in that order. |
| `ToolRuntime.RunAttempts` | src/docreview/tool_runtime/runtime.py:416-517 | Attempts are bounded, all before the last failed retryably, and the last decides. |
| `ToolRuntime.RunBackend` | src/docreview/tool_runtime/runtime.py:361-415 | A recovered call with side effects and no receipt is never run again. |
| `ToolRuntime.BoundResult` | src/docreview/tool_runtime/runtime.py:559-653 | A result is small enough to hand on, or stored as an artifact bound to this call with a summary in bounds. |
| `ToolRuntime.ExecuteTool` | src/docreview/tool_runtime/runtime.py:193-557 | Over all answers of the boundaries: order of calls, at most the allowed attempts, exactly one finish for an acquired claim and none otherwise, and every success within its bounds. |
| `RateLimit.RateLimitTable.Increment` | src/docreview/tool_runtime/postgres.py:9-34 | The upsert raises a bucket only while it is below the limit and returns nothing otherwise. |
| `RateLimit.CheckAll` | src/docreview/tool_runtime/rate_limit.py:93-125 | A call is admitted exactly when fewer than `limit` earlier calls fell into its window, and a refusal asks to wait more than nothing and at most a window. |
| `RateLimit.AtMostTwice` | src/docreview/tool_runtime/rate_limit.py:118-125 | No stretch of one window's length admits more than twice the limit. |
| `RateLimit.LimitHoldsIff` | src/docreview/tool_runtime/rate_limit.py:118-125 | A stretch of one window's length admits at most the limit, whatever the calls, exactly when it begins where a window begins. |
| `RateLimit.TwiceIsReached` | src/docreview/tool_runtime/rate_limit.py:118-125 | From any other moment some calls are admitted twice as often as the limit. |
| `ContextAssembly.FillLayer` | src/docreview/context/assembler.py:182-205 | A layer takes each item that fits what is left, and a required layer fails exactly when its items together do not fit. |
| `ContextAssembly.Assemble` | src/docreview/context/assembler.py:168-235 | The total is the sum of the selected items and within the budget minus the reserve. |
| `ContextAssembly.LayerLaws` | src/docreview/context/assembler.py:182-205 | Every layer stays within its own budget, required layers are kept whole, others hold the items at some positions in order, and no other position's item would still fit. |
| `ContextAssembly.DecodeEncode` | src/docreview/context/assembler.py:340-419 | A prepared item is read back as it was written, omitted fields included. |
| `ContextAssembly.ManifestsAreIntact` | src/docreview/context/storage.py:102-112 | Whatever is assembled from prepared items passes the check made when it is loaded. |

## Left out

- Unicode: which code points are white space, single-token or word characters is given with each character; case folding and normalisation do not occur. Trimming of JSON and stream texts knows space, tab, CR and LF.
- Table nodes in chunking: rows with a header and caption, row positions and their combined detail; page numbers and the size limit of chunk metadata; tokenizers other than the deterministic one.
- Section summaries and the fallback of exact tokenizers in the projection.
- IngestedDocument.IdTellsPath: identifiers are the text that the program hashes; truncation of the digest to 32 digits is not modelled.
- Ingestion.BuildTree: a heading is attached to its parent when it is closed, not when it is opened, which gives the same tree; the program's node objects are values here.
- Quality flags, and attributes that would overwrite `structural_path`, `section_key` or a `section_type` that is no text; no parser of the program produces such attributes.
- TextParser.MarkdownElements: the legacy and XHTML parsers; the extension of a file name is given; headings, clauses, items and separators are recognised by arbitrary given patterns instead of the program's regular expressions.
- PatchInPlace.ApplyPatchInPlace: the walks stop at objects already seen; on the private clone every object occurs once, so these guards are not modelled, and a source with a cycle is outside the model.
- PatchTree operations come well-shaped; the shape checks are modelled in PatchCodec. Duplicate keys in JSON text and non-finite numbers are left out.
- PatchRequests.ChecksSufficeIff: of the limits on bytes only that on single texts is modelled, not those on attributes and on whole patches; the same goes for PatchRequests.ValidatePatch, PatchCodec.ParsesBackIff and PatchText.PatchReadsBackIff.
- PatchValidation.CheckOperations: the parent version that trusted code may expect of an insertion, and the categories and messages of errors; inserted nodes are values. Evidence, citations and approval are checked in PatchRequests.
- CommitStore.Database.WriteCommit: node, section and chunk rows are not stored apart from their document; whether it can be cut into chunks is a parameter, and so are the identifiers that the database hands out.
- GraphRuns.CommitProvenance: ValidatePatch does not bind the resource identifier to the generated patch, so nothing is stated about it; the interrupt and checkpoint machinery is replaced by steps with arbitrary answers, whose values come stripped of surrounding blanks as the schema leaves them. Kinds and artifacts of observations, confidences and validation messages are not part of the answers.
- ApprovalBackend.Repository.CreateApproval: locks and waiting are left out, the identifier of a new approval and the clock are parameters; payload signatures are left out.
- EventFrames.FramesOf: event payloads are always objects. FrameParser.ParseFrame reads identifiers as unbounded numbers.
- StreamResume.ResumeIff: one break and one further connection, over a log that is complete by then; the third attempt, made while neither showed a done or error frame, is not modelled.
- TurnRunner.Execute: a run is cut off after any number of polls; waiting, cancellation and failing boundaries are left out. The log is read whole at each poll, in strictly increasing sequence.
- ToolRuntime.ExecuteTool: clocks, latency and deadlines are part of the answers; pure helpers do not fail; messages and details of errors are left out.
- RateLimit.CheckAll: one rule, and time zones are left out.
- ContextAssembly.Assemble: candidates are given by layer in the order they are tried, whatever sorting gave that order; preparation of single items is left out, and timestamps are texts.
- Leases and projections of the PostgreSQL repositories, HTTP providers, the web application and its interface, retrieval scoring, ingress signatures and evaluation scripts.
