# ApiPilot verification

A Dafny model of the parts of ApiPilot's backend that compute over graphs, trees, JSON text and interleaved steps, with
proofs of what they promise. `dafny verify dfyconfig.toml` checks all of it.

## What is modelled

- **Dependencies and workflows** (`Relationships`, `Graphs`, `DependencyGraph`, `CycleFindings`, `MergeRelationships`,
  `WorkflowBuilding`, `Workflows`, `WorkflowOrder`, `WorkflowEnumeration`, `WorkflowAssembly`). Relationships between API operations are
  merged from three sources, disambiguated to one producer per consuming field, freed of cycles by Kahn's algorithm, and
  unfolded into workflows by a bounded depth-first search. Cut relationships are grouped by union-find with path
  compression. The elimination is exact: an operation is left over if and only if a cycle reaches it. The enumeration is
  exact: the workflows are the root-started paths that end at a sink or have the full number of operations.
- **The item tree of an uploaded collection** (`CollectionTree`, `CopiedScripts`, `CollectionStructure`). A request is
  sent with the auth it inherits and with the scripts of all folders above it. `MoveKeepsMeaning` says that moving a
  member changes neither for the requests in it, apart from scripts of target folders that are new to it, and changes
  nothing for any other request.
- **JSON text** (`JsonText`, `StableJson`, `JsonScan`, `JsonGrammar`). The canonical serializer is injective up to key
  order and undefined members, and what it writes is JSON. The hand-written scanners agree with the grammar of sections 2 to 7 of RFC 8259: for every document
  the grammar can print, the depth scan reports its depth, and the object scan cuts out exactly the object it starts at.
- **Executors, queue and batches** (`ExecutionOrder`, `RunExecution`, `UploadedExecution`, `RequestQueue`,
  `RequestBatching`, `BatchedInference`, `NewmanSandbox`). One result per request on every path; withholding along chains
  of data dependencies; first in, first out with one computation at a time, abandoned ones included; a batch run that
  never calls anything after it was told to stop; a sandbox in which every run settles exactly once.
- **Coverage** (`CoverageClassification`, `CoverageEvidence`, `CoverageGaps`, `CoverageFilter`, `CoverageRefiltering`,
  `CoverageTotals`, `CoverageMeaning`).
  A requirement's state is the join of what its scenarios establish, the evidence chosen per scenario does not depend on
  the order of runs, gaps partition the unverified requirements, rows and gaps survive a filter together, and the sections
  of a filtered view add up to each other. `CoverageMeaning` says of the snapshot itself what every section shows.
- **The throughput estimate** (`RateEstimator`), in exact reals.

`Sequences` and `Ordering` hold the stock operations the source calls: filter, map, flatMap, grouping maps, stable sorts
and the order of UTF-16 code units.

## How it is modelled

Loops that update variables are methods with invariants, proved against functions; objects whose fields are updated in
place are classes. The outside world enters as parameters: `localeCompare` as an order `le`, hashes as functions of what
is hashed, the answers of a runner or a provider and the cancel flags as functions of position and time. Exceptions are
outcomes. JavaScript strings are sequences of characters, and numbers that count are natural numbers.

## Where the code and its documentation disagree

- The comment at `backend/src/dependencies/assembleWorkflows.ts:150-155` says that nothing is silently dropped.
  Relationships beyond the first one that crosses the step bound are: `LongChainDropsItsEnd` gives such a chain, and
  `EnumeratedIsReportedExactly` says exactly which relationships are reported.
- The comment at `backend/src/dependencies/buildDependencyGraph.ts:26-33` speaks of operations that are part of a cycle or
  exclusively downstream of one. The code leaves over everything reachable from a cycle, also through an operation that
  has other producers: `EliminationIsExact` follows the code, and `LeftOverBesideOtherProducer` gives such an operation.
- The comment at `backend/src/externalCollections/collectionStructure.ts:206-218` says that a move keeps what the member
  had. A copied script runs the same only when its marker is one JavaScript line, and `JSON.stringify` leaves U+2028 and
  U+2029 in a folder's name, while the id is not quoted at all. `CopyRunsTheSame` gives the exact condition,
  `SeparatorInNameBreaksCopy` and `LineFeedInIdBreaksCopy` one failing folder for each half of it.

## Where a property holds only on a condition

- Filtering a filtered coverage view again changes nothing exactly when no category is set or every requirement of the
  kept operations is in that category (`IdempotentIff`, `CategoryViewLosesUnclassified`).
- Under a state filter that includes `verified`, a row survives with none of its gaps exactly when everything that
  matches in it is verified (`RowWithoutGap`, `VerifiedRowHasNoGap`).
- The order of mapped scenarios decides nothing but which stale reason and date are given (`SameInAnyOrderIff`,
  `StaleReasonFollowsOrder`).
- Which of two equally good relationships is kept for a field depends on the order of the input; the producer field it
  names does not (`KeptIgnoreInputOrderIff`, `ChoiceIgnoresInputOrder`).

## Model

| member | source | states |
|---|---|---|
| Relationships.KeysRead | backend/src/dependencies/assembleWorkflows.ts:21-31 | the key of an operation is its method, a space and its path, for the producing and for the consuming end |
| Relationships.KeysIdentify | backend/src/dependencies/assembleWorkflows.ts:21-23 | two operations have one key if and only if they are the same operation, as no method has a space in it |
| DependencyGraph.IndexOperations | backend/src/dependencies/buildDependencyGraph.ts:35-57 | the index built by the first loop describes exactly the operation graph: every operation known once, each successor listed once, in-degrees counting distinct predecessors |
| DependencyGraph.Eliminate | backend/src/dependencies/buildDependencyGraph.ts:59-75 | the queue loop removes exactly the operations that no directed cycle reaches, a self-loop being a cycle |
| DependencyGraph.EliminationIsExact | backend/src/dependencies/buildDependencyGraph.ts:63-75 | when the queue is empty, an operation is left over if and only if it is reachable from an operation on a directed cycle |
| DependencyGraph.LeftOverBesideOtherProducer | backend/src/dependencies/buildDependencyGraph.ts:26-33 | not only what is exclusively downstream of a cycle is left over: an operation that also consumes from an operation outside every cycle's reach is, and its hand-off from the cycle is cut while the other one is kept |
| DependencyGraph.NoEdgeOutOfLeftover | backend/src/dependencies/buildDependencyGraph.ts:75-87 | no kept relationship leads from a leftover operation to a removed one |
| DependencyGraph.KeptAndCutPartition | backend/src/dependencies/buildDependencyGraph.ts:77-89 | kept and cut relationships together are the input, each relationship as often as it came in |
| DependencyGraph.KeptIsAcyclic | backend/src/dependencies/buildDependencyGraph.ts:77-89 | the returned acyclic relationships have no directed cycle |
| DependencyGraph.AcyclicIsKeptWhole | backend/src/dependencies/buildDependencyGraph.ts:28-33 | an input without a cycle is returned unchanged |
| DependencyGraph.BuildDependencyGraph | backend/src/dependencies/buildDependencyGraph.ts:34-90 | returns the kept relationships in input order, and one finding per connected component of the cut ones, sorted by their joined ids |
| CycleFindings.DisjointSets.Find | backend/src/dependencies/buildDependencyGraph.ts:100-105 | stops for every key, answers the root of the key's class, and path compression changes no key's answer |
| CycleFindings.DisjointSets.Union | backend/src/dependencies/buildDependencyGraph.ts:106-110 | merges exactly the two classes of its arguments and leaves every other class alone |
| CycleFindings.CompressionKeepsForest | backend/src/dependencies/buildDependencyGraph.ts:100-105 | pointing a key straight at its root keeps the parent links a forest with the same roots |
| CycleFindings.UnionKeepsForest | backend/src/dependencies/buildDependencyGraph.ts:106-110 | hanging one root below another keeps the parent links a forest |
| CycleFindings.UnionAll | backend/src/dependencies/buildDependencyGraph.ts:112-118 | after the union loop two operations have one root if and only if an undirected path of relationships connects them |
| CycleFindings.GroupCyclic | backend/src/dependencies/buildDependencyGraph.ts:112-126 | two cyclic relationships land in one group if and only if their operations are connected, every relationship is in one group, and groups keep input order |
| CycleFindings.Findings | backend/src/dependencies/buildDependencyGraph.ts:93-146 | one finding per group, in the order of the joined relationship ids |
| CycleFindings.FindingIsComplete | backend/src/dependencies/buildDependencyGraph.ts:128-143 | a finding lists the ids of all its relationships and exactly the operations they touch, each once, in key order |
| CycleFindings.FindingsAreInOrder | backend/src/dependencies/buildDependencyGraph.ts:145 | no finding comes before one whose comma-joined relationship ids compare below its own |
| WorkflowBuilding.FreeName | backend/src/dependencies/assembleWorkflows.ts:53-60 | the name loop stops for every base and every set of used names, at the first name in the order base, base2, base3 that is free |
| WorkflowBuilding.LastSegmentIsLast | backend/src/dependencies/assembleWorkflows.ts:53 | the base name is what follows the last dot of the field, or the whole field without one |
| WorkflowBuilding.FirstFreeReads | backend/src/dependencies/assembleWorkflows.ts:54-59 | a free base is the name itself; a base in use is followed by the least number from two on that makes a free name |
| WorkflowBuilding.DecimalIsDecimal | backend/src/dependencies/assembleWorkflows.ts:57 | numbers are written in decimal digits without a leading zero |
| WorkflowBuilding.BuildWorkflowFromPath | backend/src/dependencies/assembleWorkflows.ts:39-80 | the workflow of a path: its operations in order, one variable per hand-off, each pushed onto the producing and the consuming step |
| WorkflowBuilding.StepsRead | backend/src/dependencies/assembleWorkflows.ts:40-49 | the first step is the operation the path starts from, and each later step is the operation its hand-off leads to |
| WorkflowBuilding.VariableNamesDiffer | backend/src/dependencies/assembleWorkflows.ts:51-60 | no two variables of a workflow share a name, and every name begins with the consuming field's last segment |
| WorkflowBuilding.VariablesFlowForward | backend/src/dependencies/assembleWorkflows.ts:62-76 | a name produced at step i is consumed at step i+1 and at no other step |
| Workflows.SuffixesExact | backend/src/dependencies/assembleWorkflows.ts:111-134 | what the depth-first search emits below an operation are exactly the maximal trails from it: bounded, entering no operation twice, impossible to continue or at full length |
| Workflows.SuffixesDistinct | backend/src/dependencies/assembleWorkflows.ts:111-134 | the search emits no path twice |
| WorkflowOrder.SuffixesInOrder | backend/src/dependencies/assembleWorkflows.ts:33-37 | where two paths below an operation part, the one found first takes the edge whose consumer's method, path, location and field come first |
| Workflows.OversizedExact | backend/src/dependencies/assembleWorkflows.ts:120-130 | the search gives up at a relationship exactly when that relationship continues a trail of full length to an unvisited operation |
| Workflows.WorkflowSearch.Visit | backend/src/dependencies/assembleWorkflows.ts:111-134 | one visit appends to the shared arrays exactly the workflows and oversized ids below its operation, in the order of the sort keys |
| WorkflowEnumeration.Roots | backend/src/dependencies/assembleWorkflows.ts:92-107 | the roots are the operations that consume from no relationship, each once, in code-unit order |
| WorkflowEnumeration.EnumerateWorkflows | backend/src/dependencies/assembleWorkflows.ts:88-141 | the workflows are exactly the root-started maximal trails, each once when the relationships are distinct, roots in code-unit order and the paths of one root in the order of the edges where they part; the oversized ids are exactly the relationships crossing the bound |
| WorkflowEnumeration.WorkflowPathsOfAcyclic | backend/src/dependencies/assembleWorkflows.ts:82-87 | on acyclic relationships these are exactly the root-started paths that end at a sink or have exactly maxSteps operations |
| WorkflowEnumeration.ReportedExactly | backend/src/dependencies/assembleWorkflows.ts:107-140 | a relationship is in a workflow or in the oversized list if and only if its producer is reachable from a root within the step bound |
| WorkflowAssembly.AssembleWorkflows | backend/src/dependencies/assembleWorkflows.ts:156-183 | the stages composed: workflows, candidates with their reasons in order, and the described cycle finding of every component of the cut relationships, sorted by joined ids |
| WorkflowAssembly.SetAside | backend/src/dependencies/assembleWorkflows.ts:157-180 | exactly the relationships of confidence POSSIBLE are set aside before disambiguation, and a candidate names its relationship and the reason it was given |
| WorkflowAssembly.EveryRelationshipIsPlaced | backend/src/dependencies/assembleWorkflows.ts:157-162 | every relationship is in exactly one of: possible, excluded, cut out with a cycle, enumerated |
| WorkflowAssembly.EnumeratedIsReportedExactly | backend/src/dependencies/assembleWorkflows.ts:160-180 | an enumerated relationship is reported if and only if its producer lies within the step bound of a root |
| WorkflowAssembly.LongChainDropsItsEnd | backend/src/dependencies/assembleWorkflows.ts:150-155 | the comment's promise that nothing is silently dropped fails: the last of eleven confirmed hand-offs in a chain is in no workflow, no finding and no candidate list |
| MergeRelationships.PreferredIsOrder | backend/src/dependencies/mergeRelationships.ts:35-47 | comparing candidates by confidence, evidence and producer is a total preorder |
| MergeRelationships.PreferredMeans | backend/src/dependencies/mergeRelationships.ts:15-47 | the comparison of two candidates is at most zero if and only if the first is more confident, or as confident with more true evidence flags, or equal in both with its producer's path, method and field first |
| MergeRelationships.FieldKeyIdentifies | backend/src/dependencies/mergeRelationships.ts:10-13 | candidates compete if and only if they supply the same field at the same place of the same operation |
| MergeRelationships.ResolveProducerDisambiguation | backend/src/dependencies/mergeRelationships.ts:55-78 | keeps the head and excludes the tail of every consuming field's sorted candidates, fields in first-seen order |
| MergeRelationships.OneKeptPerField | backend/src/dependencies/mergeRelationships.ts:59-77 | exactly one relationship is kept for every consuming field that has a candidate |
| MergeRelationships.KeptIsBest | backend/src/dependencies/mergeRelationships.ts:69-76 | of all candidates for its field the kept one is the most confident, CONFIRMED before LIKELY before POSSIBLE, then has the most true evidence flags, then the first producer path, method and field |
| MergeRelationships.DisambiguationPartitions | backend/src/dependencies/mergeRelationships.ts:66-77 | kept and excluded relationships partition the input |
| MergeRelationships.ChoiceIgnoresInputOrder | backend/src/dependencies/mergeRelationships.ts:49-54 | for every consuming field the kept producer field, confidence and number of evidence signals do not depend on the order of the input |
| MergeRelationships.KeptIgnoreInputOrderIff | backend/src/dependencies/mergeRelationships.ts:49-78 | the kept relationships themselves are the same for every arrangement of the input if and only if no two distinct candidates for one consuming field are both best |
| MergeRelationships.MergeInputHints | backend/src/dependencies/mergeRelationships.ts:131-156 | the index map finds for every hint the entry of its field pair, so the loop equals adding the hints one at a time |
| MergeRelationships.HintsGiveBest | backend/src/dependencies/mergeRelationships.ts:124-155 | a field pair ends up CONFIRMED exactly when the analysis or some hint says so, LIKELY exactly when none says CONFIRMED and one says LIKELY, and POSSIBLE otherwise |
| MergeRelationships.HintEntryExact | backend/src/dependencies/mergeRelationships.ts:105-155 | a pair that was there keeps all but its confidence and carries the last hint about it; a new pair is as the first hint about it says, with the last hint as evidence |
| MergeRelationships.PairKeyIdentifies | backend/src/dependencies/mergeRelationships.ts:193-204 | two relationships merge if and only if they join the same producer field to the same consuming field and place |
| MergeRelationships.MergeDeterministicAndAI | backend/src/dependencies/mergeRelationships.ts:213-238 | the index map finds for every AI relationship the entry of its field pair |
| MergeRelationships.AIEntryExact | backend/src/dependencies/mergeRelationships.ts:206-238 | a pair that only AI reports is kept as reported, a pair that was there keeps everything and carries the last AI corroboration, and every other pair is untouched |
| MergeRelationships.AIOnlyIsCapped | backend/src/dependencies/mergeRelationships.ts:158-191 | an AI-only candidate becomes LIKELY exactly from a confidence of 0.85 on, POSSIBLE below it and CONFIRMED never, with its corroboration recorded |
| MergeRelationships.DeterministicKeepsItsPlace | backend/src/dependencies/mergeRelationships.ts:131-156 | through hint and AI merging every deterministic relationship keeps its position, ends and evidence; a CONFIRMED one stays CONFIRMED and a LIKELY one never becomes POSSIBLE |
| MergeRelationships.AIKeepsClassification | backend/src/dependencies/mergeRelationships.ts:206-235 | merging AI relationships changes no confidence that was there before |
| MergeRelationships.ConfirmedNeedsGrounds | backend/src/dependencies/mergeRelationships.ts:80-89 | a CONFIRMED result has confirmed deterministic evidence or a verified declared hint for its field pair, never AI output or observed reuse alone |
| CollectionTree.FolderPathExact | backend/src/externalCollections/collectionStructure.ts:154-166 | with unique ids the search for a folder finds the one chain of folders that leads to it |
| CollectionTree.ContainerHolds | backend/src/externalCollections/collectionStructure.ts:31-43 | the container found for an id directly holds a member with that id |
| CollectionTree.ChainsPart | backend/src/externalCollections/collectionStructure.ts:233-234 | the chains to two containers share their first folders and no id after that |
| CollectionTree.EditListing | backend/src/externalCollections/collectionStructure.ts:279-288 | editing one container changes what requests are sent with by exactly what changes inside that container |
| CollectionTree.RemoveListing | backend/src/externalCollections/collectionStructure.ts:279 | removing a member takes away exactly its own requests and folders, with the auth and scripts in force there |
| CollectionTree.InsertListing | backend/src/externalCollections/collectionStructure.ts:280-288 | inserting a member adds exactly its own requests and folders, with the auth and scripts in force at the target |
| CopiedScripts.MarkerIsOneLine | backend/src/externalCollections/collectionStructure.ts:193-196 | the marker is one JavaScript line, which ends at LF, CR, U+2028 and U+2029, if and only if the folder's name holds neither U+2028 nor U+2029 and its id holds none of the four |
| CopiedScripts.CopyRunsTheSame | backend/src/externalCollections/collectionStructure.ts:193-196 | what runs of a copied script is exactly the script, with its line breaks written as LF, if and only if the marker of its folder is one line |
| CopiedScripts.SeparatorInNameBreaksCopy | backend/src/externalCollections/collectionStructure.ts:195 | a folder name with U+2028: quoting leaves it, and the rest of the marker becomes code |
| CopiedScripts.LineFeedInIdBreaksCopy | backend/src/externalCollections/collectionStructure.ts:195 | a folder id with a line feed: nothing quotes it, and the rest of the marker becomes code |
| CopiedScripts.CopyIsNotBlank | backend/src/externalCollections/collectionStructure.ts:257-262 | a copied script is never blank |
| CopiedScripts.MarkerReads | backend/src/externalCollections/collectionStructure.ts:193-196 | the marker gives the quoted name and the id of the folder the script came from |
| CollectionStructure.FindInheritedAuth | backend/src/externalCollections/collectionStructure.ts:182-189 | the reverse walk answers the auth of the innermost folder with a usable one, then the collection's, with its source |
| CollectionStructure.InheritedFrom | backend/src/externalCollections/collectionStructure.ts:178-189 | inherited is the valid auth of the innermost folder that sets one, else the collection's valid auth, and nothing exactly when none of them sets one |
| CollectionStructure.InheritedIsInForce | backend/src/externalCollections/collectionStructure.ts:178-189 | the reverse walk over parents finds what top-down inheritance gives |
| CollectionStructure.SameSourceSameAuth | backend/src/externalCollections/collectionStructure.ts:238-240 | two chains with the same auth source inherit the same auth |
| CollectionStructure.AuthInForceIsKept | backend/src/externalCollections/collectionStructure.ts:236-249 | the auth in force inside the moved member is the same before and after, noauth counting as none |
| CollectionStructure.CopyScripts | backend/src/externalCollections/collectionStructure.ts:251-267 | the loops copy every script of the left folders that is not blank, outermost folder first, and report the kinds copied per folder |
| CollectionStructure.LeftFoldersAreTheRest | backend/src/externalCollections/collectionStructure.ts:233-234 | the folders left are exactly those of the current chain after the part shared with the target's chain |
| CollectionStructure.CopiesMatchScripts | backend/src/externalCollections/collectionStructure.ts:251-266 | copies stand for the left folders' scripts one for one in order, and all of them run what they copy if and only if every left folder with scripts has a name and an id that keep its marker on one line |
| CollectionStructure.Carry | backend/src/externalCollections/collectionStructure.ts:234-275 | what moveItem writes onto the member and what it reports |
| CollectionStructure.AfterLastFolder | backend/src/externalCollections/collectionStructure.ts:276-288 | the position right after the last folder: a folder stands before it and only requests after it |
| CollectionStructure.RefusalTests | backend/src/externalCollections/collectionStructure.ts:228-231 | the identity and ancestry tests of the code refuse exactly a member already in the target or a target inside the member |
| CollectionStructure.Collection.MoveItem | backend/src/externalCollections/collectionStructure.ts:219-291 | fails exactly on an unknown item, an unknown target, the same container or a move into itself, changing nothing; otherwise relocates exactly that member, carrying auth and scripts: a request lands behind all members of the target, a folder behind its folders and before the requests after them |
| CollectionStructure.MovedLandsLast | backend/src/externalCollections/collectionStructure.ts:276-288 | the target's members after the move are those it had without the moved one, in their order, with the moved one last of its kind |
| CollectionStructure.ReportTells | backend/src/externalCollections/collectionStructure.ts:236-275 | the report names the auth written onto the member and the folder it came from, nothing when none was, and exactly the left folders with scripts, in order, with their kinds |
| CollectionStructure.RestIsUntouched | backend/src/externalCollections/collectionStructure.ts:276-288 | taken out again, the moved member leaves the tree as it was without it: siblings keep their order and every id is still there once |
| CollectionStructure.MoveKeepsMeaning | backend/src/externalCollections/collectionStructure.ts:206-218 | every request outside is sent as before; every moved request keeps its effective auth and the scripts it ran, left folders' scripts replaced in order by their copies, and gains only scripts of target folders that are new to it; the copies run what they replace exactly when the left folders with scripts have clean names and ids |
| CollectionStructure.Collection.DeleteItem | backend/src/externalCollections/collectionStructure.ts:107-111 | an unknown id changes nothing; otherwise exactly that member leaves the tree |
| CollectionStructure.Collection.ReorderContainer | backend/src/externalCollections/collectionStructure.ts:132-151 | succeeds exactly for a rearrangement of the container's ids, and then its members are the same members in that order |
| CollectionStructure.ExactPermutationIff | backend/src/externalCollections/collectionStructure.ts:136-143 | the three set tests hold if and only if the given ids are a rearrangement of the container's ids |
| CollectionStructure.ReorderListing | backend/src/externalCollections/collectionStructure.ts:145-150 | reordering changes what no request is sent with |
| JsonText.QuotePrefixFree | backend/src/apiCoverage/specRevision.ts:7-13 | quoted strings can be told apart from what follows them, whatever they hold |
| JsonText.QuoteReadsBack | backend/src/apiCoverage/specRevision.ts:7-13 | a quoted string decoded by the rules of section 7 of RFC 8259 is the string again, wherever it stands |
| JsonText.QuoteIsOneLine | backend/src/externalCollections/collectionStructure.ts:195 | a quoted text is one JavaScript line if and only if it holds neither U+2028 nor U+2029 |
| StableJson.SameValueSameText | backend/src/apiCoverage/specRevision.ts:5-14 | values equal up to key order and undefined members have the same text |
| StableJson.TextSplits | backend/src/apiCoverage/specRevision.ts:5-14 | texts of two values inside larger texts determine the values and what follows |
| StableJson.CanonicalAndInjective | backend/src/apiCoverage/specRevision.ts:5-14 | two values have the same text if and only if they are equal up to key order and undefined members |
| StableJson.TextShape | backend/src/apiCoverage/specRevision.ts:5-14 | the text of a value: the literals, the number token, a quoted string, the elements in order, and the defined members with ascending keys, without white space |
| JsonGrammar.CanonicalTextIsJson | backend/src/apiCoverage/specRevision.ts:5-14 | the canonical text of every value is a text of the JSON grammar |
| JsonGrammar.CanonicalObjectIsExtracted | backend/src/ai/jsonResponseParsing.ts:27-62 | a canonical object inside any text is extracted whole by the object scanner, and first when no brace comes before it |
| StableJson.RevisionIgnoresOperationOrder | backend/src/apiCoverage/specRevision.ts:31-43 | the text that is hashed is the same for any arrangement of operations that differ in method or path |
| StableJson.RevisionTextIdentifiesContract | backend/src/apiCoverage/specRevision.ts:31-43 | the text that is hashed is the same if and only if the sorted operations agree one by one in method, path, parameters, request body, security and the list of responses with their status codes and content types, and the security schemes are the same value |
| Ordering.CodeUnitLeComparesUnits | backend/src/apiCoverage/specRevision.ts:10-12 | the order of keys, which `sort` without a comparator gives, compares UTF-16 code units one by one, surrogates included |
| JsonScan.ScanJsonDepth | backend/src/apiInput/jsonSafe.ts:16-40 | on any text: exceeded exactly when an opening outside strings passes max; on a printed JSON document: exceeded exactly when its container depth passes max, and otherwise that depth is reported |
| JsonScan.DeepestTellsOpenings | backend/src/apiInput/jsonSafe.ts:30-33 | the deepest depth recorded passes max if and only if some opening does |
| JsonScan.RunPrint | backend/src/apiInput/jsonSafe.ts:22-38 | scanning any grammatical value, strings full of braces and escapes included, ends where it began and records exactly its nesting |
| JsonScan.DocumentDepth | backend/src/apiInput/jsonSafe.ts:16-40 | the depth recorded over a whole document is the nesting of its value |
| JsonScan.BalancedObjectAt | backend/src/ai/jsonResponseParsing.ts:27-48 | the text up to the first closing brace that brings the depth to zero; for a printed object at any position of any text, exactly that object |
| JsonScan.EmbeddedObjectIsFound | backend/src/ai/jsonResponseParsing.ts:27-48 | the balanced object starting where a grammatical object starts is exactly that object's text |
| JsonScan.ExtractJsonObjects | backend/src/ai/jsonResponseParsing.ts:51-62 | a balanced object for every opening brace that has one, in the order of their positions |
| JsonScan.ExtractedFrom | backend/src/ai/jsonResponseParsing.ts:51-62 | every extracted text is the balanced object of some opening brace, and every such object is extracted |
| JsonScan.EmbeddedObjectIsExtracted | backend/src/ai/jsonResponseParsing.ts:51-62 | an object inside any text is extracted, and comes first when no brace precedes it |
| ExecutionOrder.ExecutionOrder | backend/src/execution/runExecution.ts:42-60 | the grouping map and the sorts give the workflows in id order, each by step, then the standalone items |
| ExecutionOrder.OrderPermutes | backend/src/execution/runExecution.ts:42-60 | the execution order holds exactly the items given |
| ExecutionOrder.RunsInTurn | backend/src/execution/runExecution.ts:42-60 | workflow items come first, by workflow id and within a workflow by step position; standalone items follow in their own order |
| ExecutionOrder.SameStepKeepsOrder | backend/src/execution/runExecution.ts:53-58 | items of one workflow with the same step position run in the order they were listed in |
| RunExecution.AppendNotAttempted | backend/src/execution/runExecution.ts:100-111 | appends one not-attempted result for every scenario-backed item, in order |
| RunExecution.TakeTurn | backend/src/execution/runExecution.ts:178-240 | one turn: skip, withhold naming the unmet producers, send, or throw, with its effect on results, environment and blocked ids |
| RunExecution.RunExecution | backend/src/execution/runExecution.ts:125-252 | on every path the run settles, and once the collection is generated the results are exactly one per scenario-backed item in execution order; cancelled only when a cancellation was seen |
| RunExecution.OneResultEach | backend/src/execution/runExecution.ts:161-251 | the recorded scenario ids are those of the scenario-backed items, whether the run completes, is cancelled or throws |
| RunExecution.WithheldIffChain | backend/src/execution/runExecution.ts:208-223 | an item is withheld if and only if a chain of data dependencies, each to an earlier item, ends at an item that was sent and failed with a category other than assertion-failed |
| RunExecution.FailureWithholds | backend/src/execution/runExecution.ts:84-92 | after a failure of any category but assertion-failed every later item that depends on the failed one is withheld |
| RunExecution.DeliveredIsNotWithheld | backend/src/execution/runExecution.ts:84-92 | an item whose dependencies passed or failed only assertion-failed, as far as they ran before it, is not withheld |
| RunExecution.WithheldNamesProducers | backend/src/execution/runExecution.ts:208-218 | a withheld item names exactly those of its dependencies that were withheld or failed before it, in order |
| RunExecution.RunsInItsTurn | backend/src/execution/runExecution.ts:178-240 | every item that is not withheld is run once, in its turn, on the variables the last item that ran left behind, and ends as the runner answers |
| RunExecution.RecordedTells | backend/src/execution/runExecution.ts:161-251 | every scenario-backed item has its result at its place, and the result tells whether it was sent and how it ended, withheld, cancelled or not reached |
| UploadedExecution.UploadedRun.Run | backend/src/externalCollections/runUploadedCollectionExecution.ts:86-183 | on every path the run settles with exactly one result per request in the run's order, each sent request seeing the variables the one before left; no cancellation was seen at any turn before the one that ended the run |
| UploadedExecution.OneResultPerRequest | backend/src/externalCollections/runUploadedCollectionExecution.ts:115-179 | one result per request in order, and nothing is attempted after the first request that was not |
| UploadedExecution.ResultTells | backend/src/externalCollections/runUploadedCollectionExecution.ts:60-74 | each result carries its request's id, name and method, with the runner's outcome for a request that was sent and the one reason for every other |
| UploadedExecution.TurnsAreSent | backend/src/externalCollections/runUploadedCollectionExecution.ts:130-144 | each request is sent once, in its turn, on the variables the request before it left behind |
| UploadedExecution.RunOrderPicks | backend/src/externalCollections/runUploadedCollectionExecution.ts:97-102 | a selective run holds, for every chosen id that is known, the last request with that id, in the chosen order |
| RequestQueue.InferenceQueue.EnqueueTask | backend/src/ai/requestQueue.ts:10-22 | a new task queues behind all others, has not started, and leaves the queue in order with at most one computation |
| RequestQueue.InferenceQueue.OnTailSettled | backend/src/ai/requestQueue.ts:11-14 | when the tail settles every task ahead has settled, and everything that still computes is among what the task now waits for |
| RequestQueue.InferenceQueue.OnHeldSettled | backend/src/ai/requestQueue.ts:14 | a task starts in its turn, and nothing computes when it does |
| RequestQueue.InferenceQueue.CallGenerate | backend/src/ai/localProvider.ts:559-567 | a task's call of generate finds nothing computing, and its computation is then the only one |
| RequestQueue.InferenceQueue.OnGenerationSettled | backend/src/ai/requestQueue.ts:30-36 | after a computation settles, waited for or given up, nothing computes |
| RequestQueue.InferenceQueue.HoldUntilSettled | backend/src/ai/requestQueue.ts:24-36 | once registered, work that goes on keeps every task from starting |
| RequestQueue.NothingStartsBeforeHeldWorkSettles | backend/src/ai/requestQueue.ts:24-36 | however a run goes on, no task starts before the held work settles |
| RequestQueue.InferenceQueue.AbandonGeneration | backend/src/ai/localProvider.ts:600-605 | after the timeout branch the task has settled, and as long as its abandoned computation goes on no task can start |
| RequestQueue.StepKeeps | backend/src/ai/requestQueue.ts:10-36 | every event of the queue and of its tasks keeps the invariant |
| RequestQueue.FirstInFirstOutOneAtATime | backend/src/ai/requestQueue.ts:1-36 | in every interleaving tasks start in the order they were enqueued and at most one computation is unsettled, timeouts included |
| RequestQueue.NothingElseComputes | backend/src/ai/localProvider.ts:559-567 | a task calls generate only when no other computation is unsettled |
| RequestQueue.NeverStuck | backend/src/ai/requestQueue.ts:10-22 | while a task has not settled, some event other than a new task is possible |
| RequestQueue.AnythingMayHappen | backend/src/ai/localProvider.ts:559-605 | a started task finds nothing computing and may call generate or fail; a waiting task may time out however soon; what computes is that task's own and may settle at any time |
| RequestQueue.RunsAreBounded | backend/src/ai/requestQueue.ts:10-36 | without new tasks the number of events is bounded, so the queue drains |
| RequestBatching.CountsAddUp | backend/src/ai/requestBatching.ts:65-95 | success, failure and not-attempted counts are the numbers of batches of each status and add up; success means all succeeded, partial some but not all |
| RequestBatching.FailureClasses | backend/src/ai/requestBatching.ts:96-118 | timeout means that something failed and every failure was TIMEOUT, unavailable the same for the unavailable categories, batches not attempted not counting |
| RequestBatching.ReportsLastFailure | backend/src/ai/requestBatching.ts:75 | a run reports the category of its last failed batch, or none when nothing failed |
| RequestBatching.AggregateIgnoresOrder | backend/src/ai/requestBatching.ts:65-127 | the class and the counts do not depend on the order of the batches |
| RequestBatching.SplitKeepsEverything | backend/src/ai/requestBatching.ts:135-153 | halving terminates for any prompt length; the batches in order are the operations, and each fits the budget or holds one operation |
| RequestBatching.WholeIffFits | backend/src/ai/requestBatching.ts:140-146 | operations are left in one batch if and only if they fit the budget, no budget is set, or there is only one operation |
| RequestBatching.WorkBound | backend/src/ai/requestBatching.ts:189-194 | the bound is the floor of a finite number of at least one, and missing otherwise |
| RequestBatching.ChunksExact | backend/src/ai/requestBatching.ts:200-201 | the chunks in order are the operations, and every chunk but the last has exactly as many as the bound |
| RequestBatching.SplitOperationsIntoBatches | backend/src/ai/requestBatching.ts:181-211 | the batches are those of the chunks in order: together the operations, none empty or over the work bound, none crossing a chunk, each fitting the budget or holding one operation |
| BatchedInference.RunBatch | backend/src/ai/requestBatching.ts:314-367 | one batch: skipped, or called at most once more than the retry limit with a retry only while no stop condition holds |
| BatchedInference.RetryLimit | backend/src/ai/requestBatching.ts:337-342 | the retry limit is the floor of a positive finite option and 0 for any other |
| BatchedInference.RunBatchedInference | backend/src/ai/requestBatching.ts:282-372 | one run per batch in order with its outcome and data, the hook events in order, and the aggregate of the outcomes |
| BatchedInference.AttemptedThenNot | backend/src/ai/requestBatching.ts:313-330 | with stop conditions that hold for good, after the first batch not attempted no batch is called any more |
| BatchedInference.NoCallAfterStop | backend/src/ai/requestBatching.ts:314-319 | a batch looked at after a stop condition held is not called |
| BatchedInference.CallsNeverOverlap | backend/src/ai/requestBatching.ts:213-223 | with stop conditions that hold for good and waits given up only when stopped, every call of the run comes after the end of every earlier call; a call whose wait is given up may go on running, and nothing is called after it |
| BatchedInference.GivingUpEarlyOverlaps | backend/src/ai/requestBatching.ts:216-223 | if a wait were given up without a stop condition, the next batch would be called while the call goes on |
| BatchedInference.CallsAreLimited | backend/src/ai/requestBatching.ts:337-352 | the calls of a batch are its attempts in order, at most one more than the retry limit, none once a stop condition holds |
| BatchedInference.SettledOncePerIndex | backend/src/ai/requestBatching.ts:276-281 | onBatchSettled fires exactly once per index, in order, with the batch's outcome |
| CoverageClassification.VerifiesOnlyByChecks | backend/src/apiCoverage/classify.ts:42-64 | a result verifies a requirement if and only if it is current and unedited, got a response, and has relevant checks that were all evaluated and passed |
| CoverageClassification.FailsOnlyByChecks | backend/src/apiCoverage/classify.ts:42-64 | a result fails a requirement if and only if a relevant check failed, or it failed as a whole where every check counts and none was left unevaluated |
| CoverageClassification.ScopesRead | backend/src/apiCoverage/classify.ts:32-40 | which checks count: all, the schema checks, the status checks, or the status checks that expect the requirement's code |
| CoverageClassification.CausesAre | backend/src/apiCoverage/classify.ts:48-64 | a verdict's cause: none when verified or stale, assertion-failed when failed, else the edited request, the missing response, no relevant check or an unevaluated one, in that order |
| CoverageClassification.ClassifyRequirement | backend/src/apiCoverage/classify.ts:86-163 | the branches on the verdicts answer the join of what the mapped scenarios establish, with tally, cause, first references and the first stale reason and date |
| CoverageClassification.StateByVerdicts | backend/src/apiCoverage/classify.ts:137-157 | the order of the tests on the set of verdicts is the join over the states |
| CoverageClassification.JoinIsGreatest | backend/src/apiCoverage/classify.ts:80-85 | the join is the highest of the contributed states |
| CoverageClassification.NeverLoweredByAScenario | backend/src/apiCoverage/classify.ts:80-85 | mapping one more scenario never lowers a requirement's state |
| CoverageClassification.ClassificationIgnoresOrder | backend/src/apiCoverage/classify.ts:86-163 | apart from the stale reason and date, the classification is independent of the order of scenarios with distinct ids |
| CoverageClassification.SameInAnyOrderIff | backend/src/apiCoverage/classify.ts:86-163 | the whole classification is the same for every order if and only if the state is not stale or all stale evidence gives the same reason and date |
| CoverageClassification.StaleReasonFollowsOrder | backend/src/apiCoverage/classify.ts:107-110 | two scenarios with stale evidence of different reasons: the order decides which reason is given |
| CoverageClassification.TallySums | backend/src/apiCoverage/classify.ts:16-17 | the tally counts sum to the number of mapped scenarios |
| CoverageClassification.TallyCounts | backend/src/apiCoverage/classify.ts:99-108 | passed, failed, inconclusive and not executed are the numbers of mapped scenarios by verdict, stale ones counting as inconclusive |
| CoverageClassification.RefsExact | backend/src/apiCoverage/classify.ts:113-123 | one reference for every mapped scenario with evidence, in order, with its run, scenario, time, verdict and cause |
| CoverageClassification.EvidenceShown | backend/src/apiCoverage/classify.ts:135-136 | the first three references are shown, failed before verified before inconclusive before stale, then by scenario id |
| CoverageClassification.MostSpecificCause | backend/src/apiCoverage/classify.ts:126 | of the reasons why mapped scenarios did not run the most specific one is given: blocked, cancelled, not reached, not in the selected run, never run |
| CoverageEvidence.CollectCandidates | backend/src/apiCoverage/evidence.ts:154-212 | every attributable result of the selected runs becomes a candidate; unattributed results and infrastructure failures are counted; the latest recorded reason per scenario not attempted is kept, and the scenarios that ran in another run than the selected one are known |
| CoverageEvidence.CandidatesExact | backend/src/apiCoverage/evidence.ts:171-192 | the candidates are exactly what the attempted results of the runs looked at say about current scenarios, each with its run and environment |
| CoverageEvidence.NotesExact | backend/src/apiCoverage/evidence.ts:165-169 | the reasons noted are exactly those the results not attempted give, a missing one counting as not reached |
| CoverageEvidence.CountsExact | backend/src/apiCoverage/evidence.ts:180-185 | unattributed results are the attempted ones without a scenario that are no token requests, infrastructure failures the failed token requests |
| CoverageEvidence.MissingCauseIsExact | backend/src/apiCoverage/evidence.ts:271-275 | the cause given for a scenario is that of a run in which it was not attempted and than which no other such run started later in code-unit order; without one it is not-in-selected-run if and only if a run is selected and another one has a result of it |
| CoverageEvidence.NewestIsGreatest | backend/src/apiCoverage/evidence.ts:219-220 | the newest candidate started no earlier in code-unit order than any other, and at equal times its run id is not below the other's |
| CoverageEvidence.ChooseLatest | backend/src/apiCoverage/evidence.ts:232-240 | the map holds for every scenario the first of its latest candidates |
| CoverageEvidence.ChosenIsGreatest | backend/src/apiCoverage/evidence.ts:231-240 | every scenario with a usable result has a chosen one, which started no earlier than any other of its results, and at equal times has no smaller run id |
| CoverageEvidence.OneEnvironment | backend/src/apiCoverage/evidence.ts:216-229 | in latest-per-scenario mode every chosen result is from the newest result's environment and none from an excluded run |
| CoverageEvidence.UsableExact | backend/src/apiCoverage/evidence.ts:216-229 | latest-per-scenario uses all results of the newest result's environment and excludes exactly the runs of the others; a selected run uses everything |
| CoverageEvidence.ChoiceIgnoresOrder | backend/src/apiCoverage/evidence.ts:216-240 | which result is chosen does not depend on the order of runs when start time and run id tell a scenario's results apart |
| CoverageEvidence.CountPerRun | backend/src/apiCoverage/evidence.ts:242-249 | the counts per run are the numbers of chosen results of each run |
| CoverageEvidence.CountsSum | backend/src/apiCoverage/evidence.ts:242-250 | in whatever order runs are listed, their counts sum to the scenarios with evidence |
| CoverageGaps.DraftGaps | backend/src/apiCoverage/summarize.ts:221-267 | the grouping map gives the gaps in first-seen order with their members and totals |
| CoverageGaps.GapsPartition | backend/src/apiCoverage/summarize.ts:216-267 | the gaps of an operation partition its unverified requirements |
| CoverageGaps.GapsAreUniform | backend/src/apiCoverage/summarize.ts:216-220 | all members of a gap share one state, which is the state the gap is given |
| CoverageGaps.GapMembership | backend/src/apiCoverage/summarize.ts:221-267 | a requirement is in a gap of its operation if and only if it is not verified |
| CoverageGaps.GapsHold | backend/src/apiCoverage/summarize.ts:216-266 | a gap of mixed kinds holds exactly the requirements of one state and cause, a gap of one kind exactly what is not covered of the kind, out of all requirements of the kind |
| CoverageGaps.OneGapWithoutScenarios | backend/src/apiCoverage/summarize.ts:224-235 | an operation without scenarios has one gap of everything not verified, out of all its requirements |
| CoverageGaps.GravestState | backend/src/apiCoverage/summarize.ts:52-59 | the state of a gap is the gravest among its members: failed, not covered, stale, inconclusive, not executed, verified |
| CoverageFilter.BuildGaps | backend/src/apiCoverage/summarize.ts:344-379 | the gaps of every operation, sorted |
| CoverageMeaning.GapTells | backend/src/apiCoverage/summarize.ts:361-373 | a gap lists its requirement ids in order and exactly the categories among its members, and is scored by its operation, kind and state |
| CoverageFilter.RecomputeRow | backend/src/apiCoverage/summarize.ts:105-135 | the counting loops give the figures of the requirements and scenarios in scope |
| CoverageFilter.FiguresAddUp | backend/src/apiCoverage/summarize.ts:105-135 | verified is at most covered is at most total, the state counts sum to the requirements and the verdict counts to the scenarios |
| CoverageFilter.FilterSnapshot | backend/src/apiCoverage/filterSnapshot.ts:72-137 | the rows that pass, recomputed and sorted, with their requirements, scenarios, gaps, category figures, unclassified list, operation counts, assertion outcomes and metrics |
| CoverageMeaning.ViewHasRow | backend/src/apiCoverage/filterSnapshot.ts:84-97 | an operation has a row in the view if and only if it passes the method, path and priority filters and has a requirement in the category and one in the states and gap kind asked for |
| CoverageMeaning.ViewRowIs | backend/src/apiCoverage/filterSnapshot.ts:95-96 | a row of the view is the snapshot's row with recomputed figures, and with the number of matching requirements when states are asked for |
| CoverageMeaning.ViewListsRequirements | backend/src/apiCoverage/filterSnapshot.ts:88-118 | a requirement is listed if and only if its operation has a row and it is in the category asked for |
| CoverageMeaning.ViewListsScenarios | backend/src/apiCoverage/filterSnapshot.ts:92-119 | a scenario is listed if and only if its operation has a row and it is in the category asked for |
| CoverageMeaning.ViewKeepsGaps | backend/src/apiCoverage/filterSnapshot.ts:109-117 | the gaps kept are exactly those of the view's operations in the states, the category and the priorities asked for, in order |
| CoverageMeaning.FiguresCount | backend/src/apiCoverage/summarize.ts:105-135 | each figure of a row counts requirements by state or scenarios by verdict, the fraction leaving the happy path out |
| CoverageMeaning.OperationCountsCount | backend/src/apiCoverage/summarize.ts:138-147 | the operation card counts the rows with scenarios, with a passed one, with a failed one and with none |
| CoverageMeaning.MetricsCount | backend/src/apiCoverage/summarize.ts:160-191 | which requirements, by kind and state, and which rows and assertions each metric counts |
| CoverageMeaning.CategoriesCount | backend/src/apiCoverage/summarize.ts:304-318 | each category counts its own requirements by state |
| CoverageMeaning.UnclassifiedLists | backend/src/apiCoverage/summarize.ts:331-338 | the unclassified list holds exactly the requirements in no category, in order |
| CoverageFilter.MetricsAreFractions | backend/src/apiCoverage/summarize.ts:160-191 | no metric has a numerator above its denominator, so makeMetric never throws |
| CoverageTotals.AssertionCardAgrees | backend/src/apiCoverage/filterSnapshot.ts:122 | under any filter the assertion card holds the assertions of exactly the scenarios listed |
| CoverageTotals.FractionsAgree | backend/src/apiCoverage/filterSnapshot.ts:84-119 | under any filter the fractions of the rows add up to the fraction of the requirements listed |
| CoverageFilter.FamiliesSplitStates | backend/src/apiCoverage/filterSnapshot.ts:22-28 | every state but verified belongs to exactly one gap family, verified to none |
| CoverageFilter.RowWithoutGap | backend/src/apiCoverage/filterSnapshot.ts:84-117 | under a state or gap-kind filter a row survives with none of its gaps exactly when everything that matches in it is verified |
| CoverageFilter.VerifiedRowHasNoGap | backend/src/apiCoverage/filterSnapshot.ts:84-117 | a row with one verified requirement, kept by the filter for verified, without any gap |
| CoverageFilter.RowSurvivesWithItsGaps | backend/src/apiCoverage/filterSnapshot.ts:84-117 | under a filter no verified requirement matches, a row passes if and only if one of its gaps matches |
| CoverageFilter.RowsAndGapsSurviveTogether | backend/src/apiCoverage/filterSnapshot.ts:84-117 | in the filtered snapshot a row is kept if and only if a gap of its operation is kept |
| CoverageRefiltering.RefilteringKeepsRowsAndGaps | backend/src/apiCoverage/filterSnapshot.ts:72-136 | filtering a view again with the same filter keeps its rows, requirements, scenarios, gaps, counts and metrics; the category section and the unclassified list are recomputed from the requirements the view was left with |
| CoverageRefiltering.ViewRequirements | backend/src/apiCoverage/filterSnapshot.ts:118-120 | the requirements of a view are those of its operations in the category |
| CoverageRefiltering.IdempotentIff | backend/src/apiCoverage/filterSnapshot.ts:62-136 | filtering twice equals filtering once if and only if no category is set or every requirement of the kept operations is in that category |
| CoverageRefiltering.CategoryViewLosesUnclassified | backend/src/apiCoverage/filterSnapshot.ts:120-135 | an operation with a positive and an unclassified requirement: its view of the positive category lists the other one as unclassified, filtered again it does not |
| RateEstimator.Estimator.RecordObservedRates | backend/src/ai/localProvider.ts:639-673 | an observation that took positive time blends both rates by 0.7 and 0.3 and keeps them positive; any other changes nothing |
| RateEstimator.ObservedExact | backend/src/ai/localProvider.ts:644-672 | one observation multiplies both rates by 0.7 plus 0.3 times observed over predicted time, tokens being a third of the characters, rounded, and at least one |
| RateEstimator.ObservationKeepsRatio | backend/src/ai/localProvider.ts:649-672 | one observation keeps both rates positive and their ratio unchanged |
| RateEstimator.RatioNeverChanges | backend/src/ai/localProvider.ts:639-673 | over any sequence of observations the rates stay positive and their ratio never changes |
| RateEstimator.PredictionMoves | backend/src/ai/localProvider.ts:659-671 | the prediction for the observed size moves exactly 30 percent of the way to the observed time |
| RateEstimator.ErrorContracts | backend/src/ai/localProvider.ts:60 | after n observations of one size taking one time, the prediction error is exactly 0.7 to the n times the initial error |
| NewmanSandbox.Sandbox.Run | backend/src/execution/newmanSandbox.ts:218-234 | a run gets a new id, is pending, and is sent to the current child, spawned when there is none |
| NewmanSandbox.Sandbox.SettleRun | backend/src/execution/newmanSandbox.ts:269-275 | settles a pending id once and ignores any other |
| NewmanSandbox.Sandbox.DiscardChild | backend/src/execution/newmanSandbox.ts:278-285 | the child is gone and everything pending is rejected, in order |
| NewmanSandbox.StartIssues | backend/src/execution/newmanSandbox.ts:218-246 | a start issues the next id, last in line, to the child there is or to a new one |
| NewmanSandbox.LossRejectsAll | backend/src/execution/newmanSandbox.ts:222-284 | a timeout of one run, a failed start, a disconnect of the current child and closing each reject everything pending in order with their own message; the end of a child already given up changes nothing |
| NewmanSandbox.SendErrorRejectsOne | backend/src/execution/newmanSandbox.ts:228-232 | a run that could not be sent is rejected alone, and the others go on waiting in order |
| NewmanSandbox.StepKeeps | backend/src/execution/newmanSandbox.ts:212-286 | every event keeps each issued id in exactly one of pending and settled, and pending ids with the current child |
| NewmanSandbox.AnythingMayHappen | backend/src/execution/newmanSandbox.ts:218-264 | the events ruled out are few: after any run every id ever sent may be answered or fail to be sent, every id not settled may time out, and every child ever spawned may be lost |
| NewmanSandbox.PendingBelongsToTheChild | backend/src/execution/newmanSandbox.ts:212-286 | in every run pending ids were sent to the current child and no id settles twice |
| NewmanSandbox.LateReplySettlesNothing | backend/src/execution/newmanSandbox.ts:248-253 | a late reply from a child that is no longer current changes nothing |
| NewmanSandbox.ReplyReachesItsRun | backend/src/execution/newmanSandbox.ts:248-253 | a reply settles only the run with its id, with its own outcome |
| NewmanSandbox.CloseSettlesEverything | backend/src/execution/newmanSandbox.ts:236-238 | after closing nothing is pending and every run ever started has settled exactly once |

## Left out

- HTTP routes, stores, SQLite, logging, PDF and HTML rendering, the React front end: input, output and presentation.
- Newman, Transformers.js, `postman-collection` and `acorn`: what they answer is a parameter of the model.
- Hash functions, UUIDs and clocks: the text before hashing is modelled, ids and times are parameters.
- Explanation, reason and message texts of relationships, findings, gaps, evidence and classifications.
- `scenarioMapping.ts`, `elements.ts`, `prioritize.ts`, `redaction.ts`, request-shape guards and limit parsing: rule tables
  that would add only easy members; their results enter as given mappings, requirements and scores.
- `addRequest`, `addFolder`, `renameItem` and `copiedScriptSourceFolderId` of `collectionStructure.ts`.
- `mergeDeterministicAndAI` labels a repeated AI-only pair `deterministic+ai`; nothing is claimed about that label.
- Event subscriptions and unhandled rejections of `raceCancellation`: only who wins the race is modelled, as the answer of a
  wait that may be abandoned.
- MergeRelationships.ChoiceIgnoresInputOrder: asks that distinct strings never compare equal under `localeCompare`, as do the other results that take a locale order.
- JsonText.QuotePrefixFree: characters are Unicode scalar values, so the escapes `JSON.stringify` writes for lone surrogates are not modelled.
- StableJson.CanonicalAndInjective: numbers are represented by the tokens `JSON.stringify` prints for them.
- JsonScan.ScanJsonDepth: a text is a sequence of characters where the code reads UTF-16 code units; the characters it tests are the same in both.
- CollectionStructure.MoveKeepsMeaning: asks for unique ids in the tree, and takes `RequestAuth.isValidType` as a flag of each auth block that holds for `noauth`; an auth block is copied by value.
- CollectionStructure.Collection.MoveItem: the tree is a value held by the collection's `items` field, so SDK instances and parent links are not modelled.
- RunExecution.RunExecution: store operations are taken not to throw, and building the request an item sends is part of the runner's answer.
- UploadedExecution.UploadedRun.Run: an exception anywhere between sending a request and recording its result is one outcome of the runner; the live-state and completion notices are left out.
- RequestQueue.FirstInFirstOutOneAtATime: counts the computations `runInference` starts; the canary generation made while the engine loads is not among them.
- BatchedInference.RunBatchedInference: the three stop conditions are one function of time, the hooks do not throw, and when an abandoned call ends is not modelled.
- CoverageClassification.ClassifyRequirement: a reference keeps its scenario, run, time, verdict and cause; run kind, item id, outcome and note are left out.
- CoverageEvidence.CollectCandidates: results arrive already joined to scenarios, and the environment is its key; the order of run ids, the environments seen and the last execution time are left out.
- CoverageGaps.GapsAreUniform: asks that an operation without counted scenarios has no covered requirement, which holds because scenarios are mapped to requirements of their own operation only.
- CoverageFilter.FilterSnapshot: recommendations are left out; the source computes them from the view's gaps and requirements only. Method and path filters and the row order are parameters; labels, percentages and the constant security category are left out.
- CoverageFilter.BuildGaps: gap ids, reasons, scoring factors and evidence excerpts are left out.
- RateEstimator.ErrorContracts: in exact reals; floating-point rounding is left out.
- NewmanSandbox.LateReplySettlesNothing: a child replies only to ids it was sent.
