# Verified models of Wash

Wash mounts cloud resources as a filesystem and queries them. This project models the parts of it
whose correctness is hard to see from the code, in Dafny 4.11, and proves what they keep. Run
`dafny verify dfyconfig.toml` to check all of it.

The models follow the code branch by branch. Where the code updates fields, maps or buffers in
place, the model is a class whose methods do the same and are proved against functions on values;
the results are then lemmas about those functions. Concurrent code is a state machine over its
atomic steps, and results are stated over every interleaving. Calls out of the modelled code
(the plugin API, regular expressions, clocks, a caller's parser) are parameters.

| files | what they model |
|---|---|
| `PluginRead` | reading a block of an entry whose whole content is cached |
| `FuseFile`, `FuseRefinement` | the write-back buffer behind an open FUSE file, refined to a plain byte array |
| `Graph`, `EntrySchema`, `Pruning`, `Walker`, `WalkMeaning` | the cyclic entry schema: unfolding, which nodes to keep, pruning in place, the walk it guides, and which entries are printed |
| `RqlNodes`, `RqlMarshal`, `RqlMeaning`, `RqlLanguage`, `RqlSchema` | RQL predicates: evaluation, negation normal form, ordered choice and round trip, satisfaction and literal forms, the language of accepted inputs, compilation to schema predicates |
| `MemCache`, `CacheValues`, `CacheDeadlock`, `CacheRuns`, `CacheEviction` | the locking protocol of the cache with calls inside calls, what it finds and stores, its deadlocks and panics, and which item a full cache drops |
| `OutputStream`, `StreamSends` | two output streams and their shared channel |
| `EvalStack`, `FindParser`, `FindGrammar`, `FindMeaning` | the find expression parser: evaluation stack, parser, grammar, and what expressions mean |
| `LinkedMap`, `SchemaGraph`, `SchemaLinks`, `SchemaPartition` | validation, hierarchy and partition of an external plugin's schema graph |
| `StatPaths`, `DirMap`, `StatScan` | the directory map built from stat output: over strings, as the code does, and over the paths they stand for |

## Where the code falls short

These are inputs for which the code does not do what its comments or documentation say. Each has a
lemma at a concrete input or run, and a lemma with the exact condition under which the code is right.

- A FUSE file that is shrunk below its loaded prefix, or opened again after it has grown, makes the
  next Flush panic (`ShrinkThenFlushPanics`, `ReopenThenFlushPanics`). So does one that has grown and
  whose size attribute is below the size of its content: a Flush loads too much, the next one panics
  (`SmallAttributeFlushPanics`), and a plain buffer whose entry gains a size attribute while it is
  written (`AttrThenFlushPanics`). A run is out of reach of the panic at every point exactly when no
  request does any of this (`PanicFreeIff`). A file that is truncated and grown again shows the old
  remote bytes instead of zeros (`ShrinkThenGrowResurrects`); a run hands the plugin the plain file
  throughout exactly when it is guarded (`GuardedRunFaithful`). A read while writing sees only the
  loaded prefix (`LocalReadMissesRemote`, `LocalReadIff`).
- A size attribute smaller than the content makes `plugin.Read` return more than was declared and
  miss the end of the content (`SmallAttributeOverreads`, `ReadExactIff`).
- Decoding an entry schema hands out a copy of the root node, and edges back to the first type lead
  to the original. Pruning sees the two as one path and never filters the original: with types
  `dir: [dir, file]` and a predicate true of directories only, the file is still found
  (`SelfEdgeKeepsUnkept`). What is found after pruning is what was kept exactly when no kept node
  has such an edge or every child of the root is kept (`PrunedReachability`). The lines find prints
  are right all the same, unless the original satisfies a predicate that nothing else does
  (`InnerAlonePrintsNothing`, `AlwaysSameIff`).
- An RQL `all` predicate holds of an empty array, whose schema its compiled schema predicate may
  reject (`AllOfNothingRejected`); it is sound exactly when its operand accepts finitely many
  skeletons (`AllSoundIff`, `SkeletonsDecide`).
- Calls of the cache can deadlock, in two ways. With a limit, a call that misses on a full cache
  keeps its key's lock while it waits for readers to leave, and a reader waits for that key
  (`UpgradeDeadlocks`). When a generateValue calls the cache itself, as listing a container does, the
  inner call waits for a Delete that has announced itself, and that for the outer call
  (`InnerCallMeetsDelete`); or its key has the lock of the outer key, and nobody else is needed
  (`InnerCallSharesLock`). A deadlock is for ever (`DeadlockIsPermanent`), calls that are all stuck
  are in one (`StuckIsDeadlocked`), each has a cause of these two kinds (`DeadlockHasCause`), and there
  is one exactly when there is a limit or a generateValue that calls the cache (`DeadlockIff`).
- A full cache panics when it finds nothing to evict: all items have expired, or another call has
  just evicted the last one (`EvictionPanicIsReachable`, `TwoEvictionsPanic`, `EvictionPanicIff`).
- A full cache drops items that never expire first (`NeverExpiringGoesFirst`, `CandidateIsClosestIff`).
- In find expressions an OR followed by two ANDs is read as if the second AND applied to the whole
  disjunction (`SmallestTriple`, `ResultIsStandardIff`, `MeaningIff`).
- The check for schema types that no entry uses lets a cycle of such types pass
  (`OrphanCycleAccepted`; exactly then, `ReachableIff`), and an entry that is itself a core entry has
  no acceptable schema (`CoreRootRejected`).
- A directory listed after something below it loses entries of the directory map
  (`LateDirectoryLosesFile`, `ConsistentIff`, `ParsedIff`).

## Model

| member | source | states |
|---|---|---|
| PluginRead.Read | plugin/methodWrappers.go:128-167 | the method returns the outcome of capping the block by the size attribute and reading the cached content, with all three error exits |
| PluginRead.FailsIff | plugin/methodWrappers.go:128-167 | a read fails exactly on a negative size or offset, or when the content is needed and cannot be fetched |
| PluginRead.ReadExactIff | plugin/methodWrappers.go:128-167 | every block is exactly the window of the content, with EOF exactly at its end, if and only if the size attribute is absent or no smaller than the content |
| PluginRead.ExactWhenCovered | plugin/entryContent.go:26-40 | a block that the attribute covers is exact |
| PluginRead.SmallAttributeOverreads | plugin/methodWrappers.go:140-166 | a concrete attribute that is too small makes a read hand out bytes past the declared size |
| PluginRead.BlocksReassemble | plugin/methodWrappers.go:128-167 | reading consecutive blocks of any positive size until EOF gives back the content |
| FuseFile.Padded | fuse/file.go:275-290 | a stretch of the remote content padded with zeros has the asked length and, index by index, the remote byte or zero |
| FuseFile.SimpleWrite | fuse/file.go:241-273 | the plain file's write: the bytes land at the offset, a gap becomes zeros, all else stays |
| FuseFile.SimpleResize | fuse/file.go:341-373 | the plain file's truncate: a prefix is kept, growth is zeros |
| FuseFile.File.Attr | fuse/file.go:67-83 | an attribute request refreshes the entry unless a file-like one is being written |
| FuseFile.File.Open | fuse/file.go:126-176 | the new state and reply are those of the Open transition, errors and mode checks included |
| FuseFile.File.Load | fuse/file.go:275-290 | loading is a plugin read of the asked stretch, refused when the entry cannot be read; with a small size attribute it can bring more or less than asked |
| FuseFile.File.Write | fuse/file.go:241-273 | for any size attribute the new state and reply are those of the Write transition: gap filled from the remote, bytes copied, size grown; a failed write only records the writer |
| FuseFile.File.Flush | fuse/file.go:292-337 | for any size attribute the new state, the bytes handed to the plugin and the reply are those of the Flush transition: whatever the read of the rest brings is appended, then zeros up to the declared size; the panic included |
| FuseFile.File.Setattr | fuse/file.go:341-373 | the new state and reply are those of the Resize transition |
| FuseFile.File.Release | fuse/file.go:196-217 | Release flushes if asked, then forgets the writer; the last one drops the buffer |
| FuseFile.File.Forget | fuse/file.go:179-192 | the writer leaves, and no writer means no data |
| FuseFile.File.Read | fuse/file.go:219-237 | while a file-like entry is being written a read is the window of the loaded prefix, whether or not the entry is readable; otherwise it is what plugin.Read answers with EOF not reported, the window of the content when the attribute covers it |
| FuseFile.GapLoad | fuse/file.go:249-258 | for any size attribute filling the gap before a write yields exactly the remote bytes of the gap, EOF when the gap reaches past the remote or the attribute, or the failed fetch |
| FuseFile.TailLoad | fuse/file.go:309-325 | what is flushed after fetching the rest is the loaded prefix and the padded remote if and only if a size attribute below the declared size neither drops a byte that counts nor lets the read overshoot; it never does when it covers the content |
| FuseRefinement.StepCoupledIff | fuse/file.go:67-373 | for any size attribute: one request keeps "loaded prefix plus padded remote is the plain file" and hands the plugin nothing else, if and only if its guard holds, whether or not the bytes are known |
| FuseRefinement.UnknownCoupledIff | fuse/file.go:67-373 | before the plain file's bytes are known a request keeps the coupling if and only if it neither puts the declared size below the loaded prefix nor loads past it |
| FuseRefinement.BytesLostIff | fuse/file.go:67-217 | the bytes stay known until the last writer leaves, or an Attr or failed Open finds other remote bytes, and no longer |
| FuseRefinement.GuardedRunFaithful | fuse/file.go:241-373 | along a run no request panics, each Flush hands the plugin exactly the plain file, failed requests change no bytes and the buffer keeps standing for the file, if and only if every request is guarded |
| FuseRefinement.NewFileFaithful | fuse/file.go:57-59 | the same from a new file on, for both kinds of entry and any size attribute |
| FuseRefinement.PlainBufferGuarded | fuse/file.go:241-373 | for an entry that is not file-like every run is guarded: the buffer is the zero-filled plain file |
| FuseRefinement.NoWritersNoData | fuse/file.go:179-192 | in every reachable state, for any requests and both kinds of entry, no writers means no data |
| FuseRefinement.OnlyWritersSend | fuse/file.go:297-299 | in every state, a request that hands anything to the plugin is a Flush, or a flushing Release, by a handle that is a writer |
| FuseRefinement.WritersAre | fuse/file.go:179-192 | after any requests the writers are exactly the handles that wrote or resized and have not left since |
| FuseRefinement.SentAfterWrite | fuse/file.go:292-337 | along any run, what is handed to the plugin comes from a handle that wrote or resized before and has not left since |
| FuseRefinement.WriterFlushDelivers | fuse/file.go:292-337 | a writer's Flush hands over the whole plain file, unless the rest has to be read and cannot be |
| FuseRefinement.OpenModes | fuse/file.go:118-159 | an entry that can only be read opens only for reading, one that can only be written only for writing, one that can do both either way, and both at once if it has a size |
| FuseRefinement.StepFitsIff | fuse/file.go:67-373 | for any size attribute: from a state whose data fits its declared size no request panics, and the next state fits if and only if the request is no Resize, repeated Open or Attr that sets the size below the loaded prefix and no Flush that loads past the declared size, unless it ends the session |
| FuseRefinement.PanicFreeIff | fuse/file.go:304-318 | along any run, with any size attributes, a Flush would panic at no point if and only if every request is so |
| FuseRefinement.GuardedRunNeverPanics | fuse/file.go:292-337 | such a run gets no panic among its replies |
| FuseRefinement.ShrinkThenFlushPanics | fuse/file.go:304-307 | a run that reaches the panic by truncation |
| FuseRefinement.ReopenThenFlushPanics | fuse/file.go:126-176 | a run that reaches it by opening again, which resets the grown size |
| FuseRefinement.SmallAttributeFlushPanics | plugin/methodWrappers.go:140-150 | a run that reaches it through a size attribute below the content: the read that Flush asks for is widened to the attribute |
| FuseRefinement.AttrThenFlushPanics | fuse/file.go:71-79 | a run that reaches it when the entry of a written plain buffer gains a size attribute |
| FuseRefinement.ShrinkThenGrowResurrects | fuse/file.go:355-371 | a run in which growing shows remote bytes that truncation removed |
| FuseRefinement.LocalReadIff | fuse/file.go:219-237 | a local read returns the plain file's window exactly when that part of the window is loaded |
| FuseRefinement.LocalReadMissesRemote | fuse/file.go:219-237 | a run after which a local read returns nothing of a file that has a byte there |
| EntrySchemas.EntrySchema.GetChild | api/types/entrySchema.go:274-282 | the first child of the type, or none |
| EntrySchemas.Unmarshaler.FillStree | api/types/entrySchema.go:139-167 | the node for a type, at the given path plus its label, with a complete subtree below it, back edges to the nodes already on the way, in bounded recursion on any closed type graph |
| EntrySchemas.Unmarshaler.FillChildren | api/types/entrySchema.go:150-166 | the children are appended in the graph's order |
| EntrySchemas.EntrySchema.Copy | api/types/entrySchema.go:168 | the copy of the root node that is handed out shares its path, type and children |
| EntrySchemas.Unmarshal | api/types/entrySchema.go:135-172 | the result is a copy of the root, with the same children; its path is its label and each child's is its parent's, a slash and its label, but for edges back to an ancestor; the stree is closed, each node's ordered child types are those of its type, and with distinct sibling labels all paths are unique but the one the copy shares with the root |
| EntrySchemas.StreeWalkIsTypeWalk | api/types/entrySchema.go:139-167 | every walk down the stree spells a walk of the type graph |
| EntrySchemas.TypeWalkIsStreeWalk | api/types/entrySchema.go:139-167 | every walk of the type graph from the root is spelt by a walk down the stree |
| Pruning.Evaluator.ApplyPredicate | cmd/internal/find/types/entrySchema.go:79-92 | the first traversal marks exactly the reachable satisfying nodes |
| Pruning.Evaluator.UpdateResult | cmd/internal/find/types/entrySchema.go:93-110 | a sweep only adds nodes justified by a child, and is final if it adds none |
| Pruning.FixpointIsExact | cmd/internal/find/types/entrySchema.go:111-128 | a sweep that adds nothing has kept exactly the nodes that lead to a satisfying one |
| Pruning.EvaluateNodesToKeep | cmd/internal/find/types/entrySchema.go:73-128 | terminates on every cyclic graph, the shared path of root and copy included; true for exactly the reachable paths that lead in zero or more steps to a satisfying node |
| Pruning.Pruner.PruneNode | cmd/internal/find/types/entrySchema.go:18-36 | child lists become their order-preserving filters in place, once per node, over back edges |
| Pruning.Prune | cmd/internal/find/types/entrySchema.go:12-37 | nil exactly when nothing reachable satisfies the predicate, and then nothing is touched; else every child list on the way, but the one of the original root, is the order-preserving filter of what it was |
| Pruning.PrunedReachability | cmd/internal/find/types/entrySchema.go:12-37 | after pruning a decoded stree only nodes that lead to a satisfying one are found if and only if no kept node has an edge back to the first type or all children of the root are kept |
| Pruning.SelfEdgeKeepsUnkept | cmd/internal/find/types/entrySchema.go:17-33 | directories that list directories and files, a predicate true of directories only: a file is still found |
| Pruning.PrunedFindsKept | cmd/internal/find/types/entrySchema.go:12-37 | every path that leads to a satisfying node is still found |
| Pruning.PrunedKeepsWalks | cmd/internal/find/types/entrySchema.go:12-37 | no walk of nodes to a satisfying one is lost |
| Walker.GuidedIsEverything | cmd/internal/find/walker.go:56-93 | at every position the walk over the pruned schema prints, in the same order, what the full depth-bounded walk prints |
| Walker.GuidedIsEverythingBelow | cmd/internal/find/walker.go:74-91 | the same for a list of siblings |
| Walker.HopelessPrintsNothing | cmd/internal/find/walker.go:59-66 | below a node that leads to no satisfying one the full walk prints nothing |
| Walker.NoLeadingChild | cmd/internal/find/walker.go:74-91 | children whose schemas were all pruned print nothing |
| Walker.WalkOutcome | cmd/internal/find/walker.go:33-54 | the walk over the pruned or nil schema prints what the full walk prints, or nothing when only the original root satisfies the predicate |
| Walker.AlwaysSameIff | cmd/internal/find/walker.go:33-54 | for each schema predicate: the two walks agree on all entries and queries if and only if something is kept or the original root does not satisfy the predicate where it can be found |
| Walker.AlikeIsAgreeable | cmd/internal/find/walker.go:33-54 | a predicate that treats the two root nodes alike meets that condition |
| Walker.InnerAlonePrintsNothing | cmd/internal/find/types/entrySchema.go:86-90 | directories that list directories and a predicate true of the original root only: the full walk prints, the pruned one does not |
| Walker.GuidedUnknown | cmd/internal/find/walker.go:56-93 | without a schema the walk is the full walk |
| WalkMeaning.FindPrints | cmd/internal/find/walker.go:56-130 | of the whole tree in preorder, exactly those entries are printed that are the start or no deeper than maxdepth, no less deep than mindepth, below directories that can be listed, whose schema node satisfies and which satisfy the predicate, with full metadata when wanted and available; success exactly when no fetch and no listing on the way fails |
| Walker.WalkerImpl.VisitEntry | cmd/internal/find/walker.go:95-130 | what is printed and whether it succeeded, with the metadata fetch and both predicates |
| Walker.WalkerImpl.WalkFrom | cmd/internal/find/walker.go:56-93 | the recursive walk over the pruned nodes appends exactly the guided output |
| Walker.WalkerImpl.Walk | cmd/internal/find/walker.go:33-54 | the whole walk with its pruning in place prints what the full walk of the original schema prints, under that exact condition, and nothing otherwise |
| Walker.DecodedTypedApart | api/types/entrySchema.go:139-168 | children of one type in one list are one node, so the first match is the match |
| Walker.Find | cmd/internal/find/walker.go:33-130 | from the decoded type graph, the root copy included, to the printed lines: for every closed type graph with distinct sibling labels, entry tree and predicates, what is printed is what the full walk over the unfolded schema prints, or nothing when only the original root satisfies |
| RqlNodes.MatchedIsReducible | api/rql/internal/predicate/expression/expression.go:127-155 | a well-formed tree never meets a panic of reduce |
| RqlNodes.ReduceShape | api/rql/internal/predicate/expression/expression.go:105-155 | reduce terminates and leaves NOT on atoms only |
| RqlNodes.DeMorgan | api/rql/internal/predicate/expression/expression.go:136-149 | one De Morgan step keeps the value and the atoms asked |
| RqlNodes.ReduceMeaning | api/rql/internal/predicate/expression/expression.go:105-155 | reduce keeps every evaluation, panics included, and asks the same atoms in the same short-circuit order |
| RqlMeaning.EvalIsSatisfies | api/rql/internal/predicate/expression/expression.go:81-95 | an evaluation that does not panic is true exactly when the value satisfies the tree in plain logic |
| RqlMeaning.OnlyTwoPanics | api/rql/internal/predicate/array.go:82-114 | of a well-formed tree only an element by index and != on times can panic |
| RqlMeaning.IndexPanics | api/rql/internal/predicate/array.go:87-89 | an element by index panics exactly out of range, or when its operand does |
| RqlMeaning.NumericLaws | api/rql/internal/predicate/numeric.go:73-91 | less and greater by the difference of the numbers, exactly one of <, = and > holds, and the other operators by these |
| RqlMeaning.TimeLaws | api/rql/internal/predicate/time.go:60-76 | the same for times, but that != panics |
| RqlMeaning.LeafValues | api/rql/internal/predicate/boolean.go:26-38 | null, a Boolean and a string equality are each met by one value |
| RqlMeaning.OtherKinds | api/rql/internal/predicate/numeric.go:127-132 | a value of another kind meets no number, string, time or size predicate |
| RqlMarshal.UnmarshalNonterminal | api/rql/internal/nonterminalNode.go:36-48 | the loop returns the first alternative that is not a match error |
| RqlMarshal.OrderIrrelevant | api/rql/internal/nonterminalNode.go:20-48 | when at most one alternative avoids a match error the order does not matter |
| RqlMarshal.ChoicesUnambiguous | api/rql/internal/predicate/expression.go:14-54 | at every choice of the grammars at most one alternative avoids a match error, so any order gives the same |
| RqlMarshal.NPEAlternativesApart | api/rql/internal/predicate/expression/expression.go:31-71 | OR, the atom, NOT and AND exclude each other on every input |
| RqlMarshal.ValueAlternativesApart | api/rql/internal/predicate/expression.go:42-54 | the kinds of value predicate exclude each other |
| RqlMarshal.CollectionAlternativesApart | api/rql/internal/predicate/collectionBase.go:26-50 | size and element predicates exclude each other |
| RqlMarshal.StringAlternativesApart | api/rql/internal/predicate/string.go:155-163 | glob, regex and equality exclude each other |
| RqlMarshal.RoundTripIff | api/rql/internal/predicate/expression/binOp.go:23-47 | for every expression of every type, Unmarshal of Marshal is the tree itself if and only if its patterns compile and its numbers and times survive their own text |
| RqlMarshal.RoundTrip | api/rql/internal/predicate/expression/binOp.go:23-47 | then Unmarshal of Marshal is the tree itself |
| RqlMarshal.ValueRoundTrip | api/rql/internal/predicate/object.go:33-67 | the same for value predicates |
| RqlMarshal.CollectionRoundTrip | api/rql/internal/predicate/array.go:32-80 | the same for size, object and array predicates with every selector |
| RqlMarshal.LeafRoundTrip | api/rql/internal/predicate/numeric.go:32-71 | the same for numeric, time and string leaves |
| RqlMeaning.ReadsComparison | api/rql/internal/predicate/numeric.go:36-91 | ["<", 5] is met by the numbers below 5, and so on for the six words; the operand is a number or the text of one |
| RqlMeaning.ReadsTimeComparison | api/rql/internal/predicate/time.go:32-76 | the same for times and the five words that do not panic |
| RqlMeaning.ReadsConnectives | api/rql/internal/predicate/expression/binOp.go:27-47 | the lists that start with AND, OR and NOT are met as they say |
| RqlMeaning.ReadsConstants | api/rql/internal/predicate/null.go:23-32 | null, true and false are met by themselves |
| RqlMeaning.ReadsLeaf | api/rql/internal/predicate/numeric.go:110-132 | number, time and string predicates ask values of their kind |
| RqlMeaning.ReadsString | api/rql/internal/predicate/string.go:35-143 | equality, glob and regex as written |
| RqlMeaning.ReadsSize | api/rql/internal/predicate/size.go:34-66 | a size asks for the number of elements or of keys |
| RqlMeaning.ReadsObject | api/rql/internal/predicate/object.go:37-76 | a key predicate asks the value under the key, up to case |
| RqlMeaning.ReadsArray | api/rql/internal/predicate/array.go:46-114 | some, all and a number ask some element, all elements and that element |
| RqlLanguage.ReadIff | api/rql/internal/predicate/expression/expression.go:31-71 | for every input, type and tree: the input is read as the tree if and only if it is written for it in the documented forms, so that nothing else is accepted |
| RqlMarshal.UnmarshalSound | api/rql/internal/predicate/expression/expression.go:51-71 | whatever is accepted is a well-formed tree of its type |
| RqlMarshal.UnmarshalledIsReducible | api/rql/internal/predicate/expression/expression.go:151-154 | whatever is unmarshalled can be reduced: the panics are out of reach |
| RqlSchema.WrapConforms | api/rql/internal/primary/meta/satisfyingValueSchema.go:30-50 | a wrapped representative conforms to the munged schema exactly when its context leads to a schema it conforms to |
| RqlSchema.SupportsExact | api/rql/internal/primary/meta/valueSchema.go:81-97 | Supports says exactly that some end value conforms where the context leads |
| RqlSchema.SchemaPredicateExact | api/rql/internal/predicate/array.go:116-132 | in every context the compiled predicate holds of a munged schema exactly when following the predicate down the schema succeeds, through objects, arrays, AND, OR and reduced NOT |
| RqlSchema.ElementExact | api/rql/internal/predicate/object.go:78-80 | the object and array cases |
| RqlSchema.LeafExact | api/rql/internal/predicate/size.go:76-86 | the leaf cases and NOT |
| RqlSchema.EvalValueSchemaExact | api/rql/internal/primary/meta/valuePredicate.go:79-102 | EvalValueSchema is the direct walk of the schema |
| RqlSchema.SchemaConnectives | api/rql/internal/predicate/expression/and.go:68-72 | on a schema AND asks both of its operands, and OR one of them |
| RqlSchema.SchemaNegations | api/rql/internal/predicate/expression/expression.go:101-155 | and NOT moves inwards over both and over itself |
| RqlSchema.PathAccepts | api/rql/internal/predicate/object.go:78-80 | a predicate below a path of keys and elements accepts a schema exactly when the path leads somewhere and the predicate accepts what is there |
| RqlSchema.LeafAccepts | api/rql/internal/predicate/size.go:76-86 | a leaf accepts a schema by its kind alone, and its negation any |
| RqlSchema.AcceptsSound | api/rql/internal/primary/meta/valuePredicate.go:79-102 | a conforming value that satisfies a predicate has a schema that the walk accepts, unless an `all` whose operand does not accept every schema meets an empty array |
| RqlSchema.EvalValueSchemaSound | api/rql/internal/primary/meta/valuePredicate.go:79-102 | when a value conforms to a schema and satisfies the predicate, the compiled schema predicate accepts the schema |
| RqlSchema.AllOfNothingRejected | api/rql/internal/predicate/array.go:96-108 | a value, a schema and an `all` predicate for which soundness fails |
| RqlSchema.SkeletonsDecide | api/rql/internal/predicate/array.go:116-132 | an operand accepts every schema if and only if its compiled schema predicate holds of finitely many: arrays, no deeper than the predicate plus one, around a primitive or an object without properties |
| RqlSchema.ShellSuffices | api/rql/internal/predicate/object.go:78-80 | a predicate sees no deeper than it nests, and properties can only help it |
| RqlSchema.AllSoundIff | api/rql/internal/predicate/array.go:82-132 | an `all` predicate, alone or below any path of keys and elements, is sound on all values and schemas if and only if its operand holds of those skeletons |
| RqlSchema.MungeTwice | api/rql/internal/primary/meta/valueSchema.go:19-79 | munging a schema in place a second time changes nothing |
| MemCache.StepInv | datastore/cache.go:102-204 | every step of every call keeps the lock discipline, the nesting of calls and the freshness of items and of values in flight |
| MemCache.NoStaleValue | datastore/cache.go:187-204 | in every interleaving, calls inside generateValue included, what is cached under a matching key after a Delete or Flush released the lock came from a generateValue call that began after it |
| MemCache.PresentWasBegun | datastore/cache.go:131-147 | every cached value belongs to a generateValue call of the run for that key |
| MemCache.SingleFlight | datastore/cache.go:106-148 | at most one call is between a miss on a key and the Set for it, even while the read lock is dropped |
| CacheValues.LookupAnswers | datastore/cache.go:113-122 | a lookup of a stored key is a hit with the stored item, of any other a miss |
| CacheValues.HitAnswers | datastore/cache.go:113-122 | a call that found its key holds what was stored until it returns, and never generates |
| CacheValues.StorePuts | datastore/cache.go:147 | Set puts what the call generated under its key and touches nothing else |
| CacheValues.StoredWasGenerated | datastore/cache.go:138-148 | in every interleaving what is stored or found under a key is a value that a generateValue for that key has returned |
| CacheValues.DeleteSpares | datastore/cache.go:187-204 | while a Delete has the lock, what does not match and does not expire stays as it was |
| MemCache.WriterAlone | datastore/cache.go:169-204 | nothing else touches the items while a Delete, Flush or eviction holds the write lock |
| CacheRuns.UpgradeDeadlocks | datastore/cache.go:123-137 | for every limit a run of two calls that fills the cache and then has each wait for the other |
| CacheRuns.InnerCallMeetsDelete | datastore/cache.go:102-139 | if a generateValue calls the cache, a run with a Delete in which the outer call, the inner one and the Delete wait for each other, whatever the limit |
| CacheRuns.InnerCallSharesLock | datastore/cache.go:102-139 | a run of an outer and an inner call alone that gets stuck, for every two keys with one lock |
| CacheDeadlocks.StuckIsDeadlocked | datastore/cache.go:102-204 | whenever calls are under way and none can go on, each of them waits for one of them: for a key's lock, for a reader or a writer to leave, or for a call inside its generateValue |
| CacheDeadlocks.DeadlockHasCause | datastore/cache.go:102-148 | every deadlock has in it a call that upgrades its lock or is inside generateValue |
| CacheDeadlocks.FlatRunHasRoles | datastore/cache.go:123-137 | if no generateValue calls the cache, every deadlock of every run has a writer that waits for a reader, that reader waiting for a key's lock, and its holder waiting for the cache's |
| CacheDeadlocks.NeverDeadlocked | datastore/cache.go:102-204 | without a limit, and if no generateValue calls the cache, no run of any number of calls has a deadlock |
| CacheRuns.DeadlockIff | datastore/cache.go:102-204 | some calls can deadlock, and all can get stuck, if and only if the cache has a limit or a generateValue calls it |
| CacheDeadlocks.DeadlockIsPermanent | datastore/cache.go:102-204 | calls of which each waits for one of them stay so under every step of any call, and expiry, and none of them steps |
| CacheRuns.EvictionPanicIsReachable | datastore/cache.go:150-165 | for every limit a run that fills the cache, lets everything expire, asks for another key, and reaches the panic |
| CacheRuns.TwoEvictionsPanic | datastore/cache.go:123-165 | a run without expiry that reaches the panic: two misses on a full cache of one item |
| CacheRuns.EvictionPanicIff | datastore/cache.go:127-165 | some calls can reach the panic if and only if the cache has a limit |
| CacheEviction.DeleteClosestToExpiration | datastore/cache.go:150-165 | deletes one unexpired item of least raw expiration; panics exactly when all items have expired |
| CacheEviction.CandidateIsClosestIff | datastore/cache.go:150-165 | that item is the one closest to expiration exactly when none or all never expire |
| CacheEviction.NeverExpiringGoesFirst | datastore/cache.go:150-165 | of an item that never expires and one about to expire the former is dropped |
| OutputStream.StepInv | plugin/outputStream.go:29-89 | every step of writers, closers and cancellation keeps the invariant; none crashes |
| OutputStream.SendsMeetOpenChannel | plugin/outputStream.go:20-62 | in every interleaving no send meets a closed channel or closed stream |
| OutputStream.CountdownIsOpenStreams | plugin/outputStream.go:76-89 | the countdown is the number of streams not yet counted down and never negative |
| OutputStream.ClosedOnce | plugin/outputStream.go:82-89 | the channel is closed at most once |
| OutputStream.ChannelClosedIff | plugin/execCommandImpl.go:46-63 | the channel is closed exactly when every stream has been counted down |
| OutputStream.SilentAfterClose | plugin/execCommandImpl.go:106-112 | after CloseWithError returns its stream emits nothing |
| OutputStream.CtxErrNotRepeated | plugin/outputStream.go:29-70 | a close that sends the context's error follows no write that sent it |
| StreamSends.WriteSends | plugin/outputStream.go:29-46 | a write on an open stream with a live context sends its data, once and nothing else, before it returns; with a done context its error; on a closed stream nothing |
| StreamSends.CloseSends | plugin/outputStream.go:54-74 | a close of an open stream sends its error once, unless there is none or it is the context's and was sent |
| EvalStacks.EvalStack.Pop | cmd/internal/find/parser/expression/parser.go:372-380 | the top item and the rest |
| EvalStacks.EvalStack.Evaluate | cmd/internal/find/parser/expression/parser.go:372-380 | leaves the one operand that combining from the top down gives |
| EvalStacks.EvalStack.PushBinaryOp | cmd/internal/find/parser/expression/parser.go:351-361 | evaluates the whole stack first when the precedence does not rise; the new state in full |
| EvalStacks.EvalStack.PushPredicate | cmd/internal/find/parser/expression/parser.go:363-370 | an AND is implied between two predicates; the new state in full |
| EvalStacks.PushOperator | cmd/internal/find/parser/expression/parser.go:351-361 | keeps operands and operators alternating with strictly rising precedence, the most recent operator nearest the top |
| EvalStacks.PushOperand | cmd/internal/find/parser/expression/parser.go:363-370 | the same for operands |
| EvalStacks.ShapedIsShort | cmd/internal/find/parser/expression/binaryOp.go:20-26 | with two precedences such a stack holds at most five items |
| EvalStacks.StackIs | cmd/internal/find/parser/expression/parser.go:351-380 | the stack after any operand and operator list, item by item |
| EvalStacks.LayeredUnique | cmd/internal/find/parser/expression/parser.go:13-36 | at most one left-associative tree with AND above OR has given operands and operators |
| EvalStacks.StandardLayered | cmd/internal/find/parser/expression/parser.go:13-36 | the reference tree is that tree, for every list |
| EvalStacks.ResultKeepsOrder | cmd/internal/find/parser/expression/parser.go:351-380 | the stack loses, repeats and reorders nothing |
| EvalStacks.ResultIsStandardIff | cmd/internal/find/parser/expression/parser.go:351-361 | the stack builds the reference tree exactly when no OR is followed by two ANDs |
| EvalStacks.MeaningIff | cmd/internal/find/parser/expression/parser.go:351-361 | for independent operands the result has the reference meaning exactly then |
| EvalStacks.SmallestTriple | cmd/internal/find/parser/expression/parser.go:351-361 | the differing trees for `a -o b -a c -a d` |
| FindParser.Parser.Parse | cmd/internal/find/parser/expression/parser.go:189-241 | fresh stack, token loop, every error exit; equals the parsing function |
| FindParser.Parser.Conclude | cmd/internal/find/parser/expression/parser.go:196-240 | empty expressions, errors inside parentheses, a trailing operator given back or reported |
| FindParser.Parser.ParseTokens | cmd/internal/find/parser/expression/parser.go:245-335 | the token loop equals its recursive form and leaves the stack it returns |
| FindParser.Parser.Atom | cmd/internal/find/parser/predicate/parser.go:27-39 | the first of NOT, parentheses and the caller's parser that matches |
| FindParser.Parser.NotOp | cmd/internal/find/parser/expression/atom.go:7-37 | negation and its error cases |
| FindParser.Parser.Parenthesize | cmd/internal/find/parser/expression/atom.go:45-80 | the stack and the number of open parentheses are restored however the inner parse ends |
| FindGrammar.ParsesIff | cmd/internal/find/parser/expression/parser.go:13-36 | a whole token list is parsed to p exactly when it is a sentence of the documented grammar and p is its evaluation |
| FindGrammar.PartialParseIsSentence | cmd/internal/find/parser/expression/parser.go:148-187 | a predicate returned with an error stands for a sentence up to the tokens handed back |
| FindGrammar.LoopParses | cmd/internal/find/parser/expression/parser.go:245-335 | every sentence brings the loop to the stack of that sentence, whatever follows |
| FindGrammar.LoopSound | cmd/internal/find/parser/expression/parser.go:245-335 | wherever the loop stops, what it consumed is a sentence, perhaps with one trailing operator |
| FindGrammar.AtomParses | cmd/internal/find/parser/expression/atom.go:7-80 | every atom of the grammar is parsed, nested parentheses included |
| FindGrammar.AtomSound | cmd/internal/find/parser/expression/atom.go:7-80 | every parsed atom is one of the grammar |
| FindGrammar.TreeIsStandardIff | cmd/internal/find/parser/expression/parser.go:28-36 | a sentence gets the documented precedence exactly when it has no OR followed by two ANDs, at any depth of parentheses |
| FindMeaning.StandardMeans | cmd/internal/find/parser/expression/parser.go:13-36 | the reference tree of a sentence holds exactly when between some ORs all atoms do, at any depth of parentheses and negations |
| FindMeaning.PlainSentenceMeans | cmd/internal/find/parser/expression/parser.go:189-241 | a sentence without an OR followed by two ANDs is parsed to a predicate that holds exactly then |
| FindMeaning.TwoPrimaries | cmd/internal/find/parser/expression/binaryOp.go:20-26 | a -o b and a -or b hold when a or b does; a -a b, a -and b and a b when both do |
| FindMeaning.NotPrimary | cmd/internal/find/parser/expression/atom.go:7-37 | ! a and -not a hold when a does not |
| FindMeaning.ThreePrimaries | cmd/internal/find/parser/expression/binaryOp.go:20-26 | a -o b -a c and a -a b -o c: AND binds tighter |
| FindMeaning.UnknownWord | cmd/internal/find/parser/expression/parser.go:283-310 | a word that is nothing to anyone is handed back with what follows |
| FindMeaning.UnmatchedParen | cmd/internal/find/parser/expression/parser.go:251-260 | a closing parenthesis that nothing opened is handed back, with the primary before it parsed |
| FindMeaning.SyntaxErrors | cmd/internal/find/parser/expression/parser.go:189-241 | no tokens are an empty expression; an operator at the start or the end, a negation of nothing and a parenthesis unclosed or around nothing are syntax errors |
| FindGrammar.ParserPanicsIff | cmd/internal/find/parser/expression/parser.go:283-301 | the parser panics on some input if and only if the caller's parser reports an unknown token without a predicate on some tokens that start with no NOT word and no parenthesis |
| SchemaGraphs.SchemaGraphBuilder.PutNode | plugin/external/pluginEntry.go:711-800 | a node is accepted exactly when it is a core entry or all validations pass, and the state is then extended by it |
| SchemaGraphs.SchemaGraphBuilder.PutCore | plugin/external/pluginEntry.go:712-732 | a core entry's namespaced graph is merged once |
| SchemaGraphs.SchemaGraphBuilder.RequireChildren | plugin/external/pluginEntry.go:767-780 | the children become required and are namespaced in order |
| SchemaGraphs.BuildStep | plugin/external/pluginEntry.go:711-809 | one node keeps: populated and required sets exact, every child present or required, the entry's own type first |
| SchemaGraphs.SelfContained | plugin/external/pluginEntry.go:811-826 | the final loop accepts exactly when the populated and the required types are the same |
| SchemaGraphs.UnmarshalSchemaGraph | plugin/external/pluginEntry.go:676-829 | accepts exactly the acceptable schemas, in any map order; an accepted graph is closed under children, starts with the entry's type and without clashes holds exactly the described nodes |
| SchemaLinks.NodesComeOut | plugin/external/pluginEntry.go:744-800 | without clashes the label, methods and signals of a type come out as they went in, and its children are those it listed, in order, under the keys of their types |
| SchemaLinks.CoreNodesComeOut | plugin/external/pluginEntry.go:712-732 | a core entry's nodes come out with their own children under their keys |
| SchemaLinks.HierarchyComesOut | plugin/external/pluginEntry.go:767-800 | without clashes the entry's own key reaches the key of a type exactly when its type reaches that type in what the plugin printed |
| SchemaLinks.Misfits | plugin/external/pluginEntry.go:735-794 | each way in which one type is wrong makes the schema unacceptable |
| SchemaLinks.Dangling | plugin/external/pluginEntry.go:811-826 | so does a child that is not described, and a described type that is nobody's child |
| SchemaLinks.SmallestAccepted | plugin/external/pluginEntry.go:676-829 | a directory of one file is acceptable |
| SchemaGraphs.CompleteIsClosed | plugin/external/pluginEntry.go:811-826 | required within populated makes the graph closed |
| SchemaGraphs.ReachableIff | plugin/external/pluginEntry.go:819-825 | every accepted type is reachable from the entry's own if and only if the types that are not form no cycle |
| SchemaGraphs.OrphanCycleAccepted | plugin/external/pluginEntry.go:819-825 | an accepted schema with a type that only lists itself and is reachable from nowhere else |
| SchemaGraphs.CoreRootRejected | plugin/external/pluginEntry.go:700-716 | a root that is a core entry is never acceptable |
| SchemaPartition.Partitioner.Populate | plugin/external/pluginRoot.go:90-104 | the search puts each reached node once, in order, and fails only on a missing child |
| SchemaPartition.PartitionSchemaGraph | plugin/external/pluginRoot.go:88-114 | panics exactly when the graph is not closed; else maps each type to exactly its reachable subgraph, that type first |
| SchemaPartition.PartsAgree | plugin/external/pluginRoot.go:88-114 | each part is closed and contains the parts of its types |
| SchemaPartition.Prefetch | plugin/external/pluginRoot.go:73-76 | an accepted schema is always partitioned without the panic |
| StatPaths.PathOfText | volume/stat.go:27-29 | a path is the one its text stands for, with a slash in front or without |
| StatPaths.TextOfPath | volume/stat.go:27-29 | every string, empty names included, is the text of the path that repeated splitting and trimming gives |
| StatPaths.SegmentsIsDepth | volume/stat.go:35-41 | for every string the number of segments is the depth of its path, except of a single slash |
| DirMaps.MakeDirsExtends | volume/stat.go:43-67 | what is made is entered in its parent with default attributes, and nothing else changes |
| DirMaps.LineKeepsConsistent | volume/stat.go:12-33 | a line in order keeps the map that of the listing |
| DirMaps.ConsistentIff | volume/stat.go:12-67 | the map has the right keys, unexplored directories, entries and attributes exactly when no directory is listed after something below it |
| DirMaps.LateIsInconsistent | volume/stat.go:20-25 | such a directory always loses an entry for good |
| DirMaps.LateDirectoryLosesFile | volume/stat.go:20-25 | a file listed before its directory is not in the map |
| StatScan.DirMapBuilder.MakeChildren | volume/stat.go:46-67 | for any string and any map of explored directories: the new map in full; the parent's map is never nil |
| StatScan.DirMapBuilder.AddAttributesForPath | volume/stat.go:12-33 | for any string: panics exactly on too many segments, or on the base itself listed as a directory at depth zero; else the new map in full |
| StatScan.MeaningAdd | volume/stat.go:12-67 | below the base the line added to the map of strings is the line added to the map of paths, although the code sets keys before it makes their parents |
| StatScan.MapMeans | volume/stat.go:12-67 | in either style of path, the map of strings stands for the map of the listed paths |
| StatScan.ParseStatPOSIX | volume/statPosix.go:89-110 | for any output, base and start, the loop over lines equals the line-by-line function |
| StatScan.DepthFromStart | volume/statPosix.go:90 | of what lies below the start a line is refused exactly when it is more than maxdepth names down, and a directory left unexplored exactly when it is maxdepth names down |
| StatScan.ScanOutcome | volume/statPosix.go:89-110 | for any output: panic exactly when a refused path comes before any bad line, error exactly when a line is bad, else the map of what was listed |
| StatScan.ParsedIff | volume/statPosix.go:82-110 | on a listing below the base that parses, what is built is the map of the listing exactly when no directory is listed after something below it |

## Left out

- All cloud, docker, kubernetes and SSH plugins, the HTTP API and its client, shells, analytics, journals, logging and output formats: input and output, or thin wrappers.
- FUSE: the remote content is fixed for a session, lengths are unbounded integers, and Release is one step although it runs partly outside the file's mutex; block-readable entries and the kernel's own behaviour are not modelled.
- PluginRead.ReadExactIff: lengths and offsets are unbounded integers; in the code the sum of offset and size is an int64 (methodWrappers.go:146, entryContent.go:33), and one beyond its range makes the slice panic.
- EntrySchemas.Unmarshal: path uniqueness is proved for sibling labels that are distinct and contain no slash; the converse is not stated.
- EntrySchemas.Unmarshal: the JSON decoding. It checks labels only; a child that is not among the types fails a type assertion at line 146, and the model asks for a closed graph.
- Metadata schemas of entry nodes: pruning rewrites each visited node's metadata schema just before it asks the predicate, and never that of the root that was copied; the model's predicate is the one asked after the rewriting, and may differ on the two root nodes.
- The -depth option of the walker: its early return skips the post-order visit of entries whose schema was pruned, so that the two orders do not visit the same entries.
- Walker errors other than failing to list or to fetch metadata, and the walk's printing itself.
- api/rql/prune.go and api/rql/walker.go, the RQL versions of pruning and walking: the same fixpoint with trimmed paths and sorted children.
- RQL primaries other than metadata, and the grammar of the non-negatable expressions: the same ordered choice without NOT.
- RQL engines: globs, regular expressions, decimal and time parsing and upper-casing are parameters.
- The JSON Schema language beyond closed objects, arrays and primitives with size and presence constraints.
- RqlSchema.EvalValueSchemaSound: assumes property names distinct up to case, and that no `all` selector meets an empty array; an operand that accepts its skeletons is exempt. When names clash up to case nothing is claimed. The cached schema predicate is the function's value, not a field.
- MemCache: the underlying cache is a map whose items may expire at any step and are purged later; fairness, the size bound under concurrency and the Get method are not stated. An inner call is any call made while a generateValue runs and waited for by it, on its goroutine or another. Locks are per category and key (cache.go:53-60) and items are stored under the joined name; MemCache.SingleFlight is about joined names, so that it speaks of one category and key only if no two pairs join to one name.
- CacheEviction.DeleteClosestToExpiration: assumes that no key is empty, since the code uses the empty string for "no candidate", and that expirations fit 64 bits.
- OutputStream: steps are atomic, so the unsynchronised read of the flag for a sent context error is seen in some order; liveness, and who reads the channel, are not stated.
- FindParser: error texts; Negate is a constructor, so a negation is not rewritten by De Morgan; primaries are whatever the caller's parser accepts.
- SchemaGraphs.UnmarshalSchemaGraph: JSON decoding and the fields of a node that are only copied; assumes that the graphs of core entries are closed and start with their own type.
- StatScan.ParsedIff: listings that name the base itself or mix relative paths with and without a leading slash, which find does not print below one start; the code's outcome on them is in ScanOutcome, but the entries /a and a are one there. The field-by-field parsing of a line is not modelled.
