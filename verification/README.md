# A model of the cubical kernel

The repository is a type-theory kernel in C whose trusted core is a set of small stateful
algorithms over an append-only arena of syntax. This project models that core in Dafny and proves
what the algorithms promise.

- **Interval and face lattices.** `Lattice` gives each sort of formula its points and proves the laws on
  sets of clauses. `Formulas`, `Intervals` and `Faces` are the in-place loops over clause arrays,
  with their work limits and their transactional outputs. Each method is proved equal to a run, a
  function on lists that counts the same work, and each run is proved to compute the lattice
  operation.
- **Universe levels.** `Levels` has ordinals below omega squared with variables over the naturals,
  normal forms, order and equality; `LevelArena` has the bounded worklist over shared nodes with
  its memo.
- **The arena.** `Interning`, `Probing`, `Compaction` and `Arena`: sharing through an open-addressing table
  whose stale handles stay in place, checkpoint, rollback, and a commit that compacts in place.
  `Graphs` ties the arena to the store used below.
- **Substitution and comparison.** `Nameless` is the reference meaning: trees without names, in
  which equality is equality up to bound names of both namespaces. `TermStore`, `Store`, `FreeNames`
  and `Scans` are the graph, its masks and its scans; `Frames` and `Substitution` the continuation loop
  of named substitution; `SubstitutionLaws` says what it means point by point, and `Binding` what each
  kind binds, with the kinds written out; `LocallyNameless`, `OpeningFrames` and `Openings` instantiation, abstraction, opening
  and closing; `Views`, `Scopes` and `Alpha` the comparison with scope identifiers.
- **The judgement store.** `Index`, `Contexts` and `Judgements` have sorted contexts, entries and the derivation
  table under truncation. `Systems`, `Rules` and `GlueTerms` have compositions and Glue types built one
  piece at a time, and `Agreement` what closing them means point by point.
- **Declared types.** `Signatures` is the recognizer of constructor types.

Reading the contracts: a ghost field `meaning` holds the nameless form of each handle, and `bones` its
skeleton (names of term binders and indices, no dimensions); `failed` stands for every error of
the kernel, after which nothing is promised but the invariants. Hash functions are parameters
about which nothing is assumed. Mathematics that the judgement rules only call on (restriction,
endpoints, sameness of types) is a parameter too, the `Language`.

Some predicates compare their body to `true`; this only keeps the verifier from proving each
conjunct apart.

## Model

| member | source | states |
|---|---|---|
| `Lattice.EntailmentIsCovering` | kernel/src/faces.c:84-103 | Clause-by-clause coverage, which is what the entailment loop tests, holds exactly when every point of the sort that satisfies the first formula satisfies the second. The points of a face may leave a dimension at neither end; the points of the interval treat `i` and `1-i` as independent. |
| `Lattice.Canonical` | kernel/src/formula.c:176-191 | Two normal clause sets have the same value at every point of their sort exactly when they are the same set. |
| `Lattice.ReduceHolds` | kernel/src/formula.c:35-71 | Dropping absorbed and inconsistent clauses changes the value of a formula at no point of its sort. |
| `Lattice.ReduceUnion` | kernel/src/formula.c:126-143 | Normalizing before a join gives the same normal form as normalizing after it, so the order of insertion is irrelevant. |
| `Lattice.DualInvolution` | kernel/src/interval.c:5-29 | The De Morgan dual of the dual is the original, on every normal interval formula. |
| `Lattice.DualHolds` | kernel/src/interval.c:5-29 | The dual is true at a point exactly when the formula is false at the opposite point. |
| `Lattice.EndpointsDisjoint` | kernel/src/faces.c:7-36 | No point satisfies both `r = 0` and `r = 1`. |
| `Lattice.ZeroIsReversedOne` | kernel/src/faces.c:7-36 | The face `r = 0` is the face `(1-r) = 1`. |
| `Lattice.ReversalCommutes` | kernel/src/interval.c:36-71 | Reversal commutes with substitution for a dimension. |
| `Lattice.EndpointCommutes` | kernel/src/faces.c:43-82 | `(r = e)[d := s]` is `(r[d := s] = e)` for all r, d, s and both endpoints. |
| `Lattice.SubstitutionsCompose` | kernel/src/interval.c:36-71 | Two substitutions of either sort compose into substitution of the substituted value, when the outer value does not mention the inner dimension or replaces the same one. |
| `Lattice.SubstitutedHolds` | kernel/src/interval.c:36-71 | Substitution is evaluation at the moved point: `i` gets the value of s and `1-i` that of its reversal. |
| `Lattice.ForallHolds` | kernel/src/faces.c:105-122 | `forall d. phi` is normal, does not mention d, and holds at a point exactly when phi holds there with d at neither end. |
| `Lattice.ForallAdjoint` | kernel/src/faces.c:105-122 | For every psi that does not mention d: psi entails `forall d. phi` exactly when it entails phi. |
| `Lattice.ForallMeets` | kernel/src/faces.c:105-122 | `forall d` commutes with meets. |
| `Formulas.Formula.Insert` | kernel/src/formula.c:35-71 | The in-place absorption loop, with its growth of the clause array and its work counter, computes the specified run; on a limit the list is unchanged. |
| `Formulas.InsertMeaning` | kernel/src/formula.c:35-71 | That run keeps the list normal (distinct clauses, none below another, consistent for faces) and its clause set becomes the normal form of the old set with the clause added. |
| `Formulas.Formula.Publish` | kernel/src/formula.c:24-28 | The output gets the candidate's clauses. |
| `Formulas.Formula.Generator` | kernel/src/formula.c:97-108 | A dimension out of range is refused with the output untouched; otherwise the output is the one literal. |
| `Formulas.Formula.Copy` | kernel/src/formula.c:110-124 | Equals the specified run; refused exactly for different sorts; any failure leaves the output unchanged even when it aliases the input. |
| `Formulas.Formula.Join` | kernel/src/formula.c:126-143 | As for Copy, for a join into any output, aliased or not. |
| `Formulas.Formula.Meet` | kernel/src/formula.c:150-169 | As for Copy, for the product loop of a meet. |
| `Formulas.Formula.Equal` | kernel/src/formula.c:176-191 | The double loop answers whether the sorts and clause lists agree up to order. |
| `Formulas.CopyMeaning` | kernel/src/formula.c:110-124 | A copy of any clause list is normal and has the same normal form. |
| `Formulas.JoinMeaning` | kernel/src/formula.c:126-143 | Within the limits, the run for a join gives the normal list of the lattice join. |
| `Formulas.MeetMeaning` | kernel/src/formula.c:150-169 | Within the limits, the run for a meet gives the normal list of the lattice meet. |
| `Formulas.EqualityIsComplete` | kernel/src/formula.c:176-191 | On normal lists the length-and-inclusion comparison holds exactly when the formulas have the same value at every point of the sort. |
| `Formulas.JoinSucceeds` | kernel/src/formula.c:35-71 | Two formulas of at most 1000 clauses in all never meet a limit when joined. |
| `Intervals.ReverseWork` | kernel/src/interval.c:5-29 | Equals the specified run of the nested loops, and leaves an aliased output unchanged on failure. |
| `Intervals.Reverse` | kernel/src/interval.c:31-34 | The output's clause set is the De Morgan dual of the input's; refusals and limits leave the output unchanged. |
| `Intervals.DualRunMeaning` | kernel/src/interval.c:5-29 | The product of sums that reversal multiplies out, within the limits, is the dual, for both sorts. |
| `Intervals.IntervalSubstitute` | kernel/src/interval.c:36-71 | Equals the specified run, including the early copy and the reversal that is only taken when it is needed. |
| `Intervals.IntervalSubstituteMeaning` | kernel/src/interval.c:36-71 | That run gives the homomorphic substitution, also when the unneeded value was never computed. |
| `Intervals.ReverseLaws` | kernel/src/interval.c:5-71 | Reversing twice compares equal to the original, and reversing a substitution compares equal to substituting in the reversal, whenever no limit is hit. |
| `Faces.Endpoint` | kernel/src/faces.c:7-41 | The output is the face `r = endpoint`; a bad endpoint or sort is refused and any failure leaves the output unchanged. |
| `Faces.EndpointMeaning` | kernel/src/faces.c:7-36 | The run, which uses reversal for endpoint 0, gives `r = 1` or `r = 0`. |
| `Faces.FaceSubstitute` | kernel/src/faces.c:43-82 | Equals the specified run, with each endpoint face computed only if a clause needs it. |
| `Faces.FaceSubstituteMeaning` | kernel/src/faces.c:43-82 | That run replaces `d = 1` by `value = 1` and `d = 0` by `value = 0`. |
| `Faces.EndpointThenSubstitute` | kernel/src/faces.c:7-82 | Taking an endpoint and then substituting gives a formula that compares equal to substituting and then taking the endpoint, whenever no limit is hit. |
| `Faces.FaceEntails` | kernel/src/faces.c:84-103 | On a normal face the answer is true exactly when every face point of the first satisfies the second. |
| `Faces.FaceForall` | kernel/src/faces.c:105-122 | The output is `forall d. face`, characterized by ForallAdjoint. |
| `Faces.ForallOfEndpoints` | kernel/src/faces.c:105-107 | `forall i. (i=0 or i=1)` is 0, as the comment says: a dimension is not either endpoint. |
| `Levels.AddSound` | kernel/src/levels.c:46-55 | Adding successors adds to the value under every assignment and refuses exactly when the constant exceeds its bound; every offset stays bounded by the constant, so that one test bounds them all. |
| `Levels.JoinSound` | kernel/src/levels.c:60-96 | Join keeps normal forms well formed (keys strictly sorted, offsets at most the constant) and its value is the join of the values under every assignment. |
| `Levels.NormalizeSound` | kernel/src/levels.c:249-263 | A level has a normal form exactly when it is in bounds, and the form has the level's value under every assignment. |
| `Levels.OrderDecided` | kernel/src/levels.c:307-325 | The test on normal forms holds exactly when the first is at most the second under every assignment. |
| `Levels.EqualityDecided` | kernel/src/levels.c:295-302 | Normal forms are identical exactly when they agree under every assignment. |
| `Levels.LevelsDecided` | kernel/src/levels.c:335-361 | Equality and order of syntax are decided through normal forms, for every two levels in bounds. |
| `Levels.BuildThenNormalize` | kernel/src/levels.c:274-293 | Normalizing the syntax built from a normal form gives it back. |
| `Levels.CanonicalSyntax` | kernel/src/levels.c:271-293 | Built syntax is identical exactly for levels that agree under every assignment. |
| `Levels.LimitIsSupremum` | kernel/src/levels.c:393-403 | The limit over a variable is the least upper bound of the level's values as the variable ranges over the naturals. |
| `Levels.OrdinalLaws` | kernel/src/levels.c:10-22 | The order is total, joins are least upper bounds, adding 1 gives the next ordinal, and a tier comes right after every finite ordinal of the one below. |
| `LevelArena.NormalForm.Add` | kernel/src/levels.c:46-55 | The in-place loop equals the specified sum and changes nothing when it refuses. |
| `LevelArena.NormalForm.Join` | kernel/src/levels.c:60-96 | The in-place merge equals the specified join. |
| `LevelArena.TestLeq` | kernel/src/levels.c:307-325 | The two-pointer loop equals the order test. |
| `LevelArena.LevelKernel.Ready` | kernel/src/levels.c:156-200 | A level that the memo, a constant or a variable decides gets its own normal form; otherwise a frame whose pending work is the level's. |
| `LevelArena.LevelKernel.Traverse` | kernel/src/levels.c:202-241 | The worklist with its collision-losing memo returns the recursive normal form of every shared level graph, whatever the memo held. |
| `LevelArena.LevelKernel.LevelNormal` | kernel/src/levels.c:249-263 | As Traverse, from an empty memo; a refusal means that the level has no normal form, exhaustion that the budget ended. |
| `LevelArena.LevelKernel.LevelEqual` | kernel/src/levels.c:335-348 | Without failure: true exactly when the two levels agree under every assignment, including on the path for small constants. |
| `LevelArena.LevelKernel.LevelLeq` | kernel/src/levels.c:350-361 | Without failure: true exactly when the first is at most the second under every assignment. |
| `LevelArena.LevelKernel.LevelLimit` | kernel/src/levels.c:393-403 | The returned level is the supremum over the variable under every assignment. |
| `LevelArena.Build` | kernel/src/levels.c:274-293 | The loops build syntax that normalizes to the given form. |
| `Probing.PlacedReachable` | kernel/src/term_store.c:192-201 | A handle put in the first free slot of its probe sequence is found by probing, past stale handles. |
| `Probing.KeptReachable` | kernel/src/term_store.c:192-201 | Writing to a slot loses no other handle. |
| `Arena.Kernel.Intern` | kernel/src/term_store.c:192-201 | The probe loop ends at a free slot or a stale handle and indexes the new handle without losing any. |
| `Arena.Kernel.Rebuild` | kernel/src/term_store.c:205-214 | The grown table has a slot to spare and finds every live handle. |
| `Arena.Kernel.InternReserve` | kernel/src/term_store.c:205-214 | After it, one more handle fits with the table at most half full. |
| `Arena.Kernel.Lookup` | kernel/src/term_store.c:259-274 | Probing returns the node's handle, and returns none only if no live node equals it. |
| `Arena.Kernel.Make` | kernel/src/term_store.c:216-340 | The returned handle is the node's only handle, or a new one if it had none; failure leaves the nodes as they were and has one of the source's causes (arity and children, payload, depth 512, handle space). |
| `Compaction.SharedIsCanonical` | kernel/src/term_store.c:255-274 | With sharing, two handles are equal exactly when the syntax they unfold to is. |
| `Arena.Kernel.Checkpoint` | kernel/src/checkpoint.c:5-17 | Records the counts and every signature's state; everything else is unchanged. |
| `Arena.Kernel.Rollback` | kernel/src/checkpoint.c:29-43 | Nodes, definitions and what every signature says are again as they were when the checkpoint was taken, whatever was made, added to a signature or closed since; the cache is empty and every live node findable although the table is not touched. |
| `Arena.MarkReachable` | kernel/src/checkpoint.c:88-96 | The one backward pass marks exactly the nodes reachable from the roots. |
| `Arena.CompactInPlace` | kernel/src/checkpoint.c:102-109 | Overwriting marks by new handles while nodes move down computes the compacted arena and the relocation together. |
| `Compaction.CompactedUnfold` | kernel/src/checkpoint.c:102-119 | Every kept handle unfolds to the same syntax after relocation. |
| `Compaction.MovedInjective` | kernel/src/checkpoint.c:45-50 | Relocation is injective and increasing on kept handles and fixes those below the checkpoint. |
| `Compaction.CompactedBackward` | kernel/src/checkpoint.c:102-109 | Children still precede their parents. |
| `Compaction.CompactedShared` | kernel/src/checkpoint.c:102-119 | No two live nodes are the same after a commit. |
| `Arena.Kernel.Reindex` | kernel/src/checkpoint.c:116-117 | Interning the survivors again makes every live node findable, in the table as it is, without growing it. |
| `Arena.Kernel.Commit` | kernel/src/checkpoint.c:71-123 | Refused exactly without a checkpoint, after a failure or with an open signature. Otherwise every definition's value and type and every signature's terms and constructor types unfold to the syntax that they did; every new reference to a definition has a new handle; a handle from the checkpoint up is relocated, with its syntax, exactly if it stands in one of these, and to 0 otherwise; and the handles below stay. |
| `Compaction.KeptIsPart` | kernel/src/checkpoint.c:88-96 | What the backward pass keeps is exactly the syntax of the roots. |
| `Arena.CommittedExactly` | kernel/src/checkpoint.c:77-109 | The roots told one by one: values and types of the definitions since the checkpoint, all signatures' syntax, new references; these and their parts survive, and nothing else. |
| `Arena.CommittedValid` | kernel/src/checkpoint.c:71-123 | What a commit leaves again satisfies every invariant of the arena, so runs continue. |
| `Arena.DefinitionsRelocate` | kernel/src/checkpoint.c:110-114 | Every definition's value and type unfold to the same syntax as before. |
| `Arena.SignaturesRelocate` | kernel/src/checkpoint.c:52-69 | Every recorded signature term and constructor type unfolds to the same syntax as before. |
| `Interning.InternedOnce` | kernel/src/term_store.c:255-274 | Making a node has one possible outcome: the handle and the graph are determined. |
| `Graphs.RunsAgree` | kernel/src/term_store.c:255-274 | Over every run of requests, the hash graph and a search for an equal node return the same handles and build the same graph. |
| `Graphs.CommitKeepsForms` | kernel/src/checkpoint.c:71-123 | After a commit the compacted nodes again form a graph in which every kept handle has the nameless form it had, so no later comparison or substitution can tell. |
| `TermStore.NewMasksOk` | kernel/src/term_store.c:310-334 | A new node's symbol filter and dimension mask, taken from its payload and children, contain every free name of its form. |
| `TermStore.LiftedSubstitution` | kernel/src/term_substitution.c:471-491 | Substitution on native clause lists is substitution on the atoms of nameless forms. |
| `TermStore.NodeNames` | kernel/src/term_substitution.c:83-166 | The free symbols and dimensions of a node's form, from its payload and children: a composition's direction is bound in its family and tube bodies and free in tube faces, and a homogeneous one does not bind its type. |
| `Store.Kernel.Make` | kernel/src/term_store.c:216-340 | A node's handle has the node's nameless form; the new node is interned and every mask, filter and memo entry stays correct. |
| `Store.Kernel.Intern` | kernel/src/term_store.c:363-387 | The returned formula has the same sort and clause set. |
| `Store.Kernel.FreshSymbol` | kernel/src/term_store.c:407-413 | The returned symbol is at or above the supply, hence free in no form made before, or the space is exhausted. |
| `Store.Kernel.FreshDimension` | kernel/src/term_substitution.c:168-174 | A dimension outside the avoided set, or failure when all 64 are in it. |
| `Store.Kernel.MemoGet` | kernel/src/syntax_cache.c:14-24 | A hit is a correct answer to exactly this question, for any hash and any earlier collisions. |
| `Store.Kernel.MemoPut` | kernel/src/syntax_cache.c:26-39 | Overwriting a slot keeps every entry correct. |
| `Scans.TermFree` | kernel/src/term_substitution.c:15-81 | Without failure the worklist answers whether the symbol is free in the term's nameless form. |
| `Scans.FreeDimensions` | kernel/src/term_substitution.c:101-166 | Without failure the answer is exactly the free dimensions; masks stay supersets and are exact once marked known, also after a scan that the budget cut short. |
| `Scans.DimStep` | kernel/src/term_substitution.c:101-166 | Each step keeps the explicit stack at most as high as the depth recorded for the scanned term. |
| `Nameless.RenameTermNode` | kernel/src/term_substitution.c:567-592 | Renaming a term binder to a symbol that is not free in its body does not change the form. |
| `Nameless.RenameDimNode` | kernel/src/term_substitution.c:527-566 | Renaming a dimension binder to a spare dimension does not change the form, with tube bodies renamed and tube faces not. |
| `Nameless.SubstTermNode` | kernel/src/term_substitution.c:586-640 | If a node's binders are free in no part of the value, substituting in its children is substituting in its form. |
| `Nameless.SubstDimNode` | kernel/src/term_substitution.c:493-655 | As SubstTermNode, for a dimension: a shadowed direction still meets the faces of its tubes but not their bodies. |
| `Substitution.SubstituteFormula` | kernel/src/term_substitution.c:471-491 | A registered formula becomes one with the substituted clauses, of the same sort. |
| `Substitution.TermReady` | kernel/src/term_substitution.c:373-390 | What the memo, the filter or the variable itself answers is the goal; anything else starts a frame in good order. |
| `Substitution.DimensionReady` | kernel/src/term_substitution.c:392-414 | As TermReady, for dimensions; a term without the dimension is returned as it is. |
| `Substitution.Push` | kernel/src/term_substitution.c:432-469 | A request is answered or starts a frame, within the bound of the stack. |
| `Substitution.SpareDimension` | kernel/src/term_substitution.c:533-549 | The spare direction is free neither in the node nor in the value and is not the substituted dimension. |
| `Substitution.Traverse` | kernel/src/term_substitution.c:493-655 | The continuation loop, with delegation to tube lists and renaming of binders on demand, ends with a term whose form is the request's goal. |
| `Substitution.Substitute` | kernel/src/term_substitution.c:657-666 | For every term, name and value: without failure the result's nameless form is the input's with the variable replaced, so no binder of either namespace captured a name of the value. |
| `Substitution.DimensionSubstitute` | kernel/src/term_substitution.c:668-680 | For every term, dimension and interval value: without failure the result's form is the input's with the dimension replaced. Node by node, each formula has at every point the value that the original has where the dimension is the value. |
| `Substitution.EndpointTerm` | kernel/src/term_substitution.c:791-801 | Each formula of the result has at every point the value that the original has with the dimension at that end: at 1 for endpoint 1, and at 0 for endpoint 0. |
| `Substitution.Restrict` | kernel/src/term_substitution.c:803-812 | Each formula of the result has at every point the value that the original has with every dimension of the face at its end. |
| `SubstitutionLaws.SubstTermFree` | kernel/src/term_substitution.c:657-666 | The free symbols after substitution: those of the term without the name, with the value's if the name was free. |
| `SubstitutionLaws.SubstTermTwice` | kernel/src/term_substitution.c:657-666 | Two substitutions of different names exchange, substituting in the value. |
| `SubstitutionLaws.SubstDimTwice` | kernel/src/term_substitution.c:668-680 | Two substitutions for dimensions compose, substituting in the value. |
| `SubstitutionLaws.SubstDimMoves` | kernel/src/term_substitution.c:668-680 | The substituted form is the original with every formula evaluated where the dimension is the value and its reversal the reversed value. |
| `SubstitutionLaws.MovesDetermine` | kernel/src/term_substitution.c:668-680 | That determines the form: two forms in normal form with the same values are the same. |
| `SubstitutionLaws.AtEndMoves` | kernel/src/term_substitution.c:791-801 | The form at an end is the original with every formula evaluated with the dimension at that end. |
| `SubstitutionLaws.RestrictedMoves` | kernel/src/term_substitution.c:803-812 | The restricted form is the original with every formula evaluated with the face's dimensions at their ends. |
| `SubstitutionLaws.SubstTermUnit` | kernel/src/term_substitution.c:657-666 | Replacing a variable by itself changes nothing, and a variable itself becomes the value. |
| `SubstitutionLaws.SubstDimThroughTerm` | kernel/src/term_substitution.c:657-680 | Substitution for a dimension passes through substitution for a term. |
| `SubstitutionLaws.AtEndTwice` | kernel/src/term_substitution.c:791-801 | A second endpoint in the same dimension has no effect. |
| `SubstitutionLaws.AtEndSwap` | kernel/src/term_substitution.c:791-801 | Endpoints in different dimensions exchange. |
| `SubstitutionLaws.RestrictedDims` | kernel/src/term_substitution.c:803-812 | A restricted term mentions none of the dimensions that the face fixes, and no new ones. |
| `SubstitutionLaws.RestrictedTwice` | kernel/src/term_substitution.c:803-812 | Restricting to two consistent faces in turn is restricting to their join. |
| `LocallyNameless.CloseOpen` | kernel/src/term_substitution.c:755-770 | Closing at a level undoes opening at it, for every term whose levels are below it. |
| `LocallyNameless.OpenClose` | kernel/src/term_substitution.c:755-770 | Opening at a level undoes closing at it, for every locally closed term. |
| `LocallyNameless.AbstractInstantiated` | kernel/src/term_substitution.c:717-751 | Abstracting the reference that an index was instantiated with gives the term back exactly when the term did not contain the reference. |
| `LocallyNameless.InstantiateAbstracted` | kernel/src/term_substitution.c:717-751 | Instantiating with the abstracted reference gives the term back exactly when the index did not occur in it. |
| `LocallyNameless.InstantiateByOpening` | kernel/src/term_substitution.c:717-759 | Instantiating is opening at an unused level and then replacing the opened leaf. |
| `LocallyNameless.TelescopeOneByOne` | kernel/src/term_substitution.c:717-741 | A telescope of locally closed values instantiated at once is its binders one by one. |
| `LocallyNameless.InstantiateLoose` | kernel/src/term_substitution.c:717-741 | Instantiating all loose indices with locally closed values leaves none. |
| `LocallyNameless.InstantiateClosed` | kernel/src/term_substitution.c:312-336 | A term without indices at or above the depth is unchanged, which is why such terms are pruned. |
| `LocallyNameless.IndexUnder` | kernel/src/term_store.c:316-334 | Functions and their types, and no other kind, count one binder over their second child and none over the others, for instantiation, abstraction and the loose counter alike. |
| `OpeningFrames.LooseRecorded` | kernel/src/term_store.c:316-334 | The loose counter that a node records is that of its form, in every graph. |
| `OpeningFrames.LevelsRecorded` | kernel/src/term_store.c:316-334 | The opened counter that a node records is that of its form, in every graph. |
| `OpeningFrames.Unmentioned` | kernel/src/term_substitution.c:303-308 | A term that the pruning tests skip already is its own answer. |
| `OpeningFrames.RebuiltOk` | kernel/src/term_substitution.c:493-655 | Rebuilding a node from its children's answers: the form is the instantiated one exactly when nothing below was captured and the node's own term binder captures nothing. |
| `LocallyNameless.ExactNode` | kernel/src/term_substitution.c:493-655 | The reason for the converse in InstantiateAll: each capture removes a free occurrence, and nothing else in the tree can restore it. |
| `OpeningFrames.NamedLambdaCaptures` | kernel/src/term_substitution.c:702-716 | The input on which instantiation captures: in `LAM x. BOUND(1)` the value `VAR x`, which is locally closed. |
| `Openings.Opener.Occurs` | kernel/src/term_substitution.c:220-282 | The memoized scan answers whether the index occurs in the form. |
| `Openings.Opener.InsertedDims` | kernel/src/term_substitution.c:353-368 | The dimensions collected for a binder cover those of every value inserted below it, and the binder is in them only if it would capture. |
| `Openings.Opener.Traverse` | kernel/src/term_substitution.c:493-655 | The pruned, memoized worklist answers the operation at every depth, with dimension binders renamed where a value would be captured. |
| `Openings.Opener.InstantiateAll` | kernel/src/term_substitution.c:717-736 | For every term and values, closed or not: without failure the result has the instantiated form if and only if no named LAM or PI above an inserted value binds a symbol free in it. Dimensions are never captured. |
| `Openings.Opener.InstantiateOne` | kernel/src/term_substitution.c:739-741 | As InstantiateAll, for one value. |
| `Openings.Opener.AbstractEntry` | kernel/src/term_substitution.c:746-751 | The result's form has every reference to the entry replaced by the index, unconditionally. |
| `Openings.Opener.OpenAt` | kernel/src/term_substitution.c:755-759 | The result's form is the body opened at the level, unconditionally. |
| `Openings.Opener.CloseAt` | kernel/src/term_substitution.c:765-770 | The result's form is the term closed at the level, unconditionally. |
| `Openings.Opener.NextSerial` | kernel/src/term_substitution.c:706-736 | A new serial names this call's values; when serials run out the memo is emptied first, so an entry never answers for another call's values. |
| `Openings.LevelSupply.Above` | kernel/src/term_substitution.c:775-778 | Afterwards the next level is at or above every level in the operand. |
| `Openings.LevelSupply.Take` | kernel/src/term_substitution.c:783-788 | Levels are handed out once each, and refused exactly when the space is exhausted. |
| `Scopes.SameNameRelated` | kernel/src/term_conversion.c:77-89 | Walking the linked bindings relates two names exactly when they resolve to the same binding, or are the same name and both free. |
| `Scopes.ListEqual` | kernel/src/term_conversion.c:123-169 | The loops compare two clause lists up to the renaming of the scope. |
| `Scopes.ListsSameRenamed` | kernel/src/term_conversion.c:123-169 | That comparison holds exactly when the two formulas are the same after renaming each side by its own names. |
| `Views.NodeSame` | kernel/src/term_conversion.c:303-357 | Two nodes are the same under a scope exactly when their payloads and children are, with the scope extended where the binder binds. |
| `Views.Dropped` | kernel/src/term_conversion.c:223-229 | A scope whose names are free on neither side can be dropped without changing the answer. |
| `Views.ViewsAlike` | kernel/src/term_conversion.c:399-401 | With no scope, sameness is being alike: the nameless forms agree in every kind, payload and child but the payload of an application and the annotation of a path application. |
| `Views.PlainAlike` | kernel/src/term_conversion.c:303-357 | Of forms without applications and path applications nothing is passed over: they are alike only if equal. |
| `Alpha.GoalSplits` | kernel/src/term_conversion.c:303-357 | What a frame has to decide is the conjunction of what it asks of its children. |
| `Alpha.Comparer.Bind` | kernel/src/term_conversion.c:44-66 | The returned scope is the old one with the pair added; identifiers stay in one-to-one correspondence with chains of bindings although the table loses entries. |
| `Alpha.Comparer.Prune` | kernel/src/term_conversion.c:223-229 | Pruning a scope changes no answer. |
| `Alpha.Comparer.Lookup` | kernel/src/term_conversion.c:230-241 | A hit in the lossy memo is the right answer, for every earlier sequence of queries. |
| `Alpha.Comparer.Completed` | kernel/src/term_conversion.c:197-209 | Filing an answer under the pruned, collapsed scopes keeps every entry right. |
| `Alpha.Comparer.FormulaEqual` | kernel/src/term_conversion.c:146-169 | Formula payloads agree exactly when they are the same under the scope. |
| `Alpha.Comparer.Traverse` | kernel/src/term_conversion.c:303-357 | The frame loop ends with the answer of its root. |
| `Alpha.Comparer.Compare` | kernel/src/term_conversion.c:382-401 | Without failure: equal exactly when the two terms' nameless forms are alike, whatever earlier queries left in the memo and the scope table. The rules below say kind by kind when nodes are alike. |
| `Binding.LambdasAlike` | kernel/src/term_conversion.c:315-346 | Functions, and their types, are equal exactly when their domains are and their bodies are with the two bound names replaced by one that is free in neither. |
| `Binding.PathsAlike` | kernel/src/term_conversion.c:315-346 | Path types and transports: the direction is bound in the first child only. |
| `Binding.AbstractionsAlike` | kernel/src/term_conversion.c:315-346 | Path abstractions: the direction is bound in the family and the body. |
| `Binding.CompositionsAlike` | kernel/src/term_conversion.c:315-346 | Compositions: the direction is bound in the family and the tubes' bodies; the tubes' faces are compared as they are. |
| `Binding.HomogeneousAlike` | kernel/src/term_conversion.c:315-346 | Homogeneous compositions: as compositions, but the type is compared as it is. |
| `Binding.ApplicationsAlike` | kernel/src/term_conversion.c:303-346 | Of an application the payload, and of a path application the annotation, is passed over, and nothing else. |
| `Binding.FormulasCount` | kernel/src/term_conversion.c:146-169 | Two registered formulas are the same payload exactly when they have one sort and one value at every point. |
| `Binding.HomogeneousDims` | kernel/src/term_substitution.c:101-166 | The free dimensions of a homogeneous composition: all of its type's, all of its faces', and its bodies' but the direction. |
| `Binding.CompositionDims` | kernel/src/term_substitution.c:101-166 | The free dimensions of a composition: its family's and its bodies' but the direction, and all of its faces'. |
| `Binding.PathDims` | kernel/src/term_substitution.c:101-166 | Path types and transports lose the direction in their first child only. |
| `Binding.AbstractionDims` | kernel/src/term_substitution.c:101-166 | Path abstractions lose the direction in both children. |
| `Binding.LambdaTerms` | kernel/src/term_substitution.c:7-81 | Functions and their types, and no other kind, bind their name, in the body. |
| `Binding.FormulaDims` | kernel/src/term_substitution.c:83-166 | Path applications and tubes have the dimensions of the formula that their payload names. |
| `Binding.CompositionShadows` | kernel/src/term_substitution.c:576-640 | Replacing a composition's own direction reaches the tubes' faces and not their bodies, and the type of a homogeneous composition but not the family of another. |
| `Index.Table.Find` | kernel/src/instructions.c:114-136 | Probing finds the key's fact or entry, and reports none only if no live one has it. |
| `Index.Table.Add` | kernel/src/instructions.c:86-110 | A new key is indexed, growing the table when it is half full, and every live key stays findable. |
| `Index.Table.Truncated` | kernel/src/checkpoint.c:22-28 | After truncation every live key is still findable: stale slots need no cleaning. |
| `Contexts.OneDimension` | kernel/src/instructions.c:459-481 | A context holds at most one dimension entry for an index. |
| `Contexts.UnionOk` | kernel/src/instructions.c:251-280 | A union of two contexts is closed under its entries' own contexts. |
| `Contexts.DifferenceOk` | kernel/src/instructions.c:290-315 | A context without some entries is closed if no remaining entry needs one of them. |
| `Contexts.NoConflict` | kernel/src/instructions.c:251-280 | In a store in order, merge's refusal of two dimension entries for one index is never reached. |
| `Contexts.OnlyNeedsBlock` | kernel/src/instructions.c:290-315 | Discharge refuses only for entries whose context needs a removed one; its separate test on scopes never refuses by itself. |
| `Judgements.Graph.Contains` | kernel/src/instructions.c:216-227 | Binary search decides membership. |
| `Judgements.Graph.Merge` | kernel/src/instructions.c:251-280 | The result is the union, strictly increasing and closed; refused only by an earlier failure or a full store. |
| `Judgements.Graph.Discharge` | kernel/src/instructions.c:290-315 | The result is the set difference, strictly increasing and closed; refused exactly when a remaining entry needs a removed one, besides an earlier failure or a full store. |
| `Judgements.Graph.Bind` | kernel/src/instructions.c:318-321 | The result is the context without the entry, with what the entry needs. |
| `Judgements.Graph.OnFace` | kernel/src/instructions.c:522-539 | The loop ends having removed exactly the face entries that the clause implies; refused only if a remaining entry needs one of them, besides an earlier failure or a full store. |
| `Contexts.StaysOnHolds` | kernel/src/instructions.c:522-539 | By points: what is removed is exactly the face entries that hold at every point where the clause does. |
| `Judgements.Graph.ExtendTerm` | kernel/src/instructions.c:365-403 | One entry per symbol: a second extension returns the same entry, and only for the same type. |
| `Judgements.Graph.ExtendLevel` | kernel/src/instructions.c:409-440 | One entry per symbol, a level entry; a symbol that another entry has is refused. |
| `Judgements.Graph.FindEntry` | kernel/src/instructions.c:329-339 | The symbol's only named entry, or none if there is none. |
| `Judgements.Graph.DimensionEntry` | kernel/src/instructions.c:459-481 | The index's only dimension entry, made at most once between truncations although the cached id may be stale. |
| `Judgements.Graph.FaceEntry` | kernel/src/instructions.c:485-514 | An entry for the clause; the store's invariant gives it the context of exactly the clause's dimensions. |
| `Judgements.Graph.DimensionContext` | kernel/src/instruction_paths.c:115-128 | The context of exactly the given dimensions. |
| `Judgements.Graph.Begin` | kernel/src/instructions.c:114-136 | A derivation already made returns its judgement; a new one is promised to be new. |
| `Judgements.Graph.Publish` | kernel/src/instructions.c:160-181 | Appends a judgement whose rule was followed, and indexes it; the store stays in order. |
| `Judgements.Graph.Rollback` | kernel/src/checkpoint.c:22-43 | Judgements, entries and contexts return to the checkpoint and the store is in order, with both hash tables untouched. |
| `Rules.Overlapping` | kernel/src/instruction_glue.c:48-62 | The pending mask is exactly the earlier faces whose first conjunction shares a point with the new one's; refused when one of them lies beyond the 64 bits. |
| `Systems.CompatibleHolds` | kernel/src/instruction_glue.c:54-59 | The test on the masks of two clauses holds exactly when some point of the faces satisfies both. |
| `Systems.OverlapHolds` | kernel/src/instruction_paths.c:292-292 | The joined clause holds exactly where both clauses do. |
| `Systems.JointHolds` | kernel/src/instruction_glue.c:48-62 | Two faces have compatible conjunctions exactly when they share a point. |
| `Rules.StartSystem` | kernel/src/instruction_paths.c:150-167 | A new system has the family along the dimension and the base at 0, no tubes, nothing owed, and the union of the premises' contexts; a repeated request returns the earlier judgement and changes nothing. |
| `Rules.AddTube` | kernel/src/instruction_paths.c:207-270 | A tube is added only when nothing is owed, on one consistent clause or none, in the family there and starting at the base; afterwards exactly the earlier tubes that it meets are owed, and the context is the system's with what the premises need on the clause. |
| `Rules.ShowOverlap` | kernel/src/instruction_paths.c:274-299 | An equality of the last tube and an owed one on their joined clause pays that overlap and no other; term and type stay, and the context gains what the equality needs there. |
| `Rules.PayOverlap` | kernel/src/instruction_paths.c:274-299 | The new pending set is the old one without that overlap; a face of several conjunctions is refused. |
| `Rules.CloseComp` | kernel/src/instruction_paths.c:301-317 | Closes only with nothing owed, to the same term at the system's type, and discharges exactly the direction. |
| `Rules.CloseHComp` | kernel/src/instruction_paths.c:336-357 | As CloseComp, to the homogeneous composition. |
| `Rules.CloseTrans` | kernel/src/instruction_paths.c:359-399 | Closes only a composition with nothing owed whose tubes are the face's clauses, each the base there, and replaces the direction by the face's dimensions in the context. |
| `Rules.AddPiece` | kernel/src/instruction_glue.c:64-101 | As AddTube, for a piece whose equivalence is to the base on the clause, at the join of the two universes. |
| `Rules.ShowGlueOverlap` | kernel/src/instruction_glue.c:119-147 | An overlap is paid by two equalities, of the types and of the equivalences. |
| `Rules.CloseGlue` | kernel/src/instruction_glue.c:149-157 | Closes only with nothing owed, with term, type and context as they are. |
| `Rules.StartGlueTerm` | kernel/src/instruction_glue.c:159-177 | Starts from any typing judgement of a Glue type, whatever its faces, and a base of the type's base. |
| `Rules.AddValue` | kernel/src/instruction_glue.c:179-224 | The value for the next piece is in the piece's type with its image the base on the first conjunction of the face, as the code reads it; exactly the earlier values whose first conjunctions meet it are owed. |
| `Rules.CloseGlueTerm` | kernel/src/instruction_glue.c:226-239 | Closes only with a value for every piece and nothing owed. |
| `Rules.TubeFact` | kernel/src/instruction_paths.c:207-270 | Adding a tube keeps every judgement of the store justified. |
| `Rules.ClosedFact` | kernel/src/instruction_paths.c:301-317 | Closing keeps every judgement of the store justified. |
| `Systems.ClosedTubesAgree` | kernel/src/instruction_paths.c:207-357 | In every store in order, a composition closed by Comp or HComp had, for every two tubes whose faces are jointly consistent, an earlier equality on the joined clause. |
| `Systems.ClosedTransportAgrees` | kernel/src/instruction_paths.c:359-399 | The same for the composition that a closed transport came from, whose tubes are constant. |
| `Systems.ClosedPiecesAgree` | kernel/src/instruction_glue.c:64-157 | In every store in order, a Glue type closed by Glue had its pieces' types and equivalences shown equal on every joint clause. |
| `Agreement.ClosedTubesEqual` | kernel/src/instruction_paths.c:207-357 | For every reading of terms at a point of which sameness, restriction and the earlier equality judgements are true: any two tubes of a closed composition have one value there if the point is on both faces. |
| `Agreement.ClosedTubesStart` | kernel/src/instruction_paths.c:207-317 | For every such reading, the 0 end of each tube is the base at every point of its face. |
| `Agreement.ClosedTubesFit` | kernel/src/instruction_paths.c:207-270 | Each tube of a closed composition is restricted to its one consistent clause, which leaves the direction free, and has the family's type there. |
| `Agreement.ClosedPiecesEqual` | kernel/src/instruction_glue.c:64-157 | For every such reading, two pieces of a closed Glue type have one type and one equivalence at every point of both faces. |
| `Agreement.ClosedPiecesFit` | kernel/src/instruction_glue.c:64-101 | Each piece of a closed Glue type is restricted to its one consistent clause, with an equivalence to the base there. |
| `Agreement.FirstsMeetHolds` | kernel/src/instruction_glue.c:48-62 | The condition under which values agree, by points: where two faces meet at all, their first conjunctions do somewhere. |
| `Agreement.ClosedValuesEqual` | kernel/src/instruction_glue.c:179-239 | Under that condition, two values of a closed Glue term are one at every point of both faces, for every such reading. |
| `Agreement.ClosedBaseEqual` | kernel/src/instruction_glue.c:179-239 | With one conjunction on each face, a value's image is the base at every point of its face, for every such reading. |
| `GlueTerms.ClosedIsClosable` | kernel/src/instruction_glue.c:104-147 | A Glue type with an overlap that the instructions cannot show has no closed term. |
| `GlueTerms.ClosedBaseAgrees` | kernel/src/instruction_glue.c:179-239 | In every store in order: if no face of the Glue type has two conjunctions, a closed term agrees with its base on all of every face. |
| `GlueTerms.ClosedValuesAgree` | kernel/src/instruction_glue.c:179-239 | In every store in order: if the first conjunctions meet wherever the faces do, every two values of a closed term were shown to agree wherever their faces meet. |
| `GlueTerms.BaseUnshown` | kernel/src/instruction_glue.c:189-213 | The converse: for every Glue type that has closed terms and has a face of two conjunctions, a store in order closes a term with no agreement with the base on the second. |
| `GlueTerms.PairUnshown` | kernel/src/instruction_glue.c:48-62 | The converse: for every Glue type that has closed terms and has faces that meet while their first conjunctions do not, a store in order closes a term with no agreement between the two values. |
| `GlueTerms.SubstitutionSplits` | kernel/src/faces.c:43-82 | Substituting `m and k` for i turns the face `i = 0` into the two conjunctions `m = 0` or `k = 0`. |
| `GlueTerms.SplitBaseUnshown` | kernel/src/instruction_glue.c:189-213 | The concrete input for the base: one piece on `(m=0) or (k=0)`. |
| `GlueTerms.SplitPairUnshown` | kernel/src/instruction_glue.c:48-62 | The concrete input for a pair: pieces on `(m=0) or (k=0)` and on `m=1`. |
| `Signatures.ConstructorShape` | kernel/src/signatures.c:286-329 | The telescope loop equals the recognizer. |
| `Signatures.AcceptedPositive` | kernel/src/signatures.c:163-329 | Every accepted constructor type is strictly positive: each argument either mentions none of the sort, its constructors and the positions, or ends in the sort and has them only as heads, in paths and in positional arguments, never in a binder's type, an arity or a data term. |
| `Signatures.PositiveNeverLeft` | kernel/src/signatures.c:163-329 | In a strictly positive type, none of these names occurs in a binder's type or under another operation anywhere in an argument. |
| `Signatures.AcceptedCounts` | kernel/src/signatures.c:286-329 | The recorded counts are the true ones: data arguments precede positions, all arguments are counted once and within the bound, dimensions are the paths of the result, data domains do not mention the sort, and position domains end in it. |
| `Signatures.AcceptedExactly` | kernel/src/signatures.c:286-329 | Every type is accepted that has data arguments, unused names of types in which the sort, the constructors and the positions are not free, then positions, unused names of cubes under clean arities, then a cube, within the bounds; and it gets those counts. |
| `Signatures.AcceptedOnly` | kernel/src/signatures.c:286-329 | No other type is accepted. |
| `Signatures.CubeExactly` | kernel/src/signatures.c:260-281 | Accepted cubes are exactly the nested path types of boundaries down to the sort, within the bounds on dimensions and nesting. |
| `Signatures.PositionAccepted` | kernel/src/signatures.c:209-256 | A position is an accepted boundary exactly when applied to as many arguments as its arity, in which no name is free. |
| `Signatures.ConstructorAccepted` | kernel/src/signatures.c:209-256 | An earlier constructor is an accepted boundary exactly when applied to its data, in which no name is free, and to positional arguments. |
| `Signatures.EndpointProper` | kernel/src/signatures.c:209-256 | An accepted boundary term uses positions and constructors only in admissible places. |
| `Signatures.CubeProper` | kernel/src/signatures.c:260-281 | An accepted cube is proper, including inside its boundaries. |
| `Signatures.CubeDimensions` | kernel/src/signatures.c:260-281 | The dimensions counted are the cube's nested paths, within the bound. |
| `Signatures.SquashType` | kernel/src/signatures.c:547-563 | The loops build the specified telescope of spheres. |
| `Signatures.SquashAccepted` | kernel/src/signatures.c:544-583 | For every modifier within the bound the generated squash is accepted, with 0 data, 2·modifier positions and modifier dimensions. |

## Findings

Where the code does less, or more, than its comments say, the model follows the code.

- **Glue terms on a face of several conjunctions.** `cc_instr_glue_term_piece` and `overlapping` read only
  the first conjunction of a face (instruction_glue.c:48-62, 189-213). A Glue type built by the
  instructions has one conjunction for each face, but substituting `m and k` for a dimension
  splits a face in two (`GlueTerms.SubstitutionSplits`), and a term of that type can then be closed
  without agreeing with its base on the second conjunction (`SplitBaseUnshown`), or without two
  values agreeing where their faces meet (`SplitPairUnshown`). `ClosedBaseAgrees` and
  `ClosedValuesAgree` give conditions on the type, readable when the term is begun, under which
  every closed term has the agreement; `BaseUnshown` and `PairUnshown` show that each is exact.
- **Instantiation under named binders.** The comment at term_substitution.c:702-706 says that local closedness
  of the values is enough for no binder to capture them. A named LAM or PI above the
  index captures a symbol of the value (`OpeningFrames.NamedLambdaCaptures`). `Openings.Opener.InstantiateAll`
  gives the exact condition, on the term and the values. Opening, closing and abstraction
  insert no symbols and hold unconditionally.
- **Two refusals that cannot be reached.** In a store in order, merge never meets two dimension
  entries for one index (`Contexts.NoConflict`), and discharge is stopped only by what a remaining
  entry needs, its test on scopes adding nothing (`Contexts.OnlyNeedsBlock`).

## Left out

- Soundness, normalization or canonicity of the type theory, and the computation of compositions and Glue: a meaning for the terms would need a model of cubical type theory.
- Weak-head and full normalization (`term_normalize.c`, `term_expose.c`): whether they end depends on typing.
- Allocation failure, deadlines, the native stack, work counters and error texts: one step budget and one failure flag stand for all of them.
- Optimization flags: sharing and the memos are on throughout.
- Universe levels inside the comparison of terms, and cumulativity (`level_alpha`, `ck_syntactic_cumulative`): levels are decided by themselves, in `LevelArena`.
- `ck_canonical_levels`: only the canonical form of one level is modelled, not its replacement throughout a term.
- Syntax: the reduced kinds keep every binding shape (VAR, BOUND, OPENED, CONTEXT, LAM, PI, APP, PATH, PLAM, PAPP, COMP, HCOMP, TRANS, tube lists); Glue systems, Sort, Con and Elim lists and LEAF's many instances add no new binding and are not distinguished.
- Store.Kernel.Make: has the reduced kinds' payload checks only, and finds an equal node by search; `Arena.Kernel.Make` has the hash graph, with the remaining payload checks a parameter, and `Graphs.RunsAgree` says that the two give the same handles. Neither promises that the two refuse the same requests.
- Openings.Opener.Traverse: renames a dimension binder by a nested traversal where the code delegates within one loop, and keeps its memo in a table of its own rather than the shared one.
- A tube list that is not made of tubes: the kernel never builds one, and the store's invariant says so.
- Clause masks are finite sets of dimensions below 64, not machine words; handles, symbols and levels are naturals with the source's bounds checked where the source checks them.
- Context sets are lists of their own rather than slices of one array of items; the positions of a derivation are compared as values.
- The typing instructions other than those that build compositions and Glue: they publish judgements through `Judgements.Graph.Publish` under the same invariant.
- GlueTerms.BaseUnshown: the closing run is a sequence of judgements that the rules accept in one language in which unequal terms are not the same; their contexts are left empty.
- GlueTerms.PairUnshown: as BaseUnshown.
- Signatures: the context in which an admission is checked, instances of declared types and their substitution, and the budget spent by the recognizer.
- The WebAssembly bridge, the translator, the server and the pages: input, output and untrusted search.
