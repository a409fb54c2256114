# A verified model of Syster's name resolution and interchange graph

Syster parses SysML v2 and KerML text, resolves names across files, and exchanges models as graphs of owned
elements. This project models the stateful parts of that work in Dafny and proves what they promise.

- **Interchange graph.** A model is a map of elements with redundant `owner` pointers and owned lists, plus roots
  (`ModelGraph`). On it: the pass that wraps owned content in generated memberships (`Wrapping`), the edits of the
  change tracker (`Editing`, `Reparenting`, `ChangeTracker`), what the memberships generated by all of these carry
  (`GeneratedMemberships`), whole-graph id renaming and id restoration (`Recompile`), the translation from HIR symbols
  to a model and back (`Integrate` for the functions, `Translate` for the same steps in place), the invariants of the
  encoder (`EncodeSteps`, `EncodeSound`, `EncodeNames`, `GeneratedIds`), what symbols, imports and relationships are
  encoded as (`BuildFrames`, `SymbolEncoding`, `ImportEncoding`, `EdgeEncoding`), what any model is read as
  (`ModelReading`), and the round trip (`EncodeViews`, `RoundTrip`). `ElementKinds` holds both kind enumerations.
- **Name resolution.** Enclosing scopes found forwards and backwards (`Scopes`), the symbol index whose slots are
  never reclaimed (`Indexing`), import processing on arbitrary import graphs (`Imports` for one import, `ImportRuns`
  for the recursive pass with its log, `SkippedImports` for imports of a target that is imported already), the
  iterated inheritance propagation (`Inheritance`, with `InheritanceChains` for its limit), the resolver (`Resolver`),
  its worklist over supertypes (`InheritedSearch`), the depth-first member search (`MemberSearch`), the search in the
  context of a redefinition (`RedefinitionContext`, with `EarlyRedefinition` for one that comes too early), and the
  type-reference pass with its caches, which writes into the symbols that resolution reads (`ResolutionStability`,
  `ResolutionCache`).
- **What names mean.** For each of these searches a description that does not follow its steps: positions of
  separators, first and last entries, answers of scopes on a chain (`Segments`, `ParentScopes`). The searches are
  proved equivalent to it: `NameLookup` for resolution, `ImportTargets` and `ImportedNames` for imports,
  `SupertypeTargets` for supertypes, `BaseTypes` and `InheritedMembers` for annotations and inheritance,
  `MemberLookup` for the member search, `RedefinitionLookup` for the context of a redefinition, and `ReferenceTargets`
  for where references are resolved from and written to.
- **Small state machines.** Element ids over runs of edits and rebuilds (`Analysis`), and the double-checked-locking
  interner and file set as interleaved steps (`Interning`, `InternProgress`).

Code that changes state appears as classes and methods with loops, each proved equal to a function of the old
state; the properties are lemmas about those functions and invariants over every run. Where the code falls short of
a property, an input shows it and the exact condition under which the property holds is proved:

- adding and then removing an element (`EditSpec.AddThenRemoveRestores`, `EditSpec.EmptyMembershipIsLost`);
- moving a slot out of its specialised wrapper (`Reparenting.MoveOverwritesSpecialWrapper`,
  `Reparenting.MovedVerifySlotIsListedTwice`);
- several keywords on one slot (`RoundTrip.SymbolReturns`, `RoundTrip.MixedSlotChanges`);
- restoring ids next to literals (`EncodeNames.RestoreFromSymbolsIsIdentity`, `EncodeNames.ClashingNameIsRenamed`);
- the backward walk over enclosing scopes (`Scopes.BackwardVisitsEnclosing`, `Scopes.RootIsVisitedToo`);
- recording what a removal deletes (`ChangeTracking.RemovalIsToldExactly`, `ChangeTracking.SweptEdgeIsLost`);
- finding names that two files share (`Indexing.NamesAreLost`, `Indexing.SharedNameIsLost`);
- children in the parent index (`Indexing.ChildrenAreLive`, `Indexing.EditedFileListsTwice`);
- a second wildcard import of the same target (`SkippedImports.WildcardIsComplete`,
  `SkippedImports.UncoveredIsIncomplete`, `SkippedImports.RecursiveAfterWildcard`);
- inheritance along chains (`InheritanceChains.LongChainsAreCut`, `InheritanceChains.ChainsExist`);
- redefinitions answered before what they depend on (`RedefinitionContext.DecisionStays`,
  `EarlyRedefinition.EarlyChildMissesMember`);
- ids of names that move between files within a batch (`Analysis.BatchKeepsIds`, `Analysis.MovedNameIsRenamed`).

Two things come in as inputs. The scan for a name that merely ends in a target, whose ties depend on hash order,
is an arbitrary map. Extraction is an arbitrary source of ids. All results hold whatever these inputs are.

Where the code and its documentation differ, the code is modelled. `direct_defs` is documented as the symbols that a
scope defines itself, but inheritance propagation writes inherited ones into it too, where other scopes' supertypes
and imports then find them. The read side is documented to tell the eight special keywords apart by the wrapper or
the kind of their slot, but it reads one keyword for all special edges of a slot. The block that stores a symbol's
value occurs twice in a row and so runs twice. A slot in a `RequirementConstraintMembership` or `Verification` is moved
by `reparent` as if it had no wrapper, because neither kind counts as a membership.

## Model

| member | source | states |
|---|---|---|
| ElementKinds.KindConversion | src/interchange/integrate.rs:1071-1136 | a symbol kind survives the conversion to an element kind and back exactly when it is not one of the seven kinds that fold into another |
| ElementKinds.ElementConversion | src/interchange/integrate.rs:378-449 | the other way round, an element kind is read as no particular symbol kind or as one that is written as that kind again, apart from five kinds that are read as a more general one |
| ElementKinds.SymbolElementIsContent | src/interchange/integrate.rs:1071-1136 | import symbols, and no others, become relationship elements |
| ModelGraph.Model.AddElement | src/interchange/model.rs:1241-1252 | inserting keeps a key's position, and an element without an owner becomes a root |
| ModelGraph.Model.AddRel | src/interchange/model.rs:1254-1268 | the inserted edge carries its source, target and owner and becomes no root |
| ModelGraph.Model.ListOwnedMembers | src/interchange/model.rs:1375-1399 | the traversal lists the content below memberships and direct content, in order, and skips other relationships |
| Wrapping.WrapChildrenPreservesTree | src/interchange/model.rs:1415-1468 | wrapping keeps owner and owned lists in agreement and ownership acyclic, and every element that was there keeps its sequence of members and its computed qualified name |
| Wrapping.WrapChildrenWrapsAll | src/interchange/model.rs:1415-1468 | afterwards every content element with a present owner sits under a relationship |
| Wrapping.WrapChildrenIdempotent | src/interchange/model.rs:1415-1468 | a second pass changes nothing |
| Wrapping.WrapChildrenInMemberships | src/interchange/model.rs:1415-1468 | the in-place pass, with its items collected before the first change, computes the wrapped graph |
| GeneratedMemberships.WrappedIsCarried | src/interchange/model.rs:1415-1468 | after the pass every element that had to be wrapped sits, under the owner it had, in a membership that carries it alone: a feature membership exactly if it is a usage or another feature, and otherwise an owning membership |
| GeneratedMemberships.GeneratedCarries | src/interchange/model.rs:393-399 | and every element that the pass generated is such a membership |
| EditSpec.AddThenRemoveRestores | src/interchange/editing.rs:178-305 | removing a fresh childless content element right after adding it restores the element map, its order and the roots, exactly when the owner was not a membership with an empty owned list |
| EditSpec.EmptyMembershipIsLost | src/interchange/editing.rs:238-305 | under an empty membership the restoration fails |
| EditSpec.RemoveKeepsSound | src/interchange/editing.rs:238-305 | after any removal no remaining edge has the id as source or target, owner and owned lists still agree over present ids, and ownership stays acyclic |
| GeneratedMemberships.AddedIsCarried | src/interchange/editing.rs:178-224 | content added under an owner that is no relationship sits in one new membership of the kind that fits it, listed last |
| Reparenting.MoveIsSound | src/interchange/editing.rs:323-410 | moving any element to any present owner, itself and relationships included, loses no element and keeps owner and owned lists in agreement and ownership acyclic exactly when the new owner lies outside the moved subtree; only the id of a wrapper to be generated must be free |
| Reparenting.MoveMembers | src/interchange/editing.rs:323-410 | what is carried leaves the old logical parent's members, is appended to the new parent's, and no other content parent's members change |
| Reparenting.MoveOverwritesSpecialWrapper | src/interchange/editing.rs:375-408 | moving a slot out of its specialised wrapper overwrites that wrapper, and agreement survives exactly when the wrapper's owner is absent or is the new owner |
| Reparenting.MovedVerifySlotIsListedTwice | src/interchange/editing.rs:375-408 | the slot of a `verify` moved to another package: its overwritten wrapper is listed by both packages |
| GeneratedMemberships.MovedIsCarried | src/interchange/editing.rs:375-408 | content moved without its membership to an owner that is no relationship sits there in one new membership of the kind that fits it |
| ChangeTracking.ChangeTracker.AddElement | src/interchange/editing.rs:178-232 | adds under the owner, wrapped when needed, and records exactly the new element and the owner that was touched |
| ChangeTracking.ChangeTracker.RemoveElement | src/interchange/editing.rs:238-305 | takes the element, an emptied wrapper and the edges at the element away, gives the element back, and changes the modified, created and removed sets by exactly the touched owners, the wrapper and the id |
| ChangeTracking.RemovedIsGivenBack | src/interchange/editing.rs:297-304 | what is given back is the element as it was, unless it is an edge that touches itself |
| ChangeTracking.ChangeTracker.AddRelationship | src/interchange/editing.rs:308-320 | inserts the edge unowned and records it and its source |
| ChangeTracking.ChangeTracker.Reparent | src/interchange/editing.rs:323-410 | moves the element or its membership and records exactly the element, the left owner and the new owner |
| ChangeTracking.RemoveIsRecorded | src/interchange/editing.rs:238-305 | an element that survives a removal with a changed value is recorded as modified |
| ChangeTracking.RemovalIsToldExactly | src/interchange/editing.rs:238-305 | what a removal deletes is what it records as removed exactly when no edge but the emptied wrapper is at the element |
| ChangeTracking.SweptEdgeIsLost | src/interchange/editing.rs:283-305 | two elements and an edge: removing one deletes the edge, which no set records |
| ChangeTracking.MoveIsRecorded | src/interchange/editing.rs:323-410 | for any element and any present owner, every element that a move changes is among the recorded ones, except the membership that carries the element |
| Recompile.ApplyMappingIsIsomorphic | src/interchange/recompile.rs:130-195 | a renaming that keeps keys apart commutes with owners, owned lists, roots and edge ends and keeps the element count |
| Recompile.EveryMentionIsRenamed | src/interchange/recompile.rs:130-195 | element by element, in order: an element's own id, its owner, what it owns and both ends of its edge become the ids that they are mapped to, or stay, and nothing else changes |
| Recompile.InverseMappingRestores | src/interchange/recompile.rs:130-195 | applying the inverse of an injective renaming restores the model |
| Recompile.RestoreUndoesRenaming | src/interchange/recompile.rs:32-62 | restoring ids from recorded names undoes any injective renaming of named content with distinct qualified names |
| Recompile.RestoreIsIdentity | src/interchange/recompile.rs:32-62 | restoring changes nothing when every recorded name already has its recorded id |
| Recompile.ApplyIdMapping | src/interchange/recompile.rs:130-195 | the in-place passes over elements, roots and edge ends compute the renamed graph |
| Recompile.RestoreElementIds | src/interchange/recompile.rs:32-62 | the in-place restoration computes the renaming of content by qualified name |
| EncodeSteps.OwnerIsSymbol | src/interchange/integrate.rs:543-549 | the owner of a symbol's element is the element of the symbol whose name encloses it, which is another one with a shorter name |
| EncodeSteps.PlaceSymbolKeepsInvariant | src/interchange/integrate.rs:617-649 | adding a symbol's element and rebuilding all owned lists keeps the build's invariant, in whatever order symbols come |
| EncodeSteps.WrapSlotKeepsInvariant | src/interchange/integrate.rs:964-1036 | wrapping a slot in its specialised membership, also repeatedly, keeps the build's invariant |
| EncodeSteps.EmitValueTwice | src/interchange/integrate.rs:825-924 | running the value block a second time changes nothing but a repeated entry in the owned list |
| EncodeSound.EncodePrefixKeepsInvariant | src/interchange/integrate.rs:456-925 | after every symbol the build's invariant holds: keys unique, owned lists exactly the owner pointers, levels by name, symbols placed, generated ids unused |
| EncodeSound.ModelFromSymbolsIsSound | src/interchange/integrate.rs:456-931 | the model of any symbol list with distinct names and ids, in any order, has agreeing owner and owned lists, no cycle, and no content left unwrapped |
| EncodeNames.ModelQualifiedName | src/interchange/integrate.rs:456-931 | every symbol's element computes the symbol's qualified name through all wrappers |
| EncodeNames.RestoreFromSymbolsIsIdentity | src/interchange/recompile.rs:72-100 | restoring ids from the symbols leaves their model as it is exactly when no symbol has the name that another symbol's literal computes |
| EncodeNames.ClashingNameIsRenamed | src/interchange/recompile.rs:72-100 | a symbol `A` with a literal value and a symbol named like that literal: restoring changes the model |
| ImportEncoding.ImportIsEncoded | src/interchange/integrate.rs:472-530 | in the finished model every import symbol is one edge to what it names without its wildcard, a namespace import if it was written with one and a membership import if not, owned by and starting at the element of the package that it stands in |
| SymbolEncoding.SymbolIsEncoded | src/interchange/integrate.rs:543-649 | every other symbol has one element with its id, names and converted kind, and an alias with the name of what it stands for |
| EdgeEncoding.RelationshipIsEncoded | src/interchange/integrate.rs:652-820 | every relationship but a plain reference, resolved or not, is one edge under its own number, of the kind and with the property that its keyword stands for, from its symbol to where its target's name leads: the symbol of that name, or the one in the nearest enclosing namespace, or what the scan gives, or a stand-in |
| EdgeEncoding.TargetHasStandIn | src/interchange/integrate.rs:743-756 | where the name leads nowhere else there is an external element that carries it |
| EncodeViews.EmitRelationshipsStep | src/interchange/integrate.rs:651-820 | encoding a symbol's relationships adds their edges in order at that symbol, marks its wrapper by the last wrapping keyword, and shows nowhere else |
| EncodeViews.PrefixSight | src/interchange/integrate.rs:456-925 | after a prefix of the list, content is listed in symbol order and each symbol has exactly the edges and the wrapper mark of its own relationships |
| RoundTrip.ReturnedIsKept | src/interchange/integrate.rs:281-376 | the relationships that come back are the original ones without references exactly when all special ones carry the keyword found |
| RoundTrip.BuiltKeyword | src/interchange/integrate.rs:281-376 | the keyword read off the wrapper or the kind is the one of the last wrapping relationship, or else the one the kind stands for |
| ModelReading.EdgeIsRead | src/interchange/integrate.rs:281-376 | in any graph: what keyword an edge is read as, by its kind, the special membership around its source or its source's kind, and exactly when it is refused |
| ModelReading.ModelIsRead | src/interchange/integrate.rs:48-198 | any graph at all is read, its content elements in key order as symbols with all that their edges say in key order, or refused, exactly if some content element starts an edge that is, or as a reference subsetting stands under, a constraint membership that states neither of the two kinds |
| RoundTrip.DecodeUndoesEncode | src/interchange/integrate.rs:48-122 | decoding the encoded model gives the symbols back in order with names, ids, converted kinds and resolved relationships, through the pre-wrapping and the final wrapping |
| RoundTrip.SymbolReturns | src/interchange/integrate.rs:48-122 | a symbol returns with its kind exactly when it is not folded, and with its relationships exactly when its special ones agree with the keyword |
| RoundTrip.MixedSlotChanges | src/interchange/integrate.rs:281-376 | a slot that is required and performed comes back as required twice |
| Translate.TranslateSymbols | src/interchange/integrate.rs:456-931 | the loop that updates a model in place computes the encoded model |
| Translate.RebuildOwnedLists | src/interchange/integrate.rs:624-649 | collecting owner pairs, clearing and refilling lists each element's children in key order |
| Translate.EmitGroupBMembership | src/interchange/integrate.rs:964-1036 | the wrap replaces the slot in its parent's list, and the edge is listed under the slot once |
| Translate.EmitOne | src/interchange/integrate.rs:652-820 | one relationship ends as nothing, a used number, or an edge to a found or stand-in target |
| Translate.SearchAncestors | src/interchange/integrate.rs:703-713 | the walk up the namespaces finds the nearest one that has the target |
| Translate.EmitImport | src/interchange/integrate.rs:473-541 | an import becomes an edge from its package, listed there once |
| Translate.CollectRelationships | src/interchange/integrate.rs:81-115 | the edges that start at an element are decoded in key order, or the first invalid one is reported |
| Translate.CollectSymbols | src/interchange/integrate.rs:48-198 | exactly the content elements are decoded, in key order, or the first error is reported |
| Scopes.FindParentScope | src/hir/resolve.rs:2739-2781 | the byte loop finds the last separator outside angle brackets, with imports cut at their mark |
| ParentScopes.ParentScopeIsFound | src/hir/resolve.rs:2739-2781 | for every name: what precedes its first import mark, or else its last separator that counts, which is one outside brackets whose first colon does not end another |
| Scopes.ParentIsCut | src/hir/resolve.rs:2739-2781 | for balanced names the forward scan and one backward scan find the same separator |
| Scopes.BackwardVisitsEnclosing | src/hir/resolve.rs:1637-1675 | for balanced names without triple colons or an import part the backward walk visits exactly the enclosing scopes, nearest first, exactly when the name does not start with a separator |
| Scopes.RootIsVisitedToo | src/hir/resolve.rs:1637-1675 | for `::A` the backward walk visits the root although there is no non-empty enclosing scope |
| Indexing.NamesFollowHistory | src/hir/resolve.rs:277-421 | after every history, shared and repeated names included, a qualified name leads to its last symbol in the last addition that had one, unless a file that held the name has been changed since; the same for definitions |
| Indexing.FilesFollowHistory | src/hir/resolve.rs:277-421 | after every history a file's symbols are the list that was added last |
| Indexing.IndexRefinesFiles | src/hir/resolve.rs:277-324 | over any history in which no name is in two files at once, qualified lookups, file lists and the count agree with the plain map from files to their last added symbols; a name that is repeated in its file leads to the last of them |
| Indexing.AddFileRepresents | src/hir/resolve.rs:277-324 | adding a file replaces its entries in every list and puts the new ones last |
| Indexing.RemoveFileRepresents | src/hir/resolve.rs:379-421 | removing a file leaves exactly the other files' entries, in every list |
| Indexing.LookupSimpleLists | src/hir/resolve.rs:451-480 | after every history, lookup by simple name lists the live symbols of that name and then those that only have it as short name, passing over qualified names that are listed already |
| Indexing.ListedNamesHaveSlots | src/hir/resolve.rs:379-421 | after every history a simple or short name is listed only as long as it has a slot |
| Indexing.RemoveTakesNames | src/hir/resolve.rs:379-421 | removing a file takes a name away exactly when one of the file's slots has it, whoever owns the entry |
| Indexing.NamesAreLost | src/hir/resolve.rs:379-421 | a name that was ever added leads nowhere exactly when, since it was last added, a file that held it has been changed |
| Indexing.SharedNameIsLost | src/hir/resolve.rs:277-421 | a name declared by two files is lost when the first one is removed, or edited so that the name has moved to the second |
| Indexing.ChildrenAreLive | src/hir/resolve.rs:704-732 | after every history, the children listed for a scope are its live ones exactly when no symbol whose file was changed again has a name that still leads somewhere, and no symbol of the files has a name that leads nowhere |
| Indexing.NoneMissed | src/hir/resolve.rs:704-732 | the second of these never happens while no name is in two files |
| Indexing.EditedFileListsTwice | src/hir/resolve.rs:704-732 | adding the same file twice lists its symbol's dead slot next to the live one |
| Indexing.RunIsKeyed | src/hir/resolve.rs:277-421 | after every history, shared names included, the name maps lead every name to a symbol of that name, one of them to definitions |
| Indexing.SymbolIndex.AddFile | src/hir/resolve.rs:277-324 | the in-place update computes the new index and marks the parent index dirty |
| Indexing.SymbolIndex.RemoveFile | src/hir/resolve.rs:379-421 | the in-place removal computes the new index, drops the visibility maps of the removed names and clears the base-type cache, or changes nothing |
| Indexing.SymbolIndex.EnsureParentIndex | src/hir/resolve.rs:704-732 | afterwards the parent index is current: every scope lists its name-live slots in order |
| Imports.TakingAllMakesVisible | src/hir/resolve.rs:2465-2530 | exactly what a wildcard import makes visible: passing own names, publicly re-exported imports, and descendants for a recursive import |
| Imports.TakingAllCompletes | src/hir/resolve.rs:2465-2530 | after a target has been copied, every name it defines that passes the filters in force is visible, and nothing visible was lost |
| ImportedNames.TakingAllBrings | src/hir/resolve.rs:2453-2612 | what every name shows after a wildcard or recursive import: the scope's own definition; or else the last symbol inside the target that has the annotations asked for, or else what the target exports again, or else the target's definition if it has them; or else what it showed |
| ImportedNames.TakingAllExports | src/hir/resolve.rs:2522-2530 | only a public import of a known target adds to what the scope exports again: the target and its own re-exports, each once; no other scope changes |
| ImportedNames.TakingOneBrings | src/hir/resolve.rs:2535-2563 | after a single import the last segment of the target and the last segment as written show the target, unless the scope defines them, and nothing else changes |
| ImportedNames.WrittenDecides | src/hir/resolve.rs:2426-2436 | the stars at the end of an import's name, and nothing else, decide its kind and are left out of its target |
| Imports.TargetIsCovered | src/hir/resolve.rs:2640-2731 | a resolved import target is a known scope, a symbol, a visible name or the target as written, so the pairs to visit are finitely many |
| ImportTargets.TargetIsResolved | src/hir/resolve.rs:2640-2731 | an import's target is, exactly: a qualified name that is a known scope; or what its parent's own target names, as a scope inside it, its first child of that short name or a visible name; or for a simple name what the scope's map shows; or the known scope of that name in the nearest enclosing scope; or the name as written |
| ImportRuns.ImportPass.ProcessImports | src/hir/resolve.rs:2409-2565 | ends on every import graph; appends genuine events only to the log, leaves nothing unfinished, and deals with every import of the scope: its target is resolved against the maps of that moment and that pair is visited, or that name added |
| ImportRuns.ImportPass.TakeAll | src/hir/resolve.rs:2453-2533 | if the pair of the import's resolved target has been visited nothing happens; else it is visited, all imports of the target are dealt with, and last the target's names are copied under this import's filters, once |
| ImportRuns.ImportPass.ProcessParent | src/hir/resolve.rs:2437-2452 | the package of a single import is marked afterwards, and if it was not before, its own imports have been dealt with in between |
| ImportRuns.ImportPass.TakeOne | src/hir/resolve.rs:2535-2563 | a single import adds its name for exactly what it resolves to at that moment, after its package has been marked |
| ImportRuns.ProcessAllImports | src/hir/resolve.rs:2202-2209 | over all scopes, in any order: the finished maps are the replay of a genuine log with nothing unfinished, and every import of every scope has been dealt with |
| ImportRuns.VisitedIsComplete | src/hir/resolve.rs:2453-2533 | after a finished pass every visited pair was visited by an import that resolved to exactly its target at that moment and taken by it once the target's own imports were dealt with; the target's names that pass, the descendants, and what the target re-exported when it was taken are visible, and re-exported on by a public import |
| ImportRuns.WildcardIsTakenUp | src/hir/resolve.rs:2453-2533 | every wildcard import resolved at some moment to a target whose pair is visited, and all that the import which took this pair promises is visible |
| SkippedImports.WildcardIsComplete | src/hir/resolve.rs:2456-2463 | all that a wildcard import promises is visible if the import that took its target asks for no annotation that this one does not ask for, and takes descendants if this one does |
| SkippedImports.UncoveredIsIncomplete | src/hir/resolve.rs:2456-2463 | for any two imports of which the first does not cover the second in this way there is a finished pass that leaves a name hidden which the second promises |
| SkippedImports.RecursiveAfterWildcard | src/hir/resolve.rs:2456-2463 | `import B::*` followed by `import B::**` does not import what lies two levels below B |
| ImportRuns.SingleIsVisible | src/hir/resolve.rs:2535-2563 | the name of every single import is visible in the end |
| ImportRuns.ReplayExtends | src/hir/resolve.rs:2409-2565 | as the pass goes on no visible name is lost and no direct definition changes |
| ImportRuns.NotYetTaken | src/hir/resolve.rs:2456-2463 | a pair is taken at most once, also on cyclic import graphs |
| ImportRuns.ImportsAreSourced | src/hir/resolve.rs:2409-2612 | every imported name has a source: the first map of its scope or of a target that was taken, a descendant that a recursive import took under its filters, or a single import that resolved to exactly that name |
| Inheritance.InheritFromSupertypes | src/hir/resolve.rs:2231-2296 | stopping without progress means every supertype's definitions are in its subtype; nothing is overwritten or invented; fewer missing names than passes guarantee it; edges that are in depth order already are passed over in that order |
| Inheritance.PropagateInheritedMembers | src/hir/resolve.rs:2260-2296 | the same for any order of the edges; the result is always that of as many passes as the limit allows |
| Inheritance.PropagateOnce | src/hir/resolve.rs:2264-2294 | a pass without progress has left the maps alone and found every edge closed against them |
| SupertypeTargets.SupertypeIsResolved | src/hir/resolve.rs:2301-2385 | an edge is resolved to exactly its supertype: the symbol of exactly that name, or else the first answer other than the edge's own scope from its parent scope up to the root, each scope asked for a symbol inside it and then for what its map shows |
| SupertypeTargets.UnresolvedHasNone | src/hir/resolve.rs:2301-2385 | an edge is resolved to nothing exactly when nothing on that way answers with another scope |
| SupertypeTargets.StableMapsInherit | src/hir/resolve.rs:2231-2296 | in maps that propagation leaves alone the scope of every live symbol defines every name that its supertype defines |
| InheritanceChains.LongChainsAreCut | src/hir/resolve.rs:2260-2296 | along a chain whose edges come from its start on, a member reaches the start, and the maps are a fixpoint, exactly when the chain is no longer than the limit on passes |
| InheritanceChains.ChainsExist | src/hir/resolve.rs:2231-2258 | symbols that each specialise the next by its simple name give such a chain of every length, at the root and inside a package |
| Inheritance.NeverResolvesToItself | src/hir/resolve.rs:2301-2385 | no scope is resolved as its own supertype |
| Resolver.ResolveIsLive | src/hir/resolve.rs:2955-3102 | resolution ends on every name and scope and returns only live symbols |
| Resolver.ResolveIsLexical | src/hir/resolve.rs:2964-3042 | a simple name resolves to the first answer over the enclosing scopes, each asked directly, by import, then by inheritance, and otherwise to the symbol of that exact name |
| NameLookup.SimpleNameIsLookedUp | src/hir/resolve.rs:2964-3042 | a simple name resolves to exactly what the first answering scope on the way to the root says: the live symbol that it defines under the name, or else imports, or else inherits; or else to the symbol of that name |
| NameLookup.PathIsFollowed | src/hir/resolve.rs:3044-3102 | a path that is no exact name is followed from what its first segment resolves to, an alias standing for what it names; its last segment is what the scope reached shows, or else what is simply inside it |
| NameLookup.ResolveMeans | src/hir/resolve.rs:2955-3102 | a name resolves to a symbol exactly if it means it, for every name, scope and memo |
| NameLookup.PlainMeans | src/hir/resolve.rs:3194-3281 | the same for names of types, which are looked up without inheritance and without aliases |
| BaseTypes.BaseTypeIsComputed | src/hir/resolve.rs:519-566 | the base type of an annotation is exactly the first supertype of what the first value expression of its metadata's `baseType` names that names anything |
| InheritedSearch.InheritedIsComplete | src/hir/resolve.rs:3111-3192 | a member is found exactly when some reachable definition other than the start has it live, and what is found is such a definition's member |
| InheritedMembers.InheritsMembers | src/hir/resolve.rs:3111-3192 | a live symbol inherits a name exactly if a path of supertypes, begun by a supertype or by an annotation's base type, leads to another definition that has it, and what it inherits is such a member |
| InheritedMembers.AnnotationBringsMember | src/hir/resolve.rs:3111-3150 | a symbol that has only an annotation inherits the members of the definition that the annotation's base type means |
| InheritedMembers.AnnotatedScopeFindsMember | src/hir/resolve.rs:2999-3020 | and from inside that symbol such a member's simple name resolves to it, unless the scope shows the name itself |
| InheritedSearch.PushNewPushes | src/hir/resolve.rs:3128-3153 | a type is pushed only when it was not marked, and no type is on the stack twice |
| InheritedSearch.SearchCloses | src/hir/resolve.rs:3154-3189 | a search without answer has marked a set closed under supertypes that holds no provider |
| MemberSearch.FindMemberIsComplete | src/hir/resolve.rs:1574-1630 | the search ends on every graph, finds nothing exactly when no reachable scope has the member visible and live, and finds only reachable ones |
| MemberLookup.FindMemberIsGiven | src/hir/resolve.rs:1574-1675 | a member is found exactly if a way along the meanings of supertypes ends at a scope that gives it, as a definition, an import or a symbol inside it, and what is found is given there |
| MemberSearch.FindMemberInternal | src/hir/resolve.rs:1580-1630 | the recursion with one threaded set computes the search |
| MemberSearch.TryParents | src/hir/resolve.rs:1637-1675 | the nested byte loops return the first live answer among the visited prefixes |
| ResolutionStability.ResolveAgrees | src/hir/resolve.rs:2955-3102 | memos that agree on the annotations asked about give the same answer |
| ResolutionStability.ResolveErased | src/hir/resolve.rs:2955-3102 | resolution does not depend on references or their targets once its base types are memoised |
| ResolutionStability.SettledIsStable | src/hir/resolve.rs:494-516 | a settled answer stays the same however targets are written and the memo grows |
| ResolutionCache.TypeRefPass.GetMetadataBaseType | src/hir/resolve.rs:497-516 | the memo answers as before or is extended by what is computed, `None` included |
| ResolutionCache.TypeRefPass.ResolveInheritedMember | src/hir/resolve.rs:3111-3192 | the worklist loop computes the search and memoises every annotation it asks about |
| ResolutionCache.TypeRefPass.ResolveName | src/hir/resolve.rs:2955-3102 | the loops and the recursion over path segments compute the resolution while filling the memo |
| ResolutionCache.TypeRefPass.ResolveTypeRefCached | src/hir/resolve.rs:1036-1087 | a cached answer equals the uncached one, and all cached answers stay right |
| ResolutionCache.TypeRefPass.ResolveFirstPass | src/hir/resolve.rs:843-886 | every answer is right at its turn; answers from scopes are also what resolving anew gives at the end; a redefinition is still decided by the same reference with the same answer exactly when the references up to that one that were rewritten since say what they said |
| ResolutionCache.TypeRefPass.ResolveRedefinesInContext | src/hir/resolve.rs:1715-1882 | the search over parent, siblings, the parent's types and the grandparent's types returns what the first reference in that order says that says anything |
| RedefinitionLookup.ContextIsAsked | src/hir/resolve.rs:1715-1882 | the context of a redefinition answers exactly what it offers: the first of the parent's references resolved to a requirement or constraint that has the member, then of the siblings' in slot order, then the first of the parent's types that has it, then of the grandparent's |
| ReferenceTargets.ReferenceIsResolvedFrom | src/hir/resolve.rs:1043-1052 | references are resolved from their symbol, those of an import from where the import stands |
| ReferenceTargets.TargetIsWritten | src/hir/resolve.rs:843-886 | writing an answer sets the target of that part of that reference, and no other target and nothing else |
| ResolutionCache.TypeRefPass.ResolveItem | src/hir/resolve.rs:846-872 | context, cache, and context again: the second search in context never adds an answer |
| RedefinitionContext.DecisionStays | src/hir/resolve.rs:1715-1882 | on two snapshots that differ in resolved targets a redefinition is decided alike exactly when the rewritten references up to the deciding one say the same |
| ResolutionCache.OrderedRedefinitionIsStable | src/hir/resolve.rs:843-886 | a redefinition keeps its answer when no reference that its context reads is written at its turn or later |
| EarlyRedefinition.EarlyChildMissesMember | src/hir/resolve.rs:843-886 | a redefining child listed before the sibling that names the requirement finds nothing at its turn, while redoing it after the pass finds the requirement's member; every scope has its visibility map, with what it defines and inherits |
| EarlyRedefinition.IndexedByAdding | src/hir/resolve.rs:277-324 | the index of this example is what adding its symbols as one file builds |
| Analysis.IdsAreStable | src/ide/analysis.rs:200-315 | over any admissible run a name live at two times has the same element id at both, also across removal and re-adding; within a file a name may occur any number of times, and its last entry counts |
| Analysis.IncrementalKeeps | src/ide/analysis.rs:255-315 | an incremental rebuild keeps every known id, in any drain order, if no name moves into a dirty file before its id is cached |
| Analysis.BatchKeepsIds | src/ide/analysis.rs:255-315 | every drain order keeps all known ids exactly when no dirty file holds a name that is indexed under another file that stays and is neither cached, nor indexed under a file being removed, nor under the dirty file itself |
| Analysis.FullKeeps | src/ide/analysis.rs:200-252 | a full rebuild with any file numbering keeps every known id |
| Analysis.MovedNameIsRenamed | src/ide/analysis.rs:276-315 | an uncached name that moves between two dirty files gets a new id or keeps it, depending on the drain order |
| Analysis.AnalysisHost.SetFileContent | src/ide/analysis.rs:98-122 | only a parsed file is stored, but the path is dirty either way |
| Analysis.AnalysisHost.RemoveFile | src/ide/analysis.rs:125-136 | the file goes, its path is no longer dirty and is to be removed from the index |
| Analysis.AnalysisHost.RebuildIncrementally | src/ide/analysis.rs:255-315 | draining the removed and then the dirty set computes an incremental rebuild |
| Analysis.AnalysisHost.RebuildFully | src/ide/analysis.rs:200-252 | caching everything and numbering the files computes a full rebuild |
| Analysis.AnalysisHost.RebuildIndex | src/ide/analysis.rs:188-197 | a rebuild is one event of a run, admissible under the conditions on names |
| Interning.NamesIdentifyStrings | src/base/intern.rs:65-87 | under every interleaving two answers carry the same name exactly for the same string, and names lead back to their strings |
| Interning.RunIsCoherent | src/base/intern.rs:65-87 | map and vector stay inverse and every answer given stays true |
| Interning.AnswersStay | src/base/intern.rs:65-96 | answers are never taken back |
| InternProgress.CallIsAnswered | src/base/intern.rs:65-87 | whatever other threads do in between, a call that runs its two sections is answered for its string |
| InternProgress.AnswersWereAsked | src/base/intern.rs:65-87 | only strings that were asked for are ever answered |
| Interning.Interner.TryRead | src/base/intern.rs:66-71 | while map and vector are inverse, the read section answers a name exactly if looking that name up gives the string |
| Interning.Interner.RecheckAndInsert | src/base/intern.rs:74-87 | the write section inserts only if the second check still misses, keeps map and vector inverse, and its name leads back to the string |
| Interning.FileIdsAreNeverReused | src/hir/source.rs:41-87 | under every interleaving an id is answered for one path only, also across removals, and the two maps stay inverse |
| Interning.RemovedPathGetsNewId | src/hir/source.rs:81-87 | a path that comes back after its removal gets an id never answered before |
| InternProgress.FileCallIsAnswered | src/hir/source.rs:41-63 | whatever else happens, removals of the same path included, a call that runs its two sections is answered with an id that leads back to its path at that moment |
| InternProgress.FileAnswersWereAsked | src/hir/source.rs:41-63 | only paths that were asked for are ever answered |
| Interning.FileSet.RecheckAndAssign | src/hir/source.rs:51-63 | the write section assigns the next id only if the path is still unknown |
| Interning.FileSet.Remove | src/hir/source.rs:81-87 | both directions and the contents go, the next id stays |

## Left out

- MoveMembers: is stated for moves between content elements; a membership as the new owner shows the element among the members of the membership's own owner.
- Direct definitions of the visibility build (src/hir/resolve.rs:2081-2200): one branch per naming pattern; the maps that imports and inheritance start from are arbitrary here.
- Lazy per-scope visibility (src/hir/resolve.rs:1886-2016) and incremental visibility updates: a second, simpler import path.
- Feature chains, the second pass over chain parts and `get_member_lookup_scope` (src/hir/resolve.rs:1151-1570): mutual recursion without a visited set, so nothing is claimed about cyclic subsetting.
- The scan for names that end in a target (src/interchange/integrate.rs:715-741): ties depend on hash order, so every outcome is allowed.
- Flags, short names, documentation, direction, multiplicity and visibility of elements: copied field by field next to what is modelled.
- Rename, property and documentation edits (src/interchange/editing.rs:106-170): single-field updates.
- Parsing and symbol extraction: an arbitrary source of names and ids.
- Index of the analysis host: held as the plain map from files to their symbols, with which the slot index agrees while no name is in two files (`Indexing.IndexRefinesFiles`). Inside a batch a cached name that moves can be in two files for a while, and then the slot index loses it (`Indexing.SharedNameIsLost`); ids do not depend on that, as the name is in the cache. Visibility maps and reference resolution do not touch ids.
- Serialisation, XMI, JSON-LD and KPAR formats, IDE queries, logging and timing: formats, user interface and library behaviour.
- Width of ids: names and file ids are unbounded numbers, as fewer than 2^32 of them are assumed.
- Order of hash-map iteration: copies between visibility maps have distinct keys, so a map union stands for the loop.
- Imports and values in the round trip: the decoder does not turn them back into symbols of the same form, so the round trip is stated for lists without them; how imports are encoded is `ImportEncoding.ImportIsEncoded`.
