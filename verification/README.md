# Flecs for Rust: verified model of its own protocols

A Dafny model of the parts of the Rust bindings that hold algorithms or protocols of their own,
as opposed to calls into the C library:

* **Aliasing and locks** (`TupleAlias`, `QueryTuple`, `SafetyMap`, `GetTuple`). A tuple of
  component references is analysed by its types; per table, its pointers are compared unless the
  analysis says that cannot fail; the lock targets are scattered into four segments and walked.
* **Query lifetime** (`QueryHandle`). Reference counts, the world's count, the panicking flag and
  the `world_dead` mutex, as a step system in which other threads clone and drop handles while
  the owning thread tears the world down.
* **The query DSL** (`DslParser`, `DslSyntax`, `DslBuilder`, `TermBuilder`, `DslMeaning`,
  `DslSound`, `DslProgress`, `DslEffects`, `DslCorrect`, `DslScopes`, `DslQuery`, `QueryBuilder`).
  A compiler from terms to builder calls, and the builder those calls run on. `DslSound` decides
  which queries compile, `DslProgress` which of those panic, the others which build what their
  terms mean; all three answers are exact and read off the terms.
* **Sparse join** (`SparseQuery`) and **single-shot iterators** (`QueryIter`).

`Wrappers` holds `Option` and `Sequences` a few sequence functions. A panic is `None` from a
function and `false` from a method; it is terminal, and nothing is said about the state after it.
`dafny verify dfyconfig.toml` checks everything.

## Reading the model

* *Resolution.* A term resolves to an id its key stands for (`TupleAlias.Resolves`); different
  ids are stored in different places. This is the comment at `tuple_alias.rs:5` made precise, and
  the only assumption behind skipping the pairwise check. Outside pairs a key's two types are the
  same.
* *Lock counters.* One signed counter per table column or sparse component: `n > 0` readers, `-1`
  one writer. A failed `begin` has moved the counter, and only the try-locks move it back.
* *Builder terms.* The flag bits that share a 64-bit id with an entity are a set beside the
  entity. Assertions compiled into debug builds count as panics (`up` off the source, empty
  names, `term()` and `term_at()` past 32 terms).
* *Identifiers* carry what their tokens evaluate to where the macro is expanded: a local is an
  entity or a text, a type is its registered entity. Results about slots say which entity, flags,
  name, traversal, operator and access each term ends with.
* *Query lifetime.* Every atomic access is one step. `Other` is whichever thread holds the mutex;
  one record for it is enough, because handle operations of other threads take several steps only
  while holding it. `MarkDead`, `Reclaim` and `CheckCount` are the three points of `World`'s drop
  that matter. `RaiseFlag` is the panicking path of `destruct` on an unrelated query.

Results that are not what one might expect:

* The reference mode leaks from term to term. After `(A desc, B)` the first element stays
  selected, and what follows can fail for it: `P(up)` panics (`DslQuery.InnocentTermPanics`), a
  scope's markers lose their identity (`DslScopes.MarkerSurvivesIff`), a component's own `desc`
  goes to the wrong reference. `DslMeaning.ModeAfter` follows the mode; `DslQuery.BuiltIff` says
  exactly which queries panic and `DslQuery.QueryCorrect` exactly which build what they mean.
* Where assertions are compiled in, `up` and `cascade` on an element of a pair always panic
  (`DslCorrect.ElementUpPanics`), and so does `P(up)` above. In any build an iterator term cannot
  traverse both elements of its pair (`DslQuery.BothTraversedPanics`).
* A component that is not a type is written to whatever reference is selected
  (`DslCorrect.RunOddComponent`): to the source, unless an earlier term left an element selected.
* The negation of an operand of `||` is lost: at top level by the parser
  (`parser.rs:47`, `DslParser.MarkLast`), inside parentheses by the builder, where `.not()` is
  overwritten by `.or()` (`DslQuery.NegatedOrLosesItsNegation`). No slot can say both, and the
  meaning of such an operand is the one that is kept.
* The access written before a scope ends up on the scope's end marker (`DslMeaning.ScopeEnd`).
* The documentation at `query.rs:421` says that using a query after its world is destroyed
  panics. Nothing checks: once the headers are freed, every operation on a `Query` or
  `QueryHandle` that reads its header reaches it, and only drops and `QueryHandle::clone` refrain
  from reading (`QueryHandle.FreedHeaderReachedIff`, `QueryHandle.UseAfterTeardown`). `Use` stands
  for those operations; an accessor that merely returns the stored pointer is not one.
* The context is freed under a live value exactly when the panicking flag is up as teardown
  checks the count (`QueryHandle.FreedUnderLiveIff`, `QueryHandle.FreedUnderHandle`).
* A header whose last reference another thread releases is not finalized by anyone but the world;
  every other header without references is (`QueryHandle.FinalizedIff`).
* "Released exactly once" is not true of every use of an iterator: `try_first` on a result
  without entities releases nothing (`QueryIter.TryFirstLeaks`), and so does `run` with a callback
  that stops early; a callback that exhausts the iterator and then calls `fini` releases it twice.
  `QueryIter.ReleasedExactlyOnceIff` gives the exact condition.
* A sparse query compares nothing and takes no locks: naming one component twice with a mutable
  side hands out one place twice, and nothing else does (`SparseQuery.AliasFreeIff`).
* `get` with a wildcard passes the static check and may alias; the static check alone suffices
  exactly for tuples that need no run-time check (`GetTuple.StaticCheckSufficesIff`). `get` makes
  no such check, and only the locks catch the rest (`GetTuple.GrantedLocksMeanNoAlias`).

## Model

| member | source | states |
|---|---|---|
| TupleAlias.CouldAliasExact | flecs_ecs/src/core/tuple_alias.rs:39-61 | two keys could alias exactly when some id is matched by both, wildcards being sets of ids |
| TupleAlias.StaticAliasConflict | flecs_ecs/src/core/tuple_alias.rs:61-78 | returns the first position that repeats an earlier key with a mutable side, and none exactly when there is no such pair |
| TupleAlias.NeedsRuntimeAliasCheck | flecs_ecs/src/core/tuple_alias.rs:80-97 | true exactly when some pair with a mutable side could alias |
| TupleAlias.CheckNeededIffIdsMayMeet | flecs_ecs/src/core/tuple_alias.rs:80-97 | the run-time check is requested exactly when two terms, one mutable, may resolve to one id |
| TupleAlias.ConflictImpliesCheck | flecs_ecs/src/core/tuple_alias.rs:61-97 | a static conflict always requests the run-time check |
| TupleAlias.AnalysesAgreeWithoutWildcards | flecs_ecs/src/core/tuple_alias.rs:61-97 | on tuples without wildcards the two analyses give the same verdict |
| QueryTuple.SkippingIsSound | flecs_ecs/src/core/query_tuple.rs:641-642 | when the keys ask for no check, no two terms of any matched table clash |
| QueryTuple.FastFormRefinesFullCheck | flecs_ecs/src/core/query_tuple.rs:629-793 | the verdict with skipped comparisons equals that of comparing every pair |
| QueryTuple.SlotInSegment | flecs_ecs/src/core/query_tuple.rs:645-675 | a term's slot lies in the segment of its kind, so every write is in range |
| QueryTuple.SlotsDistinct | flecs_ecs/src/core/query_tuple.rs:645-675 | no two terms share a slot, so the scatter is a permutation |
| QueryTuple.ComponentsData.StoreTarget | flecs_ecs/src/core/query_tuple.rs:654-675 | one step of the running counters puts a term's lock target into its own slot and nowhere else |
| QueryTuple.ComponentsData.PopulateArrayPtrs | flecs_ecs/src/core/query_tuple.rs:629-737 | panics exactly on a clash that was looked for; otherwise pointers, flags and the scattered records are those of the iterator |
| QueryTuple.ComponentsData.PopulateSelfArrayPtrs | flecs_ecs/src/core/query_tuple.rs:741-793 | the same for tables without reference fields |
| QueryTuple.ComponentsData.New | flecs_ecs/src/core/query_tuple.rs:61-105 | under resolution, population succeeds exactly when no two terms clash; whenever the keys ask for the check, exactly when no two terms with a mutable side share a non-null pointer, or id and source |
| QueryTuple.NoClashIff | flecs_ecs/src/core/query_tuple.rs:676-728 | no clash is found exactly when terms behind one pointer, and row terms of one id and source, are all immutable |
| SafetyMap.PassSucceedsIff | flecs_ecs/src/core/safety_map.rs:399-492 | from any lock state a pass completes exactly when each target has only reads and no writer, or one write and is free |
| SafetyMap.OrderIrrelevant | flecs_ecs/src/core/safety_map.rs:399-492 | success and final counters depend on the locks taken, not on their order |
| SafetyMap.ReleaseUndoesPass | flecs_ecs/src/core/safety_map.rs:372-396 | the release pass restores every counter |
| SafetyMap.RunsKeepExclusive | flecs_ecs/src/core/safety_map.rs:332-396 | in every run of passes, releases and try-locks each counter is its outstanding reads, or -1 with one outstanding write |
| SafetyMap.LockTable.TryLock | flecs_ecs/src/core/safety_map.rs:628-680 | a try-read succeeds exactly without a writer and a try-write exactly on a free target; a failed attempt leaves every counter as it was |
| SafetyMap.LockTable.Lock | flecs_ecs/src/core/safety_map.rs:332-368 | takes or gives back one lock as the specification says, panicking exactly on a conflict |
| SafetyMap.LockTable.DoReadWriteLocks | flecs_ecs/src/core/safety_map.rs:372-492 | the four loops perform exactly the pass over the four segments |
| SafetyMap.ScatterAndWalkAgree | flecs_ecs/src/core/query_tuple.rs:645-675 | the locks walked are, as a multiset, those of the set terms, each in its term's mode |
| SafetyMap.TuplePassSucceedsIff | flecs_ecs/src/core/safety_map.rs:399-492 | end to end, on populated records, the pass succeeds exactly when the tuple's own locks can be granted |
| SafetyMap.TuplePassIff | flecs_ecs/src/core/safety_map.rs:426-456 | from any lock state, read off the iterator: the pass succeeds exactly when every mutable term finds its column or component free, every immutable one without a writer, and no two terms with a mutable side share storage |
| SafetyMap.FreePassIff | flecs_ecs/src/core/safety_map.rs:426-456 | from free locks it succeeds exactly when no two terms with a mutable side share table and column, or a sparse component |
| SafetyMap.LevelAfterPass | flecs_ecs/src/core/safety_map.rs:426-456 | the counter of a term's storage is then -1 for a writer, and otherwise the number of terms stored there |
| SafetyMap.OtherLevelsKept | flecs_ecs/src/core/safety_map.rs:426-456 | every other counter is left alone |
| GetTuple.ComponentsData.PopulateArrayPtrs | flecs_ecs/src/core/get_tuple.rs:297-444 | panics exactly on a static conflict, a pair with a wildcard first element or without data of its type, or a missing component when told to; fills every element and reports completeness |
| GetTuple.ComponentsData.LockPass | flecs_ecs/src/core/utility/safety.rs:20-51 | locks exactly the elements that were found, in their modes |
| GetTuple.ComponentsData.RwLocking | flecs_ecs/src/core/utility/safety.rs:4-83 | reaches the callback exactly when every found mutable element is free, every found immutable one has no writer, and two found in one place are immutable; leaves every counter as it was |
| GetTuple.LocksGrantedIff | flecs_ecs/src/core/get_tuple.rs:446-453 | from any lock state the locks of a tuple are granted under exactly those conditions |
| GetTuple.LevelWhileLocked | flecs_ecs/src/core/get_tuple.rs:446-453 | during the callback a written place is at -1, and a read one has gained one reader for every element found there |
| GetTuple.GrantedLocksMeanNoAlias | flecs_ecs/src/core/get_tuple.rs:440-450 | if the locks are granted, elements with the same pointer are all immutable, wildcards included |
| GetTuple.StaticCheckSufficesIff | flecs_ecs/src/core/get_tuple.rs:627-635 | a tuple without static conflict is free of mutable aliasing in every storage exactly when no key pair may alias |
| GetTuple.StaticCheckSuffices | flecs_ecs/src/core/get_tuple.rs:627-635 | without wildcards the static check alone rules out mutable aliasing |
| GetTuple.StaticCheckMissesWildcards | flecs_ecs/src/core/get_tuple.rs:627-635 | a tuple with a wildcard passes every check of population and has a storage in which it aliases |
| QueryHandle.RunKeepsInv | flecs_ecs/src/core/query.rs:600-741 | counters, marks, tasks, lock and phase stay consistent through every interleaving |
| QueryHandle.CountersCountValues | flecs_ecs/src/core/world_ctx.rs:55-86 | between operations both counters are the live values plus the abandoned ones; before teardown and without panics there are no abandoned ones |
| QueryHandle.CountCoversLiveValues | flecs_ecs/src/core/world_ctx.rs:55-86 | at every moment, teardown included, the count is at least the number of live values, and a live value's header is referenced |
| QueryHandle.FinalizedIsUntouched | flecs_ecs/src/core/query.rs:663-671 | no step reads, claims, releases or frees a finalized header, and finalization happens at reference count zero |
| QueryHandle.FinalizedOnceAndLast | flecs_ecs/src/core/query.rs:726-730 | in every run nothing reads, touches or finalizes a query again after `ecs_query_fini` |
| QueryHandle.LastReleaseFinalizes | flecs_ecs/src/core/query.rs:726-730 | an owner's release leaves the owner finalizing that query exactly if it brought the count to zero |
| QueryHandle.FinalizedIff | flecs_ecs/src/core/query.rs:664-671 | after every run that leaves the owner idle, the finalized queries are exactly those without a reference, except for those whose last reference another thread released |
| QueryHandle.OwnerFinalizesAll | flecs_ecs/src/core/query.rs:664-671 | if no other thread releases, a query is finalized exactly if it has no reference left |
| QueryHandle.CreateCompletes | flecs_ecs/src/core/query.rs:888-905 | building a query while its world exists gives one value, one reference and one count |
| QueryHandle.CloneCompletes | flecs_ecs/src/core/query.rs:600-631 | a clone, or a handle made from a query, takes exactly one reference and one count |
| QueryHandle.DropGivesUpIff | flecs_ecs/src/core/query.rs:643-654 | a drop keeps the value's reference and count exactly if the flag is up, the thread unwinds, or a handle is dropped off-thread after teardown began; otherwise it goes on to release |
| QueryHandle.DropCompletes | flecs_ecs/src/core/query.rs:633-741 | a drop that runs to its end while nothing panics gives up exactly one reference and one count, and finalizes the query exactly if the owner gave up the last one |
| QueryHandle.OffThreadWorkPrecedesTeardown | flecs_ecs/src/core/query.rs:637-682 | claims, releases and counting by other threads happen only before the world is marked dead |
| QueryHandle.FreedHeaderReachedIff | flecs_ecs/src/core/query.rs:748-803 | once headers are freed, a step reaches one exactly when it begins an operation that reads the header of its value: any but a drop or `QueryHandle::clone` |
| QueryHandle.FreedHeaderCanBeReached | flecs_ecs/src/core/query.rs:577-596 | in every phase a live value can be used and reaches its header, and an idle owner can clone a query; once the headers are freed a handle cannot be cloned |
| QueryHandle.UseAfterTeardown | flecs_ecs/src/core/query.rs:421 | such steps are reachable, by cloning and by iterating |
| QueryHandle.TeardownReports | flecs_ecs/src/core/world/world.rs:124-133 | the world reports lingering queries, and leaks its context, exactly when the flag is down and some value was never fully dropped |
| QueryHandle.ContextOutlivesValues | flecs_ecs/src/core/world/world.rs:124-133 | unless the flag was up, no value is live and no operation runs once the context is freed |
| QueryHandle.FreedUnderLiveIff | flecs_ecs/src/core/world/world.rs:124-133 | teardown frees the context under a live value exactly when the flag is up by then |
| QueryHandle.FreedContextNeedsFlag | flecs_ecs/src/core/query.rs:643-648 | after the context is freed, a step that reads it or a header does so on a value the raised flag let survive |
| QueryHandle.FreedUnderHandle | flecs_ecs/src/core/query.rs:956-961 | with the flag raised first, the context is freed under a live handle, and dropping that handle reads it |
| QueryHandle.TasksFinish | flecs_ecs/src/core/query.rs:633-682 | an operation in progress can always take its next step, so the mutex is released |
| QueryHandle.TeardownIsPossible | flecs_ecs/src/core/world/world.rs:100-133 | from every reachable state operations can finish and the world be torn down, so nothing waits forever |
| DslParser.ParseGroup | flecs_ecs_derive/src/dsl/parser.rs:84-101 | the loop over grouped operands reads exactly what the specification reads |
| DslParser.ParseTermOrGroup | flecs_ecs_derive/src/dsl/parser.rs:65-113 | one token tree gives the operands the specification gives, or a syntax error |
| DslParser.Parse | flecs_ecs_derive/src/dsl/parser.rs:37-60 | the main loop returns exactly the operands of the specification, or a syntax error; cutting them gives the groups, and each has the operator its tokens give it |
| DslParser.CutRecoversGroups | flecs_ecs_derive/src/dsl/parser.rs:37-113 | for every accepted input, cutting after each unmarked term gives the comma-separated groups, and a marked term is never last |
| DslParser.OperatorsKept | flecs_ecs_derive/src/dsl/parser.rs:45-97 | for every accepted input, an operand that no `or` follows carries the prefix it is written with; one joined in its parentheses carries `NotOr` exactly if negated, and every other joined one `Or` |
| DslParser.ItemReadIff | flecs_ecs_derive/src/dsl/parser.rs:65-113 | a token tree is accepted exactly if it is terms joined in parentheses, a comparison of one term, or a term |
| DslParser.HasOrIff | flecs_ecs_derive/src/dsl/parser.rs:116-133 | a tree counts as a group exactly if two bars follow one another in it |
| DslParser.OrSufficesIff | flecs_ecs_derive/src/dsl/parser.rs:90-97 | `Or` alone recovers the groups exactly when no negated operand is joined inside parentheses |
| DslParser.RenderedIsRead | flecs_ecs_derive/src/dsl/parser.rs:37-60 | every list of groups, written out, is accepted and cutting gives the groups back |
| DslParser.ReadIsRendered | flecs_ecs_derive/src/dsl/parser.rs:37-60 | every accepted input is such a list, with at most one trailing comma |
| DslCorrect.LeafCorrect | flecs_ecs_derive/src/dsl/builder.rs:239-342 | after any built prefix and in any reference mode, a term's calls append exactly its meaning if and only if they compile, fit, are accepted and mean it in that mode |
| DslCorrect.LeafGoes | flecs_ecs/src/core/term.rs:202-211 | after any built prefix and in any mode, a term panics exactly when it does not compile, names nothing, does not fit or asks for what the mode refuses |
| DslCorrect.LeafYields | flecs_ecs_derive/src/dsl/builder.rs:239-342 | a term that goes through appends one slot, leaves the rest alone and the mode as `ModeAfter` says |
| DslCorrect.RestedMeans | flecs_ecs_derive/src/dsl/builder.rs:249-332 | for every kind of term and every mode, the slot left is the meaning exactly as `Means` says |
| DslCorrect.RunAccessor | flecs_ecs/src/core/query_builder.rs:800-844 | `with` and `term` open the next slot holding the component or pair asked for |
| DslCorrect.RunRest | flecs_ecs_derive/src/dsl/builder.rs:317-332 | effect of source, operator, source traversal and access on the slot and on the reference mode |
| DslCorrect.RunOddComponent | flecs_ecs_derive/src/dsl/builder.rs:74-81 | a component given as a variable, local, `$self` or literal is written, with its traversal, to the selected reference and to no other |
| DslCorrect.ElementUpPanics | flecs_ecs_derive/src/dsl/builder.rs:45-55 | `up` or `cascade` on an element of a pair panics in every builder state |
| DslEffects.RunTrav | flecs_ecs_derive/src/dsl/expansion.rs:25-57 | traversal calls add exactly the written flags to the selected reference, and a relationship if one is named |
| DslProgress.RunAgrees | flecs_ecs/src/core/query_builder.rs:895-967 | for every call sequence the builder panics exactly when its registers alone say so |
| DslProgress.TermAdvances | flecs_ecs_derive/src/dsl/builder.rs:239-342 | a term with any nesting of scopes goes through exactly if its calls are sound, it fits and `Goes` holds in the current mode, and leaves `ModeAfter` |
| DslProgress.IterTermAdvances | flecs_ecs_derive/src/dsl/builder.rs:239-342 | the same for an iterator term, which takes no new slot |
| DslScopes.TermYields | flecs_ecs_derive/src/dsl/builder.rs:271-315 | a term with any nesting of scopes that goes through appends as many slots as its width, and exactly those it means if and only if `Means` holds in the current mode |
| DslScopes.RunMarker | flecs_ecs/src/core/query_builder.rs:1073-1080 | a scope marker takes one slot and puts "no entity" into the selected reference |
| DslScopes.MarkerSurvivesIff | flecs_ecs/src/core/query_builder.rs:1073-1080 | the slot is a scope marker exactly in source mode |
| DslScopes.SlotsFillWidth | flecs_ecs_derive/src/dsl/builder.rs:271-315 | a term takes one slot, a scope two more than its contents |
| DslSound.TermSoundIff | flecs_ecs_derive/src/dsl/builder.rs:239-342 | a term with any nesting of scopes compiles and names something everywhere exactly if it is unreferenced and its identifiers, relationships and comparisons are of the accepted kinds |
| DslSound.IterTermSoundIff | flecs_ecs_derive/src/dsl/builder.rs:202-218 | the same for an iterator term, whose access may only be left out or `filter` |
| DslSound.QuerySoundIff | flecs_ecs_derive/src/dsl/builder.rs:345-380 | the same for a whole query |
| DslQuery.PopulateCorrect | flecs_ecs/src/core/query_tuple.rs:599-619 | the tuple's elements append their slots in order, exactly when they fit |
| DslQuery.IterTermGoes | flecs_ecs_derive/src/dsl/builder.rs:239-342 | the calls of an iterator term panic exactly when they do not compile, name nothing or traverse its pair's elements in a refused way |
| DslQuery.IterTermYields | flecs_ecs_derive/src/dsl/builder.rs:239-342 | they change the term's own slot and nothing else, into its meaning exactly if the source keeps the component's flags, and always into its meaning but for the source |
| DslQuery.BothTraversedPanics | flecs_ecs/src/core/term.rs:202-211 | traversing both elements of an iterator pair panics |
| DslQuery.BuiltIff | flecs_ecs/src/core/term.rs:202-211 | every query is built without a panic if and only if its terms compile and name something everywhere, it has at most 32 slots and every term is accepted in the mode the terms before it leave |
| DslQuery.InnocentTermPanics | flecs_ecs/src/core/term.rs:534-560 | two terms that are each built alone and panic together |
| DslQuery.QueryCorrect | flecs_ecs_derive/src/dsl/builder.rs:345-380 | every query builds exactly the array its terms denote if and only if it is built and every term means what it says in the mode it finds |
| DslQuery.BuiltMeansIff | flecs_ecs_derive/src/dsl/builder.rs:345-380 | of the queries that are built, exactly those hold what they denote |
| DslQuery.QueryWidth | flecs_ecs/src/core/query_builder.rs:895-967 | for every query that is built, `next` is the sum of widths, iterator element k is bound to slot k, and later slots are untouched |
| DslQuery.IterElementBound | flecs_ecs_derive/src/dsl/expansion.rs:62-105 | in every query that is built, iterator element k is bound to a slot that is `InOut` exactly for a `&mut` and `In` exactly for a `&` unless `filter` is written, optional exactly if the term is, and names the entity, or the pair in written order, of its identifiers |
| DslQuery.ReferencedIffIteratorElement | flecs_ecs_derive/src/dsl/builder.rs:202-236 | in a query that compiles, a top-level term carries a reference exactly when it is an iterator element, and no nested term carries one |
| DslQuery.NegatedOrLosesItsNegation | flecs_ecs_derive/src/dsl/builder.rs:188-191 | a negated operand joined to the next one builds what the plain operand builds |
| QueryBuilder.Builder.Perform | flecs_ecs/src/core/term.rs:318-856 | each builder call, done in place, takes the builder to the state the machine specifies |
| QueryBuilder.Builder.SetPart | flecs_ecs/src/core/term.rs:462-527 | `set_first` and `set_second` write one reference and return to source mode |
| QueryBuilder.Builder.With | flecs_ecs/src/core/query_builder.rs:800-844 | `with` opens and fills the next slot |
| QueryBuilder.Builder.PerformAll | flecs_ecs_derive/src/dsl/builder.rs:369-377 | the calls in order take the builder to the state of the run |
| QueryBuilder.Builder.Populate | flecs_ecs/src/core/query_tuple.rs:599-619 | the tuple's elements in order fill the first slots |
| QueryBuilder.BuildQueryComponents | flecs_ecs_derive/src/dsl/builder.rs:345-380 | the prefix loop finds exactly the iterator elements, each mutable and optional as its term is and naming what its term names, and the calls are those of the expansion |
| QueryBuilder.BuildQuery | flecs_ecs_derive/src/dsl/builder.rs:345-380 | building in place panics exactly on the queries `BuiltIff` excludes, and holds exactly the denoted slots on those `QueryMeans` admits |
| SparseQuery.SparseSet.GetWithCheck | flecs_ecs/src/core/sparse_query.rs:137-138 | the value of a member and null for others; unchecked only for members |
| SparseQuery.ChooseLead | flecs_ecs/src/core/sparse_query.rs:123-128 | the lead is the first of the smallest storages |
| SparseQuery.Probe | flecs_ecs/src/core/sparse_query.rs:136-143 | succeeds exactly for members of all storages, with this entity's values in every place |
| SparseQuery.EachLed | flecs_ecs/src/core/sparse_query.rs:130-156 | the callback trace is the matching entities in lead dense order, never with a value of an earlier entity |
| SparseQuery.EachImpl | flecs_ecs/src/core/sparse_query.rs:101-156 | each entity of the intersection is reported exactly once with its own values; nothing if a storage is missing |
| SparseQuery.AnyLeadJoins | flecs_ecs/src/core/sparse_query.rs:123-156 | the reported set does not depend on which storage leads |
| SparseQuery.JoinIs | flecs_ecs/src/core/sparse_query.rs:123-156 | calls are the join exactly if each has a queryable entity and every storage's own value for it, each entity of all storages has one, and none has two |
| SparseQuery.CallsInOrder | flecs_ecs/src/core/sparse_query.rs:130-156 | calls come in the dense order of the leading storage |
| SparseQuery.TermOrderIrrelevant | flecs_ecs/src/core/sparse_query.rs:174-178 | entities and count do not depend on the order of the tuple |
| SparseQuery.AliasFreeIff | flecs_ecs/src/core/sparse_query.rs:101-171 | no storages make the join hand out one place twice with a mutable side if and only if the keys have no static conflict |
| SparseQuery.JoinIsAliasFree | flecs_ecs/src/core/sparse_query.rs:101-171 | without static conflict every reported call hands out shared places only through shared references |
| SparseQuery.Count | flecs_ecs/src/core/sparse_query.rs:174-178 | the count is the size of the intersection |
| QueryIter.RunKeepsInv | flecs_ecs/src/core/query_iter.rs:63-71 | each C iterator has one responsible holder until it ends, and is then released as its ending says |
| QueryIter.ReleasedExactlyOnceIff | flecs_ecs/src/core/query_iter.rs:293-351 | in every run an iterator is released exactly once if and only if it ended without leaking and without being released twice; otherwise it has one holder, or the ending says which failed |
| QueryIter.TryFirstLeaks | flecs_ecs/src/core/utility/traits/query_api.rs:1141-1167 | after `try_first` on a result without entities nothing is held and nothing was released |
| QueryIter.CIterator.Count | flecs_ecs/src/core/utility/traits/query_api.rs:1357-1364 | counts all entities and releases the iterator once |
| QueryIter.CIterator.ToJson | flecs_ecs/src/core/utility/traits/query_api.rs:1449-1467 | whether or not a result fails to serialize, the iterator is released once |
| QueryIter.CIterator.IsTrue | flecs_ecs/src/core/utility/traits/query_api.rs:1342-1350 | true exactly if there is a result, released once either way |
| QueryIter.CIterator.TryFirstEntity | flecs_ecs/src/core/utility/traits/query_api.rs:1043-1059 | finds an entity exactly if the first result has one, released once either way |
| QueryIter.CIterator.TryFirstOnly | flecs_ecs/src/core/utility/traits/query_api.rs:1256-1290 | accepts exactly a first result of one entity, released once either way |
| QueryIter.CIterator.TryFirst | flecs_ecs/src/core/utility/traits/query_api.rs:1141-1167 | calls back exactly if the first result has an entity, and leaves the iterator unreleased exactly if the result has none |
| QueryIter.CIterator.RunCallback | flecs_ecs/src/core/utility/traits/query_api.rs:618-624 | released once for exhausting the results and once for `fini` |
| QueryIter.UsedBeforeRelease | flecs_ecs/src/core/query_iter.rs:150-164 | only an iterator that has not ended is passed on, consumed or finished, and a drop releases exactly if it was not consumed |
| QueryIter.Wrapper.TakeIter | flecs_ecs/src/core/query_iter.rs:63-71 | gives the iterator away exactly once and panics afterwards |
| QueryIter.Wrapper.IntoChained | flecs_ecs/src/core/query_iter.rs:293-315 | `page` and `worker` pass the iterator on exactly if it was not consumed, and dropping what they took releases nothing |
| QueryIter.Wrapper.Drop | flecs_ecs/src/core/query_iter.rs:150-164 | a drop in place does what the step system's drop does |

## Left out

- The C library: table storage, query evaluation, deferred operations and observers.
- The multithreaded and per-stage lock variants, and lock state after a panic.
- QueryHandle.RunKeepsInv: the protocol is on values, since its results are about interleavings; the update in place of the counters, the flag and the mutex is one step each.
- Entity-bound queries under concurrency: their check-then-release is not atomic; `destruct` appears only as the step that raises the flag.
- User code run inside `ecs_query_fini`, such as a context destructor that drops another handle while the mutex is held.
- Component inheritance that lets a term match another component's id, and one entity reached both as `$this` and as a fixed source: both break the resolution assumption.
- GetTuple.ComponentsData.PopulateArrayPtrs: takes what the lookup found, so enum constants, the lookup of wildcard targets, the assertion against mutable enums and the thread-affinity check are not modelled; the singleton form is the same loop.
- An enum variant anywhere but as a component term: the macro expands it, the Rust type checker rejects it, and the model reads it as the enum's entity.
- Lexical structure inside one term; `DslParser` starts from terms, separators and parenthesised trees, and a term's own tokens are opaque to it.
- The 64-term limit of an optional feature, `term_at` by type, expression strings, and every builder call the DSL does not emit.
- SparseQuery.EachImpl: entities are numbers without generations, callbacks do not change storages, and optional terms are required as in the loop; `to_query` is not modelled.
- QueryIter.CIterator.RunCallback: a callback that calls `next` again after it returned false is not covered.
- Formatting, derive and extern macros, OS hooks, event payloads, id comparison and enum conversions: no algorithm of their own.
