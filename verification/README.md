# go.hocon, modelled and proved in Dafny

go.hocon evaluates a configuration language in two phases.  Phase 1 turns a syntax
tree into a tree of objects, arrays, scalars and placeholders, and keeps for every
key that is assigned again the value it hid (the *prior*).  Phase 2 replaces the
placeholders.  This project models the parts where that is intricate and proves what
they come to.

- **Path keys** (`Paths`): the strings that stand for paths, printed and read back.
- **Values and folding** (`Values`, `Fold`, `Folding`): the value tree; how a value
  that is overwritten is rewritten so that it no longer mentions its own key; the
  absent sentinel and its refilling.
- **Merges** (`Merge`, `MergeLaws`): the four separately written merges, and chains of
  `WithFallback`.
- **The resolver** (`Concats`, `Resolve`, `Resolver`, `ResolveLaws`, `Termination`,
  `Lookbacks`): phase 2 as functions over a context and as the class of the source with
  its fields; its results are final; when it ends and when it never does.
- **What values come to** (`Pieces`, `Elements`, `Reaching`, `Descents`): concatenations
  piece by piece, arrays and objects element by element, what a path leads to, and
  references below the key they are assigned to, saved or not.
- **Refinement** (`Refinement`, `Refines`, `Orders`, `Reordering`, `Reorders`): a plain evaluator that
  looks every path up in the raw tree, without cache, cycle set, field path or guards;
  the trees on which the two agree; the order of fields.
- **Where order or spelling decides** (`Rings`, `Histories`, `Limits`): cycles of
  references, self-references reached from other fields, quoted keys; what comes out
  and exactly when two orders agree.
- **Self-reference chains** (`Assignments`, `Layers`, `Likeness`, `Joins`, `Walks`,
  `Chains`, `Keeps`, `Losses`, `Rereads`, `Insertions`, `Overlays`, `Appends`): phase 1 on
  top-level keys, `+=` included, against layer-by-layer evaluation; which assignments keep
  what lies below them, and what comes out where one does not.
- **Fields inside literals** (`Interiors`, `InteriorRuns`, `Stitches`): literals in a row
  with a field whose values refer to its path, once or several times in each of them.
- **Unresolved fallbacks** (`Fallbacks`, `Weights`, `Carries`, `FallbackRuns`,
  `DataFallbacks`): `WithFallback` before resolution, against one document that has the
  fallback's assignments first.
- **Numbers** (`Numerals`, `Decimals`, `Units`, `UnitLaws`, `WholeFloats`, `Reals`): exact
  decimal products, durations, byte sizes, whole numbers written as floats; the laws
  between the units, and the real numbers that numerals stand for.
- **Text** (`Lexing`, `Lexer`, `Lexemes`, `Literals`, `Parsing`, `Parser`, `Grammar`,
  `Accepts`, `Lines`, `Rendering`, `RoundTrip`): the lexer and the parser as functions and
  as the classes of the source; the grammar, which the parser accepts exactly; lines of
  text from the characters to the resolved value; the emitter and the round trip.
- **Includes and flat keys** (`Includes`, `Inlining`, `Nesting`): include expansion with
  its shared stack, that it is writing in place, and the two ways of nesting dotted keys.

Where the source changes state step by step there is a method or a class with the
source's loops, proved equal to a function; what the source promises is proved about
the functions.  A run of phase 2 may follow placeholders forever, so its functions
carry a budget of placeholder steps and answer `Diverge` when it is used up;
`ResolveLaws.BudgetDoesNotMatter` shows that a larger budget changes no answer, and
`Termination`, `Lookbacks` and `Refines` give budgets that are never used up.

## Where the code and its intent part

These came out of the proofs.  Each is a lemma with an input, and with it the
condition that decides.

- Phase 2 files the root's priors under raw keys and looks them up under printed ones
  (internal/resolver/resolver.go:450 against 1226-1243).  A quoted key `"a.b"` with a
  prior is mistaken for the path `a.b` (`Limits.QuotedKeyStealsPrior`); every path finds
  its own prior exactly under the condition of `Limits.EveryPathFindsItsPrior`.
- With `o { v = 1 }`, `o { h = ${o} }`, `x = ${o.h}` the reference inside `o` means the
  old `o`, but reached through `x` it gives the new one once that is cached
  (`Histories.HistoryDependsOnOrder`).  `x` sees the old `o` exactly when it stands
  before `o` (`Histories.OutsideSeesOldExactly`), and two orders agree exactly when all
  such references stand on the same side of `o` (`Histories.HistoryOrdersAgreeExactly`).
- With `o { h = 1 }`, `o = ${o.h}`, `x = ${o}` the reference to `o.h` means the old one
  only while `o` itself is walked: resolution succeeds exactly when no such `x` stands
  before `o` (`Histories.DescentResolvesExactly`).
- Cycles of references, required and optional ones mixed, come out by the field that is
  walked first (`Rings.MixedCycleDependsOnOrder`, `Rings.OptionalCycleDependsOnOrder`).
  Two orders agree exactly when the same member comes first, or no member has a text, or
  both first references are required (`Rings.RingOrdersAgreeExactly`).
- Priors that refer to each other may be followed forever, as with `a = ${b}`, `a = ${a}`,
  `b = ${a}`, `b = ${b}` (`Lookbacks.MutualPriorsNeverEnd`): always when the look-backs
  lead round in a closed set of references (`Lookbacks.ClosedLookbacksNeverEnd`), and
  never when the references a run can meet look back only at references that rank below
  them (`Lookbacks.EndsWherePriorsDescend`).  Priors beside plain data may refer to each
  other as they like (`Lookbacks.PriorsOfDataEnd`).
- Only one prior is kept for a key, so a save may lose a layer: with
  `o = ${?o} b`, `o = c`, `o = d` for objects of data b, c and d the keys of b are lost,
  and the result is that of the layers exactly when c and d bury them
  (`Losses.ThirdLayerLosesFirst`).  The chain means its layers when every save keeps what
  lies below (`Chains.ChainsAreLayers`), and a further reference to the key reads the
  layers exactly when the last save does (`Losses.ReadsBackExactly`).  Scalars, arrays,
  references to the key and concatenations with one as the last piece or the last but one
  always keep it (`Keeps.FormKeeps`); one further to the front may not
  (`Keeps.FarReferenceHides`); a literal of data keeps an object exactly when it covers it
  (`Keeps.DataKeepsExactly`).
- Object literals in a row are merged before the references in them are resolved.  With
  `k = p`, `k { h = ${k} }`, `k = z` for objects of data p and z the reference is read
  again inside the merged object; the result is that of the layers exactly when z has
  something at `h` that closes it (`Overlays.EarlierLiteralAgreesExactly`), which an object
  without a scalar or an array at the end of its own fields `h` never does
  (`Overlays.OpenDiffers`).  Merging at once is merging the layers when nothing in the
  earlier object that stays visible refers to the key (`Joins.JoinedLayer`), as is always
  so for literals of data (`Chains.DataStaysCalm`).  An undefined optional field over an
  earlier one changes no more than the order of fields (`Chains.ChainsAreLayersInAnyOrder`).
- A self-reference to a field inside a literal is searched among the pieces of the value
  and of its concatenations, not inside its arrays (internal/resolver/foldselfref.go:570-588).
  With `o { l = x }`, `o { l = [${?o.l} y] }` behind the first literal nothing is saved for
  it: the inner array comes to y alone where the layers have x and y, the same exactly when
  x is empty (`InteriorRuns.InnerReferenceLosesFirst`, for all arrays of data).
- The literal before the last one is read again where the last one looks back: an error in
  it spoils a document whose layers come to a value.  Otherwise, where the self-references
  are seen, any number of literals come to their layers, exactly
  (`Interiors.RowsAreLayers`).
- A receiver that saved an object as the prior of a key no longer bars later
  fallbacks at that key (`MergeLaws.BarrierLostExample`); the barrier holds exactly
  under the condition of `MergeLaws.BarrierHoldsUnlessObjectPrior`.
- An unresolved merge carries one prior for a key where one document has all of them.
  With `a = x`, `a = ${a}y`, `a = ${a}z`, cut into a fallback and a receiver behind the
  first or the second assignment, it comes to `xz` and the document to `xyz`
  (`FallbackRuns.FallbackLosesAppend`, for all texts).  The merged tree is that of the
  document exactly when every prior is carried (`Carries.FallbackIsEarlierDocument`, key by
  key in `Carries.CarriedExactly`).
- Where an object literal of the receiver meets one of the fallback, no prior is saved at
  all.  Over a fallback of plain data the result is that of the layers when no such literal
  refers to its own key, and an error when one requires it
  (`DataFallbacks.DataFallbackExactly`).
- A literal is not read back behind itself when a quote follows an empty or a
  triple-quoted one; `Literals.LiteralReadsBack` says so in both directions.

## Model

| member | source | states |
|---|---|---|
| Paths.SplitPathInvertsKeyOf | config.go:145-185 | reading back the key printed for any list of segments gives exactly those segments |
| Paths.KeysNeverCollide | internal/resolver/path.go:16-44 | two paths have the same key only if they are the same path |
| Paths.SegmentsToKey | internal/resolver/path.go:32-44 | the printing loop yields the key, and reading it back yields the segments |
| Paths.SplitPathScan | config.go:145-185 | the reading loop computes the segments for every text, malformed ones included |
| Paths.RemainderIsExact | internal/resolver/foldselfref.go:174-185 | a reference has a remainder below the key of p exactly when its path is p followed by at least one more segment, and that is the remainder |
| Fold.HitIgnoresReplacement | internal/resolver/foldselfref.go:47-167 | detecting a self-reference gives the same answer with and without a replacement |
| Fold.FoldedIsFree | internal/resolver/foldselfref.go:47-167 | folding against a value free of the key leaves no live reference to it; without a hit the value is unchanged and had none |
| Fold.SavedPriorIsFree | internal/resolver/foldselfref.go:275-303 | from a running prior free of its key only such values are saved, whatever is overwritten |
| Fold.RefillIsFold | internal/resolver/foldselfref.go:305-554 | folding optional exact self-references to absent and refilling later equals folding at once |
| Fold.RefillLeavesNoSentinel | internal/resolver/foldselfref.go:448-554 | a refilled value holds a sentinel exactly when it had one and the replacement brings one |
| Folding.FoldSelfRefWalk | internal/resolver/foldselfref.go:47-167 | the walk with its lazily begun copies computes the fold and its hit flag |
| Folding.FoldAbsentWalk | internal/resolver/foldselfref.go:310-371 | the walk computes the fold to absent, and fails exactly where a required self-reference stands |
| Folding.RehydrateWalk | internal/resolver/foldselfref.go:448-554 | the walk replaces every sentinel by one value, arrays not being spliced, and nothing else |
| Merge.MergeObjectConcatLoop | internal/resolver/resolver.go:1472-1496 | the loop gives left's keys first, right winning key by key and recursively, with no priors |
| Merge.MergePriorLayersLoop | internal/resolver/foldselfref.go:234-261 | the loop merges top over base and carries both layers' priors, top's first |
| Merge.DeepMergeAtLoop | internal/resolver/resolver.go:230-296 | the loop's values, key order and saved, stitched and carried priors for every pair of objects |
| Merge.MergeUnresolvedLoop | internal/resolver/resolver.go:111-214 | the loops' values, key order, captured and rehydrated priors for every receiver and fallback |
| MergeLaws.PriorLayersIsConcat | internal/resolver/foldselfref.go:234-261 | on concrete trees the layer merge of folding is object concatenation, key order included |
| MergeLaws.UnresolvedShowsConcat | internal/resolver/resolver.go:111-214 | on concrete trees the WithFallback merge shows the object concatenation, key order included; only priors are added |
| MergeLaws.DeepMergeIsConcat | internal/resolver/resolver.go:217-296 | on concrete trees the deep merge is the concatenation as a map at every depth, with the winner's keys first |
| MergeLaws.FallbackStacksLayers | internal/resolver/resolver.go:111-214 | merging what stands for layers la over what stands for lb gives what stands for la followed by lb, the barrier carried in the priors |
| MergeLaws.ChainMeansLayers | config.go:1375-1386 | any bracketing of WithFallback over concrete configs means its list of layers: objects merge up to the first non-object, everything behind that is barred |
| MergeLaws.BracketsDoNotMatter | config.go:1356-1386 | two bracketings of the same configs show the same values in the same key order |
| MergeLaws.ChainAtEveryPath | config.go:1356-1386 | at every path the chain shows the merge of the layers found there, or the first one if that is no object |
| MergeLaws.BarrierHoldsUnlessObjectPrior | internal/resolver/resolver.go:111-214 | a non-object fallback bars the objects behind it exactly when the receiver has no object prior at the key |
| MergeLaws.BarrierLostExample | internal/resolver/resolver.go:111-214 | a receiver with an object prior on which a later object gets through |
| Concats.NumericToArrayIs | internal/resolver/numeric_array.go:50-95 | there is an array exactly when a key is a canonical numeral within int32, and it lists the values of all such keys by ascending number |
| Concats.NumericIgnoresOrder | internal/resolver/numeric_array.go:50-95 | the array does not depend on the order of the object's keys |
| Concats.NumericObjectToArray | internal/resolver/numeric_array.go:50-95 | the collecting loop, the sort and the copy compute that array |
| Concats.JoinConcatLoop | internal/resolver/resolver.go:1256-1470 | the loops over resolved pieces compute the join that the laws of `Pieces` tell: undefined ones and separators dropped, text joined with them, containers joined pairwise, type errors |
| Pieces.OnePiece | internal/resolver/resolver.go:1506-1523 | a single piece of text is its raw text, whitespace between pieces too, and an undefined one is nothing |
| Pieces.TextSplits | internal/resolver/resolver.go:1506-1515 | text splits anywhere: what two lists of scalars, whitespace and undefined pieces come to stands one behind the other |
| Pieces.EmptyIsSkipped | internal/resolver/resolver.go:1333-1350 | beside a container whitespace and undefined pieces change nothing |
| Pieces.NextPiece | internal/resolver/resolver.go:1352-1368 | containers are joined one after the other from the left |
| Pieces.ArraysJoin | internal/resolver/resolver.go:1376-1445 | two arrays give the elements of the first, then those of the second |
| Pieces.ObjectsJoin | internal/resolver/resolver.go:1376-1445 | two objects give all their fields, the later one's where they differ, joined where both have objects |
| Pieces.ArrayBesideObject | internal/resolver/resolver.go:1376-1445 | an object behind an array, or in front of it, gives the values of its integer keys by ascending number in its place, and is a type error without one |
| Pieces.ContainerThenText | internal/resolver/resolver.go:1376-1445 | a container beside text is a type error |
| Resolver.Resolver.ResolveSubst | internal/resolver/resolver.go:866-1071 | one substitution with cache, cycle set, identity test, look-back and delayed merge, and every field of the resolver as it was, on errors too |
| Resolver.Resolver.ResolveSubstitutions | internal/resolver/resolver.go:771-839 | the walk over fields with its field-path span; only the root's walk adds to the cache |
| Resolver.Resolver.ResolveVal | internal/resolver/resolver.go:841-864 | resolving any value leaves the resolver's fields as they were |
| Elements.ArrayElements | internal/resolver/resolver.go:849-860 | the elements of a resolved array are the values of the elements that are not undefined, all of them and in order |
| Elements.ArrayFails | internal/resolver/resolver.go:849-860 | an array fails with its first element that does |
| Elements.ConcatPieces | internal/resolver/resolver.go:1256-1298 | a concatenation joins what its pieces come to, undefined ones left out |
| Elements.ObjectFields | internal/resolver/resolver.go:771-839 | an object has what its fields come to that are not undefined, under the same keys and in the same order |
| Reaching.ReferenceFindsData | internal/resolver/resolver.go:866-1071 | a reference gives the data that stands at the end of its path, however long |
| Reaching.ReferenceFindsNothing | internal/resolver/resolver.go:866-1071 | a reference whose path ends too early is an error, or undefined when it is optional |
| Descents.DescentResolves | internal/resolver/resolver.go:896-929 | a field that refers below itself comes to what its earlier value has there, laid over that value; where it has nothing, to the earlier value, or to an error when the reference is required |
| Descents.SavedDescent | internal/resolver/foldselfref.go:275-303 | the prior that is saved for such a field comes to the same |
| Descents.FoldedMeans | internal/resolver/foldselfref.go:47-167 | folding a value with such references in arrays and concatenations against an earlier value does not change what it comes to over it |
| Descents.DataOverPrior | internal/resolver/resolver.go:788-836 | data over a saved prior: objects are merged, the later one winning, anything else hides it |
| Resolver.ResolveTree | internal/resolver/resolver.go:438-489 | a fresh resolver computes the specification on every tree and budget |
| ResolveLaws.ResolvedIsFinal | internal/resolver/resolver.go:438-489 | whenever strict resolution succeeds, result and cache hold no placeholder and no prior, and resolving the result again gives it back |
| ResolveLaws.BudgetDoesNotMatter | internal/resolver/resolver.go:771-1071 | a run that ends within a budget ends the same way within any larger one |
| Termination.EndsOnSettledPriors | internal/resolver/resolver.go:866-1071 | phase 2 ends on every tree whose priors hold no live placeholder, cycles included, within one step more than there are reference keys |
| Termination.RequiredCycleIsAnError | internal/resolver/resolver.go:940-969 | on a prior-free tree a cycle of required references always ends in an error, wherever its members stand |
| Lookbacks.EndsWherePriorsDescend | internal/resolver/resolver.go:866-1071 | phase 2 ends on every tree in which the references a run can meet look back only at references that rank below them, whatever cycles there are elsewhere and whatever stands in priors that are never looked at, within a budget of the keys of these references, the paths above them and the ranks |
| Lookbacks.PriorsOfDataEnd | internal/resolver/resolver.go:866-1071 | where every value is plain data and no object, the priors may hold any references, to each other too, and phase 2 ends within any budget above none |
| Lookbacks.ClosedLookbacksNeverEnd | internal/resolver/resolver.go:940-963 | a closed set of references, each leading on whichever way it is taken, is followed forever once the first field that is not data leads to it |
| Lookbacks.MutualPriorsNeverEnd | internal/resolver/resolver.go:940-963 | the tree of `a = ${b}`, `a = ${a}`, `b = ${a}`, `b = ${b}`, whose two priors are the references to the other key, uses up every budget |
| Refines.ResolvingIsPlainEvaluation | internal/resolver/resolver.go:771-1071 | on every tree whose references are well-founded, priors included, cache, cycle set, field path, guards and identity test give exactly the plain evaluation, and the run ends |
| Orders.PriorFreeIsPlainEvaluation | internal/resolver/resolver.go:771-1071 | on every prior-free tree with an acyclic reference graph ResolveTree equals the plain evaluator, in value and in failure |
| Reorders.FieldOrderDoesNotMatter | internal/resolver/resolver.go:771-797 | with the fields of one tree of well-founded references in another order, at any depth, resolution fails too or gives the same values |
| Reorders.OrderlyReordered | internal/resolver/resolver.go:771-797 | whether references are well-founded does not depend on the order of fields |
| Reorders.PriorFreeOrderDoesNotMatter | internal/resolver/resolver.go:771-797 | on every prior-free tree with an acyclic reference graph the order of fields, at any depth, does not matter |
| Rings.RingResolves | internal/resolver/resolver.go:929-969 | a cycle of any length, its references required or optional: an error when the reference of the field walked first is required, otherwise these texts |
| Rings.RingOrdersAgreeExactly | internal/resolver/resolver.go:929-969 | two orders of a cycle's fields give the same exactly when the same member comes first, or no member has a text, or both first references are required |
| Rings.MixedCycleDependsOnOrder | internal/resolver/resolver.go:934-969 | a cycle that is an error in one order and a value in the other |
| Rings.OptionalCycleDependsOnOrder | internal/resolver/resolver.go:934-969 | a cycle of optional references that comes to different values in two orders |
| Histories.HistoryResolves | internal/resolver/resolver.go:929-1003 | every field of a tree with a self-keeping field and references to it from outside, for every order |
| Histories.OutsideSeesOldExactly | internal/resolver/resolver.go:929-1003 | a reference from outside gives the old value exactly when its field stands before the one it refers to, that is while this is not cached |
| Histories.HistoryOrdersAgreeExactly | internal/resolver/resolver.go:929-1003 | two orders agree exactly when every reference from outside stands on the same side in both |
| Histories.HistoryDependsOnOrder | internal/resolver/resolver.go:929-1003 | two whole runs of one document that differ |
| Histories.DescentResolvesExactly | internal/resolver/resolver.go:895-921 | a field defined by a path below itself: resolution succeeds exactly when no reference to it stands before it |
| Limits.FaithfulExactly | internal/resolver/resolver.go:447-452 | no saved prior is mistaken for another path's exactly when no key with a prior is the printed form of another path |
| Limits.EveryPathFindsItsPrior | internal/resolver/resolver.go:1226-1243 | every path finds the prior saved next to it exactly when no key with a prior is the printed form of a path with another |
| Limits.QuotedKeyStealsPrior | internal/resolver/resolver.go:1226-1243 | a document on which the prior of a quoted key is taken for that of a path |
| Assignments.Builder.AssignKey | internal/resolver/resolver.go:657-692 | one assignment: merged value, saved prior in both records, everything else as it was |
| Assignments.BuildTree | internal/resolver/resolver.go:644-692 | the loop over the root's fields of one segment, `+=` desugared |
| Assignments.PriorNeverMentionsItsKey | internal/resolver/resolver.go:657-692 | over every run of assignments to single-segment top-level keys, whatever the values, the prior of a key never mentions the key and both records agree |
| Joins.JoinedLayer | internal/resolver/resolver.go:230-296 | an object literal, its references unresolved, merged at once with the bookkeeping of phase 1 over an object whose visible fields do not refer to the key: resolving the merge is merging what the two are resolved to, failures included, and the order of fields too unless an undefined one hides an earlier one |
| Walks.RootResolves | internal/resolver/resolver.go:771-1071 | what any root is resolved to whose values refer to their own keys and to plain data and whose priors do not refer to their keys, however it came about: each value over what its prior stands for, failures and order of keys included |
| Layers.CoversExactly | internal/resolver/resolver.go:230-296 | merging over an object changes nothing exactly when all its keys are there already, at every depth |
| Chains.SaveStacks | internal/resolver/foldselfref.go:275-303 | one save turns a prior that stands for some layers into one that stands for one layer more, and is skipped exactly when the value demands a layer that is not there |
| Chains.BuiltAndResolved | internal/resolver/resolver.go:657-692 | what building and resolving any run of assignments comes to, in closed form: each value made of data, objects, arrays, concatenations and references, at any depth, to its own key and to keys with plain data; values, order of keys and failures |
| Chains.DataStaysCalm | internal/resolver/resolver.go:660-689 | object literals of data in a row, any number of them, may always be merged at once |
| Chains.SavedExactly | internal/resolver/foldselfref.go:275-303 | over kept layers, a save stands for the layers exactly when the value was merged at once, or shows or hides all that lies below it |
| Keeps.FormKeeps | internal/resolver/foldselfref.go:275-303 | by its form alone a value shows or hides whatever lies below it: a scalar, an array, the reference to the key, or a concatenation with that as the last piece or the last but one, whitespace apart |
| Keeps.FormsAreKept | internal/resolver/foldselfref.go:275-303 | a chain keeps all its layers when every overwritten value is merged at once, keeps by its form, or is an object literal with nothing or only a scalar below it |
| Keeps.FarReferenceHides | internal/resolver/resolver.go:1472-1496 | with two object pieces behind the reference a concatenation may lose a key of what the reference gives |
| Keeps.DataKeepsExactly | internal/resolver/resolver.go:660-689 | a literal of data over a value that comes to an object keeps the layers exactly when it covers that object |
| Keeps.PlainChainsAreLayers | internal/resolver/resolver.go:657-692 | chains of values that keep by their form are resolved to their layers, each save being judged by the look of its value |
| Chains.ChainsAreLayers | internal/resolver/resolver.go:657-692 | when every save keeps what lies below, and where literals follow each other nothing visible refers to the key and no undefined field hides an earlier one, building and resolving any such run equals evaluating each key layer by layer, objects merged, failures and order of keys included |
| Chains.ChainsAreLayersInAnyOrder | internal/resolver/resolver.go:657-692 | the same up to the order of fields, optional fields without a value over earlier ones included |
| Losses.ReadsBackExactly | internal/resolver/resolver.go:672-689 | after saves that kept their layers, one more reference to the key resolves to the layers exactly when the last save keeps them too |
| Losses.LaterObjectsForget | internal/resolver/resolver.go:660-689 | two object literals after a value that comes to an object: the code gives the merge of the two, the layers have that object's keys too |
| Losses.ThirdLayerLosesFirst | internal/resolver/resolver.go:660-689 | for all objects of data b, c, d: `o = ${?o} b`, `o = c`, `o = d` is resolved to d over c, the layers are d over c over b, and the two are equal exactly when c and d bury b |
| Losses.BuriedExactly | internal/resolver/resolver.go:230-296 | d over c equals d over c over b exactly when every key of b is hidden by c or d or covered there, at every depth |
| Overlays.EarlierLiteralAgreesExactly | internal/resolver/resolver.go:657-692 | for every document `k = p`, `k = { h = ${k} }`, `k = z` of objects of data: the resolved document equals the layers, up to the order of fields, exactly when z closes h: it has a value there, and if that is an object, what the reference is followed to adds nothing between it and the layers' value |
| Overlays.OverlaidAgreesExactly | internal/resolver/resolver.go:929-1003 | with an object at h in z, the resolved value in closed form, and the structural condition under which it is that of the layers |
| Overlays.OpenDiffers | internal/resolver/resolver.go:929-1003 | that condition never holds when no scalar or array stands at the end of the nested fields h of z |
| Insertions.AddsNothingExactly | internal/resolver/resolver.go:230-296 | an object of data put between two others changes nothing, up to the order of fields, exactly when at every key it is hidden by the upper one or contained in the lower one |
| Losses.DelayedLayersAreForgotten | internal/resolver/resolver.go:672-689 | behind a value that does not refer to its key the next assignment sees the same whatever came before |
| Appends.AppendsAccumulate | internal/parser/ast.go:60-78 | any number of `+=` after an array or after nothing yields that array followed by the appended values in order |
| Stitches.TwoLiteralsAreOne | internal/resolver/resolver.go:271-289 | two literals in a row, each assigning a field any number of times, leave the prior of one literal with all the assignments, where the later value refers to the field by its path |
| Stitches.FoldedIsFilled | internal/resolver/resolver.go:256-267 | a later value that was folded to nothing is merged to what folding it against the earlier value gives |
| Interiors.RowsResolve | internal/resolver/resolver.go:230-296 | literals `o { l = v1 }` .. `o { l = vn }` in a row, any number of them, whose values refer to `o.l`: what they are resolved to in closed form, failures included |
| Interiors.RowsAreLayers | internal/resolver/resolver.go:282-289 | where the self-references are seen and the layers come to a value, the document comes to it exactly when the literal before the last one can be read again |
| InteriorRuns.ArraysAccumulate | internal/resolver/resolver.go:282-289 | for any number of literals `o { l = [..] }`, `o { l = ${?o.l} [..] }`, .. the field is all their elements in order |
| InteriorRuns.InnerReferenceLosesFirst | internal/resolver/foldselfref.go:570-588 | for all arrays x and y of data: a reference inside an array is not seen, and the result is that of the layers exactly when x is empty |
| Carries.CarriedExactly | internal/resolver/resolver.go:166-212 | at a key of both sides the merged prior is that of one document exactly when an overwritten value of the receiver does not look back, or the fallback leaves nothing to look back at, or its value alone stands for all its assignments and the receiver's overwritten values take that up |
| Carries.FallbackIsEarlierDocument | internal/resolver/resolver.go:111-214 | merging one unresolved tree over another is building one document, the fallback's assignments first, exactly when every prior is carried: values, priors and order of keys, for all documents in which no literals of both sides meet |
| FallbackRuns.FallbackIsLowerLayers | config.go:1375-1386 | when every prior is carried and the joined document is one whose chains mean their layers, resolving the merged tree evaluates the fallback's layers below the receiver's |
| Fallbacks.SavesRefilled | internal/resolver/resolver.go:193-212 | saving a run of values over a prior is saving it over nothing and refilling the bottom with that prior |
| FallbackRuns.FallbackLosesAppend | internal/resolver/resolver.go:166-212 | for all texts `k = x`, `k = ${k}y`, `k = ${k}z`, cut behind the first or the second assignment: the merge is resolved to xz and the document to xyz, equal exactly when y is empty |
| DataFallbacks.MergedGives | internal/resolver/resolver.go:135-175 | resolving any unresolved configuration over a fallback of data, each key assigned once on either side, in closed form: a literal that meets another is evaluated over nothing and laid over it, every other value is evaluated over the fallback's |
| DataFallbacks.DataFallbackExactly | internal/resolver/resolver.go:135-175 | it equals the layers, and so the one document, when no literal that meets one of the fallback refers to its own key, and is an error when one requires it |
| DataFallbacks.MeetingIsNotSaved | internal/resolver/resolver.go:139-151 | where two literals meet the merge has no prior and the document has one, so their trees differ |
| Decimals.TruncProduct | config.go:684-761 | for every numeral and multiplier up to 2^80 the exact decimal product truncated toward zero, or no fit; the early exits and the saturated exponent never change it and int64 never overflows |
| Decimals.ExactMeans | config.go:684-761 | the result's magnitude in cross-multiplied form: the largest integer not above the exact product |
| Decimals.HighNeverFits | config.go:734-738 | a magnitude of at least 10^20 never fits |
| Decimals.LowIsZero | config.go:734-740 | a magnitude below 10^-25 truncates to zero for every unit |
| Units.ReadsWhatIsSpelled | config.go:650-652 | a text is read as a numeral exactly when it spells that numeral in the grammar |
| Units.NumberAndUnitSplit | config.go:654-673 | a number and a unit are found whatever the whitespace, also where the unit starts like an exponent |
| Units.SplitUnitValueScan | config.go:659-673 | the loop computes the split and its errors for every text |
| Units.DivisionBound | config.go:494-497 | the division bound of durations detects overflow exactly |
| Units.WrapThenDivide | config.go:613-619 | the wrap-then-divide test of byte sizes detects overflow exactly |
| Units.ParseDuration | config.go:451-504 | the integer fast path and the exact path give one answer: the exact product or its error |
| Units.ParseBytes | config.go:557-627 | the same for byte sizes, large units included |
| Units.ReadBytes | config.go:518-528 | a byte size is the exact product and not negative |
| Units.MeasuredIs | config.go:451-504 | what any numeral, unit and spacing come to |
| Units.PointZeroMeasuresTheSame | config.go:486-504 | appending ".0" to an integer never changes a duration or a size |
| UnitLaws.NextUnit | config.go:451-504 | any numeral in a unit measures the same as 1000, 60 or 24 times it in the next smaller duration unit, 1000 times in the next decimal and 1024 times in the next binary size unit |
| UnitLaws.SmallestUnit | config.go:460-461 | an integer in nanoseconds or bytes measures itself |
| UnitLaws.SpellingsAgree | config.go:557-627 | all spellings of a unit measure the same, those of the large units included |
| UnitLaws.NoUnit | config.go:459-463 | a missing unit is milliseconds, or bytes |
| UnitLaws.OtherUnits | config.go:478-482 | every other unit is an error |
| Reals.ExactIsTruncated | config.go:684-761 | a unit value is the real number its numeral stands for times the multiplier, cut to an integer towards zero, and nothing exactly when that is no int64 |
| WholeFloats.WholeFloatToInt64 | unmarshal.go:562-663 | for every text, a value exactly when the trimmed text is a float spelling with an int32 exponent of an integer in range, and that integer, without int64 overflow |
| WholeFloats.HeadAndTail | unmarshal.go:629-640 | cut at the point, a numeral is whole exactly when the digits behind are zeros, and then it is the digits in front |
| WholeFloats.TooLong | unmarshal.go:618-628 | with more than 19 digits the value is out of range |
| WholeFloats.WholeMeans | unmarshal.go:562-663 | a float spelling with an int32 exponent is read as v exactly when v is an int64 and the text denotes it: v times the denominator is the signed product of digits and power of ten |
| Reals.WholeIsInteger | unmarshal.go:562-663 | a whole float is the real number its text stands for, when that is an integer and an int64 |
| Lexer.Lexer.NextOne | internal/lexer/lexer.go:157-236 | the next token of the text and the position behind it, for every text |
| Lexer.Lexer.ReadQuotedStringBody | internal/lexer/lexer.go:291-361 | the body loop with all escapes, and where it fails |
| Lexer.Lexer.ReadTripleQuoted | internal/lexer/lexer.go:379-433 | the triple-quoted loop: the last three quotes of the first long run close |
| Lexer.NumberRunTypeScan | internal/lexer/lexer.go:760-807 | the index loops decide the number grammar |
| Lexemes.NumbersAgree | internal/lexer/lexer.go:760-807 | the lexer takes for a number exactly what the unit readers take for one, a leading plus aside, and for a float what has a point or an exponent |
| Lexemes.UnicodeEscape | internal/lexer/lexer.go:329-352 | a four-digit escape is the character with that code, in either case of its digits, and an error for a surrogate |
| Lexemes.NamedEscape | internal/lexer/lexer.go:312-328 | a one-letter escape is read like its code point |
| Literals.LiteralReadsBack | render_hocon.go:164-194 | a printed literal in front of any text is read back as its string and nothing more, exactly unless a quote follows an empty or triple-quoted one |
| Literals.QuoteStringLoop | render_hocon.go:164-194 | the loop writes the literal |
| Parser.Parser.ParseKey | internal/parser/parser.go:626-905 | a key of one token, or of a number and adjacent tokens, and the tokens behind it |
| Parser.Parser.ParseObjectFields | internal/parser/parser.go:207-247 | the fields up to the closing brace or the end, and the tokens behind |
| Parser.Parser.ParseValueNode | internal/parser/parser.go:946-991 | the loop over the pieces of a value computes the value that `Accepts.ValuesExactly` tells |
| Parser.Parser.ParseSingleValue | internal/parser/parser.go:993-1054 | one piece of a value, integers checked against int64 |
| Parser.Parser.ParseArray | internal/parser/parser.go:1056-1077 | the elements up to the closing bracket |
| Parser.ParseText | internal/parser/parser.go:133-194 | the fields of a document without root braces |
| Grammar.ParsesMore | internal/parser/parser.go:969-984 | any pieces of a concatenation, scalars, arrays and objects, are parsed to these pieces in order, each with exactly the whitespace in front of it as a separator where there is any |
| Grammar.ParsesMembers | internal/parser/parser.go:207-247 | any fields, with newlines and commas between them and any separator, are parsed to their paths, values and `+=` marks, in order |
| Accepts.ValuesExactly | internal/parser/parser.go:946-1077 | tokens are parsed as a value exactly when they are one of the written forms, at every depth, and to what that form means |
| Accepts.DocumentsExactly | internal/parser/parser.go:133-247 | tokens are parsed as a document exactly when they are fields up to the end, and to what these fields mean |
| Lines.LexesLine | internal/lexer/lexer.go:157-236 | pieces of a line that stay apart are lexed one by one, each with its whitespace |
| Lines.ParsesLine | internal/parser/parser.go:946-991 | lexing and parsing a line of scalar pieces gives these pieces in order with exactly that whitespace between them |
| Lines.LineComesTo | internal/parser/parser.go:946-991 | from the characters to the resolved value: a line of two or more pieces comes to their texts and the whitespace between them |
| Lines.ProseComesToItself | internal/resolver/resolver.go:1506-1515 | words and whitespace behind a key come to the text as it stands there |
| Lines.CommentTrails | internal/lexer/lexer.go:238-275 | a comment of either kind is skipped up to the end of its line, and no further |
| Rendering.RenderHocon | render_hocon.go:35-112 | the writing loops give the document, or nothing exactly when the tree holds a placeholder |
| RoundTrip.RenderedReadsBack | render_hocon.go:19-194 | for every resolved tree of data, lexing, parsing and building the printed text gives the same tree, keys in the same order |
| RoundTrip.LexBody | internal/lexer/lexer.go:157-236 | the printed fields, in front of any text, lex to their tokens followed by those of the text |
| RoundTrip.ParseBodyOf | internal/parser/parser.go:207-247 | those tokens parse to the fields of the object, nothing more being consumed |
| Includes.Loader.LoadIncludeFile | internal/resolver/resolver.go:1747-1806 | one include; the shared stack is free of duplicates in every call and as before after it, on success and on error |
| Includes.Loader.ResolveObject | internal/resolver/resolver.go:512-531 | the walk over fields ends for every finite set of documents and leaves the stack as it was |
| Includes.CircularExactlyOnCycles | internal/resolver/resolver.go:1755-1767 | on readable documents a circular include is reported exactly when an include cycle can be reached from the root, and nothing else goes wrong |
| Includes.ExpandedIsBare | internal/resolver/resolver.go:1813-1848 | a successful expansion holds no include |
| Inlining.ExpandedExactly | internal/resolver/resolver.go:1747-1848 | an expansion succeeds exactly when the items can be read with no document inside itself, and is that reading: every field of every document reached, in order and in its place, nested objects included |
| Inlining.IncludeIsInlined | internal/resolver/resolver.go:1800-1806 | including a document between a and b is writing its items between them |
| Inlining.IncludeFails | internal/resolver/resolver.go:1755-1799 | what is reported for an include that does not load |
| Nesting.PropsToObjectVal | internal/resolver/resolver.go:1956-2009 | the sort-and-replace loop, for every set of keys |
| Nesting.PropsShapes | internal/resolver/resolver.go:1956-2009 | a path another key extends is an object, every other key is a leaf with its value, and there is nothing else |
| Nesting.Build | adapters/internal/pathmap/pathmap.go:46-95 | the scope-set build fails exactly on an empty path or segment; a value that is an object too is never met |
| Nesting.BuildShapes | adapters/internal/pathmap/pathmap.go:46-95 | the nested map of the scope-set build, path by path |
| Nesting.NestersAgree | adapters/internal/pathmap/pathmap.go:46-95 | both nesters give the same nested map for every order of the keys |

## Left out

- Lenient mode (`AllowUnresolved`), the environment fallback and the list suffix `[]`: phase 2 is modelled strict and with no environment.
- Relativisation of included values (`relativizeVals`) and the lookup of the unprefixed path: it updates trees in place that other values share.
- Objects as heap objects: the value tree is a datatype, so the merges return new objects and the in-place updates and the sharing of subtrees are not captured; a placeholder's identity is an id.
- Which characters count as letters: the Unicode tables are a parameter of the path keys.
- Source positions, error texts and the kinds of resolve errors.
- The merging of included values into their parent object, and nested objects that are built with a path prefix.
- Substitution bodies in the lexer, include directives and substitutions in the parser, keys that go on over a dot or a space, braced roots: a text that reaches them is answered as outside the model.
- Parsing of floats: which float texts `strconv.ParseFloat` accepts is a parameter.
- File access, extension probing and package registries: documents are a map from names.
- `big.Rat` keeps fractions in lowest terms; the model keeps numerator and denominator as they are computed, which gives the same quotient.
- Periods, the getter families, reflection-based decoding, JSON rendering, the other adapters.
- Refines.ResolvingIsPlainEvaluation: is about trees whose references are well-founded. It cannot be about all trees, as `Rings` and `Histories` show; for those two families the exact conditions are given there, for arbitrary trees the condition is sufficient only.
- Lookbacks.EndsWherePriorsDescend: gives a condition under which runs end and `Lookbacks.ClosedLookbacksNeverEnd` one under which they never do; between the two lie other trees, among them such whose cyclic look-backs are cut short by an error or by the cache, or are never reached.
- Chains.ChainsAreLayers: where object literals follow each other (`Joins.Joinable`), a field of the stored object that stays visible must not refer to the key, as it would be read again (`Overlays`), nor may a prior inside it be an object that would be merged (`Losses`), and the layers below must come to a value. The other keys a chain refers to hold plain data.
- Carries.FallbackIsEarlierDocument: is about documents in which no literals of both sides meet at a key; where they do the trees always differ (`DataFallbacks.MeetingIsNotSaved`), and what they are resolved to is compared for fallbacks of plain data, and in `MergeLaws` for concrete configs.
- DataFallbacks.DataFallbackExactly: a literal that refers to its own key only optionally and meets one of the fallback is answered by `DataFallbacks.MergedGives`, in closed form and without a condition on the text.
- Assignments.BuildTree: leaves out keys of several segments (`setPath`) and include directives.
- Decimals.TruncProduct: texts of 10^18 characters and more are excluded, as the source excludes them by its saturated exponent.
- Nesting.PropsToObjectVal: gives the nested map but not the order of its keys.
- Interiors.RowsResolve: is about literals of one and the same field, with references to its path only and no objects among the pieces of its values.
- Accepts.DocumentsExactly: is about what is accepted; it does not tell a rejection from "outside the model".
- Lines.ProseComesToItself: words do not begin like numbers here; `Lines.LineComesTo` has numbers and quoted pieces too.
- Lexer.Lexer.NextOne: answers a substitution with a token that stands for "outside the model".
- Parser.Parser.ParseKey: stops with the answer "outside" where a key goes on over a dot or whitespace.
- Parser.Parser.ParseObjectFields: answers "outside" at an include directive.
- Parser.Parser.ParseValueNode: answers "outside" at a substitution.
- Parser.Parser.ParseSingleValue: answers "outside" at a substitution.
- Parser.ParseText: answers "outside" for a document with root braces.
- Includes.Loader.ResolveObject: keeps the expanded fields in a list and does not merge them into the parent.
