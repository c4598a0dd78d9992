# Phoenix: a verification model

This project models, in Dafny, the parts of the Phoenix code generator, its shared sort and its benchmark tools where
the behaviour is hardest to see from one function, and proves what they are for. Names below are modules of the project.

* **The Go validator compiler** (`Schema`, `TypeScan`, `GoValidator`, `GoValidatorCorrect`, `Hiding`, `GoPackage`). Struct types,
  possibly recursive, become `Validate()` methods. The output is a statement tree with an interpreter over Go values
  (nil pointers, slices, maps, nested records). The searches that gate emission run on one shared visited set.
* **The constraint printers** (`Constraints`, `Grammar`, `Parser`, `TextTree`, `PythonPrinter`, `GoPrinter`, `Guards`).
  A `where` clause is printed with the fewest parentheses for Python, and fully parenthesised and then stripped for Go.
  Texts are token sequences. A recursive-descent parser, proved equivalent to the grammar, says how a text is read,
  once under the printer's own `PREC_*` table and once under Python's rules (sections 6.10 and 6.17 of the Python
  Language Reference: comparisons chain, `not` is weaker than a comparison). An evaluator per language says what it means;
  Go's tells a pointer from what it points to.
* **The response decoder** (`PyDecode`, `ClientImports`): Python comprehensions that reuse `item`, `k`, `v` at every
  level, with Python's scoping, and the imports the client file needs for them.
* **The stable sort and its use** (`MergeSort`, `SortOn`, `RouteOrder`): the bottom-up merge sort on two swapped arrays with a
  comparator that may fail, and the route order built on a stable sort.
* **OpenAPI** (`Pruning`, `Intervals`, `SchemaKeywords`): the worklist over `$ref`s, and the translation of constraints to JSON Schema
  keywords (sections 6.2.2 to 6.2.5, 6.3.1 and 6.3.2 of JSON Schema Validation 2020-12).
* **The benchmark harness** (`LinkCache`, `Watchdog`): the two-level locking protocol as interleaved steps of any number
  of callers, and the polling loop with doubling intervals.
* **Smaller generators and files** (`LocalNames`, `MultiStatus`, `Strings`, `PauseBaseline`).

Environment choices are parameters: regular expressions, the currency table and evaluated constraints (`Oracles` in the
validator model), the length measure, the comparator, the clock and the scheduler, the hash and the linker.

## Where the code and its promises part

The model follows the code. Each of these is stated as a theorem with the exact condition or a concrete counterexample.

* The comment at `go.rs:2841-2848` says that a fresh and a threaded `visited` set agree. A nested call can answer
  differently (`ThreadedCanDiffer`), but only inside a search that hits anyway (`NestedDiffersOnlyOnHit`). The gates are
  not affected, since each top-level call starts from an empty set (`ScanIsReachability`).
* `emit_value_validate` folds one `Option`, while the gate looks through any number, so a field of type
  `Option<Option<Uuid>>` is never checked (`DoubledOptionAccepted`). As the element of a list or map, or where it leaves
  a package without any use of `fmt`, the generated Go does not compile (`CompilesIff`). `ValidatorAcceptsIffValid` says
  on every checked schema exactly for which values acceptance is validity, and `DecidesIffNothingHidden` exactly for
  which structs it is validity on all values.
* The Python printer treats comparisons as left-associative and `not` as a tight prefix operator, and it drops the
  precedence of a `contains` argument. `RoundTripPython` gives the exact set of constraints that Python reads as
  written. Outside it, `(self == 1) == false` rejects a valid value (`ChainRejectsValidValue`) and `(self == 0) == false`
  accepts an invalid one (`ChainAcceptsInvalidValue`).
* `self.contains` on a list passes the type checker. Python decides the constraint, but the printed Go calls a string
  function on the list (`ListContainsParts`).
* A bound that repeats a keyword with a looser number overwrites the earlier one in the schema
  (`LooserRepeatLosesBound`), and on a list field `minLength` and `maxLength` say nothing, so a bound on its length is
  lost (`ListLosesLength`). `ExactIffLossless` says exactly for which constraints and fields something is lost.
* A decoder whose type is named like a loop variable, or whose builtin is named like a parameter, calls the variable
  instead (`ItemTypeCaptured`, `StrParameterCaptures`), and a response of an enum type raises, since the class is called
  on the unpacked name of a variant (`EnumResponseRaises`). The exact condition is in `DecoderCorrectIff`.
* A benchmark id ending in `/` does not survive the baseline table (`CombineInvertsSplit`, `RoundTripIff`).
* The specificity key is a heuristic for incomparable routes (`IncomparableOverlap`).

## Model

| member | source | states |
|---|---|---|
| TypeScan.TypeNeeds | crates/phoenix-codegen/src/go.rs:2819-2836 | the search over a type on one shared set computes `ScanType`: same answer, same final set, and the calls made on the way are those of `CallsOfType`, for the Go gate and the three Python scans |
| TypeScan.StructNeeds | crates/phoenix-codegen/src/go.rs:2849-2865 | the same for a struct name, short-circuit over fields included; both terminate on every cyclic graph |
| TypeScan.VisitedSet.Insert | crates/phoenix-codegen/src/go.rs:2854-2856 | inserts a name and says whether it was new |
| TypeScan.ScanIsReachability | crates/phoenix-codegen/src/python.rs:2600-2687 | from any visited set the search hits exactly when a counting struct or leaf is reachable by a path of the struct graph outside that set |
| TypeScan.PythonScanFinds | crates/phoenix-codegen/src/python.rs:2581-2687 | the three Python scans hit exactly when a path of struct fields, through any generic arguments, ends at a field type that contains `DateTime`, respectively `Uuid`, respectively `Decimal` or `Money`; a constraint is no hit |
| TypeScan.DateTimeFieldFound | crates/phoenix-codegen/src/python.rs:2586-2587 | a struct with one `DateTime` field is found by that scan and by no other |
| TypeScan.NestedDiffersOnlyOnHit | crates/phoenix-codegen/src/go.rs:2841-2848 | inside one search from an empty set, a call on the threaded set answers otherwise than a fresh one only if the whole search hits: behind a closed gate every answer was the fresh one |
| TypeScan.ThreadedCanDiffer | crates/phoenix-codegen/src/go.rs:2841-2848 | a two-struct cycle and a call really made in its search whose threaded answer differs from the fresh one |
| TypeScan.NeedsStruct | crates/phoenix-codegen/src/go.rs:2857-2864 | fresh-set gate of a struct: it is declared and has a field that is constrained or whose type passes its own fresh-set gate |
| TypeScan.NeedsWrapper | crates/phoenix-codegen/src/go.rs:2821-2832 | fresh-set gate of a wrapper: a leaf, or some walked argument passes its own fresh-set gate |
| GoValidator.EmitValueValidate | crates/phoenix-codegen/src/go.rs:2878-2976 | appends exactly the statements of `EmitValue` to the buffer and exactly their matchers to the matcher set |
| GoValidator.EmitElementLoop | crates/phoenix-codegen/src/go.rs:2930-2975 | the list and map arms: one loop over the element checks, nothing when elements need none |
| GoValidator.RenderConstraints | crates/phoenix-codegen/src/go.rs:2728-2747 | appends one guard per constrained field, in field order, with the nil test for pointer fields |
| GoValidator.RenderNested | crates/phoenix-codegen/src/go.rs:2749-2762 | appends the checks of the fields' contents in order, with their matchers |
| GoValidator.RenderValidateFn | crates/phoenix-codegen/src/go.rs:2709-2765 | constraint guards first, then content checks; matchers recorded |
| GoValidatorCorrect.EmitGateIsCallGate | crates/phoenix-codegen/src/go.rs:1088-1114 | a method is emitted for a struct exactly when a nested call to it would be generated (and it is emitted as a Go type) |
| GoValidatorCorrect.EmittedFindsProblem | crates/phoenix-codegen/src/go.rs:2878-2976 | on every checked schema, running the code emitted for a value reports exactly the first problem of that value outside doubled options, at any nesting of lists, maps, records and options, nil slices and maps included; loop variables of outer loops are never captured |
| GoValidatorCorrect.ValidateDecides | crates/phoenix-codegen/src/go.rs:2691-2765 | on every checked schema, calling `Validate()` on a record of any struct graph returns exactly its first problem outside doubled options |
| GoValidatorCorrect.ValidIffClean | crates/phoenix-codegen/src/go.rs:2806-2836 | a value is valid exactly when it has no problem the emitted code can see and hides none under a doubled option |
| GoValidatorCorrect.ValidatorAcceptsIffValid | crates/phoenix-codegen/src/go.rs:2691-2976 | on every checked schema the validator never panics and rejects invalid values only, and acceptance is validity exactly unless all that is wrong with the value is hidden under a doubled option |
| GoValidatorCorrect.SingleOptionsDecide | crates/phoenix-codegen/src/go.rs:2691-2976 | in a schema whose validated types double no option, the validator accepts exactly the valid values |
| GoValidatorCorrect.NoMethodNoInvalidValue | crates/phoenix-codegen/src/go.rs:1112-1114 | every value of a struct without a method is valid |
| GoValidatorCorrect.ErrorNamesFirstBadField | crates/phoenix-codegen/src/go.rs:2722-2763 | an error names the first field whose constraint fails, or if none fails the first field whose content is invalid other than under a doubled option |
| GoValidatorCorrect.ScalarSamples | crates/phoenix-codegen/src/go.rs:2785-2798 | the statements for `Uuid`, `Decimal`, an optional `Url` and an optional struct, each scalar with its own matcher |
| GoValidatorCorrect.CollectionSample | crates/phoenix-codegen/src/go.rs:2930-2975 | the statements for a map of lists of `Money`: two nested loops around a call |
| Hiding.DecidesIffNothingHidden | crates/phoenix-codegen/src/go.rs:2878-2893 | a validator decides validity of every record under every oracle exactly when no path of fields leads from its struct to a doubled option above something to validate |
| Hiding.DecidesWhereNothingHides | crates/phoenix-codegen/src/go.rs:2878-2976 | whatever other structs hold, a validator from whose struct no such option is reachable decides validity |
| Hiding.WronglyAccepted | crates/phoenix-codegen/src/go.rs:2889-2893 | for every such path an oracle and a record that is invalid and accepted |
| GoPackage.EmitValidateMethod | crates/phoenix-codegen/src/go.rs:994-1128 | a method is added exactly under the emit gate, with the body and matchers of the struct |
| GoPackage.EmitPackage | crates/phoenix-codegen/src/go.rs:286-403 | the methods of all declarations, `Money` exactly where a field, a response or a page item mentions it, and exactly the matchers that these and the query and header parameters refer to |
| GoPackage.SchemaUsesMoney | crates/phoenix-codegen/src/lib.rs:130-159 | holds exactly when a field, a response or a page item has a type that is `Money` or has it among its generic arguments |
| GoPackage.RegisterParamMatchers | crates/phoenix-codegen/src/go.rs:300-312 | registers exactly the matchers of the parameters, looking through one `Option` or `List` |
| GoPackage.NoDanglingCall | crates/phoenix-codegen/src/go.rs:2908-2928 | every emitted nested call, on a struct or on `Money`, targets a method the package has |
| GoPackage.RouteValidatesBody | crates/phoenix-codegen/src/go.rs:1826-1838 | the route's own copy of the gate calls `Validate()` on a body exactly when the body type has the method |
| GoPackage.CheckedIffNotDoubled | crates/phoenix-codegen/src/go.rs:2889-2893 | a type that passes the gate is given a check exactly when it has no doubled `Option` |
| GoPackage.MethodNotEmpty | crates/phoenix-codegen/src/go.rs:2817-2818 | without doubled options every emitted method has a body |
| GoPackage.ValueCompilesIff | crates/phoenix-codegen/src/go.rs:2930-2975 | the code for a type uses each of its range variables exactly when no list or map element is a doubled option |
| GoPackage.CompilesIff | crates/phoenix-codegen/src/go.rs:2704-2722 | Go compiles the validators exactly when no validated field has a doubled option as a list or map element and, if there is a method at all, some check or the `Money` type uses the imported `fmt` |
| GoPackage.MoneyResponseUsesFmt | crates/phoenix-codegen/src/lib.rs:130-150 | a struct with a doubled option alone does not compile, and does beside an endpoint that responds with `Money` |
| GoPackage.DoubledPasses | crates/phoenix-codegen/src/go.rs:2889-2893 | a doubled option in code that Go compiles is the field's own type, and nothing is checked there |
| GoPackage.AgreesIffNotHidden | crates/phoenix-codegen/src/go.rs:2889-2893 | the code for one field accepts exactly the valid values unless all that is wrong with the value is hidden under a doubled option |
| GoPackage.DoubledOptionAccepted | crates/phoenix-codegen/src/go.rs:2889-2893 | a package that compiles and an invalid value that its method accepts |
| Parser.ParseIsDerivation | crates/phoenix-codegen/src/python.rs:3203-3216 | the reference parser accepts exactly the texts the grammar derives and returns their derivation |
| Parser.Unambiguous | crates/phoenix-codegen/src/python.rs:3203-3216 | no text has two derivations, under either grammar |
| TextTree.ReadsBackIff | crates/phoenix-codegen/src/python.rs:3218-3224 | a rendering is read as its own tree exactly when the grammar derives it as rendered |
| TextTree.LeanIsShortest | crates/phoenix-codegen/src/python.rs:3205-3209 | a rendering with needed parentheses only is no longer than any derivable rendering of the same tree |
| PythonPrinter.LayoutPrints | crates/phoenix-codegen/src/python.rs:3225-3324 | the printed tokens and precedence are those of the rendering the proofs speak of |
| PythonPrinter.RoundTripOwnTable | crates/phoenix-codegen/src/python.rs:3225-3324 | under the printer's own table the text is read as the constraint's tree exactly when no `contains` argument is a bare `and` or `or` |
| PythonPrinter.RoundTripPython | crates/phoenix-codegen/src/python.rs:3225-3324 | Python reads the text as the constraint's tree exactly when no comparison is an operand of a comparison, no `not` stands under a tighter operator and `contains` arguments bind tightly enough |
| PythonPrinter.ShortestText | crates/phoenix-codegen/src/python.rs:3205-3209 | no text with the same tree is shorter, so no parenthesis can be dropped |
| GoPrinter.StripOuterParens | crates/phoenix-codegen/src/go.rs:3098-3123 | on every token sequence the scan stays in range and returns the text without its outer pair exactly when one pair encloses all of it |
| GoPrinter.StripsEnclosingPair | crates/phoenix-codegen/src/go.rs:3085-3123 | on a rendering the stripped pair is the outermost one and nothing else |
| GoPrinter.GoLayoutPrints | crates/phoenix-codegen/src/go.rs:3408-3496 | the printed tokens are those of the rendering the proofs speak of |
| GoPrinter.RoundTripGo | crates/phoenix-codegen/src/go.rs:3398-3496 | Go reads every printed and stripped constraint as its own tree, on all constraints |
| Guards.PythonKeepsMeaning | crates/phoenix-codegen/src/python.rs:3225-3324 | evaluating the Python tree gives the constraint's value |
| Guards.GoKeepsMeaning | crates/phoenix-codegen/src/go.rs:3408-3496 | on a value field and on a pointer field the Go tree, with its dereferences, has the constraint's value |
| Guards.DereferencesNeeded | crates/phoenix-codegen/src/go.rs:3408-3424 | without them it has that value on a pointer field exactly if evaluation never comes to `self` |
| Guards.GuardPrints | crates/phoenix-codegen/src/python.rs:3381-3459 | the Python guard's tokens, `not in` special case and presence test included |
| Guards.SpecialPython | crates/phoenix-codegen/src/python.rs:3252-3282 | the tokens for `self.length`, `self.contains(..)` and its negation |
| Guards.SpecialGo | crates/phoenix-codegen/src/go.rs:3460-3484 | the tokens for them in Go, on a value and on a pointer field |
| Guards.SpecialMeaning | crates/phoenix-codegen/src/python.rs:3252-3282 | `self.contains(t)` holds of a string exactly when `t` stands somewhere in it |
| Guards.PythonGuardReadsIff | crates/phoenix-codegen/src/python.rs:3381-3459 | Python reads the guard's text as the guard it stands for exactly when the constraint is faithful |
| Guards.PythonGuardFires | crates/phoenix-codegen/src/python.rs:3326-3459 | on a faithful constraint the guard's text is true in Python exactly for a present value that violates the constraint |
| Guards.GoGuardReads | crates/phoenix-codegen/src/go.rs:2728-2747 | Go reads the stripped, negated and nil-guarded text as the guard it stands for |
| Guards.TargetsAgree | crates/phoenix-codegen/src/go.rs:2728-2747 | both guards, each read and run by its own language, fire on the same field values; an optional field is a nil-able pointer in Go |
| Guards.ListContainsParts | crates/phoenix-codegen/src/go.rs:3471-3484 | where evaluation comes to `self.contains` on a list the Python guard decides the constraint and the Go guard is stuck |
| Guards.ChainedText | crates/phoenix-codegen/src/python.rs:3283-3304 | the text printed for `(self == n) == false` is a chained comparison in Python |
| Guards.ChainRejectsValidValue | crates/phoenix-codegen/src/python.rs:3283-3304 | with `n` 1 the Python guard rejects the valid value 0 that the Go guard accepts |
| Guards.ChainAcceptsInvalidValue | crates/phoenix-codegen/src/python.rs:3283-3304 | with `n` 0 it accepts the invalid value 0 that the Go guard rejects |
| PyDecode.DecoderComputesDecode | crates/phoenix-codegen/src/python.rs:2502-2545 | for every nesting of types that hides no called class and does not end at an enum, the generated expression, evaluated with comprehension scoping, is the direct recursive decoding of its source |
| PyDecode.CapturedRaises | crates/phoenix-codegen/src/python.rs:2522-2531 | if a called class is hidden by a local or loop variable, or the type ends at an enum, some value that ought to decode raises |
| PyDecode.DecoderCorrectIff | crates/phoenix-codegen/src/python.rs:2502-2545 | the decoder is right on all values and constructors exactly when nothing is hidden and the type does not end at an enum |
| PyDecode.ItemTypeCaptured | crates/phoenix-codegen/src/python.rs:2522-2524 | decoding a list of a type named `item` raises |
| PyDecode.StrParameterCaptures | crates/phoenix-codegen/src/python.rs:2505-2507 | decoding a `String` response beside a parameter `str` raises |
| PyDecode.EnumResponseRaises | crates/phoenix-codegen/src/python.rs:2522-2522 | decoding a response of an enum type raises on every variant name, whatever its class would make of it |
| PyDecode.DecoderSamples | crates/phoenix-codegen/src/python.rs:2522-2541 | the expressions for a map of lists of instants and for an optional struct |
| ClientImports.DecoderIsClosed | crates/phoenix-codegen/src/python.rs:2502-2572 | every free name of a decoder is its source, a builtin, or covered by the type's import flags and collected model names |
| ClientImports.HeaderBindsRight | crates/phoenix-codegen/src/python.rs:1000-1067 | each constructor a decoder calls is the one meant exactly when no imported model has the name of a builtin or standard-library one |
| ClientImports.LeavesAreCalled | crates/phoenix-codegen/src/python.rs:2502-2545 | the callees of a decoder are the constructors of the leaves of its type |
| ClientImports.NameSet.Collect | crates/phoenix-codegen/src/python.rs:3164-3201 | the recursive collector adds exactly the model names of a type |
| ClientImports.ModelNamesIff | crates/phoenix-codegen/src/python.rs:3164-3201 | these are the names of structs, enums and interfaces, of `Money`, `Url` and `Bytes`, and of other generic types, anywhere in the type |
| ClientImports.UsesIff | crates/phoenix-codegen/src/python.rs:2554-2576 | a type uses a leaf exactly when it is the leaf or has it among its generic arguments |
| ClientImports.BareResponseUses | crates/phoenix-codegen/src/python.rs:295-304 | the response part of the import gate holds exactly when some inline-decoded response mentions the leaf |
| ClientImports.NeedsImport | crates/phoenix-codegen/src/python.rs:155-163 | the gate of a standard-library name holds exactly when a parameter, a header or an inline-decoded response mentions the leaf |
| ClientImports.EmitClientImports | crates/phoenix-codegen/src/python.rs:955-1067 | the whole header: each inline decoder of the file finds all its names, bound to what is meant unless an imported model of that name hides it; standard-library and model imports are exactly those of the parameters, headers, looked-at responses and generated classes |
| MergeSort.MergeBlock | crates/phoenix-common/src/algorithms.rs:52-78 | merges two neighbouring blocks into the other buffer, leaving what is before it, or stops at the first comparator error |
| MergeSort.OnePass | crates/phoenix-common/src/algorithms.rs:50-80 | one pass over the whole array is the pure pass on its contents |
| MergeSort.MergeSortBy | crates/phoenix-common/src/algorithms.rs:35-86 | the array program with swapped buffers computes `SortRun`: result or error, and the sequence of comparator calls |
| MergeSort.SortPermutes | crates/phoenix-common/src/algorithms.rs:28-34 | whatever the comparator answers, a finished run is a permutation of its input: no placeholder survives |
| MergeSort.ErrorsAndCalls | crates/phoenix-common/src/algorithms.rs:59-59 | at most n times ceil(log2 n) calls; the first error is returned unchanged and is the answer to the last call made |
| MergeSort.IndexArithmeticFits | crates/phoenix-common/src/algorithms.rs:50-84 | below 2^63 elements no index or width expression leaves 64 bits |
| MergeSort.SortIsStable | crates/phoenix-common/src/algorithms.rs:35-86 | for a total preorder the run succeeds with an ascending result that keeps the order of tied elements |
| SortOn.SortIsStableOn | crates/phoenix-common/src/algorithms.rs:35-86 | the same for a comparator that is orderly on the elements sorted only |
| MergeSort.StableSortUnique | crates/phoenix-common/src/algorithms.rs:35-86 | only one sequence is the stable sort of the input |
| RouteOrder.OrderRoutes | crates/phoenix-codegen/src/python.rs:227-228 | the registration order of the endpoints is the stable sort by the specificity key of their paths |
| RouteOrder.SegmentLaws | crates/phoenix-codegen/src/lib.rs:232-234 | the segments of a path, by two laws: a slash separates, and a piece without slashes is one segment unless empty |
| RouteOrder.KeysLexicographic | crates/phoenix-codegen/src/lib.rs:215-218 | at the first difference the smaller entry sorts first, and a prefix before what it begins |
| RouteOrder.DocumentedKeys | crates/phoenix-codegen/src/lib.rs:219-220 | `/api/posts/paged` and `/api/posts/{id}` have the keys `[0, 0, 0]` and `[0, 0, 1]`, and the first sorts earlier |
| RouteOrder.SpecificFirst | crates/phoenix-codegen/src/lib.rs:207-220 | a route is registered before each route it strictly specialises |
| RouteOrder.FirstMatchIsMaximallySpecific | crates/phoenix-codegen/src/python.rs:222-228 | for every request that some route answers, the first route of its method that matches is not strictly more general than any other such route |
| RouteOrder.FirstMatchIsMostSpecific | crates/phoenix-codegen/src/lib.rs:205-213 | where the answering routes are pairwise comparable, the picked one is the most specific of them: each of them answers all it answers |
| RouteOrder.PickIgnoresSourceOrder | crates/phoenix-codegen/src/lib.rs:222-230 | then, without colliding routes, the order of declaration does not influence the pick |
| RouteOrder.EqualKeysKeepSourceOrder | crates/phoenix-codegen/src/lib.rs:216-220 | for each key the sorted list and the source hold the same endpoints of that key in the same order |
| RouteOrder.SpecialisesIff | crates/phoenix-codegen/src/lib.rs:206-225 | one route specialises another exactly when it matches no request the other does not match |
| RouteOrder.MatchLaws | crates/phoenix-codegen/src/python.rs:222-226 | segment by segment, a parameter takes anything and a literal itself |
| RouteOrder.IncomparableOverlap | crates/phoenix-codegen/src/lib.rs:220-230 | two overlapping routes neither of which specialises the other, with the one the order picks |
| Pruning.Enqueue | crates/phoenix-codegen/src/openapi.rs:143-166 | reachable set and queue grow by exactly the new names, each queued once |
| Pruning.Explore | crates/phoenix-codegen/src/openapi.rs:150-168 | one worklist step keeps the search invariant and makes progress |
| Pruning.Prune | crates/phoenix-codegen/src/openapi.rs:117-172 | keeps everything when there are no operations, and otherwise exactly the schemas reachable from the paths through present schemas, unchanged |
| Pruning.CollectIsMentions | crates/phoenix-codegen/src/openapi.rs:121-141 | the collected names are exactly the targets of `$ref`s somewhere inside the value |
| Pruning.SameReachable | crates/phoenix-codegen/src/openapi.rs:104-116 | pruning does not change what is reachable |
| Pruning.PruneTwice | crates/phoenix-codegen/src/openapi.rs:117-172 | pruning a pruned set changes nothing |
| Pruning.PrunedIsClosed | crates/phoenix-codegen/src/openapi.rs:104-116 | references that resolved still resolve, and each schema left is reachable among those left |
| Pruning.PrunedIsLeast | crates/phoenix-codegen/src/openapi.rs:104-116 | every set with the roots and closed under references contains what is kept |
| SchemaKeywords.ExtractSchemaConstraints | crates/phoenix-codegen/src/openapi.rs:643-729 | writes into the schema object exactly the keywords of `Extracted`, later ones over earlier ones |
| SchemaKeywords.RecognisedIff | crates/phoenix-codegen/src/openapi.rs:643-729 | a conjunct yields a bound exactly when it compares `self` with an integer or a float, or `self.length` with an integer, by `>=`, `<=`, `>` or `<` |
| SchemaKeywords.WrittenKeywords | crates/phoenix-codegen/src/openapi.rs:678-729 | the keyword and limit of each of these forms |
| SchemaKeywords.ExtractionIsSound | crates/phoenix-codegen/src/openapi.rs:643-729 | a value that satisfies the constraint meets every extracted keyword, for every constraint |
| SchemaKeywords.ExtractionIsExact | crates/phoenix-codegen/src/openapi.rs:643-729 | written over any schema, acceptance is acceptance by that schema together with the constraint: for bounds that only tighten on a number or string field, and for bounds every list meets on a list field |
| SchemaKeywords.ExactIffLossless | crates/phoenix-codegen/src/openapi.rs:643-729 | a conjunction of bounds and its schema agree on every value of a number or string field exactly when the kept keywords contradict each other or imply every bound written, and on every value of a list field exactly when each bound is a minimum length of at most 0; decided from the literals |
| SchemaKeywords.LostValue | crates/phoenix-codegen/src/openapi.rs:678-729 | for a written bound that the kept ones do not imply, a number or string the schema admits and the constraint rejects |
| SchemaKeywords.LostList | crates/phoenix-codegen/src/openapi.rs:708-729 | for a length bound that can fail, a list the schema admits and the constraint rejects |
| SchemaKeywords.ListLosesLength | crates/phoenix-codegen/src/openapi.rs:714-716 | `self.length >= 1` is lossless on a string field and loses its bound on a list field, where the schema admits the empty list |
| SchemaKeywords.TightensIsLossless | crates/phoenix-codegen/src/openapi.rs:643-729 | on a number or string field bounds that only tighten, in particular bounds that repeat no keyword, lose nothing |
| SchemaKeywords.LoosenedAndTightened | crates/phoenix-codegen/src/openapi.rs:688-690 | a conjunction on a number that loosens and tightens again and still loses nothing |
| SchemaKeywords.LooserRepeatLosesBound | crates/phoenix-codegen/src/openapi.rs:678-706 | a conjunction with a looser repeat whose schema admits a value the constraint rejects |
| LinkCache.EnabledSteps | crates/phoenix-bench/src/harness.rs:187-243 | what a caller can do next, by where it stands: compiling and linking succeed, refuse or panic, and a lock is taken only while it is free |
| LinkCache.StepKeepsInv | crates/phoenix-bench/src/harness.rs:187-243 | every step of every caller keeps the invariant: one slot per key, one holder per lock, an empty slot until a link has succeeded |
| LinkCache.RunKeepsInv | crates/phoenix-bench/src/harness.rs:187-243 | the invariant holds after every run |
| LinkCache.LinkedAtMostOnce | crates/phoenix-bench/src/harness.rs:58-67 | in every run each key is linked successfully at most once |
| LinkCache.OkIsFinal | crates/phoenix-bench/src/harness.rs:58-67 | after some caller of a key has its path the slot keeps that path and no later step links the key |
| LinkCache.PathIsGenuine | crates/phoenix-bench/src/harness.rs:199-203 | a returned path was linked for a fixture with an accepted name and the caller's key, so for the caller's own if the hash does not collide |
| LinkCache.ReturnsByOwnSteps | crates/phoenix-bench/src/harness.rs:187-243 | in every run a call that linked returns its executable's path and one that found the slot filled returns what it found, and it returns a path in no other case; it is refused exactly after its own refusal, and panics exactly after its own panic or for a bad name |
| LinkCache.PoisonedIffPanicked | crates/phoenix-bench/src/harness.rs:84-92 | a slot's lock is poisoned exactly by a panic under it |
| LinkCache.FailureLeavesSlotRetryable | crates/phoenix-bench/src/harness.rs:84-92 | after a refusal or a panic the slot is empty and free, and the next caller of the key compiles again |
| LinkCache.StepsRunOut | crates/phoenix-bench/src/harness.rs:187-243 | every step except an arrival brings the callers closer to returning |
| LinkCache.NoDeadlock | crates/phoenix-bench/src/harness.rs:191-198 | while a caller has not returned, some caller can step |
| Watchdog.SleptGrowsByCap | crates/phoenix-bench/src/harness.rs:47-56 | n doubling, capped sleeps last all but two and a half caps of n caps, exactly so after the fourth |
| Watchdog.DoublingIsSlept | crates/phoenix-bench/src/harness.rs:47-56 | the closed form that the loop keeps (four doublings, then the cap) is the sum of the doubling, capped sleeps |
| Watchdog.Host.TryWait | crates/phoenix-bench/src/harness.rs:104-111 | a poll reports the child's state and reaps an ended child |
| Watchdog.Host.WaitWithTimeout | crates/phoenix-bench/src/harness.rs:94-127 | terminates within timeout/cap + 5 polls; the child is reaped on every return unless the swallowed wait fails, and killed only when nothing is returned; an exit is noticed at most one cap late and accepted at most one cap past the deadline, plus what the scheduler adds; a child that ends in time is never killed, unless a poll fails or time is lost between a poll and its deadline check |
| LocalNames.EndpointParamIdents | crates/phoenix-codegen/src/go.rs:94-109 | the set of all parameter identifiers of an endpoint |
| LocalNames.PickFreeLocal | crates/phoenix-codegen/src/go.rs:81-87 | the preferred name with the fewest underscores that avoid the taken names |
| LocalNames.PickedUnique | crates/phoenix-codegen/src/go.rs:81-87 | that description determines the name |
| LocalNames.PickedIgnoresOthers | crates/phoenix-codegen/src/go.rs:168-172 | locals chosen for other preferred names never influence a choice |
| LocalNames.NewClientLocals | crates/phoenix-codegen/src/go.rs:155-185 | the nine locals, `c`, `u`, `q`, `data`, `req`, `resp`, `result`, `buf`, `writer` by preference, differ from each other and from all parameters, each depends on the parameters alone, and keeps its preferred name exactly when no parameter has that name |
| MultiStatus.EmitGoSwitch | crates/phoenix-codegen/src/go.rs:1931-1965 | for a checked endpoint the switch compiles, and a status stands in the arm its declaration asks for and in no other |
| MultiStatus.EmitPythonGuards | crates/phoenix-codegen/src/python.rs:2326-2383 | the first guard lets through exactly the declared statuses, and the body guards list exactly the typed and the typeless ones |
| MultiStatus.GoEnforcesContract | crates/phoenix-codegen/src/go.rs:1917-1978 | the Go route writes an envelope exactly when it meets the declared contract, and otherwise reports which part is broken |
| MultiStatus.PythonEnforcesContract | crates/phoenix-codegen/src/python.rs:2287-2383 | the Python route does the same |
| MultiStatus.ServersAgree | crates/phoenix-codegen/src/python.rs:2293-2296 | both servers accept the same (status, body present) pairs and answer alike on the rest |
| MultiStatus.SwitchCompiles | crates/phoenix-codegen/src/go.rs:1943-1960 | no arm of the switch is empty and no label occurs twice |
| Strings.DecimalReadsBack | crates/phoenix-bench-diff/src/baseline.rs:223-227 | printing an unsigned number in decimal and parsing it gives the number back |
| Strings.ParseEdges | crates/phoenix-bench-diff/src/baseline.rs:157-161 | a leading plus is allowed; the empty text, a sign alone and numbers of more than 64 bits do not parse |
| PauseBaseline.CombineInvertsSplit | crates/phoenix-bench-diff/src/routing.rs:52-74 | joining the two cells of an id gives the id back exactly when it does not end in a slash |
| PauseBaseline.SplitAtLastSlash | crates/phoenix-bench-diff/src/routing.rs:65-74 | the last segment of an id becomes its parameters cell exactly when it is made of digits only |
| PauseBaseline.Write | crates/phoenix-bench-diff/src/baseline.rs:211-231 | the file is the preamble followed by one table line per row |
| PauseBaseline.Parse | crates/phoenix-bench-diff/src/baseline.rs:125-177 | the line loop returns the rows of the lines that parse, in order |
| PauseBaseline.RowReadsBack | crates/phoenix-bench-diff/src/baseline.rs:141-172 | parsing a written row gives the row with its bench cell trimmed, or nothing if that cell looks like a header |
| PauseBaseline.LineAcceptedIff | crates/phoenix-bench-diff/src/baseline.rs:141-172 | a written line of any cells is taken as a row exactly when it has seven, the first is no header's and the last five are numbers that fit |
| PauseBaseline.HeaderCellIff | crates/phoenix-bench-diff/src/baseline.rs:144-146 | the first cells taken for a header or rule: `bench` in any case, or anything that starts with three dashes |
| PauseBaseline.FileReadsBack | crates/phoenix-bench-diff/src/baseline.rs:125-177 | reading a written file gives each row's outcome in order; heading, header and rule are skipped |
| PauseBaseline.ParsedIdsTabular | crates/phoenix-bench-diff/src/baseline.rs:135-141 | no file makes the parser return an id with a bar or a newline |
| PauseBaseline.RoundTripIff | crates/phoenix-bench-diff/src/baseline.rs:211-231 | writing rows and reading the file back returns the same rows exactly when every id is well formed |

## Left out

- GoValidatorCorrect.ValidatorAcceptsIffValid: assumes what the type checker guarantees of a schema; it also speaks of packages Go rejects, which `GoPackage.CompilesIff` tells apart.
- GoPackage.CompilesIff: the two Go rules the validators can break, unused range variables and an unused `fmt`; the types of constraint expressions are not checked.
- Guards.TargetsAgree: for constraints Python reads as written, on values where the constraint has a truth value; `/` and `%`, overflow of 64-bit integers and the difference between byte and code-point lengths are outside, since the languages differ there (`length` is one measure).
- Guards.GoKeepsMeaning: `self.contains` on strings only (`ListContainsParts` says what happens on lists); operands that are never evaluated are not type-checked.
- Hiding.DecidesIffNothingHidden: for structs that do not contain themselves by value, as Go demands, and constraints on scalar, list and map fields; a constraint on a field whose struct type has one value only cannot be told apart by any value.
- GoPrinter.StripOuterParens: works on tokens, so parentheses inside a string literal are not seen; the code scans characters and would count them.
- PythonPrinter.LayoutPrints: a numeric or string literal is one token, and the line-wrapped layouts of a guard are one layout; a snapshot local only changes the accessor.
- SchemaKeywords.ExtractSchemaConstraints: the 64-bit overflow of a length bound moved by one is not modelled.
- RouteOrder.OrderRoutes: an endpoint is its name, method and path; percent-encoding and trailing slashes in requests are not modelled.
- MergeSort.MergeBlock: the inner loops of the sort are split into methods (`MergeHeads`, `CopyRun`); the cost of cloning is not modelled.
- ClientImports.EmitClientImports: the names of the classes generated for an endpoint are a parameter; order and grouping of import lines, `Any` and `httpx` are not modelled.
- PyDecode.DecoderComputesDecode: the expression is a tree, its text is not parsed; constructors are arbitrary functions that may raise; an enum with payloads, for which no Python class is generated, is not told apart from a struct.
- PauseBaseline.Write: the wording above the table is a parameter; reading and creating the file are not modelled.
- Watchdog.Host.WaitWithTimeout: time passes in sleeps and between a poll and its deadline check; the final wait takes none, and pipe readers are not modelled.
- LinkCache.LinkedAtMostOnce: the hash, the compiler and the linker are parameters, a step of a caller is atomic, and the scratch directory is not modelled.
- MultiStatus.GoEnforcesContract: a handler that returns a nil envelope, and header writing, are not modelled.
- Generated text as such: indentation, line width, documentation comments, import flags for `fmt` and `strings` (the latter is incomplete for `contains` under a unary operator), name conversion to Go and snake case.
- Multipart bodies, binary downloads, pagination and header emission: one template per type, each settled by reading one branch.
- The TypeScript generator, the throughput baseline (floating point), percentile statistics and command-line handling.
- The lexer, the type checker, the intermediate representation, the interpreters, the collector and the native back end are not part of this model.
