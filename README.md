# adaptive-tests core, modelled in Dafny

adaptive-tests finds the code under test by its shape rather than by its
import path. Per-language extractors turn source files into structural
metadata, and discovery engines score every declaration against a query
signature, then rank the matches. This project models the deterministic core
of those parts and proves properties of the model.

## Modules

| file | module | what it models |
|---|---|---|
| text.dfy | Text | string helpers shared by all modules: prefix, suffix and containment tests, ASCII case folding, joining, trimming, decimal rendering |
| lines.dfy | LineSplit | splitting text at line breaks; Rust's `str::lines` |
| rust_schema.dfy | RustSchema | the nine-collection `RustMetadata` record of the Rust bridge and its `*Info` records |
| rust_json.dfy | RustJson | the bridge's hand-written `to_json` serializer, plus an escaping reader and writer for the finding below |
| rust_syn.dfy | RustSyn | the syn tier: the syn tree as datatypes, `parse_with_syn` and the `extract_*` helpers |
| rust_regex.dfy | RustRegex | the regex tier `parse_with_regex`, with each pattern written out as a line matcher |
| rust_scanner.dfy | RustScanner | the line scanner used when the bridge is built without syn |
| go_types.dfy | GoTypes | the Go type-expression renderer `exprToString`, the generics heuristics, parameter and result flattening |
| go_extract.dfy | GoExtract | the Go extractor's declaration handlers and import extraction |
| stable_sort.dfy | StableSort | the stable sort by non-increasing score used by both discovery engines |
| py_discovery.dfy | PyDiscovery | Python discovery: type matching, name scoring, candidate scoring, best match, `discover_all`, module names, skip rules |
| java_signature.dfy | JavaSignature | the query `Signature` of the Java library and its builder |
| java_result.dfy | JavaResult | `DiscoveryResult`: constructor normalisation, qualified name, method names |
| java_scoring.dfy | JavaScoring | the Java `ScoringEngine` score tables and name normalisation |
| java_lru.dfy | JavaLru | the engine's access-ordered LRU runtime cache |
| java_engine.dfy | JavaEngine | the Java discovery engine: cache key, file eligibility, nested type names, collection and ranking, and the cache-then-compute flow |
| json_value.dfy | JsonValue | the JSON-like `Object` values configuration maps hold |
| java_path.dfy | JavaPath | the few `Path` and `String` operations the configuration uses |
| java_config.dfy | JavaConfig | the full Java `DiscoveryConfig`: defaults, `fromMap` and the value coercions |
| config_loader.dfy | ConfigLoader | `ConfigLoader`: the recursive in-place map merge and the merge order of `load` |
| pkg_config.dfy | PkgConfig | the smaller `DiscoveryConfig` in the packaged Java sources: it has a cache path but no cache flag, TTL or runtime-cache size |
| pkg_signature.dfy | PkgSignature | the packaged engine's smaller `Signature` and its builder |
| todo_service.dfy | TodoService | the Python example's `TodoService` |

Parsers, regular-expression engines, the file system, the clock and
`quote!` are not modelled. Their results arrive as datatypes or as function
parameters. Where the source builds a result step by step with a loop
over mutable state (the scanners, the Go handlers, the Java engine's
walk and key builder, the configuration merge), the model has a method
with a loop, proved equal to a specification function, and the
properties are proved about that function. Comprehensions, iterator
chains and generators (the to-do listings, the Rust `extract_*`
helpers, Python's `_match_candidates`) are expressions in the source and
are functions here.

## Model

| member | source | states |
|---|---|---|
| RustSchema.New | languages/rust/src/rust-ast-bridge.rs:110-122 | a new metadata record has all nine collections empty |
| RustJson.PushEntries | languages/rust/src/rust-ast-bridge.rs:130-131 | the index-tracking loop appends the entries separated by "," (a comma only before the second and later entries) |
| RustJson.PushSection | languages/rust/src/rust-ast-bridge.rs:129-145 | a section is its quoted key, the bracketed entries and a trailing comma |
| RustJson.ToJson | languages/rust/src/rust-ast-bridge.rs:124-271 | `to_json` builds exactly the document of the nine sections, in the fixed order, followed by the parser trailer, with strings spliced verbatim |
| RustJson.NewDocument | languages/rust/src/rust-ast-bridge.rs:110-130 | serialising `RustMetadata::new()` gives the one fixed document of nine empty arrays and the trailer, whatever the quoting |
| RustJson.DocumentEndsWithTrailer | languages/rust/src/rust-ast-bridge.rs:264-270 | every document ends with `"parser":"rustc/syn","version":"1.0.0","success":true}`, whichever tier filled the metadata |
| RustJson.DocumentOpensWithStructs | languages/rust/src/rust-ast-bridge.rs:126-129 | every document starts with `{"structs":[` |
| RustJson.ArrayAppend | languages/rust/src/rust-ast-bridge.rs:130-131 | appending an entry to an array writes a "," only when the array already had an entry |
| RustJson.StructIgnoresGenericsAndDerives | languages/rust/src/rust-ast-bridge.rs:132-143 | a struct's generics and derives never reach the output |
| RustJson.ReturnTypeAbsent | languages/rust/src/rust-ast-bridge.rs:194-198 | a function without a return type closes right after its parameter array |
| RustJson.ReturnTypePresent | languages/rust/src/rust-ast-bridge.rs:195-197 | a present return type is written as one `,"returnType":"…"` pair after the parameters |
| RustJson.TraitNameAfterTarget | languages/rust/src/rust-ast-bridge.rs:206-209 | an impl's trait name is written right after its target type, and only when present |
| RustJson.ConstantTypeOmitted | languages/rust/src/rust-ast-bridge.rs:242-249 | a constant's type is a trailing `,"type":"…"` pair when present and absent otherwise |
| RustJson.VerbatimQuoteBreaksLiteral | languages/rust/src/rust-ast-bridge.rs:132-141 | as written, a name containing a quote breaks its literal: for example `a"b` is read back as `a` followed by stray text |
| RustJson.EscapedLiteralRoundTrip | languages/rust/src/rust-ast-bridge.rs:132-141 | with escaping, reading back a written string literal recovers the original text and leaves the rest of the document untouched |
| LineSplit.SplitLinesJoin | languages/rust/src/rust-ast-bridge.rs:627 | splitting at '\n' and joining with '\n' gives back the text |
| LineSplit.JoinSplitLines | languages/rust/src/rust-ast-bridge.rs:627 | splitting the join of pieces that contain no '\n' gives back the pieces |
| LineSplit.StrLines | languages/rust/src/rust-ast-bridge.rs:627 | no line holds a '\n'; there is one line per '\n'-separated piece, or one fewer (the final empty piece is not reported); empty text has no lines |
| LineSplit.StrLinesCons | languages/rust/src/rust-ast-bridge.rs:627 | a line ended by '\n' is reported without it and without a '\r' just before it, and the rest of the text is split on its own |
| LineSplit.StrLinesCrlf | languages/rust/src/rust-ast-bridge.rs:627 | a "\r\n" ending loses its '\r' |
| LineSplit.StrLinesLast | languages/rust/src/rust-ast-bridge.rs:627 | a last line with no '\n' after it is reported as it is, '\r' included, unless it is empty |
| LineSplit.StrLinesPlain | languages/rust/src/rust-ast-bridge.rs:627 | for non-empty text without '\r' that does not end in '\n', the lines are the '\n'-separated pieces, and a final '\n' adds no empty line |
| RustSyn.ExtractGenerics | languages/rust/src/rust-ast-bridge.rs:483-493 | exactly the type parameters' names are kept; lifetimes and const parameters are dropped |
| RustSyn.GenericsConcat | languages/rust/src/rust-ast-bridge.rs:483-493 | the names come parameter by parameter, in order and with repetitions, so the list of a concatenation is the concatenation of the lists |
| RustSyn.GenericsOne | languages/rust/src/rust-ast-bridge.rs:485-491 | one parameter gives its name when it is a type parameter and nothing otherwise |
| RustSyn.ExtractFields | languages/rust/src/rust-ast-bridge.rs:496-521 | one record per field, in order; a unit struct has none; a tuple field is named by its position and a named field by its identifier |
| RustSyn.UnnamedFieldNamesDistinct | languages/rust/src/rust-ast-bridge.rs:509-518 | the fields of a tuple struct get pairwise distinct names |
| RustSyn.ExtractDerives | languages/rust/src/rust-ast-bridge.rs:529-548 | a name is reported exactly when some `#[derive(...)]` attribute lists it as a plain one-segment path |
| RustSyn.DerivesConcat | languages/rust/src/rust-ast-bridge.rs:529-548 | the derives come attribute by attribute, in order and with repetitions |
| RustSyn.DerivesOne | languages/rust/src/rust-ast-bridge.rs:531-546 | one attribute contributes its own derive list, and nothing unless it is a `derive` list that parses |
| RustSyn.NestedIdentsConcat | languages/rust/src/rust-ast-bridge.rs:534-542 | within one derive list the names keep their written order and repetitions |
| RustSyn.NestedIdentsOne | languages/rust/src/rust-ast-bridge.rs:534-542 | one nested entry gives its identifier exactly when it is a plain one-segment path |
| RustSyn.ExtractParams | languages/rust/src/rust-ast-bridge.rs:551-569 | a parameter is reported exactly for a typed argument bound to a plain identifier; `self` receivers and patterns are dropped |
| RustSyn.ParamsConcat | languages/rust/src/rust-ast-bridge.rs:551-569 | the parameters come argument by argument, in order, so the list of a concatenation is the concatenation of the lists |
| RustSyn.ParamsOne | languages/rust/src/rust-ast-bridge.rs:553-567 | one argument gives one parameter, with its name, type text and mutability, exactly when it is typed and bound to a plain identifier |
| RustSyn.ExtractReturnType | languages/rust/src/rust-ast-bridge.rs:572-577 | the return type is absent exactly for the default `()` return |
| RustSyn.ExtractUsePath | languages/rust/src/rust-ast-bridge.rs:580-595 | every `use` tree yields a path |
| RustSyn.UseGroupShapes | languages/rust/src/rust-ast-bridge.rs:588-593 | a group renders as its items inside braces: `{}` when empty, `{x}` for one item |
| RustSyn.RenameAndGlob | languages/rust/src/rust-ast-bridge.rs:582-587 | after its path, a rename is written `name as alias` and a glob `*` |
| RustSyn.UsePathNests | languages/rust/src/rust-ast-bridge.rs:582-584 | nested path segments render joined by `::` before the leaf |
| RustSyn.ParseWithSyn | languages/rust/src/rust-ast-bridge.rs:275-387 | a read or parse error is passed on; otherwise the result is the metadata of the file's items, in order |
| RustSyn.FromItemsConcat | languages/rust/src/rust-ast-bridge.rs:281-384 | items are handled independently: the metadata of a file split in two is the two halves' metadata, joined collection by collection |
| RustSyn.EveryItemRecorded | languages/rust/src/rust-ast-bridge.rs:281-384 | every struct, enum, trait, fn, impl, mod, use, const and type item adds exactly one record, and other items add none |
| RustSyn.ConstantsTyped | languages/rust/src/rust-ast-bridge.rs:367-374 | the syn tier always records a constant's type |
| RustRegex.CollectMatches | languages/rust/src/rust-ast-bridge.rs:396-404 | a `captures_iter` loop pushes every line's match, in line order |
| RustRegex.MatchesFromLines | languages/rust/src/rust-ast-bridge.rs:395-404 | every pushed record comes from the match on some line |
| RustRegex.ParseWithRegex | languages/rust/src/rust-ast-bridge.rs:390-479 | a read error is passed on; otherwise the metadata holds each pattern's matches, one collection per pattern, in line order |
| RustRegex.RegexNamesOnly | languages/rust/src/rust-ast-bridge.rs:395-476 | the regex tier records names and flags only: no generics, fields, variants, methods, parameters, return types, constant types or impls |
| RustRegex.DeclMeans | languages/rust/src/rust-ast-bridge.rs:395-399 | every recorded name is a non-empty run of word characters |
| RustRegex.DeclRoundTrip | languages/rust/src/rust-ast-bridge.rs:395-399 | a declaration line `[blanks][pub ]KW NAME…` is read back with exactly that name and that visibility |
| RustRegex.FnRoundTrip | languages/rust/src/rust-ast-bridge.rs:430-437 | a function line with any subset of pub, async, const and unsafe, in that order, is read back with its name and exactly those four flags |
| RustRegex.FnKeywordsOutOfOrder | languages/rust/src/rust-ast-bridge.rs:430 | `unsafe async fn`, keywords out of the pattern's order, is never recognised as a function |
| RustScanner.ScanStruct | languages/rust/src/rust-ast-bridge.rs:629-641 | a struct line yields a struct only, public exactly when the line starts with `pub `, with a word-character name and no generics, fields or derives |
| RustScanner.StructRoundTrip | languages/rust/src/rust-ast-bridge.rs:629-641 | a struct line is read back as the struct it declares: its name and its visibility |
| RustScanner.StructNameAtEndOfLine | languages/rust/src/rust-ast-bridge.rs:632 | a struct whose name runs to the end of the line is not recorded, because no character ends the name |
| RustScanner.ScanEnum | languages/rust/src/rust-ast-bridge.rs:642-654 | an enum line yields an enum only, public exactly when the line starts with `pub `, with a word-character name and no generics, variants or derives |
| RustScanner.EnumRoundTrip | languages/rust/src/rust-ast-bridge.rs:642-654 | an enum line is read back as the enum it declares |
| RustScanner.ScanFn | languages/rust/src/rust-ast-bridge.rs:655-673 | a function line yields a function whose async and unsafe flags are substring tests on the line, never const, and whose name holds no `(` or `<` |
| RustScanner.FnRoundTrip | languages/rust/src/rust-ast-bridge.rs:655-673 | a `pub fn` or `fn` line is read back with its name and its visibility |
| RustScanner.QualifiedFnSkipped | languages/rust/src/rust-ast-bridge.rs:655-656 | `unsafe fn` and `const fn` lines record nothing: only the four listed openings count |
| RustScanner.ScanLine | languages/rust/src/rust-ast-bridge.rs:628-674 | each trimmed line is tested as a struct, then an enum, then a function line; whatever it yields comes from that reading |
| RustScanner.ScannedShape | languages/rust/src/rust-ast-bridge.rs:627-675 | each line adds at most one entry, only structs, enums and functions are produced, and they carry names and flags only |
| RustScanner.Scan | languages/rust/src/rust-ast-bridge.rs:622-680 | an unreadable file gives the error "Failed to read file"; otherwise the metadata of the text's lines, in order |
| GoTypes.ExprToStringOpens | src/adaptive/go/src/adaptive/go/src/adaptive/go/go-ast-parser.go:424-462 | the rendering of a pointer opens with `*`, of an array with `[` (a slice with `[]`), of a map with `map[`, of the three channel directions with `chan<- `, `<-chan ` and `chan `, and of a function type with `func(` |
| GoTypes.ExprToStringCloses | src/adaptive/go/src/adaptive/go/src/adaptive/go/go-ast-parser.go:442-451 | a selector `X.Sel` ends with `.` and the selected name; both index forms end with `]` |
| GoTypes.ExprToStringWords | src/adaptive/go/src/adaptive/go/src/adaptive/go/go-ast-parser.go:416-470 | a missing expression renders empty, an identifier as its name, and interface, struct and any other node as `interface{}`, `struct{}` and `unknown` |
| GoTypes.ExtractParams | src/adaptive/go/src/adaptive/go/src/adaptive/go/go-ast-parser.go:373-398 | the parameter list is flattened field by field: one entry per declared name, all sharing the field's type text, and one unnamed entry for a field without names; a nil list gives none |
| GoTypes.ParamsAppend | src/adaptive/go/src/adaptive/go/src/adaptive/go/go-ast-parser.go:379-396 | parameters keep the order of the fields: one more field appends exactly its own entries |
| GoTypes.FieldParamsMeans | src/adaptive/go/src/adaptive/go/src/adaptive/go/go-ast-parser.go:380-395 | a field without names gives one entry with an empty name; a field with names gives one entry per name, in order, with the field's type |
| GoTypes.ParamsCounted | src/adaptive/go/src/adaptive/go/src/adaptive/go/go-ast-parser.go:379-396 | the number of parameters is the number of names, an unnamed field counting as one |
| GoTypes.ExtractReturnType | src/adaptive/go/src/adaptive/go/src/adaptive/go/go-ast-parser.go:400-414 | the result text is computed by the loop over the result list |
| GoTypes.ReturnTypeCases | src/adaptive/go/src/adaptive/go/src/adaptive/go/go-ast-parser.go:400-414 | no results give "void", a single result gives its type text, and two or more give the type texts joined by ", " in parentheses |
| GoTypes.ContainsGenericsInFunc | src/adaptive/go/src/adaptive/go/src/adaptive/go/go-ast-parser.go:499-514 | the early-exit loop answers true exactly when the function declares type parameters, or some parameter type or the result text passes the brackets heuristic |
| GoTypes.SliceAndMapNotGeneric | src/adaptive/go/src/adaptive/go/src/adaptive/go/go-ast-parser.go:494-497 | a slice or map type never passes the generics heuristic |
| GoTypes.FixedArrayCountsAsGeneric | src/adaptive/go/src/adaptive/go/src/adaptive/go/go-ast-parser.go:426-430 | a fixed-length array renders as `[unknown]E` and does pass the heuristic |
| GoTypes.InstantiationIsGeneric | src/adaptive/go/src/adaptive/go/src/adaptive/go/go-ast-parser.go:444-445 | a named type with a type argument passes the heuristic |
| GoExtract.GoMetadata.constructor | src/adaptive/go/src/adaptive/go/src/adaptive/go/go-ast-parser.go:149-161 | a new metadata record has the file's path and package and every collection empty |
| GoExtract.GoMetadata.HandleTypeSpec | src/adaptive/go/src/adaptive/go/src/adaptive/go/go-ast-parser.go:193-282 | a struct type adds one struct, an interface type one interface, and any other type one alias with its underlying type text; nothing else changes |
| GoExtract.BuildStruct | src/adaptive/go/src/adaptive/go/src/adaptive/go/go-ast-parser.go:197-238 | a struct gets one field per name of each named entry, with its tag unquoted when present, and one embed per unnamed entry |
| GoExtract.BuildInterface | src/adaptive/go/src/adaptive/go/src/adaptive/go/go-ast-parser.go:240-271 | an interface gets one method per name of each entry whose type is a function type, and one embed per unnamed entry |
| GoExtract.StructEntriesCounted | src/adaptive/go/src/adaptive/go/src/adaptive/go/go-ast-parser.go:206-236 | fields and embeds together number exactly the names, an unnamed entry counting as one |
| GoExtract.GoMetadata.HandleFuncDecl | src/adaptive/go/src/adaptive/go/src/adaptive/go/go-ast-parser.go:284-330 | a function is appended to the functions; a method is appended to the methods and to the first struct named by its receiver type, star removed |
| GoExtract.AttachMethodMeans | src/adaptive/go/src/adaptive/go/src/adaptive/go/go-ast-parser.go:306-319 | the method lands on the first struct with the receiver's type name and only there; every struct keeps its name, kind, fields and embeds |
| GoExtract.TrimStar | src/adaptive/go/src/adaptive/go/src/adaptive/go/go-ast-parser.go:306 | one leading `*` is removed and nothing else changes |
| GoExtract.ReceiverTypeName | src/adaptive/go/src/adaptive/go/src/adaptive/go/go-ast-parser.go:293-308 | a method with receiver `*T` and one with receiver `T` both look for the struct named `T` |
| GoExtract.GoMetadata.HandleGenDecl | src/adaptive/go/src/adaptive/go/src/adaptive/go/go-ast-parser.go:332-371 | a const or var declaration appends one entry per name of each value spec to the constants or the variables; other declarations change nothing |
| GoExtract.ValueEntriesMeans | src/adaptive/go/src/adaptive/go/src/adaptive/go/go-ast-parser.go:337-348 | each name gets one entry, in order; its type is set only when declared and its value only when one stands at the same index |
| GoExtract.TrimChar | src/adaptive/go/src/adaptive/go/src/adaptive/go/go-ast-parser.go:166 | quotes are removed from both ends, and the result neither starts nor ends with one |
| GoExtract.ImportNamedByLastElement | src/adaptive/go/src/adaptive/go/src/adaptive/go/go-ast-parser.go:164-175 | an import without alias is named by the last slash-free element of its path |
| GoExtract.BaseIsLastElement | src/adaptive/go/src/adaptive/go/src/adaptive/go/go-ast-parser.go:172 | `filepath.Base` of a path holding a non-slash gives slash-free text that ends the path once trailing slashes are dropped |
| GoExtract.ParseGoFile | src/adaptive/go/src/adaptive/go/src/adaptive/go/go-ast-parser.go:142-191 | the metadata is the imports, in order, followed by the walk of the declarations in visiting order |
| GoExtract.WalkKeeps | src/adaptive/go/src/adaptive/go/src/adaptive/go/go-ast-parser.go:178-188 | the walk only adds: nothing collected earlier is lost, and earlier structs keep their names and fields |
| PyDiscovery.TypeMatchesRules | packages/adaptive-tests-py/src/adaptive_tests_py/discovery.py:391-400 | `any` and `*` accept every kind; an empty request means `class`; `class` accepts only `class` and `function` accepts `function` and `async_function`, in any letter case |
| PyDiscovery.TypeMatchesItself | packages/adaptive-tests-py/src/adaptive_tests_py/discovery.py:391-400 | any non-empty requested type accepts a candidate of that same type, in any letter case |
| PyDiscovery.NameScoreMeans | packages/adaptive-tests-py/src/adaptive_tests_py/discovery.py:377-388 | a plain name scores above zero exactly when the query occurs in the candidate's name, scores 0.7 exactly on equality, and never more |
| PyDiscovery.NameScoreIgnoresCase | packages/adaptive-tests-py/src/adaptive_tests_py/discovery.py:377-378 | unless the query is case-sensitive, the letter case of the candidate's name does not change its score |
| PyDiscovery.Count | packages/adaptive-tests-py/src/adaptive_tests_py/discovery.py:327 | the number of required entries present is at most the number required, and equal to it exactly when every one is present |
| PyDiscovery.CountPresent | packages/adaptive-tests-py/src/adaptive_tests_py/discovery.py:327 | the counting generator computes that number |
| PyDiscovery.CountFragments | packages/adaptive-tests-py/src/adaptive_tests_py/discovery.py:349-350 | the docstring count is the number of fragments found, case-insensitively, in the docstring |
| PyDiscovery.MethodsStep | packages/adaptive-tests-py/src/adaptive_tests_py/discovery.py:326-334 | the methods step rejects below half of the required methods, adds 0.3 when all are present and 0.2 times the ratio otherwise |
| PyDiscovery.RequiredStep | packages/adaptive-tests-py/src/adaptive_tests_py/discovery.py:336-346 | the decorators and bases steps add their bonus only when every required entry is present, and reject otherwise |
| PyDiscovery.ScoreCandidate | packages/adaptive-tests-py/src/adaptive_tests_py/discovery.py:316-366 | the accumulating method with early returns computes the rule-table score |
| PyDiscovery.ScoreBounds | packages/adaptive-tests-py/src/adaptive_tests_py/discovery.py:316-366 | a type mismatch or a zero name score gives 0; every score is non-negative, and a positive score is at least the name score |
| PyDiscovery.FewMethodsRejected | packages/adaptive-tests-py/src/adaptive_tests_py/discovery.py:328-331 | fewer than half the required methods present gives 0 |
| PyDiscovery.AllMethodsBonus | packages/adaptive-tests-py/src/adaptive_tests_py/discovery.py:333-334 | every required method present adds the full 0.3 |
| PyDiscovery.MissingDecoratorOrBaseRejected | packages/adaptive-tests-py/src/adaptive_tests_py/discovery.py:336-346 | one missing required decorator or base gives 0 |
| PyDiscovery.ModuleTakesPrecedence | packages/adaptive-tests-py/src/adaptive_tests_py/discovery.py:353-360 | with an exact module the module pattern is never consulted, and a different module gives 0 |
| PyDiscovery.ExactFullOutranksPartial | packages/adaptive-tests-py/src/adaptive_tests_py/discovery.py:326-334 | of two candidates that differ only in name and methods, the exact name with every method strictly outranks a partial match that is kept |
| PyDiscovery.MatchCandidates | packages/adaptive-tests-py/src/adaptive_tests_py/discovery.py:212-231 | exactly the candidates that score above zero are kept, each with its score |
| PyDiscovery.MatchCandidatesAppend | packages/adaptive-tests-py/src/adaptive_tests_py/discovery.py:213-217 | candidates are scored one by one: the matches of a concatenation are the matches of each part in turn, so walk order and repeats are kept |
| PyDiscovery.MatchCandidatesOne | packages/adaptive-tests-py/src/adaptive_tests_py/discovery.py:215-230 | a single candidate yields its match with its score exactly when the score is above zero, and nothing otherwise |
| PyDiscovery.BestMatch | packages/adaptive-tests-py/src/adaptive_tests_py/discovery.py:203-210 | the loop returns the first candidate holding the highest score, and fails exactly when nothing matched |
| PyDiscovery.DiscoverAll | packages/adaptive-tests-py/src/adaptive_tests_py/discovery.py:192-198 | `discover_all` fails exactly when nothing matched, and otherwise returns a permutation of the matches |
| PyDiscovery.DiscoverAllOrdered | packages/adaptive-tests-py/src/adaptive_tests_py/discovery.py:195 | the list is ordered by non-increasing score, and matches with equal scores keep their walk order |
| PyDiscovery.BestMatchHeadsDiscoverAll | packages/adaptive-tests-py/src/adaptive_tests_py/discovery.py:192-210 | the best match is the head of `discover_all`'s list |
| PyDiscovery.ModuleNameForFile | packages/adaptive-tests-py/src/adaptive_tests_py/discovery.py:402-409 | a module file is named by its directories and its stem, joined with "." |
| PyDiscovery.ModuleNameForPackage | packages/adaptive-tests-py/src/adaptive_tests_py/discovery.py:405-406 | a package's `__init__.py` is named by its directories alone |
| PyDiscovery.AnyPrefix | packages/adaptive-tests-py/src/adaptive_tests_py/discovery.py:259 | true exactly when some ignore pattern is a prefix of the path |
| PyDiscovery.SkipFileRules | packages/adaptive-tests-py/src/adaptive_tests_py/discovery.py:261-265 | with no ignore patterns a file is skipped exactly when it is named `test_*` or `*_test.py`; a file under an ignored path is always skipped |
| PyDiscovery.SkipDirectoryRules | packages/adaptive-tests-py/src/adaptive_tests_py/discovery.py:250-259 | the root is never skipped; a default-ignored directory or one under an ignored path is |
| StableSort.Insert | packages/adaptive-tests-py/src/adaptive_tests_py/discovery.py:195 | inserting keeps every element and adds one |
| StableSort.SortDesc | packages/adaptive-tests-py/src/adaptive_tests_py/discovery.py:195 | the sort is a permutation of its input |
| StableSort.SortDescSorted | packages/adaptive-tests-py/src/adaptive_tests_py/discovery.py:195 | the sorted sequence has non-increasing keys |
| StableSort.SortDescStable | packages/adaptive-tests-py/src/adaptive_tests_py/discovery.py:195 | for every key, the elements carrying it keep their input order |
| StableSort.HeadIsMaximal | packages/adaptive-tests-py/src/adaptive_tests_py/discovery.py:195 | the head of the sorted sequence carries the largest key |
| StableSort.HeadIsFirstMaximal | packages/adaptive-tests-py/src/adaptive_tests_py/discovery.py:195-210 | the head is the first element with the largest key |
| JavaScoring.TypeScoreAfterCheck | packages/adaptive-tests-java/core/src/main/java/io/adaptivetests/java/discovery/ScoringEngine.java:33-54 | the -20 penalty is given exactly to the kinds the compatibility check rejects, so a scored candidate's kind score is 0, 12 or 8 |
| JavaScoring.Slashes | packages/adaptive-tests-java/core/src/main/java/io/adaptivetests/java/discovery/ScoringEngine.java:57 | every backslash becomes a slash and nothing else changes |
| JavaScoring.PathScore | packages/adaptive-tests-java/core/src/main/java/io/adaptivetests/java/discovery/ScoringEngine.java:56-69 | the path score lies between 0 and 17 |
| JavaScoring.PathScoreDecodes | packages/adaptive-tests-java/core/src/main/java/io/adaptivetests/java/discovery/ScoringEngine.java:56-69 | each of the three path bonuses is given exactly when its marker occurs in the normalised path |
| JavaScoring.NameScoreMeans | packages/adaptive-tests-java/core/src/main/java/io/adaptivetests/java/discovery/ScoringEngine.java:79-89 | a plain name scores exactly when it occurs in the candidate's name ignoring case, scores 25 exactly on equality ignoring case, and the candidate's letter case never matters |
| JavaScoring.PackageScore | packages/adaptive-tests-java/core/src/main/java/io/adaptivetests/java/discovery/ScoringEngine.java:92-97 | 10 exactly when the query names a package and the candidate's package is that one, 0 otherwise |
| JavaScoring.Hits | packages/adaptive-tests-java/core/src/main/java/io/adaptivetests/java/discovery/ScoringEngine.java:106-111 | the count of required entries found is at most their number, equals it exactly when all are found and is 0 exactly when none is |
| JavaScoring.CountHits | packages/adaptive-tests-java/core/src/main/java/io/adaptivetests/java/discovery/ScoringEngine.java:106-111 | the counting loop computes that count |
| JavaScoring.MethodScore | packages/adaptive-tests-java/core/src/main/java/io/adaptivetests/java/discovery/ScoringEngine.java:99-119 | the method computes the method score from the lower-cased name set |
| JavaScoring.MethodScoreRange | packages/adaptive-tests-java/core/src/main/java/io/adaptivetests/java/discovery/ScoringEngine.java:99-119 | no required methods give 0, all present 18, none present -12, and the score is never below -12 |
| JavaScoring.PartialMethodsCanOutscoreFull | packages/adaptive-tests-java/core/src/main/java/io/adaptivetests/java/discovery/ScoringEngine.java:112-118 | with six or more required methods, a candidate missing exactly one scores 4 per hit, more than the 18 of a full match |
| JavaScoring.MethodMatchIgnoresCase | packages/adaptive-tests-java/core/src/main/java/io/adaptivetests/java/discovery/ScoringEngine.java:103-108 | method names match whatever their letter case on either side |
| JavaScoring.AnnotationScore | packages/adaptive-tests-java/core/src/main/java/io/adaptivetests/java/discovery/ScoringEngine.java:121-138 | the method computes the annotation score from the normalised annotation set |
| JavaScoring.AnnotationScoreRange | packages/adaptive-tests-java/core/src/main/java/io/adaptivetests/java/discovery/ScoringEngine.java:121-138 | nothing required gives 0, -5 exactly when no required annotation is found, and otherwise between 6 and 6 per required entry |
| JavaScoring.ImplementsScore | packages/adaptive-tests-java/core/src/main/java/io/adaptivetests/java/discovery/ScoringEngine.java:150-167 | the method computes the interface score from the normalised type-name set |
| JavaScoring.ImplementsScoreRange | packages/adaptive-tests-java/core/src/main/java/io/adaptivetests/java/discovery/ScoringEngine.java:150-167 | nothing required gives 0, -6 exactly when no required interface is found, and otherwise between 5 and 5 per required entry |
| JavaScoring.ExtendsScore | packages/adaptive-tests-java/core/src/main/java/io/adaptivetests/java/discovery/ScoringEngine.java:140-148 | nothing required gives 0; 12 exactly when the candidate has a superclass with the same normalised name; -5 otherwise, a missing superclass included |
| JavaScoring.QualifiedAnnotation | packages/adaptive-tests-java/core/src/main/java/io/adaptivetests/java/discovery/ScoringEngine.java:169-179 | `@pkg.Name` normalises to the lower-cased simple name |
| JavaScoring.AtSignDropped | packages/adaptive-tests-java/core/src/main/java/io/adaptivetests/java/discovery/ScoringEngine.java:173 | `@Name` and `Name` normalise alike |
| JavaScoring.LastDotBeforeSimple | packages/adaptive-tests-java/core/src/main/java/io/adaptivetests/java/discovery/ScoringEngine.java:174-177 | in `pkg.simple` the last dot is the one before the simple name |
| JavaScoring.TypeNameFormsAgree | packages/adaptive-tests-java/core/src/main/java/io/adaptivetests/java/discovery/ScoringEngine.java:181-195 | a qualified generic type name normalises to its lower-cased simple name |
| JavaScoring.SimpleTypeName | packages/adaptive-tests-java/core/src/main/java/io/adaptivetests/java/discovery/ScoringEngine.java:181-195 | a simple type name normalises to itself, lower-cased |
| JavaScoring.ScoreCandidate | packages/adaptive-tests-java/core/src/main/java/io/adaptivetests/java/discovery/ScoringEngine.java:12-31 | the accumulating method computes the score: 0 unless the name scores and the kind is compatible, otherwise the sum of the eight parts |
| JavaScoring.ExactMatchFloor | packages/adaptive-tests-java/core/src/main/java/io/adaptivetests/java/discovery/ScoringEngine.java:12-31 | an exact-name candidate of the wanted kind under `/src/main/java/` that meets every requirement scores at least 47 |
| JavaSignature.OrEmpty | languages/java/core/src/main/java/io/adaptivetests/java/discovery/Signature.java:31-37 | a null list becomes empty and any other list is kept |
| JavaSignature.Builder.constructor | languages/java/core/src/main/java/io/adaptivetests/java/discovery/Signature.java:89-99 | a new builder has the type CLASS and nothing else set |
| JavaSignature.Builder.Name | languages/java/core/src/main/java/io/adaptivetests/java/discovery/Signature.java:101-105 | setting a name, even a null one, clears the name pattern and changes nothing else |
| JavaSignature.Builder.NamePattern | languages/java/core/src/main/java/io/adaptivetests/java/discovery/Signature.java:107-111 | setting a name pattern, even a null one, clears the name and changes nothing else |
| JavaSignature.Builder.Type | languages/java/core/src/main/java/io/adaptivetests/java/discovery/Signature.java:113-116 | a null type resets the type to CLASS |
| JavaSignature.Builder.Methods | languages/java/core/src/main/java/io/adaptivetests/java/discovery/Signature.java:118-121 | the setter stores the list, null included, and changes nothing else |
| JavaSignature.Builder.PackageName | languages/java/core/src/main/java/io/adaptivetests/java/discovery/Signature.java:123-126 | the setter stores the package and changes nothing else |
| JavaSignature.Builder.Annotations | languages/java/core/src/main/java/io/adaptivetests/java/discovery/Signature.java:128-131 | the setter stores the list and changes nothing else |
| JavaSignature.Builder.ExtendsClass | languages/java/core/src/main/java/io/adaptivetests/java/discovery/Signature.java:133-136 | the setter stores the superclass and changes nothing else |
| JavaSignature.Builder.ImplementsInterfaces | languages/java/core/src/main/java/io/adaptivetests/java/discovery/Signature.java:138-141 | the setter stores the list and changes nothing else |
| JavaSignature.Builder.Build | languages/java/core/src/main/java/io/adaptivetests/java/discovery/Signature.java:27-38 | the built query never has both a name and a pattern, null lists become empty, and every other setting is carried over |
| JavaSignature.NamedQuery | languages/java/core/src/main/java/io/adaptivetests/java/discovery/Signature.java:85-145 | a query built with only a name has the defaults everywhere else |
| JavaSignature.PatternThenName | languages/java/core/src/main/java/io/adaptivetests/java/discovery/Signature.java:101-111 | of a name and a name pattern, the one set last wins |
| JavaResult.NewResult | packages/adaptive-tests-java/core/src/main/java/io/adaptivetests/java/discovery/DiscoveryResult.java:19-37 | null lists become empty and every other argument is kept |
| JavaResult.QualifiedName | packages/adaptive-tests-java/core/src/main/java/io/adaptivetests/java/discovery/DiscoveryResult.java:79-84 | the bare class name in the default package (null or empty), otherwise the package, a dot and the class name |
| JavaResult.QualifiedNameSplits | packages/adaptive-tests-java/core/src/main/java/io/adaptivetests/java/discovery/DiscoveryResult.java:79-84 | the package and the class name are recovered from the qualified name at its last dot when the class name has no dot |
| JavaResult.MethodNames | packages/adaptive-tests-java/core/src/main/java/io/adaptivetests/java/discovery/DiscoveryResult.java:63-65 | the method names, in stored order |
| JsonValue.Stringify | languages/java/core/src/main/java/io/adaptivetests/java/discovery/DiscoveryConfig.java:216-218 | strings render as themselves and lists as a bracketed list; a map renders through the given map text |
| JavaPath.Resolve | languages/java/core/src/main/java/io/adaptivetests/java/discovery/DiscoveryConfig.java:127-137 | resolving keeps an absolute path, an empty path gives the root, a relative one ends with itself under the root |
| JavaPath.ResolvedIsValid | languages/java/core/src/main/java/io/adaptivetests/java/discovery/DiscoveryConfig.java:127-137 | a valid path resolved against an absolute, valid root is absolute and valid |
| JavaPath.JavaTrim | languages/java/core/src/main/java/io/adaptivetests/java/discovery/DiscoveryConfig.java:161 | the trimmed text has no control character or space at either end and untouched text stays as it is |
| JavaConfig.Wrap32 | languages/java/core/src/main/java/io/adaptivetests/java/discovery/DiscoveryConfig.java:193 | the result is a Java `int` and in-range values are unchanged |
| JavaConfig.Wrap64 | languages/java/core/src/main/java/io/adaptivetests/java/discovery/DiscoveryConfig.java:179 | the result is a Java `long` and in-range values are unchanged |
| JavaConfig.Truncate | languages/java/core/src/main/java/io/adaptivetests/java/discovery/DiscoveryConfig.java:158 | rounding of a double toward zero, within one of the value and on its side of zero |
| JavaConfig.IntValue | languages/java/core/src/main/java/io/adaptivetests/java/discovery/DiscoveryConfig.java:158 | `intValue()` lies in `int` range and keeps every integer already in range |
| JavaConfig.LongValue | languages/java/core/src/main/java/io/adaptivetests/java/discovery/DiscoveryConfig.java:179 | `longValue()` lies in `long` range and keeps every integer already in range |
| JavaConfig.ParseInteger | languages/java/core/src/main/java/io/adaptivetests/java/discovery/DiscoveryConfig.java:183 | a parse succeeds only on an optional sign followed by digits, with the value in range |
| JavaConfig.ParseIntegerRoundTrip | languages/java/core/src/main/java/io/adaptivetests/java/discovery/DiscoveryConfig.java:197 | every in-range integer, with or without a plus sign, is read back |
| JavaConfig.ToBoolean | languages/java/core/src/main/java/io/adaptivetests/java/discovery/DiscoveryConfig.java:153-164 | Booleans keep their value, null, lists and maps give the default, a true string trims to four characters |
| JavaConfig.StringNeverDefaults | languages/java/core/src/main/java/io/adaptivetests/java/discovery/DiscoveryConfig.java:160-161 | a string never falls back to the default and "yes" reads as false |
| JavaConfig.CaseVariantOfTrue | languages/java/core/src/main/java/io/adaptivetests/java/discovery/DiscoveryConfig.java:161 | every case variant of "true" reads as true |
| JavaConfig.ToLong | languages/java/core/src/main/java/io/adaptivetests/java/discovery/DiscoveryConfig.java:177-189 | numbers give a `long`; null, Booleans, lists and maps give the default |
| JavaConfig.ToInt | languages/java/core/src/main/java/io/adaptivetests/java/discovery/DiscoveryConfig.java:191-203 | numbers give an `int`; null, Booleans, lists and maps give the default |
| JavaConfig.ToLongSeconds | languages/java/core/src/main/java/io/adaptivetests/java/discovery/DiscoveryConfig.java:166-175 | a missing TTL keeps the default milliseconds; any other gives a `long` |
| JavaConfig.TtlSeconds | languages/java/core/src/main/java/io/adaptivetests/java/discovery/DiscoveryConfig.java:170-174 | a positive number of seconds becomes that many milliseconds; a non-positive one disables expiry |
| JavaConfig.TtlFallback | languages/java/core/src/main/java/io/adaptivetests/java/discovery/DiscoveryConfig.java:170 | an unreadable TTL falls back to the default rounded down to whole seconds, never above it |
| JavaConfig.NonNullStrings | languages/java/core/src/main/java/io/adaptivetests/java/discovery/DiscoveryConfig.java:143-149 | the strings of the non-null items: empty exactly when every item is null, every item's text when none is |
| JavaConfig.StringListOf | languages/java/core/src/main/java/io/adaptivetests/java/discovery/DiscoveryConfig.java:139-151 | a non-list gives the default, a non-empty default is never replaced by nothing, a list with a non-null item gives its strings |
| JavaConfig.ToStringList | languages/java/core/src/main/java/io/adaptivetests/java/discovery/DiscoveryConfig.java:139-151 | the loop over the items computes `StringListOf` |
| JavaConfig.ResolveCachePath | languages/java/core/src/main/java/io/adaptivetests/java/discovery/DiscoveryConfig.java:127-137 | a missing or blank candidate gives the fallback; a valid one is resolved against the root |
| JavaConfig.Defaults | languages/java/core/src/main/java/io/adaptivetests/java/discovery/DiscoveryConfig.java:70-81 | the default extensions, skipped directories and files, cache file under the root, one-day TTL and 256 runtime entries |
| JavaConfig.CacheFileCandidate | languages/java/core/src/main/java/io/adaptivetests/java/discovery/DiscoveryConfig.java:94 | an absent `cacheFile` gives the default file, a null one nothing, a string itself |
| JavaConfig.TtlValue | languages/java/core/src/main/java/io/adaptivetests/java/discovery/DiscoveryConfig.java:109-112 | `ttlSeconds` unless it is null, then `ttl` |
| JavaConfig.Configure | languages/java/core/src/main/java/io/adaptivetests/java/discovery/DiscoveryConfig.java:84-125 | every list setting stays non-empty and a null map gives the defaults |
| JavaConfig.FromMap | languages/java/core/src/main/java/io/adaptivetests/java/discovery/DiscoveryConfig.java:84-125 | the step-by-step overrides compute `Configure` |
| JavaConfig.DefaultCacheFileValid | languages/java/core/src/main/java/io/adaptivetests/java/discovery/DiscoveryConfig.java:94-95 | the default cache file under an absolute, valid root is absolute and valid |
| JavaConfig.DefaultCacheFileIsStable | languages/java/core/src/main/java/io/adaptivetests/java/discovery/DiscoveryConfig.java:94-95 | the default cache file under an absolute root resolves to itself |
| JavaConfig.EmptyMapIsDefaults | languages/java/core/src/main/java/io/adaptivetests/java/discovery/DiscoveryConfig.java:84-125 | an empty map under an absolute root yields exactly the defaults |
| JavaConfig.TtlSecondsPrecedence | languages/java/core/src/main/java/io/adaptivetests/java/discovery/DiscoveryConfig.java:109-113 | in a cache section a non-null `ttlSeconds` wins over `ttl` |
| JavaConfig.NoCacheSection | languages/java/core/src/main/java/io/adaptivetests/java/discovery/DiscoveryConfig.java:119-121 | without a cache section only `cacheEnabled` is read and the other cache settings keep their defaults |
| JavaConfig.CacheSectionHidesTopLevelFlag | languages/java/core/src/main/java/io/adaptivetests/java/discovery/DiscoveryConfig.java:102-121 | with a cache section the top-level `cacheEnabled` has no effect |
| ConfigLoader.Merge | languages/java/core/src/main/java/io/adaptivetests/java/discovery/ConfigLoader.java:57-66 | every key of both maps is kept; a source key wins unless both sides hold maps, which merge |
| ConfigLoader.MergeEmptySource | languages/java/core/src/main/java/io/adaptivetests/java/discovery/ConfigLoader.java:57-66 | merging an empty map changes nothing |
| ConfigLoader.MergeIntoEmpty | languages/java/core/src/main/java/io/adaptivetests/java/discovery/ConfigLoader.java:57-66 | merging into an empty map copies the source |
| ConfigLoader.MergeSelf | languages/java/core/src/main/java/io/adaptivetests/java/discovery/ConfigLoader.java:57-66 | merging a map into itself changes nothing |
| ConfigLoader.MergeIdempotent | languages/java/core/src/main/java/io/adaptivetests/java/discovery/ConfigLoader.java:57-66 | merging the same source twice equals merging it once |
| ConfigLoader.LaterScalarWins | languages/java/core/src/main/java/io/adaptivetests/java/discovery/ConfigLoader.java:62-63 | a later non-map value overwrites whatever an earlier merge stored |
| ConfigLoader.MergeMaps | languages/java/core/src/main/java/io/adaptivetests/java/discovery/ConfigLoader.java:57-66 | the loop over the source's entries computes `Merge` |
| ConfigLoader.ConfigMap.constructor | languages/java/core/src/main/java/io/adaptivetests/java/discovery/ConfigLoader.java:16-17 | the map starts with the given entries |
| ConfigLoader.ConfigMap.MergeInto | languages/java/core/src/main/java/io/adaptivetests/java/discovery/ConfigLoader.java:57-66 | the entries become the merge of the old entries and the source |
| ConfigLoader.Section | languages/java/core/src/main/java/io/adaptivetests/java/discovery/ConfigLoader.java:44-54 | a map section is kept, anything else becomes an empty map |
| ConfigLoader.CastMap | languages/java/core/src/main/java/io/adaptivetests/java/discovery/ConfigLoader.java:44-54 | the copy loop computes `Section` |
| ConfigLoader.MergeOptional | languages/java/core/src/main/java/io/adaptivetests/java/discovery/ConfigLoader.java:19-24 | a missing source changes nothing, a present one is merged |
| ConfigLoader.MergeAll | languages/java/core/src/main/java/io/adaptivetests/java/discovery/ConfigLoader.java:16-24 | merged maps keep every starting key, and no sources leave the start unchanged |
| ConfigLoader.MergeAllThree | languages/java/core/src/main/java/io/adaptivetests/java/discovery/ConfigLoader.java:19-24 | three sources merge one after another in their order |
| ConfigLoader.Settings | languages/java/core/src/main/java/io/adaptivetests/java/discovery/ConfigLoader.java:16-26 | with nothing to merge the `discovery` section is empty |
| ConfigLoader.Load | languages/java/core/src/main/java/io/adaptivetests/java/discovery/ConfigLoader.java:15-28 | the engine configuration is `fromMap` of the merged `discovery` section |
| ConfigLoader.NothingConfigured | languages/java/core/src/main/java/io/adaptivetests/java/discovery/ConfigLoader.java:15-28 | with no files and no overrides the defaults apply |
| ConfigLoader.InlineWins | languages/java/core/src/main/java/io/adaptivetests/java/discovery/ConfigLoader.java:22-24 | an inline non-map setting beats both files |
| ConfigLoader.JavaFileBeatsProjectFile | languages/java/core/src/main/java/io/adaptivetests/java/discovery/ConfigLoader.java:19-20 | the Java file's settings beat the project file's |
| PkgConfig.Strings | packages/adaptive-tests-java/core/src/main/java/io/adaptivetests/java/discovery/DiscoveryConfig.java:42-44 | the list of string values for the default names, one for one |
| PkgConfig.Defaults | packages/adaptive-tests-java/core/src/main/java/io/adaptivetests/java/discovery/DiscoveryConfig.java:40-46 | the default extensions, skipped directories and files, and the cache file under the root |
| PkgConfig.CopyOf | packages/adaptive-tests-java/core/src/main/java/io/adaptivetests/java/discovery/DiscoveryConfig.java:18-20 | `List.copyOf` succeeds exactly on a present list without null, keeping it |
| PkgConfig.New | packages/adaptive-tests-java/core/src/main/java/io/adaptivetests/java/discovery/DiscoveryConfig.java:14-22 | the configuration exists exactly when all three lists can be copied |
| PkgConfig.ListSetting | packages/adaptive-tests-java/core/src/main/java/io/adaptivetests/java/discovery/DiscoveryConfig.java:54-56 | an absent key gives the default, a list itself; the cast fails exactly on a non-null non-list |
| PkgConfig.CachePathSetting | packages/adaptive-tests-java/core/src/main/java/io/adaptivetests/java/discovery/DiscoveryConfig.java:57 | an absent key gives the default path, a string itself; the cast fails exactly on a non-null non-string |
| PkgConfig.ResolveCache | packages/adaptive-tests-java/core/src/main/java/io/adaptivetests/java/discovery/DiscoveryConfig.java:58-60 | a null or empty path gives the default, an invalid one fails, a valid one is resolved |
| PkgConfig.FromMap | packages/adaptive-tests-java/core/src/main/java/io/adaptivetests/java/discovery/DiscoveryConfig.java:49-62 | a null map gives the defaults |
| PkgConfig.MissingKeysFallBack | packages/adaptive-tests-java/core/src/main/java/io/adaptivetests/java/discovery/DiscoveryConfig.java:54-61 | a map without the four keys under an absolute root gives the defaults |
| PkgConfig.CachePathOnly | packages/adaptive-tests-java/core/src/main/java/io/adaptivetests/java/discovery/DiscoveryConfig.java:57-60 | an empty cache path gives the default, any other is resolved against the root |
| PkgConfig.NonListFails | packages/adaptive-tests-java/core/src/main/java/io/adaptivetests/java/discovery/DiscoveryConfig.java:54 | a setting that is not a list makes `fromMap` fail with a cast error |
| PkgConfig.BlankCachePathDiverges | packages/adaptive-tests-java/core/src/main/java/io/adaptivetests/java/discovery/DiscoveryConfig.java:58-60 | a blank cache path is resolved here but falls back to the default in the full configuration |
| PkgSignature.Builder.constructor | packages/adaptive-tests-java/core/src/main/java/io/adaptivetests/java/discovery/Signature.java:81-91 | a new builder has the type CLASS, empty lists and nothing else set |
| PkgSignature.Builder.Name | packages/adaptive-tests-java/core/src/main/java/io/adaptivetests/java/discovery/Signature.java:93-97 | setting a name, even a null one, clears the name pattern and changes nothing else |
| PkgSignature.Builder.NamePattern | packages/adaptive-tests-java/core/src/main/java/io/adaptivetests/java/discovery/Signature.java:99-103 | setting a name pattern, even a null one, clears the name and changes nothing else |
| PkgSignature.Builder.Type | packages/adaptive-tests-java/core/src/main/java/io/adaptivetests/java/discovery/Signature.java:105-108 | a null type becomes CLASS; nothing else changes |
| PkgSignature.Builder.Methods | packages/adaptive-tests-java/core/src/main/java/io/adaptivetests/java/discovery/Signature.java:110-113 | a null list becomes empty, any other is kept; nothing else changes |
| PkgSignature.Builder.PackageName | packages/adaptive-tests-java/core/src/main/java/io/adaptivetests/java/discovery/Signature.java:115-118 | the package name is set; nothing else changes |
| PkgSignature.Builder.Annotations | packages/adaptive-tests-java/core/src/main/java/io/adaptivetests/java/discovery/Signature.java:120-123 | a null list becomes empty, any other is kept; nothing else changes |
| PkgSignature.Builder.ExtendsClass | packages/adaptive-tests-java/core/src/main/java/io/adaptivetests/java/discovery/Signature.java:125-128 | the superclass is set; nothing else changes |
| PkgSignature.Builder.Build | packages/adaptive-tests-java/core/src/main/java/io/adaptivetests/java/discovery/Signature.java:27-35 | the query holds the builder's settings and never both a name and a pattern |
| PkgSignature.NullSettings | packages/adaptive-tests-java/core/src/main/java/io/adaptivetests/java/discovery/Signature.java:93-132 | a pattern then a name, a null type and null lists leave a CLASS query by name with empty lists |
| JavaLru.Without | packages/adaptive-tests-java/core/src/main/java/io/adaptivetests/java/discovery/JavaDiscoveryEngine.java:510-522 | removing a key from the access order drops exactly that key and keeps the order without repetitions |
| JavaLru.DistinctCard | packages/adaptive-tests-java/core/src/main/java/io/adaptivetests/java/discovery/JavaDiscoveryEngine.java:510-522 | an access order without repetitions has as many keys as entries |
| JavaLru.LruCache.constructor | packages/adaptive-tests-java/core/src/main/java/io/adaptivetests/java/discovery/JavaDiscoveryEngine.java:513-516 | a new cache is empty and has the given bound |
| JavaLru.LruCache.SizeIsLength | packages/adaptive-tests-java/core/src/main/java/io/adaptivetests/java/discovery/JavaDiscoveryEngine.java:519-521 | one entry per key in the access order, and never more entries than a positive bound |
| JavaLru.LruCache.Get | packages/adaptive-tests-java/core/src/main/java/io/adaptivetests/java/discovery/JavaDiscoveryEngine.java:514 | a hit returns the value and makes the key most recently used; a miss changes nothing |
| JavaLru.LruCache.Put | packages/adaptive-tests-java/core/src/main/java/io/adaptivetests/java/discovery/JavaDiscoveryEngine.java:518-521 | the value is stored and its key made most recently used; a new key beyond a positive bound evicts the least recently used one |
| JavaLru.LruCache.Clear | packages/adaptive-tests-java/core/src/main/java/io/adaptivetests/java/discovery/JavaDiscoveryEngine.java:392 | the cache becomes empty |
| JavaLru.ReadEntrySurvives | packages/adaptive-tests-java/core/src/main/java/io/adaptivetests/java/discovery/JavaDiscoveryEngine.java:510-522 | with room for two, the entry read since insertion survives and the other old one is evicted |
| JavaEngine.CreateRuntimeCache | packages/adaptive-tests-java/core/src/main/java/io/adaptivetests/java/discovery/JavaDiscoveryEngine.java:67-73 | the runtime cache is empty and bounded by the configured size, unbounded when that is not positive |
| JavaEngine.KeyAsWritten | packages/adaptive-tests-java/core/src/main/java/io/adaptivetests/java/discovery/JavaDiscoveryEngine.java:469-484 | the key opens with the name when one is set (with the pattern text when only that is set) and ends with the kind, the method list and the optional parts that are set |
| JavaEngine.CacheKey | packages/adaptive-tests-java/core/src/main/java/io/adaptivetests/java/discovery/JavaDiscoveryEngine.java:469-484 | the key built piece by piece equals `KeyAsWritten`: name text and pattern text untagged, then the kind, the methods and the optional parts |
| JavaEngine.NameAndPatternCollide | packages/adaptive-tests-java/core/src/main/java/io/adaptivetests/java/discovery/JavaDiscoveryEngine.java:471-472 | as written, a name query and a pattern query with the same text share a key though they select different classes |
| JavaEngine.TaggedKeysSeparate | packages/adaptive-tests-java/core/src/main/java/io/adaptivetests/java/discovery/JavaDiscoveryEngine.java:471-472 | with the kind marked, a name query never shares a key with a pattern query or one with neither |
| JavaEngine.DistinctTypesDistinctKeys | packages/adaptive-tests-java/core/src/main/java/io/adaptivetests/java/discovery/JavaDiscoveryEngine.java:473 | queries that differ only in their kind have different keys |
| JavaEngine.AnyEndsWith | packages/adaptive-tests-java/core/src/main/java/io/adaptivetests/java/discovery/JavaDiscoveryEngine.java:137 | the loop answers whether any suffix ends the text |
| JavaEngine.EligibleAsWritten | packages/adaptive-tests-java/core/src/main/java/io/adaptivetests/java/discovery/JavaDiscoveryEngine.java:134-149 | a file is eligible exactly when its lower-cased name ends in no skip-file entry as configured and in some extension, it has no copy suffix, and no skipped directory holds it |
| JavaEngine.IsEligibleFile | packages/adaptive-tests-java/core/src/main/java/io/adaptivetests/java/discovery/JavaDiscoveryEngine.java:134-149 | the check with its loops decides exactly `EligibleAsWritten` |
| JavaEngine.DefaultSkipFilesNeverMatch | packages/adaptive-tests-java/core/src/main/java/io/adaptivetests/java/discovery/JavaDiscoveryEngine.java:136-137 | as written, no default skip-file entry can end a lower-cased name |
| JavaEngine.TestFilesPassAsWritten | packages/adaptive-tests-java/core/src/main/java/io/adaptivetests/java/discovery/JavaDiscoveryEngine.java:136-137 | as written, a test class passes the default rules like any other Java file |
| JavaEngine.TestFilesSkipped | packages/adaptive-tests-java/core/src/main/java/io/adaptivetests/java/discovery/JavaDiscoveryEngine.java:136-137 | compared case and all, a class named `*Test`, `*Tests` or `*IT` is skipped by the defaults |
| JavaEngine.ProductionClassKept | packages/adaptive-tests-java/core/src/main/java/io/adaptivetests/java/discovery/JavaDiscoveryEngine.java:136-137 | under the corrected rule `Audit.java`, whose lower-cased name ends in `it.java`, stays eligible |
| JavaEngine.CorrectedRuleSkipsOnlyTestNames | packages/adaptive-tests-java/core/src/main/java/io/adaptivetests/java/discovery/JavaDiscoveryEngine.java:136-137 | with the defaults, the corrected rule keeps exactly the files kept as written whose name ends in no skip entry |
| JavaEngine.ResolveTypeName | packages/adaptive-tests-java/core/src/main/java/io/adaptivetests/java/discovery/JavaDiscoveryEngine.java:374-384 | the names of the enclosing type declarations, outermost first, then the own name, joined by dots |
| JavaEngine.TopLevelName | packages/adaptive-tests-java/core/src/main/java/io/adaptivetests/java/discovery/JavaDiscoveryEngine.java:374-384 | a top-level declaration keeps its own name |
| JavaEngine.NestedName | packages/adaptive-tests-java/core/src/main/java/io/adaptivetests/java/discovery/JavaDiscoveryEngine.java:378-383 | a nested declaration's name is the outer name, a dot and its own name |
| JavaEngine.EntryFrom | packages/adaptive-tests-java/core/src/main/java/io/adaptivetests/java/discovery/JavaDiscoveryEngine.java:579-600 | the entry keeps the result, records the modification time when it can be read and 0 otherwise, stamped now |
| JavaEngine.StoredEntryFreshness | packages/adaptive-tests-java/core/src/main/java/io/adaptivetests/java/discovery/JavaDiscoveryEngine.java:440-467 | a just-stored entry is fresh exactly while caching is on, the file exists and the TTL has not run out |
| JavaEngine.ModifiedFileIsStale | packages/adaptive-tests-java/core/src/main/java/io/adaptivetests/java/discovery/JavaDiscoveryEngine.java:458-463 | an entry whose recorded modification time differs from the file's is stale |
| JavaEngine.ScoredInMeans | packages/adaptive-tests-java/core/src/main/java/io/adaptivetests/java/discovery/JavaDiscoveryEngine.java:124-129 | exactly the declarations scoring above zero are kept, each with its own score |
| JavaEngine.CollectedScores | packages/adaptive-tests-java/core/src/main/java/io/adaptivetests/java/discovery/JavaDiscoveryEngine.java:119-132 | every collected candidate carries its own positive score |
| JavaEngine.AddScored | packages/adaptive-tests-java/core/src/main/java/io/adaptivetests/java/discovery/JavaDiscoveryEngine.java:124-129 | the loop over one file's declarations appends exactly the positively scored ones, in order |
| JavaEngine.CollectedMembers | packages/adaptive-tests-java/core/src/main/java/io/adaptivetests/java/discovery/JavaDiscoveryEngine.java:119-132 | a declaration is collected exactly when it scores above zero in a file the as-written rule keeps, test classes included under the defaults |
| JavaEngine.CollectCandidates | packages/adaptive-tests-java/core/src/main/java/io/adaptivetests/java/discovery/JavaDiscoveryEngine.java:119-132 | the walk computes the collected candidates in walk order |
| JavaEngine.ToResult | packages/adaptive-tests-java/core/src/main/java/io/adaptivetests/java/discovery/JavaDiscoveryEngine.java:495-507 | the result carries the candidate's class name, path and kind, with its score |
| JavaEngine.ComputedRanked | packages/adaptive-tests-java/core/src/main/java/io/adaptivetests/java/discovery/JavaDiscoveryEngine.java:100-104 | every result scores above zero and the scores never increase down the list |
| JavaEngine.ComputedKeepsTies | packages/adaptive-tests-java/core/src/main/java/io/adaptivetests/java/discovery/JavaDiscoveryEngine.java:101 | results with equal scores keep the walk order |
| JavaEngine.ComputedHeadIsBest | packages/adaptive-tests-java/core/src/main/java/io/adaptivetests/java/discovery/JavaDiscoveryEngine.java:100-104 | the first result scores at least as high as any candidate of any file the as-written rule keeps |
| JavaEngine.Compute | packages/adaptive-tests-java/core/src/main/java/io/adaptivetests/java/discovery/JavaDiscoveryEngine.java:100-104 | collecting through `IsEligibleFile`, sorting and converting compute the ranked results |
| JavaEngine.LookUp | packages/adaptive-tests-java/core/src/main/java/io/adaptivetests/java/discovery/JavaDiscoveryEngine.java:88-98 | the runtime cache answers before the persisted one, only with fresh entries, and nothing answers with caching off |
| JavaEngine.Outcome | packages/adaptive-tests-java/core/src/main/java/io/adaptivetests/java/discovery/JavaDiscoveryEngine.java:88-113 | a hit answers with its one remembered result, a miss with the whole ranked list |
| JavaEngine.DisabledCacheAlwaysSearches | packages/adaptive-tests-java/core/src/main/java/io/adaptivetests/java/discovery/JavaDiscoveryEngine.java:88 | with caching off the search always runs |
| JavaEngine.RepeatedQueryAnswersFromCache | packages/adaptive-tests-java/core/src/main/java/io/adaptivetests/java/discovery/JavaDiscoveryEngine.java:106-109 | after a miss stores the best result, a repeat within the TTL answers with that one result |
| JavaEngine.FirstOf | packages/adaptive-tests-java/core/src/main/java/io/adaptivetests/java/discovery/JavaDiscoveryEngine.java:75-81 | `discover` fails exactly on an empty list and otherwise returns its head |
| JavaEngine.Engine.constructor | packages/adaptive-tests-java/core/src/main/java/io/adaptivetests/java/discovery/JavaDiscoveryEngine.java:58-61 | the engine keeps its configuration, an empty runtime cache of the configured size and no loaded cache |
| JavaEngine.Engine.EnsureCacheLoaded | packages/adaptive-tests-java/core/src/main/java/io/adaptivetests/java/discovery/JavaDiscoveryEngine.java:386-411 | loading happens once; with caching off both caches are emptied, otherwise the stored cache is read |
| JavaEngine.Engine.DiscoverAll | packages/adaptive-tests-java/core/src/main/java/io/adaptivetests/java/discovery/JavaDiscoveryEngine.java:83-117 | the answer is the lookup's outcome under the as-written key, over the files the as-written rule keeps; with caching on, the runtime cache is read (a present key becomes most recently used), then a persisted hit or a stored miss is `put`, with its eviction, and the persisted cache gains the stored miss; with caching off the runtime cache is empty |
| JavaEngine.Engine.TryCaches | packages/adaptive-tests-java/core/src/main/java/io/adaptivetests/java/discovery/JavaDiscoveryEngine.java:88-98 | the cache half answers exactly the lookup over the runtime cache as it was and the persisted cache; the read makes a present key most recently used, and only a persisted hit changes the entries, by a `put` of that entry |
| JavaEngine.Engine.Remember | packages/adaptive-tests-java/core/src/main/java/io/adaptivetests/java/discovery/JavaDiscoveryEngine.java:106-110 | after a miss the best result's entry is `put` into the runtime cache, with its eviction, and stored under the key in the persisted one |
| JavaEngine.Engine.Discover | packages/adaptive-tests-java/core/src/main/java/io/adaptivetests/java/discovery/JavaDiscoveryEngine.java:75-81 | the first result of `discoverAll` under the as-written key, or a failure when there is none |
| TodoService.Strip | languages/python/examples/python/src/todo_service.py:20-21 | the stripped title has no whitespace at either end and is empty exactly when the title is blank |
| TodoService.StripIdempotent | languages/python/examples/python/src/todo_service.py:20-22 | stripping twice equals stripping once |
| TodoService.FirstWithId | languages/python/examples/python/src/todo_service.py:48-52 | the first to-do with the id, or none exactly when no to-do has it |
| TodoService.FilterMeans | languages/python/examples/python/src/todo_service.py:32-37 | the to-dos with the given flag, every one of them, and nothing else |
| TodoService.FilterPartition | languages/python/examples/python/src/todo_service.py:32-42 | the completed and the active to-dos together are the list, each once |
| TodoService.MarkCompleted | languages/python/examples/python/src/todo_service.py:27-30 | the first to-do with the id becomes completed; every other to-do, its flag included, is unchanged; ids, titles and the length are kept |
| TodoService.MarkCompletedIdempotent | languages/python/examples/python/src/todo_service.py:27-30 | completing the same id twice equals completing it once |
| TodoService.FilterKeepsIds | languages/python/examples/python/src/todo_service.py:39-42 | removing to-dos keeps the ids increasing and below the next id |
| TodoService.Service.constructor | languages/python/examples/python/src/todo_service.py:15-17 | a new service has no to-dos and hands out id 1 next |
| TodoService.Service.IdsUnique | languages/python/examples/python/src/todo_service.py:19-25 | ids are unique among the to-dos |
| TodoService.Service.Add | languages/python/examples/python/src/todo_service.py:19-25 | a blank title fails and changes nothing; otherwise the stripped title is appended under the next id, not completed |
| TodoService.Service.Find | languages/python/examples/python/src/todo_service.py:48-52 | the scan finds the first to-do with the id |
| TodoService.Service.Complete | languages/python/examples/python/src/todo_service.py:27-30 | the first to-do with the id is marked completed and returned; an unknown id fails and changes nothing |
| TodoService.Service.List | languages/python/examples/python/src/todo_service.py:32-37 | "completed" and "active" filter on the flag, any other status lists everything |
| TodoService.Service.ClearCompleted | languages/python/examples/python/src/todo_service.py:39-42 | the completed to-dos are dropped and their count returned |
| TodoService.Service.Reset | languages/python/examples/python/src/todo_service.py:44-46 | no to-dos remain and ids start again at 1 |
| TodoService.ListingsPartition | languages/python/examples/python/src/todo_service.py:32-37 | the completed and the active listings together hold every to-do |
| TodoService.FirstIds | languages/python/examples/python/src/todo_service.py:15-25 | a fresh service numbers its first three to-dos 1, 2 and 3 |

## Left out

- Parsers: `syn::parse_file`, Go's `parser.ParseFile` and `ast.Inspect`, JavaParser and Python's `ast` are not modelled. Their trees arrive as datatypes. Go's walk arrives as the sequence of nodes it visits, in its order. A parse failure in Go happens before `parseGoFile` builds anything, so the model starts from a parsed file.
- `quote!` and Go's type printing for unhandled nodes: a Rust type carries the text `quote!` renders (`RustSyn.ExtractType`); the renderer is not modelled.
- Regular-expression engines: Python's regex name and module search, Java's `namePattern` search and the copy-suffix filename pattern of the Java engine. They arrive as parameters: `Search`, `Find`, and a `copySuffix` flag on each walked file.
- RustRegex: the patterns are read line by line. A `\s+` between keywords, a leading `\s*` after `(?m)^`, or a `use` path `[^;]+` that crosses a line break matches in the source but not in the model.
- Character classes are ASCII only: `Text.IsUpper`, `Text.IsWordChar` and `Text.IsSpace`, and `JavaPath.IsWhitespace` and `JavaPath.IsBlank`, know only the ASCII letters, digits and blanks. The source uses Unicode classes: Rust's `char::is_alphanumeric`, `str::trim` and regex `\w` and `\s`, Go's `ast.IsExported`, Java's `String.isBlank`. So a Rust `struct Café {` reads as `Caf` here, and a Go type named `Éclair` is not exported here though it is in Go.
- PyDiscovery.MatchCandidates: the generator is modelled as the list it yields, over the walked candidates in walk order; its laziness (`_best_match` consuming it as it goes) is not modelled.
- Case folding is ASCII only: Python's `str.lower`, Java's `toLowerCase(Locale.ROOT)` and `equalsIgnoreCase` map only `A`-`Z`. Other letters are compared as they are.
- Python scores are exact reals: `float` rounding in `0.2 * ratio` and in the sums is not modelled.
- JsonValue: a floating-point JSON number carries its `Double.toString` text as given. NaN and the infinities are not modelled. `Long.parseLong` accepts only ASCII digits here; Java also accepts other Unicode decimal digits.
- File system, clock and persistence are parameters or left out:
  - the directory walks and file reads;
  - reading the configuration files (a file that is missing or fails to parse is `None`);
  - loading the persisted cache (its content is `stored`);
  - writing it back in `saveCache`, and its warnings on standard error;
  - `IOException` from the walk, which `discoverAll` turns into a `DiscoveryException`.
- Concurrency: `Collections.synchronizedMap`, the `synchronized` block and `ConcurrentHashMap` are not modelled. A non-positive runtime cache size gives an LRU cache with no bound, which behaves as the plain map does.
- ConfigLoader.Merge: the in-place `mergeInto` is modelled on values, and no visible behaviour is lost. `mergeInto` writes only into its target, never into its source. A nested map stored by reference and written into later is a parsed map from a configuration file, which only `load` sees. The inline map is merged last, so the caller's maps are never changed. Keys are strings, so `castMap`'s `String.valueOf` of a key is the identity.
- JsonValue.Stringify: Java's `HashMap.toString` depends on hash order and is the `MapText` parameter.
- JavaPath: `Path` normalisation (`.`, `..`, repeated slashes) and Windows paths are not modelled. `Path.of` rejects only a NUL character here.
- JavaEngine.Engine.constructor: it takes the loaded configuration. The source makes the root absolute and normalised, then runs `ConfigLoader.load` itself. `ConfigLoader.Load` models that step.
- JavaEngine.IsFresh: the age `now - timestamp` is an unbounded integer; the Java `long` subtraction could overflow for timestamps near the extremes.
- JavaConfig.ToLongSeconds: models the `long` wrap-around of `seconds * 1000` explicitly. Only the range of the result is stated for huge values.
- JavaScoring: the packaged `ScoringEngine` is modelled against the richer `Signature` of the language module, since it uses `RECORD`, `ENUM` and `getImplementsInterfaces()`.
- JavaEngine: the packaged `JavaDiscoveryEngine` is modelled against the full `DiscoveryConfig` of the language module (`JavaConfig`). It calls `isCacheEnabled`, `getRuntimeCacheSize` and `getCacheTtlMillis`, which only that class defines; the packaged `DiscoveryConfig` (`PkgConfig`) has no cache flag, TTL or runtime-cache size.
- JavaSignature.Builder.Methods and PkgSignature.Builder.Methods: lists hold strings, never null, so `List.copyOf` throwing on a null element is not modelled. Values are immutable, so the defensive copies need no modelling.
- TodoService.Service.Complete: returns the completed to-do as a value. In the source it is the stored object itself, so a caller's later change to it would show in the list. A `title` of `None` is not modelled (the type is a string).
- The Python `DiscoveryResult.load` import machinery, and the Rust and Go `main` functions: argument handling, output and exit codes.

## Findings

| source | as written | input that shows it | evidently intended | confidence | as-written member | corrected member |
|---|---|---|---|---|---|---|
| languages/rust/src/rust-ast-bridge.rs:132-141 | names, types and paths are spliced between quotes without escaping | a struct named `a"b`: its name reads back as `a`, with `b"` left over | escape `"`, `\` and control characters, so every string reads back | not executed | RustJson.VerbatimQuoteBreaksLiteral | RustJson.EscapedLiteralRoundTrip |
| packages/adaptive-tests-java/core/src/main/java/io/adaptivetests/java/discovery/JavaDiscoveryEngine.java:471-472 | the cache key appends the name or the pattern text untagged | a query by name `Foo` and a query by pattern `Foo` share a key; class `foo` scores under the first and not under a case-sensitive pattern, so one query's cached answer is returned for the other | mark which of the two the key text is | not executed | JavaEngine.NameAndPatternCollide | JavaEngine.TaggedKeysSeparate |
| packages/adaptive-tests-java/core/src/main/java/io/adaptivetests/java/discovery/JavaDiscoveryEngine.java:136-137 | the lower-cased file name is compared with the skip-file entries as configured | `FooTest.java` under the defaults `Test.java`, `Tests.java`, `IT.java`: no entry can match, so test classes are scanned | compare the file name itself with the entries, case and all, as the Maven `*Test`, `*Tests`, `*IT` naming is; lower-casing both sides would also skip `Audit.java` | not executed | JavaEngine.TestFilesPassAsWritten | JavaEngine.TestFilesSkipped |

The serializer is modelled as written: `RustJson.ToJson` produces `Document(m, Verbatim)`. Every shape lemma about `Document` holds for any quoting function, so it holds for the escaping one too. The Java engine follows the code as written: `JavaEngine.CacheKey` builds `KeyAsWritten` and `JavaEngine.IsEligibleFile` decides `EligibleAsWritten`, and `Collected`, `DiscoverAll` and `Discover` use those two. The corrected key `CacheKeyOf` and the corrected rule `Eligible` stand beside them with their own lemmas.
