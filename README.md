# imposm3 mapping configuration, modelled in Dafny

imposm3 imports OpenStreetMap data into PostGIS. A YAML *mapping* document
tells it which tables to create, which tag key/value pairs send an element
to which table, which tags to keep, and which filters an element must
pass. This project models `mapping/config.go`, the part that decodes and
compiles that document:

- decoding of a table's geometry kind (`TableType.UnmarshalJSON`);
- decoding of a `key: [values]` block, where each value is numbered in
  declaration order (`KeyValues.UnmarshalYAML`);
- normalization of the decoded document (`prepare`);
- building the classification index `key -> value -> [target table]` for
  one geometry kind (`addFromMapping`, `mappings`);
- the set of tags to keep for one kind (`Table.ExtraTags`, `extraTags`);
- compiling every table's element filters (`ElementFilters`,
  `makeFiltersFunction`, `makeRegexpFiltersFunction`,
  `findValueInOrderedValue`).

Modules, one per file:

| file | module | contents |
|---|---|---|
| `wrappers.dfy` | `Wrappers` | `Option`, `Result` |
| `mapping_types.dfy` | `MappingTypes` | keys, values, ordered values, tables, filters, areas, tags; `ToSet`, `IsEnumeration` |
| `table_type.dfy` | `TableTypeJson` | the kind decoder |
| `key_values.dfy` | `KeyValuesYaml` | the `key: [values]` decoder over a decoded YAML node list |
| `tag_tables.dfy` | `TagTablesIndex` | class `TagTables`, the mutable index, and `addFromMapping` |
| `index_spec.dfy` | `IndexSpec` | a functional reference definition of what `mappings` adds to the index |
| `filtering.dfy` | `Filtering` | element filters as a datatype with an evaluation function; the filter list of one table |
| `mapping.dfy` | `MappingConfig` | class `Mapping` with `Prepare`, `Mappings`, `ExtraTags`, `ElementFilters` |

Go closures `func(tags, key, closed) bool` become values of the datatype
`Filtering.ElementFilter`. `Filtering.Eval` gives each one the meaning the
closure has. The regular-expression engine is a parameter
(`Filtering.RegexpEngine`: which patterns compile, which strings a pattern
matches).

Go map iteration order is unspecified. Where it decides the result (the
order of targets in the index, the order of filters in a table's list),
the order is an explicit parameter. The parameter must enumerate the map's
keys exactly once (`MappingTypes.IsEnumeration`). Where it does not decide
the result, the loop picks the next key with `:|`.

Behaviour of the code that is easy to misread:

- The declaration-order counter of `KeyValues.UnmarshalYAML` starts at 0
  in each `key: [values]` block. It is not one counter across the document
  (`mapping/config.go:91`).
- The YAML path never calls `TableType.UnmarshalJSON`. A table decoded
  from YAML may therefore carry any type string. `MappingTypes.TableType`
  is a string. A table of an unknown kind is selected only when the
  requested `tableType` is that same string, as the comparison at
  `mapping/config.go:234` does (`MappingTypes.Selected`).
- The polygon heuristic drops a way routed by a linear key and not tagged
  `area=yes` even when the way is open. Only its first test,
  `area=no`, looks at `closed` (`mapping/config.go:322-329`).
  `Filtering.LinearHeuristicDropsOpenWay` states this.
- Positions in the index and in the filter lists follow map iteration
  order, not declaration order. `IndexSpec.CrossTableExample` shows two
  tables whose targets for the same tag swap places when the table order
  changes.
- An `exclude_tags` pair whose value is `__any__` becomes a wildcard reject
  filter: it rejects every element that has the key, as
  `Filtering.MakeFiltersFunctionEval` gives for the value `__any__`.
- Error texts are the ones Go prints. A failed string cast prints its zero
  value, so the texts read `mapping key '' not a string` and
  `mapping value '' not a string`.

## Model

| member | source | states |
|---|---|---|
| TableTypeJson.UnmarshalJSON | mapping/config.go:139-168 | success only on a text that is one of the six kind names between quotes, decoding to that kind; the empty text fails with "missing table type", every other text with "unknown type " followed by the text |
| TableTypeJson.DecodeQuotedKind | mapping/config.go:140-154 | each of the six kinds, quoted, decodes to itself |
| TableTypeJson.DecodeSucceedsIff | mapping/config.go:139-159 | decoding succeeds if and only if the text is the quoted name of a known kind |
| TableTypeJson.DecodeUnknown | mapping/config.go:155-156 | a non-empty text that is no quoted kind fails with "unknown type " + text |
| KeyValuesYaml.UnmarshalYAML | mapping/config.go:82-111 | no error exactly when every key and every list element is a string and every value is a list; then each key's list is the old list followed by its new values, numbered in declaration order; otherwise the error is the one the first bad entry produces |
| KeyValuesYaml.AppendValues | mapping/config.go:101-108 | the inner loop: succeeds exactly when every element is a string, appending them to the key's list with consecutive order numbers |
| KeyValuesYaml.ApplyExtends | mapping/config.go:91-108 | applying the numbered entries extends every key's list by its own entries, in order, and leaves other keys unchanged |
| KeyValuesYaml.TaggedSound | mapping/config.go:101-106 | every value recorded for a key comes from an entry of that key, with that entry's position as its order |
| KeyValuesYaml.TaggedIncreasing | mapping/config.go:101-106 | the order numbers recorded for a key strictly increase |
| KeyValuesYaml.TaggedComplete | mapping/config.go:101-106 | every entry of a key is recorded for it |
| KeyValuesYaml.FlatLength | mapping/config.go:92-108 | the number of numbered entries is the total number of list elements |
| KeyValuesYaml.FlatAt | mapping/config.go:92-108 | element j of item i is entry number (elements before item i) + j |
| KeyValuesYaml.OrderIsValuesBefore | mapping/config.go:91-108 | the order of a value is the number of values declared before it in the block |
| KeyValuesYaml.DeclarationOrderExample | mapping/config.go:91-108 | `A: [a1, a2], B: [b1]` numbers a1, a2, b1 as 0, 1, 2 |
| TagTablesIndex.TagTables.Append | mapping/config.go:220-227 | one target is appended to the list of its key and value, the key's inner map created when missing, and nothing else changes; the index keeps no empty inner map or list |
| TagTablesIndex.TagTables.AddValues | mapping/config.go:219-228 | the inner loop: appends one target per value, carrying its order, to that value's list |
| TagTablesIndex.TagTables.AddFromMapping | mapping/config.go:217-230 | for every key and value, the index list becomes the old list followed by one target per occurrence of the value under the key, each carrying that occurrence's order; the total number of targets grows by the number of values |
| TagTablesIndex.HitsMembership | mapping/config.go:219-228 | a target is added for a value exactly when some occurrence of the value carries its order |
| TagTablesIndex.HitsCount | mapping/config.go:219-228 | as many targets are added for a value as it occurs in the list |
| IndexSpec.TypeBlock | mapping/config.go:244-251 | only point, linestring and polygon have a type-specific block |
| IndexSpec.TableContributionMembership | mapping/config.go:237-250 | a target comes from one table exactly when it is the table's main mapping, one of its sub-mappings, or its type-specific block, with the order of the matching value |
| IndexSpec.ContributionMembership | mapping/config.go:232-252 | a target is added for a key and value exactly when it comes from some table of kind `tableType` or `geometry` |
| IndexSpec.ContributionOrderIndependent | mapping/config.go:232-252 | the targets added are the same multiset for every iteration order of tables and sub-mappings |
| IndexSpec.CrossTableExample | mapping/config.go:232-252 | two tables mapping the same tag get their targets in table iteration order |
| MappingConfig.AddSubMappings | mapping/config.go:239-241 | adds the sub-mapping targets, sub-mappings in the given order |
| MappingConfig.AddTable | mapping/config.go:237-250 | adds one table's targets: main mapping, sub-mappings, then the type-specific block |
| MappingConfig.VisitTable | mapping/config.go:233-251 | the loop body: a table adds its contribution when it is of kind `tableType` or `geometry`, and nothing otherwise |
| MappingConfig.Mapping.Mappings | mapping/config.go:232-252 | every index list becomes the old list followed by the contribution of the selected tables, in the given order |
| MappingConfig.TableExtraTags | mapping/config.go:189-200 | the keys read by the table's columns |
| MappingConfig.FieldKeysMembership | mapping/config.go:189-200 | a key is read by the columns exactly when some column has it as non-empty `key` or among its `keys` |
| MappingConfig.MarkSet | mapping/config.go:269-271 | sets every key of a set to true in the tag map |
| MappingConfig.MarkExcluded | mapping/config.go:272-276 | sets the key of every `exclude_tags` pair to true |
| MappingConfig.MarkTable | mapping/config.go:265-278 | one table's keys are set to true only when the table is of kind `tableType` or `geometry` |
| MappingConfig.MarkSeq | mapping/config.go:278-280 | sets every globally included key to true |
| MappingConfig.Mapping.ExtraTags | mapping/config.go:264-284 | the result is the input map with all keys of the selected tables, all included keys and `area` set to true; nothing else changes and no key is removed |
| MappingConfig.ExtraTagSetMembership | mapping/config.go:264-284 | a key is set exactly when it is `area`, globally included, read by a column of a selected table, or the key of one of its `exclude_tags` pairs |
| MappingConfig.Mapping.Prepare | mapping/config.go:202-215 | every table is named after its key and gets its deprecated `fields` as columns when given; every generalized table is named after its key; nothing else changes, and afterwards the document is normalized |
| MappingConfig.Mapping.NameTables | mapping/config.go:203-209 | every table is named after its key and gets its deprecated `fields` as columns when given; the other fields do not change |
| MappingConfig.Mapping.NameGeneralizedTables | mapping/config.go:211-213 | every generalized table is named after its key; the other fields do not change |
| MappingConfig.PrepareIdempotent | mapping/config.go:203-210 | normalizing a table twice is normalizing it once |
| MappingConfig.PrepareNoOp | mapping/config.go:202-215 | normalizing a normalized document leaves it unchanged |
| MappingConfig.HintSet | mapping/config.go:289-302 | a nil key list stays nil, otherwise it becomes the set of its keys |
| MappingConfig.KeySet | mapping/config.go:291-302 | the loop collects exactly the listed keys |
| MappingConfig.AppendLegacy | mapping/config.go:339-352 | appends one reject filter per `exclude_tags` pair |
| MappingConfig.AppendFamily | mapping/config.go:354-364 | appends one value filter per key, in the given key order |
| MappingConfig.AppendRegexpFamily | mapping/config.go:366-376 | appends one pattern filter per key, stopping with the first pattern that does not compile |
| MappingConfig.AppendFilterFamilies | mapping/config.go:336-377 | appends the `exclude_tags`, require, reject, require-pattern and reject-pattern filters, in that order |
| MappingConfig.TableFilters | mapping/config.go:303-377 | the loop body: one table's filter list is its heuristic followed by its families |
| MappingConfig.FiltersOfErr | mapping/config.go:366-376 | when a table's list fails, the error is one of that table's `require_regexp` or `reject_regexp` patterns, and it does not compile |
| MappingConfig.FiltersOfOk | mapping/config.go:336-377 | a table's filters compile exactly when all its patterns compile |
| MappingConfig.CompileTables | mapping/config.go:304-377 | the table loop: it fails with the error of a table whose filters do not compile; otherwise each table's entry is its compiled list, and a table gets no entry when its list is empty |
| MappingConfig.Mapping.ElementFilters | mapping/config.go:286-380 | fails exactly when some pattern of some table does not compile, and the error is then a pattern of some table's `filters` block that does not compile; otherwise each table's entry is its compiled list, and a table gets no entry when its list is empty |
| Filtering.TagValue | mapping/config.go:308-311 | Go's `tags[k]`: the key's value when present, the empty string when missing |
| Filtering.Eval | mapping/config.go:306-437 | the meaning of each compiled closure (the heuristics at 306-318 and 322-332, the pattern test at 394-401, the value tests at 414-437): a tag filter with its key missing yields its no-match result; with `__any__` only the key's presence decides; the area heuristic keeps open ways and ways tagged `area=no`, and without an area tag drops exactly the closed ways routed by an area key; the linear heuristic keeps ways tagged `area=yes` and drops an open way exactly when it is not tagged `area=yes` and its routing key is linear |
| Filtering.FindValueInOrderedValue | mapping/config.go:382-389 | true exactly when some entry has the value |
| Filtering.MakeFiltersFunction | mapping/config.go:404-439 | builds a key test yielding the given results on match and no match |
| Filtering.MakeFiltersFunctionEval | mapping/config.go:404-439 | the filter yields `virtualTrue` exactly when the key is present and `__any__` or the key's value is among the values, `virtualFalse` otherwise |
| Filtering.AnySemantics | mapping/config.go:410-419 | with `__any__` among the values only the presence of the key matters |
| Filtering.MembershipSemantics | mapping/config.go:429-438 | without `__any__` the value must be one of the configured values |
| Filtering.SingleValueIsMembership | mapping/config.go:420-428 | the single-value shortcut agrees with the membership test |
| Filtering.EmptyListYieldsOtherwise | mapping/config.go:429-438 | a filter with no values yields `virtualFalse` for every element |
| Filtering.RejectNegatesRequire | mapping/config.go:354-364 | a reject filter keeps exactly what the require filter for the same key and values drops |
| Filtering.FilterWarnings | mapping/config.go:406-413 | no warning exactly when no value is `__nil__` and `__any__` is not among several values; at most two warnings |
| Filtering.MakeRegexpFiltersFunction | mapping/config.go:391-402 | fails, with the pattern, exactly when the pattern does not compile; otherwise a pattern test with the given results |
| Filtering.RegexpSemantics | mapping/config.go:394-401 | a pattern filter yields `virtualTrue` exactly when the key is present and its value matches |
| Filtering.RegexpRejectNegatesRequire | mapping/config.go:366-376 | a reject-pattern filter keeps exactly what the require-pattern filter drops |
| Filtering.RegexpRejectExample | mapping/config.go:372-376 | a reject pattern drops an element whose value matches and keeps one whose value does not |
| Filtering.AreaHeuristicDrops | mapping/config.go:305-320 | the linestring heuristic drops a way exactly when it is closed and tagged `area=yes`, or closed, not tagged `area=no` and routed by an area key; open ways always stay |
| Filtering.AreaHeuristicExample | mapping/config.go:305-320 | a closed way routed by an area key is dropped, unless it is tagged `area=no` |
| Filtering.LinearHeuristicDrops | mapping/config.go:321-334 | the polygon heuristic drops a way exactly when it is closed and tagged `area=no`, or not tagged `area=yes` and routed by a linear key |
| Filtering.LinearHeuristicDropsOpenWay | mapping/config.go:326-330 | that second test drops open ways too |
| Filtering.FamilySemantics | mapping/config.go:354-364 | a value-filter family keeps an element exactly when every filter for every configured key does |
| Filtering.RegexpFamilySemantics | mapping/config.go:366-376 | a pattern-filter family compiles exactly when all its patterns do, and then keeps an element exactly when every pattern filter does |
| Filtering.LegacySemantics | mapping/config.go:339-352 | the `exclude_tags` filters keep an element exactly when no pair matches it |
| Filtering.RegexpFamilyErr | mapping/config.go:366-376 | a failing pattern family reports one of its own patterns, and that pattern does not compile |
| Filtering.FilterFamiliesErr | mapping/config.go:366-376 | when a `filters` block fails to compile, the error is one of its patterns, and it does not compile |
| Filtering.FilterFamiliesShape | mapping/config.go:336-377 | the families compile exactly when all patterns compile, and then are all tag filters |
| Filtering.FilterFamiliesKeep | mapping/config.go:336-377 | the compiled families keep an element exactly when the table's filters accept it |
| Filtering.CompiledFiltersSemantics | mapping/config.go:303-377 | a table's list compiles exactly when its patterns do; it starts with the heuristic for its kind, the rest are tag filters, and it keeps an element exactly when the heuristic and all configured filters do |
| Filtering.WildcardRequireExample | mapping/config.go:410-419 | a require filter with `__any__` keeps every element with the key and drops one without it |
| Filtering.WildcardConflictExample | mapping/config.go:406-419 | `__any__` together with another value acts as `__any__` alone and produces a warning |

## Left out

- `NewMapping` is not modelled. It reads a file and runs the YAML decoder, which is a library. The model starts from the decoded document, and `KeyValuesYaml.UnmarshalYAML` takes the decoded node list as its input.
- The regular-expression engine is not modelled. It is a parameter, so the model says nothing about which patterns compile or match.
- Logging is not modelled. `Filtering.FilterWarnings` returns the texts `makeFiltersFunction` logs, but `ElementFilters` does not collect them. The `exclude_tags` deprecation message is not modelled either.
- `Mapping.tables` and `TableFields` are not part of this model. They build column descriptions from code outside `mapping/config.go`.
- The YAML fields `Tolerance`, `SqlFilter`, `SingleIdSpace` and the column arguments are not modelled. They are carried along, or left out, because nothing in the modelled operations reads them.
- Concurrency and aliasing are not modelled. Tables and the caller's tag map are values, not shared pointers, so aliasing between them is not captured.
- KeyValuesYaml.UnmarshalYAML: on error the model says nothing about which values were already appended before the failure.
- Mapping.ExtraTags: requires every `exclude_tags` pair of a selected table to have a key. Go would panic on an empty pair, and a panic is not modelled.
- Mapping.ElementFilters: requires every `exclude_tags` pair to have a key and a value. Go would panic on a shorter pair and the model does not model the panic.
- Mapping.ElementFilters: a pattern that does not compile makes Go panic inside `regexp.MustCompile`. The model returns `Err(pattern)` instead.
- Mapping.Mappings: the iteration order of Go's map is a parameter. The model does not say which order Go picks.
- TagTables.AddFromMapping: the total target count `Total()` is ghost, a proof aid with no counterpart in the source.
- Columns given as nil pointers are not modelled; every column is a value.
