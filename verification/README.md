# Search fields of the Open Data Cube index, in Dafny

This project models the search-field engine of the Open Data Cube's postgis
index driver, together with the small rules around it.

- **Reading fields.** A search field reads a value out of a dataset's JSON
  metadata document. It tries one or more key paths ("offsets") and combines
  the values it finds with a selection policy: `first`, `least` or
  `greatest`. A range field has a lower sub-field, which takes the least of
  its offsets, and a greater sub-field, which takes the greatest.
- **Query predicates.** `field == v` and `field.between(low, high)` become
  one of four predicate kinds: equals, value-between, range-between
  (overlap) and range-contains. The SQL text is not modelled; a predicate is
  a datatype value. The index stores numeric and date scalars as the
  degenerate closed range `[v, v]`, and a float NaN cannot be indexed.
- **Field registry.** `parse_fields` turns a metadata type's
  `search_fields` section into fields. It handles type names, the defaults
  (`string`, indexed), the `float-range` alias and the errors.
- **Around the engine:**
  - the half-open `Range` overlap test of the model package;
  - the map from field type names to the three search tables, and the
    tables' primary keys;
  - matching products against a query in memory (`search_robust`);
  - normalising the database application name;
  - the decision rules of the two dataset resources: location updates,
    bulk id lookup, purge, bulk-add bucketing and the guards of time
    counting.

Python values are one closed datatype, `Values.Value`. It covers JSON
documents, query values, dates, decimals, NaN and the `Range`/`Not`
tuples. A raised exception is the `Err` case of `Values.Result`.

Modules, one per source component:

- `Values`: values, truthiness, equality, `<` and document walking.
- `Ordering`: order facts about `<`.
- `Selection`: the selection policies.
- `Fields`: the field classes and predicates of `_fields.py`.
- `Extraction`: extraction properties.
- `IndexSemantics`: what the index predicates mean for numbers.
- `Registry`: `parse_fields`.
- `Schema`: `_schema.py`.
- `Base`: `_base.py`.
- `Products`: `search_robust` and `can_update` for products.
- `Connections`: the application name.
- `PostgresDatasets` and `PostgisDatasets`: the two `_datasets.py` files.

Where the project's own documentation and the code disagree, the model
follows the code:

- **`numeric` is not a registered type.** `parse_fields` builds its type
  table from a list that leaves out `NumericDocField`
  (`datacube/drivers/postgis/_fields.py:648-659`). A `search_fields` entry
  of type `numeric` is therefore an unknown type (`Registry.NumericIsUnknown`),
  even though the schema's type map lists `numeric`.
- **Falsy ends make a range field Null.** A range field extracts as Null
  when both of its ends are falsy, so `0` counts as well as `None`
  (`datacube/drivers/postgis/_fields.py:417-422`, `Extraction.RangeOfTwoKeys`).

## Model

| member | source | states |
|---|---|---|
| Values.Get | datacube/drivers/postgis/_fields.py:673-675 | a descriptor lookup with a default yields the default exactly when the key is absent, and otherwise a value the mapping holds under that key |
| Values.Truthy | datacube/drivers/postgis/_fields.py:417-422 | `bool(v)`: a number is true exactly when it is not zero, and a list, tuple, string or mapping exactly when it is not empty |
| Values.Equal | datacube/drivers/postgis/_fields.py:613-614 | `==`: numbers of any representation are equal exactly when their magnitudes are, a NaN equals nothing, and a value equal to a tuple is a tuple (a `Range` or `Not` among them) |
| Values.Less | datacube/drivers/postgis/_fields.py:715-721 | `<` on two values of different classes raises unless both are numbers; strings, dates and numbers compare; an ordering with a float NaN is false; the only errors are TypeError and the decimal InvalidOperation |
| Ordering.EqualSymmetric | datacube/drivers/postgis/_fields.py:613-614 | `==` is symmetric on every value, nested lists, tuples and mappings included |
| Ordering.ReorderedMappingsAreEqual | datacube/drivers/postgis/_fields.py:613-614 | a mapping with distinct keys and self-equal values equals every reordering of its entries, in both directions: dictionary `==` ignores insertion order |
| Ordering.MissingKeyMakesUnequal | datacube/drivers/postgis/_fields.py:613-614 | a key defined in one mapping and not in the other makes the two unequal in either order, whatever the values |
| Ordering.MappingsIgnoreKeyOrder | datacube/drivers/postgis/_fields.py:613-614 | two mappings listing the same keys in opposite orders are equal |
| Ordering.ListsCompareElementsByValue | datacube/drivers/postgis/_fields.py:613-614 | `[1] == [1.0]` holds and `[1] == (1,)` does not |
| Ordering.RangeEqualsPlainTuple | datacube/drivers/postgis/_fields.py:613-614 | a named tuple equals the plain tuple of its fields: `Range(1, 2) == (1, 2)` and `Not("x") == ("x",)` |
| Ordering.LessAtFirstDifference | datacube/drivers/postgis/_fields.py:715-721 | two lists, or two tuples, compare as their elements at the first position where those are not equal |
| Ordering.PrefixIsLess | datacube/drivers/postgis/_fields.py:715-721 | a list that is a proper prefix, element by element, of another is less than it, and not the other way round |
| Ordering.ListsOrderLexicographically | datacube/drivers/postgis/_fields.py:715-721 | `[1, 5] < [2]` holds and `["b"] < ["a", "z"]` does not |
| Ordering.ListAndTupleIncomparable | datacube/drivers/postgis/_fields.py:715-721 | a list and a tuple cannot be ordered: TypeError |
| Selection.PolicyNamed | datacube/drivers/postgis/_fields.py:244-251 | `first`, `least` and `greatest` select their policies and nothing else does; any other hashable name raises ValueError naming it, an unhashable one raises TypeError |
| Selection.Coalesce | datacube/drivers/postgis/_fields.py:695-710 | `first` gives None exactly when every value is None, and otherwise the earliest value that is not None |
| Selection.Minimum | datacube/drivers/postgis/_fields.py:715-721 | `min` returns one of its values, a single value itself, and raises only the comparison's TypeError or InvalidOperation |
| Selection.Maximum | datacube/drivers/postgis/_fields.py:715-721 | `max` returns one of its values, a single value itself, and raises only the comparison's TypeError or InvalidOperation |
| Selection.Combine | datacube/drivers/postgis/_fields.py:230-235 | `first` never raises and gives None only when every value is None; any value a policy chooses is one of the values; a single value is chosen by every policy |
| Selection.MinimumFromIsLeast | datacube/drivers/postgis/_fields.py:715-721 | on comparable values, `min` as a running fold succeeds and returns one of its values that no value is less than |
| Selection.MaximumFromIsGreatest | datacube/drivers/postgis/_fields.py:715-721 | on comparable values, `max` as a running fold succeeds and returns one of its values that is less than no value |
| Selection.MinimumIsLeast | datacube/drivers/postgis/_fields.py:715-721 | `least` returns a member of the values that no member is less than |
| Selection.MaximumIsGreatest | datacube/drivers/postgis/_fields.py:715-721 | `greatest` returns a member of the values that is less than no member |
| Selection.MinimumIgnoresOrder | datacube/drivers/postgis/_fields.py:715-721 | any permutation of comparable values gives an equal `least` |
| Selection.MaximumIgnoresOrder | datacube/drivers/postgis/_fields.py:715-721 | any permutation of comparable values gives an equal `greatest` |
| Selection.MinimumWithNaNDependsOnOrder | datacube/drivers/postgis/_fields.py:715-721 | with a float NaN among the values, `least` of `[nan, 1]` is NaN but `least` of `[1, nan]` is 1 |
| Selection.CoalesceDependsOnOrder | datacube/drivers/postgis/_fields.py:695-710 | `first` keeps the earlier of two present values and skips a missing earlier one |
| Fields.Lower | datacube/drivers/postgis/_fields.py:381-390 | the lower end of a range field is an unindexed scalar field named `<name>_lower`, over the minimum offsets, of the same kind, selecting `least` |
| Fields.Greater | datacube/drivers/postgis/_fields.py:391-398 | the greater end is an unindexed scalar field named `<name>_greater`, over the maximum offsets, selecting `greatest` |
| Fields.Trunc | datacube/drivers/postgis/_fields.py:311-312 | `int()` of a real truncates toward zero: the result lies within one of the argument, on the side of zero |
| Fields.ParseValue | datacube/drivers/postgis/_fields.py:304-319 | a string field keeps the value; a present value never parses to None; each kind parses into its own domain; numbers keep their magnitude as decimals and floats and are truncated as integers; a NaN raises for an integer field and stays NaN for a double field; a numeric field reads a list or tuple as a decimal triple and refuses any malformed one with ValueError; integer and double fields refuse anything but numbers and text with TypeError |
| Fields.ToDecimal | datacube/drivers/postgis/_fields.py:304-305 | `Decimal(v)`: numbers keep their magnitude, NaNs become the decimal NaN, a list or tuple that is not a triple raises ValueError and any list or tuple refusal is a ValueError, and None, dates and mappings raise TypeError |
| Fields.DecimalFromTriple | datacube/drivers/postgis/_fields.py:304-305 | a sequence of other than three items is refused, every refusal is the same ValueError, and a triple yields a finite or NaN decimal |
| Fields.FiniteTriple | datacube/drivers/postgis/_fields.py:304-305 | a sign of 0 or 1, digits 0-9 and an integer exponent denote the digits' number times ten to the exponent, negated for sign 1 |
| Fields.ExponentIntoTrailingZero | datacube/drivers/postgis/_fields.py:304-305 | `(s, ds, e + 1)` and `(s, ds + [0], e)` denote the same decimal |
| Fields.DecimalTripleExamples | datacube/drivers/postgis/_fields.py:304-305 | `(0, (1, 4, 1, 4), -3)` is 1.414 and `[1, [2], 2]` is -200 |
| Fields.DecimalTripleRefusals | datacube/drivers/postgis/_fields.py:304-305 | a sign of 2, a digit of 10, and a two-element `Range` each raise ValueError |
| Fields.ToInt | datacube/drivers/postgis/_fields.py:311-312 | `int(v)`: a number truncates toward zero, a NaN raises ValueError, and anything but a number or text raises TypeError |
| Fields.ToFloat | datacube/drivers/postgis/_fields.py:318-319 | `float(v)`: a number keeps its magnitude, a NaN stays NaN, and anything but a number or text raises TypeError |
| Fields.OffsetPaths | datacube/drivers/postgis/_fields.py:222-226 | an empty offset specification raises ValueError; one whose first element is a string is one path, wrapped in a list; otherwise each element is a path |
| Fields.Present | datacube/drivers/postgis/_fields.py:228-229 | the surviving values are exactly the values that are not None |
| Fields.Resolve | datacube/drivers/postgis/_fields.py:229 | one value per key path, in order, each the document's value at that path |
| Fields.Found | datacube/drivers/postgis/_fields.py:225-229 | a malformed offset raises the offset's error; otherwise at most one value per path survives, and none of them is None |
| Fields.ParseAll | datacube/drivers/postgis/_fields.py:229 | parsing the survivors fails exactly when one of them fails, and otherwise parses each in place |
| Fields.ExtractOffsetValue | datacube/drivers/postgis/_fields.py:216-236 | no offsets raise ValueError; no survivor gives None, one survivor gives itself and several are combined by the policy |
| Fields.Extract | datacube/drivers/postgis/_fields.py:417-422 | a range field extracts its lower end and then its greater end, raising the first error met; it is None exactly when both ends are falsy, and otherwise the `Range` of the two ends |
| Fields.Unpack | datacube/drivers/postgis/_fields.py:429-431 | `low, high = value` succeeds on a range, and on a list or tuple exactly when it has two elements |
| Fields.Cast | datacube/drivers/postgis/_fields.py:328-339 | a date column keeps datetimes, reads strings as ISO-8601 and refuses any other value with ValueError; other columns take values uncast |
| Fields.ValueToColumn | datacube/drivers/postgis/_fields.py:285-286 | a numeric scalar is compared as it is, with no NaN check; a range value becomes a closed range exactly when it unpacks |
| Fields.SearchValue | datacube/drivers/postgis/_fields.py:288-297 | a NaN numeric scalar raises UnindexableValue; other numeric and date scalars become `[v, v]`; a numeric range with a NaN end raises UnindexableValue |
| Fields.NumberImpliesYear | datacube/drivers/postgis/_fields.py:532-545 | an integer or float `y` becomes January 1st of year `int(y)`; a year that does not fit a C `int` raises OverflowError, and one that fits but is outside 1 to 9999 raises ValueError; `True` is year 1 and `False` year 0, which raises; a float NaN raises ValueError from `int()`; any other value passes unchanged |
| Fields.Year | datacube/drivers/postgis/_fields.py:540-541 | `datetime(y, 1, 1)` exists exactly for years 1 to 9999; it raises OverflowError exactly when `y` is outside the C `int` range -2^31 to 2^31-1, and ValueError for the other years |
| Fields.EqualsPredicate | datacube/drivers/postgis/_fields.py:407-413 | `==` on a scalar field is an equals predicate; on a range field it is containment of the cast value, failing exactly when the cast fails |
| Fields.BetweenPredicate | datacube/drivers/postgis/_fields.py:502-518 | `between` on a string field raises NotImplementedError; numeric scalars and numeric ranges give a range overlap; date scalars a value-between; a date range reads bare years and then needs two datetimes, raising ValueError otherwise |
| Fields.BetweenCondition | datacube/drivers/postgis/_fields.py:570-578 | both bounds give `>= low AND <= high`, one bound its single inequality, and neither bound raises ValueError |
| Fields.EvaluateEquals | datacube/drivers/postgis/_fields.py:613-614 | evaluating `field == v` on a document fails exactly when extraction fails, and otherwise holds exactly when the extracted value equals `v` |
| Extraction.StringFieldComparesRawValue | datacube/drivers/postgis/_fields.py:613-614 | on a string field read through one present path, `field == v` is `==` between the document's value and `v` |
| Extraction.StringFieldComparesMappingsByContent | datacube/drivers/postgis/_fields.py:613-614 | a string field holding `{x: 1, y: 2}` equals `{y: 2, x: 1}` |
| Extraction.StringFieldComparesListsByElement | datacube/drivers/postgis/_fields.py:613-614 | a string field holding `[1]` equals `[1.0]` |
| IndexSemantics.OverlapCriterion | datacube/drivers/postgis/_fields.py:581-591 | two closed ranges share a point exactly when each is non-empty and each starts no later than the other ends |
| IndexSemantics.PointIndexContainsOnlyItself | datacube/drivers/postgis/_fields.py:288-297 | a number indexed as `[v, v]` contains exactly the numbers equal to `v` |
| IndexSemantics.PointOverlapIsBetween | datacube/drivers/postgis/_fields.py:299-302 | on a numeric scalar the range overlap with `[low, high]` holds exactly when `low <= v <= high` |
| IndexSemantics.RangeBetweenNeverRaises | datacube/drivers/postgis/_fields.py:446-450 | `between` on a numeric range never raises; with `low > high` it matches no stored range |
| IndexSemantics.RangeEqualsIsContainment | datacube/drivers/postgis/_fields.py:407-413 | `==` on a numeric range is containment, so a stored point contains the value exactly when they are equal |
| IndexSemantics.BareYearsMeanJanuaryFirst | datacube/drivers/postgis/_fields.py:502-518 | `between(y1, y2)` on a date range is `between` on January 1st of `y1` and of `y2` |
| Extraction.PresentHead | datacube/drivers/postgis/_fields.py:228-229 | the first surviving value is preceded only by None values |
| Extraction.FirstTakesEarliestPresentPath | datacube/drivers/postgis/_fields.py:216-236 | under `first` a field is None exactly when every path is None, and otherwise the parsed value of the earliest path that is present |
| Extraction.SinglePathFound | datacube/drivers/postgis/_fields.py:225-229 | an offset that is a single key path reads that one path |
| Extraction.SinglePathExtract | datacube/drivers/postgis/_fields.py:225-235 | through one present path, every policy yields that path's parsed value |
| Extraction.RangeFromEnds | datacube/drivers/postgis/_fields.py:417-422 | a range field combines the values its two sub-fields extract |
| Extraction.SwapFound | datacube/drivers/postgis/_fields.py:228-229 | swapping two key paths permutes the values found |
| Extraction.LeastIgnoresOffsetOrder | datacube/drivers/postgis/_fields.py:230-235 | under `least`, two offsets listed in either order give equal values when the values are comparable |
| Extraction.LeastOfTwoKeys | datacube/drivers/postgis/_fields.py:216-236 | offsets `[["a"], ["b"]]` under `least` on `{a: m, b: n}` give `min(m, n)` |
| Extraction.RangeOfIntegerEnds | datacube/drivers/postgis/_fields.py:417-422 | a numeric range field whose two offsets are single key paths to integers reads the range of the two as decimals, or None when both are zero |
| Extraction.RangeOfTwoKeys | datacube/drivers/postgis/_fields.py:417-422 | a numeric range over `a` and `b` reads `Range(a, b)`, or None when both are zero |
| Registry.BuildableIsRegistered | datacube/drivers/postgis/_fields.py:648-661 | every field class the registry can build is registered under its own type name |
| Registry.AsciiLower | datacube/drivers/postgis/_fields.py:676 | lower-casing keeps the length and lowers exactly the upper-case ASCII letters |
| Registry.IndexedFlag | datacube/drivers/postgis/_fields.py:675-676 | a string `indexed` means true exactly when it spells `true` in any case; any other value counts by its truthiness |
| Registry.ClassNamed | datacube/drivers/postgis/_fields.py:648-682 | a type name resolves exactly when it is registered; an unknown hashable name raises ValueError naming the field and the type, an unhashable one TypeError; the class resolved is the one registered under the name, `float-range` resolving to the numeric range class |
| Registry.Construct | datacube/drivers/postgis/_fields.py:683-690 | construction succeeds exactly when every argument is one the class takes and, for a scalar, the selection names a policy; an argument the class does not take raises RuntimeError naming the field and the type; an unknown hashable selection raises ValueError naming it; a built field keeps the name, kind, description, indexed flag, offsets and selection |
| Registry.Arguments | datacube/drivers/postgis/_fields.py:672-675 | the arguments left for the class are the descriptor's entries other than `type`, `description` and `indexed` |
| Registry.ParseField | datacube/drivers/postgis/_fields.py:666-690 | a descriptor that is not a mapping raises; an unknown type raises the lookup's error; a field built from it has the entry's name, the type the descriptor names (`float-range` built as `numeric-range`), the descriptor's description and its indexed flag |
| Registry.ParseFieldSucceeds | datacube/drivers/postgis/_fields.py:666-690 | a mapping descriptor parses exactly when its type is registered, every other argument is one the class takes, and a scalar's selection names a policy |
| Registry.UntypedIsString | datacube/drivers/postgis/_fields.py:674-682 | a descriptor without `type` that parses gives a string field |
| Fields.KindTypeNameInjective | datacube/drivers/postgis/_fields.py:648-661 | distinct field classes have distinct type names |
| Registry.ParseEach | datacube/drivers/postgis/_fields.py:692 | the entries parse exactly when each parses, and then give one field per entry, in order |
| Registry.ParseEachFirstError | datacube/drivers/postgis/_fields.py:692 | a failed parse raises the error of the first entry that fails |
| Registry.ByName | datacube/drivers/postgis/_fields.py:692 | the fields by name have exactly the fields' names as keys, each naming its own field |
| Registry.ByNameKeepsLatest | datacube/drivers/postgis/_fields.py:692 | of two entries with one name the later is kept |
| Registry.ParseFields | datacube/drivers/postgis/_fields.py:617-692 | a non-mapping raises; a mapping gives one field per name exactly when every entry parses, and otherwise the first entry's error |
| Registry.ParseFieldsPerEntry | datacube/drivers/postgis/_fields.py:692 | with distinct names, each entry's field is registered under its name |
| Registry.DefaultIsIndexedString | datacube/drivers/postgis/_fields.py:672-676 | the defaults in one case: a descriptor with only an offset defines an indexed string field with no description, selecting `first` |
| Registry.FloatRangeIsNumericRange | datacube/drivers/postgis/_fields.py:661 | `float-range` builds exactly what `numeric-range` builds |
| Registry.NumericIsUnknown | datacube/drivers/postgis/_fields.py:648-659 | the type name `numeric` is refused as unknown |
| Registry.UnexpectedArgumentIsRuntimeError | datacube/drivers/postgis/_fields.py:683-690 | any argument a registered class does not take raises RuntimeError naming the field and the type |
| Registry.MinOffsetOnScalarIsRuntimeError | datacube/drivers/postgis/_fields.py:683-690 | an integer field given `min_offset` raises RuntimeError |
| Registry.BuiltTypesAreIndexed | datacube/drivers/postgis/_schema.py:290-292 | every type the registry builds has a search table, the one of its value domain |
| Registry.RegisteredFieldsAreIndexable | datacube/drivers/postgis/_schema.py:290-292 | every field `parse_fields` returns can be indexed in the search table of its domain |
| Schema.KindOf | datacube/drivers/postgis/_schema.py:284-288 | every search table serves exactly one index kind |
| Schema.SearchFieldIndexMap | datacube/drivers/postgis/_schema.py:290-292 | the type-to-table map has exactly the keys of the type-to-kind map and sends each type to the table of its kind |
| Schema.EveryTypeHasOneKind | datacube/drivers/postgis/_schema.py:268-288 | every type name maps to one of `string`, `numeric` and `datetime`, and each kind has its table |
| Schema.NumericFamily | datacube/drivers/postgis/_schema.py:268-282 | exactly the numeric, integer and double types, scalar or range, and `float-range` have the numeric kind |
| Schema.DateFamily | datacube/drivers/postgis/_schema.py:268-282 | exactly the two date types have the datetime kind |
| Schema.StringFamily | datacube/drivers/postgis/_schema.py:268-282 | only `string` has the string kind |
| Schema.TableNamesDistinct | datacube/drivers/postgis/_schema.py:202-248 | the three search tables have distinct names |
| Schema.IndexMapContents | datacube/drivers/postgis/_schema.py:290-292 | the type-to-table map, entry by entry |
| Schema.Insert | datacube/drivers/postgis/_schema.py:207 | inserting a row succeeds exactly when its `(dataset_ref, search_key)` is new, adding that row, and otherwise raises IntegrityError |
| Schema.InsertKeepsPrimaryKey | datacube/drivers/postgis/_schema.py:229 | a successful insert keeps the primary key unique |
| Schema.AtMostOneValue | datacube/drivers/postgis/_schema.py:251 | a dataset has at most one value per search key in a table |
| Base.OverlapIsSharedPoint | datacube/model/_base.py:11-21 | for non-empty ranges, `ranges_overlap` holds exactly when the half-open ranges share a point |
| Base.RangesOverlap | datacube/model/_base.py:11-21 | for ranges of numbers, and for ranges of timestamps, the test never raises and, for non-empty ranges, holds exactly when each range begins before the other ends; for numeric ranges that begin together it holds exactly when the first is non-empty; beginnings that mix a number and a timestamp raise TypeError, and TypeError is the only error |
| Base.TimeOverlapIsSharedInstant | datacube/model/_base.py:11-21 | for non-empty ranges of timestamps, `ranges_overlap` holds exactly when the half-open ranges share an instant |
| Base.NumbersAndTimesDoNotCompare | datacube/model/_base.py:19 | a range of numbers tested against a range of timestamps raises TypeError, in either order |
| Base.AdjacentRangesDoNotOverlap | datacube/model/_base.py:15-21 | ranges that meet end to begin do not overlap, in either order |
| Base.OverlapIsSymmetric | datacube/model/_base.py:19-21 | for non-empty ranges the argument order does not matter |
| Base.EmptyRangeInsideOverlaps | datacube/model/_base.py:19-21 | an empty range inside another is reported as overlapping it though it holds no point |
| Products.Listify | datacube/index/postgres/_products.py:287-293 | a tuple (`Range` and `Not` included) becomes the list of its elements, a list stays, anything else becomes a one-element list |
| Products.Lists | datacube/index/postgres/_products.py:298-302 | the product or metadata type name is listed exactly when it is `in` the listified value |
| Products.KeyVerdict | datacube/index/postgres/_products.py:305-322 | a key the metadata type lacks excludes; a native field or one the product document leaves undefined keeps the key; otherwise a true evaluation drops the key and a false one excludes |
| Products.CheckKeys | datacube/index/postgres/_products.py:305-325 | the keys left after the checks are entries of the query |
| Products.CheckKeysVerdicts | datacube/index/postgres/_products.py:305-322 | a product that passes has every key kept or consumed, and the keys left are exactly those kept; a refused product has a key that excludes it after keys that all evaluated (the converse and the errors are `Products.AllKeysPass` and `Products.CheckKeysErrors`) |
| Products.CheckKeysErrors | datacube/index/postgres/_products.py:305-320 | the key checks raise exactly when some key raises after keys that were all kept or consumed, and then raise that key's error |
| Products.AllKeysPass | datacube/index/postgres/_products.py:305-325 | when every key is kept or consumed the product matches |
| Products.MatchProduct | datacube/index/postgres/_products.py:296-325 | a `product` or `metadata_type` value that does not list the name skips the product; when both list it the product is matched by the key checks on the query without those two keys; the remainder never holds those keys and holds only entries of the query |
| Products.GetWithoutOther | datacube/index/postgres/_products.py:298-302 | popping `product` leaves the `metadata_type` entry as it was |
| Products.SearchRobust | datacube/index/postgres/_products.py:279-325 | the search fails exactly when matching some product fails |
| Products.SearchRobustMatches | datacube/index/postgres/_products.py:305-325 | a successful search returns exactly the matching products, each with the part of the query it leaves |
| Products.UnknownKeyExcludes | datacube/index/postgres/_products.py:305-309 | a key with no field, after keys that evaluated without raising, excludes the product |
| Products.OtherProductIsSkipped | datacube/index/postgres/_products.py:298-299 | a query naming another product skips the product |
| Products.CanUpdate | datacube/index/postgres/_products.py:103-135 | an invalid definition raises its validation error first; otherwise an unknown product raises ValueError; otherwise the update is allowed exactly when unsafe updates are allowed or there are no unsafe changes |
| Connections.LibraryId | datacube/drivers/postgres/_connections.py:33 | the library identifier is `odc-` followed by the version |
| Connections.Last | datacube/drivers/postgres/_connections.py:167 | the last 64 characters: at most 64 of them, the whole name when it fits, a suffix otherwise |
| Connections.ExpandAppName | datacube/drivers/postgres/_connections.py:158-167 | a falsy name gives the library identifier; a truthy non-string raises TypeError; a name gives its collapsed form, a space and the identifier, cut to at most 64 characters |
| Connections.CollapseIsCollapsed | datacube/drivers/postgres/_connections.py:163 | the collapsed name holds only letters, digits and dashes, never two dashes in a row |
| Connections.SeparatorRunIsOneDash | datacube/drivers/postgres/_connections.py:163 | a maximal run of characters other than letters and digits, of any length, becomes exactly one dash before what follows it |
| Connections.CollapseSplitsAfterAlnum | datacube/drivers/postgres/_connections.py:163 | a name cut after a letter or digit normalises piece by piece: `Collapse(x + z) == Collapse(x) + Collapse(z)` |
| Connections.CollapseOfExample | datacube/drivers/postgres/_connections.py:151-152 | `a b.c/d` collapses to `a-b-c-d` |
| Connections.CollapseKeepsAlnums | datacube/drivers/postgres/_connections.py:163 | the collapsed name keeps every letter and digit, in order |
| Connections.CollapseFixesCollapsed | datacube/drivers/postgres/_connections.py:163 | a name that is already collapsed is unchanged |
| Connections.CollapseIdempotent | datacube/drivers/postgres/_connections.py:163 | collapsing twice is collapsing once |
| Connections.ExpandedIsSuffix | datacube/drivers/postgres/_connections.py:165-167 | the result is a suffix of the full name, and the full name itself exactly when it fits in 64 characters |
| Connections.FalsyNameIsLibraryId | datacube/drivers/postgres/_connections.py:145-148 | `None` and `''` give exactly `odc-<version>` |
| Connections.PunctuationBecomesDashes | datacube/drivers/postgres/_connections.py:151-152 | `a b.c/d` becomes `a-b-c-d odc-<version>` |
| Connections.LongNameKeepsIdentifier | datacube/drivers/postgres/_connections.py:165-167 | a long name loses its beginning, never the library identifier |
| PostgresDatasets.RecordedUris | datacube/index/postgres/_datasets.py:336-339 | the old URIs are none without an existing dataset, and otherwise exactly the existing dataset's URIs |
| PostgresDatasets.InsertMissing | datacube/index/postgres/_datasets.py:347-350 | only new URIs not already recorded are inserted, and each of them is |
| PostgresDatasets.EnsureNewLocations | datacube/index/postgres/_datasets.py:341-350 | a single new URI replacing at most one old one removes the old one and then inserts it; otherwise nothing is removed and exactly the new URIs not yet recorded are inserted |
| PostgresDatasets.ReplacementLeavesNewUri | datacube/index/postgres/_datasets.py:342-346 | after a replacement the dataset is recorded at its one new URI only |
| PostgresDatasets.InsertsKeepRecorded | datacube/index/postgres/_datasets.py:347-350 | otherwise the dataset is recorded at its old URIs and all its new ones |
| PostgresDatasets.LocationsAfterChanges | datacube/index/postgres/_datasets.py:335-356 | the recorded URIs after the changes, in both cases |
| PostgresDatasets.InsertsInReverseOrder | datacube/index/postgres/_datasets.py:341-350 | when the change is not a replacement, the inserts are exactly the new URIs not yet recorded, taken from the last to the first |
| PostgresDatasets.InsertMissingIsReversed | datacube/index/postgres/_datasets.py:348-350 | the insert loop inserts the reversed new URIs that are not recorded, in that order |
| PostgresDatasets.TwoNewUrisInReverse | datacube/index/postgres/_datasets.py:348-350 | new URIs `[a, b]` over an unrelated record are inserted as `b` then `a` |
| PostgresDatasets.BulkHas | datacube/index/postgres/_datasets.py:122-136 | one answer per id, in input order, each true exactly when the id, after text-to-UUID conversion, is stored; a text that is not a UUID raises the conversion's error |
| PostgresDatasets.DatasetTypes | datacube/index/postgres/_datasets.py:740-750 | a `product` key gives just that product; otherwise the products having every query field, and ValueError when there are none |
| PostgresDatasets.TimeCountPlan | datacube/index/postgres/_datasets.py:820-835 | counting through time needs a `time` pair, matches products on the rest of the query, and with `ensure_single` raises ValueError for no match and for several |
| PostgisDatasets.AddLocation | datacube/index/postgis/_datasets.py:500-512 | an empty URI and the URI already recorded add nothing; a different recorded URI raises ValueError; otherwise the URI is inserted |
| PostgisDatasets.AddLocationKeepsOne | datacube/index/postgis/_datasets.py:500-512 | a successful add leaves at most one location and repeating it changes nothing |
| PostgisDatasets.AddStoresLocation | datacube/index/postgis/_datasets.py:172-175 | adding a new dataset with several URIs raises ValueError, and one with one URI records it |
| PostgisDatasets.CanUpdate | datacube/index/postgis/_datasets.py:285-318 | an unknown dataset, a change of product and several URIs each raise ValueError; otherwise the update may proceed exactly when there are no unsafe changes |
| PostgisDatasets.Purge | datacube/index/postgis/_datasets.py:393-413 | the purged ids are exactly the requested ids that are stored and archived, or active when allowed, in request order; those and only those leave the store |
| PostgisDatasets.FirstUri | datacube/index/postgis/_datasets.py:212-213 | of a list of URIs only the first is kept, and an empty list raises IndexError |
| PostgisDatasets.StoredValue | datacube/index/postgis/_datasets.py:241-242 | a `Range` is stored as the list of its two ends, anything else as it is |
| PostgisDatasets.SearchRows | datacube/index/postgis/_datasets.py:239-248 | one row per extracted value, in order, tagged with the index kind of its type; an unknown type raises KeyError |
| PostgisDatasets.CollectBatch | datacube/index/postgis/_datasets.py:206-248 | a batch is accepted exactly when every item is; it keeps one URI per item and exactly the rows the items' values produce |
| PostgisDatasets.Bucket | datacube/index/postgis/_datasets.py:243-248 | a bucket holds exactly the rows tagged with its kind |
| PostgisDatasets.AddBatch | datacube/index/postgis/_datasets.py:188-248 | there are exactly three buckets, `string`, `numeric` and `datetime`, and each holds exactly the rows of values whose type maps to it |
| PostgisDatasets.BucketsPartition | datacube/index/postgis/_datasets.py:201-205 | the three buckets split the rows: their sizes add up to the number of rows |
| PostgisDatasets.AddBatchKeepsEveryValue | datacube/index/postgis/_datasets.py:239-248 | the buckets hold one row per extracted value in all |
| PostgisDatasets.DateRangeIsStoredAsPair | datacube/index/postgis/_datasets.py:240-248 | a date range goes to the datetime bucket as the list of its two ends |

## Left out

- SQL generation: SQLAlchemy expressions, `numrange`/`tstzrange`, casts, joins and the search-index table aliases. A predicate is a datatype value.
- The 500 ms leniency of date ranges and `DateDocField.day`: they exist only as SQL.
- Text parsing by libraries: `Decimal`, `float`, `int`, `utils.parse_time`, `datetime.fromisoformat` and `UUID`. These are parameters (`Fields.Parsers`, `parseUuid`). Dates are an abstract ordered instant with no time zones (`tz_as_utc` is the identity).
- IEEE floating point: floats are exact reals. NaN is a tagged value and infinities are absent.
- `get_doc_offset` is not part of this model. It is modelled as a nested-key walk in which any step that does not apply gives None.
- `fields.as_expression` and `Expression.evaluate` in product matching are not part of this model. They are a parameter of `Products.SearchRobust`.
- `get_doc_changes` and `classify_changes` are not part of this model. Their unsafe changes are a parameter of the two `CanUpdate` functions.
- Database I/O, connections, transactions, logging and warnings. The database's answers (stored ids, existing locations, archive flags, products by name or by fields) are parameters.
- The engine, IAM tokens, migrations, the CLI search tool and the in-memory driver's field wrappers.
- Exception classes are modelled by kind (`ValueError`, `TypeError`, …) with a reason, not by message text.
- Products.SearchRobust: is a generator in the source, so products matched before an exception are still yielded. The model returns the exception instead.
- Selection.MinimumIgnoresOrder: holds only for values of one comparable class without NaN. Python's `min` depends on order with NaN (`Selection.MinimumWithNaNDependsOnOrder`).
- Selection.MaximumIgnoresOrder: holds only for values of one comparable class without NaN.
- Base.OverlapIsSharedPoint: covers ranges with numeric ends; Base.TimeOverlapIsSharedInstant covers ranges of timestamps. Ranges whose own two ends mix a number and a timestamp have no shared-point statement.
- Base.RangesOverlap: ends are numbers or timestamps; a `None` end or a string end, on which Python's comparisons also raise or compare lexically, is not modelled.
- Registry.IndexedFlag: a non-string `indexed` value is read by its truthiness; the source keeps the raw value on the field.
- PostgisDatasets.CollectBatch: states which kind of error a refused batch raises, not which item raised it.
- PostgisDatasets.AddStoresLocation: assumes a dataset's `uri` is None exactly when it has no URIs (`Dataset` is not part of this model).
- PostgisDatasets.Purge: assumes the lookup inside the purge transaction sees the deletions already made in it, so a repeated id is purged once.
- PostgresDatasets.BulkHas: the postgis resource's `bulk_has` (datacube/index/postgis/_datasets.py:122-136) is the same code and is modelled by this one member.
- PostgresDatasets.TimeCountPlan: the postgis resource's guards (datacube/index/postgis/_datasets.py:827-842) are the same code. The product id key that product queries receive (`dataset_type_id` in the postgres resource, datacube/index/postgres/_datasets.py:754; `product_id` in the postgis resource, datacube/index/postgis/_datasets.py:762), and the counting itself, are left out.
- The spatial index, lineage and the dataset rows of a bulk add are left out. Only its locations and search values are modelled.
- Fields.ToDecimal: a triple whose exponent is `'F'` (infinity) or `'N'` (signalling NaN) is refused with ValueError, because the value domain has neither; an empty digit sequence is read as zero.
- Fields.ParseValue: a numeric field reads a list or tuple through `Fields.ToDecimal`, with the same two gaps.
- Values.Equal: a mapping's keys are taken to be distinct, and Python's identity shortcut inside containers (a list holding one NaN object equals itself) is not modelled: NaNs are never equal.
- Fields.EvaluateEquals: compares through `Values.Equal`, with its two gaps.
- Connections.CollapseIsCollapsed: states the shape of the result only; that each run of separators becomes exactly one dash is stated by `Connections.SeparatorRunIsOneDash` and `Connections.CollapseSplitsAfterAlnum`.
- Products.CanUpdate: `Product.validate` (schema validation of the definition) is not part of this model. Its outcome is a parameter that, when it is an error, is raised before the product is looked up.
