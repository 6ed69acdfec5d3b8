# SwingSet core, modelled in Dafny

A model of the non-visual core of Black Rook Software's SwingSet, a
small Swing helper library, with proofs about it:

- **Object tables** (`table/`). `JObjectTableModel` finds its columns by
  reflection: annotated `getX`/`isX` getters, each with an optional
  `setX` setter. It keeps them in `order` and holds a list of row
  objects. `JObjectTableColumn` is the annotation with its defaults.
  `JObjectTableRowSorter` has four null-first comparators and picks a
  column's comparator by column index, then by the column's class and its
  superclasses. `JObjectTable` has the selection policy and
  `setSelectedRows`.
- **Canvas** (`canvas/`). `ImageLoader` tries loader functions in order
  and remembers successes and failures, ignoring letter case.
  `RasterCanvas` runs a frame lifecycle over offscreen accelerated images.
- **Forms** (`FormFactory`, `ValueFieldFactory`, `forms/`). Text fields
  that keep a typed value and its text in step. Converters for strings
  and the integral types. A form panel that maps keys to labelled fields.

Reflection becomes data. A method is a `MethodInfo` record, a class is a
`JClass`, and the superclass relation is a map. Null is `Option`. A
thrown exception is a `Result`. Java's 32-bit `int` is the subset type
`int32`, with wrap-around made explicit (`Wrap32`). The toolkit's
state is passed in as parameters or recorded as events. That covers the
component size, the outcome of `VolatileImage.validate`, what a browse
supplier returns, and disposal, flushing and repainting.

`ValueFieldFactory` declares `JValueTextField`, `JValuePanel` and
`JValueBrowseField` with the same bodies as `FormFactory`'s
`JValueTextField`, `JFormFieldPanel` and `JValueBrowseField`. Both are
modelled once, by the classes of module `ValueTextFields`, and the
table cites either file. The text/value converters are likewise shared
(module `ValueConverters`).

Files: `java_lang.dfy` (the Java platform pieces the model needs),
`table_column.dfy`, `table_model.dfy`, `table_row_sorter.dfy`,
`table_selection.dfy`, `image_loader.dfy`, `raster_canvas.dfy`,
`value_converters.dfy`, `value_text_fields.dfy`, `form_factory.dfy`,
`value_field_factory.dfy`, `forms.dfy`.

## Model

| member | source | states |
|---|---|---|
| JavaLang.ParseDecimal | src/main/java/com/blackrook/swing/FormFactory.java:193 | `Integer.parseInt` and its siblings: a value only for an optional '-' or '+' followed by at least one digit, and then it is the signed value of those digits (leading zeros allowed) and lies in the type's range |
| JavaLang.ParseDecimalOfSignedDigits | src/main/java/com/blackrook/swing/FormFactory.java:193 | the converse: a sign and digits parse to their signed value when it is in range, and fail otherwise |
| JavaLang.ParsePlusSign | src/main/java/com/blackrook/swing/FormFactory.java:193 | "+5" parses to 5 |
| JavaLang.ParseLeadingZeros | src/main/java/com/blackrook/swing/FormFactory.java:193 | "007" parses to 7 |
| JavaLang.ParseIntRejects | src/main/java/com/blackrook/swing/FormFactory.java:193 | "12a" and a bare "-" are rejected |
| JavaLang.ParseIntBoundary | src/main/java/com/blackrook/swing/FormFactory.java:193 | "2147483647" parses to `Integer.MAX_VALUE`; "2147483648" is rejected |
| JavaLang.Trim | src/main/java/com/blackrook/swing/table/JObjectTableModel.java:99-104 | `String.trim`: no longer than the text, neither end is a character up to U+0020, and text with neither end such a character comes back unchanged |
| JavaLang.TrimSpec | src/main/java/com/blackrook/swing/table/JObjectTableModel.java:99-104 | the trimmed text is a substring of the text, and everything removed before and after it is a character up to U+0020 |
| JavaLang.TrimBlank | src/main/java/com/blackrook/swing/table/JObjectTableModel.java:104 | the trimmed text is empty exactly when every character is up to U+0020 |
| JavaLang.DecimalString | src/main/java/com/blackrook/swing/FormFactory.java:202 | `String.valueOf` of an integer is non-empty and starts with '-' exactly for negatives |
| JavaLang.ParseDecimalString | src/main/java/com/blackrook/swing/ValueFieldFactory.java:175-189 | parsing the decimal string of an in-range value gives that value back |
| TableModel.IsSetterName | src/main/java/com/blackrook/swing/table/JObjectTableModel.java:322-332 | true exactly for "set" followed by an upper-case letter |
| TableModel.IsGetterName | src/main/java/com/blackrook/swing/table/JObjectTableModel.java:339-356 | true exactly for "is" or "get" followed by an upper-case letter |
| TableModel.TruncateMethodName | src/main/java/com/blackrook/swing/table/JObjectTableModel.java:359-364 | drops the two- or three-letter prefix and lower-cases the next letter, keeping the rest; from an upper-case letter, re-capitalising the result restores the method name |
| TableModel.GetFieldName | src/main/java/com/blackrook/swing/table/JObjectTableModel.java:390-403 | getter and setter names lose their prefix and start in lower case; other names come back unchanged |
| TableModel.GetSetterName | src/main/java/com/blackrook/swing/table/JObjectTableModel.java:376-379 | "set", then the field's first letter in upper case, then the rest of the field name; a setter name when the field starts in lower case |
| TableModel.GetterSetterName | src/main/java/com/blackrook/swing/table/JObjectTableModel.java:85-95 | the setter looked up for getter `getXyz` is `setXyz` |
| TableModel.IsGetterSetterName | src/main/java/com/blackrook/swing/table/JObjectTableModel.java:85-95 | the setter looked up for getter `isXyz` is `setXyz` |
| TableModel.FieldSetterRoundTrip | src/main/java/com/blackrook/swing/table/JObjectTableModel.java:376-403 | the field name of a field's setter name is that field |
| TableModel.SetterNameOfField | src/main/java/com/blackrook/swing/table/JObjectTableModel.java:376-403 | the other direction: a setter name is the setter name of its own field |
| TableModel.UpgradePrimitiveType | src/main/java/com/blackrook/swing/table/JObjectTableModel.java:56-61 | the result is always a reference class; reference classes are unchanged; primitives map to the boxed classes |
| TableModel.PrimitivesAreMapped | src/main/java/com/blackrook/swing/table/JObjectTableModel.java:38-52 | the map has an entry, a reference class, for every primitive and for nothing else |
| TableModel.UpgradeIdempotent | src/main/java/com/blackrook/swing/table/JObjectTableModel.java:56-61 | boxing twice is boxing once |
| TableModel.UpgradeInjective | src/main/java/com/blackrook/swing/table/JObjectTableModel.java:38-52 | distinct primitives box to distinct classes |
| TableModel.FindMethod | src/main/java/com/blackrook/swing/table/JObjectTableModel.java:94-98 | `getMethod`: a public method with that name and parameter types, or none exactly when no such method exists |
| TableModel.IsGetter | src/main/java/com/blackrook/swing/table/JObjectTableModel.java:309-315 | a getter (public, no parameters, not void, getter name) stands for a non-empty field name starting in lower case |
| TableModel.FindSetter | src/main/java/com/blackrook/swing/table/JObjectTableModel.java:94-98 | a public setter in the class for the getter's field taking the getter's return type, or none exactly when the class has no such method |
| TableModel.FindSetterExists | src/main/java/com/blackrook/swing/table/JObjectTableModel.java:94-98 | the setter exists exactly when `getMethod(getSetterName(field), returnType)` finds a method |
| TableModel.ColumnFor | src/main/java/com/blackrook/swing/table/JObjectTableModel.java:83-106 | a column exactly for annotated, non-hidden public getters. Name is the trimmed annotation name or the field name, never empty. Tip only when not blank. Type is boxed. Editable iff the annotation allows it and a setter `set<Field>(returnType)` exists |
| TableModel.DefaultAnnotationColumn | src/main/java/com/blackrook/swing/table/JObjectTableColumn.java:22-38 | a getter whose annotation keeps every default gets a column named after its field, order 0, no tip, sortable, editable iff a setter exists |
| TableModel.DeriveColumnsSpec | src/main/java/com/blackrook/swing/table/JObjectTableModel.java:83-108 | the discovered columns are exactly the columns of the qualifying getters, in both directions |
| TableModel.DiscoverColumns | src/main/java/com/blackrook/swing/table/JObjectTableModel.java:83-108 | the discovery loop yields the derived columns in method order |
| TableModel.CompareOrderAgrees | src/main/java/com/blackrook/swing/table/JObjectTableModel.java:110-117 | when the difference fits in an `int`, the subtraction comparator has the sign of the true comparison |
| TableModel.CompareOrder | src/main/java/com/blackrook/swing/table/JObjectTableModel.java:115 | 0 exactly for equal orders; the corrected comparator has the sign of the true comparison, and so does the subtraction when the difference fits in an `int` |
| TableModel.InsertColumn | src/main/java/com/blackrook/swing/table/JObjectTableModel.java:110-117 | stable insertion adds exactly the new column (multiset) |
| TableModel.SortColumns | src/main/java/com/blackrook/swing/table/JObjectTableModel.java:110-117 | the column sort is a permutation |
| TableModel.SortColumnsSorted | src/main/java/com/blackrook/swing/table/JObjectTableColumn.java:28-29 | with the corrected comparator, lower `order` is placed first |
| TableModel.SortAgreesWithoutOverflow | src/main/java/com/blackrook/swing/table/JObjectTableModel.java:113-116 | without overflow, the comparator as written sorts exactly like the corrected one |
| TableModel.OrderOverflowCounterexample | src/main/java/com/blackrook/swing/table/JObjectTableModel.java:115 | orders `Integer.MIN_VALUE` and 1 are sorted the wrong way round by the comparator as written |
| TableModel.IndexOf | src/main/java/com/blackrook/swing/table/JObjectTableModel.java:188 | `indexOf`: the first position holding the row, or -1 exactly when it is absent |
| TableModel.RemoveAt | src/main/java/com/blackrook/swing/table/JObjectTableModel.java:202 | `remove(int)`: one shorter, earlier rows kept, later rows shifted down |
| TableModel.RemoveAtPermutes | src/main/java/com/blackrook/swing/table/JObjectTableModel.java:202 | `remove(int)` takes out exactly the row at the index (multiset) |
| TableModel.RemoveSequentially | src/main/java/com/blackrook/swing/table/JObjectTableModel.java:212-217 | sequential removal only ever takes rows out: the result is a sub-multiset of the list, never longer |
| TableModel.RemoveSequentiallySpec | src/main/java/com/blackrook/swing/table/JObjectTableModel.java:212-217 | every removal succeeds iff the k-th index is in range of the list shortened by k; then one row goes per index |
| TableModel.RemoveSequentiallyShifts | src/main/java/com/blackrook/swing/table/JObjectTableModel.java:214-215 | indices refer to the list as already shortened: [0, 0] removes the first two rows |
| TableModel.SortedColumnsWellFormed | src/main/java/com/blackrook/swing/table/JObjectTableModel.java:78-119 | the column list sorted with the corrected comparator is sorted by order and holds exactly the qualifying getters' columns; when no two orders overflow, the source's comparator yields the same list |
| TableModel.JObjectTableModel.constructor | src/main/java/com/blackrook/swing/table/JObjectTableModel.java:67-70 | columns discovered and sorted with the corrected comparator, which is the source's order whenever no two orders overflow; well-formed columns, empty rows, no events |
| TableModel.JObjectTableModel.WithBackingList | src/main/java/com/blackrook/swing/table/JObjectTableModel.java:78-119 | columns discovered and sorted as in the constructor above (the source's order whenever no two orders overflow); well-formed columns; the rows are the given list |
| TableModel.JObjectTableModel.Clear | src/main/java/com/blackrook/swing/table/JObjectTableModel.java:132-136 | no rows; one data-changed event |
| TableModel.JObjectTableModel.AddRows | src/main/java/com/blackrook/swing/table/JObjectTableModel.java:143-152 | rows appended in order; one insert event for the new range, none for no rows |
| TableModel.JObjectTableModel.AddRowsAt | src/main/java/com/blackrook/swing/table/JObjectTableModel.java:160-169 | rows inserted at `start` in order with one data-changed event; out-of-range `start` throws and changes nothing; no rows is a no-op |
| TableModel.JObjectTableModel.GetRow | src/main/java/com/blackrook/swing/table/JObjectTableModel.java:176-179 | the row at a valid index, otherwise an index exception |
| TableModel.JObjectTableModel.RemoveRowAt | src/main/java/com/blackrook/swing/table/JObjectTableModel.java:199-206 | removes and returns the row; a delete event only when it was not null; an invalid index throws and changes nothing |
| TableModel.JObjectTableModel.RemoveRow | src/main/java/com/blackrook/swing/table/JObjectTableModel.java:186-192 | removes the first equal row; true only when one was found and it is not null |
| TableModel.JObjectTableModel.RemoveMultipleRows | src/main/java/com/blackrook/swing/table/JObjectTableModel.java:212-217 | sequential removal; an index out of range stops it and throws with no event; a complete run fires one event |
| TableModel.JObjectTableModel.GetRowCount | src/main/java/com/blackrook/swing/table/JObjectTableModel.java:283-286 | the number of rows |
| TableModel.JObjectTableModel.GetColumnCount | src/main/java/com/blackrook/swing/table/JObjectTableModel.java:259-262 | the number of columns |
| TableModel.JObjectTableModel.GetColumnClass | src/main/java/com/blackrook/swing/table/JObjectTableModel.java:265-271 | the column's boxed data type; an index exception out of range |
| TableModel.JObjectTableModel.GetColumnName | src/main/java/com/blackrook/swing/table/JObjectTableModel.java:274-280 | the column's heading, never empty; an index exception out of range |
| TableModel.JObjectTableModel.IsCellEditable | src/main/java/com/blackrook/swing/table/JObjectTableModel.java:289-295 | the column's editable flag; true only when a setter exists and the annotation allows editing |
| TableRowSorter.ENUM_COMPARATOR | src/main/java/com/blackrook/swing/table/JObjectTableRowSorter.java:17-34 | null first, equal gives 0, else the ordinal difference (which fits in an `int`) |
| TableRowSorter.BOOLEAN_COMPARATOR | src/main/java/com/blackrook/swing/table/JObjectTableRowSorter.java:39-55 | null first, equal gives 0, false before true |
| TableRowSorter.NUMBER_COMPARATOR | src/main/java/com/blackrook/swing/table/JObjectTableRowSorter.java:60-76 | null first, equal gives 0, else 1 when the first value is greater and -1 otherwise |
| TableRowSorter.DATE_COMPARATOR | src/main/java/com/blackrook/swing/table/JObjectTableRowSorter.java:81-97 | null first, equal gives 0, else 1 when the first time is later and -1 otherwise |
| TableRowSorter.EnumAntisymmetric | src/main/java/com/blackrook/swing/table/JObjectTableRowSorter.java:21-33 | swapping the arguments negates the result |
| TableRowSorter.BooleanAntisymmetric | src/main/java/com/blackrook/swing/table/JObjectTableRowSorter.java:42-54 | swapping the arguments negates the result |
| TableRowSorter.DateAntisymmetric | src/main/java/com/blackrook/swing/table/JObjectTableRowSorter.java:84-96 | swapping the arguments negates the result |
| TableRowSorter.NumberZeroOnlyWhenEqual | src/main/java/com/blackrook/swing/table/JObjectTableRowSorter.java:71-74 | 0 exactly for equal arguments |
| TableRowSorter.NumberSameValueBothBelow | src/main/java/com/blackrook/swing/table/JObjectTableRowSorter.java:74 | two unequal numbers of the same value each compare below the other |
| TableRowSorter.NumberAntisymmetric | src/main/java/com/blackrook/swing/table/JObjectTableRowSorter.java:63-75 | apart from that case the number comparator is antisymmetric |
| TableRowSorter.SuperclassChain | src/main/java/com/blackrook/swing/table/JObjectTableRowSorter.java:136-141 | the class walk: starts at the class, each step is `getSuperclass`, ends where it is null |
| TableRowSorter.ResolveIsFirstOnChain | src/main/java/com/blackrook/swing/table/JObjectTableRowSorter.java:134-142 | the walk returns the comparator of the nearest class on the chain that has one, and null iff none does |
| TableRowSorter.ResolveClassComparator | src/main/java/com/blackrook/swing/table/JObjectTableRowSorter.java:134-142 | a class with a registered comparator gets that one; any comparator found is registered for some class |
| TableRowSorter.JObjectTableRowSorter.constructor | src/main/java/com/blackrook/swing/table/JObjectTableRowSorter.java:108-117 | Enum, Boolean, Number and Date comparators registered; no column comparators |
| TableRowSorter.JObjectTableRowSorter.IsSortable | src/main/java/com/blackrook/swing/table/JObjectTableRowSorter.java:119-126 | the column's sortable flag; an index exception out of range |
| TableRowSorter.JObjectTableRowSorter.GetComparator | src/main/java/com/blackrook/swing/table/JObjectTableRowSorter.java:128-143 | a registered column comparator wins (even null); otherwise the class walk's result; an invalid column throws |
| TableRowSorter.JObjectTableRowSorter.SetClassComparator | src/main/java/com/blackrook/swing/table/JObjectTableRowSorter.java:152-155 | the class entry is replaced; the column map is unchanged |
| TableRowSorter.JObjectTableRowSorter.SetColumnComparator | src/main/java/com/blackrook/swing/table/JObjectTableRowSorter.java:163-166 | the column entry is replaced; the class map is unchanged |
| TableRowSorter.NumberSubclassUsesNumberComparator | src/main/java/com/blackrook/swing/table/JObjectTableRowSorter.java:113-116 | a class whose chain reaches `Number` before any other registered class sorts with the number comparator |
| TableRowSorter.RegisteredClassResolves | src/main/java/com/blackrook/swing/table/JObjectTableRowSorter.java:136-138 | a class with a registered comparator resolves to it |
| TableSelection.SelectionMode | src/main/java/com/blackrook/swing/table/JObjectTable.java:37-48 | each policy installs its own one of the three selection modes |
| TableSelection.SortIntsPermutes | src/main/java/com/blackrook/swing/table/JObjectTable.java:78 | the sort only rearranges the indices |
| TableSelection.SortIntsSorted | src/main/java/com/blackrook/swing/table/JObjectTable.java:78 | the sort yields ascending order |
| TableSelection.SortIntsOfSorted | src/main/java/com/blackrook/swing/table/JObjectTable.java:78 | an ascending array is left as it is |
| TableSelection.Succ32 | src/main/java/com/blackrook/swing/table/JObjectTable.java:88 | `end + 1` with 32-bit wrap-around |
| TableSelection.SortInPlace | src/main/java/com/blackrook/swing/table/JObjectTable.java:78 | the array afterwards holds the sorted values |
| TableSelection.SetSelectedRows | src/main/java/com/blackrook/swing/table/JObjectTable.java:76-103 | the intervals passed on and the rewritten array are those of the loop as written, run over the sorted indices |
| TableSelection.EmptySelection | src/main/java/com/blackrook/swing/table/JObjectTable.java:81 | no indices, no intervals |
| TableSelection.SingleSelection | src/main/java/com/blackrook/swing/table/JObjectTable.java:83-100 | one index k gives the interval (k, k) when k is not negative |
| TableSelection.IntervalsArePoints | src/main/java/com/blackrook/swing/table/JObjectTable.java:83-97 | every interval passed on has start equal to end |
| TableSelection.AtMostOneIntervalPerIndex | src/main/java/com/blackrook/swing/table/JObjectTable.java:81-101 | no more intervals than indices |
| TableSelection.WrittenNeverExceeds | src/main/java/com/blackrook/swing/table/JObjectTable.java:94-97 | values overwritten in the caller's array only move down |
| TableSelection.AdjacentRowsCollapse | src/main/java/com/blackrook/swing/table/JObjectTable.java:88-100 | rows [1, 2] pass on only (1, 1), and the array becomes [1, 1] |
| TableSelection.GapDropsClosingIndex | src/main/java/com/blackrook/swing/table/JObjectTable.java:88-93 | for any indices without repeats, an index that closes an interval is covered by none of the intervals passed on |
| TableSelection.GapThenReopen | src/main/java/com/blackrook/swing/table/JObjectTable.java:83-100 | for any indices, after a gap closes an interval the next index opens a new interval on itself and stays in the array |
| TableSelection.GapClosesInterval | src/main/java/com/blackrook/swing/table/JObjectTable.java:88-93 | an index beyond `end + 1` passes on the open interval as it stood, leaves no interval open and stays in the array |
| TableSelection.ContinuingIndexOverwritten | src/main/java/com/blackrook/swing/table/JObjectTable.java:94-97 | an index that neither opens nor closes keeps the interval as it is, and the array ends up holding `end` at that position |
| TableSelection.WrittenPrefix | src/main/java/com/blackrook/swing/table/JObjectTable.java:94-97 | a value written into the array at one turn is still there at every later turn |
| TableSelection.CursorStartOpened | src/main/java/com/blackrook/swing/table/JObjectTable.java:83-87 | the start of the open interval is an index at which an interval was opened |
| TableSelection.StartsAreOpenings | src/main/java/com/blackrook/swing/table/JObjectTable.java:83-93 | every interval passed on starts at an index at which an interval was opened |
| TableSelection.OpenIndexNeverOpens | src/main/java/com/blackrook/swing/table/JObjectTable.java:83-97 | for indices without repeats, an index reached while an interval is open is never an opening index |
| TableSelection.RunsFromCover | src/main/java/com/blackrook/swing/table/JObjectTable.java:72-76 | the runs from an open interval cover exactly it and the remaining indices |
| TableSelection.SelectionRunsCoverExactly | src/main/java/com/blackrook/swing/table/JObjectTable.java:72-76 | the intended intervals together cover every given row and nothing else |
| TableSelection.RowRange | src/main/java/com/blackrook/swing/table/JObjectTable.java:89 | the rows of an interval are exactly those from `start` to `end` |
| TableSelection.SetIntervalsKeepsLast | src/main/java/com/blackrook/swing/table/JObjectTable.java:89-100 | each `setRowSelectionInterval` call replaces the selection, so a series of calls leaves only the last interval's rows |
| TableSelection.AddIntervalsCovered | src/main/java/com/blackrook/swing/table/JObjectTable.java:67 | adding intervals one by one selects the earlier selection and every row some interval covers, and nothing else |
| TableSelection.AddIntervalsSnoc | src/main/java/com/blackrook/swing/table/JObjectTable.java:67 | one more added interval adds exactly its rows |
| TableSelection.RunsSelectExactly | src/main/java/com/blackrook/swing/table/JObjectTable.java:72-76 | clearing the selection and adding each run selects exactly the given rows |
| TableSelection.RunsReplacedKeepLast | src/main/java/com/blackrook/swing/table/JObjectTable.java:89-100 | for rows [1, 2, 5] the runs are (1, 2) and (5, 5); setting them in turn leaves {5}, adding them leaves {1, 2, 5} |
| TableSelection.SelectRowRuns | src/main/java/com/blackrook/swing/table/JObjectTable.java:75-103 | the corrected method clears the selection and adds exactly the maximal runs of the sorted indices, so its final selection is exactly the given rows |
| TableSelection.AdjacentRowsRun | src/main/java/com/blackrook/swing/table/JObjectTable.java:88 | for rows [1, 2] the runs are (1, 2), while the loop as written leaves row 2 unselected |
| ImageLoading.FoldCase | src/main/java/com/blackrook/swing/canvas/ImageLoader.java:149-150 | the case-insensitive key: same length, every character lower-cased |
| ImageLoading.FoldCaseIdempotent | src/main/java/com/blackrook/swing/canvas/ImageLoader.java:149-150 | a folded name is its own key |
| ImageLoading.FirstLoadedIsEarliest | src/main/java/com/blackrook/swing/canvas/ImageLoader.java:169-181 | the image is the earliest loader's that returns one; none iff no loader does; exceptions skip a loader |
| ImageLoading.FirstLoaded | src/main/java/com/blackrook/swing/canvas/ImageLoader.java:169-181 | any image found comes from a loader at or after the starting position |
| ImageLoading.ImageLoader.constructor | src/main/java/com/blackrook/swing/canvas/ImageLoader.java:144-154 | keeps the loaders; cache and error set empty |
| ImageLoading.NewImageLoader | src/main/java/com/blackrook/swing/canvas/ImageLoader.java:144-147 | no loader functions throws `IllegalArgumentException`, and only then |
| ImageLoading.ImageLoader.GetImage | src/main/java/com/blackrook/swing/canvas/ImageLoader.java:162-199 | error-set names give null and cached names their image, neither calling a loader; otherwise the first loaded image, and the name goes to exactly one of cache or error set |
| ImageLoading.ImageLoader.GetCachedNameSet | src/main/java/com/blackrook/swing/canvas/ImageLoader.java:205-208 | exactly the cached names, each a key of the cache (a snapshot, not a live view) |
| ImageLoading.ImageLoader.CachedNameSetIgnoresCase | src/main/java/com/blackrook/swing/canvas/ImageLoader.java:205-208 | asked with the set's case-insensitive comparison, the returned set contains a name exactly when it is cached |
| ImageLoading.ImageLoader.Uncache | src/main/java/com/blackrook/swing/canvas/ImageLoader.java:215-225 | the name leaves both cache and error set; true iff it was cached |
| Raster.RecreateVolatileImage | src/main/java/com/blackrook/swing/canvas/RasterCanvas.java:338-352 | a revalidated image is kept, not flushed; otherwise the old one is flushed and a new one exists iff the size is positive; any image returned has the requested size |
| Raster.RecreateIsStable | src/main/java/com/blackrook/swing/canvas/RasterCanvas.java:355-371 | an image just made or kept is kept again at the same size while it validates |
| Raster.RasterCanvas.constructor | src/main/java/com/blackrook/swing/canvas/RasterCanvas.java:118-126 | no images, no context, no render size, no aspect correction |
| Raster.RasterCanvas.WithRenderSize | src/main/java/com/blackrook/swing/canvas/RasterCanvas.java:133-149 | a fixed render size and the given aspect flag; nothing allocated |
| Raster.RasterCanvas.SetResamplingType | src/main/java/com/blackrook/swing/canvas/RasterCanvas.java:155-158 | only the resampling type changes |
| Raster.RasterCanvas.GetFrameWidth | src/main/java/com/blackrook/swing/canvas/RasterCanvas.java:235-238 | the render width if one was given, else the component width |
| Raster.RasterCanvas.GetFrameHeight | src/main/java/com/blackrook/swing/canvas/RasterCanvas.java:244-247 | the render height if one was given, else the component height |
| Raster.RasterCanvas.DisposeWritableGraphics | src/main/java/com/blackrook/swing/canvas/RasterCanvas.java:168-172 | an open context is disposed and cleared |
| Raster.RasterCanvas.StartFrame | src/main/java/com/blackrook/swing/canvas/RasterCanvas.java:166-177 | old context disposed; frame image kept or recreated at frame size; a new context on it, or a null-pointer exception and no context when there is no image |
| Raster.RasterCanvas.ContinueFrame | src/main/java/com/blackrook/swing/canvas/RasterCanvas.java:185-188 | the open context, which always draws on the current frame image |
| Raster.RasterCanvas.Finish | src/main/java/com/blackrook/swing/canvas/RasterCanvas.java:193-229 | context disposed; canvas image kept or recreated at component size; paint and repaint only when there is one |
| Raster.RasterCanvas.Update | src/main/java/com/blackrook/swing/canvas/RasterCanvas.java:320-324 | draws the canvas image only when there is one |
| Raster.RasterCanvas.GetRenderedCanvasDimensions | src/main/java/com/blackrook/swing/canvas/RasterCanvas.java:254-285 | without aspect correction the frame covers the whole canvas |
| Raster.RasterCanvas.GetFrameCursorCoordinates | src/main/java/com/blackrook/swing/canvas/RasterCanvas.java:294-317 | true exactly inside the half-open rendered bounds; outside, the output is untouched; inside, the scaled point lies within the frame |
| Raster.ScaledBelow | src/main/java/com/blackrook/swing/canvas/RasterCanvas.java:313-314 | a point inside the bounds scales to a pixel inside the frame |
| ValueConverters.IntegralValueFromText | src/main/java/com/blackrook/swing/FormFactory.java:189-197 | the parsed value is in the type's range, and null only in a nullable field |
| ValueConverters.IntegralTextFromValue | src/main/java/com/blackrook/swing/FormFactory.java:199-203 | the text is empty exactly for null in a nullable field; non-nullable null shows "0" |
| ValueConverters.BlankTextIsFallback | src/main/java/com/blackrook/swing/FormFactory.java:192-196 | blank text means null when nullable, else 0 |
| ValueConverters.IntegralValueOfDigits | src/main/java/com/blackrook/swing/FormFactory.java:189-197 | text that trims to a sign and digits gives their signed value when in the type's range, else null when nullable and 0 otherwise |
| ValueConverters.MalformedTextIsFallback | src/main/java/com/blackrook/swing/FormFactory.java:189-197 | text that does not trim to a sign and digits gives null when nullable, else 0 |
| ValueConverters.IntegerOverflowIsFallback | src/main/java/com/blackrook/swing/FormFactory.java:189-197 | "2147483648" in an `Integer` field is out of range and falls back |
| ValueConverters.IntegralValueRoundTrip | src/main/java/com/blackrook/swing/ValueFieldFactory.java:175-189 | every in-range value survives being shown and parsed back |
| ValueConverters.IntegralNullRoundTrip | src/main/java/com/blackrook/swing/ValueFieldFactory.java:185-189 | null shown and parsed back is null when nullable, else 0 |
| ValueConverters.IntegralCommitIsStable | src/main/java/com/blackrook/swing/ValueFieldFactory.java:521-525 | a committed value is a fixed point: committing its text again changes nothing |
| ValueConverters.StringValueFromText | src/main/java/com/blackrook/swing/FormFactory.java:69-73 | the value is the text itself |
| ValueConverters.StringTextFromValue | src/main/java/com/blackrook/swing/FormFactory.java:75-79 | the string itself, or "" for null |
| ValueConverters.StringRoundTrips | src/main/java/com/blackrook/swing/ValueFieldFactory.java:49-67 | text round-trips exactly; non-null values round-trip; null comes back as "" |
| ValueTextFields.ValueTextField.constructor | src/main/java/com/blackrook/swing/FormFactory.java:779-783 | the initial value is stored and its text shown |
| ValueTextFields.ValueTextField.Blank | src/main/java/com/blackrook/swing/ValueFieldFactory.java:445-483 | no value and empty text |
| ValueTextFields.ValueTextField.SetValue | src/main/java/com/blackrook/swing/FormFactory.java:857-863 | the value is stored and its text shown; `getValue` returns it |
| ValueTextFields.ValueTextField.SetText | src/main/java/com/blackrook/swing/FormFactory.java:845-848 | the value becomes the parsed text, and the normalised text is shown |
| ValueTextFields.ValueTextField.FocusLost | src/main/java/com/blackrook/swing/FormFactory.java:866-869 | the shown text is parsed into the value and re-rendered |
| ValueTextFields.ValueTextField.EscapePressed | src/main/java/com/blackrook/swing/FormFactory.java:871-874 | the value stays and the text is rebuilt from it |
| ValueTextFields.FormFieldPanel.constructor | src/main/java/com/blackrook/swing/FormFactory.java:662-678 | wraps the field with its label on the given side |
| ValueTextFields.FormFieldPanel.GetValue | src/main/java/com/blackrook/swing/FormFactory.java:697-701 | the wrapped field's value |
| ValueTextFields.FormFieldPanel.SetValue | src/main/java/com/blackrook/swing/FormFactory.java:703-707 | the wrapped field takes the value |
| ValueTextFields.BrowseField.constructor | src/main/java/com/blackrook/swing/FormFactory.java:727-746 | wraps the text field |
| ValueTextFields.BrowseField.GetValue | src/main/java/com/blackrook/swing/ValueFieldFactory.java:405-409 | the wrapped field's value |
| ValueTextFields.BrowseField.SetValue | src/main/java/com/blackrook/swing/ValueFieldFactory.java:411-415 | the wrapped field takes the value |
| ValueTextFields.BrowseField.BrowseAction | src/main/java/com/blackrook/swing/ValueFieldFactory.java:394-400 | a supplied value is applied; null from the supplier leaves value and text as they were |
| FormFactory.StringTextField | src/main/java/com/blackrook/swing/FormFactory.java:63-81 | string converters, the same whether or not the field is nullable; initial value stored and shown |
| FormFactory.IntegralTextField | src/main/java/com/blackrook/swing/FormFactory.java:152-267 | the long/integer/short/byte field: integral converters for its type and nullability; initial value stored and shown |
| FormFactory.ReflectiveSetValue | src/main/java/com/blackrook/swing/FormFactory.java:606-612 | the reflective call succeeds exactly for a non-null value whose class is `Object`; null throws a null-pointer exception |
| FormFactory.ReflectiveSetValueRejectsInteger | src/main/java/com/blackrook/swing/FormFactory.java:608-611 | an `Integer` value is refused with a `ClassCastException` |
| FormFactory.FormPanel.constructor | src/main/java/com/blackrook/swing/FormFactory.java:545-552 | label settings kept; no fields |
| FormFactory.FormPanel.AddField | src/main/java/com/blackrook/swing/FormFactory.java:562-582 | a new labelled panel replaces any earlier mapping of the key and is appended to the layout; returns the form itself |
| FormFactory.FormPanel.GetValue | src/main/java/com/blackrook/swing/FormFactory.java:589-593 | null for an unknown key, else the field's value |
| FormFactory.FormPanel.SetValue | src/main/java/com/blackrook/swing/FormFactory.java:601-604 | the intended behaviour: the field under the key takes the value; an unknown key changes nothing |
| FormFactory.FormPanel.SetValueAsWritten | src/main/java/com/blackrook/swing/FormFactory.java:601-614 | an unknown key changes nothing; otherwise the reflective call's outcome, and the field changes only when it succeeds |
| ValueFieldFactory.StringField | src/main/java/com/blackrook/swing/ValueFieldFactory.java:49-67 | string converters whatever `nullable` is; initial value stored and shown |
| ValueFieldFactory.IntegralField | src/main/java/com/blackrook/swing/ValueFieldFactory.java:138-255 | the long/integer/short/byte field: integral converters for its type and nullability; initial value stored and shown |
| Forms.AbstractValueTextField.constructor | src/main/java/com/blackrook/swing/forms/JAbstractValueTextField.java:26-30 | the initial value is stored and rendered |
| Forms.AbstractValueTextField.Blank | src/main/java/com/blackrook/swing/forms/JAbstractValueTextField.java:44-47 | no value and empty text |
| Forms.AbstractValueTextField.SetValue | src/main/java/com/blackrook/swing/forms/JAbstractValueTextField.java:76-81 | the value is stored and rendered through the hook, null included |
| Forms.AbstractValueTextField.SetText | src/main/java/com/blackrook/swing/forms/JAbstractValueTextField.java:63-68 | the value becomes the parsed text; the shown text is the normalised rendering, not the argument |
| Forms.ValueTextField.constructor | src/main/java/com/blackrook/swing/forms/JValueTextField.java:21-25 | a non-null initial value is stored and shown with `toString` |
| Forms.ValueTextField.Blank | src/main/java/com/blackrook/swing/forms/JValueTextField.java:39-42 | no value and empty text |
| Forms.ValueTextField.SetValue | src/main/java/com/blackrook/swing/forms/JValueTextField.java:63-68 | the value is stored; the text becomes its `toString`, or for null a null-pointer exception with the text unchanged |
| Forms.ValueTextField.SetText | src/main/java/com/blackrook/swing/forms/JValueTextField.java:44-48 | exactly `setValue(getValueFromText(t))` |
| Forms.NewValueTextField | src/main/java/com/blackrook/swing/forms/JValueTextField.java:21-25 | a null initial value throws while constructing, and only then |

## Left out

- Reflection itself: `getMethods`, `getAnnotation` and `invokeBlind` become `MethodInfo` records. `getValueAt` and `setValueAt` (JObjectTableModel.java:221-257) invoke getters and setters by reflection and are not modelled. Neither are `getColumnList` or `iterator`, which only expose the lists.
- TableModel.JObjectTableModel.constructor: sorts the columns with the corrected comparator (`Integer.compare`, see Findings), not the subtraction at JObjectTableModel.java:115. The two give the same list whenever no two orders differ by more than an `int` holds. With such orders the model's list differs from the source's, and the source's own list is not modelled (see `TableModel.SortColumns` below).
- TableModel.JObjectTableModel.WithBackingList: sorts like the constructor above, with the same difference under overflow. The row list is copied into the model, whereas the source keeps the caller's list (`this.data = backingList`). Changes the caller makes to that list afterwards are therefore not seen, and neither is an unmodifiable list that makes `addRows` throw.
- TableModel.SortedColumnsWellFormed: states well-formedness of the list sorted with the corrected comparator. It ties that list to the source's comparator only when no two orders overflow.
- ImageLoading.ImageLoader.GetCachedNameSet: returns a snapshot of the cache's names. The source returns the map's live `keySet` view, which later `getImage` and `uncache` calls change and through which a caller can remove entries. Its case-insensitive `contains` is modelled by `CachedNameSetIgnoresCase`.
- TableModel.IsSetterName, TableModel.IsGetterName, TableModel.GetFieldName, TableModel.GetSetterName and TableModel.TruncateMethodName: `Character.isUpperCase`, `toUpperCase` and `toLowerCase` are modelled for the ASCII letters only. Method names that begin with a non-ASCII capital (such as `getÉtat`) are not recognised as getters or setters here, although the source recognises them.
- JavaLang.ParseDecimal: digits are the ASCII digits '0' to '9'. `Integer.parseInt` also accepts other Unicode decimal digits (`Character.digit`), which the model rejects.
- TableModel.SortColumns: `List.sort` is modelled as a stable insertion sort that scans from the end. With a consistent comparator every stable sort gives the same list (`SortAgreesWithoutOverflow`). With the overflowing comparator as written, the placement can differ from TimSort's: for orders [-1, `Integer.MAX_VALUE`] TimSort's run detection finds a descending pair and reverses it, while `SortColumns(..., AsWritten)` keeps the list as it is. TimSort's run detection and binary insertion, and its "comparison method violates its general contract" exception, are not modelled.
- TableSelection.SetSelectedRows: `setRowSelectionInterval` is recorded as the list of calls. The selection those calls leave is `SetIntervals` over that list, in which each call replaces the selection (`SetIntervalsKeepsLast`). The exception the call throws for rows outside the table is not modelled. `setSelectedRow` (the single-row variant) and the `JObjectTable` constructor are toolkit glue and are left out.
- TableRowSorter.NUMBER_COMPARATOR: `doubleValue` is modelled as an exact integer value, so rounding of large `long` values is not captured.
- ImageLoading.ImageLoader.GetImage: a null name, which throws in the case-insensitive tree set, is not modelled. The `synchronized` blocks and the file and resource loader factories are left out.
- ImageLoading.FoldCase: `String.CASE_INSENSITIVE_ORDER` is modelled for ASCII letters only.
- Raster.RasterCanvas.GetRenderedCanvasDimensions: only the branch without aspect correction is modelled. The aspect-correct branch is floating-point arithmetic.
- Raster.RasterCanvas.GetFrameCursorCoordinates: requires no aspect correction, like the method above. The scaled output is computed with exact integer division, not with the source's `double` arithmetic and truncation. The two can differ by one pixel.
- Raster.RasterCanvas.Finish: drawing, clear colour, rendering hints and resampling are recorded as one paint event. `createCompatibleVolatileImage` is assumed never to fail. The `ThreadLocal` scratch objects are plain locals.
- Double and float text fields, text areas, check boxes and the other widgets of the factories are UI glue or floating point and are left out. So are the custom-converter factories (`valueTextField`, `valueField`), which `ValueTextField` covers by taking arbitrary converters.
- ValueTextFields.ValueTextField.EscapePressed: the focus transfer that follows Escape or Enter belongs to the toolkit. A caller models it with `FocusLost`.
- FormFactory.FormPanel: the map holds fields of a single value type. `JFormPanel` mixes field types, and `getValue(Class, key)` only casts.
- The string constructors of the two `forms` fields are not modelled. What they do depends on `JTextField`'s constructor calling the overridden `setText`, which is toolkit code that is not part of this model.

## Findings

| source | as written | input that shows it | evidently intended | confidence | as-written member | corrected member |
|---|---|---|---|---|---|---|
| src/main/java/com/blackrook/swing/table/JObjectTableModel.java:115 | columns are compared by `c1.order - c2.order` in 32-bit arithmetic | orders `Integer.MIN_VALUE` and 1: the difference wraps to `Integer.MAX_VALUE`, so the `MIN_VALUE` column is placed after the order-1 column | lower order first for every pair of orders (`Integer.compare`); the model's constructor sorts with this | high; not executed | TableModel.OrderOverflowCounterexample | TableModel.SortColumnsSorted |
| src/main/java/com/blackrook/swing/table/JObjectTable.java:94-97 | an index that continues the open interval overwrites the caller's array with `end`, and `end` never grows | rows [1, 2]: only `setRowSelectionInterval(1, 1)` is called, so row 2 is not selected | `clearSelection()`, then `addRowSelectionInterval` for each maximal run of consecutive rows, so that exactly the given rows end up selected (`SelectRowRuns`); a series of `setRowSelectionInterval` calls would keep only the last run (`RunsReplacedKeepLast`) | high; not executed | TableSelection.AdjacentRowsCollapse | TableSelection.RunsSelectExactly |
| src/main/java/com/blackrook/swing/FormFactory.java:608 | `getMethod("setValue", value.getClass())` asks for a `setValue` whose parameter is exactly the value's class, but a field panel's only `setValue` takes `Object` (the erasure of `T`) | a key mapped to an integer field and the value `Integer` 5: `NoSuchMethodException`, rethrown as `ClassCastException`; the field is unchanged | the field under the key takes the value | high; not executed | FormFactory.ReflectiveSetValueRejectsInteger | FormFactory.FormPanel.SetValue |
