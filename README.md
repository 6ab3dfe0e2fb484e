# Boomer cross-check core in Dafny

Boomer compares a PCB bill of materials (BOM) with a pick-and-place (PnP) file:
- It reads both files into text grids.
- It turns each grid into an index from designator to part record (comment, X, Y, layer, footprint).
- It then reports four lists:
  - BOM parts missing in the PnP file;
  - PnP parts missing in the BOM;
  - parts whose comments differ;
  - pairs of parts on the same layer whose centres are closer than a minimum distance.

Project profiles say which columns hold what and how the CSV files are split.

This project models that core and proves what it computes.

- `base.dfy` (`Base`): `Option`, `Result` and the Python exceptions the core raises (`ValueError`, `IndexError`, `TypeError`, `RuntimeError`).
- `pystr.dfy` (`PyStr`): Python's `str.strip`, `str.split` and negative indexing.
- `ordered_dict.dfy` (`OrderedDict`): an insertion-ordered `dict`.
- `sorting.dfy` (`Sorting`): a stable sort by a caller-supplied order, plus Python's `str` order.
- `text_grid.dfy` (`TextGrid`): the text grid and its column configuration. A column id is a header title, an index or nothing, as in the Python attributes.
- `csv_reader.dfy` (`CsvReader`): `read_csv` over rows already split into cells. It filters, strips and pads them in loops proved against specification functions.
- `extract.dfy` (`CrossCheckExtract`): `__extract_grid`.
  - `ExtractGrid` is the column checks, column lookup and row loop as a function.
  - `Extract` is the same with the source's loops, proved equal to it.
  - Lemmas say which keys the index holds, which row each entry comes from, and that a later row overwrites an earlier one.
- `coords.dfy` (`CrossCheckCoords`): `__txt_to_mm`, meaning the non-numeric filter, the unit scale and the (0, 0) fallback.
- `distances.dfy` (`CrossCheckDistances`): `__check_distances`.
  - It keeps its `parts_checked` and `decoded_coords` maps.
  - It is proved equal to a specification over pairs of positions in the PnP index.
  - The report holds exactly the too-close same-layer pairs (earlier part first), each pair once.
- `compare.dfy` (`CrossCheck`): `CrossCheckResult`, `__compare` and `compare`. They are proved to produce the sorted lists whose members are characterised by lemmas.
- `project.dfy` (`Project`): the `Profile` class of `project.py`:
  - its defaults;
  - the column checks, proved against `ColumnsCheck`;
  - the separator mapping and delimiters;
  - `Project.cfg_get_profiles` over the configuration's section names.
- `prj_profile.dfy` (`PrjProfile`): the older `Profile` of `prj_profile.py`, as a record. Its separator mapping is proved to agree with `project.py`'s.

## Model

| member | source | states |
|---|---|---|
| PyStr.PyIndex | src/cross_check.py:151-154 | `cells[i]` succeeds exactly for `-len <= i < len`; negative indices count from the end |
| PyStr.LStrip | src/csv_reader.py:27 | the result is a suffix of the input; everything dropped is whitespace and the result starts with a non-space |
| PyStr.RStrip | src/csv_reader.py:27 | the result is a prefix of the input; everything dropped is whitespace and the result ends with a non-space |
| PyStr.Strip | src/csv_reader.py:27 | never longer than the input; empty exactly when the input is all whitespace |
| PyStr.StripTrimmed | src/cross_check.py:170 | a stripped string starts and ends with a non-space or is empty |
| PyStr.StripWithin | src/cross_check.py:167-170 | stripping never introduces a character, so a comma-free token stays comma-free |
| PyStr.StripIdempotent | src/cross_check.py:170 | stripping twice is stripping once |
| PyStr.Split | src/cross_check.py:167 | `split(',')` yields at least one piece and no piece contains the separator |
| PyStr.JoinSplit | src/cross_check.py:167 | joining the pieces with the separator gives back the cell |
| PyStr.SplitJoin | src/cross_check.py:167 | splitting pieces joined by the separator gives back the pieces |
| PyStr.SplitPiece | src/cross_check.py:167 | a cell without commas is a single designator |
| PyStr.SplitPrefix | src/cross_check.py:167 | the first comma ends the first designator |
| OrderedDict.Empty | src/cross_check.py:132 | the new dict is well formed and empty |
| OrderedDict.Put | src/cross_check.py:171 | assignment keeps the dict well formed; a new key is appended to the order and an existing key keeps its place |
| Sorting.Insert | src/cross_check.py:258 | insertion adds exactly one element |
| Sorting.SortBy | src/cross_check.py:258 | the sorted list is a permutation of the input |
| Sorting.InsertSorted | src/cross_check.py:258 | inserting into a sorted list keeps it sorted under a total preorder |
| Sorting.SortBySorted | src/cross_check.py:258 | under a total preorder the result is sorted |
| Sorting.InsertTies | src/cross_check.py:258 | inserting an element puts it ahead of the elements it ties with and keeps the ties in order, under a transitive order |
| Sorting.SortByStable | src/cross_check.py:258 | the sort is stable: under a total preorder the elements tied with any `x` keep their input order |
| Sorting.SortByMembers | src/project.py:284 | sorting neither adds nor drops an element |
| Sorting.ByKeyTotal | src/cross_check.py:258 | ordering records by a key is a total preorder when the key order is one |
| Sorting.StrLeTotal | src/project.py:284 | any two strings are comparable |
| Sorting.StrLeTrans | src/project.py:284 | Python's string order is transitive |
| Sorting.StrLeAntisym | src/project.py:284 | Python's string order is antisymmetric |
| Sorting.StrLeTotalPreorder | src/project.py:284 | Python's string order is a total preorder, so `sort()` yields a sorted list |
| CsvReader.KeptRows | src/csv_reader.py:22-24 | no more rows than read, and every kept row has a non-empty first cell |
| CsvReader.MaxWidth | src/csv_reader.py:18-29 | `max_cols` bounds every row and is attained by one; 0 with no rows |
| CsvReader.PadRowShape | src/csv_reader.py:36-40 | a padded row keeps its cells, gets `ncols` cells when shorter, and the new cells are empty |
| CsvReader.KeptRowsConcat | src/csv_reader.py:22-30 | the filter distributes over concatenation: kept rows keep their order |
| CsvReader.KeptRowsMembers | src/csv_reader.py:22-24 | a row is kept exactly when it was read and its first cell is non-empty |
| CsvReader.StripRow | src/csv_reader.py:25-27 | the cell loop yields every cell stripped |
| CsvReader.PadRowLoop | src/csv_reader.py:37-40 | the `while` loop pads the row to `ncols` cells |
| CsvReader.KeptRowsStep | src/csv_reader.py:22-30 | one more row is appended exactly when it passes the filter |
| CsvReader.MaxWidthStep | src/csv_reader.py:29 | the width grows to a wider row's length and otherwise stays |
| CsvReader.KeepAndStrip | src/csv_reader.py:17-30 | the row loop keeps the filtered rows in order, each stripped, and `max_cols` is the widest |
| CsvReader.PadRows | src/csv_reader.py:36-40 | every row is padded to `ncols` |
| CsvReader.ReadCsv | src/csv_reader.py:12-42 | `nrows` is the number of kept rows; `ncols` is the widest; every row has `ncols` cells; each row is the kept row stripped and padded with empty cells |
| CrossCheckExtract.ColumnTypeError | src/cross_check.py:29-50 | an error exactly when a column id has the wrong type for the header mode (titles with headers, indices without; PnP also X and Y); always a ValueError |
| CrossCheckExtract.FindColumn | src/cross_check.py:56-63 | the first header cell equal to the id, with no match before it; -1 when none matches; IndexError when the header row is missing or short |
| CrossCheckExtract.ResolveColumns | src/cross_check.py:52-130 | the BOM uses no coordinate, layer or footprint column; without headers the designator, comment, X, Y and footprint are the configured indices, a footprint title is remembered as a text id, and there is no layer column; with headers the designator and comment are header cells; otherwise IndexError or ValueError |
| CrossCheckExtract.ResolveColumnsWithHeaders | src/cross_check.py:52-116 | with headers every column is the first matching header cell; "designator column not found" and then "comment column not found" are raised for a title found nowhere; an IndexError comes only from reading the header row |
| CrossCheckExtract.RowRange | src/cross_check.py:133-137 | the data rows are `first_row` (plus one with headers) up to `last_row`, with -1 meaning `nrows`; ValueError "last row > number of rows" exactly when the end is past the grid |
| CrossCheckExtract.ReadRow | src/cross_check.py:140-164 | reading one data row fails only with IndexError or TypeError |
| CrossCheckExtract.ReadRowSucceeds | src/cross_check.py:140-164 | a row reads exactly when the row, its designator, comment, used X/Y and PnP layer cells exist, and for the PnP the footprint id is not a title and its cell exists when used |
| CrossCheckExtract.ReadRowShape | src/cross_check.py:140-164 | a row read gives the designator and comment cells; no layer or footprint for the BOM; empty coordinates when none are read; the last cell as layer without a layer column; only IndexError or TypeError |
| CrossCheckExtract.ReadRowCells | src/cross_check.py:142-160 | a row read gives the X and Y cells when both are used, the layer cell for a PnP layer column, and the footprint cell or "" |
| CrossCheckExtract.DesignatorKeys | src/cross_check.py:167-170 | a designator cell yields one key per comma-separated token (at least one), each without a comma and without surrounding whitespace |
| CrossCheckExtract.DesignatorKeysOfList | src/cross_check.py:167-170 | a cell listing comma-free designators yields each of them stripped, in order |
| CrossCheckExtract.DesignatorKeysSingle | src/cross_check.py:167-170 | a cell without a comma is the single key of the cell stripped |
| CrossCheckExtract.PutAllEntries | src/cross_check.py:167-171 | after writing a record under every designator token, each token maps to it, other keys keep their records, and old keys keep their order |
| CrossCheckExtract.RowReads | src/cross_check.py:139 | one read per data row of the range |
| CrossCheckExtract.RowReadsAt | src/cross_check.py:139-141 | read `i` is data row `first + i` |
| CrossCheckExtract.PutDesignators | src/cross_check.py:167-171 | the token loop writes the record under every stripped token |
| CrossCheckExtract.Extract | src/cross_check.py:26-173 | the imperative `__extract_grid` returns what `ExtractGrid` specifies, exceptions included |
| CrossCheckExtract.FoldRowsAppend | src/cross_check.py:139-171 | one more row keeps an earlier exception, raises its own, or writes its record |
| CrossCheckExtract.RowReadsNext | src/cross_check.py:139 | extending the range by one row appends that row's read |
| CrossCheckExtract.ExtractRowsFailureSticks | src/cross_check.py:139-171 | once a row raises, later rows do not change the outcome |
| CrossCheckExtract.ExtractRowsRaise | src/cross_check.py:140-141 | a row that raises ends the loop with its exception |
| CrossCheckExtract.ExtractRowsPut | src/cross_check.py:167-171 | a row that reads writes its record under each of its tokens |
| CrossCheckExtract.ExtractRowsStep | src/cross_check.py:139-171 | one loop turn: raise, or write under the tokens |
| CrossCheckExtract.ExtractDataRow | src/cross_check.py:140-171 | the loop body either ends with the whole loop's exception or leaves the index of one more row |
| CrossCheckExtract.ExtractDataRows | src/cross_check.py:139-171 | the row loop computes `ExtractRows` |
| CrossCheckExtract.FoldRowsReadable | src/cross_check.py:139-171 | an index is built exactly when every data row reads |
| CrossCheckExtract.FoldRowsFirstError | src/cross_check.py:139-171 | a failed loop raises the exception of the first row that fails; every earlier row read |
| CrossCheckExtract.RowReadsOutcome | src/cross_check.py:139-171 | the row loop raises only IndexError or TypeError |
| CrossCheckExtract.ExtractGrid | src/cross_check.py:26-173 | a wrong column id type is reported first; a built index means the columns resolved and the row range was valid; only ValueError, IndexError or TypeError are raised |
| CrossCheckExtract.FoldRowsKeys | src/cross_check.py:167-171 | the keys are exactly the stripped designator tokens of the rows |
| CrossCheckExtract.FoldRowsLastWins | src/cross_check.py:171 | a key holds the record of the last row listing it |
| CrossCheckExtract.FoldRowsOrigin | src/cross_check.py:171 | every entry is the record of the last row listing its key |
| CrossCheckExtract.FoldRowsValid | src/cross_check.py:132-171 | the index is a well-formed ordered dict |
| CrossCheckExtract.ExtractRowsEntry | src/cross_check.py:139-171 | each entry is the record of the last data row whose designator tokens list its key |
| CrossCheckExtract.RowReadsPart | src/cross_check.py:139-164 | read `i` is row `first + i` read and split into tokens |
| CrossCheckExtract.ExtractGridEntry | src/cross_check.py:26-173 | every key of an extracted index holds the record of the last configured data row listing it |
| CrossCheckExtract.ExtractGridRows | src/cross_check.py:132-173 | a built index is the row loop over the configured range with the resolved columns |
| CrossCheckExtract.ExtractGridValid | src/cross_check.py:26-173 | `__extract_grid` returns a well-formed ordered dict |
| CrossCheckExtract.BomIndexHasNoLayer | src/cross_check.py:161-164 | BOM records have empty layer and footprint |
| CrossCheckExtract.HeaderlessPnpLayerIsLastCell | src/cross_check.py:148-154 | without a layer column, a PnP record's layer is the last cell of the data row that last lists its key |
| CrossCheckCoords.KeepNumeric | src/cross_check.py:195 | the filtered text is no longer than the input and holds only digits, `.` and `,` |
| CrossCheckCoords.KeepNumericConcat | src/cross_check.py:195 | the filter distributes over concatenation |
| CrossCheckCoords.KeepNumericOnly | src/cross_check.py:195 | numeric text passes unchanged |
| CrossCheckCoords.KeepNumericIdempotent | src/cross_check.py:195 | filtering twice is filtering once |
| CrossCheckCoords.KeepNumericMembers | src/cross_check.py:195 | a character survives exactly when it is in the input and numeric |
| CrossCheckCoords.KeepNumericNone | src/cross_check.py:195 | unit text filters to nothing |
| CrossCheckCoords.TxtToMm | src/cross_check.py:189-206 | (0, 0) when either conversion fails; the converted pair in mm; in mils, the result times `MIL_PER_MM` is the number written |
| CrossCheckCoords.MilsScale | src/cross_check.py:190-203 | the mils reading is the mm reading scaled by 25.4/1000 |
| CrossCheckCoords.UnitSuffixIgnored | src/cross_check.py:193-198 | a unit suffix such as `mm` does not change the reading |
| CrossCheckDistances.DistSq | src/cross_check.py:241 | the squared distance is non-negative |
| CrossCheckDistances.CloserIsRoot | src/cross_check.py:241-243 | `Closer` on the squared distance is `sqrt(d) < min_distance` |
| CrossCheckDistances.DecodePoint | src/cross_check.py:229-239 | the cached or converted point is the part's point, and the cache stays correct |
| CrossCheckDistances.CheckDistances | src/cross_check.py:208-246 | the loops return exactly `Conflicts`, the too-close same-layer pairs in the source's order |
| CrossCheckDistances.CheckRow | src/cross_check.py:215-245 | the inner loop appends the pairs of part `i`; `parts_checked` then records every pair of earlier outer parts |
| CrossCheckDistances.CheckPair | src/cross_check.py:216-245 | one iteration skips pairs already measured or on other layers and reports a too-close pair once |
| CrossCheckDistances.CheckedPairsLookup | src/cross_check.py:219 | `key_a in parts_checked.get(key_b, [])` holds exactly when B comes first and shares the layer |
| CrossCheckDistances.CheckedPairsUnchanged | src/cross_check.py:217-221 | a pair that is not measured leaves `parts_checked` as it was |
| CrossCheckDistances.CheckedPairsNextRow | src/cross_check.py:214-226 | after the inner loop, the next outer part sees all earlier pairs recorded |
| CrossCheckDistances.CheckedPairsAdd | src/cross_check.py:223-226 | recording pair (A, B) under A keeps the invariant |
| CrossCheckDistances.RowConflictsMembers | src/cross_check.py:215-245 | part `m` is reported with exactly its later same-layer partners that are too close |
| CrossCheckDistances.ConflictsBeforeMembers | src/cross_check.py:214-245 | the report of the first `i` outer parts holds exactly their pairs |
| CrossCheckDistances.ConflictsMembers | src/cross_check.py:208-246 | an entry is reported exactly when it names a same-layer pair, earlier part first, closer than `min_distance`, with their squared distance |
| CrossCheckDistances.PairsOnceConcat | src/cross_check.py:214-245 | joining reports with no shared pair reports each pair once |
| CrossCheckDistances.RowConflictsOnce | src/cross_check.py:215-245 | one outer part reports each partner once |
| CrossCheckDistances.ConflictsBeforeOnce | src/cross_check.py:214-245 | a pair reported with an earlier outer part is never reported again |
| CrossCheckDistances.ConflictsOnce | src/cross_check.py:217-226 | each pair of parts is reported at most once, never also the other way round |
| CrossCheck.CrossCheckResult.constructor | src/cross_check.py:10-22 | a new result has all four lists empty |
| CrossCheck.OrUnknown | src/cross_check.py:256 | `comment or "?"` is "?" for an empty comment and the comment otherwise |
| CrossCheck.BomOnlyUpToMembers | src/cross_check.py:254-256 | the first `k` BOM parts contribute exactly the non-empty designators missing in the PnP |
| CrossCheck.BomOnlyMembers | src/cross_check.py:254-256 | a BOM part is listed exactly when its designator is non-empty and absent from the PnP, with its comment or "?" |
| CrossCheck.CollectBomOnly | src/cross_check.py:253-258 | the first loop and its natural sort leave the list `SortBy(BomOnly)`; other lists unchanged |
| CrossCheck.PnpOnlyUpToMembers | src/cross_check.py:261-263 | the first `k` PnP parts contribute exactly the non-empty designators missing in the BOM |
| CrossCheck.PnpOnlyMembers | src/cross_check.py:261-263 | a PnP part is listed exactly when its designator is non-empty and absent from the BOM, with its comment as it is |
| CrossCheck.CollectPnpOnly | src/cross_check.py:260-264 | the second loop and its sort leave the list `SortBy(PnpOnly)`; other lists unchanged |
| CrossCheck.MismatchesUpToMembers | src/cross_check.py:267-270 | the first `k` BOM parts contribute exactly their comment mismatches |
| CrossCheck.MismatchesMembers | src/cross_check.py:267-270 | a part is listed exactly when it is in both files with different comments; it carries both comments and the PnP footprint; empty designators included |
| CrossCheck.CollectMismatches | src/cross_check.py:266-271 | the third loop and its sort leave the list `SortBy(Mismatches)`; other lists unchanged |
| CrossCheck.CollectConflicts | src/cross_check.py:273-276 | the conflict list is the sorted `__check_distances` report; other lists unchanged |
| CrossCheck.CompareParts | src/cross_check.py:248-279 | a new result whose four lists are the sorted outcomes of the three loops and of the distance check |
| CrossCheck.Compare | src/cross_check.py:283-293 | ValueError "BOM data is missing" / "PnP data is missing" (BOM first); extraction exceptions propagate (BOM first); otherwise the result of `__compare` on both indexes |
| CrossCheck.SortedBomOnly | src/cross_check.py:254-258 | the sorted BOM-only list holds exactly the characterised parts; under a total preorder it is ordered by designator and parts with tied designators keep their index order |
| CrossCheck.SortedPnpOnly | src/cross_check.py:261-264 | the sorted PnP-only list holds exactly the characterised parts; under a total preorder it is ordered by designator and parts with tied designators keep their index order |
| CrossCheck.SortedMismatches | src/cross_check.py:267-271 | the sorted mismatch list holds exactly the characterised mismatches; under a total preorder it is ordered by designator and mismatches with tied designators keep their index order |
| CrossCheck.SortedConflicts | src/cross_check.py:274-276 | the sorted conflict list holds exactly the too-close pairs, as many as reported; under a total preorder it is ordered by first designator and pairs with tied first designators keep their report order |
| CrossCheck.DesignatorsPartitioned | src/cross_check.py:253-270 | a designator is BOM-only exactly when only the BOM lists it (non-empty), PnP-only exactly when only the PnP lists it, a mismatch exactly when both list it with different comments; no designator is in two lists; every non-empty designator is in a list or in both files |
| Project.UnspecifiedUpToEmpty | src/project.py:98-102 | nothing is listed exactly when no column is "?" |
| Project.ColumnsCheck | src/project.py:97-118 | success exactly when no checked column is "?", with an empty message; otherwise the heading, the unspecified labels and "\nare unspecified" |
| Project.AllUnsetListsEveryLabel | src/project.py:107-113 | with every column "?", every label is listed, in order |
| Project.DefaultBomColumnsFail | src/project.py:97-105 | a new profile's BOM columns fail the check, listing "Designator, Comment" |
| Project.DefaultPnpColumnsFail | src/project.py:107-118 | a new profile's PnP columns fail the check, listing all five labels in order |
| Project.Profile.constructor | src/project.py:12-33 | the defaults: "initial-profile", headers on, rows 0 to -1, separators "COMMA", every column "?", coordinates in mils |
| Project.Profile.CheckBomColumns | src/project.py:97-105 | `check_bom_columns` returns `ColumnsCheck` over the designator and comment columns |
| Project.Profile.CheckPnpColumns | src/project.py:107-118 | `check_pnp_columns` returns `ColumnsCheck` over designator, comment, X, Y and layer |
| Project.Profile.GetSeparatorNames | src/project.py:120-122 | six distinct names, each of which translates without error |
| Project.Profile.TranslateSeparator | src/project.py:145-158 | a delimiter exactly for the six names; RuntimeError "Unknown CSV separator" otherwise |
| Project.TranslateSeparatorInjective | src/project.py:145-158 | different names give different delimiters |
| Project.Profile.BomDelimiter | src/project.py:160-163 | `bom_delimiter` raises RuntimeError "Unknown CSV separator" exactly when the BOM separator is not one of the six names |
| Project.Profile.PnpDelimiter | src/project.py:164-167 | `pnp_delimiter` raises RuntimeError "Unknown CSV separator" exactly when the PnP separator is not one of the six names |
| Project.CommaDelimiters | src/project.py:160-166 | with both separators "COMMA", as in a new profile, both delimiters are "," |
| Project.ProfileNamesMembers | src/project.py:276-280 | a name is listed exactly when "profile." + name is a section |
| Project.CfgGetProfiles | src/project.py:275-285 | the profile names, or only "default-profile" when there are none, as a permutation sorted in Python string order |
| PrjProfile.Profile.GetBomDelimiter | src/prj_profile.py:86-87 | raises RuntimeError "Unknown CSV separator" exactly when the BOM separator is not one of the six names |
| PrjProfile.Profile.GetPnpDelimiter | src/prj_profile.py:89-90 | raises RuntimeError "Unknown CSV separator" exactly when the PnP separator is not one of the six names |
| PrjProfile.NewProfile | src/prj_profile.py:20-29 | the defaults "noname", first rows 0, columns "?"; both delimiters are "," |
| PrjProfile.GetSeparatorNames | src/prj_profile.py:63-65 | six distinct names, each of which translates without error |
| PrjProfile.TranslateSeparator | src/prj_profile.py:67-84 | a delimiter exactly for the six names; RuntimeError "Unknown CSV separator" otherwise |
| PrjProfile.SameSeparators | src/prj_profile.py:63-84 | both profile classes offer the same names and map every name to the same delimiter or the same error |

## Left out

- File I/O: opening the file, `csv.reader`'s tokenising and quoting, and the UTF-8 decoding. `CsvReader.ReadCsv` takes the rows the reader yields.
- Logging calls are not modelled; they have no effect on results.
- `float()` is the parameter `parse`, with `None` for a `ValueError`. Floating-point rounding is not modelled; coordinates are `real`.
- `CrossCheckCoords.KeepNumeric`: `\d` is taken as the ASCII digits only, whereas Python also accepts other Unicode decimal digits.
- `CrossCheckDistances.CheckDistances`: each entry carries the squared distance rather than `math.sqrt` of it. `CloserIsRoot` shows the comparison with `min_distance` is the same.
- `CrossCheck.CompareParts`: `natsort.natsorted` is the parameter `natLe`, comparing the first field (the designator) only. Natural ordering itself and the tie-break on later tuple fields are not modelled.
- `CrossCheck.CollectConflicts`: sorted by `natLe` on the first designator only. Conflicts with the same first designator stay in the order `__check_distances` found them (`CrossCheck.SortedConflicts`), whereas `natsorted` orders them by the second designator and then the distance.
- `CrossCheck.CollectBomOnly`: sorted by `natLe` on the designator only. Distinct designators that the natural order ties (such as `R1` and `R01`) stay in BOM index order (`CrossCheck.SortedBomOnly`), whereas `natsorted` compares the whole tuples and orders them by the comment.
- `CrossCheck.CollectPnpOnly`: sorted by `natLe` on the designator only. Designators that the natural order ties stay in PnP index order (`CrossCheck.SortedPnpOnly`), whereas `natsorted` orders them by the PnP comment.
- `CrossCheck.CollectMismatches`: sorted by `natLe` on the designator only. Designators that the natural order ties stay in BOM index order (`CrossCheck.SortedMismatches`), whereas `natsorted` orders them by the BOM comment, the PnP comment and the footprint.
- `CrossCheck.DesignatorsPartitioned` is stated on the lists before sorting; `Sorting.SortByMembers` carries it over to the sorted lists.
- `CrossCheck.Compare`: likewise sorted by `natLe` on the designator only. `pointOf` is fixed to `__txt_to_mm` through `PartPoint`.
- `Project.DefaultPnpColumnsFail`: the list of unspecified columns is stated as the five labels run together (`LabelsUpTo`), not as one literal string.
- `Profile.load`, `Profile.save` (both profile classes) and the configparser object are not modelled, being configuration-file I/O. `Project.CfgGetProfiles` takes the section names as input.
- The rest of the `Project` class is not modelled: project loading and saving, `get_projects` (`os.path.exists`), and the other configparser accessors.
- Grid cells are assumed to be strings (`TextGrid.Grid.rows` is `seq<seq<string>>`). The XLS and XLSX readers can put floats or `None` into the grid, on which `split`, `strip` or `re.sub` would raise an error this model does not represent.
- The user interface, the report generator and the XLS/XLSX/ODS readers are not part of this model.
