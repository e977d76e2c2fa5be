# CPT file conversion core, modelled in Dafny

This project models the conversion engine of the cpt-interpreter application.
The application reads cone penetration test (CPT) records in two exchange
formats: the Dutch GEF text format and the BRO/IMBRO XML format. It converts
between them and turns user tables into soil layouts. The model covers:

- **Code tables and the column registry**
  (`app/cpt_file/cpt/file_conversion.py`). This is the 24-entry data-block
  column registry. It also holds four descriptive-name → GEF-code tables. Each
  is a `defaultdict` whose unknown keys give `"-"`. The file also has the
  channel → XML parameter mapping, `undo_camelcase` and `replace_multiple`.
  Module `CodeTables`.
- **IMBRO XML → internal CPT record** (`convert_xml_dict_to_cpt_dict`),
  module `XmlToCpt`:
  - the `parameters` flags choose the columns of the five channels;
  - the encoded value block is cut into rows by the token and block separators;
  - the rows are sorted by the elevation column;
  - the sentinel `-999999` becomes `None`;
  - elevation and depth are converted to millimetres, and the friction ratio from percent;
  - a missing friction ratio is derived as `fs / qc`;
  - the header record is built.
- **IMBRO XML → GEF** (`app/cpt_file/cpt/imbro_file.py`). The recursive
  flattening of the XML tree, with its special case for `parameters`, is in
  module `XmlTree`. Module `ImbroFile` builds:
  - the header lines through the code tables;
  - META: the numbered `COLUMNINFO` of the flagged parameters, `COLUMN` and
    `LASTSCAN`;
  - DATA: the sorted rows, one `;!`-terminated line each.
- **GEF → IMBRO XML** (`app/cpt_file/cpt/gef_file.py`):
  - `_yes_no`, the nested data dictionary with its missing-parameter error,
    the optional measurement standard and the registration timestamp;
  - the 25 × n value block: two `linspace` depth columns and four channel
    columns, the rest `-999999`, each cell `'{:.3f}'`;
  - the template tree with its namespace maps (`_parse_xml_template`), the
    overlay of the data onto it (`_reformat_using_template`) and the element
    tree built from the result (`_build_xml`).

  Modules `GefTemplate` and `GefFile`.
- **Soil layouts** (`app/cpt_file/soil_layout_conversion_functions.py` and
  its copy `app/soil_layout_conversion_functions.py`), module `SoilLayout`:
  - the input table chained into layers from the bottom up, with its
    "not available" error;
  - the m ↔ mm conversions and colour parsing;
  - the in-place enrichment of the classification table;
  - the `Classification` method dispatch;
  - the ground-water-level fallback.
- **`filter_nones_from_params_dict`** (three identical copies). It drops every
  row that has a `None` in any channel, in place. Module `ParamsFilter`.

Supporting modules:

- `Base`: `Option`, `Result` and the Python exceptions raised.
- `OrderedDict`: insertion-ordered dictionaries.
- `Strings`: `split`, `join`, `strip`, `replace`, `lower` and the
  `{namespace}` prefix idiom.
- `Numbers`: `float()`, `int()`, truncation and `'{:.3f}'` on exact reals.
- `Sorting`: `sorted(rows, key=float(row[col]))`.

Code that works step by step is modelled as methods with loops, each proved
equal to a specification function:

- `XmlTree.FlattenNode`, `XmlToCpt.ColumnMapping` and `XmlToCpt.FillMeasurementData`;
- `ImbroFile.BuildSelection`, `ImbroFile.BuildData` and `ImbroFile.ConvertToGefFileContent`;
- `GefTemplate.ParseXmlTemplate`, `GefFile.EncodeValueBlock` and `GefFile.ConvertToImbroFileContent`;
- `CodeTables.ReplaceMultiple`;
- the soil-layout loops.

Code that mutates its argument is modelled on mutable state:

- `ParamsFilter.RawDict` is a class whose `measurementData` field is updated by row deletion;
- the classification table is an `array` of rows updated in place;
- `SoilLayout.Classification` is a class.

Python exceptions are `Err` values carrying the exception kind and, where the
source builds one, its message.

## Model

| member | source | states |
|---|---|---|
| CodeTables.FindColumnIsFirstMatch | app/cpt_file/cpt/imbro_file.py:169 | The column definition picked for a parameter is the first registry entry whose description equals the spaced parameter name; there is none exactly when no entry has that description |
| CodeTables.FallbackMeansUnknown | app/cpt_file/cpt/file_conversion.py:106-140 | Each of the four code tables answers "-" exactly for a missing value or a key it does not list |
| CodeTables.KnownCodes | app/cpt_file/cpt/file_conversion.py:107-128 | Listed vocabulary maps to its GEF code: NAP → 31000, TAW → 32001, RD and RDNAPTRANS2008 → 31000, einddiepte → 0, elektrischContinu → 4 |
| CodeTables.UndoCamelcase | app/cpt_file/cpt/file_conversion.py:243-244 | The result contains no upper-case letter |
| CodeTables.SpaceCamelBoundariesOnlyAddsSpaces | app/cpt_file/cpt/file_conversion.py:244 | Splitting camel case only inserts spaces: dropping the spaces gives back the input with its spaces dropped |
| CodeTables.SpaceCamelBoundariesSeparatesAll | app/cpt_file/cpt/file_conversion.py:244 | One space is inserted per lower→upper boundary, and no lower-case letter is followed by an upper-case one afterwards |
| CodeTables.UndoCamelcaseWithoutBoundaries | app/cpt_file/cpt/file_conversion.py:243-244 | A name without a lower→upper boundary is only lower-cased |
| CodeTables.ReplaceMultiple | app/cpt_file/cpt/file_conversion.py:247-250 | The loop replaces every listed character in turn, equal to the replacement chain `ReplaceEach` |
| CodeTables.ReplaceEachRemovesAll | app/cpt_file/cpt/file_conversion.py:247-250 | When the replacement text avoids the listed characters, none of them is left in the result |
| CodeTables.ReplaceEachKeepsAbsence | app/cpt_file/cpt/imbro_file.py:106-108 | A character in neither the input nor the replacement does not appear in the result |
| CodeTables.ReplaceEachWithoutMatches | app/cpt_file/cpt/file_conversion.py:247-250 | Text containing none of the listed characters comes back unchanged |
| XmlTree.ParameterFlags | app/cpt_file/cpt/imbro_file.py:57-59 | The `parameters` element becomes one (local tag, flag) pair per child in document order, the flag true exactly for text "ja" |
| XmlTree.FlattenNode | app/cpt_file/cpt/imbro_file.py:49-62 | The recursive walk equals the flattening function `Flatten` |
| XmlTree.FlattenShape | app/cpt_file/cpt/imbro_file.py:51-62 | A childless element flattens to its text, any other to a dictionary keyed by exactly its children's local tag names |
| XmlTree.FlattenLastDuplicateWins | app/cpt_file/cpt/imbro_file.py:55-61 | Under a repeated local tag the last such child wins; `parameters` holds the flag list and every other tag its child's flattening |
| XmlTree.FlattenFromKeys | app/cpt_file/cpt/imbro_file.py:55-61 | The loop adds exactly the local tags of the remaining children to the dictionary built so far |
| XmlTree.Attr | app/cpt_file/cpt/imbro_file.py:67 | Munch attribute access succeeds exactly on a dictionary holding the key and otherwise raises AttributeError naming it |
| XmlTree.PathAppend | app/cpt_file/cpt/imbro_file.py:67 | A chained attribute path reads the first part and then the rest, and stops at the first error |
| XmlTree.Item | app/cpt_file/cpt/imbro_file.py:181 | Item access succeeds exactly on a dictionary holding the key and gives its value |
| XmlToCpt.ColumnMapping | app/cpt_file/cpt/file_conversion.py:160-167 | The loop over the parameters equals `MappingOf`, the column map of the flagged parameters |
| XmlToCpt.MappingOfIsLastFlagged | app/cpt_file/cpt/file_conversion.py:161-165 | A channel maps to the last index whose parameter carries its XML name with flag True; it maps to nothing when no such parameter exists |
| XmlToCpt.MappingOfIsWellFormed | app/cpt_file/cpt/file_conversion.py:160-165 | The mapping has distinct keys, all of them channel names |
| XmlToCpt.ElevationAndCorrectedDepthShareColumn | app/cpt_file/cpt/file_conversion.py:146-147 | `elevation` and `corrected_depth` both read the `depth` parameter, so they always get the same column |
| XmlToCpt.LabelOfMatchesTable | app/cpt_file/cpt/file_conversion.py:142-148 | The label lookup agrees with the channel → XML name table in both directions |
| XmlToCpt.AssignParameterGet | app/cpt_file/cpt/file_conversion.py:162-165 | One parameter sets index i exactly for the channels whose label it carries with flag True, and leaves the other keys alone |
| XmlToCpt.SplitRowsOfEncoded | app/cpt_file/cpt/file_conversion.py:176-178 | Cutting a block-terminated encoding of separator-free rows by the same separators gives back exactly those rows |
| XmlToCpt.EncodeRowsAsJoin | app/cpt_file/cpt/file_conversion.py:176-178 | A block-terminated encoding is the rows joined by the block separator, followed by one trailing empty piece, which `[:-1]` drops |
| XmlToCpt.SplitEach | app/cpt_file/cpt/file_conversion.py:176 | Each block is split by the token separator, row for row |
| XmlToCpt.SortByElevation | app/cpt_file/cpt/file_conversion.py:181-184 | No rows sort to none; rows without an elevation column raise the "Missing elevation" UserException; otherwise the rows are sorted by the float of the elevation column |
| Sorting.SortRowsByColumn | app/cpt_file/cpt/file_conversion.py:182 | Sorting succeeds exactly when every row has a parseable key field; the result is then a permutation of the rows |
| Sorting.SortRowsByColumnIsSorted | app/cpt_file/cpt/imbro_file.py:183 | The sorted rows are in non-decreasing order of their key field |
| Sorting.FirstKeyError | app/cpt_file/cpt/imbro_file.py:183 | Key computation fails exactly when some row lacks a parseable key field |
| Sorting.KeyOf | app/cpt_file/cpt/file_conversion.py:182 | `float(x[col])` raises IndexError for a short row, ValueError for non-numeric text, and succeeds otherwise |
| XmlToCpt.CellValue | app/cpt_file/cpt/file_conversion.py:188-199 | A cell is None exactly when it reads -999999; elevation becomes the offset minus the truncated depth in millimetres, corrected_depth the truncated depth in millimetres, Rf is divided by 100, and fs and qc keep their value |
| XmlToCpt.FillMeasurementData | app/cpt_file/cpt/file_conversion.py:186-200 | The nested fill loop equals `FillSpec`: an error when some cell cannot be read, otherwise each mapped channel holds its converted column |
| XmlToCpt.FillFailsIffUnreadable | app/cpt_file/cpt/file_conversion.py:186-188 | The fill raises exactly when some row has a mapped column that is missing or not numeric, and the error is IndexError or ValueError |
| XmlToCpt.RowErrorNoneIff | app/cpt_file/cpt/file_conversion.py:187-188 | A row fails exactly when one of its mapped fields cannot be read |
| XmlToCpt.CellErrorNoneIff | app/cpt_file/cpt/file_conversion.py:186-188 | The rows fail exactly when one of them fails |
| XmlToCpt.CellErrorKind | app/cpt_file/cpt/file_conversion.py:188 | Reading the cells can only raise IndexError or ValueError |
| XmlToCpt.FillStep | app/cpt_file/cpt/file_conversion.py:187-200 | Appending one converted cell to its channel keeps the partial-row invariant of the fill loop |
| XmlToCpt.FillRowDone | app/cpt_file/cpt/file_conversion.py:186-200 | After a row's last mapped column, the channels equal the expected data of the rows read so far |
| XmlToCpt.DeriveRf | app/cpt_file/cpt/file_conversion.py:202-203 | The derivation succeeds exactly when every paired qc and fs is present and qc is non-zero; it then gives fs/qc over the shorter length |
| XmlToCpt.WithRf | app/cpt_file/cpt/file_conversion.py:202-203 | A non-empty Rf channel is kept as it is; an empty one becomes fs/qc over the zipped channels, and the conversion fails exactly when, and with the error with which, that derivation fails; the other channels are never changed |
| XmlToCpt.Separators | app/cpt_file/cpt/file_conversion.py:169-174 | A falsy TextEncoding gives "," and ";"; a truthy one gives its tokenSeparator and blockSeparator |
| XmlToCpt.MeasurementsPerChannel | app/cpt_file/cpt/file_conversion.py:159-200 | Each mapped channel is its column of the elevation-sorted rows, converted cell by cell; an unmapped channel other than Rf stays empty |
| XmlToCpt.MissingElevationRaises | app/cpt_file/cpt/file_conversion.py:181-184 | Non-empty data without a True `depth` parameter raises the "Missing elevation" UserException |
| XmlToCpt.ElevationDescends | app/cpt_file/cpt/file_conversion.py:182-193 | The elevation channel never increases along the rows: rows sorted by depth become decreasing levels under the offset |
| XmlToCpt.ElevationCellMonotone | app/cpt_file/cpt/file_conversion.py:193 | `offset - int(v*1000)` is antitone in v |
| XmlToCpt.OffsetMmIsTruncatedGroundLevel | app/cpt_file/cpt/file_conversion.py:159 | The elevation offset is the ground level in metres times 1000, truncated toward zero |
| XmlToCpt.Coordinates | app/cpt_file/cpt/file_conversion.py:235 | The coordinates are the floats of the space-separated parts of `pos`, one per part |
| XmlToCpt.FloatsOf | app/cpt_file/cpt/file_conversion.py:235 | Mapping `float` succeeds exactly when every part parses, and then keeps order and count |
| XmlToCpt.HeadersOf | app/cpt_file/cpt/file_conversion.py:221-238 | The headers exist exactly when every field they read is there and the final depth, coordinates and offset parse; name, date, height system, reference level, cone type and predrilled depth are the record's own fields, the cone geometry is the one given, corrected_depth is the final depth times 1000, and the ground level is given in metres and times 1000 with the parsed coordinates |
| XmlToCpt.ConvertXmlDictToCptDict | app/cpt_file/cpt/file_conversion.py:151-240 | The conversion succeeds exactly when `CPT_O`, the measurements, the cone geometry as the source computes it and the headers all succeed; its measurement data are the converted channels, exactly Rf, fs, qc, elevation and corrected_depth, and its headers carry that geometry |
| XmlToCpt.BroRecordLosesConeGeometry | app/cpt_file/cpt/file_conversion.py:205-226 | A converted BRO record, whose cone dimensions sit under `conePenetrometer`, has all five cone-geometry headers None |
| XmlToCpt.FloatIfPresent | app/cpt_file/cpt/file_conversion.py:205-219 | An optional header is None when the tested key is absent; otherwise it is the float read at its path, or the error of that read |
| XmlToCpt.ConeGeometryAsWrittenIsAlwaysEmpty | app/cpt_file/cpt/file_conversion.py:205-219 | The five cone-geometry headers are all None whenever the top-level record lacks their names |
| XmlToCpt.ConeTipAreaIsLost | app/cpt_file/cpt/file_conversion.py:215-216 | With a cone surface area present in the penetrometer, the code as written still reports None; the corrected reading reports it |
| XmlToCpt.SleeveQuotientReadsConeQuotient | app/cpt_file/cpt/file_conversion.py:208-209 | As written, a friction-sleeve quotient, when set, is the cone surface quotient |
| XmlToCpt.ConeGeometryOfReadsOwnFields | app/cpt_file/cpt/file_conversion.py:205-219 | In the corrected reading each geometry header is set exactly when its own penetrometer field is present, and the sleeve quotient reads the sleeve field |
| ImbroFile.HeadersOf | app/cpt_file/cpt/imbro_file.py:69-77 | The modelled header lines (FILEDATE, STARTDATE, STARTTIME, TESTID, ZID, XYID and the method and stop-criterion lines) exist exactly when the record has the fields they read; FILEDATE is the given date, TESTID the `broId`, STARTDATE and STARTTIME the characters 0-10 and 11-19 of the time position with `-` and `:` replaced by ", "; ZID, XYID, method and stop lines carry the code-table codes of the record's vocabulary |
| ImbroFile.IsoStampHeaders | app/cpt_file/cpt/imbro_file.py:71-72 | An ISO stamp `YYYY-MM-DDTHH:MM:SS…` gives STARTDATE "YYYY, MM, DD" and STARTTIME "HH, MM, SS" |
| ImbroFile.StartOfIsoRecord | app/cpt_file/cpt/imbro_file.py:71-72 | A converted record whose time position is an ISO stamp has those STARTDATE and STARTTIME lines |
| Strings.ReplaceAllInThree | app/cpt_file/cpt/imbro_file.py:71-72 | `str.replace` of a character turns three separator-free pieces joined by it into the pieces joined by the replacement |
| ImbroFile.UnknownVocabularyGivesDash | app/cpt_file/cpt/imbro_file.py:74-77 | An unknown vertical datum or coordinate transformation gives ZID and XYID lines that start with "-, " instead of failing |
| ImbroFile.TextOf | app/cpt_file/cpt/imbro_file.py:71 | String methods apply exactly to a leaf with text |
| ImbroFile.Slice | app/cpt_file/cpt/imbro_file.py:71-72 | The slice is `s[a..b]` inside the text, clamped to its end past it, and empty when it starts past the end |
| ImbroFile.BuildSelection | app/cpt_file/cpt/imbro_file.py:161-170 | The META loop equals `SelectionOf`, the columns and column info of the flagged parameters |
| ImbroFile.SelectionIsFlaggedColumns | app/cpt_file/cpt/imbro_file.py:164-170 | META fails, with IndexError, exactly when a flagged parameter has no registry entry; otherwise the columns are the flagged indexes in order, numbered 1..n |
| ImbroFile.SelectionStep | app/cpt_file/cpt/imbro_file.py:165-169 | One parameter is skipped when unflagged, raises IndexError when unregistered, and otherwise appends its index and numbered column info |
| ImbroFile.Fields | app/cpt_file/cpt/imbro_file.py:186 | A row's selected fields exist exactly when every selected column is inside the row; they are then its fields at those columns |
| ImbroFile.BuildData | app/cpt_file/cpt/imbro_file.py:179-186 | The DATA loop equals `DataOf` |
| ImbroFile.DataLines | app/cpt_file/cpt/imbro_file.py:185-186 | DATA succeeds exactly when every row covers the selected columns; its lines are then the rows' selected fields joined by ";" and ended by ";!" |
| ImbroFile.DataFailsAtShortRow | app/cpt_file/cpt/imbro_file.py:186 | A row missing a selected column makes DATA fail |
| ImbroFile.DataOfAsJoin | app/cpt_file/cpt/imbro_file.py:185-186 | DATA is the row lines, each followed by a newline |
| ImbroFile.ConvertToGefFileContent | app/cpt_file/cpt/imbro_file.py:64-189 | The conversion method equals `GefContentOf`: headers, then META, then the sorted rows, then DATA |
| ImbroFile.GefContentShape | app/cpt_file/cpt/imbro_file.py:161-188 | COLUMN counts the column info, numbered 1..n; LASTSCAN is the number of rows; the rows written are in ascending order of their first field |
| GefTemplate.StoredNsmap | app/cpt_file/cpt/gef_file.py:174-177 | A node under no or an empty parent namespace map keeps its own map; under a parent map it shares the parent's, unless its own map differs, when it keeps only its own prefixes the parent lacks |
| GefTemplate.ParseXmlTemplate | app/cpt_file/cpt/gef_file.py:166-192 | The recursive template reader equals `NodeOf` |
| GefTemplate.TemplateNodeShape | app/cpt_file/cpt/gef_file.py:170-184 | A template node keeps the element's attributes and text; a leaf holds its text; otherwise its children are keyed by full tag in first-occurrence order, and the last child with a tag wins |
| GefTemplate.TemplateChildrenInOrder | app/cpt_file/cpt/gef_file.py:181-184 | With distinct child tags, the template lists the children in document order |
| GefTemplate.ChildrenOfLastWins | app/cpt_file/cpt/gef_file.py:183-184 | A repeated child tag holds the template of its last occurrence |
| GefTemplate.TemplateNamespaces | app/cpt_file/cpt/gef_file.py:174-192 | The root's map gains the dscpt default namespace; a child that shares its parent's map, or has none, carries that map, including the root's added default when shared |
| GefTemplate.MatchFrom | app/cpt_file/cpt/gef_file.py:139-145 | A data key matches the first template tag whose local name equals it, and none when no tag has that local name |
| GefTemplate.FillValue | app/cpt_file/cpt/gef_file.py:136-155 | Filling keeps the template's skeleton; a leaf template only takes an empty dictionary |
| GefTemplate.FillValueAt | app/cpt_file/cpt/gef_file.py:137-154 | An unmatched template entry keeps its default; a matched one takes the data's value at that entry |
| GefTemplate.FillSkipsUnmatched | app/cpt_file/cpt/gef_file.py:146-148 | Data keys matching no template tag are skipped without changing the template |
| GefTemplate.FillFromAt | app/cpt_file/cpt/gef_file.py:137-154 | An entry's value comes from the one data item matching it, if any; otherwise it stays as filled before |
| GefTemplate.FillFrom | app/cpt_file/cpt/gef_file.py:137-155 | The fill loop keeps the template's keys and node attributes |
| GefTemplate.ReformatUsingTemplate | app/cpt_file/cpt/gef_file.py:129-135 | Only the root entry's value is filled, from the whole data dictionary; the rest of the top level is kept; an empty template raises IndexError |
| GefTemplate.SetValueSkeleton | app/cpt_file/cpt/gef_file.py:151-154 | Assigning an entry's value keeps the template's keys, attributes, namespaces and defaults |
| GefTemplate.BuildElement | app/cpt_file/cpt/gef_file.py:116-125 | An element takes its tag, attributes and namespaces from the entry; a leaf gets its rendered text, a dictionary gets one child per entry in order |
| GefTemplate.BuildXml | app/cpt_file/cpt/gef_file.py:113-126 | The built tree is absent exactly for an empty dictionary; otherwise the root is the last top-level entry |
| GefTemplate.FlattenOfBuilt | app/cpt_file/cpt/gef_file.py:113-126 | Re-reading a built element gives back its leaf text, or a dictionary keyed by the local names of its entries |
| GefFile.YesNo | app/cpt_file/cpt/gef_file.py:19-20 | "ja" exactly when the channel is in the measurement data, and "nee" exactly when it is not |
| GefFile.NaiveTimeSplitsSeconds | app/cpt_file/cpt/gef_file.py:31 | With the naive clock the source uses, the registration time has "::" at positions 16-17, cutting the seconds in two |
| GefFile.NaiveTimeExample | app/cpt_file/cpt/gef_file.py:73 | "2024-05-01T12:30:45" becomes "2024-05-01T12:30::45" |
| GefFile.AwareTimeHasOffset | app/cpt_file/cpt/gef_file.py:73-75 | With a "+HHMM" offset present, the registration time is the clock followed by "+HH:MM" |
| GefFile.FirstMissing | app/cpt_file/cpt/gef_file.py:33-77 | Nothing is missing exactly when every header is present; otherwise the first absent header in read order is named |
| GefFile.FetchHeaders | app/cpt_file/cpt/gef_file.py:32-79 | Reading succeeds exactly when nothing is missing, gives the headers' values in order, and otherwise raises the "missing parameter" UserException naming the first absent one |
| GefFile.Milli | app/cpt_file/cpt/gef_file.py:53 | `x * 0.001` is defined for numbers only and gives the value over 1000 |
| GefFile.PositionText | app/cpt_file/cpt/gef_file.py:69 | The position is the coordinates' texts joined by spaces; it is defined for a list or a text only |
| GefFile.DataFieldsOf | app/cpt_file/cpt/gef_file.py:32-79 | A missing header raises the "missing parameter" UserException naming the first one read, a missing `x_y_coordinates` names that one; success holds exactly when all 13 headers are there, `corrected_depth` is a number and the position is a list or text, and then gives the 13 header values in read order, the final depth with `finalDepth * 1000 == corrected_depth`, and the joined position text |
| GefFile.ParametersSection | app/cpt_file/cpt/gef_file.py:55-62 | depth and penetrationLength are "ja"; the other four flags are "ja" exactly when their channel is present and "nee" exactly when it is absent |
| GefFile.MeasurementStandard | app/cpt_file/cpt/gef_file.py:81-86 | No standard means no entries; a successful standard is one text split at "/" into exactly two parts, each stripped |
| GefFile.MeasurementStandardOfPair | app/cpt_file/cpt/gef_file.py:83-86 | "A/B" with no further "/" gives the stripped pair; a second "/" makes the unpacking raise ValueError |
| GefFile.Linspace | app/cpt_file/cpt/gef_file.py:91-92 | n evenly spaced values from 0 to the stop value, first 0 and last the stop |
| GefFile.Broadcast | app/cpt_file/cpt/gef_file.py:94-100 | A row assignment takes a channel of length n elementwise, broadcasts a single value, and otherwise raises ValueError |
| GefFile.RfPercent | app/cpt_file/cpt/gef_file.py:100 | Each present friction ratio is multiplied by 100; missing ones stay missing |
| GefFile.ChannelColumn | app/cpt_file/cpt/gef_file.py:93-100 | An absent channel leaves its column unset; a present one is broadcast into it, Rf in percent |
| GefFile.HeaderMilli | app/cpt_file/cpt/gef_file.py:91-92 | A depth header read in metres is defined for a present number only, raises AttributeError when absent, and is the value over 1000 |
| GefFile.ValueColumns | app/cpt_file/cpt/gef_file.py:89-100 | The block has 25 columns of the fs length; columns outside 0, 1, 3, 15, 18, 24 stay unset, columns 0 and 1 are the evenly spaced depths from 0 to the penetration length and depth in metres, columns 3, 15, 18 and 24 are qc, inclination, fs and Rf in percent; it fails exactly when a depth header or a channel broadcast fails, and without fs it raises AttributeError |
| GefFile.AssembleColumns | app/cpt_file/cpt/gef_file.py:90-100 | The filled columns land at their positions and every other column is unset |
| GefFile.TextRows | app/cpt_file/cpt/gef_file.py:103-104 | One row per sample with 25 cells; each cell is "-999999" for an unset value and the 3-decimal text otherwise |
| GefFile.EncodeValueBlock | app/cpt_file/cpt/gef_file.py:102-104 | The loop over the transposed block equals the ","/";"-encoding of the text rows |
| GefFile.CellTextReadsBack | app/cpt_file/cpt/gef_file.py:104 | A cell never contains a separator and reads back as -999999 for unset, else as the value rounded to 3 decimals |
| GefFile.ValueBlockReadsBack | app/cpt_file/cpt/gef_file.py:102-105 | Reading the written block back as the XML reader does gives exactly the rows, and every cell parses to the sentinel or the rounded value |
| GefFile.ConvertToImbroFileContent | app/cpt_file/cpt/gef_file.py:28-108 | The conversion method equals `ImbroContentOf`: data fields, standard, value block, template overlay, element tree |
| GefFile.FilledTemplateRoot | app/cpt_file/cpt/gef_file.py:107-108 | The built document has the template root's tag and attributes, and its children are the template root's children in template order |
| GefFile.ImbroContentRoot | app/cpt_file/cpt/gef_file.py:28-108 | A successful conversion yields a document shaped by the template: same root tag and attributes, the template's top-level children in order |
| ParamsFilter.RowCount | app/cpt_file/soil_layout_conversion_functions.py:59 | `zip` yields no more rows than any channel holds, and none without channels |
| ParamsFilter.RowCountIsShortest | app/cpt_file/soil_layout_conversion_functions.py:59 | With channels, some channel holds exactly as many values as `zip` yields rows, so together with `RowCount` the row count is the shortest channel's length |
| ParamsFilter.OkRowsFrom | app/cpt_file/soil_layout_conversion_functions.py:59-61 | Every row listed is in range and free of None |
| ParamsFilter.KeepsNoneFreeRowsInOrder | app/cpt_file/soil_layout_conversion_functions.py:56-65 | The kept rows are exactly the None-free zipped rows, in increasing order; each channel becomes its values at those rows, followed by its unzipped tail |
| ParamsFilter.NoNoneLeft | app/soil_layout_conversion_functions.py:44-53 | After filtering, every zipped row is None-free and their number is the number of None-free rows before |
| ParamsFilter.FilterNonesOf | app/cpt_file/soil_layout_conversion_functions.py:63-64 | The channels keep their names and order |
| ParamsFilter.DeleteStep | app/cpt_file/soil_layout_conversion_functions.py:62-64 | Deleting a recorded row, highest first, extends the deleted state to that row |
| ParamsFilter.KeptFromAt | app/cpt_file/soil_layout_conversion_functions.py:59-64 | The kept part of a channel is its values at the None-free rows, in order |
| ParamsFilter.RawDict.constructor | app/cpt_file/model.py:68 | The record holds the given measurement data |
| ParamsFilter.RecordNoneRows | app/cpt_file/model.py:70-73 | The recorded indices are increasing, and they are exactly the zipped rows that hold a None |
| ParamsFilter.DeleteRow | app/cpt_file/model.py:75-76 | Deleting one row from every channel moves the deleted state down to that row |
| ParamsFilter.FilterNonesFromParamsDict | app/cpt_file/model.py:67-77 | In place, the record's measurement data becomes `FilterNonesOf` of the old data, and the same record is returned |
| SoilLayout.ChainShape | app/cpt_file/soil_layout_conversion_functions.py:81-93 | Chaining succeeds exactly when every soil name is known; each layer then runs from its own top to the next row's top (the last to the user's bottom); otherwise the last unknown name raises the "not available" UserError |
| SoilLayout.ChainOkIff | app/soil_layout_conversion_functions.py:70-81 | Chaining succeeds exactly when every soil name is in the soil table |
| SoilLayout.ChainLayersAt | app/soil_layout_conversion_functions.py:70-82 | One layer per table row, in table order, each with its soil and its top and bottom |
| SoilLayout.ChainError | app/cpt_file/soil_layout_conversion_functions.py:83-92 | The reverse walk reports the unknown name nearest the bottom |
| SoilLayout.InMm | app/cpt_file/soil_layout_conversion_functions.py:47-53 | Every layer keeps its soil, and its top and bottom are multiplied by 1000 |
| SoilLayout.InM | app/cpt_file/soil_layout_conversion_functions.py:38-44 | Every layer keeps its soil, and its top and bottom are divided by 1000 |
| SoilLayout.UnitRoundTrip | app/soil_layout_conversion_functions.py:26-41 | m → mm → m and mm → m → mm are identities |
| SoilLayout.ConvertSoilLayoutFromMeterToMm | app/soil_layout_conversion_functions.py:35-41 | The loop over the layers equals `InMm` |
| SoilLayout.ConvertSoilLayoutFromMmToMeter | app/soil_layout_conversion_functions.py:26-32 | The loop over the layers equals `InM` |
| SoilLayout.ConvertInputTableFieldToSoilLayout | app/cpt_file/soil_layout_conversion_functions.py:68-94 | The reverse loop equals `SoilLayoutOf`: the chained layers converted to millimetres |
| SoilLayout.LayoutTopsAreTableTops | app/soil_layout_conversion_functions.py:56-82 | Back in metres, the layout has one layer per row, and each layer's top is that row's top |
| SoilLayout.ColorOf | app/cpt_file/soil_layout_conversion_functions.py:107 | `Color(*rgb)` succeeds exactly with three components, in order |
| SoilLayout.ParseInts | app/cpt_file/soil_layout_conversion_functions.py:108 | `int()` of every part succeeds exactly when all parse, keeps order, and otherwise raises ValueError |
| SoilLayout.ConvertToColor | app/soil_layout_conversion_functions.py:92-96 | A tuple goes to `Color(*rgb)`; a value that is neither tuple nor text raises AttributeError for `strip` |
| SoilLayout.ColorTextRoundTrip | app/cpt_file/soil_layout_conversion_functions.py:104-108 | The text "r,g,b", with any whitespace after the commas, converts back to the colour (r, g, b) |
| SoilLayout.EnrichedRowFields | app/cpt_file/soil_layout_conversion_functions.py:123-128 | A row gets gamma_dry_min/max, gamma_wet_min/max and ui_name from its own fields, keeping the rest; the first missing of `gamma_dry`, `gamma_wet`, `name`, in that order, raises KeyError naming it |
| SoilLayout.FirstFailure | app/cpt_file/soil_layout_conversion_functions.py:123 | The first row at which the per-row update raises, or none when every row succeeds |
| SoilLayout.UpdateRows | app/cpt_file/soil_layout_conversion_functions.py:121-137 | In place, rows up to and including the first failing one are updated (the failing one partially), later rows are untouched; the error is that row's, and success returns the same table |
| SoilLayout.UpdateClassificationTable | app/soil_layout_conversion_functions.py:109-117 | The in-place gamma and ui_name enrichment of every row, up to the first row lacking a field |
| SoilLayout.ColoredRowFields | app/cpt_file/soil_layout_conversion_functions.py:134-136 | A row's colour becomes a Color, converted when it was not one; other fields are kept; a missing or unconvertible colour raises |
| SoilLayout.UpdateColorString | app/soil_layout_conversion_functions.py:120-125 | The in-place colour conversion of every row, up to the first failing row |
| SoilLayout.MethodKind | app/cpt_file/soil_layout_conversion_functions.py:159-163 | Only "robertson" and "table" are methods; any other name raises the "not yet implemented" UserError carrying that name |
| SoilLayout.Classification.constructor | app/cpt_file/soil_layout_conversion_functions.py:146-148 | The object holds the chosen method name and that method's table |
| SoilLayout.Classification.Method | app/cpt_file/soil_layout_conversion_functions.py:150-163 | Robertson gets the colour-converted table; table gets the enriched table and the ground-water level; with a table present, the method succeeds exactly when every row updates, and otherwise raises the first failing row's error with the rows up to it updated and the later rows untouched; an unknown name raises UserError, a missing table TypeError |
| SoilLayout.GetWaterLevel | app/cpt_file/soil_layout_conversion_functions.py:111-118 | A present water level is used as is; otherwise it is 1 m below ground level (level/1000 − 1), and AttributeError when ground level is missing too |

## Left out

- Reading and writing files, lxml parsing and serialisation, the Jinja rendering
  of the GEF template, and the web-platform objects (`File`, `SoilLayout`,
  `RobertsonMethod`, `TableMethod`) are outside the model. XML is an abstract
  element tree. The GEF output stops at the three structures the template is
  rendered from. The built IMBRO tree is an `Element` value, not serialised bytes.
- Clocks are parameters: `FILEDATE` is passed in as text, and the registration
  time is a clock text plus the `%z` offset text.
- `str(float)` is a parameter (`show`). Python floats are exact reals, so
  rounding error in `x * 0.001`, `/ 100`, `fs / qc` and `linspace` is not
  modelled. `'{:.3f}'` is exact round-half-even. `float()` accepts plain
  decimal text only, without exponents, `inf` or `nan`.
- Python's whitespace and case mapping are restricted to ASCII.
- `sorted` is modelled as a sort proved sorted and a permutation of its input.
  Its stability, the order of rows with equal keys, is not stated.
- The `MEASUREMENTTEXT` and `MEASUREMENTVAR` header lists of the GEF output
  are not modelled, apart from the code-table lines 12 and 17 and the header
  lines ZID, XYID, STARTDATE, STARTTIME and TESTID.
- ImbroFile.HeadersOf: the other fields these lists read (about 45 of them,
  imbro_file.py:78-157) each raise AttributeError when the record lacks them;
  the model reads only the fields of the modelled lines, so it converts records
  that the source rejects for one of those missing fields.
- ImbroFile.Show: a record or list given as the `ZID` offset would print as
  its Python repr; the model shows a fixed placeholder instead. A BRO offset is
  a leaf, so this does not arise for a well-formed record.
- The diagnostic printed for a data key that matches no template tag is not
  modelled; only the skip is.
- The data dictionary of the GEF → XML conversion is assembled once, with the
  encoded value block in place. The source first stores `''` and assigns the
  block later. The content is the same.
- In `_parse_xml_template` a child receives its parent's namespace map as the
  same dictionary object, so the root's later `[None] = ...` shows through the
  children sharing it. The model states this sharing as a flag
  (`SharesRoot`) rather than as aliasing.
- Munch semantics are modelled as attribute access that raises AttributeError
  for a missing key. Falsy checks count a leaf with empty or missing text as false.
- `IMBROFile.parse`, `from_file`, `convert_soil_layout_to_input_table_field`,
  `Classification.soil_mapping` and `get_table_plot` read or build
  platform objects and are not modelled.
- Colour components are not range-checked; the platform's `Color` does that.
- `ParamsFilter.FilterNonesFromParamsDict` is modelled once for its three
  identical copies: `app/cpt_file/model.py:67-77`,
  `app/cpt_file/soil_layout_conversion_functions.py:56-65` and
  `app/soil_layout_conversion_functions.py:44-53`.

## Findings

| source | as written | input that shows it | evidently intended | confidence | as-written member | corrected member |
|---|---|---|---|---|---|---|
| app/cpt_file/cpt/file_conversion.py:205-219 | The five cone-geometry headers are set only when their names are keys of the top-level `CPT_O` record. Those fields live under `conePenetrometerSurvey.conePenetrometer`, so the headers are always None. The friction-sleeve quotient also reads `coneSurfaceQuotient`. | A BRO record whose `conePenetrometer` has `coneSurfaceArea` 1500 and `frictionSleeveSurfaceQuotient` 0.8 gives `cone_tip_area` None and `surface_area_quotient_friction_sleeve` None. | Test presence in the penetrometer record and read each header from its own field. | not executed | XmlToCpt.ConeTipAreaIsLost | XmlToCpt.ConeGeometryOfReadsOwnFields |
| app/cpt_file/cpt/gef_file.py:31 | `datetime.now()` is naive, so `%z` is empty. Inserting ":" before the last two characters then splits the seconds instead of the offset. | A clock of 2024-05-01 12:30:45 gives "2024-05-01T12:30::45". | A timezone-aware time with "+HH:MM" offset, e.g. "2024-05-01T12:30:45+02:00". | not executed | GefFile.NaiveTimeSplitsSeconds | GefFile.AwareTimeHasOffset |

`XmlToCpt.ConvertXmlDictToCptDict` composes the cone dimensions as the source
computes them (`ConeGeometryAsWritten`), so `BroRecordLosesConeGeometry` holds
of the conversion itself. `ConeGeometryOf` is the corrected reading, kept
beside it. The registration time of the GEF → XML conversion takes the `%z`
text as a parameter, so the naive clock's empty offset is one of its inputs.
