# Gantt import and layout of the project tracker, in Dafny

This project models the deterministic core of a Django project tracker. Projects have work lines, activities, dissemination activities, date ranges (Fecha) and owners (Encargado). It covers three parts.

- **The two spreadsheet importers.**
  - `backend/excel/import_gantt.py` reads the normal table under two-level headers and the dissemination table under its own header row.
  - `backend/proyectos/import_gantt.py` reads one sheet whose "Difusión" row separates normal rows from dissemination rows.
  - Both turn a left-to-right run of (month name, day) header columns into calendar dates. The year rolls over when the month number drops.
  - Each finds the columns of a row marked with an `x`. The first importer turns them into maximal blocks; the second takes the earliest and latest marked date.
  - Each fills the work line down the sheet, splits owner cells on the letter `y`, and keeps the project's earliest start and latest end.
  - The records an import creates are modelled as the values it would store: the project, its work lines, the products it looks up or creates (also for rows that then create no activity), its activities with their ranges, and each activity's owners, products and lines, each linked once. An exception is an `Err`, and nothing is stored, since the first importer runs in a transaction.
- **The Gantt layout engine** (`backend/vistas/gantt.py`).
  - It pads the project's days out to whole Monday–Sunday weeks, with a spare week on each side, and emits one column per week.
  - For each complete date range of each activity, it computes a week-aligned bar at 100 px per week and a monthly bar at 35 px per week, at least 25 px wide.
  - `_calcular_posiciones_actividades` writes `periodos_calculados` into each activity dict in place. It is a method on a `ChartActivity` class with a `modifies` clause.
- **The view-side preparation** (`backend/vistas/views.py`).
  - `vista_gantt` keeps the active ranges and widens a zero-length range by one day.
  - It names unnamed activities `Actividad {id}` / `Actividad Difusión {id}`.
  - It lists normal activities before dissemination ones, then sorts the list stably by the start of the first range. The sort is an in-place insertion sort on an array.
  - `lista_actividades` does the same naming and puts "No asignado" in place of an empty owner list.

## How the model represents the source

- **Dates** are `date.toordinal()` numbers: 0001-01-01 is day 1, a Monday (module `Calendar`).
  - `date(y, m, d)` is partial and returns `None` where Python raises `ValueError`.
  - Date arithmetic past 9999-12-31 returns `None` where Python raises `OverflowError`.
- **Spreadsheet cells** are `Blank` (NaN), `Text` or `Number` (module `Sheet`). `str(NaN)` is `"nan"`.
- **Python dicts** are insertion-ordered association lists (module `Dict`). Assigning to a present key keeps its place.
- **Row loops** are methods, each proved equal to a recursive specification function. The properties are lemmas about that function.
- **Time.** "Today" and the current year (`datetime.now()`) are parameters.

### Two behaviours the lemmas make explicit

- The Excel importer's flattening of the date mapping (`backend/excel/import_gantt.py:339-345`) keys each date by its day-number sub-header only.
  - Two months' columns for the same day number therefore collapse into one key, which carries the later month's date (`ExcelActivities.FlattenMergesDays`).
  - The model follows the code.
- In `backend/proyectos/import_gantt.py`, dissemination activities never move the project's dates: only the normal loop updates `min_fecha` / `max_fecha`. In the Excel importer they do widen them.
  - `ProjectImport.ImportBounds` states the first behaviour; `ExcelActivities.ImportWidens` states the second.

## Model

| member | source | states |
|---|---|---|
| Calendar.MakeDate | backend/excel/import_gantt.py:64 | date(y, m, d) succeeds exactly on a valid date, giving an ordinal in 1..3652059 that FromOrdinal maps back to (y, m, d); otherwise ValueError (None) |
| Calendar.Weekday | backend/vistas/gantt.py:69 | date.weekday() lies in 0..6 with Monday 0: n - weekday(n) - 1 is a multiple of 7 since day 1 is a Monday |
| Calendar.FromOrdinal | backend/excel/import_gantt.py:64 | date.fromordinal(n) is a valid date whose ordinal is n: the inverse of toordinal |
| Calendar.FindYear | backend/excel/import_gantt.py:64 | the year containing day n: the first year whose end is not before n |
| Calendar.FindMonth | backend/excel/import_gantt.py:64 | the month of year y containing day-of-year doy |
| Calendar.OrdinalUnique | backend/excel/import_gantt.py:64 | toordinal is injective: FromOrdinal recovers every valid date from its ordinal |
| Calendar.SameOrdinal | backend/excel/import_gantt.py:64 | two valid dates with the same ordinal are the same date |
| Calendar.OrdinalInRange | backend/excel/import_gantt.py:64 | every valid date's ordinal lies in 1..3652059 and inside its year |
| Calendar.MonthsOrdered | backend/excel/import_gantt.py:59-64 | within a year, an earlier month ends before a later month begins |
| Calendar.OrdinalBefore | backend/excel/import_gantt.py:214-217 | a date earlier in (year, month, day) order has the smaller ordinal |
| Calendar.OrdinalOrder | backend/excel/import_gantt.py:214-217 | comparing two dates (`<` in the source) is comparing their ordinals |
| Calendar.IsoDateOrder | backend/vistas/views.py:84 | Python's string order on the '%Y-%m-%d' texts of two days is the order of the days, and two days share a text only when equal |
| Calendar.IsoDateMax | backend/vistas/views.py:84 | the last representable day is written '9999-12-31', the sort's stand-in for a missing start |
| Strings.StripShape | backend/excel/import_gantt.py:132 | str.strip() returns the middle of the string with no whitespace at either end and only whitespace cut off |
| Strings.StripNoOp | backend/excel/import_gantt.py:226 | a string with no whitespace at its ends is its own strip |
| Strings.LowerLower | backend/proyectos/import_gantt.py:131 | str.lower() is idempotent |
| Strings.StripLower | backend/proyectos/import_gantt.py:131 | an already stripped string stays stripped once lower-cased |
| Strings.LowerIsIff | backend/excel/import_gantt.py:132 | s.lower() == w holds iff it holds character by character |
| Strings.Split | backend/excel/import_gantt.py:225 | str.split(sep) gives at least one piece, none containing sep, and joining the pieces with sep gives back the string |
| Strings.SplitJoin | backend/excel/import_gantt.py:225 | splitting the join of separator-free pieces gives back the pieces |
| Strings.SplitOfSepFree | backend/excel/import_gantt.py:225 | a string without the separator splits into itself alone |
| Strings.NatToString | backend/vistas/views.py:47 | str(n) is a non-empty run of digits without a leading zero whose value is n |
| Strings.ParseIntToString | backend/excel/import_gantt.py:55 | int(str(i)) == i for every integer |
| Strings.StrLessConcat | backend/vistas/views.py:84 | Python's string order on two texts with equal-length heads compares the heads first and the tails only on a tie |
| Strings.Pad2Order | backend/vistas/views.py:40 | two-digit zero-padded numbers compare as text the way they compare as numbers |
| Strings.Pad4Order | backend/vistas/views.py:40 | four-digit zero-padded numbers compare as text the way they compare as numbers |
| Sheet.MarkedIsLowerStrip | backend/excel/import_gantt.py:132-133 | a cell counts as marked exactly when str(value).strip().lower() == 'x' |
| Sheet.LowerX | backend/excel/import_gantt.py:133 | only "x" and "X" lower to "x" |
| Sheet.ToIntTruthy | backend/excel/import_gantt.py:134 | a cell that int() reads as a non-zero number is truthy |
| Sheet.StripStrip | backend/excel/import_gantt.py:226 | strip is idempotent |
| Sheet.NonEmptyStrippedMembers | backend/excel/import_gantt.py:266 | [p.strip() for p in pieces if p.strip()] keeps exactly the non-empty stripped pieces |
| Sheet.SplitNamesClean | backend/excel/import_gantt.py:225-227 | every name from a list cell is non-empty, stripped and free of the separator; every non-blank piece gives a name; the pieces join back to str(value) |
| Sheet.StripSubstring | backend/excel/import_gantt.py:226 | every character of s.strip() is a character of s |
| Dict.Get | backend/excel/import_gantt.py:212-213 | d.get(k) is None exactly when k is not a key |
| Dict.Put | backend/excel/import_gantt.py:64 | d[k] = v: k now maps to v, other keys keep their values, a present key keeps its place and a new key goes last |
| Dict.PutDistinct | backend/excel/import_gantt.py:64 | assignment never duplicates a key |
| Dict.FromPairs | backend/excel/import_gantt.py:44-64 | the dict built by successive assignments has distinct keys |
| Dict.FromPairsSnoc | backend/excel/import_gantt.py:64 | one more assignment is one more Put |
| Dict.FromPairsGet | backend/excel/import_gantt.py:64 | later assignments win: a key maps to the value of its last assignment |
| Dict.FromPairsKeys | backend/excel/import_gantt.py:64 | a key is present exactly when some assignment carries it |
| Dict.LastValueAt | backend/excel/import_gantt.py:342 | the last assignment to a key gives its value |
| Dict.FromPairsAtMost | backend/excel/import_gantt.py:340-342 | each assignment adds at most one key |
| Dict.FromPairsMerges | backend/excel/import_gantt.py:340-342 | two assignments to the same key leave fewer keys than assignments |
| Bounds.Earlier | backend/excel/import_gantt.py:218-219 | one step of the start accumulator yields a value no later than the new start or the old value, and equal to one of them |
| Bounds.Later | backend/excel/import_gantt.py:220-221 | one step of the end accumulator yields a value no earlier than the new end or the old value, and equal to one of them |
| Bounds.MinStartIsLeast | backend/excel/import_gantt.py:218-219 | the accumulated start is None iff there is no range; otherwise it is some range's start and no range starts earlier |
| Bounds.MaxEndIsGreatest | backend/excel/import_gantt.py:220-221 | the accumulated end is None iff there is no range; otherwise it is some range's end and no range ends later |
| Bounds.FoldStartFrom | backend/excel/import_gantt.py:306-307 | folding from an initial start is the earlier of it and the minimum start |
| Bounds.FoldEndFrom | backend/excel/import_gantt.py:308-309 | folding from an initial end is the later of it and the maximum end |
| Bounds.FoldAppend | backend/excel/import_gantt.py:306-309 | folding over two lists of ranges is folding over the second from the first's result |
| Bounds.FoldWidens | backend/excel/import_gantt.py:306-309 | further ranges never raise the start nor lower the end |
| Bounds.SeqMin | backend/proyectos/import_gantt.py:109 | min() of a non-empty list is an element no larger than any element |
| Bounds.SeqMax | backend/proyectos/import_gantt.py:110 | max() of a non-empty list is an element no smaller than any element |
| DateColumns.MonthNumber | backend/excel/import_gantt.py:24-27 | MES_MAP.get(name, 1): a known Spanish month name gives its number, anything else 1 |
| DateColumns.ScanShape | backend/excel/import_gantt.py:48-64 | the kept columns are exactly those whose day is an integer, in column order, each keeping its day and the month its header names |
| DateColumns.EntryAt | backend/excel/import_gantt.py:49-59 | each kept column keeps its position, its integer day and the month number of its header |
| DateColumns.ScanOrdered | backend/excel/import_gantt.py:48 | kept columns come in strictly increasing column order |
| DateColumns.ScanComplete | backend/excel/import_gantt.py:54-57 | every column whose day is an integer is kept |
| DateColumns.ScanLast | backend/excel/import_gantt.py:45-62 | the scan's year and previous month are those of the last kept column, or the initial year and 0 while none is kept, so skipped columns leave them alone |
| DateColumns.YearRollover | backend/excel/import_gantt.py:59-62 | the year starts at the initial year and rises by exactly one at each kept column whose month is below the previous kept column's month, and otherwise stays |
| DateColumns.YearMonthOrdered | backend/excel/import_gantt.py:59-64 | (year, month) never goes backwards along the kept columns, and no year is below the initial one |
| DateColumns.DateMap | backend/excel/import_gantt.py:48-66 | the mapping exists exactly when every kept column names a real date (date() raises ValueError otherwise) |
| DateColumns.DateMapKeys | backend/excel/import_gantt.py:54-64 | the mapping's keys are exactly the keys of the columns whose day is an integer |
| DateColumns.DateMapValues | backend/excel/import_gantt.py:64 | each key maps to the date of the last kept column carrying it |
| DateColumns.DatedAt | backend/excel/import_gantt.py:64 | each assignment pairs a kept column's key with date(year, month, day) for that column |
| DateColumns.DateMapEmpty | backend/excel/import_gantt.py:155-156 | the mapping is empty exactly when no column has an integer day |
| DateColumns.InvalidPrefix | backend/excel/import_gantt.py:64 | an impossible date at any kept column fails the whole mapping |
| DateColumns.MapDates | backend/proyectos/import_gantt.py:24-46 | the loop with its mutable year, previous month and dict computes DateMap |
| DateColumns.MapColumn | backend/proyectos/import_gantt.py:29-44 | one column of the loop: skipped, kept with its date (rolling the year over when the month drops), or the whole mapping fails |
| Blocks.ScanKeepsInv | backend/excel/import_gantt.py:131-140 | after every column, closed blocks are sound and maximal, the open block starts after an unmarked column and is marked so far, and every marked column is covered |
| Blocks.RunsSoundMaximal | backend/excel/import_gantt.py:131-145 | from the scan invariant: every block is marked throughout and maximal, and neighbouring blocks are separated by a gap |
| Blocks.RunsCover | backend/excel/import_gantt.py:131-145 | from the scan invariant and soundness: a column is marked iff a block covers it |
| Blocks.RunsCorrect | backend/excel/import_gantt.py:125-145 | each returned block (a, b) has a <= b with every column from a to b marked; the columns just outside it are unmarked or off the row; blocks are in left-to-right order with a gap between neighbours; a column is marked iff some block covers it |
| Blocks.RunsInRow | backend/excel/import_gantt.py:138-143 | every block lies inside the row |
| Blocks.NoMarksNoRuns | backend/excel/import_gantt.py:142-145 | a row with no x yields no block |
| ExcelImport.InfoColumns | backend/excel/import_gantt.py:103-108 | the information columns are exactly the pair columns whose sub-header is one of the four names |
| ExcelImport.ValidateNormalColumns | backend/excel/import_gantt.py:98-113 | FormatoInvalidoError exactly when no column is an information column; otherwise the information columns |
| ExcelImport.Without | backend/excel/import_gantt.py:153 | the date columns are exactly the columns that are not information columns |
| ExcelImport.FirstMissing | backend/excel/import_gantt.py:120-122 | the first required name that is not a column, or none when all are present |
| ExcelImport.ValidateDisseminationColumns | backend/excel/import_gantt.py:116-123 | success iff all four required dissemination columns are present; otherwise FormatoInvalidoError naming a missing one, the first in checking order |
| ExcelImport.MapDateColumns | backend/excel/import_gantt.py:42-66 | obtener_fechas_reales computes the date mapping from the current year, or the ValueError of an impossible date |
| ExcelImport.KeyRuns | backend/excel/import_gantt.py:138-143 | blocks are reported by column key, one pair per run of positions |
| ExcelImport.BlockDone | backend/excel/import_gantt.py:142-145 | after the last column, closing the open block gives the row's blocks |
| ExcelImport.BlockColumn | backend/excel/import_gantt.py:131-140 | one column of detectar_bloques_x: a mark opens a block when none is open, an unmarked column closes the open one at the previous column |
| ExcelImport.DetectBlocks | backend/excel/import_gantt.py:125-145 | detectar_bloques_x returns the row's maximal marked blocks by key; KeyError exactly when some date column is missing from the row |
| ExcelActivities.ResolveMembers | backend/excel/import_gantt.py:211-215 | a range is stored exactly when some block has that date at its first column and that date at its last |
| ExcelActivities.ResolveAll | backend/excel/import_gantt.py:211-215 | when every block end has a date, every block gives a range |
| ExcelActivities.AddRanges | backend/excel/import_gantt.py:211-221 | the block loop stores the resolved ranges in block order and folds them into the running start and end |
| ExcelActivities.OwnerNames | backend/excel/import_gantt.py:224-234 | no owners for NaN; otherwise every owner is a non-empty trimmed piece of the cell split on 'y', every piece has an owner equal to it in any case, and no two owners are equal in any case, since the iexact lookup and the link's get_or_create link each person once |
| ExcelActivities.FindNoCase | backend/excel/import_gantt.py:192 | filter(nombre__iexact=name).first() finds a record exactly when one matches in any case, and then the earliest |
| ExcelActivities.AddNoCase | backend/excel/import_gantt.py:191-194 | the lookup and create adds the name exactly when no earlier record matches it in any case, keeps the earlier ones, and keeps the records pairwise different in any case |
| ExcelActivities.AddAllNoCase | backend/excel/import_gantt.py:267-274 | the lookup and create for each name: every name is matched afterwards, only given names are added, and the records stay pairwise different in any case |
| ExcelActivities.AddLine | backend/excel/import_gantt.py:184-187 | get_or_create of a work line adds the name once and keeps the earlier lines, so no line is stored twice |
| ExcelActivities.AddLines | backend/excel/import_gantt.py:281-287 | get_or_create for each listed line: the lines are the old ones plus the new names, without duplicates |
| ExcelActivities.NormalRow | backend/excel/import_gantt.py:170-234 | one row only appends (at most one activity) and fails only with KeyError |
| ExcelActivities.NormalRowsErrSticks | backend/excel/import_gantt.py:170 | an error ends the loop: later rows change nothing |
| ExcelActivities.NormalRowBounds | backend/excel/import_gantt.py:214-221 | one row keeps the running bounds equal to the min start and max end of all ranges stored so far |
| ExcelActivities.NormalRowProducts | backend/excel/import_gantt.py:190-201 | a row past the line check looks up or creates its product before the activity and date tests, so a row that creates no activity still leaves the product; the activity is linked to the earliest product matching its cell in any case, or to none for NaN |
| ExcelActivities.NormalRowsProducts | backend/excel/import_gantt.py:170-206 | after the normal loop the products are pairwise different in any case and every activity's product is one of them |
| ExcelActivities.LastLineIsLatest | backend/excel/import_gantt.py:179-180 | the filled-down line is the line cell of the latest row that has one; none while every line cell is NaN |
| ExcelActivities.NormalRowsInv | backend/excel/import_gantt.py:164-234 | after the loop the bounds are the min start and max end over the stored ranges, the filled-down line is the latest line cell, and the only error is KeyError |
| ExcelActivities.NoLineNothing | backend/excel/import_gantt.py:181-182 | rows before the first line value create no line, no activity and no date |
| ExcelActivities.NormalRowsOk | backend/excel/import_gantt.py:200 | when every row has every date column, there is no KeyError |
| ExcelActivities.UnmarkedRowSkipped | backend/excel/import_gantt.py:200-202 | a row without any x creates no activity and leaves the bounds alone |
| ExcelActivities.NormalRowStep | backend/excel/import_gantt.py:170-234 | the imperative row body computes NormalRow |
| ExcelActivities.CreateNormalActivities | backend/excel/import_gantt.py:150-241 | crear_proyecto_con_actividades_normales computes ImportNormals: column check, date mapping, "no date column" error, row loop, and project dates set to the bounds |
| ExcelActivities.DisseminationName | backend/excel/import_gantt.py:255-260 | a row is skipped exactly when its activity cell is NaN or blank once stripped; otherwise the stripped, non-empty name |
| ExcelActivities.DisseminationRow | backend/excel/import_gantt.py:254-324 | one row only appends, fails only with KeyError, leaves the project dates alone when it creates nothing, and otherwise folds the new ranges into them |
| ExcelActivities.DisseminationRowsErrSticks | backend/excel/import_gantt.py:254 | an error ends the loop: later rows change nothing |
| ExcelActivities.DisseminationRowBounds | backend/excel/import_gantt.py:305-309 | one row keeps the project dates equal to the initial ones folded with every range stored since |
| ExcelActivities.DisseminationRowProducts | backend/excel/import_gantt.py:265-289 | a row links its activity once to each product and each line it names, the products pairwise different in any case, and afterwards every named product is matched by one of the project's |
| ExcelActivities.DisseminationRowsProducts | backend/excel/import_gantt.py:254-277 | the dissemination loop keeps the project's products, adds only unmatched ones, and every linked product matches one of them |
| ExcelActivities.DisseminationRowsInv | backend/excel/import_gantt.py:254-324 | after the loop the project dates are the initial ones folded with all new ranges, and the only error is KeyError |
| ExcelActivities.DisseminationWidens | backend/excel/import_gantt.py:306-309 | dissemination ranges only widen the project dates: the start never rises and the end never falls |
| ExcelActivities.DisseminationRowsOk | backend/excel/import_gantt.py:294 | when every row has every date column, there is no KeyError |
| ExcelActivities.DisseminationRowStep | backend/excel/import_gantt.py:254-324 | the imperative row body computes DisseminationRow |
| ExcelActivities.CreateDisseminationActivities | backend/excel/import_gantt.py:244-324 | crear_actividades_difusion computes DisseminationRows from the project the normal import left |
| ExcelActivities.FlatKey | backend/excel/import_gantt.py:341-344 | a pair key flattens to its sub-header, a single key to itself |
| ExcelActivities.FlattenKeys | backend/excel/import_gantt.py:339-345 | the flattened keys are exactly the flattened keys of the mapping's entries |
| ExcelActivities.FlattenValues | backend/excel/import_gantt.py:339-344 | a flattened key takes the date of the last entry flattening to it |
| ExcelActivities.FlattenMergesDays | backend/excel/import_gantt.py:340-342 | two date columns with the same sub-header (one day number under two months) become one flattened column carrying the date of the last column with that sub-header, and the flattened mapping is shorter |
| ExcelActivities.FlatKeysTruthy | backend/excel/import_gantt.py:134-137 | every flattened key is truthy, so "if not bloque_activo" is a test for no open block |
| ExcelActivities.FlattenDates | backend/excel/import_gantt.py:339-344 | the flattening loop computes Flatten |
| ExcelActivities.ImportGantt | backend/excel/import_gantt.py:329-347 | importar_gantt computes Import: file name check, normal import, flattening, dissemination column check, dissemination import, all or nothing |
| ExcelActivities.NormalImportBounds | backend/excel/import_gantt.py:214-238 | after the normal import the project's start and end are the min start and max end over the resolved ranges, both None when none resolved |
| ExcelActivities.NormalImportErrors | backend/excel/import_gantt.py:110-156 | FormatoInvalidoError for no information column exactly when there is none; with columns, the "no date columns" error exactly when the mapping is empty; the other errors are ValueError and KeyError |
| ExcelActivities.ImportBounds | backend/excel/import_gantt.py:214-309 | the imported project's dates are the min start and max end over all its ranges, normal and dissemination |
| ExcelActivities.ImportWidens | backend/excel/import_gantt.py:306-309 | the dissemination import only widens the dates the normal import set |
| ExcelActivities.ImportProducts | backend/excel/import_gantt.py:190-277 | the imported project's products are pairwise different in any case, include the normal import's, and every product a normal or dissemination activity is linked to is one of them (in any case for the latter) |
| ExcelActivities.ImportErrors | backend/excel/import_gantt.py:329-347 | a file name without .xls or .xlsx is refused first, whatever the tables hold; after a successful normal import, the dissemination column check fails exactly when a required column is missing |
| ProjectImport.GenerateRealDates | backend/proyectos/import_gantt.py:18-46 | generar_fechas_reales computes the shared date mapping from anio_inicial or the current year |
| ProjectImport.ActiveDates | backend/proyectos/import_gantt.py:104 | the list comprehension fails only with KeyError (a missing cell or an undated marked column) and lists at most one date per column |
| ProjectImport.ActiveDatesOk | backend/proyectos/import_gantt.py:104 | no KeyError exactly when every date cell is present and every marked column has a date |
| ProjectImport.ActiveDatesMembers | backend/proyectos/import_gantt.py:104 | the listed dates are exactly the dates of the x-marked columns |
| ProjectImport.OwnersClean | backend/proyectos/import_gantt.py:129-132 | owner names are non-empty, trimmed and lower-case |
| ProjectImport.Owners | backend/proyectos/import_gantt.py:128-137 | no owners for NaN; otherwise exactly the stripped, lower-cased non-empty pieces of the cell split on 'y', each once, since get_or_create on the name and on the link stores each person once |
| ProjectImport.LowerClean | backend/proyectos/import_gantt.py:131 | lower-casing a non-empty stripped name keeps it non-empty, stripped and lower-case |
| ProjectImport.OwnersComplete | backend/proyectos/import_gantt.py:129-132 | every non-blank piece of the cell split on 'y' gives an owner, trimmed and lower-cased |
| ProjectImport.RangeOfMarks | backend/proyectos/import_gantt.py:104-110 | an activity's start is the least and its end the greatest marked date, so start <= end and every marked date lies between |
| ProjectImport.NoMarksNoDates | backend/proyectos/import_gantt.py:104-107 | a row with no x lists no date |
| ProjectImport.SentinelIsLowerStrip | backend/proyectos/import_gantt.py:77 | the sentinel test is str(linea).strip().lower() == 'difusión' |
| ProjectImport.Stop | backend/proyectos/import_gantt.py:74-78 | the break point is the first Difusión row, or the end when there is none |
| ProjectImport.StopAt | backend/proyectos/import_gantt.py:77-78 | scanning down, the first sentinel row met is at the break point |
| ProjectImport.NormalRow | backend/proyectos/import_gantt.py:80-137 | one row only appends (at most one activity) and fails only with KeyError |
| ProjectImport.NormalRowsErrSticks | backend/proyectos/import_gantt.py:74 | an error ends the loop: later rows change nothing |
| ProjectImport.RowsBelowSentinelIgnored | backend/proyectos/import_gantt.py:77-78 | rows after the first Difusión row never reach the normal loop, whatever they hold |
| ProjectImport.Spans | backend/proyectos/import_gantt.py:109-110 | one (start, end) per activity |
| ProjectImport.BoundsMeaning | backend/proyectos/import_gantt.py:113-116 | the running min_fecha / max_fecha are None iff no activity exists; otherwise they are attained by some activity and bound every activity |
| ProjectImport.NormalRowKeeps | backend/proyectos/import_gantt.py:80-125 | one row keeps the bounds equal to the min start and max end of the activities and every line stored once, and a new activity spans exactly its marked dates |
| ProjectImport.LastLineIsLatest | backend/proyectos/import_gantt.py:80-81 | the filled-down line is the line cell of the latest row that has one |
| ProjectImport.NormalRowsInv | backend/proyectos/import_gantt.py:70-137 | only KeyError escapes; the filled-down line is the latest line cell; the bounds are those of the activities; each line is stored once |
| ProjectImport.NormalRowProducts | backend/proyectos/import_gantt.py:89-107 | a row past the line check gets or creates its product, exactly as written, before the activity and date tests, so a row that creates no activity still leaves it; no product is stored twice |
| ProjectImport.NormalRowsProducts | backend/proyectos/import_gantt.py:74-122 | after the normal loop no product is stored twice and every activity's product is one of them |
| ProjectImport.NoLineNothing | backend/proyectos/import_gantt.py:82-83 | rows before the first line value create nothing |
| ProjectImport.UnmarkedRowSkipped | backend/proyectos/import_gantt.py:106-107 | a row with no x creates no activity and leaves the bounds alone |
| ProjectImport.NormalRowStep | backend/proyectos/import_gantt.py:80-137 | the imperative row body computes NormalRow |
| ProjectImport.DisseminationPart | backend/proyectos/import_gantt.py:145-150 | the dissemination rows are a suffix starting two rows below the first Difusión row, and none without a Difusión row |
| ProjectImport.DisseminationRow | backend/proyectos/import_gantt.py:153-202 | one row only appends (at most one activity) and fails only with KeyError |
| ProjectImport.DisseminationRowsErrSticks | backend/proyectos/import_gantt.py:153 | an error ends the loop: later rows change nothing |
| ProjectImport.DisseminationRowKeeps | backend/proyectos/import_gantt.py:159-191 | one row keeps the lines and activities, files a new activity under Difusión, and that activity spans exactly its marked dates |
| ProjectImport.DisseminationRowsInv | backend/proyectos/import_gantt.py:152-202 | only KeyError escapes; the loop only adds lines and activities, every new activity filed under Difusión with start <= end |
| ProjectImport.DisseminationRowProducts | backend/proyectos/import_gantt.py:158-179 | a named dissemination row gets or creates its stripped product before the date test, so a row that creates no activity still leaves it |
| ProjectImport.DisseminationRowsProducts | backend/proyectos/import_gantt.py:152-188 | the dissemination loop keeps the earlier products, stores none twice, and every activity's product is one of them |
| ProjectImport.ExtendsTrans | backend/proyectos/import_gantt.py:152-202 | extending the stored lines and activities twice is extending them once, so the loop invariant chains |
| ProjectImport.DisseminationRowStep | backend/proyectos/import_gantt.py:153-202 | the imperative row body computes DisseminationRow |
| ProjectImport.NormalLoop | backend/proyectos/import_gantt.py:74-137 | the normal loop with its break computes NormalPart |
| ProjectImport.DisseminationLoop | backend/proyectos/import_gantt.py:153-202 | the dissemination loop computes DisseminationRows |
| ProjectImport.ImportGantt | backend/proyectos/import_gantt.py:48-210 | importar_gantt computes Import, with today's date and the current year as parameters |
| ProjectImport.ImportInvalidDate | backend/proyectos/import_gantt.py:61 | the import fails with ValueError exactly when a header names an impossible date |
| ProjectImport.ImportBounds | backend/proyectos/import_gantt.py:64-208 | with no normal activity the project keeps today's date and no end; otherwise its dates are the min start and max end of the normal activities (dissemination ones do not count) |
| ProjectImport.ImportLines | backend/proyectos/import_gantt.py:85-166 | every activity names one of the project's lines, no line is stored twice, and the dissemination activities are filed under Difusión with start <= end |
| ProjectImport.ImportProducts | backend/proyectos/import_gantt.py:90-188 | no product is stored twice, and every normal and dissemination activity is linked to one of the stored products or to none |
| ProjectImport.NoSentinelNoDisseminations | backend/proyectos/import_gantt.py:148 | without a Difusión row there is no dissemination activity |
| GanttLayout.ChartActivity.constructor | backend/vistas/gantt.py:111-113 | an activity starts with its ranges and no periodos_calculados |
| GanttLayout.RangeDaysMembers | backend/vistas/gantt.py:55-60 | a day is collected from an activity iff it starts or ends one of its ranges that has both dates |
| GanttLayout.AllDaysMembers | backend/vistas/gantt.py:51-62 | a day is collected iff some activity contributes it |
| GanttLayout.AllDaysEmpty | backend/vistas/gantt.py:17-57 | no day is collected iff no activity has a range with both dates |
| GanttLayout.RangeDaysHas | backend/vistas/gantt.py:57-60 | both dates of a complete range are collected |
| GanttLayout.AllDaysHas | backend/vistas/gantt.py:54-60 | a day collected from one activity is collected for the chart |
| GanttLayout.ExtractDays | backend/vistas/gantt.py:51-62 | the nested loop computes AllDays |
| GanttLayout.CeilDiv7 | backend/vistas/gantt.py:75 | math.ceil(n / 7): the least q with n <= 7q |
| GanttLayout.MondayBefore | backend/vistas/gantt.py:69-70 | n - (weekday(n) + 7) is a Monday |
| GanttLayout.SundayAfter | backend/vistas/gantt.py:72-73 | n + (6 - weekday(n) + 7) is a Sunday |
| GanttLayout.WholeWeeks | backend/vistas/gantt.py:74-75 | from a Monday to a later Sunday, ceil(days / 7) whole weeks span exactly the days from start to end |
| GanttLayout.WeeklyRange | backend/vistas/gantt.py:65-77 | OverflowError (None) exactly when padding leaves the calendar; otherwise start_of_week is a Monday 7 to 13 days before the earliest day, end_of_week a Sunday 7 to 13 days after the latest, 7 * total_weeks == end - start + 1, and total_weeks >= 3 |
| GanttLayout.DaysInsideChart | backend/vistas/gantt.py:66-73 | every collected day lies at least one week inside both edges of the chart |
| GanttLayout.MakeColumn | backend/vistas/gantt.py:91-106 | the column for week i starts on start + 7i, ends 6 days later, sits at i * week_width, is current iff today falls in it, and carries its first day's month abbreviation and day |
| GanttLayout.WeekColumns | backend/vistas/gantt.py:80-108 | exactly total_weeks columns, column i as MakeColumn states; OverflowError (None) exactly when the last week leaves the calendar |
| GanttLayout.ColumnsTile | backend/vistas/gantt.py:91-102 | neighbouring columns meet with no gap or overlap, in days and in pixels |
| GanttLayout.ColumnLabel | backend/vistas/gantt.py:104-105 | a column's month name and day number name its first day |
| GanttLayout.CurrentWeekUnique | backend/vistas/gantt.py:95 | at most one column is the current week |
| GanttLayout.CurrentWeekExists | backend/vistas/gantt.py:90-95 | some column is the current week iff today lies in [start, start + 7 * total_weeks - 1] |
| GanttLayout.ScaleMonthly | backend/vistas/gantt.py:156-157 | int(px * 35 / 100) truncates toward zero: within one pixel of 0.35 px, from below for px >= 0 and from above for px < 0 |
| GanttLayout.ScaleMonthlyExact | backend/vistas/gantt.py:136-157 | a weekly left offset of whole weeks scales exactly to 35 px per week |
| GanttLayout.MonthlyWidth | backend/vistas/gantt.py:160-162 | _calcular_ancho_mensual is the scaled width or 25, whichever is larger |
| GanttLayout.MonthlyWidthForWeeks | backend/vistas/gantt.py:165-169 | _calcular_ancho_mensual_real is 35 px per week or 25, whichever is larger |
| GanttLayout.MonthlyWidthsAgree | backend/vistas/gantt.py:160-169 | the two monthly widths agree on whole weeks, and a bar of at least one week is 35 px per week |
| GanttLayout.PeriodFor | backend/vistas/gantt.py:126-153 | periodo is the 1-based position; duracion_dias is fin - inicio + 1; left_px is 100 * week_inicio and width_px is 100 * (week_fin - week_inicio + 1), with the start and end days in those weeks and at least one week wide when inicio <= fin |
| GanttLayout.PeriodMonthly | backend/vistas/gantt.py:140-141 | left_px_monthly is 35 * week_inicio and width_px_monthly is max(35 * weeks, 25), exactly 35 * weeks when inicio <= fin |
| GanttLayout.Periods | backend/vistas/gantt.py:118-153 | periodos_calculados lists periods numbered within 1..len(fechas) in strictly increasing periodo order |
| GanttLayout.PeriodsSound | backend/vistas/gantt.py:118-153 | every period comes from the complete range at position periodo - 1 and is that range's PeriodFor |
| GanttLayout.PeriodsComplete | backend/vistas/gantt.py:118-120 | every complete range gives its period under its original position, so skipped ranges keep their numbers |
| GanttLayout.BarInside | backend/vistas/gantt.py:131-137 | a range at least a week inside both edges of a whole-week chart gives a bar in columns 1 .. weeks - 2 |
| GanttLayout.PeriodInsideChart | backend/vistas/gantt.py:66-137 | a range between the earliest and latest collected day gives a bar strictly inside the chart |
| GanttLayout.ComputeActivity | backend/vistas/gantt.py:113-153 | one activity's periodos_calculados is reset and set to its Periods |
| GanttLayout.ComputePositions | backend/vistas/gantt.py:111-153 | every activity gets its Periods against the chart's start |
| GanttLayout.GanttChart | backend/vistas/gantt.py:5-48 | the empty-chart dict (no columns, 0 weeks, width 320) when no range has both dates; OverflowError (None) when padding leaves the calendar; otherwise the columns, total_weeks and total_width = 320 + 100 * total_weeks over WeeklyRange, with every activity's periods computed; activities untouched on the other paths |
| GanttLayout.BarsInsideChart | backend/vistas/gantt.py:30-137 | every range with inicio <= fin of every activity gives a bar between the spare first and last week columns |
| GanttViews.ActiveDates | backend/vistas/views.py:27 | the active ranges are at most the stored ones |
| GanttViews.ActiveDatesMembers | backend/vistas/views.py:27 | the listed ranges are exactly the stored ranges whose estado is set |
| GanttViews.AdjustRange | backend/vistas/views.py:32-37 | a range with two equal dates ends one day later, OverflowError (None) at 9999-12-31; every other range is unchanged |
| GanttViews.AdjustIdempotent | backend/vistas/views.py:36-37 | an adjusted range is never zero-length, so adjusting it again changes nothing |
| GanttViews.Gather | backend/vistas/views.py:29-43 | collecting optional results gives a list iff every result is present, and then the list of their values in order |
| GanttViews.GatherOf | backend/vistas/views.py:29-43 | a list of present results collects to the list of their values |
| GanttViews.AdjustAll | backend/vistas/views.py:29-43 | fechas_lista: every range adjusted, in order, and None exactly when some adjustment overflows |
| GanttViews.AdjustedRanges | backend/vistas/views.py:27-43 | the inner loop computes AdjustAll of the active ranges |
| GanttViews.DefaultName | backend/vistas/views.py:47 | "nombre or f'Actividad {id}'": never empty; a non-empty name is kept; an empty one becomes the prefix followed by more |
| GanttViews.DefaultNameId | backend/vistas/views.py:47 | int() of what follows the prefix in a default name gives back the id |
| GanttViews.OwnerLabels | backend/vistas/views.py:116 | the owners when there are any, else ['No asignado'], so never empty |
| GanttViews.EntryOf | backend/vistas/views.py:25-81 | one record's dict keeps its id and kind, has a non-empty name and the adjusted ranges, and a line label only when normal; None exactly when an adjustment overflows |
| GanttViews.EntriesOf | backend/vistas/views.py:25-81 | the dicts of one kind, one per record in order, or None exactly when some record's ranges overflow |
| GanttViews.CombinedShape | backend/vistas/views.py:25-89 | the combined list has one dict per record, all normal ones first: ids kept, names non-empty, kinds set, lines only on normal ones |
| GanttViews.EntryFor | backend/vistas/views.py:25-52 | the loop body computes EntryOf |
| GanttViews.CollectEntries | backend/vistas/views.py:25-81 | each loop computes EntriesOf for its kind |
| GanttViews.BuildEntries | backend/vistas/views.py:22-81 | todas_actividades before sorting is the normal dicts followed by the dissemination dicts |
| GanttViews.WithKeyMembers | backend/vistas/views.py:84 | the entries with a key are exactly those of the list with that key |
| GanttViews.StartKeyIsoOrder | backend/vistas/views.py:84 | the source's key (the first range's start as '%Y-%m-%d' text, '9999-12-31' without one) and the model's key (that start as a day number, the last day without one) order every two entries the same way and tie on the same pairs, so sorting by either gives the same list |
| GanttViews.WithKeyConcat | backend/vistas/views.py:84 | the entries with a key in two lists are those of the first followed by those of the second |
| GanttViews.SwapKeepsTies | backend/vistas/views.py:84 | exchanging neighbours with different keys keeps every key's entries in order |
| GanttViews.InsertAt | backend/vistas/views.py:84 | one insertion step leaves the first i+1 entries sorted, as a permutation keeping ties in order |
| GanttViews.SortByStart | backend/vistas/views.py:84 | the in-place sort leaves the list ordered by start key, a permutation of its input, with ties in their input order (stability) |
| GanttViews.VistaGantt | backend/vistas/views.py:12-93 | the list is the combined dicts sorted stably by start key, and len_total_actividades is its length, the number of normal plus dissemination activities; None exactly when a range overflows |
| GanttViews.ListEntryOf | backend/vistas/views.py:107-129 | a record's dict keeps id and kind, has a non-empty name, a line label only when normal, and its own owners when it has any, else ['No asignado'] |
| GanttViews.ListOf | backend/vistas/views.py:107-129 | each loop lists one dict per record, in order |
| GanttViews.ListActivities | backend/vistas/views.py:96-136 | one dict per record, normal ones first, each with a non-empty name and a non-empty owner list that is the record's own owners when it has any |

## Left out

- Reading the workbook: `pd.read_excel`, DataFrame slicing and `separar_tablas_excel` (backend/excel/import_gantt.py:69-95). The Excel importer takes the two tables as inputs.
- `normalize_str`'s Unicode NFKD/ASCII folding: it is a foreign library call, and only `separar_tablas_excel` uses it.
- The ORM: `create`, `get_or_create`, `filter(nombre__iexact=...).first()` and `save`.
  - Only the values the import would store are modelled. The database is taken to hold none of the records an import looks up beforehand: a product or owner from an earlier import or another project (the Excel importer's normal products and owners, and all of the proyectos importer's products and owners, are looked up across projects) is not modelled.
  - Owners (Encargado) are not collected into a list: each activity keeps the names it is linked to, once each.
  - ExcelActivities.OwnerNames: keeps the spelling of the first occurrence in the cell. The stored link points at the earliest Encargado that matches in any case, which may be spelled as an earlier row gave it.
  - ExcelActivities.DisseminationRow: records each linked product under the row's spelling of its first occurrence. The stored link points at the project's earliest product that matches in any case, which may be spelled as an earlier row gave it. The project's product list itself is exact.
  - The database's case folding for `iexact` is approximated by `Lower`, which folds ASCII and Latin-1 letters.
  - The transaction is modelled as all-or-nothing.
  - The proyectos importer has no transaction, so its partial writes before an exception are not modelled: an exception is an `Err` with nothing stored.
- Spreadsheet floats: numeric cells are integers.
  - `int()` of a float, NaN arithmetic and pandas' dtype coercion are not modelled.
  - `math.ceil(total_days / 7)` and `int(x * 35 / 100)` are modelled as exact integer arithmetic, which the floats match below 2^53.
- `datetime.strptime` / `strftime`: dates are day numbers, and a range's ISO strings are modelled as the days they name.
  - Calendar.IsoDate: writes every year with four digits. Python's `strftime('%Y')` does so for years 1000..9999; for years below 1000 some platforms (glibc among them) leave the year unpadded, and StartKeyIsoOrder does not speak to those texts.
- The clock: `datetime.now()` (today, and the current year) is a parameter of each operation that reads it.
- The `estado` key (`get_estado_display()`, `estado_valor`, "Sin estado"), `render`, `get_object_or_404`, the context dicts, and the status-update endpoints of backend/vistas/views.py.
- The ORM's `order_by('fecha_creacion')` and the related-object queries: the records arrive as sequences in the order the query returns them.
- GanttLayout.ComputePositions: activities are distinct objects in the model. The source's activity dicts could in principle be aliased, which is not modelled.
- GanttLayout.WeeklyRange: the weeks count is stated through `7 * weeks == end - start + 1` rather than by naming `math.ceil`. CeilDiv7 and WholeWeeks state that the two agree.
- The mark and sentinel tests are stated directly on the cell text ("x"/"X", "difusión" in any case, between whitespace). MarkedIsLowerStrip and SentinelIsLowerStrip prove each equal to the source's `str(value).strip().lower() == ...` test.
- Python's full Unicode case mapping and whitespace set are restricted to the Latin-1 range. `int()` of text accepts ASCII digits with an optional sign and surrounding whitespace; underscores and non-ASCII digits are not accepted.
- ExcelActivities.DisseminationRow: a dissemination row is a map from column label to cell. When two columns of the dissemination table share a label (the same day number under two months), `filas[col]` is a pandas Series whose text is never `x`, so the source marks no such column; the model looks up one cell per label and can mark it.
- ExcelActivities.NormalRow: a normal-table column key is a pair (a non-empty tuple, always truthy) when the sheet is read with two header rows, as `separar_tablas_excel` always does, and the model also admits single keys (`Flat`). A falsy single key such as `0` or an empty name, opening a block, would leave `bloque_activo` falsy in the source, so the next marked column would restart the block and an unmarked one would drop it; the model keeps the block open. FlatKeysTruthy shows that the flattened keys the dissemination table uses are always truthy.
