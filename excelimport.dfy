/**
 * The spreadsheet importer of backend/excel/import_gantt.py, on the two tables
 * its reader splits the sheet into: the normal activities under two-level
 * headers (a work line, an activity, owners, a product and one column per
 * day) and the dissemination activities under the header row that follows the
 * "Difusión" row. The database writes become the values they would store.
 */
module ExcelImport {
  import opened Wrappers
  import opened Strings
  import opened Sheet
  import opened Dict
  import opened Calendar
  import opened Bounds
  import opened Blocks
  import opened DateColumns

  /** A column header: a (top, sub) pair under two-level headers, or a single header. */
  datatype ColKey = Pair(top: string, sub: Cell) | Flat(name: Cell)

  /** What FormatoInvalidoError reports. */
  datatype FormatProblem =
    | NotAnExcelFile
    | NoNormalInfoColumns
    | NoDateColumns
    | MissingDisseminationColumn(name: string)

  /** The ways an import fails: FormatoInvalidoError, date()'s ValueError, a row lookup's KeyError. */
  datatype ImportError = FormatError(problem: FormatProblem) | InvalidDate | MissingColumn

  /** A table as the reader hands it over: its column headers and its rows, by header. */
  datatype Table<K> = Table(columns: seq<K>, rows: seq<map<K, Cell>>)

  // ---------------------------------------------------------------------
  // Column checks
  // ---------------------------------------------------------------------

  /** The sub-headers that mark a column of the normal table as information rather than a date. */
  const InfoNames: seq<string> := ["Linea de trabajo", "Actividad", "Responsable(s)", "Producto Asociado"]

  predicate IsInfoColumn(c: ColKey) {
    c.Pair? && c.sub.Text? && c.sub.s in InfoNames
  }

  /** The information columns, in column order. */
  function InfoColumns(cols: seq<ColKey>): (r: seq<ColKey>)
    ensures forall c :: c in r <==> c in cols && IsInfoColumn(c)
    decreases |cols|
  {
    if |cols| == 0 then []
    else
      var rest := InfoColumns(cols[1..]);
      assert forall c :: c in cols <==> c == cols[0] || c in cols[1..];
      if IsInfoColumn(cols[0]) then [cols[0]] + rest else rest
  }

  /** validar_columnas_normales: the information columns, or an error when there is none. */
  function ValidateNormalColumns(cols: seq<ColKey>): (r: Result<seq<ColKey>, ImportError>)
    ensures r.Err? <==> forall c :: c in cols ==> !IsInfoColumn(c)
    ensures r.Err? ==> r.error == FormatError(NoNormalInfoColumns)
    ensures r.Ok? ==> forall c :: c in r.value <==> c in cols && IsInfoColumn(c)
  {
    var info := InfoColumns(cols);
    assert info != [] ==> info[0] in info;
    if info == [] then Err(FormatError(NoNormalInfoColumns)) else Ok(info)
  }

  /** [c for c in cols if c not in info]: the date columns, in column order. */
  function Without<K(==,!new)>(cols: seq<K>, info: seq<K>): (r: seq<K>)
    ensures |r| <= |cols|
    ensures forall c :: c in r <==> c in cols && c !in info
    decreases |cols|
  {
    if |cols| == 0 then []
    else
      var rest := Without(cols[1..], info);
      assert forall c :: c in cols <==> c == cols[0] || c in cols[1..];
      if cols[0] !in info then [cols[0]] + rest else rest
  }

  /** The column names validar_columnas_difusion requires, in the order it checks them. */
  const DisseminationNames: seq<string> := ["Actividad de Difusión", "Responsable de la Actividad de Difusión",
    "Producto(s) Asociado(s)", "Línea(s) de Trabajo Asociada(s)"]

  /** The first of the names, from position i on, that is not a column. */
  function FirstMissing(columns: seq<Cell>, names: seq<string>, i: nat): (r: Option<nat>)
    requires i <= |names|
    ensures r.None? ==> forall j :: i <= j < |names| ==> Text(names[j]) in columns
    ensures r.Some? ==>
      (i <= r.value < |names| && Text(names[r.value]) !in columns
       && forall j :: i <= j < r.value ==> Text(names[j]) in columns)
    decreases |names| - i
  {
    if i == |names| then None
    else if Text(names[i]) !in columns then Some(i)
    else FirstMissing(columns, names, i + 1)
  }

  /** validar_columnas_difusion: every required column is present, or the first missing one is reported. */
  function ValidateDisseminationColumns(columns: seq<Cell>): (r: Result<(), ImportError>)
    ensures r.Ok? <==> forall j :: 0 <= j < |DisseminationNames| ==> Text(DisseminationNames[j]) in columns
    ensures r.Err? ==>
      exists j :: 0 <= j < |DisseminationNames|
        && r.error == FormatError(MissingDisseminationColumn(DisseminationNames[j]))
        && Text(DisseminationNames[j]) !in columns
        && (forall j' :: 0 <= j' < j ==> Text(DisseminationNames[j']) in columns)
  {
    match FirstMissing(columns, DisseminationNames, 0)
    case None => Ok(())
    case Some(j) => Err(FormatError(MissingDisseminationColumn(DisseminationNames[j])))
  }

  /** The file name ends in .xls or .xlsx. */
  predicate IsExcelName(name: string) {
    EndsWith(name, ".xls") || EndsWith(name, ".xlsx")
  }

  // ---------------------------------------------------------------------
  // Date columns (obtener_fechas_reales)
  // ---------------------------------------------------------------------

  /** The (lower-cased month, day) a header stands for; a single header is a day of January. */
  function Header(c: ColKey): (string, Cell) {
    match c
    case Pair(top, sub) => (Lower(top), sub)
    case Flat(name) => ("enero", name)
  }

  function Headers(cols: seq<ColKey>): (hs: seq<(string, Cell)>)
    ensures |hs| == |cols|
    ensures forall i :: 0 <= i < |cols| ==> hs[i] == Header(cols[i])
  {
    seq(|cols|, i requires 0 <= i < |cols| => Header(cols[i]))
  }

  /** The date columns' mapping from the given year, or the ValueError of an impossible date. */
  function DatesOf(cols: seq<ColKey>, year: int): Result<Dict<ColKey, int>, ImportError> {
    match DateMap(cols, Headers(cols), year)
    case None => Err(InvalidDate)
    case Some(d) => Ok(d)
  }

  /** obtener_fechas_reales(date_cols) with the current year as the first year. */
  method MapDateColumns(cols: seq<ColKey>, currentYear: int) returns (r: Result<Dict<ColKey, int>, ImportError>)
    ensures r == DatesOf(cols, currentYear)
  {
    var fechas := MapDates(cols, Headers(cols), currentYear);
    if fechas.None? {
      return Err(InvalidDate);
    }
    return Ok(fechas.value);
  }

  // ---------------------------------------------------------------------
  // Blocks of marked columns (detectar_bloques_x)
  // ---------------------------------------------------------------------

  /** Every column is a key of the row, so filas[col] does not raise KeyError. */
  predicate AllPresent<K>(row: map<K, Cell>, cols: seq<K>) {
    forall i :: 0 <= i < |cols| ==> cols[i] in row
  }

  /** Which columns of the row are marked with an x. */
  function Marks<K>(row: map<K, Cell>, cols: seq<K>): (m: seq<bool>)
    requires AllPresent(row, cols)
    ensures |m| == |cols|
    ensures forall i :: 0 <= i < |cols| ==> m[i] == IsMarked(row[cols[i]])
  {
    seq(|cols|, i requires 0 <= i < |cols| => IsMarked(row[cols[i]]))
  }

  /** Every run lies within the first n positions. */
  predicate RunsWithin(runs: seq<Run>, n: int) {
    forall k :: 0 <= k < |runs| ==> 0 <= runs[k].0 <= runs[k].1 < n
  }

  /** The runs, by column key. */
  function KeyRuns<K>(cols: seq<K>, runs: seq<Run>): (r: seq<(K, K)>)
    requires RunsWithin(runs, |cols|)
    ensures |r| == |runs|
    ensures forall k :: 0 <= k < |runs| ==> r[k] == (cols[runs[k].0], cols[runs[k].1])
    decreases |runs|
  {
    if |runs| == 0 then []
    else KeyRuns(cols, runs[..|runs| - 1]) + [(cols[runs[|runs| - 1].0], cols[runs[|runs| - 1].1])]
  }

  /** The blocks detectar_bloques_x returns for a row: its maximal runs of marked columns, by key. */
  function BlocksOf<K>(row: map<K, Cell>, cols: seq<K>): seq<(K, K)>
    requires AllPresent(row, cols)
  {
    var marks := Marks(row, cols);
    RunsInRow(marks);
    KeyRuns(cols, Runs(marks))
  }

  /** What detectar_bloques_x keeps after the marks of the first columns: the scan so far, by key. */
  ghost predicate BlockInv<K>(cols: seq<K>, marks: seq<bool>, st: ScanState, bloques: seq<(K, K)>, activo: Option<K>) {
    |marks| <= |cols|
    && st == Scan(marks)
    && RunsWithin(st.closed, |marks|) && (st.active.Some? ==> 0 <= st.active.value < |marks|)
    && bloques == KeyRuns(cols, st.closed)
    && activo == (if st.active.Some? then Some(cols[st.active.value]) else None)
  }

  /** The first i marks are those of the row's first i columns. */
  ghost predicate MarksSoFar<K>(row: map<K, Cell>, cols: seq<K>, marks: seq<bool>) {
    |marks| <= |cols| && forall j :: 0 <= j < |marks| ==> cols[j] in row && marks[j] == IsMarked(row[cols[j]])
  }

  lemma RunsWithinSnoc(runs: seq<Run>, run: Run, n: int, n': int)
    requires RunsWithin(runs, n) && n <= n' && 0 <= run.0 <= run.1 < n'
    ensures RunsWithin(runs, n') && RunsWithin(runs + [run], n')
  {
    assert forall k :: 0 <= k < |runs| ==> runs[k] == (runs + [run])[k];
  }

  lemma KeyRunsSnoc<K>(cols: seq<K>, runs: seq<Run>, run: Run)
    requires RunsWithin(runs, |cols|) && 0 <= run.0 <= run.1 < |cols|
    ensures RunsWithin(runs + [run], |cols|)
    ensures KeyRuns(cols, runs + [run]) == KeyRuns(cols, runs) + [(cols[run.0], cols[run.1])]
  {
    RunsWithinSnoc(runs, run, |cols|, |cols|);
    assert (runs + [run])[..|runs|] == runs;
  }

  /** One more column: a mark opens a block, a blank closes the open one at the previous column. */
  lemma BlockStep<K>(cols: seq<K>, marks: seq<bool>, st: ScanState, bloques: seq<(K, K)>, activo: Option<K>,
                     b: bool, bloques': seq<(K, K)>, activo': Option<K>)
    requires |marks| < |cols| && BlockInv(cols, marks, st, bloques, activo)
    requires bloques' == if !b && activo.Some? then bloques + [(activo.value, cols[|marks| - 1])] else bloques
    requires activo' == if b then (if activo.None? then Some(cols[|marks|]) else activo) else None
    ensures BlockInv(cols, marks + [b], ScanStep(st, |marks|, b), bloques', activo')
  {
    var i := |marks|;
    ScanSnoc(marks, b);
    if !b && st.active.Some? {
      var run := (st.active.value, i - 1);
      RunsWithinSnoc(st.closed, run, i, i + 1);
      RunsWithinSnoc(st.closed, run, i, |cols|);
      KeyRunsSnoc(cols, st.closed, run);
      assert ScanStep(st, i, b) == ScanState(st.closed + [run], None);
    } else {
      RunsWithinSnoc(st.closed, (0, 0), i, i + 1);
      assert ScanStep(st, i, b).closed == st.closed;
    }
  }

  lemma MarksSnoc<K>(row: map<K, Cell>, cols: seq<K>, marks: seq<bool>, b: bool)
    requires MarksSoFar(row, cols, marks) && |marks| < |cols|
    requires cols[|marks|] in row && b == IsMarked(row[cols[|marks|]])
    ensures MarksSoFar(row, cols, marks + [b])
  {
    var m := marks + [b];
    forall j | 0 <= j < |m| ensures cols[j] in row && m[j] == IsMarked(row[cols[j]]) {
      if j < |marks| {
        assert m[j] == marks[j];
      }
    }
  }

  /** A column missing from the row: filas[col] raises KeyError. */
  lemma BlockMissing<K>(row: map<K, Cell>, cols: seq<K>, i: int)
    requires 0 <= i < |cols| && cols[i] !in row
    ensures !AllPresent(row, cols)
  {
  }

  /** After the last column the blocks, with the open one closed, are the row's blocks. */
  lemma BlockDone<K>(row: map<K, Cell>, cols: seq<K>, marks: seq<bool>, st: ScanState, bloques: seq<(K, K)>, activo: Option<K>)
    requires MarksSoFar(row, cols, marks) && |marks| == |cols| && BlockInv(cols, marks, st, bloques, activo)
    ensures AllPresent(row, cols)
    ensures activo.Some? ==> |cols| > 0 && bloques + [(activo.value, cols[|cols| - 1])] == BlocksOf(row, cols)
    ensures activo.None? ==> bloques == BlocksOf(row, cols)
  {
    assert marks == Marks(row, cols);
    var runs := Runs(marks);
    RunsInRow(marks);
    if st.active.Some? {
      assert runs == st.closed + [(st.active.value, |cols| - 1)];
      KeyRunsSnoc(cols, st.closed, (st.active.value, |cols| - 1));
    }
  }

  /** The body of detectar_bloques_x's loop for one column, given whether it is marked. */
  method BlockColumn<K>(cols: seq<K>, i: int, ghost marks: seq<bool>, ghost st: ScanState, bloques: seq<(K, K)>,
                        activo: Option<K>, previo: Option<K>, marcado: bool) returns (bloques': seq<(K, K)>, activo': Option<K>)
    requires i == |marks| < |cols| && BlockInv(cols, marks, st, bloques, activo)
    requires |marks| > 0 ==> previo == Some(cols[|marks| - 1])
    ensures BlockInv(cols, marks + [marcado], ScanStep(st, |marks|, marcado), bloques', activo')
  {
    bloques', activo' := bloques, activo;
    if marcado {
      if activo.None? {
        activo' := Some(cols[i]);
      }
    } else if activo.Some? {
      bloques' := bloques + [(activo.value, previo.value)];
      activo' := None;
    }
    BlockStep(cols, marks, st, bloques, activo, marcado, bloques', activo');
  }

  /**
   * detectar_bloques_x(filas, date_cols): scans the columns left to right,
   * opening a block at a marked column when none is open and closing it at the
   * previous column when an unmarked one comes; a block still open is closed at
   * the last column. A column missing from the row raises KeyError.
   */
  method DetectBlocks<K>(row: map<K, Cell>, cols: seq<K>) returns (r: Result<seq<(K, K)>, ImportError>)
    ensures r.Err? <==> !AllPresent(row, cols)
    ensures r.Err? ==> r.error == MissingColumn
    ensures r.Ok? ==> r.value == BlocksOf(row, cols)
  {
    var bloques: seq<(K, K)> := [];
    var activo: Option<K> := None;
    var previo: Option<K> := None;
    ghost var marks: seq<bool> := [];
    ghost var st := ScanState([], None);
    var i := 0;
    while i < |cols|
      invariant i == |marks| <= |cols|
      invariant MarksSoFar(row, cols, marks) && BlockInv(cols, marks, st, bloques, activo)
      invariant i > 0 ==> previo == Some(cols[i - 1])
    {
      if cols[i] !in row {
        BlockMissing(row, cols, i);
        return Err(MissingColumn);
      }
      var marcado := IsMarked(row[cols[i]]);
      bloques, activo := BlockColumn(cols, i, marks, st, bloques, activo, previo, marcado);
      MarksSnoc(row, cols, marks, marcado);
      st := ScanStep(st, i, marcado);
      marks := marks + [marcado];
      previo := Some(cols[i]);
      i := i + 1;
    }
    BlockDone(row, cols, marks, st, bloques, activo);
    if activo.Some? {
      bloques := bloques + [(activo.value, previo.value)];
    }
    return Ok(bloques);
  }
}
