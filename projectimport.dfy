/**
 * importar_gantt of backend/proyectos/import_gantt.py: one sheet under two
 * header rows. The rows above the row whose line cell reads "difusión" are
 * the normal activities, with the work line filled down; the rows from two
 * below it are the dissemination activities. Each activity spans from the
 * earliest to the latest date column marked with an x, and the project's
 * dates become the earliest and latest dates of the normal activities.
 * What the importer writes to the database is returned as a Project value;
 * an exception is an Err and leaves nothing behind.
 */
module ProjectImport {
  import opened Wrappers
  import opened Strings
  import opened Sheet
  import opened Dict
  import opened Bounds
  import opened DateColumns
  import ExcelImport
  import ExcelActivities

  /** A column under the two header rows: (top header, sub-header). */
  type Column = (string, Cell)

  type Row = map<Column, Cell>

  /** The sheet as pandas reads it with header=[0, 1]: its columns in order and its rows. */
  datatype Frame = Frame(columns: seq<Column>, rows: seq<Row>)

  /** The exceptions the importer lets through. */
  datatype ImportError =
    | InvalidDate    // date(year, month, day) raised ValueError
    | MissingColumn  // row[key] or df[key] raised KeyError
    | UndatedColumn  // fechas_reales[col] raised KeyError: a marked column whose day is not an integer

  const LineCol: Column := ("Unnamed: 0_level_0", Text("Linea de trabajo"))
  const ActivityCol: Column := ("Unnamed: 3_level_0", Text("Actividad"))
  const OwnersCol: Column := ("Unnamed: 4_level_0", Text("Responsable(s)"))
  const ProductCol: Column := ("Unnamed: 5_level_0", Text("Producto Asociado"))

  /** The information columns; every other column is a date column. */
  const InfoCols: seq<Column> := [LineCol, ActivityCol, OwnersCol, ProductCol]

  /** Below the Difusión row the columns are read under other meanings. */
  const DisseminationNameCol: Column := ("Unnamed: 1_level_0", Text("Linea de trabajo"))
  const DisseminationOwnersCol: Column := ActivityCol
  const DisseminationProductCol: Column := OwnersCol

  // ---------------------------------------------------------------------
  // Date columns (generar_fechas_reales)
  // ---------------------------------------------------------------------

  function DateCols(columns: seq<Column>): seq<Column> {
    ExcelImport.Without(columns, InfoCols)
  }

  /** (col[0].lower(), col[1]) for each column. */
  function Headers(cols: seq<Column>): (hs: seq<(string, Cell)>)
    ensures |hs| == |cols|
    ensures forall i :: 0 <= i < |cols| ==> hs[i] == (Lower(cols[i].0), cols[i].1)
  {
    seq(|cols|, i requires 0 <= i < |cols| => (Lower(cols[i].0), cols[i].1))
  }

  /** The mapping from date column to date, or None for the ValueError of an impossible date. */
  function RealDates(cols: seq<Column>, initial: Option<int>, currentYear: int): Option<Dict<Column, int>> {
    DateMap(cols, Headers(cols), StartYear(initial, currentYear))
  }

  /** generar_fechas_reales(date_cols, anio_inicial), with the current year as a parameter. */
  method GenerateRealDates(cols: seq<Column>, initial: Option<int>, currentYear: int)
      returns (r: Option<Dict<Column, int>>)
    ensures r == DateMap(cols, Headers(cols), StartYear(initial, currentYear))
  {
    r := MapDates(cols, Headers(cols), StartYear(initial, currentYear));
  }

  // ---------------------------------------------------------------------
  // One row's marked dates, an activity's range, its owners
  // ---------------------------------------------------------------------

  /** The column holds an x in this row and maps to date d. */
  predicate MarkedDate(fechas: Dict<Column, int>, row: Row, c: Column, d: int) {
    c in row && IsMarked(row[c]) && Get(fechas, c) == Some(d)
  }

  /**
   * [fechas_reales[col] for col in date_cols if str(row[col]).strip().lower() == 'x']:
   * column by column, a missing cell or a marked column without a date raises KeyError.
   */
  function ActiveDates(fechas: Dict<Column, int>, dateCols: seq<Column>, row: Row): (r: Result<seq<int>, ImportError>)
    ensures r.Err? ==> r.error == MissingColumn || r.error == UndatedColumn
    ensures r.Ok? ==> |r.value| <= |dateCols|
    decreases |dateCols|
  {
    if |dateCols| == 0 then Ok([])
    else
      var c := dateCols[|dateCols| - 1];
      match ActiveDates(fechas, dateCols[..|dateCols| - 1], row)
      case Err(e) => Err(e)
      case Ok(ds) =>
        if c !in row then Err(MissingColumn)
        else if !IsMarked(row[c]) then Ok(ds)
        else
          match Get(fechas, c)
          case None => Err(UndatedColumn)
          case Some(d) => Ok(ds + [d])
  }

  /** The list is built without KeyError exactly when every date cell is there and every marked column has a date. */
  lemma {:induction false} ActiveDatesOk(fechas: Dict<Column, int>, dateCols: seq<Column>, row: Row)
    ensures ActiveDates(fechas, dateCols, row).Ok? <==>
      forall i :: 0 <= i < |dateCols| ==> dateCols[i] in row && (IsMarked(row[dateCols[i]]) ==> Get(fechas, dateCols[i]).Some?)
    decreases |dateCols|
  {
    if |dateCols| > 0 {
      var init := dateCols[..|dateCols| - 1];
      ActiveDatesOk(fechas, init, row);
      assert forall i :: 0 <= i < |init| ==> init[i] == dateCols[i];
    }
  }

  /** The dates listed are exactly the dates of the marked columns. */
  lemma {:induction false} ActiveDatesMembers(fechas: Dict<Column, int>, dateCols: seq<Column>, row: Row)
    requires ActiveDates(fechas, dateCols, row).Ok?
    ensures forall d :: d in ActiveDates(fechas, dateCols, row).value <==>
      exists c :: c in dateCols && MarkedDate(fechas, row, c, d)
    decreases |dateCols|
  {
    if |dateCols| > 0 {
      var n := |dateCols| - 1;
      var init := dateCols[..n];
      var c0 := dateCols[n];
      ActiveDatesMembers(fechas, init, row);
      ActiveDatesSnoc(fechas, dateCols, row);
      assert dateCols == init + [c0];
      MembersSnoc(fechas, row, init, c0, ActiveDates(fechas, init, row).value, ActiveDates(fechas, dateCols, row).value);
    }
  }

  /** The last column adds its date to the list when it is marked, and nothing otherwise. */
  lemma ActiveDatesSnoc(fechas: Dict<Column, int>, dateCols: seq<Column>, row: Row)
    requires |dateCols| > 0 && ActiveDates(fechas, dateCols, row).Ok?
    ensures var c0 := dateCols[|dateCols| - 1];
      var init := ActiveDates(fechas, dateCols[..|dateCols| - 1], row);
      var all := ActiveDates(fechas, dateCols, row).value;
      init.Ok? && ((all == init.value && forall d :: !MarkedDate(fechas, row, c0, d))
        || (exists d0 :: all == init.value + [d0] && MarkedDate(fechas, row, c0, d0)))
  {
  }

  lemma MembersSnoc(fechas: Dict<Column, int>, row: Row, init: seq<Column>, c0: Column, ds: seq<int>, all: seq<int>)
    requires forall d :: d in ds <==> exists c :: c in init && MarkedDate(fechas, row, c, d)
    requires (all == ds && forall d :: !MarkedDate(fechas, row, c0, d))
      || (exists d0 :: all == ds + [d0] && MarkedDate(fechas, row, c0, d0))
    ensures forall d :: d in all <==> exists c :: c in init + [c0] && MarkedDate(fechas, row, c, d)
  {
    forall d ensures d in all <==> exists c :: c in init + [c0] && MarkedDate(fechas, row, c, d) {
      if exists c :: c in init + [c0] && MarkedDate(fechas, row, c, d) {
        var c :| c in init + [c0] && MarkedDate(fechas, row, c, d);
        if c != c0 {
          assert c in init;
        }
      }
      if d in ds {
        var c :| c in init && MarkedDate(fechas, row, c, d);
        assert c in init + [c0];
      }
    }
  }

  /**
   * The Encargados an activity is linked to: str(value).split('y'), each piece
   * stripped and lower-cased, the empty ones dropped, and each name linked
   * once (get_or_create on the name and on the link); none for NaN.
   */
  function Owners(c: Cell): (r: seq<string>)
    ensures IsNa(c) ==> r == []
    ensures !IsNa(c) ==> forall o :: o in r <==> o in LowerAll(SplitNames(c, 'y'))
    ensures ExcelActivities.Distinct(r)
  {
    if IsNa(c) then [] else ExcelActivities.AddLines([], LowerAll(SplitNames(c, 'y')))
  }

  function LowerAll(xs: seq<string>): (r: seq<string>)
    ensures |r| == |xs|
  {
    seq(|xs|, i requires 0 <= i < |xs| => Lower(xs[i]))
  }

  /** Every owner name is non-empty, trimmed and lower-case. */
  lemma OwnersClean(c: Cell)
    ensures forall o :: o in Owners(c) ==> o != "" && Strip(o) == o && Lower(o) == o
  {
    if !IsNa(c) {
      var names := SplitNames(c, 'y');
      SplitNamesClean(c, 'y');
      forall o | o in Owners(c) ensures o != "" && Strip(o) == o && Lower(o) == o {
        var i :| 0 <= i < |names| && LowerAll(names)[i] == o;
        LowerClean(names[i]);
      }
    }
  }

  lemma LowerClean(t: string)
    requires t != "" && Strip(t) == t
    ensures Lower(t) != "" && Strip(Lower(t)) == Lower(t) && Lower(Lower(t)) == Lower(t)
  {
    StripLower(t);
    LowerLower(t);
  }

  /** Every piece between the letters y that is not blank gives an owner, trimmed and lower-cased. */
  lemma OwnersComplete(c: Cell)
    requires !IsNa(c)
    ensures forall p :: p in Split(Str(c), 'y') && Strip(p) != "" ==> Lower(Strip(p)) in Owners(c)
  {
    var names := SplitNames(c, 'y');
    SplitNamesClean(c, 'y');
    forall p | p in Split(Str(c), 'y') && Strip(p) != "" ensures Lower(Strip(p)) in Owners(c) {
      var j :| 0 <= j < |Split(Str(c), 'y')| && Split(Str(c), 'y')[j] == p;
      var i :| 0 <= i < |names| && names[i] == Strip(p);
      assert LowerAll(names)[i] == Lower(Strip(p));
    }
  }

  /** An Actividad as stored: its line, its product, its name, its dates and its Encargados. */
  datatype Activity = Activity(line: string, product: Option<string>, name: string,
                               start: int, end: int, owners: seq<string>)

  /** The activity spans exactly the row's marked dates: from the earliest to the latest. */
  ghost predicate SpansMarks(fechas: Dict<Column, int>, dateCols: seq<Column>, row: Row, a: Activity) {
    a.start <= a.end
    && (exists c :: c in dateCols && MarkedDate(fechas, row, c, a.start))
    && (exists c :: c in dateCols && MarkedDate(fechas, row, c, a.end))
    && forall c, d :: c in dateCols && MarkedDate(fechas, row, c, d) ==> a.start <= d <= a.end
  }

  /** min and max of a row's non-empty list of marked dates are the ends of its range. */
  lemma RangeOfMarks(fechas: Dict<Column, int>, dateCols: seq<Column>, row: Row, ds: seq<int>, a: Activity)
    requires ActiveDates(fechas, dateCols, row) == Ok(ds) && ds != []
    requires a.start == SeqMin(ds) && a.end == SeqMax(ds)
    ensures SpansMarks(fechas, dateCols, row, a)
  {
    ActiveDatesMembers(fechas, dateCols, row);
    assert a.start in ds && a.end in ds;
    forall c, d | c in dateCols && MarkedDate(fechas, row, c, d) ensures a.start <= d <= a.end {
      assert d in ds;
    }
  }

  /** A row with no x among its date columns has no marked date. */
  lemma NoMarksNoDates(fechas: Dict<Column, int>, dateCols: seq<Column>, row: Row)
    requires forall i :: 0 <= i < |dateCols| ==> dateCols[i] in row && !IsMarked(row[dateCols[i]])
    ensures ActiveDates(fechas, dateCols, row) == Ok([])
  {
    ActiveDatesOk(fechas, dateCols, row);
    ActiveDatesMembers(fechas, dateCols, row);
  }

  // ---------------------------------------------------------------------
  // The normal rows (lines 74-137)
  // ---------------------------------------------------------------------

  /** The line cell reads Difusión, in any case, between whitespace. */
  predicate IsSentinel(c: Cell) {
    c.Text? && LowerIs(Strip(c.s), "difusión")
  }

  /** The sentinel test is the importer's str(linea).strip().lower() == 'difusión'. */
  lemma SentinelIsLowerStrip(c: Cell)
    ensures IsSentinel(c) <==> Lower(Strip(Str(c))) == "difusión"
  {
    match c
    case Blank =>
      StripNoOp("nan");
      assert |Lower("nan")| == 3;
    case Number(n) =>
      var s := IntToString(n);
      assert s[0] == '-' || IsDigit(s[0]);
      assert IsDigit(s[|s| - 1]);
      StripNoOp(s);
      LowerIsIff(s, "difusión");
    case Text(s) =>
      LowerIsIff(Strip(s), "difusión");
  }

  /** The row has a line cell reading Difusión. */
  predicate SentinelRow(row: Row) {
    LineCol in row && IsSentinel(row[LineCol])
  }

  /** The position of the first Difusión row, or the number of rows when there is none. */
  function Stop(rows: seq<Row>): (k: nat)
    ensures k <= |rows|
    ensures k < |rows| ==> SentinelRow(rows[k])
    ensures forall j :: 0 <= j < k ==> !SentinelRow(rows[j])
    decreases |rows|
  {
    if |rows| == 0 then 0
    else if SentinelRow(rows[0]) then 0
    else
      var k := Stop(rows[1..]);
      assert forall j :: 0 < j < |rows| ==> rows[1..][j - 1] == rows[j];
      1 + k
  }

  /** Scanning down from the top, the first Difusión row met is at Stop. */
  lemma StopAt(rows: seq<Row>, i: int)
    requires 0 <= i <= Stop(rows) && i < |rows|
    ensures SentinelRow(rows[i]) <==> i == Stop(rows)
  {
  }

  /**
   * The normal loop's state: the filled-down line, the lines, the products
   * looked up or created, the activities and the running bounds.
   */
  datatype NormalState = NormalState(last: Option<Cell>, lines: seq<string>, products: seq<string>,
                                     acts: seq<Activity>, minDate: Option<int>, maxDate: Option<int>)

  const NormalStart := NormalState(None, [], [], [], None, None)

  /** One row above the Difusión row. */
  function NormalRow(fechas: Dict<Column, int>, dateCols: seq<Column>, st: NormalState, row: Row)
      : (r: Result<NormalState, ImportError>)
    ensures r.Err? ==> r.error == MissingColumn || r.error == UndatedColumn
    ensures r.Ok? ==> st.acts <= r.value.acts && |r.value.acts| <= |st.acts| + 1
  {
    if LineCol !in row then Err(MissingColumn)
    else
      var linea := row[LineCol];
      var last := if !IsNa(linea) then Some(linea) else st.last;
      if last.None? || !Truthy(last.value) then Ok(st.(last := last))
      else
        var lines := ExcelActivities.AddLine(st.lines, Str(last.value));
        if ProductCol !in row then Err(MissingColumn)
        else
          var product := if !IsNa(row[ProductCol]) then Some(Str(row[ProductCol])) else None;
          var products := if product.Some? then ExcelActivities.AddLine(st.products, product.value) else st.products;
          if ActivityCol !in row then Err(MissingColumn)
          else if IsNa(row[ActivityCol]) then Ok(st.(last := last, lines := lines, products := products))
          else
            match ActiveDates(fechas, dateCols, row)
            case Err(e) => Err(e)
            case Ok(ds) =>
              if ds == [] then Ok(st.(last := last, lines := lines, products := products))
              else if OwnersCol !in row then Err(MissingColumn)
              else
                var a := Activity(Str(last.value), product, Str(row[ActivityCol]), SeqMin(ds), SeqMax(ds), Owners(row[OwnersCol]));
                Ok(NormalState(last, lines, products, st.acts + [a], Earlier(st.minDate, a.start), Later(st.maxDate, a.end)))
  }

  /** The loop over the given rows, stopping at the first error. */
  function NormalRows(fechas: Dict<Column, int>, dateCols: seq<Column>, rows: seq<Row>): Result<NormalState, ImportError>
    decreases |rows|
  {
    if |rows| == 0 then Ok(NormalStart)
    else
      match NormalRows(fechas, dateCols, rows[..|rows| - 1])
      case Err(e) => Err(e)
      case Ok(st) => NormalRow(fechas, dateCols, st, rows[|rows| - 1])
  }

  /** The normal loop runs over the rows above the first Difusión row, and breaks there. */
  function NormalPart(fechas: Dict<Column, int>, dateCols: seq<Column>, rows: seq<Row>): Result<NormalState, ImportError> {
    NormalRows(fechas, dateCols, rows[..Stop(rows)])
  }

  lemma NormalRowsSnoc(fechas: Dict<Column, int>, dateCols: seq<Column>, rows: seq<Row>, i: int, st: NormalState)
    requires 0 <= i < |rows| && NormalRows(fechas, dateCols, rows[..i]) == Ok(st)
    ensures NormalRows(fechas, dateCols, rows[..i + 1]) == NormalRow(fechas, dateCols, st, rows[i])
  {
    assert rows[..i + 1][..i] == rows[..i];
  }

  /** An error stops the loop: the rows after it change nothing. */
  lemma {:induction false} NormalRowsErrSticks(fechas: Dict<Column, int>, dateCols: seq<Column>, rows: seq<Row>, j: int)
    requires 0 <= j <= |rows| && NormalRows(fechas, dateCols, rows[..j]).Err?
    ensures NormalRows(fechas, dateCols, rows) == NormalRows(fechas, dateCols, rows[..j])
    decreases |rows|
  {
    if j == |rows| {
      assert rows[..j] == rows;
    } else {
      var init := rows[..|rows| - 1];
      assert init[..j] == rows[..j];
      NormalRowsErrSticks(fechas, dateCols, init, j);
    }
  }

  /** The rows below the Difusión row never reach the normal loop, whatever they hold. */
  lemma RowsBelowSentinelIgnored(fechas: Dict<Column, int>, dateCols: seq<Column>, rows: seq<Row>, rows': seq<Row>)
    requires Stop(rows) < |rows| && Stop(rows) < |rows'| && rows'[..Stop(rows) + 1] == rows[..Stop(rows) + 1]
    ensures Stop(rows') == Stop(rows)
    ensures NormalPart(fechas, dateCols, rows') == NormalPart(fechas, dateCols, rows)
  {
    var k := Stop(rows);
    var k' := Stop(rows');
    assert forall j :: 0 <= j <= k ==> rows'[j] == rows'[..k + 1][j] == rows[..k + 1][j] == rows[j];
    assert SentinelRow(rows'[k]);
    assert k' <= k;
    assert rows'[..k] == rows[..k] by {
      assert rows'[..k] == rows'[..k + 1][..k];
      assert rows[..k] == rows[..k + 1][..k];
    }
  }

  /** The date ranges of the activities, in creation order. */
  function Spans(acts: seq<Activity>): (r: seq<Span>)
    ensures |r| == |acts|
  {
    seq(|acts|, i requires 0 <= i < |acts| => (acts[i].start, acts[i].end))
  }

  /** The running bounds are the earliest start and the latest end of the activities so far. */
  predicate NormalBounds(st: NormalState) {
    st.minDate == MinStart(Spans(st.acts)) && st.maxDate == MaxEnd(Spans(st.acts))
  }

  /** No line is stored twice, and every activity names one of them and starts no later than it ends. */
  predicate Stored(lines: seq<string>, acts: seq<Activity>) {
    ExcelActivities.Distinct(lines) && forall k :: 0 <= k < |acts| ==> acts[k].line in lines && acts[k].start <= acts[k].end
  }

  /**
   * What the running bounds mean: absent while there is no activity, and
   * otherwise the earliest start and the latest end, so every activity lies
   * between them.
   */
  lemma BoundsMeaning(st: NormalState)
    requires NormalBounds(st) && Stored(st.lines, st.acts)
    ensures st.acts == [] <==> st.minDate.None? && st.maxDate.None?
    ensures st.acts != [] ==> (st.minDate.Some? && st.maxDate.Some? && st.minDate.value <= st.maxDate.value
      && (exists k :: 0 <= k < |st.acts| && st.acts[k].start == st.minDate.value)
      && (exists k :: 0 <= k < |st.acts| && st.acts[k].end == st.maxDate.value)
      && forall k :: 0 <= k < |st.acts| ==> st.minDate.value <= st.acts[k].start && st.acts[k].end <= st.maxDate.value)
  {
    var spans := Spans(st.acts);
    MinStartIsLeast(spans);
    MaxEndIsGreatest(spans);
    if st.acts != [] {
      forall k | 0 <= k < |st.acts| ensures st.minDate.value <= st.acts[k].start && st.acts[k].end <= st.maxDate.value {
        assert spans[k] == (st.acts[k].start, st.acts[k].end);
      }
      var i :| 0 <= i < |spans| && spans[i].0 == st.minDate.value;
      var j :| 0 <= j < |spans| && spans[j].1 == st.maxDate.value;
      assert spans[i] == (st.acts[i].start, st.acts[i].end);
      assert spans[j] == (st.acts[j].start, st.acts[j].end);
    }
  }

  lemma SpansSnoc(acts: seq<Activity>, a: Activity)
    ensures Spans(acts + [a]) == Spans(acts) + [(a.start, a.end)]
    ensures (Spans(acts) + [(a.start, a.end)])[..|acts|] == Spans(acts)
  {
  }

  /** One row keeps the bounds and the lines in step with the activities, and creates only ranges over its marks. */
  lemma NormalRowKeeps(fechas: Dict<Column, int>, dateCols: seq<Column>, st: NormalState, row: Row)
    requires NormalBounds(st) && Stored(st.lines, st.acts) && NormalRow(fechas, dateCols, st, row).Ok?
    ensures var st' := NormalRow(fechas, dateCols, st, row).value;
      NormalBounds(st') && Stored(st'.lines, st'.acts)
      && st.lines <= st'.lines
      && (|st'.acts| > |st.acts| ==> SpansMarks(fechas, dateCols, row, st'.acts[|st.acts|]))
  {
    var st' := NormalRow(fechas, dateCols, st, row).value;
    if |st'.acts| > |st.acts| {
      var a := st'.acts[|st.acts|];
      assert st'.acts == st.acts + [a];
      SpansSnoc(st.acts, a);
      var ds := ActiveDates(fechas, dateCols, row).value;
      RangeOfMarks(fechas, dateCols, row, ds, a);
    }
  }

  /** No product is stored twice, and every activity's product is one of them. */
  predicate ProductsStored(products: seq<string>, acts: seq<Activity>) {
    ExcelActivities.Distinct(products)
    && forall k :: 0 <= k < |acts| && acts[k].product.Some? ==> acts[k].product.value in products
  }

  /**
   * The product of a row past the line check is looked up or created before
   * the activity and date tests, so a row that creates no activity still
   * leaves it.
   */
  lemma NormalRowProducts(fechas: Dict<Column, int>, dateCols: seq<Column>, st: NormalState, row: Row)
    requires ProductsStored(st.products, st.acts) && NormalRow(fechas, dateCols, st, row).Ok?
    ensures var st' := NormalRow(fechas, dateCols, st, row).value;
      ProductsStored(st'.products, st'.acts) && st.products <= st'.products
    ensures var st' := NormalRow(fechas, dateCols, st, row).value;
      LineCol in row && ProductCol in row ==>
        var last := if !IsNa(row[LineCol]) then Some(row[LineCol]) else st.last;
        (last.Some? && Truthy(last.value) && !IsNa(row[ProductCol]) ==> Str(row[ProductCol]) in st'.products)
        && (last.None? || !Truthy(last.value) || IsNa(row[ProductCol]) ==> st'.products == st.products)
  {
    var st' := NormalRow(fechas, dateCols, st, row).value;
    if |st'.acts| > |st.acts| {
      assert st'.acts == st.acts + [st'.acts[|st.acts|]];
    }
  }

  /** The normal loop keeps ProductsStored from the empty start. */
  lemma {:induction false} NormalRowsProducts(fechas: Dict<Column, int>, dateCols: seq<Column>, rows: seq<Row>)
    requires NormalRows(fechas, dateCols, rows).Ok?
    ensures var st := NormalRows(fechas, dateCols, rows).value;
      ProductsStored(st.products, st.acts)
    decreases |rows|
  {
    if |rows| > 0 {
      var init := rows[..|rows| - 1];
      var prev := NormalRows(fechas, dateCols, init);
      assert prev.Ok?;
      NormalRowsProducts(fechas, dateCols, init);
      NormalRowProducts(fechas, dateCols, prev.value, rows[|rows| - 1]);
    }
  }

  /** The last line cell that is not NaN, among the rows so far. */
  function LastLine(rows: seq<Row>): Option<Cell>
    decreases |rows|
  {
    if |rows| == 0 then None
    else
      var c := ExcelActivities.Lookup(rows[|rows| - 1], LineCol, Blank);
      if !IsNa(c) then Some(c) else LastLine(rows[..|rows| - 1])
  }

  /** The filled-down line is the line cell of the latest row that has one. */
  lemma {:induction false} LastLineIsLatest(rows: seq<Row>)
    ensures LastLine(rows).None? ==> forall j :: 0 <= j < |rows| ==> IsNa(ExcelActivities.Lookup(rows[j], LineCol, Blank))
    ensures LastLine(rows).Some? ==> exists j :: (0 <= j < |rows|
      && LastLine(rows).value == ExcelActivities.Lookup(rows[j], LineCol, Blank) && !IsNa(LastLine(rows).value)
      && forall j' :: j < j' < |rows| ==> IsNa(ExcelActivities.Lookup(rows[j'], LineCol, Blank)))
    decreases |rows|
  {
    if |rows| > 0 {
      var n := |rows| - 1;
      var init := rows[..n];
      LastLineIsLatest(init);
      if IsNa(ExcelActivities.Lookup(rows[n], LineCol, Blank)) {
        if LastLine(init).Some? {
          var j :| 0 <= j < |init| && LastLine(init).value == ExcelActivities.Lookup(init[j], LineCol, Blank)
            && !IsNa(LastLine(init).value)
            && forall j' :: j < j' < |init| ==> IsNa(ExcelActivities.Lookup(init[j'], LineCol, Blank));
          assert rows[j] == init[j];
          forall j' | j < j' < |rows| ensures IsNa(ExcelActivities.Lookup(rows[j'], LineCol, Blank)) {
            if j' < n {
              assert rows[j'] == init[j'];
            }
          }
        } else {
          forall j | 0 <= j < |rows| ensures IsNa(ExcelActivities.Lookup(rows[j], LineCol, Blank)) {
            if j < n {
              assert rows[j] == init[j];
            }
          }
        }
      }
    }
  }

  /**
   * What the normal loop keeps: only KeyErrors escape; the filled-down line is
   * the latest line cell; the bounds are those of the activities; every
   * activity's line is stored once.
   */
  lemma {:induction false} NormalRowsInv(fechas: Dict<Column, int>, dateCols: seq<Column>, rows: seq<Row>)
    ensures var r := NormalRows(fechas, dateCols, rows);
      r.Err? ==> r.error == MissingColumn || r.error == UndatedColumn
    ensures var r := NormalRows(fechas, dateCols, rows);
      r.Ok? ==> NormalBounds(r.value) && Stored(r.value.lines, r.value.acts) && r.value.last == LastLine(rows)
    decreases |rows|
  {
    if |rows| > 0 {
      var init := rows[..|rows| - 1];
      NormalRowsInv(fechas, dateCols, init);
      var prev := NormalRows(fechas, dateCols, init);
      if prev.Ok? && NormalRow(fechas, dateCols, prev.value, rows[|rows| - 1]).Ok? {
        NormalRowKeeps(fechas, dateCols, prev.value, rows[|rows| - 1]);
      }
    }
  }

  /** Rows above the first line value create nothing: not a line, not an activity, not a date. */
  lemma {:induction false} NoLineNothing(fechas: Dict<Column, int>, dateCols: seq<Column>, rows: seq<Row>)
    requires forall j :: 0 <= j < |rows| ==> LineCol in rows[j]
    requires LastLine(rows).None?
    ensures NormalRows(fechas, dateCols, rows) == Ok(NormalStart)
    decreases |rows|
  {
    if |rows| > 0 {
      NoLineNothing(fechas, dateCols, rows[..|rows| - 1]);
    }
  }

  /** A row with no x among its date columns creates no activity and leaves the bounds alone. */
  lemma UnmarkedRowSkipped(fechas: Dict<Column, int>, dateCols: seq<Column>, st: NormalState, row: Row)
    requires LineCol in row && ProductCol in row && ActivityCol in row
    requires forall i :: 0 <= i < |dateCols| ==> dateCols[i] in row && !IsMarked(row[dateCols[i]])
    ensures NormalRow(fechas, dateCols, st, row).Ok?
    ensures var st' := NormalRow(fechas, dateCols, st, row).value;
      st'.acts == st.acts && st'.minDate == st.minDate && st'.maxDate == st.maxDate
  {
    NoMarksNoDates(fechas, dateCols, row);
  }

  /** One row of the loop at lines 74-137, once the line cell has been read and is not Difusión. */
  method NormalRowStep(fechas: Dict<Column, int>, dateCols: seq<Column>, st: NormalState, row: Row)
      returns (r: Result<NormalState, ImportError>)
    requires LineCol in row
    ensures r == NormalRow(fechas, dateCols, st, row)
  {
    var linea := row[LineCol];
    var ultimaLinea := st.last;
    if !IsNa(linea) {
      ultimaLinea := Some(linea);
    }
    if ultimaLinea.None? || !Truthy(ultimaLinea.value) {
      return Ok(st.(last := ultimaLinea));
    }
    var lines := ExcelActivities.AddLine(st.lines, Str(ultimaLinea.value));
    if ProductCol !in row {
      return Err(MissingColumn);
    }
    var producto: Option<string> := None;
    var products := st.products;
    if !IsNa(row[ProductCol]) {
      producto := Some(Str(row[ProductCol]));
      products := ExcelActivities.AddLine(products, producto.value);
    }
    if ActivityCol !in row {
      return Err(MissingColumn);
    }
    if IsNa(row[ActivityCol]) {
      return Ok(st.(last := ultimaLinea, lines := lines, products := products));
    }
    var fechasActivas := ActiveDates(fechas, dateCols, row);
    if fechasActivas.Err? {
      return Err(fechasActivas.error);
    }
    if fechasActivas.value == [] {
      return Ok(st.(last := ultimaLinea, lines := lines, products := products));
    }
    var inicio := SeqMin(fechasActivas.value);
    var fin := SeqMax(fechasActivas.value);
    var minFecha := st.minDate;
    var maxFecha := st.maxDate;
    if minFecha.None? || inicio < minFecha.value {
      minFecha := Some(inicio);
    }
    if maxFecha.None? || fin > maxFecha.value {
      maxFecha := Some(fin);
    }
    if OwnersCol !in row {
      return Err(MissingColumn);
    }
    var a := Activity(Str(ultimaLinea.value), producto, Str(row[ActivityCol]), inicio, fin, Owners(row[OwnersCol]));
    r := Ok(NormalState(ultimaLinea, lines, products, st.acts + [a], minFecha, maxFecha));
  }

  // ---------------------------------------------------------------------
  // The dissemination rows (lines 145-202)
  // ---------------------------------------------------------------------

  /** The rows df.loc[idx + 2:] below the first Difusión row, and none when there is no such row. */
  function DisseminationPart(rows: seq<Row>): (r: seq<Row>)
    ensures |r| <= |rows| && r == rows[|rows| - |r|..]
    ensures r != [] ==> Stop(rows) < |rows| && Stop(rows) + 2 <= |rows| - |r|
    ensures Stop(rows) + 2 < |rows| ==> |rows| - |r| == Stop(rows) + 2
  {
    var k := Stop(rows);
    if k == |rows| then [] else rows[if k + 2 <= |rows| then k + 2 else |rows|..]
  }

  /** The dissemination loop's state: the lines, the products, and the activities created so far. */
  datatype DisseminationState = DisseminationState(lines: seq<string>, products: seq<string>, acts: seq<Activity>)

  /** One row of the dissemination section, filed under the line Difusión. */
  function DisseminationRow(fechas: Dict<Column, int>, dateCols: seq<Column>, st: DisseminationState, row: Row)
      : (r: Result<DisseminationState, ImportError>)
    ensures r.Err? ==> r.error == MissingColumn || r.error == UndatedColumn
    ensures r.Ok? ==> st.acts <= r.value.acts && |r.value.acts| <= |st.acts| + 1
  {
    if DisseminationNameCol !in row || DisseminationOwnersCol !in row || DisseminationProductCol !in row then
      Err(MissingColumn)
    else
      var nombre := row[DisseminationNameCol];
      if IsNa(nombre) then Ok(st)
      else
        var lines := ExcelActivities.AddLine(st.lines, "Difusión");
        var producto := row[DisseminationProductCol];
        var product := if !IsNa(producto) then Some(Strip(Str(producto))) else None;
        var products := if product.Some? then ExcelActivities.AddLine(st.products, product.value) else st.products;
        match ActiveDates(fechas, dateCols, row)
        case Err(e) => Err(e)
        case Ok(ds) =>
          if ds == [] then Ok(st.(lines := lines, products := products))
          else
            var a := Activity("Difusión", product, Strip(Str(nombre)), SeqMin(ds), SeqMax(ds), Owners(row[DisseminationOwnersCol]));
            Ok(DisseminationState(lines, products, st.acts + [a]))
  }

  /** The dissemination loop from a state, stopping at the first error. */
  function DisseminationRows(fechas: Dict<Column, int>, dateCols: seq<Column>, st0: DisseminationState, rows: seq<Row>)
      : Result<DisseminationState, ImportError>
    decreases |rows|
  {
    if |rows| == 0 then Ok(st0)
    else
      match DisseminationRows(fechas, dateCols, st0, rows[..|rows| - 1])
      case Err(e) => Err(e)
      case Ok(st) => DisseminationRow(fechas, dateCols, st, rows[|rows| - 1])
  }

  lemma DisseminationRowsSnoc(fechas: Dict<Column, int>, dateCols: seq<Column>, st0: DisseminationState, rows: seq<Row>,
                              i: int, st: DisseminationState)
    requires 0 <= i < |rows| && DisseminationRows(fechas, dateCols, st0, rows[..i]) == Ok(st)
    ensures DisseminationRows(fechas, dateCols, st0, rows[..i + 1]) == DisseminationRow(fechas, dateCols, st, rows[i])
  {
    assert rows[..i + 1][..i] == rows[..i];
  }

  /** An error stops the loop: the rows after it change nothing. */
  lemma {:induction false} DisseminationRowsErrSticks(fechas: Dict<Column, int>, dateCols: seq<Column>, st0: DisseminationState,
                                                      rows: seq<Row>, j: int)
    requires 0 <= j <= |rows| && DisseminationRows(fechas, dateCols, st0, rows[..j]).Err?
    ensures DisseminationRows(fechas, dateCols, st0, rows) == DisseminationRows(fechas, dateCols, st0, rows[..j])
    decreases |rows|
  {
    if j == |rows| {
      assert rows[..j] == rows;
    } else {
      var init := rows[..|rows| - 1];
      assert init[..j] == rows[..j];
      DisseminationRowsErrSticks(fechas, dateCols, st0, init, j);
    }
  }

  /** The dissemination loop only adds: lines kept, activities appended, each new one filed under Difusión. */
  predicate Extends(st0: DisseminationState, st: DisseminationState) {
    Stored(st.lines, st.acts) && st0.lines <= st.lines && st0.acts <= st.acts
    && forall k :: |st0.acts| <= k < |st.acts| ==> st.acts[k].line == "Difusión"
  }

  lemma ExtendsTrans(st0: DisseminationState, st1: DisseminationState, st2: DisseminationState)
    requires Extends(st0, st1) && Extends(st1, st2)
    ensures Extends(st0, st2)
  {
    forall k | |st0.acts| <= k < |st2.acts| ensures st2.acts[k].line == "Difusión" {
      if k < |st1.acts| {
        assert st2.acts[k] == st1.acts[k];
      }
    }
  }

  /** One dissemination row keeps the lines in step, and creates only a range over its marks under Difusión. */
  lemma DisseminationRowKeeps(fechas: Dict<Column, int>, dateCols: seq<Column>, st: DisseminationState, row: Row)
    requires Stored(st.lines, st.acts) && DisseminationRow(fechas, dateCols, st, row).Ok?
    ensures var st' := DisseminationRow(fechas, dateCols, st, row).value;
      Extends(st, st') && (|st'.acts| > |st.acts| ==> SpansMarks(fechas, dateCols, row, st'.acts[|st.acts|]))
  {
    var st' := DisseminationRow(fechas, dateCols, st, row).value;
    if |st'.acts| > |st.acts| {
      var a := st'.acts[|st.acts|];
      assert st'.acts == st.acts + [a];
      var ds := ActiveDates(fechas, dateCols, row).value;
      RangeOfMarks(fechas, dateCols, row, ds, a);
    }
  }

  /**
   * What the dissemination loop keeps: only KeyErrors escape, the lines only
   * grow and stay in step with the activities, and every new activity is
   * filed under Difusión with a start no later than its end.
   */
  lemma {:induction false} DisseminationRowsInv(fechas: Dict<Column, int>, dateCols: seq<Column>, st0: DisseminationState,
                                                rows: seq<Row>)
    requires Stored(st0.lines, st0.acts)
    ensures var r := DisseminationRows(fechas, dateCols, st0, rows);
      r.Err? ==> r.error == MissingColumn || r.error == UndatedColumn
    ensures var r := DisseminationRows(fechas, dateCols, st0, rows);
      r.Ok? ==> Extends(st0, r.value)
    decreases |rows|
  {
    if |rows| > 0 {
      var init := rows[..|rows| - 1];
      DisseminationRowsInv(fechas, dateCols, st0, init);
      var prev := DisseminationRows(fechas, dateCols, st0, init);
      if prev.Ok? && DisseminationRow(fechas, dateCols, prev.value, rows[|rows| - 1]).Ok? {
        DisseminationRowKeeps(fechas, dateCols, prev.value, rows[|rows| - 1]);
        ExtendsTrans(st0, prev.value, DisseminationRow(fechas, dateCols, prev.value, rows[|rows| - 1]).value);
      }
    } else {
      assert Extends(st0, st0);
    }
  }

  /**
   * A named dissemination row looks up or creates its stripped product before
   * the date test, so a row that creates no activity still leaves it.
   */
  lemma DisseminationRowProducts(fechas: Dict<Column, int>, dateCols: seq<Column>, st: DisseminationState, row: Row)
    requires ProductsStored(st.products, st.acts) && DisseminationRow(fechas, dateCols, st, row).Ok?
    ensures var st' := DisseminationRow(fechas, dateCols, st, row).value;
      ProductsStored(st'.products, st'.acts) && st.products <= st'.products
    ensures var st' := DisseminationRow(fechas, dateCols, st, row).value;
      DisseminationNameCol in row && DisseminationProductCol in row ==>
        (!IsNa(row[DisseminationNameCol]) && !IsNa(row[DisseminationProductCol]) ==>
          Strip(Str(row[DisseminationProductCol])) in st'.products)
        && (IsNa(row[DisseminationNameCol]) || IsNa(row[DisseminationProductCol]) ==> st'.products == st.products)
  {
    var st' := DisseminationRow(fechas, dateCols, st, row).value;
    if |st'.acts| > |st.acts| {
      assert st'.acts == st.acts + [st'.acts[|st.acts|]];
    }
  }

  /** The dissemination loop keeps ProductsStored, and the products only grow. */
  lemma {:induction false} DisseminationRowsProducts(fechas: Dict<Column, int>, dateCols: seq<Column>, st0: DisseminationState,
                                                    rows: seq<Row>)
    requires ProductsStored(st0.products, st0.acts) && DisseminationRows(fechas, dateCols, st0, rows).Ok?
    ensures var st := DisseminationRows(fechas, dateCols, st0, rows).value;
      ProductsStored(st.products, st.acts) && st0.products <= st.products
    decreases |rows|
  {
    if |rows| > 0 {
      var init := rows[..|rows| - 1];
      var prev := DisseminationRows(fechas, dateCols, st0, init);
      assert prev.Ok?;
      DisseminationRowsProducts(fechas, dateCols, st0, init);
      DisseminationRowProducts(fechas, dateCols, prev.value, rows[|rows| - 1]);
    }
  }

  /** One row of the loop at lines 153-202. */
  method DisseminationRowStep(fechas: Dict<Column, int>, dateCols: seq<Column>, st: DisseminationState, row: Row)
      returns (r: Result<DisseminationState, ImportError>)
    ensures r == DisseminationRow(fechas, dateCols, st, row)
  {
    if DisseminationNameCol !in row || DisseminationOwnersCol !in row || DisseminationProductCol !in row {
      return Err(MissingColumn);
    }
    var actividadNombre := row[DisseminationNameCol];
    var responsables := row[DisseminationOwnersCol];
    var productoNombre := row[DisseminationProductCol];
    if IsNa(actividadNombre) {
      return Ok(st);
    }
    var lines := ExcelActivities.AddLine(st.lines, "Difusión");
    var producto: Option<string> := None;
    var products := st.products;
    if !IsNa(productoNombre) {
      producto := Some(Strip(Str(productoNombre)));
      products := ExcelActivities.AddLine(products, producto.value);
    }
    var fechasActivas := ActiveDates(fechas, dateCols, row);
    if fechasActivas.Err? {
      return Err(fechasActivas.error);
    }
    if fechasActivas.value == [] {
      return Ok(st.(lines := lines, products := products));
    }
    var a := Activity("Difusión", producto, Strip(Str(actividadNombre)),
                      SeqMin(fechasActivas.value), SeqMax(fechasActivas.value), Owners(responsables));
    r := Ok(DisseminationState(lines, products, st.acts + [a]));
  }

  // ---------------------------------------------------------------------
  // The whole import (importar_gantt)
  // ---------------------------------------------------------------------

  /**
   * A Proyecto with everything the import stores under it, and the products
   * the import looked up or created (ProductoAsociado records it creates
   * without a project).
   */
  datatype Project = Project(name: string, start: int, end: Option<int>, lines: seq<string>, products: seq<string>,
                             normals: seq<Activity>, disseminations: seq<Activity>)

  /** Lines 204-208: the bounds replace the creation-day placeholder only when both are set. */
  function Finish(name: string, today: int, st: NormalState, ds: DisseminationState): Project {
    if st.minDate.Some? && st.maxDate.Some? then Project(name, st.minDate.value, st.maxDate, ds.lines, ds.products, st.acts, ds.acts)
    else Project(name, today, None, ds.lines, ds.products, st.acts, ds.acts)
  }

  /** importar_gantt, as the values it stores; today's date and year are parameters. */
  function Import(name: string, frame: Frame, initial: Option<int>, currentYear: int, today: int)
      : Result<Project, ImportError>
  {
    var dateCols := DateCols(frame.columns);
    match RealDates(dateCols, initial, currentYear)
    case None => Err(InvalidDate)
    case Some(fechas) =>
      match NormalPart(fechas, dateCols, frame.rows)
      case Err(e) => Err(e)
      case Ok(st) =>
        if LineCol !in frame.columns then Err(MissingColumn)
        else
          match DisseminationRows(fechas, dateCols, DisseminationState(st.lines, st.products, []), DisseminationPart(frame.rows))
          case Err(e) => Err(e)
          case Ok(ds) => Ok(Finish(name, today, st, ds))
  }

  /** The normal loop with its break at the Difusión row. */
  method NormalLoop(fechas: Dict<Column, int>, dateCols: seq<Column>, rows: seq<Row>)
      returns (r: Result<NormalState, ImportError>)
    ensures r == NormalPart(fechas, dateCols, rows)
  {
    var st := NormalStart;
    var i := 0;
    while i < |rows|
      invariant 0 <= i <= Stop(rows)
      invariant NormalRows(fechas, dateCols, rows[..i]) == Ok(st)
    {
      var row := rows[i];
      if LineCol !in row {
        NormalRowsSnoc(fechas, dateCols, rows, i, st);
        assert rows[..Stop(rows)][..i + 1] == rows[..i + 1];
        NormalRowsErrSticks(fechas, dateCols, rows[..Stop(rows)], i + 1);
        return Err(MissingColumn);
      }
      StopAt(rows, i);
      if IsSentinel(row[LineCol]) {
        break;
      }
      NormalRowsSnoc(fechas, dateCols, rows, i, st);
      var next := NormalRowStep(fechas, dateCols, st, row);
      if next.Err? {
        assert rows[..Stop(rows)][..i + 1] == rows[..i + 1];
        NormalRowsErrSticks(fechas, dateCols, rows[..Stop(rows)], i + 1);
        return Err(next.error);
      }
      st := next.value;
      i := i + 1;
    }
    assert i == Stop(rows);
    r := Ok(st);
  }

  /** The dissemination loop over the rows below the Difusión row. */
  method DisseminationLoop(fechas: Dict<Column, int>, dateCols: seq<Column>, st0: DisseminationState, rows: seq<Row>)
      returns (r: Result<DisseminationState, ImportError>)
    ensures r == DisseminationRows(fechas, dateCols, st0, rows)
  {
    var st := st0;
    var i := 0;
    while i < |rows|
      invariant 0 <= i <= |rows|
      invariant DisseminationRows(fechas, dateCols, st0, rows[..i]) == Ok(st)
    {
      DisseminationRowsSnoc(fechas, dateCols, st0, rows, i, st);
      var next := DisseminationRowStep(fechas, dateCols, st, rows[i]);
      if next.Err? {
        DisseminationRowsErrSticks(fechas, dateCols, st0, rows, i + 1);
        return Err(next.error);
      }
      st := next.value;
      i := i + 1;
    }
    assert rows[..i] == rows;
    r := Ok(st);
  }

  /**
   * importar_gantt: maps the date columns, creates the project with today's
   * date, runs the normal rows up to the Difusión row, then the rows from two
   * below it, and finally sets the project's dates.
   */
  method ImportGantt(name: string, frame: Frame, initial: Option<int>, currentYear: int, today: int)
      returns (r: Result<Project, ImportError>)
    ensures r == Import(name, frame, initial, currentYear, today)
  {
    var dateCols := DateCols(frame.columns);
    var fechasReales := GenerateRealDates(dateCols, initial, currentYear);
    if fechasReales.None? {
      return Err(InvalidDate);
    }
    var fechas := fechasReales.value;
    var normal := NormalLoop(fechas, dateCols, frame.rows);
    if normal.Err? {
      return Err(normal.error);
    }
    var st := normal.value;
    if LineCol !in frame.columns {
      return Err(MissingColumn);
    }
    var difusion := DisseminationLoop(fechas, dateCols, DisseminationState(st.lines, st.products, []), DisseminationPart(frame.rows));
    if difusion.Err? {
      return Err(difusion.error);
    }
    var inicio := today;
    var fin: Option<int> := None;
    if st.minDate.Some? && st.maxDate.Some? {
      inicio := st.minDate.value;
      fin := st.maxDate;
    }
    r := Ok(Project(name, inicio, fin, difusion.value.lines, difusion.value.products, st.acts, difusion.value.acts));
  }

  // ---------------------------------------------------------------------
  // Properties of the whole import
  // ---------------------------------------------------------------------

  /** The only ValueError is an impossible date among the headers. */
  lemma ImportInvalidDate(name: string, frame: Frame, initial: Option<int>, currentYear: int, today: int)
    ensures Import(name, frame, initial, currentYear, today) == Err(InvalidDate) <==>
      RealDates(DateCols(frame.columns), initial, currentYear).None?
  {
    var dateCols := DateCols(frame.columns);
    var fechas := RealDates(dateCols, initial, currentYear);
    if fechas.Some? {
      NormalRowsInv(fechas.value, dateCols, frame.rows[..Stop(frame.rows)]);
      var st := NormalPart(fechas.value, dateCols, frame.rows);
      if st.Ok? {
        DisseminationRowsInv(fechas.value, dateCols, DisseminationState(st.value.lines, st.value.products, []), DisseminationPart(frame.rows));
      }
    }
  }

  /**
   * The project's dates: with at least one normal activity, the earliest
   * start and the latest end among the normal activities; with none, the
   * creation day and no end.
   */
  lemma ImportBounds(name: string, frame: Frame, initial: Option<int>, currentYear: int, today: int)
    requires Import(name, frame, initial, currentYear, today).Ok?
    ensures var p := Import(name, frame, initial, currentYear, today).value;
      (p.normals == [] ==> p.start == today && p.end == None)
      && (p.normals != [] ==>
        Some(p.start) == MinStart(Spans(p.normals)) && p.end == MaxEnd(Spans(p.normals))
        && p.end.Some? && p.start <= p.end.value
        && forall k :: 0 <= k < |p.normals| ==> p.start <= p.normals[k].start && p.normals[k].end <= p.end.value)
  {
    var dateCols := DateCols(frame.columns);
    var fechas := RealDates(dateCols, initial, currentYear).value;
    NormalRowsInv(fechas, dateCols, frame.rows[..Stop(frame.rows)]);
    BoundsMeaning(NormalPart(fechas, dateCols, frame.rows).value);
  }

  /**
   * Every stored activity names one of the project's lines, no line is stored
   * twice, and the dissemination activities are all filed under Difusión with
   * a start no later than their end.
   */
  lemma ImportLines(name: string, frame: Frame, initial: Option<int>, currentYear: int, today: int)
    requires Import(name, frame, initial, currentYear, today).Ok?
    ensures var p := Import(name, frame, initial, currentYear, today).value;
      ExcelActivities.Distinct(p.lines)
      && (forall k :: 0 <= k < |p.normals| ==> p.normals[k].line in p.lines)
      && (forall k :: 0 <= k < |p.disseminations| ==>
        p.disseminations[k].line in p.lines && p.disseminations[k].line == "Difusión"
        && p.disseminations[k].start <= p.disseminations[k].end)
  {
    var dateCols := DateCols(frame.columns);
    var fechas := RealDates(dateCols, initial, currentYear).value;
    NormalRowsInv(fechas, dateCols, frame.rows[..Stop(frame.rows)]);
    var st := NormalPart(fechas, dateCols, frame.rows).value;
    var st0 := DisseminationState(st.lines, st.products, []);
    DisseminationRowsInv(fechas, dateCols, st0, DisseminationPart(frame.rows));
  }

  /** No product is stored twice, and every activity, normal or dissemination, names a stored product or none. */
  lemma ImportProducts(name: string, frame: Frame, initial: Option<int>, currentYear: int, today: int)
    requires Import(name, frame, initial, currentYear, today).Ok?
    ensures var p := Import(name, frame, initial, currentYear, today).value;
      ExcelActivities.Distinct(p.products)
      && (forall k :: 0 <= k < |p.normals| && p.normals[k].product.Some? ==> p.normals[k].product.value in p.products)
      && (forall k :: 0 <= k < |p.disseminations| && p.disseminations[k].product.Some? ==>
        p.disseminations[k].product.value in p.products)
  {
    var dateCols := DateCols(frame.columns);
    var fechas := RealDates(dateCols, initial, currentYear).value;
    NormalRowsProducts(fechas, dateCols, frame.rows[..Stop(frame.rows)]);
    var st := NormalPart(fechas, dateCols, frame.rows).value;
    var st0 := DisseminationState(st.lines, st.products, []);
    DisseminationRowsProducts(fechas, dateCols, st0, DisseminationPart(frame.rows));
    var ds := DisseminationRows(fechas, dateCols, st0, DisseminationPart(frame.rows)).value;
    forall k | 0 <= k < |st.acts| && st.acts[k].product.Some? ensures st.acts[k].product.value in ds.products {
      var i :| 0 <= i < |st.products| && st.products[i] == st.acts[k].product.value;
      assert ds.products[i] == st.products[i];
    }
  }

  /** Without a Difusión row there is no dissemination activity. */
  lemma NoSentinelNoDisseminations(name: string, frame: Frame, initial: Option<int>, currentYear: int, today: int)
    requires Import(name, frame, initial, currentYear, today).Ok?
    requires forall j :: 0 <= j < |frame.rows| ==> !SentinelRow(frame.rows[j])
    ensures Import(name, frame, initial, currentYear, today).value.disseminations == []
  {
    assert DisseminationPart(frame.rows) == [];
  }
}
