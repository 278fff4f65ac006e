/**
 * The row loops of backend/excel/import_gantt.py: the normal activities with
 * their work lines, products, date ranges and owners; the dissemination
 * activities; the flattening of the date mapping handed from the first to the
 * second; and importar_gantt's order of checks. The records the database
 * would hold are returned as values, and the transaction that wraps the
 * import is the Result: an error leaves nothing behind.
 */
module ExcelActivities {
  import opened Wrappers
  import opened Strings
  import opened Sheet
  import opened Dict
  import opened Bounds
  import opened Blocks
  import opened DateColumns
  import opened ExcelImport

  // ---------------------------------------------------------------------
  // From blocks to date ranges
  // ---------------------------------------------------------------------

  /**
   * The Fecha ranges a row's blocks give: a block is kept when the date
   * mapping has both its first and its last column, in block order.
   */
  function Resolve<K(==)>(fechas: Dict<K, int>, blocks: seq<(K, K)>): (r: seq<Span>)
    ensures |r| <= |blocks|
    decreases |blocks|
  {
    if |blocks| == 0 then []
    else
      var rest := Resolve(fechas, blocks[..|blocks| - 1]);
      var b := blocks[|blocks| - 1];
      match (Get(fechas, b.0), Get(fechas, b.1))
      case (Some(s), Some(e)) => rest + [(s, e)]
      case _ => rest
  }

  /** The block's first and last columns have the range's start and end as their dates. */
  predicate Gives<K(==)>(fechas: Dict<K, int>, b: (K, K), sp: Span) {
    Get(fechas, b.0) == Some(sp.0) && Get(fechas, b.1) == Some(sp.1)
  }

  /** A range is resolved exactly when some block has that date at its first and at its last column. */
  lemma {:induction false} ResolveMembers<K>(fechas: Dict<K, int>, blocks: seq<(K, K)>, sp: Span)
    ensures sp in Resolve(fechas, blocks) <==> exists k :: 0 <= k < |blocks| && Gives(fechas, blocks[k], sp)
    decreases |blocks|
  {
    if |blocks| > 0 {
      var n := |blocks| - 1;
      var init := blocks[..n];
      ResolveMembers(fechas, init, sp);
      if exists k :: 0 <= k < |init| && Gives(fechas, init[k], sp) {
        var k :| 0 <= k < |init| && Gives(fechas, init[k], sp);
        assert blocks[k] == init[k];
      }
      if exists k :: 0 <= k < |blocks| && Gives(fechas, blocks[k], sp) {
        var k :| 0 <= k < |blocks| && Gives(fechas, blocks[k], sp);
        if k < n {
          assert init[k] == blocks[k];
        }
      }
    }
  }

  /** When every block end has a date, every block gives a range. */
  lemma {:induction false} ResolveAll<K>(fechas: Dict<K, int>, blocks: seq<(K, K)>)
    requires forall k :: 0 <= k < |blocks| ==> blocks[k].0 in Keys(fechas) && blocks[k].1 in Keys(fechas)
    ensures |Resolve(fechas, blocks)| == |blocks|
    decreases |blocks|
  {
    if |blocks| > 0 {
      ResolveAll(fechas, blocks[..|blocks| - 1]);
      assert blocks[|blocks| - 1] in blocks;
    }
  }

  lemma ResolveSnoc<K>(fechas: Dict<K, int>, blocks: seq<(K, K)>, i: int)
    requires 0 <= i < |blocks|
    ensures Get(fechas, blocks[i].0).Some? && Get(fechas, blocks[i].1).Some? ==>
      Resolve(fechas, blocks[..i + 1]) ==
        Resolve(fechas, blocks[..i]) + [(Get(fechas, blocks[i].0).value, Get(fechas, blocks[i].1).value)]
    ensures Get(fechas, blocks[i].0).None? || Get(fechas, blocks[i].1).None? ==>
      Resolve(fechas, blocks[..i + 1]) == Resolve(fechas, blocks[..i])
  {
    assert blocks[..i + 1][..i] == blocks[..i];
  }

  lemma FoldSnoc(start0: Option<int>, end0: Option<int>, spans: seq<Span>, sp: Span)
    ensures FoldStart(start0, spans + [sp]) == Earlier(FoldStart(start0, spans), sp.0)
    ensures FoldEnd(end0, spans + [sp]) == Later(FoldEnd(end0, spans), sp.1)
  {
    assert (spans + [sp])[..|spans|] == spans;
  }

  /**
   * The loop over a row's blocks (lines 211-221 and 295-310): each block whose
   * two ends have a date is stored as a range and widens the running bounds.
   */
  method AddRanges<K(==)>(fechas: Dict<K, int>, blocks: seq<(K, K)>, start0: Option<int>, end0: Option<int>)
      returns (ranges: seq<Span>, start: Option<int>, end: Option<int>)
    ensures ranges == Resolve(fechas, blocks)
    ensures start == FoldStart(start0, ranges) && end == FoldEnd(end0, ranges)
  {
    ranges, start, end := [], start0, end0;
    var i := 0;
    while i < |blocks|
      invariant 0 <= i <= |blocks|
      invariant ranges == Resolve(fechas, blocks[..i])
      invariant start == FoldStart(start0, ranges) && end == FoldEnd(end0, ranges)
    {
      var fechaInicio := Get(fechas, blocks[i].0);
      var fechaFin := Get(fechas, blocks[i].1);
      ResolveSnoc(fechas, blocks, i);
      if fechaInicio.Some? && fechaFin.Some? {
        FoldSnoc(start0, end0, ranges, (fechaInicio.value, fechaFin.value));
        ranges := ranges + [(fechaInicio.value, fechaFin.value)];
        if start.None? || fechaInicio.value < start.value {
          start := Some(fechaInicio.value);
        }
        if end.None? || fechaFin.value > end.value {
          end := Some(fechaFin.value);
        }
        assert start == FoldStart(start0, ranges) && end == FoldEnd(end0, ranges);
      }
      i := i + 1;
    }
    assert blocks[..i] == blocks;
  }

  // ---------------------------------------------------------------------
  // Cells of a row
  // ---------------------------------------------------------------------

  /** row.get(key, default); a value of None behaves as NaN under pd.isna and pd.notna. */
  function Lookup<K>(row: map<K, Cell>, key: K, default: Cell): (c: Cell)
    ensures key in row ==> c == row[key]
    ensures key !in row ==> c == default
  {
    if key in row then row[key] else default
  }


  /** LineaTrabajo.get_or_create(nombre=name): the project's work lines, a new name added last. */
  function AddLine(lines: seq<string>, name: string): (r: seq<string>)
    ensures forall x :: x in r <==> x in lines || x == name
    ensures lines <= r && |r| <= |lines| + 1
    ensures Distinct(lines) ==> Distinct(r)
  {
    if name in lines then lines else lines + [name]
  }

  /** No name occurs twice. */
  predicate Distinct(xs: seq<string>) {
    forall i, j :: 0 <= i < j < |xs| ==> xs[i] != xs[j]
  }

  /** get_or_create for each name in turn. */
  function AddLines(lines: seq<string>, names: seq<string>): (r: seq<string>)
    ensures forall x :: x in r <==> x in lines || x in names
    ensures lines <= r
    ensures Distinct(lines) ==> Distinct(r)
    decreases |names|
  {
    if |names| == 0 then lines
    else
      var r := AddLines(AddLine(lines, names[0]), names[1..]);
      assert forall x :: x in names <==> x == names[0] || x in names[1..];
      r
  }

  /** No two names match under nombre__iexact. */
  predicate DistinctNoCase(xs: seq<string>) {
    forall i, j :: 0 <= i < j < |xs| ==> Lower(xs[i]) != Lower(xs[j])
  }

  /** Some name of xs matches name under nombre__iexact. */
  predicate HasNoCase(xs: seq<string>, name: string) {
    exists x :: x in xs && Lower(x) == Lower(name)
  }

  /** filter(nombre__iexact=name).first(): the position of the earliest record whose name matches name in any case. */
  function FindNoCase(xs: seq<string>, name: string): (r: Option<nat>)
    ensures r.Some? <==> HasNoCase(xs, name)
    ensures r.Some? ==> r.value < |xs| && Lower(xs[r.value]) == Lower(name)
    ensures r.Some? ==> forall j :: 0 <= j < r.value ==> Lower(xs[j]) != Lower(name)
    decreases |xs|
  {
    if |xs| == 0 then None
    else if Lower(xs[0]) == Lower(name) then Some(0)
    else
      assert forall x :: x in xs <==> x == xs[0] || x in xs[1..];
      match FindNoCase(xs[1..], name)
      case None => None
      case Some(k) => Some(k + 1)
  }

  /** The iexact lookup followed by create when it finds nothing: a name is added only when none matches it. */
  function AddNoCase(xs: seq<string>, name: string): (r: seq<string>)
    ensures xs <= r && |r| <= |xs| + 1
    ensures HasNoCase(r, name)
    ensures forall x :: x in r ==> x in xs || x == name
    ensures |r| == |xs| + 1 <==> !HasNoCase(xs, name)
    ensures DistinctNoCase(xs) ==> DistinctNoCase(r)
  {
    if FindNoCase(xs, name).Some? then xs
    else
      assert name in xs + [name];
      xs + [name]
  }

  /** The lookup and create for each name in turn. */
  function AddAllNoCase(xs: seq<string>, names: seq<string>): (r: seq<string>)
    ensures xs <= r
    ensures forall n :: n in names ==> HasNoCase(r, n)
    ensures forall x :: x in r ==> x in xs || x in names
    ensures DistinctNoCase(xs) ==> DistinctNoCase(r)
    decreases |names|
  {
    if |names| == 0 then xs
    else
      var r := AddAllNoCase(AddNoCase(xs, names[0]), names[1..]);
      assert forall x :: x in names <==> x == names[0] || x in names[1..];
      r
  }

  /**
   * The owners an activity is linked to from a cell: none for NaN, else the
   * non-empty trimmed pieces between the letters y, each linked once however
   * often and in whatever case it is repeated (get_or_create on the link).
   */
  function OwnerNames(c: Cell): (r: seq<string>)
    ensures IsNa(c) ==> r == []
    ensures !IsNa(c) ==> forall x :: x in r ==> x in SplitNames(c, 'y')
    ensures !IsNa(c) ==> forall n :: n in SplitNames(c, 'y') ==> HasNoCase(r, n)
    ensures DistinctNoCase(r)
  {
    if IsNa(c) then [] else AddAllNoCase([], SplitNames(c, 'y'))
  }

  // ---------------------------------------------------------------------
  // Normal activities (crear_proyecto_con_actividades_normales)
  // ---------------------------------------------------------------------

  const LineKey: ColKey := Pair("Unnamed: 0_level_0", Text("Linea de trabajo"))
  const ProductKey: ColKey := Pair("Unnamed: 5_level_0", Text("Producto Asociado"))
  const ActivityKey: ColKey := Pair("Unnamed: 3_level_0", Text("Actividad"))
  const OwnersKey: ColKey := Pair("Unnamed: 4_level_0", Text("Responsable(s)"))

  /** An Actividad as stored, with its Fecha ranges and the names of its Encargados. */
  datatype NormalActivity = NormalActivity(line: string, product: Option<string>, name: string,
                                           ranges: seq<Span>, owners: seq<string>)

  /**
   * The loop's state between rows: the filled-down line, the lines, the
   * products created so far, the activities and the running bounds.
   */
  datatype NormalState = NormalState(last: Option<Cell>, lines: seq<string>, products: seq<string>,
                                     acts: seq<NormalActivity>, start: Option<int>, end: Option<int>)

  const NormalStart := NormalState(None, [], [], [], None, None)

  /** One row of the normal table. */
  function NormalRow(fechas: Dict<ColKey, int>, dateCols: seq<ColKey>, st: NormalState, row: map<ColKey, Cell>)
      : (r: Result<NormalState, ImportError>)
    ensures r.Err? ==> r.error == MissingColumn
    ensures r.Ok? ==> st.acts <= r.value.acts && |r.value.acts| <= |st.acts| + 1
  {
    var linea := Lookup(row, LineKey, Blank);
    var last := if !IsNa(linea) then Some(linea) else st.last;
    if last.None? || !Truthy(last.value) then Ok(st.(last := last))
    else
      var lines := AddLine(st.lines, Str(last.value));
      var producto := Lookup(row, ProductKey, Blank);
      var products := if !IsNa(producto) then AddNoCase(st.products, Str(producto)) else st.products;
      var product := if !IsNa(producto) then Some(products[FindNoCase(products, Str(producto)).value]) else None;
      var nombre := Lookup(row, ActivityKey, Blank);
      if IsNa(nombre) then Ok(st.(last := last, lines := lines, products := products))
      else if !AllPresent(row, dateCols) then Err(MissingColumn)
      else
        var blocks := BlocksOf(row, dateCols);
        if blocks == [] then Ok(st.(last := last, lines := lines, products := products))
        else
          var ranges := Resolve(fechas, blocks);
          var a := NormalActivity(Str(last.value), product, Str(nombre), ranges, OwnerNames(Lookup(row, OwnersKey, Blank)));
          Ok(NormalState(last, lines, products, st.acts + [a], FoldStart(st.start, ranges), FoldEnd(st.end, ranges)))
  }

  /** The loop over the rows, stopping at the first error. */
  function NormalRows(fechas: Dict<ColKey, int>, dateCols: seq<ColKey>, rows: seq<map<ColKey, Cell>>)
      : Result<NormalState, ImportError>
    decreases |rows|
  {
    if |rows| == 0 then Ok(NormalStart)
    else
      match NormalRows(fechas, dateCols, rows[..|rows| - 1])
      case Err(e) => Err(e)
      case Ok(st) => NormalRow(fechas, dateCols, st, rows[|rows| - 1])
  }

  lemma NormalRowsSnoc(fechas: Dict<ColKey, int>, dateCols: seq<ColKey>, rows: seq<map<ColKey, Cell>>, i: int, st: NormalState)
    requires 0 <= i < |rows| && NormalRows(fechas, dateCols, rows[..i]) == Ok(st)
    ensures NormalRows(fechas, dateCols, rows[..i + 1]) == NormalRow(fechas, dateCols, st, rows[i])
  {
    assert rows[..i + 1][..i] == rows[..i];
  }

  /** An error stops the loop: the rows after it change nothing. */
  lemma {:induction false} NormalRowsErrSticks(fechas: Dict<ColKey, int>, dateCols: seq<ColKey>, rows: seq<map<ColKey, Cell>>, j: int)
    requires 0 <= j <= |rows| && NormalRows(fechas, dateCols, rows[..j]).Err?
    ensures NormalRows(fechas, dateCols, rows) == NormalRows(fechas, dateCols, rows[..j])
    decreases |rows|
  {
    if j == |rows| {
      assert rows[..j] == rows;
    } else {
      var init := rows[..|rows| - 1];
      assert init[..j] == rows[..j];
      NormalRowsErrSticks(fechas, dateCols, init, j);
    }
  }

  /** All the ranges of the activities, in creation order. */
  function NormalRanges(acts: seq<NormalActivity>): seq<Span>
    decreases |acts|
  {
    if |acts| == 0 then [] else NormalRanges(acts[..|acts| - 1]) + acts[|acts| - 1].ranges
  }

  /** The running bounds are the earliest start and the latest end over the ranges stored so far. */
  predicate NormalBounds(st: NormalState) {
    st.start == MinStart(NormalRanges(st.acts)) && st.end == MaxEnd(NormalRanges(st.acts))
  }

  lemma NormalRowBounds(fechas: Dict<ColKey, int>, dateCols: seq<ColKey>, st: NormalState, row: map<ColKey, Cell>)
    requires NormalBounds(st) && NormalRow(fechas, dateCols, st, row).Ok?
    ensures NormalBounds(NormalRow(fechas, dateCols, st, row).value)
  {
    var st' := NormalRow(fechas, dateCols, st, row).value;
    if st'.acts != st.acts {
      var a := st'.acts[|st.acts|];
      assert st'.acts == st.acts + [a];
      assert st'.acts[..|st.acts|] == st.acts;
      FoldAppend(None, None, NormalRanges(st.acts), a.ranges);
    }
  }

  /** The project's products match pairwise in no case, and every activity's product is one of them. */
  predicate NormalProducts(st: NormalState) {
    DistinctNoCase(st.products)
    && forall a :: a in st.acts && a.product.Some? ==> a.product.value in st.products
  }

  /**
   * The product of a row past the line check is looked up or created before
   * the activity and date tests, so a row that creates no activity still
   * leaves it; an activity is linked to the earliest product that matches its
   * cell in any case, and to none when the cell is NaN.
   */
  lemma NormalRowProducts(fechas: Dict<ColKey, int>, dateCols: seq<ColKey>, st: NormalState, row: map<ColKey, Cell>)
    requires NormalProducts(st) && NormalRow(fechas, dateCols, st, row).Ok?
    ensures var st' := NormalRow(fechas, dateCols, st, row).value;
      NormalProducts(st') && st.products <= st'.products
    ensures var st' := NormalRow(fechas, dateCols, st, row).value;
      var producto := Lookup(row, ProductKey, Blank);
      var linea := Lookup(row, LineKey, Blank);
      var last := if !IsNa(linea) then Some(linea) else st.last;
      (last.Some? && Truthy(last.value) && !IsNa(producto) ==> HasNoCase(st'.products, Str(producto)))
      && (last.None? || !Truthy(last.value) || IsNa(producto) ==> st'.products == st.products)
    ensures var st' := NormalRow(fechas, dateCols, st, row).value;
      var producto := Lookup(row, ProductKey, Blank);
      |st'.acts| > |st.acts| ==>
        (st'.acts[|st.acts|].product.Some? <==> !IsNa(producto))
        && (!IsNa(producto) ==> st'.acts[|st.acts|].product == Some(st'.products[FindNoCase(st'.products, Str(producto)).value]))
  {
    var st' := NormalRow(fechas, dateCols, st, row).value;
    if |st'.acts| > |st.acts| {
      assert st'.acts == st.acts + [st'.acts[|st.acts|]];
    }
  }

  /** The last line cell that is not NaN, among the rows so far. */
  function LastLine(rows: seq<map<ColKey, Cell>>): Option<Cell>
    decreases |rows|
  {
    if |rows| == 0 then None
    else
      var c := Lookup(rows[|rows| - 1], LineKey, Blank);
      if !IsNa(c) then Some(c) else LastLine(rows[..|rows| - 1])
  }

  /** The filled-down line is the line cell of the latest row that has one. */
  lemma {:induction false} LastLineIsLatest(rows: seq<map<ColKey, Cell>>)
    ensures LastLine(rows).None? ==> forall j :: 0 <= j < |rows| ==> IsNa(Lookup(rows[j], LineKey, Blank))
    ensures LastLine(rows).Some? ==> exists j :: (0 <= j < |rows|
      && LastLine(rows).value == Lookup(rows[j], LineKey, Blank) && !IsNa(LastLine(rows).value)
      && forall j' :: j < j' < |rows| ==> IsNa(Lookup(rows[j'], LineKey, Blank)))
    decreases |rows|
  {
    if |rows| > 0 {
      var n := |rows| - 1;
      var init := rows[..n];
      LastLineIsLatest(init);
      if IsNa(Lookup(rows[n], LineKey, Blank)) {
        if LastLine(init).Some? {
          var j :| 0 <= j < |init| && LastLine(init).value == Lookup(init[j], LineKey, Blank) && !IsNa(LastLine(init).value)
            && forall j' :: j < j' < |init| ==> IsNa(Lookup(init[j'], LineKey, Blank));
          assert rows[j] == init[j];
          forall j' | j < j' < |rows| ensures IsNa(Lookup(rows[j'], LineKey, Blank)) {
            if j' < n {
              assert rows[j'] == init[j'];
            }
          }
        } else {
          forall j | 0 <= j < |rows| ensures IsNa(Lookup(rows[j], LineKey, Blank)) {
            if j < n {
              assert rows[j] == init[j];
            }
          }
        }
      }
    }
  }

  /** What the loop keeps: the filled-down line and the bounds, and no error other than KeyError. */
  lemma {:induction false} NormalRowsInv(fechas: Dict<ColKey, int>, dateCols: seq<ColKey>, rows: seq<map<ColKey, Cell>>)
    ensures NormalRows(fechas, dateCols, rows).Err? ==> NormalRows(fechas, dateCols, rows).error == MissingColumn
    ensures NormalRows(fechas, dateCols, rows).Ok? ==>
      NormalBounds(NormalRows(fechas, dateCols, rows).value)
      && NormalRows(fechas, dateCols, rows).value.last == LastLine(rows)
    decreases |rows|
  {
    if |rows| > 0 {
      var init := rows[..|rows| - 1];
      NormalRowsInv(fechas, dateCols, init);
      var prev := NormalRows(fechas, dateCols, init);
      if prev.Ok? && NormalRow(fechas, dateCols, prev.value, rows[|rows| - 1]).Ok? {
        NormalRowBounds(fechas, dateCols, prev.value, rows[|rows| - 1]);
      }
    }
  }

  /** The loop keeps NormalProducts from the empty start. */
  lemma {:induction false} NormalRowsProducts(fechas: Dict<ColKey, int>, dateCols: seq<ColKey>, rows: seq<map<ColKey, Cell>>)
    requires NormalRows(fechas, dateCols, rows).Ok?
    ensures NormalProducts(NormalRows(fechas, dateCols, rows).value)
    decreases |rows|
  {
    if |rows| > 0 {
      var init := rows[..|rows| - 1];
      var prev := NormalRows(fechas, dateCols, init);
      assert prev.Ok?;
      NormalRowsProducts(fechas, dateCols, init);
      NormalRowProducts(fechas, dateCols, prev.value, rows[|rows| - 1]);
    }
  }

  /** Rows before the first line value create nothing: not a line, not an activity, not a date. */
  lemma {:induction false} NoLineNothing(fechas: Dict<ColKey, int>, dateCols: seq<ColKey>, rows: seq<map<ColKey, Cell>>)
    requires LastLine(rows).None?
    ensures NormalRows(fechas, dateCols, rows) == Ok(NormalStart)
    decreases |rows|
  {
    if |rows| > 0 {
      NoLineNothing(fechas, dateCols, rows[..|rows| - 1]);
    }
  }

  /** When every row has every date column, no KeyError can happen. */
  lemma {:induction false} NormalRowsOk(fechas: Dict<ColKey, int>, dateCols: seq<ColKey>, rows: seq<map<ColKey, Cell>>)
    requires forall j :: 0 <= j < |rows| ==> AllPresent(rows[j], dateCols)
    ensures NormalRows(fechas, dateCols, rows).Ok?
    decreases |rows|
  {
    if |rows| > 0 {
      NormalRowsOk(fechas, dateCols, rows[..|rows| - 1]);
      assert AllPresent(rows[|rows| - 1], dateCols);
    }
  }

  /** A row with no x among the date columns yields no activity and leaves the bounds alone. */
  lemma UnmarkedRowSkipped(fechas: Dict<ColKey, int>, dateCols: seq<ColKey>, st: NormalState, row: map<ColKey, Cell>)
    requires AllPresent(row, dateCols)
    requires forall i :: 0 <= i < |dateCols| ==> !IsMarked(row[dateCols[i]])
    ensures NormalRow(fechas, dateCols, st, row).Ok?
    ensures var st' := NormalRow(fechas, dateCols, st, row).value;
      st'.acts == st.acts && st'.start == st.start && st'.end == st.end
  {
    var marks := Marks(row, dateCols);
    NoMarksNoRuns(marks);
  }

  /** One row of the loop at lines 170-234. */
  method NormalRowStep(fechas: Dict<ColKey, int>, dateCols: seq<ColKey>, st: NormalState, row: map<ColKey, Cell>)
      returns (r: Result<NormalState, ImportError>)
    ensures r == NormalRow(fechas, dateCols, st, row)
  {
    var ultimaLinea := st.last;
    var linea := Lookup(row, LineKey, Blank);
    var productoNombre := Lookup(row, ProductKey, Blank);
    var actividadNombre := Lookup(row, ActivityKey, Blank);
    var responsables := Lookup(row, OwnersKey, Blank);
    if !IsNa(linea) {
      ultimaLinea := Some(linea);
    }
    if ultimaLinea.None? || !Truthy(ultimaLinea.value) {
      return Ok(st.(last := ultimaLinea));
    }
    var lines := AddLine(st.lines, Str(ultimaLinea.value));
    var products := st.products;
    var producto: Option<string> := None;
    if !IsNa(productoNombre) {
      var found := FindNoCase(products, Str(productoNombre));
      if found.None? {
        products := products + [Str(productoNombre)];
        found := FindNoCase(products, Str(productoNombre));
      }
      producto := Some(products[found.value]);
    }
    if IsNa(actividadNombre) {
      return Ok(st.(last := ultimaLinea, lines := lines, products := products));
    }
    var bloques := DetectBlocks(row, dateCols);
    if bloques.Err? {
      return Err(bloques.error);
    }
    if bloques.value == [] {
      return Ok(st.(last := ultimaLinea, lines := lines, products := products));
    }
    var ranges, primera, ultima := AddRanges(fechas, bloques.value, st.start, st.end);
    var a := NormalActivity(Str(ultimaLinea.value), producto, Str(actividadNombre), ranges, OwnerNames(responsables));
    r := Ok(NormalState(ultimaLinea, lines, products, st.acts + [a], primera, ultima));
  }

  /** What the normal import hands on: the project, the date columns and their date mapping. */
  datatype NormalImport = NormalImport(project: Project, dateCols: seq<ColKey>, fechas: Dict<ColKey, int>)

  /** A Proyecto with everything the import stores under it. */
  datatype Project = Project(name: string, start: Option<int>, end: Option<int>, lines: seq<string>,
                             products: seq<string>, normals: seq<NormalActivity>, disseminations: seq<DisseminationActivity>)

  /** crear_proyecto_con_actividades_normales, as the values it stores. */
  function ImportNormals(name: string, table: Table<ColKey>, currentYear: int): Result<NormalImport, ImportError> {
    match ValidateNormalColumns(table.columns)
    case Err(e) => Err(e)
    case Ok(info) =>
      var dateCols := Without(table.columns, info);
      match DatesOf(dateCols, currentYear)
      case Err(e) => Err(e)
      case Ok(fechas) =>
        if fechas == [] then Err(FormatError(NoDateColumns))
        else
          match NormalRows(fechas, dateCols, table.rows)
          case Err(e) => Err(e)
          case Ok(st) => Ok(NormalImport(Project(name, st.start, st.end, st.lines, st.products, st.acts, []), dateCols, fechas))
  }

  /**
   * crear_proyecto_con_actividades_normales: checks the information columns,
   * maps the date columns, refuses a sheet without any, then runs the rows and
   * sets the project's dates to the bounds found.
   */
  method CreateNormalActivities(name: string, table: Table<ColKey>, currentYear: int)
      returns (r: Result<NormalImport, ImportError>)
    ensures r == ImportNormals(name, table, currentYear)
  {
    var infoCols := ValidateNormalColumns(table.columns);
    if infoCols.Err? {
      return Err(infoCols.error);
    }
    var dateCols := Without(table.columns, infoCols.value);
    var fechasReales := MapDateColumns(dateCols, currentYear);
    if fechasReales.Err? {
      return Err(fechasReales.error);
    }
    var fechas := fechasReales.value;
    if fechas == [] {
      return Err(FormatError(NoDateColumns));
    }
    var st := NormalStart;
    var i := 0;
    while i < |table.rows|
      invariant 0 <= i <= |table.rows|
      invariant NormalRows(fechas, dateCols, table.rows[..i]) == Ok(st)
    {
      NormalRowsSnoc(fechas, dateCols, table.rows, i, st);
      var next := NormalRowStep(fechas, dateCols, st, table.rows[i]);
      if next.Err? {
        NormalRowsErrSticks(fechas, dateCols, table.rows, i + 1);
        return Err(next.error);
      }
      st := next.value;
      i := i + 1;
    }
    assert table.rows[..i] == table.rows;
    r := Ok(NormalImport(Project(name, st.start, st.end, st.lines, st.products, st.acts, []), dateCols, fechas));
  }

  // ---------------------------------------------------------------------
  // Dissemination activities (crear_actividades_difusion)
  // ---------------------------------------------------------------------

  /**
   * An ActividadDifusion as stored: its name, the products and lines it is
   * linked to (each once), its ranges and owners.
   */
  datatype DisseminationActivity = DisseminationActivity(name: string, products: seq<string>, lines: seq<string>,
                                                         ranges: seq<Span>, owners: seq<string>)

  /** The loop's state between rows: the project's lines and products, the activities so far and the project's dates. */
  datatype DisseminationState = DisseminationState(lines: seq<string>, products: seq<string>, acts: seq<DisseminationActivity>,
                                                   start: Option<int>, end: Option<int>)

  /** The name an activity cell gives, or None when the row is skipped: NaN, or blank once stripped. */
  function DisseminationName(c: Cell): (r: Option<string>)
    ensures r.Some? ==> r.value != "" && Strip(r.value) == r.value
    ensures r.None? <==> IsNa(c) || Strip(Str(c)) == ""
  {
    if IsNa(c) || Strip(Str(c)) == "" then None
    else
      StripStrip(Str(c));
      Some(Strip(Str(c)))
  }

  /** One row of the dissemination table. */
  function DisseminationRow(fechas: Dict<Cell, int>, dateCols: seq<Cell>, st: DisseminationState, row: map<Cell, Cell>)
      : (r: Result<DisseminationState, ImportError>)
    ensures r.Err? ==> r.error == MissingColumn
    ensures r.Ok? ==> st.acts <= r.value.acts && |r.value.acts| <= |st.acts| + 1
    ensures r.Ok? && |r.value.acts| == |st.acts| ==> r.value.start == st.start && r.value.end == st.end
    ensures r.Ok? && |r.value.acts| > |st.acts| ==>
      r.value.start == FoldStart(st.start, r.value.acts[|st.acts|].ranges)
      && r.value.end == FoldEnd(st.end, r.value.acts[|st.acts|].ranges)
  {
    match DisseminationName(Lookup(row, Text(DisseminationNames[0]), Blank))
    case None => Ok(st)
    case Some(name) =>
      var products := SplitNames(Lookup(row, Text(DisseminationNames[2]), Text("")), ';');
      var lines := SplitNames(Lookup(row, Text(DisseminationNames[3]), Text("")), ';');
      if !AllPresent(row, dateCols) then Err(MissingColumn)
      else
        var ranges := Resolve(fechas, BlocksOf(row, dateCols));
        var owners := OwnerNames(Lookup(row, Text(DisseminationNames[1]), Text("")));
        var a := DisseminationActivity(name, AddAllNoCase([], products), AddLines([], lines), ranges, owners);
        Ok(DisseminationState(AddLines(st.lines, lines), AddAllNoCase(st.products, products), st.acts + [a],
                              FoldStart(st.start, ranges), FoldEnd(st.end, ranges)))
  }

  /** The loop over the rows from a given state, stopping at the first error. */
  function DisseminationRows(fechas: Dict<Cell, int>, dateCols: seq<Cell>, st0: DisseminationState, rows: seq<map<Cell, Cell>>)
      : Result<DisseminationState, ImportError>
    decreases |rows|
  {
    if |rows| == 0 then Ok(st0)
    else
      match DisseminationRows(fechas, dateCols, st0, rows[..|rows| - 1])
      case Err(e) => Err(e)
      case Ok(st) => DisseminationRow(fechas, dateCols, st, rows[|rows| - 1])
  }

  lemma DisseminationRowsSnoc(fechas: Dict<Cell, int>, dateCols: seq<Cell>, st0: DisseminationState,
                              rows: seq<map<Cell, Cell>>, i: int, st: DisseminationState)
    requires 0 <= i < |rows| && DisseminationRows(fechas, dateCols, st0, rows[..i]) == Ok(st)
    ensures DisseminationRows(fechas, dateCols, st0, rows[..i + 1]) == DisseminationRow(fechas, dateCols, st, rows[i])
  {
    assert rows[..i + 1][..i] == rows[..i];
  }

  lemma {:induction false} DisseminationRowsErrSticks(fechas: Dict<Cell, int>, dateCols: seq<Cell>, st0: DisseminationState,
                                                     rows: seq<map<Cell, Cell>>, j: int)
    requires 0 <= j <= |rows| && DisseminationRows(fechas, dateCols, st0, rows[..j]).Err?
    ensures DisseminationRows(fechas, dateCols, st0, rows) == DisseminationRows(fechas, dateCols, st0, rows[..j])
    decreases |rows|
  {
    if j == |rows| {
      assert rows[..j] == rows;
    } else {
      var init := rows[..|rows| - 1];
      assert init[..j] == rows[..j];
      DisseminationRowsErrSticks(fechas, dateCols, st0, init, j);
    }
  }

  /** All the ranges of the dissemination activities, in creation order. */
  function DisseminationRanges(acts: seq<DisseminationActivity>): seq<Span>
    decreases |acts|
  {
    if |acts| == 0 then [] else DisseminationRanges(acts[..|acts| - 1]) + acts[|acts| - 1].ranges
  }

  /** The project's dates are its dates before the loop folded with every range stored since. */
  predicate DisseminationBounds(st0: DisseminationState, st: DisseminationState) {
    st.start == FoldStart(st0.start, DisseminationRanges(st.acts))
    && st.end == FoldEnd(st0.end, DisseminationRanges(st.acts))
  }

  lemma DisseminationRowBounds(fechas: Dict<Cell, int>, dateCols: seq<Cell>, st0: DisseminationState,
                               st: DisseminationState, row: map<Cell, Cell>)
    requires DisseminationBounds(st0, st) && DisseminationRow(fechas, dateCols, st, row).Ok?
    ensures DisseminationBounds(st0, DisseminationRow(fechas, dateCols, st, row).value)
  {
    var st' := DisseminationRow(fechas, dateCols, st, row).value;
    if st'.acts != st.acts {
      var a := st'.acts[|st.acts|];
      assert st'.acts == st.acts + [a];
      assert st'.acts[..|st.acts|] == st.acts;
      FoldAppend(st0.start, st0.end, DisseminationRanges(st.acts), a.ranges);
    }
  }

  /**
   * What the loop keeps: the project's dates are the initial ones folded with
   * the new ranges, the earlier activities and lines stay, and the only error
   * is KeyError.
   */
  lemma {:induction false} DisseminationRowsInv(fechas: Dict<Cell, int>, dateCols: seq<Cell>, st0: DisseminationState,
                                               rows: seq<map<Cell, Cell>>)
    requires st0.acts == []
    ensures DisseminationRows(fechas, dateCols, st0, rows).Err? ==>
      DisseminationRows(fechas, dateCols, st0, rows).error == MissingColumn
    ensures DisseminationRows(fechas, dateCols, st0, rows).Ok? ==>
      DisseminationBounds(st0, DisseminationRows(fechas, dateCols, st0, rows).value)
      && st0.lines <= DisseminationRows(fechas, dateCols, st0, rows).value.lines
    decreases |rows|
  {
    if |rows| > 0 {
      var init := rows[..|rows| - 1];
      DisseminationRowsInv(fechas, dateCols, st0, init);
      var prev := DisseminationRows(fechas, dateCols, st0, init);
      if prev.Ok? && DisseminationRow(fechas, dateCols, prev.value, rows[|rows| - 1]).Ok? {
        DisseminationRowBounds(fechas, dateCols, st0, prev.value, rows[|rows| - 1]);
      }
    }
  }

  /** A name matched by a list is matched by any list extending it. */
  lemma HasNoCaseGrows(xs: seq<string>, ys: seq<string>, name: string)
    requires xs <= ys && HasNoCase(xs, name)
    ensures HasNoCase(ys, name)
  {
    var x :| x in xs && Lower(x) == Lower(name);
    var i :| 0 <= i < |xs| && xs[i] == x;
    assert ys[i] == x;
  }

  /**
   * The project's products, from st0 on, only grow and match pairwise in no
   * case, and every product a dissemination activity is linked to matches one.
   */
  predicate DisseminationProducts(st0: DisseminationState, st: DisseminationState) {
    DistinctNoCase(st.products) && st0.products <= st.products
    && forall a, x :: a in st.acts && x in a.products ==> HasNoCase(st.products, x)
  }

  /**
   * A dissemination row links its activity to each product and line it names
   * once, however often and (for products) in whatever case the name repeats,
   * and creates the products no earlier record matches.
   */
  lemma DisseminationRowProducts(fechas: Dict<Cell, int>, dateCols: seq<Cell>, st0: DisseminationState,
                                 st: DisseminationState, row: map<Cell, Cell>)
    requires DisseminationProducts(st0, st) && DisseminationRow(fechas, dateCols, st, row).Ok?
    ensures DisseminationProducts(st0, DisseminationRow(fechas, dateCols, st, row).value)
    ensures var st' := DisseminationRow(fechas, dateCols, st, row).value;
      var names := SplitNames(Lookup(row, Text(DisseminationNames[2]), Text("")), ';');
      var lines := SplitNames(Lookup(row, Text(DisseminationNames[3]), Text("")), ';');
      |st'.acts| > |st.acts| ==>
        var a := st'.acts[|st.acts|];
        DistinctNoCase(a.products) && (forall x :: x in a.products ==> x in names)
        && (forall n :: n in names ==> HasNoCase(a.products, n) && HasNoCase(st'.products, n))
        && Distinct(a.lines) && (forall l :: l in a.lines <==> l in lines)
  {
    var st' := DisseminationRow(fechas, dateCols, st, row).value;
    forall a, x | a in st.acts && x in a.products ensures HasNoCase(st'.products, x) {
      HasNoCaseGrows(st.products, st'.products, x);
    }
    if |st'.acts| > |st.acts| {
      assert st'.acts == st.acts + [st'.acts[|st.acts|]];
    }
  }

  /** The loop keeps DisseminationProducts from a start whose products match pairwise in no case. */
  lemma {:induction false} DisseminationRowsProducts(fechas: Dict<Cell, int>, dateCols: seq<Cell>, st0: DisseminationState,
                                                    rows: seq<map<Cell, Cell>>)
    requires st0.acts == [] && DistinctNoCase(st0.products) && DisseminationRows(fechas, dateCols, st0, rows).Ok?
    ensures DisseminationProducts(st0, DisseminationRows(fechas, dateCols, st0, rows).value)
    decreases |rows|
  {
    if |rows| > 0 {
      var init := rows[..|rows| - 1];
      var prev := DisseminationRows(fechas, dateCols, st0, init);
      assert prev.Ok?;
      DisseminationRowsProducts(fechas, dateCols, st0, init);
      DisseminationRowProducts(fechas, dateCols, st0, prev.value, rows[|rows| - 1]);
    }
  }

  /** Dissemination ranges only widen the project's dates: the start never rises, the end never falls. */
  lemma DisseminationWidens(fechas: Dict<Cell, int>, dateCols: seq<Cell>, st0: DisseminationState, rows: seq<map<Cell, Cell>>)
    requires st0.acts == [] && DisseminationRows(fechas, dateCols, st0, rows).Ok?
    ensures var st := DisseminationRows(fechas, dateCols, st0, rows).value;
      (st0.start.Some? ==> st.start.Some? && st.start.value <= st0.start.value)
      && (st0.end.Some? ==> st.end.Some? && st.end.value >= st0.end.value)
  {
    DisseminationRowsInv(fechas, dateCols, st0, rows);
    FoldWidens(st0.start, st0.end, DisseminationRanges(DisseminationRows(fechas, dateCols, st0, rows).value.acts));
  }

  /** When every row has every date column, no KeyError can happen. */
  lemma {:induction false} DisseminationRowsOk(fechas: Dict<Cell, int>, dateCols: seq<Cell>, st0: DisseminationState,
                                              rows: seq<map<Cell, Cell>>)
    requires forall j :: 0 <= j < |rows| ==> AllPresent(rows[j], dateCols)
    ensures DisseminationRows(fechas, dateCols, st0, rows).Ok?
    decreases |rows|
  {
    if |rows| > 0 {
      DisseminationRowsOk(fechas, dateCols, st0, rows[..|rows| - 1]);
      assert AllPresent(rows[|rows| - 1], dateCols);
    }
  }

  /** One row of the loop at lines 254-324. */
  method DisseminationRowStep(fechas: Dict<Cell, int>, dateCols: seq<Cell>, st: DisseminationState, row: map<Cell, Cell>)
      returns (r: Result<DisseminationState, ImportError>)
    ensures r == DisseminationRow(fechas, dateCols, st, row)
  {
    var nombre := DisseminationName(Lookup(row, Text(DisseminationNames[0]), Blank));
    if nombre.None? {
      return Ok(st);
    }
    var productos := SplitNames(Lookup(row, Text(DisseminationNames[2]), Text("")), ';');
    var lineas := SplitNames(Lookup(row, Text(DisseminationNames[3]), Text("")), ';');
    var products := AddAllNoCase(st.products, productos);
    var lines := AddLines(st.lines, lineas);
    var bloques := DetectBlocks(row, dateCols);
    if bloques.Err? {
      return Err(bloques.error);
    }
    var ranges, inicio, fin := AddRanges(fechas, bloques.value, st.start, st.end);
    var responsables := OwnerNames(Lookup(row, Text(DisseminationNames[1]), Text("")));
    var a := DisseminationActivity(nombre.value, AddAllNoCase([], productos), AddLines([], lineas), ranges, responsables);
    r := Ok(DisseminationState(lines, products, st.acts + [a], inicio, fin));
  }

  /**
   * crear_actividades_difusion: runs the dissemination rows against the
   * flattened date columns, starting from the project as the normal import left it.
   */
  method CreateDisseminationActivities(fechas: Dict<Cell, int>, dateCols: seq<Cell>, st0: DisseminationState,
                                       rows: seq<map<Cell, Cell>>)
      returns (r: Result<DisseminationState, ImportError>)
    ensures r == DisseminationRows(fechas, dateCols, st0, rows)
  {
    var st := st0;
    var i := 0;
    while i < |rows|
      invariant 0 <= i <= |rows|
      invariant DisseminationRows(fechas, dateCols, st0, rows[..i]) == Ok(st)
    {
      DisseminationRowsSnoc(fechas, dateCols, st0, rows, i, st);
      var next := DisseminationRowStep(fechas, dateCols, st, rows[i]);
      if next.Err? {
        DisseminationRowsErrSticks(fechas, dateCols, st0, rows, i + 1);
        return Err(next.error);
      }
      st := next.value;
      i := i + 1;
    }
    assert rows[..i] == rows;
    r := Ok(st);
  }

  // ---------------------------------------------------------------------
  // Flattening and the whole import (importar_gantt)
  // ---------------------------------------------------------------------

  /** The key a date column has once flattened: the sub-header of a pair, a single header as it is. */
  function FlatKey(k: ColKey): (c: Cell)
    ensures c == Header(k).1
  {
    match k
    case Pair(_, sub) => sub
    case Flat(name) => name
  }

  /** The date mapping's entries with their keys flattened, in the mapping's order. */
  function FlatPairs(d: Dict<ColKey, int>): (ps: seq<(Cell, int)>)
    ensures |ps| == |d|
    ensures forall i :: 0 <= i < |d| ==> ps[i] == (FlatKey(d[i].0), d[i].1)
  {
    seq(|d|, i requires 0 <= i < |d| => (FlatKey(d[i].0), d[i].1))
  }

  /** fechas_reales_planas: the date mapping re-keyed by sub-header, later entries overwriting earlier ones. */
  function Flatten(d: Dict<ColKey, int>): Dict<Cell, int> {
    FromPairs(FlatPairs(d))
  }

  /** The flattened keys are exactly the flattened keys of the mapping. */
  lemma FlattenKeys(d: Dict<ColKey, int>, k: Cell)
    ensures k in Keys(Flatten(d)) <==> exists i :: 0 <= i < |d| && FlatKey(d[i].0) == k
  {
    FromPairsKeys(FlatPairs(d), k);
    if exists i :: 0 <= i < |d| && FlatKey(d[i].0) == k {
      var i :| 0 <= i < |d| && FlatKey(d[i].0) == k;
      assert FlatPairs(d)[i].0 == k;
    }
  }

  /** A flattened key takes the date of the last mapping entry that flattens to it. */
  lemma FlattenValues(d: Dict<ColKey, int>, k: Cell)
    ensures Get(Flatten(d), k) == LastValue(FlatPairs(d), k)
  {
    FromPairsGet(FlatPairs(d), k);
  }

  /**
   * Two date columns with the same sub-header (the same day number under two
   * months) become one flattened column, which takes the date of the later
   * of them that no further column shares, and the flattened mapping is shorter.
   */
  lemma FlattenMergesDays(d: Dict<ColKey, int>, i: int, j: int)
    requires 0 <= i < j < |d| && FlatKey(d[i].0) == FlatKey(d[j].0)
    requires forall m :: j < m < |d| ==> FlatKey(d[m].0) != FlatKey(d[j].0)
    ensures Get(Flatten(d), FlatKey(d[i].0)) == Some(d[j].1)
    ensures |Flatten(d)| < |d|
  {
    FlattenValues(d, FlatKey(d[j].0));
    LastValueAt(FlatPairs(d), FlatKey(d[j].0), j);
    FromPairsMerges(FlatPairs(d), i, j);
  }

  /**
   * The flattened keys are the day cells of real dates, so they are all truthy:
   * detectar_bloques_x's "if not bloque_activo" is a test for no open block.
   */
  lemma FlatKeysTruthy(cols: seq<ColKey>, y0: int, k: Cell)
    requires DatesOf(cols, y0).Ok? && k in Keys(Flatten(DatesOf(cols, y0).value))
    ensures Truthy(k)
  {
    var d := DatesOf(cols, y0).value;
    var hs := Headers(cols);
    var es := ScanHeaders(hs, y0).entries;
    var ps := Dated(cols, es);
    assert d == FromPairs(ps);
    FlattenKeys(d, k);
    var i :| 0 <= i < |d| && FlatKey(d[i].0) == k;
    var key := d[i].0;
    assert key in Keys(d);
    FromPairsKeys(ps, key);
    var m :| 0 <= m < |ps| && ps[m].0 == key;
    DatedIsKept(cols, hs, y0, m);
    EntryAt(hs, y0, m);
    var c := es[m].col;
    assert EntryValid(es[m]);
    assert hs[c] == Header(cols[c]);
    ToIntTruthy(FlatKey(cols[c]), es[m].day);
  }

  lemma FlatPairsSnoc(d: Dict<ColKey, int>, i: int)
    requires 0 <= i < |d|
    ensures FlatPairs(d[..i + 1]) == FlatPairs(d[..i]) + [(FlatKey(d[i].0), d[i].1)]
  {
    var a, b := FlatPairs(d[..i + 1]), FlatPairs(d[..i]) + [(FlatKey(d[i].0), d[i].1)];
    assert |a| == |b|;
    forall j | 0 <= j < |a| ensures a[j] == b[j] {
      if j < i {
        assert d[..i + 1][j] == d[..i][j];
      }
    }
  }

  /** The flattening loop at lines 339-344. */
  method FlattenDates(d: Dict<ColKey, int>) returns (planas: Dict<Cell, int>)
    ensures planas == Flatten(d)
  {
    planas := [];
    var i := 0;
    while i < |d|
      invariant 0 <= i <= |d|
      invariant planas == FromPairs(FlatPairs(d[..i]))
    {
      FlatPairsSnoc(d, i);
      FromPairsSnoc(FlatPairs(d[..i]), FlatKey(d[i].0), d[i].1);
      planas := Put(planas, FlatKey(d[i].0), d[i].1);
      i := i + 1;
    }
    assert d[..i] == d;
  }

  /** Every date range the project holds, normal ones first. */
  function ProjectRanges(p: Project): seq<Span> {
    NormalRanges(p.normals) + DisseminationRanges(p.disseminations)
  }

  /**
   * importar_gantt: the file name check, the normal import, the flattened date
   * mapping, the dissemination column check and the dissemination import, all
   * or nothing.
   */
  function Import(fileName: string, projectName: string, normals: Table<ColKey>, dissemination: Table<Cell>,
                  currentYear: int): Result<Project, ImportError>
  {
    if !IsExcelName(fileName) then Err(FormatError(NotAnExcelFile))
    else
      match ImportNormals(projectName, normals, currentYear)
      case Err(e) => Err(e)
      case Ok(ni) =>
        var planas := Flatten(ni.fechas);
        match ValidateDisseminationColumns(dissemination.columns)
        case Err(e) => Err(e)
        case Ok(_) =>
          var p := ni.project;
          match DisseminationRows(planas, Keys(planas), DisseminationState(p.lines, p.products, [], p.start, p.end), dissemination.rows)
          case Err(e) => Err(e)
          case Ok(st) => Ok(p.(start := st.start, end := st.end, lines := st.lines, products := st.products, disseminations := st.acts))
  }

  method ImportGantt(fileName: string, projectName: string, normals: Table<ColKey>, dissemination: Table<Cell>,
                     currentYear: int) returns (r: Result<Project, ImportError>)
    ensures r == Import(fileName, projectName, normals, dissemination, currentYear)
  {
    if !(EndsWith(fileName, ".xls") || EndsWith(fileName, ".xlsx")) {
      return Err(FormatError(NotAnExcelFile));
    }
    var n := CreateNormalActivities(projectName, normals, currentYear);
    if n.Err? {
      return Err(n.error);
    }
    var planas := FlattenDates(n.value.fechas);
    var dateColsNormales := Keys(planas);
    var valid := ValidateDisseminationColumns(dissemination.columns);
    if valid.Err? {
      return Err(valid.error);
    }
    var p := n.value.project;
    var d := CreateDisseminationActivities(planas, dateColsNormales, DisseminationState(p.lines, p.products, [], p.start, p.end),
                                           dissemination.rows);
    if d.Err? {
      return Err(d.error);
    }
    r := Ok(p.(start := d.value.start, end := d.value.end, lines := d.value.lines, products := d.value.products,
              disseminations := d.value.acts));
  }

  // ---------------------------------------------------------------------
  // What the import promises
  // ---------------------------------------------------------------------

  /** After the normal import the project's dates are the earliest start and latest end over its ranges. */
  lemma NormalImportBounds(name: string, table: Table<ColKey>, currentYear: int)
    requires ImportNormals(name, table, currentYear).Ok?
    ensures var p := ImportNormals(name, table, currentYear).value.project;
      p.start == MinStart(NormalRanges(p.normals)) && p.end == MaxEnd(NormalRanges(p.normals)) && p.disseminations == []
  {
    var info := ValidateNormalColumns(table.columns).value;
    var dateCols := Without(table.columns, info);
    var fechas := DatesOf(dateCols, currentYear).value;
    NormalRowsInv(fechas, dateCols, table.rows);
  }

  /** The errors of the normal import, and when each occurs. */
  lemma NormalImportErrors(name: string, table: Table<ColKey>, currentYear: int)
    ensures ImportNormals(name, table, currentYear) == Err(FormatError(NoNormalInfoColumns)) <==>
      forall c :: c in table.columns ==> !IsInfoColumn(c)
    ensures ValidateNormalColumns(table.columns).Ok? ==>
      var dateCols := Without(table.columns, ValidateNormalColumns(table.columns).value);
      DatesOf(dateCols, currentYear).Ok? ==>
        (ImportNormals(name, table, currentYear) == Err(FormatError(NoDateColumns)) <==>
          forall i :: 0 <= i < |dateCols| ==> ToInt(Header(dateCols[i]).1).None?)
    ensures ImportNormals(name, table, currentYear).Err? ==>
      ImportNormals(name, table, currentYear).error in
        {FormatError(NoNormalInfoColumns), FormatError(NoDateColumns), InvalidDate, MissingColumn}
  {
    var v := ValidateNormalColumns(table.columns);
    if v.Ok? {
      var dateCols := Without(table.columns, v.value);
      var m := DatesOf(dateCols, currentYear);
      if m.Ok? {
        DateMapEmpty(dateCols, Headers(dateCols), currentYear);
        forall i | 0 <= i < |dateCols| ensures KeptAt(Headers(dateCols), i) == ToInt(Header(dateCols[i]).1).Some? {
        }
        NormalRowsInv(m.value, dateCols, table.rows);
      }
    }
  }

  /** The project's dates are the earliest start and the latest end over all its ranges, normal and dissemination. */
  lemma ImportBounds(fileName: string, projectName: string, normals: Table<ColKey>, dissemination: Table<Cell>, currentYear: int)
    requires Import(fileName, projectName, normals, dissemination, currentYear).Ok?
    ensures var p := Import(fileName, projectName, normals, dissemination, currentYear).value;
      p.start == MinStart(ProjectRanges(p)) && p.end == MaxEnd(ProjectRanges(p))
  {
    var ni := ImportNormals(projectName, normals, currentYear).value;
    NormalImportBounds(projectName, normals, currentYear);
    var planas := Flatten(ni.fechas);
    var p0 := ni.project;
    var st0 := DisseminationState(p0.lines, p0.products, [], p0.start, p0.end);
    DisseminationRowsInv(planas, Keys(planas), st0, dissemination.rows);
    var st := DisseminationRows(planas, Keys(planas), st0, dissemination.rows).value;
    FoldAppend(None, None, NormalRanges(p0.normals), DisseminationRanges(st.acts));
  }

  /** The dissemination activities only widen the dates the normal import gave the project. */
  lemma ImportWidens(fileName: string, projectName: string, normals: Table<ColKey>, dissemination: Table<Cell>, currentYear: int)
    requires Import(fileName, projectName, normals, dissemination, currentYear).Ok?
    ensures var p := Import(fileName, projectName, normals, dissemination, currentYear).value;
      var p0 := ImportNormals(projectName, normals, currentYear).value.project;
      p.normals == p0.normals && p0.lines <= p.lines
      && (p0.start.Some? ==> p.start.Some? && p.start.value <= p0.start.value)
      && (p0.end.Some? ==> p.end.Some? && p.end.value >= p0.end.value)
  {
    var ni := ImportNormals(projectName, normals, currentYear).value;
    var planas := Flatten(ni.fechas);
    var p0 := ni.project;
    var st0 := DisseminationState(p0.lines, p0.products, [], p0.start, p0.end);
    DisseminationRowsInv(planas, Keys(planas), st0, dissemination.rows);
    DisseminationWidens(planas, Keys(planas), st0, dissemination.rows);
  }

  /**
   * The project's products match pairwise in no case; the normal import's
   * products stay, every normal activity's product is one of them, and every
   * product a dissemination activity is linked to matches one.
   */
  lemma ImportProducts(fileName: string, projectName: string, normals: Table<ColKey>, dissemination: Table<Cell>, currentYear: int)
    requires Import(fileName, projectName, normals, dissemination, currentYear).Ok?
    ensures var p := Import(fileName, projectName, normals, dissemination, currentYear).value;
      var p0 := ImportNormals(projectName, normals, currentYear).value.project;
      DistinctNoCase(p.products) && p0.products <= p.products
      && (forall a :: a in p.normals && a.product.Some? ==> a.product.value in p.products)
      && (forall a, x :: a in p.disseminations && x in a.products ==> HasNoCase(p.products, x))
  {
    var ni := ImportNormals(projectName, normals, currentYear).value;
    var info := ValidateNormalColumns(normals.columns).value;
    var dateCols := Without(normals.columns, info);
    NormalRowsProducts(DatesOf(dateCols, currentYear).value, dateCols, normals.rows);
    var planas := Flatten(ni.fechas);
    var p0 := ni.project;
    var st0 := DisseminationState(p0.lines, p0.products, [], p0.start, p0.end);
    DisseminationRowsProducts(planas, Keys(planas), st0, dissemination.rows);
    var p := Import(fileName, projectName, normals, dissemination, currentYear).value;
    forall a | a in p.normals && a.product.Some? ensures a.product.value in p.products {
      var i :| 0 <= i < |p0.products| && p0.products[i] == a.product.value;
      assert p.products[i] == a.product.value;
    }
  }

  /** The file name is checked first: a name without .xls or .xlsx is refused whatever the tables hold. */
  lemma ImportErrors(fileName: string, projectName: string, normals: Table<ColKey>, dissemination: Table<Cell>, currentYear: int)
    ensures Import(fileName, projectName, normals, dissemination, currentYear) == Err(FormatError(NotAnExcelFile)) <==>
      !IsExcelName(fileName)
    ensures IsExcelName(fileName) && ImportNormals(projectName, normals, currentYear).Ok? ==>
      (ValidateDisseminationColumns(dissemination.columns).Err? <==>
        Import(fileName, projectName, normals, dissemination, currentYear).Err?
        && Import(fileName, projectName, normals, dissemination, currentYear).error.FormatError?
        && Import(fileName, projectName, normals, dissemination, currentYear).error.problem.MissingDisseminationColumn?)
  {
    NormalImportErrors(projectName, normals, currentYear);
    var n := ImportNormals(projectName, normals, currentYear);
    if IsExcelName(fileName) && n.Ok? {
      var planas := Flatten(n.value.fechas);
      var p0 := n.value.project;
      DisseminationRowsInv(planas, Keys(planas), DisseminationState(p0.lines, p0.products, [], p0.start, p0.end), dissemination.rows);
    }
  }
}
