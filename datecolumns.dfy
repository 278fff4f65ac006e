/**
 * The reading of a Gantt sheet's two-level date headers that both importers
 * share: each date column carries a month name and a day; columns whose day is
 * not an integer are skipped; the year starts at a given value and moves on by
 * one each time the month number falls below the previous kept column's month;
 * each kept column then maps to date(year, month, day).
 */
module DateColumns {
  import opened Wrappers
  import opened Sheet
  import opened Calendar
  import opened Dict

  /** The keys of MES_MAP, in month order. */
  const MonthNames: seq<string> := ["enero", "febrero", "marzo", "abril", "mayo", "junio",
    "julio", "agosto", "septiembre", "octubre", "noviembre", "diciembre"]

  /** MES_MAP.get(name, 1): a known month name gives its number, anything else January. */
  function MonthNumber(name: string): (m: int)
    ensures 1 <= m <= 12
    ensures name in MonthNames ==> MonthNames[m - 1] == name
    ensures name !in MonthNames ==> m == 1
  {
    if name in MonthNames then MonthIndex(name, 0) + 1 else 1
  }

  function MonthIndex(name: string, from: nat): (i: nat)
    requires from <= 12 && name in MonthNames[from..]
    ensures from <= i < 12 && MonthNames[i] == name
    decreases 12 - from
  {
    if MonthNames[from] == name then from else MonthIndex(name, from + 1)
  }

  /** anio_inicial or datetime.now().year: an absent or zero initial year falls back to the current one. */
  function StartYear(initial: Option<int>, current: int): (y: int)
    ensures initial.Some? && initial.value != 0 ==> y == initial.value
    ensures initial.None? || initial.value == 0 ==> y == current
  {
    if initial.Some? && initial.value != 0 then initial.value else current
  }

  /** A kept column: its position among the date columns, and the date it stands for. */
  datatype Entry = Entry(col: int, year: int, month: int, day: int)

  /** The scan's state: the kept columns so far, the current year and the previous kept month. */
  datatype DateScan = DateScan(entries: seq<Entry>, year: int, prev: int)

  /** Every kept column lies among the first n columns. */
  predicate ColsBelow(entries: seq<Entry>, n: int) {
    forall k :: 0 <= k < |entries| ==> 0 <= entries[k].col < n
  }

  /** One column, with its lower-cased month header and its day cell. */
  function DateStep(st: DateScan, col: int, month: string, day: Cell): DateScan {
    match ToInt(day)
    case None => st
    case Some(d) =>
      var m := MonthNumber(month);
      var y := if m < st.prev then st.year + 1 else st.year;
      DateScan(st.entries + [Entry(col, y, m, d)], y, m)
  }

  /** The scan after the given headers (lower-cased month, day cell), from year y0 and previous month 0. */
  function ScanHeaders(hs: seq<(string, Cell)>, y0: int): (st: DateScan)
    ensures ColsBelow(st.entries, |hs|)
    decreases |hs|
  {
    if |hs| == 0 then DateScan([], y0, 0)
    else
      var n := |hs| - 1;
      DateStep(ScanHeaders(hs[..n], y0), n, hs[n].0, hs[n].1)
  }

  predicate EntryValid(e: Entry) {
    IsValidDate(e.year, e.month, e.day)
  }

  /** Every kept column names a real date: otherwise date(...) raises ValueError. */
  predicate AllValid(entries: seq<Entry>) {
    forall k :: 0 <= k < |entries| ==> EntryValid(entries[k])
  }

  /** The (column key, date) assignments the scan makes, in column order. */
  function Dated<K>(cols: seq<K>, entries: seq<Entry>): (ps: seq<(K, int)>)
    requires AllValid(entries) && ColsBelow(entries, |cols|)
    ensures |ps| == |entries|
    decreases |entries|
  {
    if |entries| == 0 then []
    else
      var e := entries[|entries| - 1];
      Dated(cols, entries[..|entries| - 1]) + [(cols[e.col], Ordinal(e.year, e.month, e.day))]
  }

  /**
   * The whole mapping, or None when a kept column names no real date: the
   * dictionary built by assigning each kept column its date, left to right.
   */
  function DateMap<K(==,!new)>(cols: seq<K>, hs: seq<(string, Cell)>, y0: int): (r: Option<Dict<K, int>>)
    requires |hs| == |cols|
    ensures r.Some? <==> AllValid(ScanHeaders(hs, y0).entries)
  {
    var st := ScanHeaders(hs, y0);
    if AllValid(st.entries) then Some(FromPairs(Dated(cols, st.entries))) else None
  }

  /** A column is kept when its day cell holds an integer. */
  predicate KeptAt(hs: seq<(string, Cell)>, i: int)
    requires 0 <= i < |hs|
  {
    ToInt(hs[i].1).Some?
  }

  /** The scan after one more header: unchanged on a skipped column, one entry longer on a kept one. */
  lemma ScanGrows(hs: seq<(string, Cell)>, y0: int)
    requires |hs| > 0
    ensures var n := |hs| - 1; var es0 := ScanHeaders(hs[..n], y0).entries; var es := ScanHeaders(hs, y0).entries;
      (!KeptAt(hs, n) ==> es == es0)
      && (KeptAt(hs, n) ==>
        (|es| == |es0| + 1 && es[..|es0|] == es0 && es[|es0|].col == n
         && es[|es0|].day == ToInt(hs[n].1).value && es[|es0|].month == MonthNumber(hs[n].0)))
  {
  }

  /** The entry's column is one of the headers, with the entry's day as its integer day and its month as header. */
  predicate EntryMatches(hs: seq<(string, Cell)>, e: Entry) {
    0 <= e.col < |hs| && ToInt(hs[e.col].1) == Some(e.day) && e.month == MonthNumber(hs[e.col].0)
  }

  /** Each kept column keeps its position, its integer day and the month its header names. */
  lemma {:induction false} EntryAt(hs: seq<(string, Cell)>, y0: int, k: int)
    requires 0 <= k < |ScanHeaders(hs, y0).entries|
    ensures EntryMatches(hs, ScanHeaders(hs, y0).entries[k])
    decreases |hs|
  {
    var n := |hs| - 1;
    var init := hs[..n];
    ScanGrows(hs, y0);
    var es0 := ScanHeaders(init, y0).entries;
    var es := ScanHeaders(hs, y0).entries;
    if k < |es0| {
      EntryAt(init, y0, k);
      assert es[k] == es0[k];
      assert hs[es0[k].col] == init[es0[k].col];
    }
  }

  /** The kept columns come in column order. */
  lemma {:induction false} ScanOrdered(hs: seq<(string, Cell)>, y0: int)
    ensures var es := ScanHeaders(hs, y0).entries;
      forall k :: 0 < k < |es| ==> es[k - 1].col < es[k].col
    decreases |hs|
  {
    if |hs| > 0 {
      var n := |hs| - 1;
      ScanOrdered(hs[..n], y0);
      ScanGrows(hs, y0);
      var es0 := ScanHeaders(hs[..n], y0).entries;
      var es := ScanHeaders(hs, y0).entries;
      forall k | 0 < k < |es| ensures es[k - 1].col < es[k].col {
        if k < |es0| {
          assert es[k] == es0[k] && es[k - 1] == es0[k - 1];
        } else {
          assert es[k - 1] == es0[k - 1];
        }
      }
    }
  }

  /** Every column with an integer day is kept. */
  lemma {:induction false} ScanComplete(hs: seq<(string, Cell)>, y0: int)
    ensures var es := ScanHeaders(hs, y0).entries;
      forall i :: 0 <= i < |hs| && KeptAt(hs, i) ==> exists k :: 0 <= k < |es| && es[k].col == i
    decreases |hs|
  {
    if |hs| > 0 {
      var n := |hs| - 1;
      var init := hs[..n];
      ScanComplete(init, y0);
      ScanGrows(hs, y0);
      var es0 := ScanHeaders(init, y0).entries;
      var es := ScanHeaders(hs, y0).entries;
      forall i | 0 <= i < |hs| && KeptAt(hs, i)
        ensures exists k :: 0 <= k < |es| && es[k].col == i
      {
        if i < n {
          assert init[i] == hs[i];
          assert KeptAt(init, i);
          var k :| 0 <= k < |es0| && es0[k].col == i;
          assert es[k] == es0[k];
        } else {
          assert es[|es0|].col == i;
        }
      }
    }
  }

  /** The state carries the last kept column's year and month, or y0 and 0 while none is kept. */
  lemma {:induction false} ScanLast(hs: seq<(string, Cell)>, y0: int)
    ensures var st := ScanHeaders(hs, y0);
      (st.entries == [] ==> st.year == y0 && st.prev == 0)
      && (st.entries != [] ==>
        st.year == st.entries[|st.entries| - 1].year && st.prev == st.entries[|st.entries| - 1].month)
    decreases |hs|
  {
    if |hs| > 0 {
      ScanLast(hs[..|hs| - 1], y0);
    }
  }

  /** The kept columns are exactly those whose day is an integer, in order, each with its day and month. */
  lemma ScanShape(hs: seq<(string, Cell)>, y0: int)
    ensures var es := ScanHeaders(hs, y0).entries;
      (forall k :: 0 <= k < |es| ==> EntryMatches(hs, es[k]))
      && (forall k :: 0 < k < |es| ==> es[k - 1].col < es[k].col)
      && (forall i :: 0 <= i < |hs| && KeptAt(hs, i) ==> exists k :: 0 <= k < |es| && es[k].col == i)
  {
    forall k | 0 <= k < |ScanHeaders(hs, y0).entries| ensures EntryMatches(hs, ScanHeaders(hs, y0).entries[k]) {
      EntryAt(hs, y0, k);
    }
    ScanOrdered(hs, y0);
    ScanComplete(hs, y0);
  }

  /**
   * The year starts at y0 and rises by exactly one at each kept column whose
   * month is below the previous kept column's month; skipped columns play no part.
   */
  lemma {:induction false} YearRollover(hs: seq<(string, Cell)>, y0: int)
    ensures var es := ScanHeaders(hs, y0).entries;
      (|es| > 0 ==> es[0].year == y0)
      && forall k :: 0 < k < |es| ==>
        es[k].year == es[k - 1].year + (if es[k].month < es[k - 1].month then 1 else 0)
    decreases |hs|
  {
    if |hs| > 0 {
      var n := |hs| - 1;
      YearRollover(hs[..n], y0);
      ScanLast(hs[..n], y0);
      ScanGrows(hs, y0);
      var es0 := ScanHeaders(hs[..n], y0).entries;
      var es := ScanHeaders(hs, y0).entries;
      forall k | 0 < k < |es|
        ensures es[k].year == es[k - 1].year + (if es[k].month < es[k - 1].month then 1 else 0)
      {
        assert es[k - 1] == es0[k - 1];
        if k < |es0| {
          assert es[k] == es0[k];
        }
      }
    }
  }

  /** (year, month) does not go backwards from one kept column to a later one, and no year is below y0. */
  lemma YearMonthOrdered(hs: seq<(string, Cell)>, y0: int, j: int, k: int)
    requires var es := ScanHeaders(hs, y0).entries; 0 <= j <= k < |es|
    ensures var es := ScanHeaders(hs, y0).entries;
      y0 <= es[j].year <= es[k].year
      && (es[j].year == es[k].year ==> es[j].month <= es[k].month)
  {
    var es := ScanHeaders(hs, y0).entries;
    YearRollover(hs, y0);
    ScanShape(hs, y0);
    OrderedFrom(es, y0, j, k);
  }

  lemma {:induction false} OrderedFrom(es: seq<Entry>, y0: int, j: int, k: int)
    requires 0 <= j <= k < |es|
    requires es[0].year == y0
    requires forall i :: 0 <= i < |es| ==> 1 <= es[i].month <= 12
    requires forall i :: 0 < i < |es| ==>
      es[i].year == es[i - 1].year + (if es[i].month < es[i - 1].month then 1 else 0)
    ensures y0 <= es[j].year <= es[k].year
    ensures es[j].year == es[k].year ==> es[j].month <= es[k].month
    decreases k
  {
    if k > 0 {
      if j < k {
        OrderedFrom(es, y0, j, k - 1);
      } else {
        OrderedFrom(es, y0, 0, k - 1);
      }
    }
  }

  /** The mapping's keys are the keys of the columns whose day is an integer. */
  lemma DateMapKeys<K(!new)>(cols: seq<K>, hs: seq<(string, Cell)>, y0: int, key: K)
    requires |hs| == |cols| && DateMap(cols, hs, y0).Some?
    ensures key in Keys(DateMap(cols, hs, y0).value) <==>
      exists i :: 0 <= i < |cols| && cols[i] == key && KeptAt(hs, i)
  {
    if exists i :: 0 <= i < |cols| && cols[i] == key && KeptAt(hs, i) {
      var i :| 0 <= i < |cols| && cols[i] == key && KeptAt(hs, i);
      KeptKeyIn(cols, hs, y0, i);
    }
    if key in Keys(DateMap(cols, hs, y0).value) {
      KeyInKept(cols, hs, y0, key);
    }
  }

  lemma KeptKeyIn<K(!new)>(cols: seq<K>, hs: seq<(string, Cell)>, y0: int, i: int)
    requires |hs| == |cols| && DateMap(cols, hs, y0).Some?
    requires 0 <= i < |cols| && KeptAt(hs, i)
    ensures cols[i] in Keys(DateMap(cols, hs, y0).value)
  {
    var ps := Dated(cols, ScanHeaders(hs, y0).entries);
    FromPairsKeys(ps, cols[i]);
    KeptIsDated(cols, hs, y0, i);
  }

  lemma KeyInKept<K(!new)>(cols: seq<K>, hs: seq<(string, Cell)>, y0: int, key: K)
    requires |hs| == |cols| && DateMap(cols, hs, y0).Some?
    requires key in Keys(DateMap(cols, hs, y0).value)
    ensures exists i :: 0 <= i < |cols| && cols[i] == key && KeptAt(hs, i)
  {
    var es := ScanHeaders(hs, y0).entries;
    var ps := Dated(cols, es);
    FromPairsKeys(ps, key);
    var m :| 0 <= m < |ps| && ps[m].0 == key;
    DatedIsKept(cols, hs, y0, m);
    var i := es[m].col;
    assert 0 <= i < |cols| && cols[i] == key && KeptAt(hs, i);
  }

  /** A kept column's key is the key of some assignment. */
  lemma KeptIsDated<K>(cols: seq<K>, hs: seq<(string, Cell)>, y0: int, i: int)
    requires |hs| == |cols| && AllValid(ScanHeaders(hs, y0).entries)
    requires 0 <= i < |cols| && KeptAt(hs, i)
    ensures var es := ScanHeaders(hs, y0).entries;
      exists m :: 0 <= m < |es| && Dated(cols, es)[m].0 == cols[i]
  {
    var es := ScanHeaders(hs, y0).entries;
    ScanComplete(hs, y0);
    DatedAt(cols, es);
    var k :| 0 <= k < |es| && es[k].col == i;
    assert Dated(cols, es)[k].0 == cols[i];
  }

  /** An assignment's key is the key of a kept column. */
  lemma DatedIsKept<K>(cols: seq<K>, hs: seq<(string, Cell)>, y0: int, m: int)
    requires |hs| == |cols| && AllValid(ScanHeaders(hs, y0).entries)
    requires 0 <= m < |ScanHeaders(hs, y0).entries|
    ensures var es := ScanHeaders(hs, y0).entries;
      0 <= es[m].col < |cols| && KeptAt(hs, es[m].col) && Dated(cols, es)[m].0 == cols[es[m].col]
  {
    var es := ScanHeaders(hs, y0).entries;
    DatedAt(cols, es);
    EntryAt(hs, y0, m);
  }

  /** Each key maps to the date of the last kept column carrying it: later columns win. */
  lemma DateMapValues<K(!new)>(cols: seq<K>, hs: seq<(string, Cell)>, y0: int, key: K)
    requires |hs| == |cols| && DateMap(cols, hs, y0).Some?
    ensures Get(DateMap(cols, hs, y0).value, key) == LastValue(Dated(cols, ScanHeaders(hs, y0).entries), key)
  {
    FromPairsGet(Dated(cols, ScanHeaders(hs, y0).entries), key);
  }

  /** Each assignment pairs a kept column's key with its date. */
  lemma {:induction false} DatedAt<K>(cols: seq<K>, entries: seq<Entry>)
    requires AllValid(entries) && ColsBelow(entries, |cols|)
    ensures forall k :: 0 <= k < |entries| ==>
      Dated(cols, entries)[k] == (cols[entries[k].col], Ordinal(entries[k].year, entries[k].month, entries[k].day))
    decreases |entries|
  {
    if |entries| > 0 {
      DatedAt(cols, entries[..|entries| - 1]);
    }
  }

  /** The mapping is empty exactly when no column has an integer day. */
  lemma DateMapEmpty<K(!new)>(cols: seq<K>, hs: seq<(string, Cell)>, y0: int)
    requires |hs| == |cols| && DateMap(cols, hs, y0).Some?
    ensures DateMap(cols, hs, y0).value == [] <==> forall i :: 0 <= i < |hs| ==> !KeptAt(hs, i)
  {
    var es := ScanHeaders(hs, y0).entries;
    if |es| > 0 {
      EntryAt(hs, y0, 0);
      var e := es[0];
      assert EntryMatches(hs, e);
      assert KeptAt(hs, e.col);
      var ps := Dated(cols, es);
      FromPairsKeys(ps, ps[0].0);
    } else {
      ScanComplete(hs, y0);
    }
  }

  /** The kept columns of a prefix of the headers are a prefix of the kept columns of all of them. */
  lemma {:induction false} ScanPrefix(hs: seq<(string, Cell)>, y0: int, j: int)
    requires 0 <= j <= |hs|
    ensures ScanHeaders(hs[..j], y0).entries <= ScanHeaders(hs, y0).entries
    decreases |hs| - j
  {
    if j < |hs| {
      var n := |hs| - 1;
      ScanPrefix(hs[..n], y0, j);
      assert hs[..n][..j] == hs[..j];
      StepExtends(ScanHeaders(hs[..n], y0), n, hs[n].0, hs[n].1);
    } else {
      assert hs[..j] == hs;
    }
  }

  /** A step only ever appends to the kept columns. */
  lemma StepExtends(st: DateScan, col: int, month: string, day: Cell)
    ensures st.entries <= DateStep(st, col, month, day).entries
  {
  }

  /** A kept column that names no real date makes the whole mapping fail. */
  lemma InvalidPrefix(hs: seq<(string, Cell)>, y0: int, j: int)
    requires 0 <= j <= |hs|
    requires !AllValid(ScanHeaders(hs[..j], y0).entries)
    ensures !AllValid(ScanHeaders(hs, y0).entries)
  {
    ScanPrefix(hs, y0, j);
    var es0 := ScanHeaders(hs[..j], y0).entries;
    var k :| 0 <= k < |es0| && !EntryValid(es0[k]);
    assert es0[k] == ScanHeaders(hs, y0).entries[k];
  }

  /** The scan of one more header is one more step. */
  lemma ScanHeadersStep(hs: seq<(string, Cell)>, y0: int, i: int)
    requires 0 <= i < |hs|
    ensures ScanHeaders(hs[..i + 1], y0) == DateStep(ScanHeaders(hs[..i], y0), i, hs[i].0, hs[i].1)
  {
    assert hs[..i + 1][..i] == hs[..i];
  }

  lemma ValidSnoc(es: seq<Entry>, e: Entry, n: int)
    requires AllValid(es) && EntryValid(e) && 0 <= e.col < n
    requires forall k :: 0 <= k < |es| ==> 0 <= es[k].col < n
    ensures AllValid(es + [e]) && ColsBelow(es + [e], n)
  {
    assert forall k :: 0 <= k < |es| ==> (es + [e])[k] == es[k];
  }

  /** A header whose day is an integer adds its entry, rolling the year over when its month falls. */
  lemma StepKept(hs: seq<(string, Cell)>, y0: int, i: int, st: DateScan, y: int, m: int, d: int)
    requires 0 <= i < |hs| && ScanHeaders(hs[..i], y0) == st
    requires ToInt(hs[i].1) == Some(d) && m == MonthNumber(hs[i].0)
    requires y == if m < st.prev then st.year + 1 else st.year
    ensures ScanHeaders(hs[..i + 1], y0) == DateScan(st.entries + [Entry(i, y, m, d)], y, m)
  {
    ScanHeadersStep(hs, y0, i);
  }

  /** A header whose day is not an integer is skipped. */
  lemma StepSkipped(hs: seq<(string, Cell)>, y0: int, i: int)
    requires 0 <= i < |hs| && ToInt(hs[i].1).None?
    ensures ScanHeaders(hs[..i + 1], y0) == ScanHeaders(hs[..i], y0)
  {
    ScanHeadersStep(hs, y0, i);
  }

  /** One more kept column adds one more assignment. */
  lemma DatedSnoc<K>(cols: seq<K>, entries: seq<Entry>, e: Entry)
    requires AllValid(entries) && ColsBelow(entries, |cols|) && EntryValid(e) && 0 <= e.col < |cols|
    ensures AllValid(entries + [e]) && ColsBelow(entries + [e], |cols|)
    ensures Dated(cols, entries + [e]) == Dated(cols, entries) + [(cols[e.col], Ordinal(e.year, e.month, e.day))]
  {
    assert (entries + [e])[..|entries|] == entries;
    assert forall k :: 0 <= k < |entries| ==> entries[k] == (entries + [e])[k];
  }

  // ---------------------------------------------------------------------
  // The loop itself
  // ---------------------------------------------------------------------

  /** What the loop keeps after the first i columns: the scan so far and its dictionary. */
  ghost predicate MapInv<K(!new)>(cols: seq<K>, hs: seq<(string, Cell)>, y0: int, i: int, st: DateScan, fechas: Dict<K, int>) {
    |hs| == |cols| && 0 <= i <= |cols|
    && ScanHeaders(hs[..i], y0) == st
    && AllValid(st.entries) && ColsBelow(st.entries, i)
    && fechas == FromPairs(Dated(cols, st.entries))
  }

  /** The month and year a kept column stands for. */
  predicate KeptDate(hs: seq<(string, Cell)>, i: int, st: DateScan, y: int, m: int, d: int)
    requires 0 <= i < |hs|
  {
    ToInt(hs[i].1) == Some(d) && m == MonthNumber(hs[i].0)
    && y == (if m < st.prev then st.year + 1 else st.year)
  }

  /** A column whose day is not an integer is skipped. */
  lemma MapSkip<K(!new)>(cols: seq<K>, hs: seq<(string, Cell)>, y0: int, i: int, st: DateScan, fechas: Dict<K, int>)
    requires i < |cols| && MapInv(cols, hs, y0, i, st, fechas)
    requires ToInt(hs[i].1).None?
    ensures MapInv(cols, hs, y0, i + 1, st, fechas)
  {
    StepSkipped(hs, y0, i);
  }

  /** A kept column with a real date is assigned that date. */
  lemma MapKeep<K(!new)>(cols: seq<K>, hs: seq<(string, Cell)>, y0: int, i: int, st: DateScan, fechas: Dict<K, int>,
                         y: int, m: int, d: int)
    requires i < |cols| && MapInv(cols, hs, y0, i, st, fechas)
    requires KeptDate(hs, i, st, y, m, d) && IsValidDate(y, m, d)
    ensures MapInv(cols, hs, y0, i + 1, DateScan(st.entries + [Entry(i, y, m, d)], y, m),
                   Put(fechas, cols[i], Ordinal(y, m, d)))
  {
    StepKept(hs, y0, i, st, y, m, d);
    KeepDict(cols, i, st.entries, fechas, Entry(i, y, m, d));
  }

  lemma KeepDict<K(!new)>(cols: seq<K>, i: int, es: seq<Entry>, fechas: Dict<K, int>, e: Entry)
    requires 0 <= i < |cols| && AllValid(es) && ColsBelow(es, i) && fechas == FromPairs(Dated(cols, es))
    requires e.col == i && EntryValid(e)
    ensures AllValid(es + [e]) && ColsBelow(es + [e], i + 1)
    ensures Put(fechas, cols[i], Ordinal(e.year, e.month, e.day)) == FromPairs(Dated(cols, es + [e]))
  {
    ValidSnoc(es, e, i + 1);
    DatedSnoc(cols, es, e);
    FromPairsSnoc(Dated(cols, es), cols[i], Ordinal(e.year, e.month, e.day));
  }

  /** A kept column with an impossible date makes the whole mapping fail. */
  lemma MapFail<K(!new)>(cols: seq<K>, hs: seq<(string, Cell)>, y0: int, i: int, st: DateScan, fechas: Dict<K, int>,
                         y: int, m: int, d: int)
    requires i < |cols| && MapInv(cols, hs, y0, i, st, fechas)
    requires KeptDate(hs, i, st, y, m, d) && !IsValidDate(y, m, d)
    ensures DateMap(cols, hs, y0).None?
  {
    StepKept(hs, y0, i, st, y, m, d);
    var e := Entry(i, y, m, d);
    assert !EntryValid((st.entries + [e])[|st.entries|]);
    InvalidPrefix(hs, y0, i + 1);
  }

  /** Before the first column: nothing kept, the initial year, previous month 0, an empty dictionary. */
  lemma MapStart<K(!new)>(cols: seq<K>, hs: seq<(string, Cell)>, y0: int)
    requires |hs| == |cols|
    ensures MapInv(cols, hs, y0, 0, DateScan([], y0, 0), [])
  {
    assert hs[..0] == [];
  }

  /** After the last column the dictionary is the mapping. */
  lemma MapDone<K(!new)>(cols: seq<K>, hs: seq<(string, Cell)>, y0: int, st: DateScan, fechas: Dict<K, int>)
    requires MapInv(cols, hs, y0, |cols|, st, fechas)
    ensures DateMap(cols, hs, y0) == Some(fechas)
  {
    assert hs[..|cols|] == hs;
  }

  /** The body of the loop for column i: the column is skipped, kept with its date, or the mapping fails. */
  method MapColumn<K(==,!new)>(cols: seq<K>, hs: seq<(string, Cell)>, y0: int, i: int, ghost st: DateScan,
                               fechas: Dict<K, int>, anio: int, anterior: int)
      returns (ok: bool, ghost st': DateScan, fechas': Dict<K, int>, anio': int, anterior': int)
    requires i < |cols| && MapInv(cols, hs, y0, i, st, fechas) && st.year == anio && st.prev == anterior
    ensures ok ==> MapInv(cols, hs, y0, i + 1, st', fechas') && st'.year == anio' && st'.prev == anterior'
    ensures !ok ==> DateMap(cols, hs, y0).None?
  {
    ok, st', fechas', anio', anterior' := true, st, fechas, anio, anterior;
    var dia := ToInt(hs[i].1);
    if dia.None? {
      MapSkip(cols, hs, y0, i, st, fechas);
      return;
    }
    var mes := MonthNumber(hs[i].0);
    if mes < anterior {
      anio' := anio + 1;
    }
    anterior' := mes;
    var fecha := MakeDate(anio', mes, dia.value);
    if fecha.None? {
      MapFail(cols, hs, y0, i, st, fechas, anio', mes, dia.value);
      return false, st, fechas, anio', anterior';
    }
    assert fecha.value == Ordinal(anio', mes, dia.value);
    MapKeep(cols, hs, y0, i, st, fechas, anio', mes, dia.value);
    st' := DateScan(st.entries + [Entry(i, anio', mes, dia.value)], anio', mes);
    fechas' := Put(fechas, cols[i], fecha.value);
  }

  /**
   * The loop both importers run (obtener_fechas_reales, generar_fechas_reales):
   * one pass over the columns with the current year and the previous month,
   * assigning each column with an integer day its date; an impossible date is
   * date()'s ValueError, here None.
   */
  method MapDates<K(==,!new)>(cols: seq<K>, hs: seq<(string, Cell)>, y0: int) returns (r: Option<Dict<K, int>>)
    requires |hs| == |cols|
    ensures r == DateMap(cols, hs, y0)
  {
    var fechas: Dict<K, int> := [];
    var anio := y0;
    var anterior := 0;
    ghost var st := DateScan([], y0, 0);
    var i := 0;
    MapStart(cols, hs, y0);
    while i < |cols|
      invariant MapInv(cols, hs, y0, i, st, fechas) && st.year == anio && st.prev == anterior
    {
      var ok;
      ok, st, fechas, anio, anterior := MapColumn(cols, hs, y0, i, st, fechas, anio, anterior);
      if !ok {
        return None;
      }
      i := i + 1;
    }
    MapDone(cols, hs, y0, st, fechas);
    r := Some(fechas);
  }
}
