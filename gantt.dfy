/**
 * The Gantt chart geometry of the project view (backend/vistas/gantt.py):
 * the project's days padded out to whole Monday-Sunday weeks with one spare
 * week on each side, one column per week, and for every dated range of every
 * activity a bar aligned to the week columns, in the weekly scale (100 px per
 * week) and in the compressed monthly scale (35 px per week, at least 25 px).
 * Days are ordinals as in the Calendar module; the clock (datetime.now()) is
 * the parameter today.
 */
module GanttLayout {
  import opened Wrappers
  import opened Calendar
  import opened Bounds

  /** week_width: pixels per week column. */
  const WeekWidth := 100
  /** The fixed width added to the week grid in total_width. */
  const LabelWidth := 320
  /** Pixels per week in the monthly view. */
  const MonthlyWeekWidth := 35
  /** Narrowest bar in the monthly view. */
  const MinMonthlyWidth := 25

  /** meses_es[m]. */
  function MonthAbbrev(m: int): string
    requires 1 <= m <= 12
  {
    match m
    case 1 => "Ene" case 2 => "Feb" case 3 => "Mar" case 4 => "Abr"
    case 5 => "May" case 6 => "Jun" case 7 => "Jul" case 8 => "Ago"
    case 9 => "Sep" case 10 => "Oct" case 11 => "Nov" case _ => "Dic"
  }

  /** A day that datetime.strptime(..., '%Y-%m-%d').date() can return. */
  type Day = n: int | 1 <= n <= MaxOrdinal witness 1

  /** One {'fecha_inicio', 'fecha_fin'} entry; a missing or empty date string is None. */
  datatype DateRange = DateRange(start: Option<Day>, end: Option<Day>)

  /** "fecha_obj['fecha_inicio'] and fecha_obj['fecha_fin']". */
  predicate Complete(r: DateRange) {
    r.start.Some? && r.end.Some?
  }

  /** One entry of periodos_calculados. */
  datatype Period = Period(periodo: int, start: Day, end: Day, left: int, width: int,
                           leftMonthly: int, widthMonthly: int, duration: int, fullWeek: bool)

  /**
   * An activity dict as the layout sees it: its list of ranges, which is only
   * read, and the periodos_calculados key (None while absent), which
   * ComputePositions sets in place.
   */
  class ChartActivity {
    const fechas: seq<DateRange>
    var periods: Option<seq<Period>>

    constructor (fechas: seq<DateRange>)
      ensures this.fechas == fechas && periods == None
    {
      this.fechas := fechas;
      periods := None;
    }
  }

  /** The ranges of every activity, in order. */
  function FechasOf(acts: seq<ChartActivity>): (fs: seq<seq<DateRange>>)
    ensures |fs| == |acts| && forall i :: 0 <= i < |acts| ==> fs[i] == acts[i].fechas
  {
    seq(|acts|, i requires 0 <= i < |acts| => acts[i].fechas)
  }

  /** Some activity has a range with both dates. */
  predicate HasCompleteRange(fs: seq<seq<DateRange>>) {
    exists i, j :: 0 <= i < |fs| && 0 <= j < |fs[i]| && Complete(fs[i][j])
  }

  // ---------------------------------------------------------------------------
  // _extraer_fechas_actividades
  // ---------------------------------------------------------------------------

  /** The days one activity contributes: start and end of each complete range, in order. */
  function RangeDays(rs: seq<DateRange>): seq<Day>
    decreases |rs|
  {
    if |rs| == 0 then []
    else
      var r := rs[|rs| - 1];
      RangeDays(rs[..|rs| - 1]) + (if Complete(r) then [r.start.value, r.end.value] else [])
  }

  /** todas_fechas: the days of every activity, activity by activity. */
  function AllDays(fs: seq<seq<DateRange>>): seq<Day>
    decreases |fs|
  {
    if |fs| == 0 then [] else AllDays(fs[..|fs| - 1]) + RangeDays(fs[|fs| - 1])
  }

  /** A day is collected iff it starts or ends a complete range of the activity. */
  lemma {:induction false} RangeDaysMembers(rs: seq<DateRange>, d: int)
    ensures d in RangeDays(rs) <==>
      exists j :: 0 <= j < |rs| && Complete(rs[j]) && (d == rs[j].start.value || d == rs[j].end.value)
    decreases |rs|
  {
    if |rs| > 0 {
      var init := rs[..|rs| - 1];
      RangeDaysMembers(init, d);
      assert forall j :: 0 <= j < |init| ==> init[j] == rs[j];
    }
  }

  /** A day is collected iff it is collected from one of the activities. */
  lemma {:induction false} AllDaysMembers(fs: seq<seq<DateRange>>, d: int)
    ensures d in AllDays(fs) <==> exists i :: 0 <= i < |fs| && d in RangeDays(fs[i])
    decreases |fs|
  {
    if |fs| > 0 {
      var init := fs[..|fs| - 1];
      AllDaysMembers(init, d);
      assert forall i :: 0 <= i < |init| ==> init[i] == fs[i];
    }
  }

  /** No day is collected iff no activity has a range with both dates. */
  lemma AllDaysEmpty(fs: seq<seq<DateRange>>)
    ensures AllDays(fs) == [] <==> !HasCompleteRange(fs)
  {
    if HasCompleteRange(fs) {
      var i, j :| 0 <= i < |fs| && 0 <= j < |fs[i]| && Complete(fs[i][j]);
      var d := fs[i][j].start.value;
      RangeDaysMembers(fs[i], d);
      AllDaysMembers(fs, d);
    } else if AllDays(fs) != [] {
      var d := AllDays(fs)[0];
      AllDaysMembers(fs, d);
      var i :| 0 <= i < |fs| && d in RangeDays(fs[i]);
      RangeDaysMembers(fs[i], d);
    }
  }

  /** One activity's contribution to todas_fechas. */
  lemma AllDaysSnoc(fs: seq<seq<DateRange>>, i: int)
    requires 0 <= i < |fs|
    ensures AllDays(fs[..i + 1]) == AllDays(fs[..i]) + RangeDays(fs[i])
  {
    assert fs[..i + 1][..i] == fs[..i];
  }

  /** One range's contribution to an activity's days. */
  lemma RangeDaysSnoc(rs: seq<DateRange>, j: int)
    requires 0 <= j < |rs|
    ensures RangeDays(rs[..j + 1]) == RangeDays(rs[..j]) + (if Complete(rs[j]) then [rs[j].start.value, rs[j].end.value] else [])
  {
    assert rs[..j + 1][..j] == rs[..j];
  }

  /** _extraer_fechas_actividades. */
  method ExtractDays(acts: seq<ChartActivity>) returns (days: seq<Day>)
    ensures days == AllDays(FechasOf(acts))
  {
    ghost var fs := FechasOf(acts);
    days := [];
    for i := 0 to |acts|
      invariant days == AllDays(fs[..i])
    {
      var a := acts[i];
      ghost var before := days;
      if |a.fechas| > 0 {
        for j := 0 to |a.fechas|
          invariant days == before + RangeDays(a.fechas[..j])
        {
          var r := a.fechas[j];
          RangeDaysSnoc(a.fechas, j);
          if r.start.Some? && r.end.Some? {
            days := days + [r.start.value, r.end.value];
          }
        }
      }
      assert a.fechas[..|a.fechas|] == a.fechas;
      AllDaysSnoc(fs, i);
    }
    assert fs[..|acts|] == fs;
  }

  // ---------------------------------------------------------------------------
  // _calcular_rango_semanal
  // ---------------------------------------------------------------------------

  /** (start_of_week, end_of_week, total_weeks). */
  datatype WeekRange = WeekRange(start: int, end: int, weeks: int)

  /** math.ceil(n / 7). */
  function CeilDiv7(n: int): (q: int)
    ensures 7 * (q - 1) < n <= 7 * q
  {
    -((-n) / 7)
  }

  /**
   * The chart's range covers lo..hi: it starts on a Monday 7 to 13 days before
   * lo, ends on a Sunday 7 to 13 days after hi, spans weeks whole weeks, and
   * lies inside the calendar.
   */
  predicate WeekAligned(w: WeekRange, lo: int, hi: int) {
    Weekday(w.start) == 0 && 7 <= lo - w.start <= 13
    && Weekday(w.end) == 6 && 7 <= w.end - hi <= 13
    && 7 * w.weeks == w.end - w.start + 1
    && 1 <= w.start && w.end <= MaxOrdinal
  }

  /** The Monday of the week before the one holding day n. */
  lemma MondayBefore(n: int)
    ensures Weekday(n - (Weekday(n) + 7)) == 0
  {
    var w := Weekday(n);
    assert (n - w - 1) % 7 == 0;
    var k := (n - w - 1) / 7;
    assert n - (w + 7) + 6 == 7 * k;
  }

  /** The Sunday of the week after the one holding day n. */
  lemma SundayAfter(n: int)
    ensures Weekday(n + (6 - Weekday(n) + 7)) == 6
  {
    var w := Weekday(n);
    assert (n - w - 1) % 7 == 0;
    var k := (n - w - 1) / 7;
    assert n + (6 - w + 7) + 6 == 7 * (k + 2) + 6;
  }

  /** From a Monday to a later Sunday is a whole number of weeks. */
  lemma WholeWeeks(s: int, e: int)
    requires Weekday(s) == 0 && Weekday(e) == 6 && s <= e
    ensures 7 * CeilDiv7(e - s) == e - s + 1
  {
    var a := (s + 6) / 7;
    var b := (e + 6) / 7;
    assert s + 6 == 7 * a;
    assert e + 6 == 7 * b + 6;
    assert e - s + 1 == 7 * (b - a + 1);
    var q := CeilDiv7(e - s);
    assert 7 * (q - 1) < 7 * (b - a + 1) - 1 <= 7 * q;
  }

  /**
   * _calcular_rango_semanal; None where a padded end leaves the calendar, where
   * date arithmetic raises OverflowError.
   */
  function WeeklyRange(days: seq<int>): (r: Option<WeekRange>)
    requires |days| > 0
    ensures var lo, hi := SeqMin(days), SeqMax(days);
      (r.Some? <==> 8 <= lo - Weekday(lo) && hi - Weekday(hi) <= MaxOrdinal - 13)
      && (r.Some? ==> WeekAligned(r.value, lo, hi) && r.value.weeks >= 3)
  {
    var lo := SeqMin(days);
    var hi := SeqMax(days);
    var start := lo - (Weekday(lo) + 7);
    var end := hi + (6 - Weekday(hi) + 7);
    if start < 1 || end > MaxOrdinal then None
    else
      MondayBefore(lo);
      SundayAfter(hi);
      assert lo <= hi by { assert lo in days; }
      WholeWeeks(start, end);
      Some(WeekRange(start, end, CeilDiv7(end - start)))
  }

  /** Every collected day lies in the chart, at least one whole week from either edge. */
  lemma DaysInsideChart(days: seq<int>, d: int)
    requires |days| > 0 && d in days && WeeklyRange(days).Some?
    ensures var w := WeeklyRange(days).value;
      w.start + 7 <= d <= w.end - 7
  {
  }

  // ---------------------------------------------------------------------------
  // _generar_columnas_semanales
  // ---------------------------------------------------------------------------

  /** One entry of columnas_semanales. */
  datatype WeekColumn = WeekColumn(index: int, weekStart: int, weekEnd: int, left: int, width: int,
                                   isCurrent: bool, monthName: string, dayNumber: int)

  /** c is the column of week i of a chart starting on day start. */
  predicate ColumnIs(c: WeekColumn, start: int, i: int, weekWidth: int, today: int) {
    var ws := start + 7 * i;
    c.index == i && c.weekStart == ws && c.weekEnd == ws + 6
    && c.left == i * weekWidth && c.width == weekWidth
    && (c.isCurrent <==> ws <= today <= ws + 6)
    && 1 <= ws <= MaxOrdinal && LabelIs(c, ws)
  }

  /** The column's month abbreviation and day number are those of day ws. */
  predicate LabelIs(c: WeekColumn, ws: int)
    requires 1 <= ws <= MaxOrdinal
  {
    var ymd := FromOrdinal(ws);
    c.monthName == MonthAbbrev(ymd.1) && c.dayNumber == ymd.2
  }

  /** cols are the columns of weeks 0 .. weeks-1 of a chart starting on day start. */
  predicate ColumnsFor(cols: seq<WeekColumn>, start: int, weeks: int, weekWidth: int, today: int) {
    |cols| == weeks && forall i :: 0 <= i < |cols| ==> ColumnIs(cols[i], start, i, weekWidth, today)
  }

  lemma ColumnsSnoc(cols: seq<WeekColumn>, c: WeekColumn, start: int, weeks: int, weekWidth: int, today: int)
    requires ColumnsFor(cols, start, weeks, weekWidth, today) && ColumnIs(c, start, weeks, weekWidth, today)
    ensures ColumnsFor(cols + [c], start, weeks + 1, weekWidth, today)
  {
    var cs := cols + [c];
    forall i | 0 <= i < |cs| ensures ColumnIs(cs[i], start, i, weekWidth, today) {
      if i < |cols| {
        assert cs[i] == cols[i];
      }
    }
  }

  /** The dict appended for week number week. */
  method MakeColumn(start: int, week: int, weekWidth: int, today: int) returns (c: WeekColumn)
    requires 1 <= start + 7 * week && start + 7 * week + 6 <= MaxOrdinal
    ensures ColumnIs(c, start, week, weekWidth, today)
  {
    var weekStart := start + 7 * week;
    var weekEnd := weekStart + 6;
    var isCurrent := weekStart <= today <= weekEnd;
    var ymd := FromOrdinal(weekStart);
    c := WeekColumn(week, weekStart, weekEnd, week * weekWidth, weekWidth, isCurrent, MonthAbbrev(ymd.1), ymd.2);
    assert LabelIs(c, weekStart);
  }

  /**
   * _generar_columnas_semanales; None where a week runs past the calendar's last
   * day, where date arithmetic raises OverflowError.
   */
  method WeekColumns(start: Day, totalWeeks: nat, weekWidth: int, today: Day) returns (r: Option<seq<WeekColumn>>)
    ensures r.Some? <==> totalWeeks == 0 || start + 7 * totalWeeks - 1 <= MaxOrdinal
    ensures r.Some? ==> ColumnsFor(r.value, start, totalWeeks, weekWidth, today)
  {
    var cols: seq<WeekColumn> := [];
    for week := 0 to totalWeeks
      invariant ColumnsFor(cols, start, week, weekWidth, today)
      invariant week == 0 || start + 7 * week - 1 <= MaxOrdinal
    {
      var weekStart := start + 7 * week;
      if weekStart + 6 > MaxOrdinal {
        return None;
      }
      var c := MakeColumn(start, week, weekWidth, today);
      ColumnsSnoc(cols, c, start, week, weekWidth, today);
      cols := cols + [c];
    }
    return Some(cols);
  }

  /** Neighbouring columns tile the chart: no gap and no overlap, in days and in pixels. */
  lemma ColumnsTile(cols: seq<WeekColumn>, start: int, weeks: int, today: int, i: int)
    requires ColumnsFor(cols, start, weeks, WeekWidth, today) && 0 <= i < weeks - 1
    ensures cols[i].weekEnd + 1 == cols[i + 1].weekStart
    ensures cols[i].left + cols[i].width == cols[i + 1].left
  {
    assert ColumnIs(cols[i], start, i, WeekWidth, today);
    assert ColumnIs(cols[i + 1], start, i + 1, WeekWidth, today);
  }

  /** The month abbreviation and day number name the day the column starts on. */
  lemma ColumnLabel(cols: seq<WeekColumn>, start: int, weeks: int, weekWidth: int, today: int, i: int)
    requires ColumnsFor(cols, start, weeks, weekWidth, today) && 0 <= i < weeks
    ensures exists y, m :: (1 <= m <= 12 && cols[i].monthName == MonthAbbrev(m)
      && MakeDate(y, m, cols[i].dayNumber) == Some(cols[i].weekStart))
  {
    assert ColumnIs(cols[i], start, i, weekWidth, today);
    var ymd := FromOrdinal(cols[i].weekStart);
    OrdinalUnique(ymd.0, ymd.1, ymd.2);
    assert MakeDate(ymd.0, ymd.1, ymd.2) == Some(cols[i].weekStart);
  }

  /** At most one column is the current week. */
  lemma CurrentWeekUnique(cols: seq<WeekColumn>, start: int, weeks: int, weekWidth: int, today: int, i: int, j: int)
    requires ColumnsFor(cols, start, weeks, weekWidth, today)
    requires 0 <= i < weeks && 0 <= j < weeks && cols[i].isCurrent && cols[j].isCurrent
    ensures i == j
  {
    assert ColumnIs(cols[i], start, i, weekWidth, today);
    assert ColumnIs(cols[j], start, j, weekWidth, today);
  }

  /** Some column is the current week iff today lies in the chart. */
  lemma CurrentWeekExists(cols: seq<WeekColumn>, start: int, weeks: int, weekWidth: int, today: int)
    requires ColumnsFor(cols, start, weeks, weekWidth, today)
    ensures (exists i :: 0 <= i < weeks && cols[i].isCurrent) <==> start <= today <= start + 7 * weeks - 1
  {
    if start <= today <= start + 7 * weeks - 1 {
      var i := (today - start) / 7;
      assert ColumnIs(cols[i], start, i, weekWidth, today);
      assert cols[i].isCurrent;
    }
    if i :| 0 <= i < weeks && cols[i].isCurrent {
      assert ColumnIs(cols[i], start, i, weekWidth, today);
    }
  }

  // ---------------------------------------------------------------------------
  // The monthly scale
  // ---------------------------------------------------------------------------

  /** _escalar_posicion_mensual: int(px * 35 / 100), truncating toward zero. */
  function ScaleMonthly(px: int): (r: int)
    ensures px >= 0 ==> 0 <= 35 * px - 100 * r < 100
    ensures px < 0 ==> -100 < 35 * px - 100 * r <= 0
  {
    if px >= 0 then (px * 35) / 100 else -((-px * 35) / 100)
  }

  /** A weekly position, a whole number of weeks, scales exactly to 35 px per week. */
  lemma ScaleMonthlyExact(weeks: int)
    ensures ScaleMonthly(WeekWidth * weeks) == MonthlyWeekWidth * weeks
  {
  }

  /** _calcular_ancho_mensual: the scaled width, never below 25 px. */
  function MonthlyWidth(px: int): (r: int)
    ensures r >= MinMonthlyWidth && r >= ScaleMonthly(px)
    ensures r == MinMonthlyWidth || r == ScaleMonthly(px)
  {
    var scaled := ScaleMonthly(px);
    if scaled >= MinMonthlyWidth then scaled else MinMonthlyWidth
  }

  /** _calcular_ancho_mensual_real: 35 px per occupied week, never below 25 px. */
  function MonthlyWidthForWeeks(weeks: int): (r: int)
    ensures r >= MinMonthlyWidth && r >= MonthlyWeekWidth * weeks
    ensures r == MinMonthlyWidth || r == MonthlyWeekWidth * weeks
  {
    var total := weeks * MonthlyWeekWidth;
    if total >= MinMonthlyWidth then total else MinMonthlyWidth
  }

  /** The two monthly widths agree on a whole number of weeks; a bar of one week or more is 35 px per week. */
  lemma MonthlyWidthsAgree(weeks: int)
    ensures MonthlyWidth(WeekWidth * weeks) == MonthlyWidthForWeeks(weeks)
    ensures weeks >= 1 ==> MonthlyWidthForWeeks(weeks) == MonthlyWeekWidth * weeks
  {
    ScaleMonthlyExact(weeks);
  }

  // ---------------------------------------------------------------------------
  // _calcular_posiciones_actividades
  // ---------------------------------------------------------------------------

  /** Day d falls in week column k of a chart that starts on day chartStart. */
  predicate InWeek(d: int, chartStart: int, k: int) {
    chartStart + 7 * k <= d <= chartStart + 7 * k + 6
  }

  /**
   * The period for range number index (counted from 0) running from s to e, on
   * a chart that starts on day chartStart: with the standard week width, the
   * bar starts at the column holding s and is a whole number of columns wide,
   * up to the column holding e. Python's // and Dafny's / agree for the
   * positive divisor 7.
   */
  function PeriodFor(index: int, s: Day, e: Day, chartStart: int, weekWidth: int): (p: Period)
    ensures p.periodo == index + 1 && p.start == s && p.end == e && p.duration == e - s + 1 && p.fullWeek
    ensures weekWidth == WeekWidth ==>
      var first, last := (s - chartStart) / 7, (e - chartStart) / 7;
      p.left == WeekWidth * first && p.width == WeekWidth * (last - first + 1)
      && InWeek(s, chartStart, first) && InWeek(e, chartStart, last)
      && (s <= e ==> p.width >= WeekWidth)
  {
    var weekStart := (s - chartStart) / 7;
    var weekEnd := (e - chartStart) / 7;
    var weeks := weekEnd - weekStart + 1;
    var left := weekStart * weekWidth;
    Period(index + 1, s, e, left, weeks * weekWidth, ScaleMonthly(left), MonthlyWidthForWeeks(weeks), e - s + 1, true)
  }

  /**
   * periodos_calculados of an activity: one period per complete range, listed
   * in increasing periodo order.
   */
  function Periods(rs: seq<DateRange>, chartStart: int, weekWidth: int): (ps: seq<Period>)
    ensures forall k :: 0 <= k < |ps| ==> 1 <= ps[k].periodo <= |rs|
    ensures forall a, b :: 0 <= a < b < |ps| ==> ps[a].periodo < ps[b].periodo
    decreases |rs|
  {
    if |rs| == 0 then []
    else
      var i := |rs| - 1;
      var before := Periods(rs[..i], chartStart, weekWidth);
      if Complete(rs[i]) then
        var p := PeriodFor(i, rs[i].start.value, rs[i].end.value, chartStart, weekWidth);
        assert forall a :: 0 <= a < |before| ==> (before + [p])[a] == before[a];
        before + [p]
      else before
  }

  /** The monthly bar covers the same columns at 35 px each, never narrower than 25 px. */
  lemma PeriodMonthly(index: int, s: Day, e: Day, chartStart: int)
    ensures var p := PeriodFor(index, s, e, chartStart, WeekWidth);
      var first, last := (s - chartStart) / 7, (e - chartStart) / 7;
      p.leftMonthly == MonthlyWeekWidth * first
      && p.widthMonthly == MonthlyWidthForWeeks(last - first + 1)
      && (s <= e ==> p.widthMonthly == MonthlyWeekWidth * (last - first + 1))
  {
    ScaleMonthlyExact((s - chartStart) / 7);
  }

  /** A range at least a week inside both edges of a chart gives a bar in columns 1 .. weeks-2. */
  lemma BarInside(w: WeekRange, index: int, s: Day, e: Day)
    requires 7 * w.weeks == w.end - w.start + 1
    requires w.start + 7 <= s <= e <= w.end - 7
    ensures var p := PeriodFor(index, s, e, w.start, WeekWidth);
      WeekWidth <= p.left && p.left + p.width <= WeekWidth * (w.weeks - 1)
  {
    var first := (s - w.start) / 7;
    var last := (e - w.start) / 7;
    assert 1 <= first && last <= w.weeks - 2;
  }

  /** A range inside the chart's days gives a bar strictly inside the chart: columns 1 .. weeks-2. */
  lemma PeriodInsideChart(days: seq<int>, index: int, s: Day, e: Day)
    requires |days| > 0 && WeeklyRange(days).Some?
    requires SeqMin(days) <= s <= e <= SeqMax(days)
    ensures var w := WeeklyRange(days).value;
      var p := PeriodFor(index, s, e, w.start, WeekWidth);
      WeekWidth <= p.left && p.left + p.width <= WeekWidth * (w.weeks - 1)
  {
    var w := WeeklyRange(days).value;
    assert WeekAligned(w, SeqMin(days), SeqMax(days));
    BarInside(w, index, s, e);
  }

  /** Every period comes from the complete range at position periodo - 1. */
  lemma {:induction false} PeriodsSound(rs: seq<DateRange>, chartStart: int, weekWidth: int, p: Period)
    requires p in Periods(rs, chartStart, weekWidth)
    ensures 1 <= p.periodo <= |rs| && Complete(rs[p.periodo - 1])
    ensures p == PeriodFor(p.periodo - 1, rs[p.periodo - 1].start.value, rs[p.periodo - 1].end.value, chartStart, weekWidth)
    decreases |rs|
  {
    var i := |rs| - 1;
    var init := rs[..i];
    if p in Periods(init, chartStart, weekWidth) {
      PeriodsSound(init, chartStart, weekWidth, p);
      assert init[p.periodo - 1] == rs[p.periodo - 1];
    }
  }

  /** Every complete range gives its period, numbered by its position: skipped ranges keep their number. */
  lemma {:induction false} PeriodsComplete(rs: seq<DateRange>, chartStart: int, weekWidth: int, j: int)
    requires 0 <= j < |rs| && Complete(rs[j])
    ensures PeriodFor(j, rs[j].start.value, rs[j].end.value, chartStart, weekWidth) in Periods(rs, chartStart, weekWidth)
    decreases |rs|
  {
    var i := |rs| - 1;
    if j < i {
      var init := rs[..i];
      assert init[j] == rs[j];
      PeriodsComplete(init, chartStart, weekWidth, j);
    }
  }

  /** One range's contribution to periodos_calculados. */
  lemma PeriodsSnoc(rs: seq<DateRange>, j: int, chartStart: int, weekWidth: int)
    requires 0 <= j < |rs|
    ensures Periods(rs[..j + 1], chartStart, weekWidth) == Periods(rs[..j], chartStart, weekWidth)
      + (if Complete(rs[j]) then [PeriodFor(j, rs[j].start.value, rs[j].end.value, chartStart, weekWidth)] else [])
  {
    assert rs[..j + 1][..j] == rs[..j];
  }

  /** The body of the loop of _calcular_posiciones_actividades, for one activity. */
  method ComputeActivity(a: ChartActivity, chartStart: int, weekWidth: int)
    modifies a
    ensures a.periods == Some(Periods(a.fechas, chartStart, weekWidth))
  {
    a.periods := Some([]);
    if |a.fechas| == 0 {
      return;
    }
    for i := 0 to |a.fechas|
      invariant a.periods == Some(Periods(a.fechas[..i], chartStart, weekWidth))
    {
      var r := a.fechas[i];
      PeriodsSnoc(a.fechas, i, chartStart, weekWidth);
      if !(r.start.Some? && r.end.Some?) {
        assert Periods(a.fechas[..i + 1], chartStart, weekWidth) == a.periods.value;
        continue;
      }
      var s := r.start.value;
      var e := r.end.value;
      var weekStart := (s - chartStart) / 7;
      var weekEnd := (e - chartStart) / 7;
      var weeks := weekEnd - weekStart + 1;
      var left := weekStart * weekWidth;
      var p := Period(i + 1, s, e, left, weeks * weekWidth, ScaleMonthly(left), MonthlyWidthForWeeks(weeks), e - s + 1, true);
      assert p == PeriodFor(i, s, e, chartStart, weekWidth);
      assert Periods(a.fechas[..i + 1], chartStart, weekWidth) == a.periods.value + [p];
      a.periods := Some(a.periods.value + [p]);
    }
    assert a.fechas[..|a.fechas|] == a.fechas;
  }

  /** _calcular_posiciones_actividades: every listed activity gets its periods, nothing else changes. */
  method ComputePositions(acts: seq<ChartActivity>, chartStart: int, weekWidth: int)
    modifies set a | a in acts
    ensures forall a :: a in acts ==> a.periods == Some(Periods(a.fechas, chartStart, weekWidth))
  {
    for i := 0 to |acts|
      invariant forall j :: 0 <= j < i ==> acts[j].periods == Some(Periods(acts[j].fechas, chartStart, weekWidth))
    {
      ComputeActivity(acts[i], chartStart, weekWidth);
    }
  }

  // ---------------------------------------------------------------------------
  // calcular_gantt_data
  // ---------------------------------------------------------------------------

  /** The dict calcular_gantt_data returns. */
  datatype GanttData = GanttData(columns: seq<WeekColumn>, weekWidth: int, totalWeeks: int, totalWidth: int,
                                 startDate: Option<int>, endDate: Option<int>)

  /** The chart for no activities, or for activities without a complete range. */
  const EmptyChart := GanttData([], WeekWidth, 0, LabelWidth, None, None)

  /** g is the chart over the week range w, seen on day today. */
  predicate ChartOver(g: GanttData, w: WeekRange, today: int) {
    g.weekWidth == WeekWidth && g.totalWeeks == w.weeks && g.totalWidth == LabelWidth + w.weeks * WeekWidth
    && g.startDate == Some(w.start) && g.endDate == Some(w.end)
    && ColumnsFor(g.columns, w.start, w.weeks, WeekWidth, today)
  }

  /**
   * calcular_gantt_data: the empty chart when no range has both dates; None
   * where the padded range leaves the calendar (OverflowError); otherwise the
   * chart over WeeklyRange of the collected days, with every activity's periods
   * computed against its first day. On the empty and the error paths no
   * activity is touched.
   */
  method GanttChart(acts: seq<ChartActivity>, today: Day) returns (r: Option<GanttData>)
    modifies set a | a in acts
    ensures !HasCompleteRange(FechasOf(acts)) ==>
      r == Some(EmptyChart) && forall a :: a in acts ==> a.periods == old(a.periods)
    ensures HasCompleteRange(FechasOf(acts)) ==>
      var days := AllDays(FechasOf(acts));
      |days| > 0
      && (WeeklyRange(days).None? ==> r.None? && forall a :: a in acts ==> a.periods == old(a.periods))
      && (WeeklyRange(days).Some? ==>
            r.Some? && ChartOver(r.value, WeeklyRange(days).value, today)
            && forall a :: a in acts ==> a.periods == Some(Periods(a.fechas, WeeklyRange(days).value.start, WeekWidth)))
  {
    AllDaysEmpty(FechasOf(acts));
    if |acts| == 0 {
      return Some(EmptyChart);
    }
    var days := ExtractDays(acts);
    if |days| == 0 {
      return Some(EmptyChart);
    }
    var range := WeeklyRange(days);
    if range.None? {
      return None;
    }
    var w := range.value;
    var cols := WeekColumns(w.start, w.weeks, WeekWidth, today);
    ComputePositions(acts, w.start, WeekWidth);
    return Some(GanttData(cols.value, WeekWidth, w.weeks, LabelWidth + w.weeks * WeekWidth, Some(w.start), Some(w.end)));
  }

  /**
   * The bar of every complete range of every activity of a chart lies strictly
   * inside it, between the spare first and last week columns; PeriodsSound
   * makes this cover every computed period.
   */
  lemma BarsInsideChart(fs: seq<seq<DateRange>>, w: WeekRange, i: int, j: int)
    requires AllDays(fs) != [] && WeeklyRange(AllDays(fs)) == Some(w)
    requires 0 <= i < |fs| && 0 <= j < |fs[i]| && Complete(fs[i][j])
    requires fs[i][j].start.value <= fs[i][j].end.value
    ensures var p := PeriodFor(j, fs[i][j].start.value, fs[i][j].end.value, w.start, WeekWidth);
      WeekWidth <= p.left && p.left + p.width <= WeekWidth * (w.weeks - 1)
  {
    var days := AllDays(fs);
    var s, e := fs[i][j].start.value, fs[i][j].end.value;
    RangeDaysHas(fs[i], j);
    AllDaysHas(fs, i, s);
    AllDaysHas(fs, i, e);
    assert SeqMin(days) <= s && e <= SeqMax(days);
    PeriodInsideChart(days, j, s, e);
  }

  /** Both dates of a complete range are collected from its activity. */
  lemma {:induction false} RangeDaysHas(rs: seq<DateRange>, j: int)
    requires 0 <= j < |rs| && Complete(rs[j])
    ensures rs[j].start.value in RangeDays(rs) && rs[j].end.value in RangeDays(rs)
    decreases |rs|
  {
    if j < |rs| - 1 {
      var init := rs[..|rs| - 1];
      assert init[j] == rs[j];
      RangeDaysHas(init, j);
    }
  }

  /** A day collected from one activity is collected for the chart. */
  lemma {:induction false} AllDaysHas(fs: seq<seq<DateRange>>, i: int, d: int)
    requires 0 <= i < |fs| && d in RangeDays(fs[i])
    ensures d in AllDays(fs)
    decreases |fs|
  {
    if i < |fs| - 1 {
      var init := fs[..|fs| - 1];
      assert init[i] == fs[i];
      AllDaysHas(init, i, d);
    }
  }
}
