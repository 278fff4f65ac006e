/**
 * The view-side preparation of a project's activities (backend/vistas/views.py):
 * vista_gantt lists the normal activities and then the dissemination
 * activities, each with its active date ranges (a zero-length range widened by
 * one day), default names for unnamed activities and a work-line label, and
 * sorts the list stably by the start of its first range; lista_actividades
 * lists them with their owners, "No asignado" standing in for none.
 * The rows the ORM returns are parameters, in the order it returns them.
 */
module GanttViews {
  import opened Wrappers
  import opened Strings
  import opened Calendar
  import GanttLayout

  type Day = GanttLayout.Day
  type DateRange = GanttLayout.DateRange

  /** A stored Fecha row: its two dates and its estado flag. */
  datatype StoredDate = StoredDate(start: Option<Day>, end: Option<Day>, active: bool)

  /** Actividad (line is its linea_trabajo's name) or ActividadDifusion (line is None), with its owners' names. */
  datatype Record = Record(id: int, name: string, line: Option<string>, fechas: seq<StoredDate>, owners: seq<string>)

  datatype Kind = Normal | Dissemination

  /** One dict of todas_actividades in vista_gantt. */
  datatype Entry = Entry(id: int, name: string, fechas: seq<DateRange>, kind: Kind, line: Option<string>)

  /** One dict of todas_actividades in lista_actividades. */
  datatype ListEntry = ListEntry(id: int, name: string, kind: Kind, line: Option<string>, owners: seq<string>)

  const NormalPrefix := "Actividad "
  const DisseminationPrefix := "Actividad Difusión "
  const NoLine := "Sin línea"
  const NoOwner := "No asignado"

  // ---------------------------------------------------------------------------
  // Date ranges
  // ---------------------------------------------------------------------------

  /** actividad.fechas.filter(estado=True), in stored order. */
  function ActiveDates(ds: seq<StoredDate>): (r: seq<DateRange>)
    ensures |r| <= |ds|
    decreases |ds|
  {
    if |ds| == 0 then []
    else
      var d := ds[|ds| - 1];
      var rest := ActiveDates(ds[..|ds| - 1]);
      if d.active then rest + [GanttLayout.DateRange(d.start, d.end)] else rest
  }

  /** The listed ranges are exactly the active stored ones. */
  lemma {:induction false} ActiveDatesMembers(ds: seq<StoredDate>, x: DateRange)
    ensures x in ActiveDates(ds) <==> exists d :: d in ds && d.active && x == GanttLayout.DateRange(d.start, d.end)
    decreases |ds|
  {
    if |ds| > 0 {
      var init := ds[..|ds| - 1];
      ActiveDatesMembers(init, x);
      assert forall e :: e in ds <==> e in init || e == ds[|ds| - 1];
    }
  }

  /**
   * The adjustment against zero-length ranges: a range whose two dates are
   * present and equal ends one day later; every other range is unchanged.
   * None where the later day is past 9999-12-31 (OverflowError).
   */
  function AdjustRange(r: DateRange): (a: Option<DateRange>)
    ensures a.None? <==> r.start.Some? && r.end.Some? && r.start == r.end && r.end.value == MaxOrdinal
    ensures a.Some? && r.start.Some? && r.end.Some? && r.start == r.end ==>
      a.value.start == r.start && a.value.end.Some? && a.value.end.value == r.end.value + 1
    ensures !(r.start.Some? && r.end.Some? && r.start == r.end) ==> a == Some(r)
  {
    if r.start.Some? && r.end.Some? && r.start == r.end then
      if r.end.value + 1 > MaxOrdinal then None
      else Some(r.(end := Some(r.end.value + 1)))
    else Some(r)
  }

  /** An adjusted range is never zero-length, so adjusting it again changes nothing. */
  lemma AdjustIdempotent(r: DateRange)
    requires AdjustRange(r).Some?
    ensures var a := AdjustRange(r).value;
      (a.start.Some? && a.end.Some? ==> a.start != a.end) && AdjustRange(a) == Some(a)
  {
  }

  /** All the results, in order, when every one is present; None as soon as one is missing. */
  function Gather<T>(xs: seq<Option<T>>): (r: Option<seq<T>>)
    ensures r.Some? <==> forall i :: 0 <= i < |xs| ==> xs[i].Some?
    ensures r.Some? ==> |r.value| == |xs| && forall i :: 0 <= i < |xs| ==> xs[i] == Some(r.value[i])
    decreases |xs|
  {
    if |xs| == 0 then Some([])
    else
      var n := |xs| - 1;
      var init := xs[..n];
      var rest := Gather(init);
      assert forall i :: 0 <= i < n ==> init[i] == xs[i];
      if rest.None? then
        assert exists i :: 0 <= i < n && init[i].None?;
        None
      else if xs[n].None? then None
      else
        var r := rest.value + [xs[n].value];
        assert forall i :: 0 <= i < n ==> r[i] == rest.value[i];
        assert r[n] == xs[n].value;
        Some(r)
  }

  /** Gather recovers the very values that are present. */
  lemma GatherOf<T>(xs: seq<Option<T>>, ys: seq<T>)
    requires |xs| == |ys| && forall i :: 0 <= i < |xs| ==> xs[i] == Some(ys[i])
    ensures Gather(xs) == Some(ys)
  {
    assert forall i :: 0 <= i < |xs| ==> xs[i].Some?;
    var r := Gather(xs).value;
    assert |r| == |ys|;
    assert forall i :: 0 <= i < |xs| ==> r[i] == ys[i];
    assert r == ys;
  }

  /** fechas_lista: every range adjusted, in order; None if any adjustment overflows. */
  function AdjustAll(rs: seq<DateRange>): (r: Option<seq<DateRange>>)
    ensures r.Some? <==> forall i :: 0 <= i < |rs| ==> AdjustRange(rs[i]).Some?
    ensures r.Some? ==> |r.value| == |rs| && forall i :: 0 <= i < |rs| ==> AdjustRange(rs[i]) == Some(r.value[i])
  {
    var xs := seq(|rs|, i requires 0 <= i < |rs| => AdjustRange(rs[i]));
    assert forall i :: 0 <= i < |rs| ==> xs[i] == AdjustRange(rs[i]);
    Gather(xs)
  }

  /** The inner loop of vista_gantt for one activity. */
  method AdjustedRanges(ds: seq<StoredDate>) returns (r: Option<seq<DateRange>>)
    ensures r == AdjustAll(ActiveDates(ds))
  {
    var rs := ActiveDates(ds);
    ghost var xs := seq(|rs|, i requires 0 <= i < |rs| => AdjustRange(rs[i]));
    var list: seq<DateRange> := [];
    for i := 0 to |rs|
      invariant |list| == i && forall p :: 0 <= p < i ==> xs[p] == Some(list[p])
    {
      var a := AdjustRange(rs[i]);
      if a.None? {
        assert xs[i].None?;
        return None;
      }
      list := list + [a.value];
    }
    GatherOf(xs, list);
    return Some(list);
  }

  // ---------------------------------------------------------------------------
  // Names and labels
  // ---------------------------------------------------------------------------

  /** "nombre or f'{prefix}{id}'": an empty name is replaced by the prefix followed by the id. */
  function DefaultName(name: string, prefix: string, id: int): (r: string)
    ensures r != []
    ensures name != [] ==> r == name
    ensures name == [] ==> |prefix| < |r| && r[..|prefix|] == prefix
  {
    if name != [] then name else prefix + IntToString(id)
  }

  /** The id can be read back from a default name: int() of what follows the prefix. */
  lemma DefaultNameId(prefix: string, id: int)
    ensures var r := DefaultName([], prefix, id);
      ParseInt(r[|prefix|..]) == Some(id)
  {
    var r := DefaultName([], prefix, id);
    assert r[|prefix|..] == IntToString(id);
    ParseIntToString(id);
  }

  /** "linea_trabajo.nombre if linea_trabajo else 'Sin línea'". */
  function LineLabel(line: Option<string>): (r: string)
    ensures line.Some? ==> r == line.value
    ensures line.None? ==> r == NoLine
  {
    if line.Some? then line.value else NoLine
  }

  /** "encargados if encargados else ['No asignado']": never empty. */
  function OwnerLabels(names: seq<string>): (r: seq<string>)
    ensures |r| >= 1
    ensures names != [] ==> r == names
    ensures names == [] ==> r == [NoOwner]
  {
    if names != [] then names else [NoOwner]
  }

  // ---------------------------------------------------------------------------
  // vista_gantt: the combined list
  // ---------------------------------------------------------------------------

  /** The dict for a normal activity, given its adjusted ranges. */
  function NormalEntry(rec: Record, fechas: seq<DateRange>): Entry {
    Entry(rec.id, DefaultName(rec.name, NormalPrefix, rec.id), fechas, Normal, Some(LineLabel(rec.line)))
  }

  /** The dict for a dissemination activity, given its adjusted ranges. */
  function DisseminationEntry(rec: Record, fechas: seq<DateRange>): Entry {
    Entry(rec.id, DefaultName(rec.name, DisseminationPrefix, rec.id), fechas, Dissemination, None)
  }

  /** The dict for one record of the given kind; None where a range overflows. */
  function EntryOf(rec: Record, kind: Kind): (e: Option<Entry>)
    ensures e.Some? <==> AdjustAll(ActiveDates(rec.fechas)).Some?
    ensures e.Some? ==>
      e.value.id == rec.id && e.value.kind == kind && e.value.name != []
      && e.value.fechas == AdjustAll(ActiveDates(rec.fechas)).value
      && (e.value.line.Some? <==> kind == Normal)
  {
    match AdjustAll(ActiveDates(rec.fechas))
    case None => None
    case Some(fs) => Some(if kind == Normal then NormalEntry(rec, fs) else DisseminationEntry(rec, fs))
  }

  /** The dicts for the records of one kind, in order; None where a range overflows. */
  function EntriesOf(recs: seq<Record>, kind: Kind): (r: Option<seq<Entry>>)
    ensures r.Some? <==> forall i :: 0 <= i < |recs| ==> EntryOf(recs[i], kind).Some?
    ensures r.Some? ==> |r.value| == |recs| && forall i :: 0 <= i < |recs| ==> EntryOf(recs[i], kind) == Some(r.value[i])
  {
    var xs := seq(|recs|, i requires 0 <= i < |recs| => EntryOf(recs[i], kind));
    assert forall i :: 0 <= i < |recs| ==> xs[i] == EntryOf(recs[i], kind);
    Gather(xs)
  }

  /** todas_actividades before sorting: the normal activities, then the dissemination activities. */
  function Combined(normals: seq<Record>, dissems: seq<Record>): Option<seq<Entry>> {
    match EntriesOf(normals, Normal)
    case None => None
    case Some(ns) =>
      match EntriesOf(dissems, Dissemination)
      case None => None
      case Some(ds) => Some(ns + ds)
  }

  /**
   * The combined list holds one entry per record, the normal ones first: each
   * keeps its record's id, carries a non-empty name and its kind, and only the
   * normal ones carry a line label.
   */
  lemma CombinedShape(normals: seq<Record>, dissems: seq<Record>)
    requires Combined(normals, dissems).Some?
    ensures var c := Combined(normals, dissems).value;
      |c| == |normals| + |dissems|
      && (forall i :: 0 <= i < |normals| ==>
            c[i].id == normals[i].id && c[i].kind == Normal && c[i].name != [] && c[i].line.Some?)
      && (forall i :: |normals| <= i < |c| ==>
            c[i].id == dissems[i - |normals|].id && c[i].kind == Dissemination && c[i].name != [] && c[i].line.None?)
  {
    var ns := EntriesOf(normals, Normal).value;
    var ds := EntriesOf(dissems, Dissemination).value;
    var c := ns + ds;
    forall i | 0 <= i < |normals|
      ensures c[i].id == normals[i].id && c[i].kind == Normal && c[i].name != [] && c[i].line.Some?
    {
      assert c[i] == ns[i];
      assert EntryOf(normals[i], Normal) == Some(ns[i]);
    }
    forall i | |normals| <= i < |c|
      ensures c[i].id == dissems[i - |normals|].id && c[i].kind == Dissemination && c[i].name != [] && c[i].line.None?
    {
      assert c[i] == ds[i - |normals|];
      assert EntryOf(dissems[i - |normals|], Dissemination) == Some(ds[i - |normals|]);
    }
  }

  /** The body of either loop of vista_gantt: the dict for one record. */
  method EntryFor(rec: Record, kind: Kind) returns (e: Option<Entry>)
    ensures e == EntryOf(rec, kind)
  {
    var fechas := AdjustedRanges(rec.fechas);
    if fechas.None? {
      return None;
    }
    if kind == Normal {
      e := Some(NormalEntry(rec, fechas.value));
    } else {
      e := Some(DisseminationEntry(rec, fechas.value));
    }
  }

  /** One of the two loops of vista_gantt: the dicts for the records of one kind. */
  method CollectEntries(recs: seq<Record>, kind: Kind) returns (r: Option<seq<Entry>>)
    ensures r == EntriesOf(recs, kind)
  {
    var list: seq<Entry> := [];
    for i := 0 to |recs|
      invariant |list| == i && EntriesUpTo(recs, kind, list)
    {
      var e := EntryFor(recs[i], kind);
      if e.None? {
        return None;
      }
      EntriesUpToSnoc(recs, kind, list, e.value);
      list := list + [e.value];
    }
    EntriesOfAll(recs, kind, list);
    return Some(list);
  }

  /** The first |list| records of the kind have the dicts in list. */
  predicate EntriesUpTo(recs: seq<Record>, kind: Kind, list: seq<Entry>) {
    |list| <= |recs| && forall p :: 0 <= p < |list| ==> EntryOf(recs[p], kind) == Some(list[p])
  }

  lemma EntriesUpToSnoc(recs: seq<Record>, kind: Kind, list: seq<Entry>, e: Entry)
    requires EntriesUpTo(recs, kind, list) && |list| < |recs| && EntryOf(recs[|list|], kind) == Some(e)
    ensures EntriesUpTo(recs, kind, list + [e])
  {
    var l := list + [e];
    assert forall p :: 0 <= p < |list| ==> l[p] == list[p];
  }

  /** The list is the one EntriesOf describes once every record has its dict. */
  lemma EntriesOfAll(recs: seq<Record>, kind: Kind, list: seq<Entry>)
    requires |list| == |recs| && EntriesUpTo(recs, kind, list)
    ensures EntriesOf(recs, kind) == Some(list)
  {
    var r := EntriesOf(recs, kind).value;
    assert forall p :: 0 <= p < |recs| ==> r[p] == list[p];
    assert r == list;
  }

  /** The two loops of vista_gantt that fill todas_actividades. */
  method BuildEntries(normals: seq<Record>, dissems: seq<Record>) returns (r: Option<seq<Entry>>)
    ensures r == Combined(normals, dissems)
  {
    var ns := CollectEntries(normals, Normal);
    if ns.None? {
      return None;
    }
    var ds := CollectEntries(dissems, Dissemination);
    if ds.None? {
      return None;
    }
    return Some(ns.value + ds.value);
  }

  // ---------------------------------------------------------------------------
  // vista_gantt: the sort
  // ---------------------------------------------------------------------------

  /** The sort key: the first range's start, or 9999-12-31 when there is none. */
  function StartKey(e: Entry): (k: int)
    ensures 1 <= k <= MaxOrdinal
    ensures (|e.fechas| == 0 || e.fechas[0].start.None?) ==> k == MaxOrdinal
    ensures |e.fechas| > 0 && e.fechas[0].start.Some? ==> k == e.fechas[0].start.value
  {
    if |e.fechas| > 0 && e.fechas[0].start.Some? then e.fechas[0].start.value else MaxOrdinal
  }

  /** The key views.py sorts by: the first range's start as '%Y-%m-%d' text, "9999-12-31" when there is none. */
  function IsoKey(e: Entry): string {
    if |e.fechas| > 0 && e.fechas[0].start.Some? then IsoDate(e.fechas[0].start.value) else "9999-12-31"
  }

  /** Sorting by day and sorting by the ISO text put the entries in the same order, ties included. */
  lemma StartKeyIsoOrder(e: Entry, e': Entry)
    ensures StartKey(e) < StartKey(e') <==> StrLess(IsoKey(e), IsoKey(e'))
    ensures StartKey(e) == StartKey(e') <==> IsoKey(e) == IsoKey(e')
  {
    IsoDateMax();
    IsoDateOrder(StartKey(e), StartKey(e'));
  }

  predicate SortedByStart(s: seq<Entry>) {
    forall p, q :: 0 <= p < q < |s| ==> StartKey(s[p]) <= StartKey(s[q])
  }

  /** The entries of s whose key is k, in their order in s. */
  function WithKey(s: seq<Entry>, k: int): (r: seq<Entry>)
    ensures |r| <= |s|
    decreases |s|
  {
    if |s| == 0 then []
    else
      var e := s[|s| - 1];
      WithKey(s[..|s| - 1], k) + (if StartKey(e) == k then [e] else [])
  }

  /** WithKey keeps exactly the entries with key k. */
  lemma {:induction false} WithKeyMembers(s: seq<Entry>, k: int, e: Entry)
    ensures e in WithKey(s, k) <==> e in s && StartKey(e) == k
    decreases |s|
  {
    if |s| > 0 {
      var init := s[..|s| - 1];
      WithKeyMembers(init, k, e);
      assert forall x :: x in s <==> x in init || x == s[|s| - 1];
    }
  }

  /** s and t hold the same entries for every key, in the same relative order. */
  ghost predicate SameTies(s: seq<Entry>, t: seq<Entry>) {
    forall k :: WithKey(s, k) == WithKey(t, k)
  }

  lemma {:induction false} WithKeyConcat(a: seq<Entry>, b: seq<Entry>, k: int)
    ensures WithKey(a + b, k) == WithKey(a, k) + WithKey(b, k)
    decreases |b|
  {
    if |b| > 0 {
      var b' := b[..|b| - 1];
      assert (a + b)[..|a + b| - 1] == a + b';
      assert (a + b)[|a + b| - 1] == b[|b| - 1];
      WithKeyConcat(a, b', k);
    } else {
      assert a + b == a;
    }
  }

  /** s with the neighbours at j - 1 and j exchanged. */
  function Swap(s: seq<Entry>, j: int): (r: seq<Entry>)
    requires 0 < j < |s|
    ensures |r| == |s| && r[j - 1] == s[j] && r[j] == s[j - 1]
    ensures forall p :: 0 <= p < |s| && p != j - 1 && p != j ==> r[p] == s[p]
  {
    s[j - 1 := s[j]][j := s[j - 1]]
  }

  /** Two entries with different keys have the same entries per key in either order. */
  lemma WithKeyPair(x: Entry, y: Entry, k: int)
    requires StartKey(x) != StartKey(y)
    ensures WithKey([x, y], k) == WithKey([y, x], k)
  {
    assert [x, y][..1] == [x];
    assert [y, x][..1] == [y];
    assert [x][..0] == [] && [y][..0] == [];
  }

  /** Exchanging neighbours with different keys keeps every key's entries in order. */
  lemma SwapKeepsTies(s: seq<Entry>, j: int)
    requires 0 < j < |s| && StartKey(s[j - 1]) != StartKey(s[j])
    ensures SameTies(Swap(s, j), s)
  {
    var pre, x, y, post := s[..j - 1], s[j - 1], s[j], s[j + 1..];
    assert s == pre + [x, y] + post;
    assert Swap(s, j) == pre + [y, x] + post;
    forall k ensures WithKey(Swap(s, j), k) == WithKey(s, k) {
      SwapOneKey(pre, x, y, post, k);
    }
  }

  lemma SwapOneKey(pre: seq<Entry>, x: Entry, y: Entry, post: seq<Entry>, k: int)
    requires StartKey(x) != StartKey(y)
    ensures WithKey(pre + [y, x] + post, k) == WithKey(pre + [x, y] + post, k)
  {
    WithKeyConcat(pre + [y, x], post, k);
    WithKeyConcat(pre, [y, x], k);
    WithKeyConcat(pre + [x, y], post, k);
    WithKeyConcat(pre, [x, y], k);
    WithKeyPair(x, y, k);
  }

  lemma SwapKeepsMultiset(s: seq<Entry>, j: int)
    requires 0 < j < |s|
    ensures multiset(Swap(s, j)) == multiset(s)
  {
    var pre, x, y, post := s[..j - 1], s[j - 1], s[j], s[j + 1..];
    assert s == pre + [x] + [y] + post;
    assert Swap(s, j) == pre + [y] + [x] + post;
  }

  /** Exchanges a[j - 1] and a[j]. */
  method SwapDown(a: array<Entry>, j: int)
    requires 0 < j < a.Length
    modifies a
    ensures a[..] == Swap(old(a[..]), j)
  {
    a[j - 1], a[j] := a[j], a[j - 1];
  }

  /** s[..n+1] is ordered by key, except possibly around position j. */
  predicate SortedExcept(s: seq<Entry>, n: int, j: int)
    requires n < |s|
  {
    forall p, q :: 0 <= p < q <= n && p != j && q != j ==> StartKey(s[p]) <= StartKey(s[q])
  }

  /** The key at j is below every key after it, up to n. */
  predicate BelowRest(s: seq<Entry>, n: int, j: int)
    requires 0 <= j && n < |s|
  {
    forall q :: j < q <= n ==> StartKey(s[j]) < StartKey(s[q])
  }

  /** s[..n+1] is ordered by key. */
  predicate SortedUpTo(s: seq<Entry>, n: int)
    requires n < |s|
  {
    forall p, q :: 0 <= p < q <= n ==> StartKey(s[p]) <= StartKey(s[q])
  }

  /** Moving the entry at j one place left past a larger key keeps the two insertion invariants. */
  lemma InsertStep(s: seq<Entry>, n: int, j: int)
    requires 0 < j <= n < |s| && SortedExcept(s, n, j) && BelowRest(s, n, j)
    requires StartKey(s[j - 1]) > StartKey(s[j])
    ensures SortedExcept(Swap(s, j), n, j - 1) && BelowRest(Swap(s, j), n, j - 1)
  {
    var t := Swap(s, j);
    forall p, q | 0 <= p < q <= n && p != j - 1 && q != j - 1 ensures StartKey(t[p]) <= StartKey(t[q]) {
      if q == j {
        assert t[q] == s[j - 1];
        if p < j - 1 {
          assert t[p] == s[p];
        }
      } else if p == j {
        assert t[p] == s[j - 1] && t[q] == s[q];
      } else {
        assert t[p] == s[p] && t[q] == s[q];
      }
    }
    forall q | j - 1 < q <= n ensures StartKey(t[j - 1]) < StartKey(t[q]) {
      if q > j {
        assert t[q] == s[q];
      }
    }
  }

  /** Once the entry at j is not below its left neighbour, s[..n+1] is ordered. */
  lemma InsertDone(s: seq<Entry>, n: int, j: int)
    requires 0 <= j <= n < |s| && SortedExcept(s, n, j) && BelowRest(s, n, j)
    requires j == 0 || StartKey(s[j - 1]) <= StartKey(s[j])
    ensures SortedUpTo(s, n)
  {
    forall p, q | 0 <= p < q <= n ensures StartKey(s[p]) <= StartKey(s[q]) {
      if q == j && p < j - 1 {
        assert StartKey(s[p]) <= StartKey(s[j - 1]);
      }
    }
  }

  /** The inner loop of the insertion: a[i] moves left past the strictly larger keys before it. */
  method InsertAt(a: array<Entry>, i: int)
    requires 0 <= i < a.Length && (i == 0 || SortedUpTo(a[..], i - 1))
    modifies a
    ensures SortedUpTo(a[..], i)
    ensures multiset(a[..]) == multiset(old(a[..]))
    ensures SameTies(a[..], old(a[..]))
  {
    var j := i;
    while j > 0 && StartKey(a[j - 1]) > StartKey(a[j])
      invariant 0 <= j <= i
      invariant SortedExcept(a[..], i, j) && BelowRest(a[..], i, j)
      invariant multiset(a[..]) == multiset(old(a[..]))
      invariant SameTies(a[..], old(a[..]))
      decreases j
    {
      ghost var before := a[..];
      SwapKeepsTies(before, j);
      SwapKeepsMultiset(before, j);
      InsertStep(before, i, j);
      SwapDown(a, j);
      j := j - 1;
    }
    InsertDone(a[..], i, j);
  }

  /**
   * todas_actividades.sort(key=...): Python's sort is stable, modelled as an
   * insertion sort that moves an entry left past strictly larger keys only.
   * The result is ordered by StartKey, a permutation of the input, and keeps
   * the input's relative order among entries with equal keys.
   */
  method SortByStart(a: array<Entry>)
    modifies a
    ensures SortedByStart(a[..])
    ensures multiset(a[..]) == multiset(old(a[..]))
    ensures SameTies(a[..], old(a[..]))
  {
    for i := 0 to a.Length
      invariant i == 0 || SortedUpTo(a[..], i - 1)
      invariant multiset(a[..]) == multiset(old(a[..]))
      invariant SameTies(a[..], old(a[..]))
    {
      InsertAt(a, i);
    }
  }

  /**
   * vista_gantt's activity list, in display order, and its length
   * (len_total_actividades); None where a range overflows.
   */
  method VistaGantt(normals: seq<Record>, dissems: seq<Record>) returns (r: Option<seq<Entry>>, count: int)
    ensures r.Some? <==> Combined(normals, dissems).Some?
    ensures r.Some? ==>
      var c := Combined(normals, dissems).value;
      SortedByStart(r.value) && multiset(r.value) == multiset(c) && SameTies(r.value, c)
      && count == |r.value| == |normals| + |dissems|
  {
    var list := BuildEntries(normals, dissems);
    if list.None? {
      return None, 0;
    }
    CombinedShape(normals, dissems);
    var a := new Entry[|list.value|](i requires 0 <= i < |list.value| => list.value[i]);
    assert a[..] == list.value;
    SortByStart(a);
    r := Some(a[..]);
    count := a.Length;
  }

  // ---------------------------------------------------------------------------
  // lista_actividades
  // ---------------------------------------------------------------------------

  /** The dict for one record of the given kind. */
  function ListEntryOf(rec: Record, kind: Kind): (e: ListEntry)
    ensures e.id == rec.id && e.kind == kind && e.name != [] && (e.line.Some? <==> kind == Normal)
    ensures |e.owners| >= 1 && (rec.owners != [] ==> e.owners == rec.owners)
  {
    match kind
    case Normal =>
      ListEntry(rec.id, DefaultName(rec.name, NormalPrefix, rec.id), Normal, Some(LineLabel(rec.line)), OwnerLabels(rec.owners))
    case Dissemination =>
      ListEntry(rec.id, DefaultName(rec.name, DisseminationPrefix, rec.id), Dissemination, None, OwnerLabels(rec.owners))
  }

  /** One of the two loops of lista_actividades. */
  method ListOf(recs: seq<Record>, kind: Kind) returns (r: seq<ListEntry>)
    ensures |r| == |recs| && forall p :: 0 <= p < |recs| ==> r[p] == ListEntryOf(recs[p], kind)
  {
    r := [];
    for i := 0 to |recs|
      invariant |r| == i && forall p :: 0 <= p < i ==> r[p] == ListEntryOf(recs[p], kind)
    {
      r := r + [ListEntryOf(recs[i], kind)];
    }
  }

  /**
   * lista_actividades: one dict per record, the normal activities first, each
   * with a non-empty name and a non-empty owner list that is the record's own
   * owners whenever it has any.
   */
  method ListActivities(normals: seq<Record>, dissems: seq<Record>) returns (r: seq<ListEntry>)
    ensures |r| == |normals| + |dissems|
    ensures forall i :: 0 <= i < |normals| ==> r[i] == ListEntryOf(normals[i], Normal)
    ensures forall i :: 0 <= i < |dissems| ==> r[|normals| + i] == ListEntryOf(dissems[i], Dissemination)
    ensures forall i :: 0 <= i < |r| ==>
      r[i].name != [] && |r[i].owners| >= 1
      && (i < |normals| && normals[i].owners != [] ==> r[i].owners == normals[i].owners)
      && (i >= |normals| && dissems[i - |normals|].owners != [] ==> r[i].owners == dissems[i - |normals|].owners)
  {
    var ns := ListOf(normals, Normal);
    var ds := ListOf(dissems, Dissemination);
    r := ns + ds;
    forall i | |normals| <= i < |r|
      ensures r[i] == ListEntryOf(dissems[i - |normals|], Dissemination)
    {
      assert r[i] == ds[i - |normals|];
    }
  }
}
