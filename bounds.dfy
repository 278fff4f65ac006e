/**
 * The running earliest-start / latest-end accumulators the importers keep:
 * "if current is None or x < current: current = x" (and the mirror image),
 * folded over date ranges in the order they are created.
 */
module Bounds {
  import opened Wrappers

  /** A date range as stored: (start day, end day). */
  type Span = (int, int)

  /** One step of the earliest-start accumulator. */
  function Earlier(cur: Option<int>, x: int): (r: Option<int>)
    ensures r.Some? && r.value <= x
    ensures cur.Some? ==> r.value <= cur.value
    ensures r.value == x || (cur.Some? && r.value == cur.value)
  {
    if cur.None? || x < cur.value then Some(x) else cur
  }

  /** One step of the latest-end accumulator. */
  function Later(cur: Option<int>, x: int): (r: Option<int>)
    ensures r.Some? && r.value >= x
    ensures cur.Some? ==> r.value >= cur.value
    ensures r.value == x || (cur.Some? && r.value == cur.value)
  {
    if cur.None? || x > cur.value then Some(x) else cur
  }

  /** The earliest-start accumulator after the given spans, from an initial value. */
  function FoldStart(init: Option<int>, spans: seq<Span>): Option<int>
    decreases |spans|
  {
    if |spans| == 0 then init else Earlier(FoldStart(init, spans[..|spans| - 1]), spans[|spans| - 1].0)
  }

  /** The latest-end accumulator after the given spans, from an initial value. */
  function FoldEnd(init: Option<int>, spans: seq<Span>): Option<int>
    decreases |spans|
  {
    if |spans| == 0 then init else Later(FoldEnd(init, spans[..|spans| - 1]), spans[|spans| - 1].1)
  }

  function MinStart(spans: seq<Span>): Option<int> {
    FoldStart(None, spans)
  }

  function MaxEnd(spans: seq<Span>): Option<int> {
    FoldEnd(None, spans)
  }

  /** The earlier of two optional days, an absent one being no constraint. */
  function Least(a: Option<int>, b: Option<int>): Option<int> {
    if a.None? then b else if b.None? then a else Some(if a.value <= b.value then a.value else b.value)
  }

  /** The later of two optional days, an absent one being no constraint. */
  function Greatest(a: Option<int>, b: Option<int>): Option<int> {
    if a.None? then b else if b.None? then a else Some(if a.value >= b.value then a.value else b.value)
  }

  /** The accumulated start is the minimum start: absent iff no span, else attained and a lower bound. */
  lemma {:induction false} MinStartIsLeast(spans: seq<Span>)
    ensures MinStart(spans).None? <==> |spans| == 0
    ensures MinStart(spans).Some? ==>
      (exists i :: 0 <= i < |spans| && spans[i].0 == MinStart(spans).value)
      && (forall i :: 0 <= i < |spans| ==> MinStart(spans).value <= spans[i].0)
    decreases |spans|
  {
    if |spans| > 0 {
      var init := spans[..|spans| - 1];
      MinStartIsLeast(init);
      var m := MinStart(spans).value;
      if m != spans[|spans| - 1].0 {
        var i :| 0 <= i < |init| && init[i].0 == m;
        assert spans[i].0 == m;
      }
      forall i | 0 <= i < |spans| ensures m <= spans[i].0 {
        if i < |init| {
          assert spans[i] == init[i];
        }
      }
    }
  }

  /** The accumulated end is the maximum end: absent iff no span, else attained and an upper bound. */
  lemma {:induction false} MaxEndIsGreatest(spans: seq<Span>)
    ensures MaxEnd(spans).None? <==> |spans| == 0
    ensures MaxEnd(spans).Some? ==>
      (exists i :: 0 <= i < |spans| && spans[i].1 == MaxEnd(spans).value)
      && (forall i :: 0 <= i < |spans| ==> MaxEnd(spans).value >= spans[i].1)
    decreases |spans|
  {
    if |spans| > 0 {
      var init := spans[..|spans| - 1];
      MaxEndIsGreatest(init);
      var m := MaxEnd(spans).value;
      if m != spans[|spans| - 1].1 {
        var i :| 0 <= i < |init| && init[i].1 == m;
        assert spans[i].1 == m;
      }
      forall i | 0 <= i < |spans| ensures m >= spans[i].1 {
        if i < |init| {
          assert spans[i] == init[i];
        }
      }
    }
  }

  /** Continuing a fold from an initial value combines that value with the minimum. */
  lemma {:induction false} FoldStartFrom(init: Option<int>, spans: seq<Span>)
    ensures FoldStart(init, spans) == Least(init, MinStart(spans))
    decreases |spans|
  {
    if |spans| > 0 {
      FoldStartFrom(init, spans[..|spans| - 1]);
    }
  }

  /** Continuing a fold from an initial value combines that value with the maximum. */
  lemma {:induction false} FoldEndFrom(init: Option<int>, spans: seq<Span>)
    ensures FoldEnd(init, spans) == Greatest(init, MaxEnd(spans))
    decreases |spans|
  {
    if |spans| > 0 {
      FoldEndFrom(init, spans[..|spans| - 1]);
    }
  }

  /** Folding over a concatenation is folding over the second part from the first part's result. */
  lemma {:induction false} FoldAppend(init0: Option<int>, init1: Option<int>, a: seq<Span>, b: seq<Span>)
    ensures FoldStart(init0, a + b) == FoldStart(FoldStart(init0, a), b)
    ensures FoldEnd(init1, a + b) == FoldEnd(FoldEnd(init1, a), b)
    decreases |b|
  {
    if |b| == 0 {
      assert a + b == a;
    } else {
      assert (a + b)[..|a + b| - 1] == a + b[..|b| - 1];
      FoldAppend(init0, init1, a, b[..|b| - 1]);
    }
  }

  /** Accumulating more spans only widens the bounds: the start never rises, the end never falls. */
  lemma FoldWidens(start0: Option<int>, end0: Option<int>, spans: seq<Span>)
    ensures start0.Some? ==> FoldStart(start0, spans).Some? && FoldStart(start0, spans).value <= start0.value
    ensures end0.Some? ==> FoldEnd(end0, spans).Some? && FoldEnd(end0, spans).value >= end0.value
  {
    FoldStartFrom(start0, spans);
    FoldEndFrom(end0, spans);
  }

  /** Python's min() of a non-empty list of days. */
  function SeqMin(xs: seq<int>): (m: int)
    requires |xs| > 0
    ensures m in xs && forall x :: x in xs ==> m <= x
    decreases |xs|
  {
    if |xs| == 1 then xs[0]
    else
      var init := xs[..|xs| - 1];
      var m := SeqMin(init);
      assert forall x :: x in xs ==> x in init || x == xs[|xs| - 1];
      if xs[|xs| - 1] < m then xs[|xs| - 1] else m
  }

  /** Python's max() of a non-empty list of days. */
  function SeqMax(xs: seq<int>): (m: int)
    requires |xs| > 0
    ensures m in xs && forall x :: x in xs ==> x <= m
    decreases |xs|
  {
    if |xs| == 1 then xs[0]
    else
      var init := xs[..|xs| - 1];
      var m := SeqMax(init);
      assert forall x :: x in xs ==> x in init || x == xs[|xs| - 1];
      if xs[|xs| - 1] > m then xs[|xs| - 1] else m
  }
}
