/**
 * Spreadsheet cell values as pandas hands them to the importers, and the
 * cell-level tests the importers apply: pd.isna, Python truthiness, str(value),
 * int(value), the "x" mark test, and the "split, strip, drop empty" list cells.
 */
module Sheet {
  import opened Wrappers
  import opened Strings

  /** A cell: NaN (an empty cell), a text, or an integer. */
  datatype Cell = Blank | Text(s: string) | Number(n: int)

  /** pd.isna(value). */
  predicate IsNa(c: Cell) {
    c.Blank?
  }

  /** Python truthiness: the empty text and zero are false, NaN is true. */
  predicate Truthy(c: Cell) {
    match c
    case Blank => true
    case Text(s) => s != ""
    case Number(n) => n != 0
  }

  /** str(value); NaN prints as "nan". */
  function Str(c: Cell): string {
    match c
    case Blank => "nan"
    case Text(s) => s
    case Number(n) => IntToString(n)
  }

  /** int(value): an integer, a text holding one, or ValueError (None). */
  function ToInt(c: Cell): Option<int> {
    match c
    case Blank => None
    case Text(s) => ParseInt(s)
    case Number(n) => Some(n)
  }

  /**
   * The cell marks an active date column: a text holding "x" or "X" between
   * whitespace. MarkedIsLowerStrip shows this is str(value).strip().lower() == 'x'.
   */
  predicate IsMarked(c: Cell) {
    c.Text? && (Strip(c.s) == "x" || Strip(c.s) == "X")
  }

  /** The mark test is the importers' str(value).strip().lower() == 'x'. */
  lemma MarkedIsLowerStrip(c: Cell)
    ensures IsMarked(c) <==> Lower(Strip(Str(c))) == "x"
  {
    match c
    case Blank =>
      StripNoOp("nan");
    case Number(n) =>
      var s := IntToString(n);
      StripNoOp(s);
      if Lower(s) == "x" {
        LowerX(s);
      }
    case Text(s) =>
      if Lower(Strip(s)) == "x" {
        LowerX(Strip(s));
      }
      assert Lower("x") == [LowerChar('x')] + Lower([]);
      assert Lower("X") == [LowerChar('X')] + Lower([]);
  }

  /** A cell that int() reads as a non-zero number is truthy. */
  lemma ToIntTruthy(c: Cell, d: int)
    requires ToInt(c) == Some(d) && d != 0
    ensures Truthy(c)
  {
    if c.Text? {
      ParseIntNonEmpty(c.s);
    }
  }

  /** Only "x" and "X" lower to "x". */
  lemma LowerX(t: string)
    requires Lower(t) == "x"
    ensures t == "x" || t == "X"
  {
    LowerAt(t, 0);
    assert t == [t[0]];
  }

  /** Strip is idempotent. */
  lemma StripStrip(s: string)
    ensures Strip(Strip(s)) == Strip(s)
  {
    StripShape(s);
    StripNoOp(Strip(s));
  }

  /** [p.strip() for p in pieces if p.strip()]. */
  function NonEmptyStripped(pieces: seq<string>): (r: seq<string>)
    ensures |r| <= |pieces|
    decreases |pieces|
  {
    if |pieces| == 0 then []
    else
      var t := Strip(pieces[0]);
      if t == "" then NonEmptyStripped(pieces[1..]) else [t] + NonEmptyStripped(pieces[1..])
  }

  /** The stripped form of every piece, blank ones included. */
  function StrippedAll(pieces: seq<string>): (r: seq<string>)
    ensures |r| == |pieces|
  {
    seq(|pieces|, j requires 0 <= j < |pieces| => Strip(pieces[j]))
  }

  /** The kept names are exactly the stripped pieces that are not empty, in order. */
  lemma {:induction false} NonEmptyStrippedMembers(pieces: seq<string>)
    ensures forall x :: x in NonEmptyStripped(pieces) <==> x != "" && x in StrippedAll(pieces)
    decreases |pieces|
  {
    if |pieces| > 0 {
      NonEmptyStrippedMembers(pieces[1..]);
      assert StrippedAll(pieces) == [Strip(pieces[0])] + StrippedAll(pieces[1..]);
    }
  }

  /** The names of a list cell: [p.strip() for p in str(value).split(sep) if p.strip()]. */
  function SplitNames(c: Cell, sep: char): seq<string> {
    NonEmptyStripped(Split(Str(c), sep))
  }

  /**
   * Each name of a list cell is non-empty, already stripped and free of the
   * separator; each piece between separators that is not blank is a name; and
   * gluing the pieces back gives str(value).
   */
  lemma SplitNamesClean(c: Cell, sep: char)
    ensures var r := SplitNames(c, sep);
      forall i :: 0 <= i < |r| ==> r[i] != "" && Strip(r[i]) == r[i] && sep !in r[i]
    ensures var pieces := Split(Str(c), sep);
      Join(pieces, sep) == Str(c)
      && forall j :: 0 <= j < |pieces| && Strip(pieces[j]) != "" ==> Strip(pieces[j]) in SplitNames(c, sep)
  {
    var pieces := Split(Str(c), sep);
    var r := NonEmptyStripped(pieces);
    NonEmptyStrippedMembers(pieces);
    forall i | 0 <= i < |r|
      ensures r[i] != "" && Strip(r[i]) == r[i] && sep !in r[i]
    {
      assert r[i] in StrippedAll(pieces);
      var j :| 0 <= j < |pieces| && r[i] == StrippedAll(pieces)[j];
      StripStrip(pieces[j]);
      StripSubstring(pieces[j]);
    }
    forall j | 0 <= j < |pieces| && Strip(pieces[j]) != ""
      ensures Strip(pieces[j]) in r
    {
      assert StrippedAll(pieces)[j] == Strip(pieces[j]);
    }
  }

  /** Every character of s.strip() is a character of s. */
  lemma StripSubstring(s: string)
    ensures forall c :: c in Strip(s) ==> c in s
  {
    var a := LeadingSpaces(s);
    var t := Strip(s);
    forall c | c in t ensures c in s {
      var i :| 0 <= i < |t| && t[i] == c;
      assert s[a + i] == c;
    }
  }
}
