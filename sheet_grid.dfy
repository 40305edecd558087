/**
 * Worksheets as the two spreadsheet validators read them, and the pieces both validators share:
 * xlrd's cell access with Python list indexing, the leftward scan that recovers the header of a
 * merged cell, and the check that every required header is present once the barcode /
 * object-identifier pair is relaxed to "either one".
 */
module SheetGrid {
  import opened Wrappers
  import opened Text

  const INDEX_ERROR := "IndexError: list index out of range"
  const KEY_ERROR := "KeyError"

  /**
   * A worksheet read two ways. `rows` is what xlrd loads: the text of each cell, row by row,
   * where a formula cell holds the value last computed for it; `ncols` is the sheet's width.
   * `formulas` is what openpyxl loads from the same file: a formula cell holds the formula's
   * own text, starting with `=`, and any other cell its value. The two views need not agree.
   * A row shorter than the sheet reads as empty cells past its end (xlrd pads rows to the
   * sheet's width); the empty string is an empty cell.
   */
  datatype Sheet = Sheet(name: string, rows: seq<seq<string>>, ncols: nat, formulas: seq<seq<string>>)

  /** The text of cell (r, c) for a column counted from the left. */
  function CellText(s: Sheet, r: nat, c: nat): string
  {
    if r < |s.rows| && c < |s.rows[r]| then s.rows[r][c] else ""
  }

  /**
   * `sheet.cell(r, c).value`. The row is a Python list, so a column in [-ncols, 0) counts from
   * the right end; any other column, or a missing row, raises IndexError (`None` here).
   */
  function Cell(s: Sheet, r: nat, c: int): (v: Option<string>)
    ensures v.Some? <==> r < |s.rows| && 0 <= c + s.ncols && c < s.ncols
  {
    if r < |s.rows| && 0 <= c + s.ncols && c < s.ncols then
      Some(CellText(s, r, if c < 0 then c + s.ncols else c))
    else None
  }

  /** Cell (r, c) exists and is not empty, i.e. its value is truthy. */
  predicate Filled(s: Sheet, r: nat, c: int)
  {
    Cell(s, r, c).Some? && Cell(s, r, c).value != ""
  }

  /** openpyxl's `sheet.cell(row = j, column = i).value`: 1-based, from the formula view, and empty outside the data. */
  function OpenpyxlCell(s: Sheet, row: nat, column: nat): string
    requires row >= 1 && column >= 1
  {
    if row - 1 < |s.formulas| && column - 1 < |s.formulas[row - 1]| then s.formulas[row - 1][column - 1] else ""
  }

  /** A cell value that the validators reject as a formula: a string starting with `=`. */
  predicate IsEquation(v: string)
  {
    v != "" && v[0] == '='
  }

  /**
   * Where the header readers' leftward scan, which steps left while the cell is empty, stops
   * when started at column `c`. It runs past column 0 into the negative indices, which wrap to the right end of the row, and
   * raises once it passes -ncols.
   */
  function ScanLeft(s: Sheet, r: nat, c: int): (k: Result<int>)
    ensures k.Success? ==> Filled(s, r, k.value)
    ensures k.Failure? ==> k.error == INDEX_ERROR
    decreases c + s.ncols + 1
  {
    match Cell(s, r, c)
    case None => Failure(INDEX_ERROR)
    case Some(v) => if v != "" then Success(c) else ScanLeft(s, r, c - 1)
  }

  /** The scan stops at the nearest filled cell at or left of `c`, and raises iff there is none. */
  lemma {:induction false} ScanLeftFinds(s: Sheet, r: nat, c: int)
    requires c < s.ncols
    ensures ScanLeft(s, r, c).Success? ==>
      var k := ScanLeft(s, r, c).value;
      0 <= k + s.ncols && k <= c && Filled(s, r, k) && forall m :: k < m <= c ==> !Filled(s, r, m)
    ensures ScanLeft(s, r, c).Failure? <==> forall m :: 0 <= m + s.ncols && m <= c ==> !Filled(s, r, m)
    decreases c + s.ncols + 1
  {
    if Cell(s, r, c).Some? && Cell(s, r, c).value == "" {
      ScanLeftFinds(s, r, c - 1);
      assert !Filled(s, r, c);
    } else if Cell(s, r, c).None? {
      forall m | 0 <= m + s.ncols && m <= c
        ensures !Filled(s, r, m)
      {
        assert Cell(s, r, m).None?;
      }
    }
  }

  /**
   * When the scan wraps, every cell from column 0 to `c` is empty and the scan lands on the
   * rightmost filled cell of the row.
   */
  lemma ScanLeftWraps(s: Sheet, r: nat, c: nat)
    requires c < s.ncols
    requires ScanLeft(s, r, c).Success? && ScanLeft(s, r, c).value < 0
    ensures var k := ScanLeft(s, r, c).value + s.ncols;
      c < k < s.ncols && CellText(s, r, k) != "" &&
      (forall m :: 0 <= m <= c ==> CellText(s, r, m) == "") &&
      (forall m :: k < m < s.ncols ==> CellText(s, r, m) == "")
  {
    ScanLeftFinds(s, r, c);
    var k := ScanLeft(s, r, c).value;
    assert Filled(s, r, k);
    forall m | 0 <= m <= c
      ensures CellText(s, r, m) == ""
    {
      assert !Filled(s, r, m);
    }
    forall m | k + s.ncols < m < s.ncols
      ensures CellText(s, r, m) == ""
    {
      assert !Filled(s, r, m - s.ncols);
    }
  }

  /** The nearest filled cell of row `r` at or left of column `c`, not wrapping past column 0. */
  function NearestLeft(s: Sheet, r: nat, c: int): Option<nat>
    decreases if c < 0 then 0 else c + 1
  {
    if c < 0 then None
    else if CellText(s, r, c) != "" then Some(c)
    else NearestLeft(s, r, c - 1)
  }

  lemma {:induction false} NearestLeftFinds(s: Sheet, r: nat, c: int)
    ensures NearestLeft(s, r, c).Some? ==>
      var j := NearestLeft(s, r, c).value;
      j <= c && CellText(s, r, j) != "" && forall m :: j < m <= c ==> CellText(s, r, m) == ""
    ensures NearestLeft(s, r, c).None? <==> forall m :: 0 <= m <= c ==> CellText(s, r, m) == ""
    decreases if c < 0 then 0 else c + 1
  {
    if c >= 0 && CellText(s, r, c) == "" {
      NearestLeftFinds(s, r, c - 1);
    }
  }

  /**
   * The wrapping scan in terms of the non-wrapping one: it stops at the nearest filled cell at
   * or left of `c` if there is one, and otherwise at the rightmost filled cell of the row
   * (reached through a negative index); it raises iff the row has no filled cell.
   */
  lemma {:induction false} ScanLeftAsNearest(s: Sheet, r: nat, c: int)
    requires r < |s.rows| && -1 <= c < s.ncols
    ensures ScanLeft(s, r, c) ==
      match NearestLeft(s, r, c)
      case Some(j) => Success(j)
      case None =>
        match NearestLeft(s, r, s.ncols - 1)
        case Some(j) => Success(j - s.ncols)
        case None => Failure(INDEX_ERROR)
    decreases c + 1
  {
    if c >= 0 {
      if CellText(s, r, c) == "" {
        ScanLeftAsNearest(s, r, c - 1);
      }
    } else {
      WrappedScan(s, r, s.ncols - 1);
    }
  }

  /** Past column 0 the scan visits index m - ncols for each column m, right to left. */
  lemma {:induction false} WrappedScan(s: Sheet, r: nat, m: int)
    requires r < |s.rows| && -1 <= m < s.ncols
    ensures ScanLeft(s, r, m - s.ncols) ==
      match NearestLeft(s, r, m)
      case Some(j) => Success(j - s.ncols)
      case None => Failure(INDEX_ERROR)
    decreases m + 1
  {
    if m >= 0 && CellText(s, r, m) == "" {
      WrappedScan(s, r, m - 1);
    }
  }

  /** The leftward scan over row `r`, started at column `c`. */
  method ScanRowLeft(s: Sheet, r: nat, c: int) returns (k: Result<int>)
    ensures k == ScanLeft(s, r, c)
  {
    var j := c;
    var v := Cell(s, r, j);
    while v.Some? && v.value == ""
      invariant v == Cell(s, r, j)
      invariant ScanLeft(s, r, j) == ScanLeft(s, r, c)
      decreases j + s.ncols + 1
    {
      j := j - 1;
      v := Cell(s, r, j);
    }
    k := if v.None? then Failure(INDEX_ERROR) else Success(j);
  }

  /** The filled cells of row `r` among columns [0, n), left to right. */
  function FilledCells(s: Sheet, r: nat, n: nat): seq<string>
  {
    if n == 0 then []
    else FilledCells(s, r, n - 1) + (if CellText(s, r, n - 1) != "" then [CellText(s, r, n - 1)] else [])
  }

  /** A text is listed iff some column in [0, n) holds it; at most one entry per column. */
  lemma {:induction false} FilledCellsMembers(s: Sheet, r: nat, n: nat)
    ensures |FilledCells(s, r, n)| <= n
    ensures forall x :: x in FilledCells(s, r, n) <==> x != "" && exists c :: 0 <= c < n && CellText(s, r, c) == x
  {
    if n > 0 {
      FilledCellsMembers(s, r, n - 1);
    }
  }

  /**
   * A header triple: the top-level header and, below it, the middle and bottom ones. The
   * reference-filename column has no middle or bottom header (Python's `None`).
   */
  datatype Header = Header(top: string, middle: Option<string>, bottom: Option<string>)

  /** `item[i]` of a header triple, for i in 0..2. */
  function Component(h: Header, i: nat): Option<string>
  {
    if i == 0 then Some(h.top) else if i == 1 then h.middle else h.bottom
  }

  /** The i-th level of a header list as a set, leaving out the falsy entries (`None` and `""`). */
  function LevelItems(headers: seq<Header>, i: nat): set<string>
  {
    set h | h in headers && Component(h, i).Some? && Component(h, i).value != "" :: Component(h, i).value
  }

  /**
   * The barcode / object-identifier relaxation shared by both validators' `remove_annoying`:
   * when one of the pair is expected and found and the other is not found, the other is
   * removed from `expected`. `set.remove` raises KeyError when the item to remove is not
   * expected either.
   */
  function RemoveAnnoying<T>(v1: T, v2: T, expected: set<T>, found: set<T>): (r: Result<set<T>>)
    ensures r.Failure? <==> RelaxationRaises(v1, v2, expected, found)
    ensures r.Success? ==> r.value <= expected
    ensures r.Success? ==> forall x :: x in expected && x != v1 && x != v2 ==> x in r.value
    ensures r.Success? ==> (r.value <= found <==> SatisfiedWithEither(v1, v2, expected, found))
  {
    var first :=
      if v1 in expected && v1 in found && v2 !in found then
        (if v2 in expected then Success(expected - {v2}) else Failure(KEY_ERROR))
      else Success(expected);
    if first.Failure? then first
    else if v2 in first.value && v2 in found && v1 !in found then
      (if v1 in first.value then Success(first.value - {v1}) else Failure(KEY_ERROR))
    else first
  }

  /** `remove_annoying` raises: one of the pair is expected and found, the other neither found nor expected. */
  predicate RelaxationRaises<T>(v1: T, v2: T, expected: set<T>, found: set<T>)
  {
    (v1 in expected && v1 in found && v2 !in found && v2 !in expected) ||
    (v2 in expected && v2 in found && v1 !in found && v1 !in expected)
  }

  /**
   * What a header check demands: every expected item is found, except that an expected item
   * of the pair may be missing when the other one is expected and found.
   */
  predicate SatisfiedWithEither<T>(v1: T, v2: T, expected: set<T>, found: set<T>)
  {
    (forall x :: x in expected && x != v1 && x != v2 ==> x in found) &&
    (v1 in expected && v1 !in found ==> v2 in expected && v2 in found) &&
    (v2 in expected && v2 !in found ==> v1 in expected && v1 in found)
  }

  /** The header checks' loop collecting every expected item that was not found. */
  method MissingItems<T(==)>(expected: set<T>, found: set<T>) returns (missing: seq<T>)
    ensures forall x :: x in missing <==> x in expected && x !in found
  {
    missing := [];
    var rest := expected;
    while rest != {}
      invariant rest <= expected
      invariant forall x :: x in missing <==> x in expected - rest && x !in found
      decreases |rest|
    {
      var h :| h in rest;
      if h !in found {
        missing := missing + [h];
      }
      rest := rest - {h};
    }
  }

  /**
   * A header check of either validator: relax the pair, list what is missing, and fail with
   * `message` when anything is. A KeyError from the relaxation escapes as `Failure`.
   */
  method CheckRequired<T(==)>(v1: T, v2: T, expected: set<T>, found: set<T>, message: string)
    returns (r: Result<Check>)
    ensures r.Failure? <==> RelaxationRaises(v1, v2, expected, found)
    ensures r.Success? ==> (r.value == Pass <==> SatisfiedWithEither(v1, v2, expected, found))
  {
    var relaxed := RemoveAnnoying(v1, v2, expected, found);
    if relaxed.Failure? {
      return Failure(relaxed.error);
    }
    var missing := MissingItems(relaxed.value, found);
    if missing != [] {
      assert missing[0] in relaxed.value && missing[0] !in found;
      r := Success(Fail(message));
    } else {
      r := Success(Pass);
    }
  }
}
