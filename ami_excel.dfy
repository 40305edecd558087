/**
 * The packaged spreadsheet reader `ami_excel`: choosing the preservation and edit sheets of a
 * workbook, reading each sheet's three header rows and header triples, normalising the
 * triples through the header conversion table, and validating the preservation sheet.
 */
module AmiExcel {
  import opened Wrappers
  import opened Text
  import opened Decimal
  import opened SheetGrid

  const REFERENCE_FILENAME := "Reference filename (automatic)"
  const BARCODE := "Barcode"
  const OBJECT_IDENTIFIER := "Object identifier\n(edit heading to specify type - e.g. barcode)"
  const BARCODE_ENTRY := Header("Original master", Some("Object"), Some(BARCODE))
  const OBJECT_IDENTIFIER_ENTRY := Header("Original master", Some("Object"), Some(OBJECT_IDENTIFIER))
  /** A non-breaking space: some templates put one in the top-left cell. */
  const NBSP := "\U{a0}"

  const TOO_MANY_PRES := "Too many preservation master sheets"
  const TOO_MANY_EDIT := "Too many edit master sheets"
  const NO_PRES_SHEET := "AttributeError: 'NoneType' object has no attribute 'validate_worksheet'"

  /** Lower-cased sheet-name prefixes that mark the preservation sheet. */
  const PRES_PREFIXES := ["original", "preservation", "file", "full", "archive"]

  // ---------------------------------------------------------------- header rows and triples

  /** `get_headerRow`: the non-empty cells of a row in column order, as they are written. */
  function HeaderRowOf(s: Sheet, row: nat): Result<seq<string>>
  {
    if s.ncols > 0 && row >= |s.rows| then Failure(INDEX_ERROR) else Success(FilledCells(s, row, s.ncols))
  }

  /** The loop of `get_headerRow`. */
  method HeaderRow(s: Sheet, row: nat) returns (r: Result<seq<string>>)
    ensures r == HeaderRowOf(s, row)
    ensures r.Success? ==> forall x :: x in r.value <==> x != "" && exists c :: 0 <= c < s.ncols && CellText(s, row, c) == x
  {
    var headers := [];
    var i := 0;
    while i < s.ncols
      invariant 0 <= i <= s.ncols
      invariant i > 0 ==> row < |s.rows|
      invariant headers == FilledCells(s, row, i)
    {
      var value := Cell(s, row, i);
      if value.None? {
        return Failure(INDEX_ERROR);
      }
      if value.value != "" {
        headers := headers + [value.value];
      }
      i := i + 1;
    }
    r := Success(headers);
    FilledCellsMembers(s, row, s.ncols);
  }

  /**
   * The column whose row-0 text is the top header of `column`: the nearest filled one at or
   * left of it, or else the rightmost filled one, which the scan reaches by wrapping around.
   */
  function TopColumn(s: Sheet, column: nat): Option<nat>
    requires column < s.ncols
  {
    match NearestLeft(s, 0, column)
    case Some(j) => Some(j)
    case None => NearestLeft(s, 0, s.ncols - 1)
  }

  /**
   * `get_headerEntryAsTuple`, stated by where each key comes from: the bottom key is the cell
   * in row 2; the middle key the nearest filled row-1 cell at or left of the column, or `""`;
   * the top key the row-0 cell of `TopColumn`. A sheet with fewer than three rows, or whose
   * first row is empty, raises IndexError. Column 0 with an empty bottom key, or with a
   * non-breaking space as top key, becomes the reference-filename triple.
   */
  function HeaderEntryOf(s: Sheet, column: nat): Result<Header>
    requires column < s.ncols
  {
    if |s.rows| < 3 || TopColumn(s, column).None? then Failure(INDEX_ERROR)
    else
      var key1 := CellText(s, 0, TopColumn(s, column).value);
      var key2 := MiddleKey(s, column);
      var key3 := CellText(s, 2, column);
      if column == 0 && (key3 == "" || key1 == NBSP) then Success(Header(REFERENCE_FILENAME, None, None))
      else Success(Header(key1, Some(key2), Some(key3)))
  }

  /** The keys of a triple are the nearest filled header cells above and to the left. */
  lemma HeaderEntryKeys(s: Sheet, column: nat)
    requires column < s.ncols
    requires HeaderEntryOf(s, column).Success? && HeaderEntryOf(s, column).value.middle.Some?
    ensures var h := HeaderEntryOf(s, column).value;
      h.bottom == Some(CellText(s, 2, column)) &&
      (h.middle.value == "" <==> forall m :: 0 <= m <= column ==> CellText(s, 1, m) == "") &&
      (h.middle.value != "" ==>
        exists j :: 0 <= j <= column && CellText(s, 1, j) == h.middle.value &&
          forall m :: j < m <= column ==> CellText(s, 1, m) == "") &&
      h.top != "" &&
      ((exists m :: 0 <= m <= column && CellText(s, 0, m) != "") ==>
        exists j :: 0 <= j <= column && CellText(s, 0, j) == h.top && forall m :: j < m <= column ==> CellText(s, 0, m) == "")
  {
    NearestLeftFinds(s, 1, column);
    NearestLeftFinds(s, 0, column);
    NearestLeftFinds(s, 0, s.ncols - 1);
  }

  /** Reading a triple raises iff the sheet has fewer than three rows or an empty first row. */
  lemma HeaderEntryRaises(s: Sheet, column: nat)
    requires column < s.ncols
    ensures HeaderEntryOf(s, column).Failure? <==>
      |s.rows| < 3 || forall m :: 0 <= m < s.ncols ==> CellText(s, 0, m) == ""
  {
    NearestLeftFinds(s, 0, column);
    NearestLeftFinds(s, 0, s.ncols - 1);
  }

  /** The middle key of `get_headerEntryAsTuple`: its scan gives up at column 0 with `""`. */
  function MiddleKey(s: Sheet, column: nat): string
  {
    if NearestLeft(s, 1, column).Some? then CellText(s, 1, NearestLeft(s, 1, column).value) else ""
  }

  /** The middle key's loop. */
  method ScanMiddleKey(s: Sheet, column: nat) returns (key2: string)
    requires 1 < |s.rows| && column < s.ncols
    ensures key2 == MiddleKey(s, column)
  {
    var j: int := column;
    key2 := Cell(s, 1, j).value;
    while key2 == ""
      invariant 0 <= j <= column
      invariant key2 == CellText(s, 1, j)
      invariant NearestLeft(s, 1, j) == NearestLeft(s, 1, column)
      decreases j
    {
      j := j - 1;
      if j == -1 {
        key2 := "";
        break;
      }
      key2 := Cell(s, 1, j).value;
    }
  }

  /** `get_headerEntryAsTuple`: the middle key's scan stops at column 0, the top key's wraps. */
  method HeaderEntry(s: Sheet, column: nat) returns (e: Result<Header>)
    requires column < s.ncols
    ensures e == HeaderEntryOf(s, column)
  {
    var key3 := Cell(s, 2, column);
    if key3.None? {
      return Failure(INDEX_ERROR);
    }
    var key2 := ScanMiddleKey(s, column);
    var k := ScanRowLeft(s, 0, column);
    ScanLeftAsNearest(s, 0, column);
    if k.Failure? {
      return Failure(k.error);
    }
    var key1 := Cell(s, 0, k.value).value;
    NearestLeftFinds(s, 0, s.ncols - 1);
    if NearestLeft(s, 0, column).Some? {
      assert 0 <= k.value == TopColumn(s, column).value;
    } else {
      assert k.value + s.ncols == TopColumn(s, column).value < s.ncols;
    }
    if column == 0 && (key3.value == "" || key1 == NBSP) {
      e := Success(Header(REFERENCE_FILENAME, None, None));
    } else {
      e := Success(Header(key1, Some(key2), Some(key3.value)));
    }
  }

  /** `get_headerEntries`: one triple per column, in column order. */
  method HeaderEntries(s: Sheet) returns (r: Result<seq<Header>>)
    ensures r.Failure? <==> exists c :: 0 <= c < s.ncols && HeaderEntryOf(s, c).Failure?
    ensures r.Failure? ==> r.error == INDEX_ERROR
    ensures r.Success? ==>
      |r.value| == s.ncols && forall c :: 0 <= c < s.ncols ==> HeaderEntryOf(s, c) == Success(r.value[c])
  {
    var entries := [];
    var i := 0;
    while i < s.ncols
      invariant 0 <= i <= s.ncols
      invariant |entries| == i
      invariant forall c :: 0 <= c < i ==> HeaderEntryOf(s, c) == Success(entries[c])
    {
      var e := HeaderEntry(s, i);
      if e.Failure? {
        return Failure(e.error);
      }
      entries := entries + [e.value];
      i := i + 1;
    }
    r := Success(entries);
  }

  // ---------------------------------------------------------------- normalised headers

  /** The lower-cased non-empty keys of a triple, in order. */
  function Parts(h: Header): seq<string>
  {
    (if h.top != "" then [Lower(h.top)] else []) +
    (if h.middle.Some? && h.middle.value != "" then [Lower(h.middle.value)] else []) +
    (if h.bottom.Some? && h.bottom.value != "" then [Lower(h.bottom.value)] else [])
  }

  /** The text looked up in the conversion table: parts joined by `|`, newlines as spaces, stripped. */
  function NormalizedText(h: Header): string
  {
    Strip(ReplaceChar(Join("|", Parts(h)), '\n', ' '))
  }

  /** The lookup text has no newline and no whitespace at either end. */
  lemma NormalizedTextClean(h: Header)
    ensures var n := NormalizedText(h);
      (forall k :: 0 <= k < |n| ==> n[k] != '\n') && (n != "" ==> !IsSpace(n[0]) && !IsSpace(n[|n| - 1]))
  {
    var u := ReplaceChar(Join("|", Parts(h)), '\n', ' ');
    StripNoNewline(u);
    StripEnds(u);
  }

  /**
   * `get_normalizedHeaderEntries`: one normalised name per triple, in order; a lookup text
   * missing from the conversion table raises KeyError.
   */
  method NormalizedHeaderEntries(entries: seq<Header>, conversion: map<string, string>)
    returns (r: Result<seq<string>>)
    ensures r.Failure? <==> exists i :: 0 <= i < |entries| && NormalizedText(entries[i]) !in conversion
    ensures r.Failure? ==> r.error == KEY_ERROR
    ensures r.Success? ==>
      |r.value| == |entries| &&
      forall i :: 0 <= i < |entries| ==> r.value[i] == conversion[NormalizedText(entries[i])]
  {
    var normalized := [];
    var i := 0;
    while i < |entries|
      invariant 0 <= i <= |entries|
      invariant |normalized| == i
      invariant forall j :: 0 <= j < i ==>
        NormalizedText(entries[j]) in conversion && normalized[j] == conversion[NormalizedText(entries[j])]
    {
      var text := NormalizedText(entries[i]);
      if text !in conversion {
        return Failure(KEY_ERROR);
      }
      normalized := normalized + [conversion[text]];
      i := i + 1;
    }
    r := Success(normalized);
  }

  // ---------------------------------------------------------------- sheets and workbook

  /** What the constructor of `ami_excelsheet` keeps of a sheet. */
  datatype ExcelSheet = ExcelSheet(
    sheet: Sheet,
    headerTop: seq<string>,
    headerMiddle: seq<string>,
    headerBottom: seq<string>,
    headerEntries: seq<Header>,
    normalizedHeaderEntries: seq<string>)

  /** A sheet loads unless a header row or triple raises IndexError or a lookup raises KeyError. */
  predicate Loads(s: Sheet, conversion: map<string, string>)
  {
    (s.ncols == 0 || |s.rows| >= 3) &&
    forall c :: 0 <= c < s.ncols ==>
      HeaderEntryOf(s, c).Success? && NormalizedText(HeaderEntryOf(s, c).value) in conversion
  }

  /**
   * The error of a sheet that does not load: IndexError when a header row or triple is missing,
   * which is read first, and otherwise KeyError from the name lookup.
   */
  function LoadError(s: Sheet, conversion: map<string, string>): string
  {
    if (s.ncols == 0 || |s.rows| >= 3) && forall c :: 0 <= c < s.ncols ==> HeaderEntryOf(s, c).Success? then KEY_ERROR
    else INDEX_ERROR
  }

  /**
   * What the constructor reads from a sheet that loads: the three header rows, one triple per
   * column, and each triple's name from the conversion table.
   */
  function LoadedSheet(s: Sheet, conversion: map<string, string>): (e: ExcelSheet)
    requires Loads(s, conversion)
    ensures e.sheet == s
    ensures HeaderRowOf(s, 0) == Success(e.headerTop) && HeaderRowOf(s, 1) == Success(e.headerMiddle) &&
      HeaderRowOf(s, 2) == Success(e.headerBottom)
    ensures |e.headerEntries| == s.ncols && |e.normalizedHeaderEntries| == s.ncols
    ensures forall c :: 0 <= c < s.ncols ==>
      HeaderEntryOf(s, c) == Success(e.headerEntries[c]) &&
      e.normalizedHeaderEntries[c] == conversion[NormalizedText(e.headerEntries[c])]
  {
    var entries := seq(s.ncols, c requires 0 <= c < s.ncols => HeaderEntryOf(s, c).value);
    ExcelSheet(s, FilledCells(s, 0, s.ncols), FilledCells(s, 1, s.ncols), FilledCells(s, 2, s.ncols), entries,
      seq(s.ncols, c requires 0 <= c < s.ncols => conversion[NormalizedText(entries[c])]))
  }

  /** A sheet with columns but fewer than three rows fails on a header row, with IndexError. */
  lemma ShortSheetFails(s: Sheet, conversion: map<string, string>)
    requires s.ncols > 0 && |s.rows| < 3
    ensures !Loads(s, conversion) && LoadError(s, conversion) == INDEX_ERROR
  {
    assert !(s.ncols == 0 || |s.rows| >= 3);
  }

  /** A triple that raises makes the sheet fail with IndexError. */
  lemma EntryFails(s: Sheet, conversion: map<string, string>, c: nat)
    requires c < s.ncols && HeaderEntryOf(s, c).Failure?
    ensures !Loads(s, conversion) && LoadError(s, conversion) == INDEX_ERROR
  {
  }

  /** With every triple read, a lookup text missing from the table makes the sheet fail with KeyError. */
  lemma LookupFails(s: Sheet, conversion: map<string, string>, entries: seq<Header>, c: nat)
    requires (s.ncols == 0 || |s.rows| >= 3) && |entries| == s.ncols
    requires forall k :: 0 <= k < s.ncols ==> HeaderEntryOf(s, k) == Success(entries[k])
    requires c < s.ncols && NormalizedText(entries[c]) !in conversion
    ensures !Loads(s, conversion) && LoadError(s, conversion) == KEY_ERROR
  {
    LookupMisses(s, conversion, entries[c], c);
    AllEntriesRead(s, entries);
  }

  /** A column whose triple's lookup text is missing keeps the sheet from loading. */
  lemma LookupMisses(s: Sheet, conversion: map<string, string>, h: Header, c: nat)
    requires c < s.ncols && HeaderEntryOf(s, c) == Success(h) && NormalizedText(h) !in conversion
    ensures !Loads(s, conversion)
  {
  }

  /** Every triple read: the sheet's error, if any, is the lookup's. */
  lemma AllEntriesRead(s: Sheet, entries: seq<Header>)
    requires (s.ncols == 0 || |s.rows| >= 3) && |entries| == s.ncols
    requires forall k :: 0 <= k < s.ncols ==> HeaderEntryOf(s, k) == Success(entries[k])
    ensures forall conversion: map<string, string> :: LoadError(s, conversion) == KEY_ERROR
  {
  }

  /** The constructor of `ami_excelsheet`, without the data frame it also reads. */
  method LoadSheet(s: Sheet, conversion: map<string, string>) returns (r: Result<ExcelSheet>)
    ensures r.Success? <==> Loads(s, conversion)
    ensures r.Success? ==> r.value == LoadedSheet(s, conversion)
    ensures r.Failure? ==> r.error == LoadError(s, conversion)
  {
    var top := HeaderRow(s, 0);
    if top.Failure? {
      ShortSheetFails(s, conversion);
      return Failure(top.error);
    }
    var middle := HeaderRow(s, 1);
    if middle.Failure? {
      ShortSheetFails(s, conversion);
      return Failure(middle.error);
    }
    var bottom := HeaderRow(s, 2);
    if bottom.Failure? {
      ShortSheetFails(s, conversion);
      return Failure(bottom.error);
    }
    var entries := HeaderEntries(s);
    if entries.Failure? {
      var c :| 0 <= c < s.ncols && HeaderEntryOf(s, c).Failure?;
      EntryFails(s, conversion, c);
      return Failure(entries.error);
    }
    var normalized := NormalizedHeaderEntries(entries.value, conversion);
    if normalized.Failure? {
      var c :| 0 <= c < |entries.value| && NormalizedText(entries.value[c]) !in conversion;
      LookupFails(s, conversion, entries.value, c);
      return Failure(normalized.error);
    }
    r := Success(ExcelSheet(s, top.value, middle.value, bottom.value, entries.value, normalized.value));
    var e := LoadedSheet(s, conversion);
    assert entries.value == e.headerEntries;
    assert normalized.value == e.normalizedHeaderEntries;
  }

  datatype SheetKind = Preservation | Edit | Other

  /** A name matching one of the preservation prefixes, else `edit`, lower-cased and from the start. */
  function KindOf(name: string): SheetKind
  {
    if exists p :: p in PRES_PREFIXES && StartsWith(Lower(name), p) then Preservation
    else if StartsWith(Lower(name), "edit") then Edit
    else Other
  }

  /** How many of the sheets are of kind `k`. */
  function Count(sheets: seq<Sheet>, k: SheetKind): nat
  {
    if sheets == [] then 0
    else (if KindOf(sheets[0].name) == k then 1 else 0) + Count(sheets[1..], k)
  }

  /** What the constructor of `ami_excel` keeps of a workbook. */
  datatype Workbook = Workbook(presSheet: Option<ExcelSheet>, editSheet: Option<ExcelSheet>)

  /**
   * The constructor's loop over the sheet names from the current one on, with the sheets
   * chosen so far: a second sheet of a kind already chosen raises, and so does a sheet that
   * does not load.
   */
  function SelectFrom(sheets: seq<Sheet>, conversion: map<string, string>, pres: Option<ExcelSheet>, edit: Option<ExcelSheet>): Result<Workbook>
    decreases |sheets|
  {
    if sheets == [] then Success(Workbook(pres, edit))
    else
      var kind := KindOf(sheets[0].name);
      if kind == Other then SelectFrom(sheets[1..], conversion, pres, edit)
      else if kind == Preservation && pres.Some? then Failure(TOO_MANY_PRES)
      else if kind == Edit && edit.Some? then Failure(TOO_MANY_EDIT)
      else if !Loads(sheets[0], conversion) then Failure(LoadError(sheets[0], conversion))
      else if kind == Preservation then SelectFrom(sheets[1..], conversion, Some(LoadedSheet(sheets[0], conversion)), edit)
      else SelectFrom(sheets[1..], conversion, pres, Some(LoadedSheet(sheets[0], conversion)))
  }

  /** `e` is the sheet loaded from one of the sheets of kind `k`. */
  predicate LoadedFromKind(e: ExcelSheet, sheets: seq<Sheet>, k: SheetKind, conversion: map<string, string>)
  {
    exists j :: 0 <= j < |sheets| && KindOf(sheets[j].name) == k && Loads(sheets[j], conversion) &&
      e == LoadedSheet(sheets[j], conversion)
  }

  /** Every sheet that would be chosen, preservation or edit, loads. */
  predicate ChosenLoad(sheets: seq<Sheet>, conversion: map<string, string>)
  {
    forall j :: 0 <= j < |sheets| && KindOf(sheets[j].name) != Other ==> Loads(sheets[j], conversion)
  }

  lemma ChosenLoadStep(sheets: seq<Sheet>, conversion: map<string, string>)
    requires sheets != []
    ensures ChosenLoad(sheets, conversion) <==>
      (KindOf(sheets[0].name) != Other ==> Loads(sheets[0], conversion)) && ChosenLoad(sheets[1..], conversion)
  {
    assert forall j :: 0 < j < |sheets| ==> sheets[j] == sheets[1..][j - 1];
  }

  /**
   * Opening a workbook succeeds iff it has at most one preservation and one edit sheet
   * (besides those already chosen), each of them loading.
   */
  lemma {:induction false} SelectFromSucceeds(sheets: seq<Sheet>, conversion: map<string, string>, pres: Option<ExcelSheet>, edit: Option<ExcelSheet>)
    ensures SelectFrom(sheets, conversion, pres, edit).Success? <==>
      Count(sheets, Preservation) + (if pres.Some? then 1 else 0) <= 1 &&
      Count(sheets, Edit) + (if edit.Some? then 1 else 0) <= 1 &&
      ChosenLoad(sheets, conversion)
    decreases |sheets|
  {
    if sheets != [] {
      var kind := KindOf(sheets[0].name);
      var rest := sheets[1..];
      ChosenLoadStep(sheets, conversion);
      if kind == Other {
        SelectFromSucceeds(rest, conversion, pres, edit);
      } else if (kind == Preservation && pres.Some?) || (kind == Edit && edit.Some?) {
      } else if Loads(sheets[0], conversion) {
        var e := LoadedSheet(sheets[0], conversion);
        if kind == Preservation {
          SelectFromSucceeds(rest, conversion, Some(e), edit);
        } else {
          SelectFromSucceeds(rest, conversion, pres, Some(e));
        }
      }
    }
  }

  /**
   * On success the preservation slot is kept if already filled, and otherwise filled iff the
   * sheets hold one preservation sheet, by the sheet loaded from it; likewise the edit slot.
   */
  lemma {:induction false} SelectFromSlots(sheets: seq<Sheet>, conversion: map<string, string>, pres: Option<ExcelSheet>, edit: Option<ExcelSheet>)
    requires SelectFrom(sheets, conversion, pres, edit).Success?
    ensures var w := SelectFrom(sheets, conversion, pres, edit).value;
      (pres.Some? ==> w.presSheet == pres) &&
      (pres.None? && w.presSheet.Some? ==> LoadedFromKind(w.presSheet.value, sheets, Preservation, conversion)) &&
      (edit.Some? ==> w.editSheet == edit) &&
      (edit.None? && w.editSheet.Some? ==> LoadedFromKind(w.editSheet.value, sheets, Edit, conversion))
    decreases |sheets|
  {
    if sheets != [] {
      var kind := KindOf(sheets[0].name);
      var rest := sheets[1..];
      ShiftLoadedFromKind(sheets, conversion);
      if kind == Other {
        SelectFromSlots(rest, conversion, pres, edit);
      } else {
        var e := LoadedSheet(sheets[0], conversion);
        if kind == Preservation {
          SelectFromSlots(rest, conversion, Some(e), edit);
        } else {
          SelectFromSlots(rest, conversion, pres, Some(e));
        }
      }
    }
  }

  /** On success a slot is filled iff the workbook has a sheet of that kind. */
  lemma {:induction false} SelectFromFills(sheets: seq<Sheet>, conversion: map<string, string>, pres: Option<ExcelSheet>, edit: Option<ExcelSheet>)
    requires SelectFrom(sheets, conversion, pres, edit).Success?
    ensures var w := SelectFrom(sheets, conversion, pres, edit).value;
      (w.presSheet.Some? <==> pres.Some? || Count(sheets, Preservation) > 0) &&
      (w.editSheet.Some? <==> edit.Some? || Count(sheets, Edit) > 0)
    decreases |sheets|
  {
    if sheets != [] {
      var kind := KindOf(sheets[0].name);
      var rest := sheets[1..];
      if kind == Other {
        SelectFromFills(rest, conversion, pres, edit);
      } else {
        var e := LoadedSheet(sheets[0], conversion);
        if kind == Preservation {
          SelectFromFills(rest, conversion, Some(e), edit);
        } else {
          SelectFromFills(rest, conversion, pres, Some(e));
        }
      }
    }
  }

  /** A sheet chosen from the later sheets was chosen from the whole list. */
  lemma ShiftLoadedFromKind(sheets: seq<Sheet>, conversion: map<string, string>)
    requires sheets != []
    ensures forall e, k :: LoadedFromKind(e, sheets[1..], k, conversion) ==> LoadedFromKind(e, sheets, k, conversion)
  {
    forall e, k | LoadedFromKind(e, sheets[1..], k, conversion)
      ensures LoadedFromKind(e, sheets, k, conversion)
    {
      var j :| 0 <= j < |sheets[1..]| && KindOf(sheets[1..][j].name) == k && Loads(sheets[1..][j], conversion) &&
        e == LoadedSheet(sheets[1..][j], conversion);
      assert sheets[1..][j] == sheets[j + 1];
    }
  }

  /** The constructor of `ami_excel`: the loop over the workbook's sheets. */
  method OpenWorkbook(sheets: seq<Sheet>, conversion: map<string, string>) returns (r: Result<Workbook>)
    ensures r == SelectFrom(sheets, conversion, None, None)
  {
    var pres: Option<ExcelSheet> := None;
    var edit: Option<ExcelSheet> := None;
    var i := 0;
    while i < |sheets|
      invariant 0 <= i <= |sheets|
      invariant SelectFrom(sheets[i..], conversion, pres, edit) == SelectFrom(sheets, conversion, None, None)
    {
      var sheet := sheets[i];
      assert sheets[i..][0] == sheet && sheets[i..][1..] == sheets[i + 1..];
      var kind := KindOf(sheet.name);
      if kind != Other {
        if kind == Preservation && pres.Some? {
          return Failure(TOO_MANY_PRES);
        }
        if kind == Edit && edit.Some? {
          return Failure(TOO_MANY_EDIT);
        }
        var loaded := LoadSheet(sheet, conversion);
        if loaded.Failure? {
          return Failure(loaded.error);
        }
        if kind == Preservation {
          pres := Some(loaded.value);
        } else {
          edit := Some(loaded.value);
        }
      }
      i := i + 1;
    }
    r := Success(Workbook(pres, edit));
  }

  // ---------------------------------------------------------------- validation

  /** Cells of rows 1 to 4 and columns 1 to n - 1 (openpyxl numbering) that hold a formula. */
  predicate HasEquation(s: Sheet, n: nat)
  {
    exists i, j :: 1 <= i < n && 1 <= j < 5 && IsEquation(OpenpyxlCell(s, j, i))
  }

  /** `check_noequations`: fails at the first column, left to right, with a formula in rows 1 to 4. */
  method CheckNoEquations(s: Sheet, n: nat) returns (r: Check)
    ensures r.Fail? <==> HasEquation(s, n)
  {
    var i := 1;
    while i < n
      invariant 1 <= i <= if n < 1 then 1 else n
      invariant forall c, j :: 1 <= c < i && 1 <= j < 5 ==> !IsEquation(OpenpyxlCell(s, j, c))
    {
      var j := 1;
      while j < 5
        invariant 1 <= j <= 5
        invariant forall m :: 1 <= m < j ==> !IsEquation(OpenpyxlCell(s, m, i))
      {
        if IsEquation(OpenpyxlCell(s, j, i)) {
          return Fail("Cell R4C" + NatToString(i) + " contain equations.");
        }
        j := j + 1;
      }
      i := i + 1;
    }
    r := Pass;
  }

  /** `check_headerRow`: every expected header of one level is found, `Barcode` or the object identifier sufficing. */
  method CheckHeaderRow(expected: set<string>, found: set<string>) returns (r: Result<Check>)
    ensures r.Failure? <==> RelaxationRaises(BARCODE, OBJECT_IDENTIFIER, expected, found)
    ensures r.Success? ==> (r.value == Pass <==> SatisfiedWithEither(BARCODE, OBJECT_IDENTIFIER, expected, found))
  {
    r := CheckRequired(BARCODE, OBJECT_IDENTIFIER, expected, found, "Missing required value");
  }

  /** `check_headerEntries`: every expected triple is found, either object triple sufficing for the other. */
  method CheckHeaderEntries(expected: set<Header>, found: set<Header>) returns (r: Result<Check>)
    ensures r.Failure? <==> RelaxationRaises(BARCODE_ENTRY, OBJECT_IDENTIFIER_ENTRY, expected, found)
    ensures r.Success? ==>
      (r.value == Pass <==> SatisfiedWithEither(BARCODE_ENTRY, OBJECT_IDENTIFIER_ENTRY, expected, found))
  {
    r := CheckRequired(BARCODE_ENTRY, OBJECT_IDENTIFIER_ENTRY, expected, found, "Incorrect header entry");
  }

  /** `check_reffilenameheader`: the top header row names the reference-filename column. */
  function CheckRefFilenameHeader(sh: ExcelSheet): (r: Check)
    ensures r == Pass <==> exists c :: 0 <= c < |sh.headerTop| && sh.headerTop[c] == REFERENCE_FILENAME
  {
    if REFERENCE_FILENAME in sh.headerTop then Pass else Fail("Missing correct filename header.")
  }

  /** One of the three header-level checks raises KeyError while relaxing the pair. */
  predicate LevelCheckRaises(sh: ExcelSheet, expectedHeaders: seq<Header>, i: nat)
  {
    RelaxationRaises(BARCODE, OBJECT_IDENTIFIER, LevelItems(expectedHeaders, i), LevelItems(sh.headerEntries, i))
  }

  predicate LevelCheckPasses(sh: ExcelSheet, expectedHeaders: seq<Header>, i: nat)
  {
    SatisfiedWithEither(BARCODE, OBJECT_IDENTIFIER, LevelItems(expectedHeaders, i), LevelItems(sh.headerEntries, i))
  }

  function HeaderSet(headers: seq<Header>): set<Header>
  {
    set h | h in headers
  }

  /** What `validate_worksheet` accepts: all three levels, the triples, the reference column, no formula. */
  predicate WorksheetValid(sh: ExcelSheet, expectedHeaders: seq<Header>)
  {
    (forall i :: 0 <= i < 3 ==> LevelCheckPasses(sh, expectedHeaders, i)) &&
    SatisfiedWithEither(BARCODE_ENTRY, OBJECT_IDENTIFIER_ENTRY, HeaderSet(expectedHeaders), HeaderSet(sh.headerEntries)) &&
    REFERENCE_FILENAME in sh.headerTop &&
    !HasEquation(sh.sheet, |sh.headerEntries|)
  }

  /** A KeyError escapes `validate_worksheet` iff one of the relaxations raises. */
  predicate WorksheetRaises(sh: ExcelSheet, expectedHeaders: seq<Header>)
  {
    (exists i :: 0 <= i < 3 && LevelCheckRaises(sh, expectedHeaders, i)) ||
    RelaxationRaises(BARCODE_ENTRY, OBJECT_IDENTIFIER_ENTRY, HeaderSet(expectedHeaders), HeaderSet(sh.headerEntries))
  }

  /** The three header-level checks of `validate_worksheet`, run in turn. */
  method CheckLevels(sh: ExcelSheet, expectedHeaders: seq<Header>) returns (r: Result<bool>)
    ensures r.Failure? <==> exists i :: 0 <= i < 3 && LevelCheckRaises(sh, expectedHeaders, i)
    ensures r.Success? ==> (r.value <==> forall i :: 0 <= i < 3 ==> LevelCheckPasses(sh, expectedHeaders, i))
  {
    var valid := true;
    var i := 0;
    while i < 3
      invariant 0 <= i <= 3
      invariant forall l :: 0 <= l < i ==> !LevelCheckRaises(sh, expectedHeaders, l)
      invariant valid <==> forall l :: 0 <= l < i ==> LevelCheckPasses(sh, expectedHeaders, l)
    {
      var level := CheckHeaderRow(LevelItems(expectedHeaders, i), LevelItems(sh.headerEntries, i));
      if level.Failure? {
        assert LevelCheckRaises(sh, expectedHeaders, i);
        return Failure(level.error);
      }
      if level.value.Fail? {
        assert !LevelCheckPasses(sh, expectedHeaders, i);
        valid := false;
      } else {
        assert LevelCheckPasses(sh, expectedHeaders, i);
      }
      i := i + 1;
    }
    r := Success(valid);
  }

  /**
   * `validate_worksheet` of the preservation sheet: every check runs, and the sheet is valid
   * iff none of them failed. `expectedHeaders` is the Media Ingest header list.
   */
  method ValidateWorksheet(sh: ExcelSheet, expectedHeaders: seq<Header>) returns (r: Result<bool>)
    ensures r.Failure? <==> WorksheetRaises(sh, expectedHeaders)
    ensures r.Success? ==> (r.value <==> WorksheetValid(sh, expectedHeaders))
  {
    var levels := CheckLevels(sh, expectedHeaders);
    if levels.Failure? {
      return Failure(levels.error);
    }
    var valid := levels.value;
    var entries := CheckHeaderEntries(HeaderSet(expectedHeaders), HeaderSet(sh.headerEntries));
    if entries.Failure? {
      return Failure(entries.error);
    }
    if entries.value.Fail? {
      valid := false;
    }
    if CheckRefFilenameHeader(sh).Fail? {
      valid := false;
    }
    var equations := CheckNoEquations(sh.sheet, |sh.headerEntries|);
    if equations.Fail? {
      valid := false;
    }
    r := Success(valid);
  }

  /**
   * `validate_workbook`: a workbook without a preservation sheet raises AttributeError (the
   * sheet's validation is called on `None`); otherwise the verdict is the sheet's.
   */
  method ValidateWorkbook(wb: Workbook, expectedHeaders: seq<Header>) returns (r: Result<bool>)
    ensures wb.presSheet.None? ==> r == Failure(NO_PRES_SHEET)
    ensures wb.presSheet.Some? ==>
      (r.Failure? <==> WorksheetRaises(wb.presSheet.value, expectedHeaders)) &&
      (r.Success? ==> (r.value <==> WorksheetValid(wb.presSheet.value, expectedHeaders)))
  {
    if wb.presSheet.None? {
      return Failure(NO_PRES_SHEET);
    }
    r := ValidateWorksheet(wb.presSheet.value, expectedHeaders);
  }
}
