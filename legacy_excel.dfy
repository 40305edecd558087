/**
 * The older, root-level spreadsheet validator (`AMI_Excel` of `validate_ami_excel.py`). It finds
 * the preservation sheet, reads its three header rows lower-cased, rebuilds the header hierarchy
 * of merged cells by scanning left, and checks the result against a fixed profile of 22 header
 * triples.
 */
module LegacyExcel {
  import opened Wrappers
  import opened Text
  import opened Decimal
  import opened SheetGrid

  const REFERENCE_FILENAME := "reference filename (automatic)"
  const ORIGINAL_MASTER := "original master"
  const FILE_INFORMATION := "file information (automatic)"
  const BARCODE := "barcode"
  const OBJECT_IDENTIFIER := "object identifier\n(edit heading to specify type - e.g. barcode)"

  const REFERENCE_ENTRY := Header(REFERENCE_FILENAME, None, None)
  const BARCODE_ENTRY := Header(ORIGINAL_MASTER, Some("object"), Some(BARCODE))
  const OBJECT_IDENTIFIER_ENTRY := Header(ORIGINAL_MASTER, Some("object"), Some(OBJECT_IDENTIFIER))

  /** `excel_profile`: the header triples a preservation sheet must have, lower-cased. */
  const EXCEL_PROFILE: seq<Header> := [
    REFERENCE_ENTRY,
    Header(ORIGINAL_MASTER, Some("bibliographic item"), Some("title")),
    Header(ORIGINAL_MASTER, Some("bibliographic item"), Some("class mark/id")),
    Header(ORIGINAL_MASTER, Some("bibliographic item"), Some("division code")),
    Header(ORIGINAL_MASTER, Some("bibliographic item"), Some("date")),
    OBJECT_IDENTIFIER_ENTRY,
    Header(ORIGINAL_MASTER, Some("object"), Some("format")),
    Header(ORIGINAL_MASTER, Some("object"), Some("generation")),
    BARCODE_ENTRY,
    Header(ORIGINAL_MASTER, Some("content specifications"), Some("broadcast\nstandard")),
    Header(ORIGINAL_MASTER, Some("content specifications"), Some("color")),
    Header(ORIGINAL_MASTER, Some("notes"), Some("condition notes")),
    Header(ORIGINAL_MASTER, Some("notes"), Some("content notes")),
    Header(ORIGINAL_MASTER, Some("notes"), Some("other notes")),
    Header(FILE_INFORMATION, Some("general info"), Some("filename")),
    Header(FILE_INFORMATION, Some("general info"), Some("extension")),
    Header(FILE_INFORMATION, Some("general info"), Some("file format")),
    Header(FILE_INFORMATION, Some("general info"), Some("duration\n(hh:mm:ss:ff)")),
    Header(FILE_INFORMATION, Some("general info"), Some("date created")),
    Header(FILE_INFORMATION, Some("video content"), Some("video codec name")),
    Header(FILE_INFORMATION, Some("audio content"), Some("audio codec name")),
    Header("operator", Some("notes"), Some("notes"))
  ]

  /**
   * The expected set `validate` builds from level i of a header list: every top-level heading,
   * and the middle and bottom headings that are neither `None` nor empty.
   */
  function ProfileLevel(hs: seq<Header>, i: nat): set<string>
  {
    if hs == [] then {}
    else
      var here := if i == 0 then {hs[0].top}
                  else if Component(hs[0], i).Some? && Component(hs[0], i).value != "" then {Component(hs[0], i).value}
                  else {};
      here + ProfileLevel(hs[1..], i)
  }

  /** A heading is expected at level i iff some triple has it there (and, below the top, it is not empty). */
  lemma {:induction false} ProfileLevelMembers(hs: seq<Header>, i: nat, x: string)
    ensures x in ProfileLevel(hs, i) <==>
      exists k :: 0 <= k < |hs| && Component(hs[k], i) == Some(x) && (i == 0 || x != "")
  {
    if hs != [] {
      ProfileLevelMembers(hs[1..], i, x);
      if exists k :: 0 <= k < |hs| && Component(hs[k], i) == Some(x) && (i == 0 || x != "") {
        var k :| 0 <= k < |hs| && Component(hs[k], i) == Some(x) && (i == 0 || x != "");
        if k > 0 {
          assert hs[1..][k - 1] == hs[k];
        }
      }
      if exists k :: 0 <= k < |hs[1..]| && Component(hs[1..][k], i) == Some(x) && (i == 0 || x != "") {
        var k :| 0 <= k < |hs[1..]| && Component(hs[1..][k], i) == Some(x) && (i == 0 || x != "");
        assert hs[k + 1] == hs[1..][k];
      }
    }
  }

  function ExpectedLevel(i: nat): set<string>
  {
    ProfileLevel(EXCEL_PROFILE, i)
  }

  /** `set(excel_profile)`, the triples the hierarchy check expects. */
  function ProfileSet(): set<Header>
  {
    set h | h in EXCEL_PROFILE
  }

  const NO_SHEET_NAMES := "AttributeError: 'NoneType' object has no attribute 'sheet_names'"
  const NO_HEADER1 := "AttributeError: 'AMI_Excel' object has no attribute 'header1'"
  const NO_PRES_SHEET := "Required 'Preservation files' sheet is not in workbook."
  const MISSING_HEADING := "Missing required heading."
  const BAD_HIERARCHY := "Incorrect heirarchy."

  /** `re.match("(preservation|files)", name.lower())`: the lower-cased name starts with either word. */
  predicate IsPresName(name: string)
  {
    StartsWith(Lower(name), "preservation") || StartsWith(Lower(name), "files")
  }

  /** The sheet `check_sheets` settles on: the first one, in workbook order, with a preservation name. */
  function FirstPresSheet(sheets: seq<Sheet>): Option<Sheet>
  {
    if sheets == [] then None
    else if IsPresName(sheets[0].name) then Some(sheets[0])
    else FirstPresSheet(sheets[1..])
  }

  /** The sheet chosen has a preservation name and every earlier sheet has not; there is none iff no name qualifies. */
  lemma {:induction false} FirstPresSheetIsFirst(sheets: seq<Sheet>)
    ensures FirstPresSheet(sheets).None? <==> forall i :: 0 <= i < |sheets| ==> !IsPresName(sheets[i].name)
    ensures FirstPresSheet(sheets).Some? ==>
      exists i :: 0 <= i < |sheets| && sheets[i] == FirstPresSheet(sheets).value && IsPresName(sheets[i].name)
        && forall j :: 0 <= j < i ==> !IsPresName(sheets[j].name)
  {
    if sheets != [] && !IsPresName(sheets[0].name) {
      FirstPresSheetIsFirst(sheets[1..]);
      assert forall i :: 1 <= i < |sheets| ==> sheets[i] == sheets[1..][i - 1];
      if FirstPresSheet(sheets).Some? {
        var i :| 0 <= i < |sheets[1..]| && sheets[1..][i] == FirstPresSheet(sheets).value
          && IsPresName(sheets[1..][i].name) && forall j :: 0 <= j < i ==> !IsPresName(sheets[1..][j].name);
        assert sheets[i + 1] == FirstPresSheet(sheets).value;
      }
    }
  }

  /** Every text of a list, lower-cased. */
  function LowerAll(xs: seq<string>): (r: seq<string>)
    ensures |r| == |xs| && forall i :: 0 <= i < |xs| ==> r[i] == Lower(xs[i])
  {
    seq(|xs|, i requires 0 <= i < |xs| => Lower(xs[i]))
  }

  /** What `parse_headerrow(row)` returns: the filled cells of the row, lower-cased, or IndexError for a missing row. */
  function HeaderRowLower(s: Sheet, row: nat): Result<seq<string>>
  {
    if s.ncols > 0 && row >= |s.rows| then Failure(INDEX_ERROR)
    else Success(LowerAll(FilledCells(s, row, s.ncols)))
  }

  /** A text is in the lower-cased list iff it lower-cases some text of the original. */
  lemma LowerAllMembers(xs: seq<string>, x: string)
    ensures x in LowerAll(xs) <==> exists y :: y in xs && Lower(y) == x
  {
    if x in LowerAll(xs) {
      var i :| 0 <= i < |xs| && LowerAll(xs)[i] == x;
      assert xs[i] in xs;
    }
    if exists y :: y in xs && Lower(y) == x {
      var y :| y in xs && Lower(y) == x;
      var i :| 0 <= i < |xs| && xs[i] == y;
      assert LowerAll(xs)[i] == x;
    }
  }

  /** A row reads iff it exists or the sheet has no columns; it lists the lower-cased text of each filled cell. */
  lemma HeaderRowLowerMembers(s: Sheet, row: nat, x: string)
    ensures HeaderRowLower(s, row).Failure? <==> s.ncols > 0 && row >= |s.rows|
    ensures HeaderRowLower(s, row).Success? ==>
      |HeaderRowLower(s, row).value| <= s.ncols &&
      (x in HeaderRowLower(s, row).value <==>
        exists c :: 0 <= c < s.ncols && CellText(s, row, c) != "" && Lower(CellText(s, row, c)) == x)
  {
    if HeaderRowLower(s, row).Success? {
      var cells := FilledCells(s, row, s.ncols);
      FilledCellsMembers(s, row, s.ncols);
      LowerAllMembers(cells, x);
      if x in LowerAll(cells) {
        var y :| y in cells && Lower(y) == x;
        var c :| 0 <= c < s.ncols && CellText(s, row, c) == y;
      }
      if exists c :: 0 <= c < s.ncols && CellText(s, row, c) != "" && Lower(CellText(s, row, c)) == x {
        var c :| 0 <= c < s.ncols && CellText(s, row, c) != "" && Lower(CellText(s, row, c)) == x;
        assert CellText(s, row, c) in cells;
      }
    }
  }

  /** `parse_headerrow`: the loop over the columns, keeping each filled cell lower-cased. */
  method ParseHeaderRow(s: Sheet, row: nat) returns (r: Result<seq<string>>)
    ensures r == HeaderRowLower(s, row)
  {
    var headers := [];
    for i := 0 to s.ncols
      invariant i > 0 ==> row < |s.rows|
      invariant headers == LowerAll(FilledCells(s, row, i))
    {
      var value := Cell(s, row, i);
      if value.None? {
        return Failure(INDEX_ERROR);
      }
      if value.value != "" {
        headers := headers + [Lower(value.value)];
      }
      assert LowerAll(FilledCells(s, row, i + 1)) == headers;
    }
    return Success(headers);
  }

  /**
   * One step of `parse_headerheirarchy`, for column i: nothing when its third-row cell is empty;
   * otherwise the middle key is the scan left from column i in the second row, and the top key
   * the scan left in the first row from where the middle key was found. All three are lower-cased.
   */
  function HierarchyEntry(s: Sheet, i: nat): Result<Option<Header>>
    requires i < s.ncols
  {
    match Cell(s, 2, i)
    case None => Failure(INDEX_ERROR)
    case Some(key3) =>
      if key3 == "" then Success(None)
      else
        match ScanLeft(s, 1, i)
        case Failure(e) => Failure(e)
        case Success(j) =>
          match ScanLeft(s, 0, j)
          case Failure(e) => Failure(e)
          case Success(k) =>
            Success(Some(Header(Lower(Cell(s, 0, k).value), Some(Lower(Cell(s, 1, j).value)), Some(Lower(key3)))))
  }

  /** The nearest filled cell of row r at or left of column c, counting into the wrapped negative columns. */
  predicate NearestFilled(s: Sheet, r: nat, c: int, m: int)
  {
    0 <= m + s.ncols && m <= c && Filled(s, r, m) && forall x :: m < x <= c ==> !Filled(s, r, x)
  }

  /**
   * An entry's bottom key is its own third-row cell; its middle key is the nearest filled
   * second-row cell at or left of it, and its top key the nearest filled first-row cell at or
   * left of that middle key's column (not of the entry's own column).
   */
  lemma HierarchyEntryKeys(s: Sheet, i: nat)
    requires i < s.ncols
    requires HierarchyEntry(s, i).Success? && HierarchyEntry(s, i).value.Some?
    ensures var h := HierarchyEntry(s, i).value.value;
      h.bottom == Some(Lower(CellText(s, 2, i))) && CellText(s, 2, i) != "" &&
      exists j, k :: NearestFilled(s, 1, i, j) && NearestFilled(s, 0, j, k)
        && h.middle == Some(Lower(Cell(s, 1, j).value)) && h.top == Lower(Cell(s, 0, k).value)
  {
    ScanLeftFinds(s, 1, i);
    var j := ScanLeft(s, 1, i).value;
    ScanLeftFinds(s, 0, j);
    var k := ScanLeft(s, 0, j).value;
    assert NearestFilled(s, 1, i, j) && NearestFilled(s, 0, j, k);
  }

  /** A column with an empty third-row cell contributes nothing; a sheet with fewer than three rows raises. */
  lemma HierarchyEntryEmpty(s: Sheet, i: nat)
    requires i < s.ncols
    ensures HierarchyEntry(s, i).Failure? ==> |s.rows| < 3 || CellText(s, 2, i) != ""
    ensures |s.rows| < 3 ==> HierarchyEntry(s, i).Failure?
    ensures |s.rows| >= 3 && CellText(s, 2, i) == "" ==> HierarchyEntry(s, i) == Success(None)
  {
  }

  /**
   * When the first column of both upper header rows is filled, neither scan can run out of
   * columns: no entry raises and neither scan wraps to the right end of its row.
   */
  lemma HierarchyEntryTotal(s: Sheet, i: nat)
    requires i < s.ncols && |s.rows| >= 3
    requires CellText(s, 0, 0) != "" && CellText(s, 1, 0) != ""
    ensures HierarchyEntry(s, i).Success?
    ensures CellText(s, 2, i) != "" ==> 0 <= ScanLeft(s, 1, i).value && 0 <= ScanLeft(s, 0, ScanLeft(s, 1, i).value).value
  {
    assert Filled(s, 1, 0) && Filled(s, 0, 0);
    ScanLeftFinds(s, 1, i);
    if CellText(s, 2, i) != "" {
      var j := ScanLeft(s, 1, i).value;
      assert 0 <= j;
      ScanLeftFinds(s, 0, j);
    }
  }

  /** `parse_headerheirarchy` over columns [0, n): the entries in column order; the leftmost raising column raises. */
  function HierarchyUpTo(s: Sheet, n: nat): Result<seq<Header>>
    requires n <= s.ncols
  {
    if n == 0 then Success([])
    else
      match HierarchyUpTo(s, n - 1)
      case Failure(e) => Failure(e)
      case Success(hs) =>
        match HierarchyEntry(s, n - 1)
        case Failure(e) => Failure(e)
        case Success(None) => Success(hs)
        case Success(Some(h)) => Success(hs + [h])
  }

  /** The column outcomes `HierarchyUpTo` folds over, in column order. */
  function Outcomes(s: Sheet, n: nat): (es: seq<Result<Option<Header>>>)
    requires n <= s.ncols
    ensures |es| == n && forall i :: 0 <= i < n ==> es[i] == HierarchyEntry(s, i)
  {
    seq(n, i requires 0 <= i < n => HierarchyEntry(s, i))
  }

  /** The fold of `HierarchyUpTo` over any list of column outcomes. */
  function Gather(es: seq<Result<Option<Header>>>): Result<seq<Header>>
  {
    if es == [] then Success([])
    else
      match Gather(es[..|es| - 1])
      case Failure(e) => Failure(e)
      case Success(hs) =>
        match es[|es| - 1]
        case Failure(e) => Failure(e)
        case Success(None) => Success(hs)
        case Success(Some(h)) => Success(hs + [h])
  }

  lemma {:induction false} HierarchyGathers(s: Sheet, n: nat)
    requires n <= s.ncols
    ensures HierarchyUpTo(s, n) == Gather(Outcomes(s, n))
  {
    if n > 0 {
      HierarchyGathers(s, n - 1);
      assert Outcomes(s, n)[..n - 1] == Outcomes(s, n - 1);
    }
  }

  lemma {:induction false} GatherRaises(es: seq<Result<Option<Header>>>)
    ensures Gather(es).Failure? <==> exists i :: 0 <= i < |es| && es[i].Failure?
    ensures Gather(es).Failure? ==> exists i :: 0 <= i < |es| && es[i].Failure? && Gather(es).error == es[i].error
  {
    if es != [] {
      var init := es[..|es| - 1];
      GatherRaises(init);
      assert forall i :: 0 <= i < |init| ==> init[i] == es[i];
    }
  }

  lemma {:induction false} GatherContents(es: seq<Result<Option<Header>>>, h: Header)
    requires Gather(es).Success?
    ensures |Gather(es).value| <= |es|
    ensures h in Gather(es).value <==> exists i :: 0 <= i < |es| && es[i] == Success(Some(h))
  {
    if es != [] {
      var init := es[..|es| - 1];
      GatherContents(init, h);
      assert forall i :: 0 <= i < |init| ==> init[i] == es[i];
    }
  }

  /** A column outcome that raises is IndexError. */
  lemma EntryRaisesIndexError(s: Sheet, i: nat)
    requires i < s.ncols
    ensures HierarchyEntry(s, i).Failure? ==> HierarchyEntry(s, i).error == INDEX_ERROR
  {
  }

  /** The hierarchy raises iff the entry of some column raises. */
  lemma HierarchyRaises(s: Sheet, n: nat)
    requires n <= s.ncols
    ensures HierarchyUpTo(s, n).Failure? <==> exists i :: 0 <= i < n && HierarchyEntry(s, i).Failure?
    ensures HierarchyUpTo(s, n).Failure? ==> HierarchyUpTo(s, n).error == INDEX_ERROR
  {
    HierarchyGathers(s, n);
    var es := Outcomes(s, n);
    GatherRaises(es);
    if HierarchyUpTo(s, n).Failure? {
      var i :| 0 <= i < n && es[i].Failure? && Gather(es).error == es[i].error;
      EntryRaisesIndexError(s, i);
    }
  }

  /** Otherwise it lists exactly the entries of the columns, at most one per column. */
  lemma HierarchyContents(s: Sheet, n: nat, h: Header)
    requires n <= s.ncols && HierarchyUpTo(s, n).Success?
    ensures |HierarchyUpTo(s, n).value| <= n
    ensures h in HierarchyUpTo(s, n).value <==> exists i :: 0 <= i < n && HierarchyEntry(s, i) == Success(Some(h))
  {
    HierarchyGathers(s, n);
    GatherContents(Outcomes(s, n), h);
  }

  /** Once a column raises, the columns after it change nothing: the first raise is the one reported. */
  lemma {:induction false} HierarchyRaiseSticks(s: Sheet, m: nat, n: nat)
    requires m <= n <= s.ncols && HierarchyUpTo(s, m).Failure?
    ensures HierarchyUpTo(s, n) == HierarchyUpTo(s, m)
    decreases n - m
  {
    if m < n {
      HierarchyRaiseSticks(s, m, n - 1);
    }
  }

  /** `parse_headerheirarchy`: the loop over the columns, with the two leftward scans of each. */
  method ParseHeaderHierarchy(s: Sheet) returns (r: Result<seq<Header>>)
    ensures r == HierarchyUpTo(s, s.ncols)
  {
    var hierarchy := [];
    for i := 0 to s.ncols
      invariant HierarchyUpTo(s, i) == Success(hierarchy)
    {
      var key3 := Cell(s, 2, i);
      if key3.None? {
        HierarchyRaiseSticks(s, i + 1, s.ncols);
        return Failure(INDEX_ERROR);
      }
      if key3.value != "" {
        var j := ScanRowLeft(s, 1, i);
        if j.Failure? {
          HierarchyRaiseSticks(s, i + 1, s.ncols);
          return Failure(j.error);
        }
        var k := ScanRowLeft(s, 0, j.value);
        if k.Failure? {
          HierarchyRaiseSticks(s, i + 1, s.ncols);
          return Failure(k.error);
        }
        var key2 := Cell(s, 1, j.value).value;
        var key1 := Cell(s, 0, k.value).value;
        hierarchy := hierarchy + [Header(Lower(key1), Some(Lower(key2)), Some(Lower(key3.value)))];
      }
    }
    return Success(hierarchy);
  }

  /** The four lists `parse_headers` leaves on the object. */
  datatype Parsed = Parsed(header1: seq<string>, header2: seq<string>, header3: seq<string>, hierarchy: seq<Header>)

  /**
   * `parse_headers`: the three rows, then the hierarchy, then the reference-filename entry
   * appended when the first cell, lower-cased, names it. Reading that cell raises on a sheet
   * without columns.
   */
  function ParsedHeaders(s: Sheet): Result<Parsed>
  {
    var h1 :- HeaderRowLower(s, 0);
    var h2 :- HeaderRowLower(s, 1);
    var h3 :- HeaderRowLower(s, 2);
    var hs :- HierarchyUpTo(s, s.ncols);
    if Cell(s, 0, 0).None? then Failure(INDEX_ERROR)
    else Success(Parsed(h1, h2, h3, if Lower(Cell(s, 0, 0).value) == REFERENCE_FILENAME then hs + [REFERENCE_ENTRY] else hs))
  }

  /**
   * Parsing raises on a sheet without columns, and on one with columns but fewer than three
   * rows; when it succeeds, the reference entry ends the hierarchy iff the first cell names it.
   */
  lemma ParsedHeadersShape(s: Sheet)
    ensures s.ncols == 0 ==> ParsedHeaders(s).Failure?
    ensures s.ncols > 0 && |s.rows| < 3 ==> ParsedHeaders(s).Failure?
    ensures ParsedHeaders(s).Success? ==>
      var p := ParsedHeaders(s).value;
      (Lower(CellText(s, 0, 0)) == REFERENCE_FILENAME ==> p.hierarchy == HierarchyUpTo(s, s.ncols).value + [REFERENCE_ENTRY])
      && (Lower(CellText(s, 0, 0)) != REFERENCE_FILENAME ==> p.hierarchy == HierarchyUpTo(s, s.ncols).value)
  {
  }

  /** `check_headers_exist`: every expected heading of a level is found, barcode or object identifier sufficing for both. */
  method CheckHeadersExist(expected: set<string>, found: set<string>) returns (r: Result<Check>)
    ensures r.Failure? <==> RelaxationRaises(BARCODE, OBJECT_IDENTIFIER, expected, found)
    ensures r.Success? ==> (r.value.Pass? <==> SatisfiedWithEither(BARCODE, OBJECT_IDENTIFIER, expected, found))
  {
    r := CheckRequired(BARCODE, OBJECT_IDENTIFIER, expected, found, MISSING_HEADING);
  }

  /** `check_headers_heirarchy`: every expected triple is found, barcode or object identifier sufficing for both. */
  method CheckHeadersHierarchy(expected: set<Header>, found: set<Header>) returns (r: Result<Check>)
    ensures r.Failure? <==> RelaxationRaises(BARCODE_ENTRY, OBJECT_IDENTIFIER_ENTRY, expected, found)
    ensures r.Success? ==> (r.value.Pass? <==> SatisfiedWithEither(BARCODE_ENTRY, OBJECT_IDENTIFIER_ENTRY, expected, found))
  {
    r := CheckRequired(BARCODE_ENTRY, OBJECT_IDENTIFIER_ENTRY, expected, found, BAD_HIERARCHY);
  }

  /** No triple of the profile has barcode or object identifier as its top or middle heading. */
  lemma PairNeverAbove()
    ensures forall k :: 0 <= k < |EXCEL_PROFILE| ==>
      EXCEL_PROFILE[k].top != BARCODE && EXCEL_PROFILE[k].top != OBJECT_IDENTIFIER
      && EXCEL_PROFILE[k].middle != Some(BARCODE) && EXCEL_PROFILE[k].middle != Some(OBJECT_IDENTIFIER)
  {
  }

  /** For any header list holding both triples of the pair and naming neither above the bottom level, only the bottom level expects them. */
  lemma PairPlacement(hs: seq<Header>)
    requires BARCODE_ENTRY in hs && OBJECT_IDENTIFIER_ENTRY in hs
    requires forall k :: 0 <= k < |hs| ==>
      hs[k].top != BARCODE && hs[k].top != OBJECT_IDENTIFIER
      && hs[k].middle != Some(BARCODE) && hs[k].middle != Some(OBJECT_IDENTIFIER)
    ensures BARCODE !in ProfileLevel(hs, 0) && OBJECT_IDENTIFIER !in ProfileLevel(hs, 0)
    ensures BARCODE !in ProfileLevel(hs, 1) && OBJECT_IDENTIFIER !in ProfileLevel(hs, 1)
    ensures BARCODE in ProfileLevel(hs, 2) && OBJECT_IDENTIFIER in ProfileLevel(hs, 2)
  {
    ProfileLevelMembers(hs, 0, BARCODE);
    ProfileLevelMembers(hs, 0, OBJECT_IDENTIFIER);
    ProfileLevelMembers(hs, 1, BARCODE);
    ProfileLevelMembers(hs, 1, OBJECT_IDENTIFIER);
    ProfileLevelMembers(hs, 2, BARCODE);
    ProfileLevelMembers(hs, 2, OBJECT_IDENTIFIER);
    var b :| 0 <= b < |hs| && hs[b] == BARCODE_ENTRY;
    var o :| 0 <= o < |hs| && hs[o] == OBJECT_IDENTIFIER_ENTRY;
    assert Component(hs[b], 2) == Some(BARCODE) && Component(hs[o], 2) == Some(OBJECT_IDENTIFIER);
  }

  /** The barcode / object-identifier pair are third-level headings of the profile, and no top or middle heading is either. */
  lemma PairOnlyAtBottom()
    ensures BARCODE !in ExpectedLevel(0) && OBJECT_IDENTIFIER !in ExpectedLevel(0)
    ensures BARCODE !in ExpectedLevel(1) && OBJECT_IDENTIFIER !in ExpectedLevel(1)
    ensures BARCODE in ExpectedLevel(2) && OBJECT_IDENTIFIER in ExpectedLevel(2)
    ensures BARCODE_ENTRY in ProfileSet() && OBJECT_IDENTIFIER_ENTRY in ProfileSet()
  {
    PairNeverAbove();
    PairInProfile();
    PairPlacement(EXCEL_PROFILE);
  }

  /** A check whose expected set holds neither item of the pair never raises and is not relaxed. */
  lemma NeitherExpected<T>(v1: T, v2: T, expected: set<T>, found: set<T>)
    requires v1 !in expected && v2 !in expected
    ensures !RelaxationRaises(v1, v2, expected, found)
    ensures SatisfiedWithEither(v1, v2, expected, found) <==> expected <= found
  {
  }

  /** A check whose expected set holds both items of the pair never raises. */
  lemma BothExpected<T>(v1: T, v2: T, expected: set<T>, found: set<T>)
    requires v1 in expected && v2 in expected
    ensures !RelaxationRaises(v1, v2, expected, found)
  {
  }

  /** Whatever headers a sheet has, the relaxation never raises KeyError against the profile. */
  lemma ProfileNeverRaises(found: set<string>, foundHierarchy: set<Header>)
    ensures !RelaxationRaises(BARCODE, OBJECT_IDENTIFIER, ExpectedLevel(0), found)
    ensures !RelaxationRaises(BARCODE, OBJECT_IDENTIFIER, ExpectedLevel(1), found)
    ensures !RelaxationRaises(BARCODE, OBJECT_IDENTIFIER, ExpectedLevel(2), found)
    ensures !RelaxationRaises(BARCODE_ENTRY, OBJECT_IDENTIFIER_ENTRY, ProfileSet(), foundHierarchy)
  {
    PairOnlyAtBottom();
    NeitherExpected(BARCODE, OBJECT_IDENTIFIER, ExpectedLevel(0), found);
    NeitherExpected(BARCODE, OBJECT_IDENTIFIER, ExpectedLevel(1), found);
    BothExpected(BARCODE, OBJECT_IDENTIFIER, ExpectedLevel(2), found);
    BothExpected(BARCODE_ENTRY, OBJECT_IDENTIFIER_ENTRY, ProfileSet(), foundHierarchy);
  }

  /** Only the third level holds the pair, so the first two levels are checked unrelaxed. */
  lemma UpperLevelsNotRelaxed(found: set<string>)
    ensures SatisfiedWithEither(BARCODE, OBJECT_IDENTIFIER, ExpectedLevel(0), found) <==> ExpectedLevel(0) <= found
    ensures SatisfiedWithEither(BARCODE, OBJECT_IDENTIFIER, ExpectedLevel(1), found) <==> ExpectedLevel(1) <= found
  {
    PairOnlyAtBottom();
    NeitherExpected(BARCODE, OBJECT_IDENTIFIER, ExpectedLevel(0), found);
    NeitherExpected(BARCODE, OBJECT_IDENTIFIER, ExpectedLevel(1), found);
  }

  /** A formula in the fourth row, columns 1 to n - 1 (openpyxl counts from 1). */
  predicate EquationInRow4(s: Sheet, n: nat)
  {
    exists i :: 1 <= i < n && IsEquation(OpenpyxlCell(s, 4, i))
  }

  /** `check_noequations`: fails at the first column, left to right, whose fourth-row cell is a formula. */
  method CheckNoEquations(s: Sheet, n: nat) returns (r: Check)
    ensures r.Fail? <==> EquationInRow4(s, n)
  {
    for i := 1 to if n < 1 then 1 else n
      invariant forall c :: 1 <= c < i ==> !IsEquation(OpenpyxlCell(s, 4, c))
    {
      if IsEquation(OpenpyxlCell(s, 4, i)) {
        return Fail("Cell R4C" + NatToString(i) + " contain equations.");
      }
    }
    return Pass;
  }

  /** What the header checks of `validate` demand of the parsed headers. */
  predicate HeadersValid(p: Parsed)
  {
    SatisfiedWithEither(BARCODE, OBJECT_IDENTIFIER, ExpectedLevel(0), set x | x in p.header1)
    && SatisfiedWithEither(BARCODE, OBJECT_IDENTIFIER, ExpectedLevel(1), set x | x in p.header2)
    && SatisfiedWithEither(BARCODE, OBJECT_IDENTIFIER, ExpectedLevel(2), set x | x in p.header3)
    && SatisfiedWithEither(BARCODE_ENTRY, OBJECT_IDENTIFIER_ENTRY, ProfileSet(), set h | h in p.hierarchy)
  }

  /** The four header checks of `validate`, each run whatever the others found. */
  method CheckHeaderLevels(p: Parsed) returns (valid: bool)
    ensures valid <==> HeadersValid(p)
  {
    valid := true;
    ProfileNeverRaises(set x | x in p.header1, set h | h in p.hierarchy);
    ProfileNeverRaises(set x | x in p.header2, {});
    ProfileNeverRaises(set x | x in p.header3, {});
    var c := CheckHeadersExist(ExpectedLevel(0), set x | x in p.header1);
    if c.Failure? {
      assert false;
    }
    if c.value.Fail? {
      valid := false;
    }
    c := CheckHeadersExist(ExpectedLevel(1), set x | x in p.header2);
    if c.Failure? {
      assert false;
    }
    if c.value.Fail? {
      valid := false;
    }
    c := CheckHeadersExist(ExpectedLevel(2), set x | x in p.header3);
    if c.Failure? {
      assert false;
    }
    if c.value.Fail? {
      valid := false;
    }
    c := CheckHeadersHierarchy(ProfileSet(), set h | h in p.hierarchy);
    if c.Failure? {
      assert false;
    }
    if c.value.Fail? {
      valid := false;
    }
  }

  /**
   * The outcome of `validate` on a workbook (`None` when it could not be opened). A workbook
   * without a preservation sheet fails `check_sheets`, but `validate` then reads the header
   * list that was never set and raises AttributeError; an IndexError while parsing escapes too.
   */
  function Validation(wb: Option<seq<Sheet>>): Result<bool>
  {
    if wb.None? then Failure(NO_SHEET_NAMES)
    else
      match FirstPresSheet(wb.value)
      case None => Failure(NO_HEADER1)
      case Some(s) =>
        match ParsedHeaders(s)
        case Failure(e) => Failure(e)
        case Success(p) => Success(HeadersValid(p) && !EquationInRow4(s, s.ncols))
  }

  /**
   * `validate` stops only because the workbook could not be opened, because it has no
   * preservation sheet, or on an IndexError while parsing that sheet; never on the KeyError
   * the relaxed checks can raise.
   */
  lemma ValidationErrors(wb: Option<seq<Sheet>>)
    ensures Validation(wb) == Failure(NO_SHEET_NAMES) <==> wb.None?
    ensures Validation(wb) == Failure(NO_HEADER1) <==> wb.Some? && FirstPresSheet(wb.value).None?
    ensures Validation(wb).Failure? ==> Validation(wb).error in {NO_SHEET_NAMES, NO_HEADER1, INDEX_ERROR}
  {
    if wb.Some? && FirstPresSheet(wb.value).Some? {
      var s := FirstPresSheet(wb.value).value;
      HierarchyRaises(s, s.ncols);
    }
  }

  /**
   * The parsed lists have every top-level and middle heading of the profile, every triple
   * other than the barcode / object-identifier pair, and at least one of that pair.
   */
  predicate ProfileCovered(p: Parsed)
  {
    (forall k :: 0 <= k < |EXCEL_PROFILE| ==> EXCEL_PROFILE[k].top in p.header1)
    && (forall k :: 0 <= k < |EXCEL_PROFILE| && EXCEL_PROFILE[k].middle.Some? ==> EXCEL_PROFILE[k].middle.value in p.header2)
    && (forall k :: 0 <= k < |EXCEL_PROFILE| && EXCEL_PROFILE[k] != BARCODE_ENTRY && EXCEL_PROFILE[k] != OBJECT_IDENTIFIER_ENTRY ==>
          EXCEL_PROFILE[k] in p.hierarchy)
    && (BARCODE_ENTRY in p.hierarchy || OBJECT_IDENTIFIER_ENTRY in p.hierarchy)
  }

  /** A workbook that validates covers the profile on its preservation sheet, and has no formula in the fourth row. */
  lemma ValidatedMeans(wb: Option<seq<Sheet>>)
    requires Validation(wb) == Success(true)
    ensures wb.Some? && FirstPresSheet(wb.value).Some? && ParsedHeaders(FirstPresSheet(wb.value).value).Success?
    ensures
      var s := FirstPresSheet(wb.value).value;
      ProfileCovered(ParsedHeaders(s).value) && !EquationInRow4(s, s.ncols)
  {
    var s := FirstPresSheet(wb.value).value;
    HeadersValidCover(ParsedHeaders(s).value);
  }

  /** Passing the four header checks means covering the profile. */
  lemma HeadersValidCover(p: Parsed)
    requires HeadersValid(p)
    ensures ProfileCovered(p)
  {
    UpperLevelsMean(p);
    PairInProfile();
    HierarchyValidMeans(EXCEL_PROFILE, p.hierarchy);
  }

  /** Both triples of the pair are in the profile. */
  lemma PairInProfile()
    ensures BARCODE_ENTRY in EXCEL_PROFILE && OBJECT_IDENTIFIER_ENTRY in EXCEL_PROFILE
  {
    assert EXCEL_PROFILE[8] == BARCODE_ENTRY && EXCEL_PROFILE[5] == OBJECT_IDENTIFIER_ENTRY;
  }

  /** A level's expected set is found entire: then so is that level of every triple. */
  lemma LevelCovered(hs: seq<Header>, i: nat, found: seq<string>)
    requires ProfileLevel(hs, i) <= set x | x in found
    ensures forall k :: 0 <= k < |hs| && Component(hs[k], i).Some? && (i == 0 || Component(hs[k], i).value != "") ==>
      Component(hs[k], i).value in found
  {
    forall k | 0 <= k < |hs| && Component(hs[k], i).Some? && (i == 0 || Component(hs[k], i).value != "")
      ensures Component(hs[k], i).value in found
    {
      ProfileLevelMembers(hs, i, Component(hs[k], i).value);
    }
  }

  /** No triple of the profile has an empty middle heading. */
  lemma ProfileMiddlesNamed()
    ensures forall k :: 0 <= k < |EXCEL_PROFILE| ==> EXCEL_PROFILE[k].middle != Some("")
  {
  }

  /** What the top and middle checks passing say about the first two header rows. */
  lemma UpperLevelsMean(p: Parsed)
    requires HeadersValid(p)
    ensures forall k :: 0 <= k < |EXCEL_PROFILE| ==> EXCEL_PROFILE[k].top in p.header1
    ensures forall k :: 0 <= k < |EXCEL_PROFILE| && EXCEL_PROFILE[k].middle.Some? ==> EXCEL_PROFILE[k].middle.value in p.header2
  {
    UpperLevelsNotRelaxed(set x | x in p.header1);
    UpperLevelsNotRelaxed(set x | x in p.header2);
    LevelCovered(EXCEL_PROFILE, 0, p.header1);
    LevelCovered(EXCEL_PROFILE, 1, p.header2);
    ProfileMiddlesNamed();
  }

  /** When both items of the pair are expected, passing means everything else is found and one of the pair is. */
  lemma EitherOfPair<T>(v1: T, v2: T, expected: set<T>, found: set<T>)
    requires SatisfiedWithEither(v1, v2, expected, found) && v1 in expected && v2 in expected
    ensures forall x :: x in expected && x != v1 && x != v2 ==> x in found
    ensures v1 in found || v2 in found
  {
  }

  /** What the hierarchy check passing says about the rebuilt hierarchy, for a profile holding both of the pair. */
  lemma HierarchyValidMeans(profile: seq<Header>, found: seq<Header>)
    requires BARCODE_ENTRY in profile && OBJECT_IDENTIFIER_ENTRY in profile
    requires SatisfiedWithEither(BARCODE_ENTRY, OBJECT_IDENTIFIER_ENTRY, set h | h in profile, set h | h in found)
    ensures forall k :: 0 <= k < |profile| && profile[k] != BARCODE_ENTRY && profile[k] != OBJECT_IDENTIFIER_ENTRY ==> profile[k] in found
    ensures BARCODE_ENTRY in found || OBJECT_IDENTIFIER_ENTRY in found
  {
    var expected := set h | h in profile;
    var present := set h | h in found;
    EitherOfPair(BARCODE_ENTRY, OBJECT_IDENTIFIER_ENTRY, expected, present);
    forall k | 0 <= k < |profile| && profile[k] != BARCODE_ENTRY && profile[k] != OBJECT_IDENTIFIER_ENTRY
      ensures profile[k] in found
    {
      assert profile[k] in expected;
      assert profile[k] in present;
    }
    assert BARCODE_ENTRY in present ==> BARCODE_ENTRY in found;
    assert OBJECT_IDENTIFIER_ENTRY in present ==> OBJECT_IDENTIFIER_ENTRY in found;
  }

  /**
   * `AMI_Excel`: the workbook it opened (`None` when it could not) and the attributes that
   * `check_sheets` and `parse_headers` set, each `None` until it is set.
   */
  class LegacyWorkbook {
    const wb: Option<seq<Sheet>>
    var presSheet: Option<Sheet>
    var header1: Option<seq<string>>
    var header2: Option<seq<string>>
    var header3: Option<seq<string>>
    var hierarchy: Option<seq<Header>>

    /** The preservation sheet, once set, is the first in the workbook, and headers are parsed only from it. */
    ghost predicate Valid()
      reads `presSheet, `header1
    {
      (presSheet.Some? ==> wb.Some? && presSheet == FirstPresSheet(wb.value))
      && (header1.Some? ==> presSheet.Some?)
    }

    /** `__init__`, with the file already opened or found unreadable. */
    constructor (workbook: Option<seq<Sheet>>)
      ensures wb == workbook && Valid()
      ensures presSheet == None && header1 == None && header2 == None && header3 == None && hierarchy == None
    {
      wb := workbook;
      presSheet := None;
      header1 := None;
      header2 := None;
      header3 := None;
      hierarchy := None;
    }

    /** `parse_headers`: each list is set as soon as it is read, so a raise leaves the earlier ones set. */
    method ParseHeaders(s: Sheet) returns (r: Result<Parsed>)
      modifies `header1, `header2, `header3, `hierarchy
      ensures r == ParsedHeaders(s)
      ensures r.Success? ==>
        header1 == Some(r.value.header1) && header2 == Some(r.value.header2)
        && header3 == Some(r.value.header3) && hierarchy == Some(r.value.hierarchy)
      ensures header1 == (if HeaderRowLower(s, 0).Success? then Some(HeaderRowLower(s, 0).value) else old(header1))
    {
      var h1 := ParseHeaderRow(s, 0);
      if h1.Failure? {
        return Failure(h1.error);
      }
      header1 := Some(h1.value);
      var h2 := ParseHeaderRow(s, 1);
      if h2.Failure? {
        return Failure(h2.error);
      }
      header2 := Some(h2.value);
      var h3 := ParseHeaderRow(s, 2);
      if h3.Failure? {
        return Failure(h3.error);
      }
      header3 := Some(h3.value);
      var hs := ParseHeaderHierarchy(s);
      if hs.Failure? {
        return Failure(hs.error);
      }
      hierarchy := Some(hs.value);
      var first := Cell(s, 0, 0);
      if first.None? {
        return Failure(INDEX_ERROR);
      }
      if Lower(first.value) == REFERENCE_FILENAME {
        hierarchy := Some(hs.value + [REFERENCE_ENTRY]);
      }
      return Success(Parsed(h1.value, h2.value, h3.value, hierarchy.value));
    }

    /**
     * `check_sheets`: the first sheet with a preservation name becomes the preservation sheet
     * and its headers are parsed (a raise while parsing escapes); with no such sheet the check fails.
     */
    method CheckSheets() returns (r: Result<Check>)
      requires Valid()
      modifies `presSheet, `header1, `header2, `header3, `hierarchy
      ensures Valid()
      ensures wb.None? ==> r == Failure(NO_SHEET_NAMES)
      ensures wb.Some? && FirstPresSheet(wb.value).None? ==>
        r == Success(Fail(NO_PRES_SHEET)) && presSheet == None && header1 == old(header1)
      ensures wb.Some? && FirstPresSheet(wb.value).Some? ==>
        presSheet == FirstPresSheet(wb.value)
        && (ParsedHeaders(presSheet.value).Failure? ==> r == Failure(ParsedHeaders(presSheet.value).error))
        && (ParsedHeaders(presSheet.value).Success? ==>
              var p := ParsedHeaders(presSheet.value).value;
              r == Success(Pass) && header1 == Some(p.header1) && header2 == Some(p.header2)
              && header3 == Some(p.header3) && hierarchy == Some(p.hierarchy))
    {
      if wb.None? {
        return Failure(NO_SHEET_NAMES);
      }
      var sheets := wb.value;
      for i := 0 to |sheets|
        invariant FirstPresSheet(sheets) == FirstPresSheet(sheets[i..])
      {
        assert sheets[i..][1..] == sheets[i + 1..];
        if IsPresName(sheets[i].name) {
          presSheet := Some(sheets[i]);
          var p := ParseHeaders(sheets[i]);
          if p.Failure? {
            return Failure(p.error);
          }
          return Success(Pass);
        }
      }
      return Success(Fail(NO_PRES_SHEET));
    }

    /**
     * `validate`: every check runs and the workbook is valid iff none failed. The outcome is
     * `Validation(wb)`, including the errors that escape.
     */
    method Validate() returns (r: Result<bool>)
      requires Valid()
      modifies `presSheet, `header1, `header2, `header3, `hierarchy
      ensures Valid()
      ensures r == Validation(wb)
    {
      var valid := true;
      var c := CheckSheets();
      if c.Failure? {
        return Failure(c.error);
      }
      if c.value.Fail? {
        valid := false;
      }
      if header1.None? {
        return Failure(NO_HEADER1);
      }
      var p := Parsed(header1.value, header2.value, header3.value, hierarchy.value);
      var levels := CheckHeaderLevels(p);
      if !levels {
        valid := false;
      }
      var s := presSheet.value;
      var e := CheckNoEquations(s, s.ncols);
      if e.Fail? {
        valid := false;
      }
      return Success(valid);
    }
  }
}
