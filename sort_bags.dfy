/**
 * Sorting bags by what their MD5 payload manifest lists (sort_bags.py): the extensions of the
 * listed files are counted, and a decision table names the kind of bag from those counts.
 * A manifest is given as its lines, or `None` when the bag has no `manifest-md5.txt`.
 */
module SortBags {
  import opened Wrappers
  import opened Text
  import opened Sums
  import opened PosixPath

  const FILE_NOT_FOUND := "FileNotFoundError: [Errno 2] No such file or directory: 'manifest-md5.txt'"
  const APPEND_READ_ONLY := "AttributeError: 'list' object attribute 'append' is read-only"
  const RESULT_UNBOUND := "UnboundLocalError: local variable 'result' referenced before assignment"

  /** The kinds of bag `main` can report. */
  datatype Verdict = NotABag | NoXlsx | BornDigital | Audio | Dvd | Video | AudioAndVideo | DvdAndVideo | NotSure

  /** The text written to the report for each kind. */
  function Label(v: Verdict): string
  {
    match v
    case NotABag => "Not a bag"
    case NoXlsx => "Not a valid Excel bag, no xlsx metadata file"
    case BornDigital => "Born digital bag"
    case Audio => "Audio bag"
    case Dvd => "DVD bag"
    case Video => "Video bag"
    case AudioAndVideo => "Audio and video bag"
    case DvdAndVideo => "DVD and video bag"
    case NotSure => "Not sure"
  }

  /**
   * The report can be read back: no two kinds share a text, and each text is the one the
   * script writes for its branch.
   */
  lemma LabelsAsWritten(v: Verdict, w: Verdict)
    ensures Label(v) == Label(w) ==> v == w
    ensures Label(NotABag) == "Not a bag" && Label(NoXlsx) == "Not a valid Excel bag, no xlsx metadata file"
      && Label(BornDigital) == "Born digital bag" && Label(Audio) == "Audio bag" && Label(Dvd) == "DVD bag"
      && Label(Video) == "Video bag" && Label(AudioAndVideo) == "Audio and video bag"
      && Label(DvdAndVideo) == "DVD and video bag" && Label(NotSure) == "Not sure"
  {
  }

  /** `[file.split('.')[-1] for file in files]`: the text after the last dot, or the whole name. */
  function Extensions(files: seq<string>): seq<string>
  {
    if files == [] then [] else Extensions(files[..|files| - 1]) + [AfterLast(files[|files| - 1], '.')]
  }

  /** One extension per file, in order. */
  lemma {:induction false} ExtensionsAt(files: seq<string>)
    ensures |Extensions(files)| == |files|
    ensures forall i :: 0 <= i < |files| ==> Extensions(files)[i] == AfterLast(files[i], '.')
  {
    if files != [] {
      var init := files[..|files| - 1];
      ExtensionsAt(init);
      forall i | 0 <= i < |init|
        ensures Extensions(files)[i] == Extensions(init)[i]
      {
      }
    }
  }

  /** `{ext: extensions.count(ext) for ext in extensions}`, built item by item. */
  function Tally(exts: seq<string>): map<string, nat>
  {
    if exts == [] then map[]
    else
      var m := Tally(exts[..|exts| - 1]);
      var e := exts[|exts| - 1];
      m[e := (if e in m then m[e] else 0) + 1]
  }

  /** The keys are exactly the items that occur, each mapped to how often it occurs. */
  lemma {:induction false} TallyCount(exts: seq<string>, e: string)
    ensures e in Tally(exts) <==> e in exts
    ensures e in Tally(exts) ==> Tally(exts)[e] == multiset(exts)[e]
  {
    if exts != [] {
      var init := exts[..|exts| - 1];
      TallyCount(init, e);
      assert exts == init + [exts[|exts| - 1]];
    }
  }

  /** The counts add up to the number of items. */
  lemma {:induction false} TallyTotal(exts: seq<string>)
    ensures SumValues(Tally(exts)) == |exts|
  {
    if exts == [] {
      SumValuesEmpty(Tally(exts));
    } else {
      var init, e := exts[..|exts| - 1], exts[|exts| - 1];
      TallyTotal(init);
      var m := Tally(init);
      SumValuesUpdate(m, e, (if e in m then m[e] else 0) + 1);
    }
  }

  /** `parse_filetypes(files)`: each extension and how many files have it. */
  function ParseFiletypes(files: seq<string>): map<string, nat>
  {
    Tally(Extensions(files))
  }

  /** The keys are the extensions that occur, each counted by the files that have it, and the counts add up to the files. */
  lemma FiletypesCount(files: seq<string>, e: string)
    ensures e in ParseFiletypes(files) <==> exists f :: f in files && AfterLast(f, '.') == e
    ensures e in ParseFiletypes(files) ==> ParseFiletypes(files)[e] == multiset(Extensions(files))[e] >= 1
    ensures SumValues(ParseFiletypes(files)) == |files|
  {
    var exts := Extensions(files);
    ExtensionsAt(files);
    TallyCount(exts, e);
    TallyTotal(exts);
    if e in exts {
      var i :| 0 <= i < |exts| && exts[i] == e;
      assert files[i] in files;
    }
    if f :| f in files && AfterLast(f, '.') == e {
      var i :| 0 <= i < |files| && files[i] == f;
      assert exts[i] == e;
    }
  }

  /** The test `detect_delimiter` makes of the manifest's first line: a space wins over a tab, and a space is the default. */
  function Delimiter(header: string): (d: char)
    ensures d == ' ' || d == '\t'
  {
    if ' ' in header then ' ' else if '\t' in header then '\t' else ' '
  }

  /** A tab is chosen only for a first line with a tab and no space. */
  lemma DelimiterChoice(header: string)
    ensures Delimiter(header) == '\t' <==> '\t' in header && ' ' !in header
    ensures ' ' in header ==> Delimiter(header) == ' '
  {
  }

  /** `detect_delimiter(manifest_path)`: it opens the manifest outside any `try`, so a missing one raises. */
  function DetectDelimiter(manifest: Option<seq<string>>): Result<char>
  {
    match manifest
    case None => Failure(FILE_NOT_FOUND)
    case Some(lines) => Success(Delimiter(if lines == [] then "" else lines[0]))
  }

  /** The last field of every manifest line: what `parse_bagcontents` takes to be the listed path. */
  function LastFields(lines: seq<string>, d: char): seq<string>
  {
    if lines == [] then [] else LastFields(lines[..|lines| - 1], d) + [AfterLast(lines[|lines| - 1], d)]
  }

  /** When the listed path holds no delimiter, the last field of its line is the path itself. */
  lemma LastFieldIsPath(digest: string, d: char, path: string)
    requires d !in path
    ensures AfterLast(digest + [d] + path, d) == path
  {
    var line := digest + [d] + path;
    var r := AfterLast(line, d);
    assert line[|digest|] == d;
    assert d in line;
    assert EndsWith(line, r) && d !in r;
  }

  /** What `parse_bagcontents` returns for a manifest, or the error it raises. */
  function BagSummary(manifest: Option<seq<string>>): Result<map<string, nat>>
  {
    var d :- DetectDelimiter(manifest);
    Success(ParseFiletypes(LastFields(manifest.value, d)))
  }

  /** `parse_bagcontents(bagpath)`: detect the delimiter, collect the last field of every line, count the extensions. */
  method ParseBagContents(manifest: Option<seq<string>>) returns (r: Result<map<string, nat>>)
    ensures r == BagSummary(manifest)
  {
    var d := DetectDelimiter(manifest);
    if d.Failure? {
      return Failure(d.error);
    }
    var lines := manifest.value;
    var files := [];
    for i := 0 to |lines|
      invariant files == LastFields(lines[..i], d.value)
    {
      assert lines[..i + 1][..i] == lines[..i];
      files := files + [AfterLast(lines[i], d.value)];
    }
    assert lines[..|lines|] == lines;
    return Success(ParseFiletypes(files));
  }

  /**
   * The decision chain of `main` for one summary; `None` when an xlsx branch matches none of
   * its cases, leaving `result` as it was.
   */
  function Decide(summary: map<string, nat>): Option<Verdict>
  {
    if |summary| == 0 then Some(NotABag)
    else if "xlsx" !in summary then Some(NoXlsx)
    else if summary["xlsx"] == 1 then
      if "tar" in summary then Some(BornDigital)
      else if "wav" in summary && |summary| == 2 then Some(Audio)
      else if "iso" in summary then Some(Dvd)
      else if "mov" in summary && |summary| == 2 then Some(Video)
      else None
    else if summary["xlsx"] > 1 then
      if "mov" in summary && "wav" in summary then Some(AudioAndVideo)
      else if "mov" in summary && "iso" in summary then Some(DvdAndVideo)
      else None
    else Some(NotSure)
  }

  /** "Not sure" is never the answer for a counted manifest: an extension that is counted has been seen at least once. */
  lemma NotSureUnreachable(files: seq<string>)
    ensures Decide(ParseFiletypes(files)) != Some(NotSure)
  {
    var exts := Extensions(files);
    var summary := ParseFiletypes(files);
    TallyCount(exts, "xlsx");
    if "xlsx" in summary {
      assert multiset(exts)["xlsx"] >= 1;
    }
    CountedNotSure(summary);
  }

  /** "Not sure" needs a spreadsheet counted zero times. */
  lemma CountedNotSure(summary: map<string, nat>)
    requires "xlsx" in summary ==> summary["xlsx"] >= 1
    ensures Decide(summary) != Some(NotSure)
  {
  }

  /** A bag with one spreadsheet and files of a single other kind is named by that kind. */
  lemma OneSheetOneKind(summary: map<string, nat>, kind: string)
    requires summary.Keys == {"xlsx", kind} && kind != "xlsx" && summary["xlsx"] == 1
    ensures kind == "tar" ==> Decide(summary) == Some(BornDigital)
    ensures kind == "wav" ==> Decide(summary) == Some(Audio)
    ensures kind == "iso" ==> Decide(summary) == Some(Dvd)
    ensures kind == "mov" ==> Decide(summary) == Some(Video)
    ensures kind !in {"tar", "wav", "iso", "mov"} ==> Decide(summary) == None
  {
    assert |summary.Keys| == 2;
  }

  /** "Not a bag" is the answer exactly for an empty summary. */
  lemma NotABagMeansEmpty(summary: map<string, nat>)
    ensures Decide(summary) == Some(NotABag) <==> |summary| == 0
  {
  }

  /** A summary is "Not a bag" exactly when it is empty, which a manifest with lines never gives. */
  lemma NotABagIffEmpty(lines: seq<string>, d: char)
    ensures Decide(ParseFiletypes(LastFields(lines, d))) == Some(NotABag) <==> lines == []
  {
    var files := LastFields(lines, d);
    var exts := Extensions(files);
    var summary := Tally(exts);
    assert ParseFiletypes(files) == summary;
    NotABagMeansEmpty(summary);
    if lines == [] {
      assert files == [] && exts == [] && summary == map[];
    } else {
      assert files != [] && exts != [];
      TallyCount(exts, exts[|exts| - 1]);
      assert exts[|exts| - 1] in summary;
    }
  }

  /** What one bag contributes: its directory name and what `parse_bagcontents` gave for it. */
  function Summarised(bags: seq<(string, Option<seq<string>>)>): (s: seq<(string, Result<map<string, nat>>)>)
    ensures |s| == |bags|
    ensures forall i :: 0 <= i < |bags| ==> s[i] == (SplitPath(bags[i].0).1, BagSummary(bags[i].1))
  {
    seq(|bags|, i requires 0 <= i < |bags| => (SplitPath(bags[i].0).1, BagSummary(bags[i].1)))
  }

  /** `result` after one bag: its own decision when it has one, otherwise what it was before. */
  function Next(summary: map<string, nat>, prev: Option<Verdict>): Option<Verdict>
  {
    if Decide(summary).Some? then Decide(summary) else prev
  }

  /**
   * The loop of `main` over the bags, each a name and its summary: a bag whose summary
   * decides nothing repeats the result of the bag before it, and there is none to repeat for
   * the first bag.
   */
  function Sorted(bags: seq<(string, Result<map<string, nat>>)>, prev: Option<Verdict>): Result<seq<(string, Verdict)>>
    decreases |bags|
  {
    if bags == [] then Success([])
    else
      var summary :- bags[0].1;
      var result := Next(summary, prev);
      if result.None? then Failure(RESULT_UNBOUND)
      else
        var rest :- Sorted(bags[1..], result);
        Success([(bags[0].0, result.value)] + rest)
  }

  /** The rows of a run that finishes: one per bag, under its name, holding its own decision when it has one. */
  lemma {:induction false} SortedRows(bags: seq<(string, Result<map<string, nat>>)>, prev: Option<Verdict>)
    requires Sorted(bags, prev).Success?
    ensures |Sorted(bags, prev).value| == |bags|
    ensures forall i :: 0 <= i < |bags| ==> bags[i].1.Success? && Sorted(bags, prev).value[i].0 == bags[i].0
    ensures forall i :: 0 <= i < |bags| && Decide(bags[i].1.value).Some? ==>
      Sorted(bags, prev).value[i].1 == Decide(bags[i].1.value).value
    decreases |bags|
  {
    if bags != [] {
      var result := Next(bags[0].1.value, prev);
      var rest := Sorted(bags[1..], result);
      SortedRows(bags[1..], result);
      assert Sorted(bags, prev).value == [(bags[0].0, result.value)] + rest.value;
      assert forall i :: 1 <= i < |bags| ==> bags[1..][i - 1] == bags[i];
    }
  }

  /** A bag whose summary decides nothing gets the result of the bag before it. */
  lemma {:induction false} SortedReusesStale(bags: seq<(string, Result<map<string, nat>>)>, prev: Option<Verdict>, i: nat)
    requires Sorted(bags, prev).Success? && 0 < i < |bags|
    requires bags[i].1.Success? && Decide(bags[i].1.value).None?
    ensures |Sorted(bags, prev).value| == |bags|
    ensures Sorted(bags, prev).value[i].1 == Sorted(bags, prev).value[i - 1].1
    decreases |bags|
  {
    var result := Next(bags[0].1.value, prev);
    var tail := bags[1..];
    var rest := Sorted(tail, result);
    assert Sorted(bags, prev).value == [(bags[0].0, result.value)] + rest.value;
    SortedRows(bags, prev);
    assert tail[i - 1] == bags[i];
    if i > 1 {
      SortedReusesStale(tail, result, i - 1);
    } else {
      assert tail == [tail[0]] + tail[1..];
      var next := Next(tail[0].1.value, result);
      assert next == result;
      assert rest.value[0] == (tail[0].0, next.value);
    }
  }

  /** When the first bag decides nothing there is no earlier result, and the run raises. */
  lemma FirstUndecidedRaises(bags: seq<(string, Result<map<string, nat>>)>)
    requires bags != [] && bags[0].1.Success? && Decide(bags[0].1.value).None?
    ensures Sorted(bags, None) == Failure(RESULT_UNBOUND)
  {
  }

  /**
   * `main`, over the bag directories found in the listed directory, each a path and its
   * manifest: passing a bag path raises at once (the source assigns to `bags.append`);
   * otherwise every bag is summarised and sorted.
   */
  method SortBagsMain(bagPath: Option<string>, bags: seq<(string, Option<seq<string>>)>)
    returns (r: Result<seq<(string, Verdict)>>)
    ensures bagPath.Some? ==> r == Failure(APPEND_READ_ONLY)
    ensures bagPath.None? ==> r == Sorted(Summarised(bags), None)
  {
    if bagPath.Some? {
      return Failure(APPEND_READ_ONLY);
    }
    ghost var all := Summarised(bags);
    var results: seq<(string, Verdict)> := [];
    var result: Option<Verdict> := None;
    assert all[0..] == all;
    if Sorted(all, None).Success? {
      assert [] + Sorted(all, None).value == Sorted(all, None).value;
    }
    for i := 0 to |bags|
      invariant Sorted(all, None) == Then(results, Sorted(all[i..], result))
    {
      var summary := ParseBagContents(bags[i].1);
      var here := all[i..];
      assert here[0] == (SplitPath(bags[i].0).1, summary);
      assert here[1..] == all[i + 1..];
      if summary.Failure? {
        return Failure(summary.error);
      }
      ghost var prev := result;
      var decided := Decide(summary.value);
      if decided.Some? {
        result := decided;
      }
      if result.None? {
        return Failure(RESULT_UNBOUND);
      }
      var row := (SplitPath(bags[i].0).1, result.value);
      assert result == Next(summary.value, prev);
      ghost var tail := Sorted(all[i + 1..], result);
      SortedStep(here, prev);
      assert Sorted(here, prev) == Then([row], tail);
      ThenAppend(results, row, tail);
      results := results + [row];
      assert Sorted(all, None) == Then(results, tail);
    }
    assert all[|bags|..] == [];
    assert results + [] == results;
    return Success(results);
  }

  /** One turn of the loop: the first bag's row in front of the rows of the rest. */
  lemma SortedStep(bags: seq<(string, Result<map<string, nat>>)>, prev: Option<Verdict>)
    requires bags != [] && bags[0].1.Success? && Next(bags[0].1.value, prev).Some?
    ensures var result := Next(bags[0].1.value, prev);
      Sorted(bags, prev) == Then([(bags[0].0, result.value)], Sorted(bags[1..], result))
  {
  }

  /** The rows already written followed by the outcome of the rest of the loop. */
  function Then(done: seq<(string, Verdict)>, rest: Result<seq<(string, Verdict)>>): Result<seq<(string, Verdict)>>
  {
    match rest
    case Failure(e) => Failure(e)
    case Success(more) => Success(done + more)
  }

  lemma ThenAppend(done: seq<(string, Verdict)>, row: (string, Verdict), rest: Result<seq<(string, Verdict)>>)
    ensures Then(done, Then([row], rest)) == Then(done + [row], rest)
  {
    if rest.Success? {
      assert done + ([row] + rest.value) == (done + [row]) + rest.value;
    }
  }
}
