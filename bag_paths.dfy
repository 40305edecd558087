/**
 * What both versions of the AMI bag classifier derive from the payload path list, the
 * profile-table matching they share, and the checks whose code is the same in both.
 */
module BagPaths {
  import opened Wrappers
  import opened Text
  import opened PosixPath
  import opened Patterns

  /** `os.path.split(path)[0][5:]`: the directory of a payload path with its leading `data/` dropped. */
  function DataDir(path: string): string
  {
    var head := Dirname(path);
    if |head| <= 5 then "" else head[5..]
  }

  function DataDirs(files: seq<string>): set<string>
  {
    set f | f in files :: DataDir(f)
  }

  /** `os.path.splitext(filename)[1].lower()` over the payload, collected file by file. */
  function DataExts(files: seq<string>): set<string>
  {
    if files == [] then {} else {Lower(Extension(files[0]))} + DataExts(files[1..])
  }

  /** The extension set holds exactly the lower-cased extensions of the payload files. */
  lemma {:induction false} DataExtsMembers(files: seq<string>, e: string)
    ensures e in DataExts(files) <==> exists f :: f in files && Lower(Extension(f)) == e
  {
    if files != [] {
      DataExtsMembers(files[1..], e);
      assert forall f :: f in files <==> f == files[0] || f in files[1..];
    }
  }

  const EXTS: seq<string> := [".mov", ".wav", ".mkv", ".iso", ".tar"]

  predicate IsMediaPath(path: string)
  {
    exists i :: 0 <= i < |EXTS| && Contains(Lower(path), EXTS[i])
  }

  /** `[path for path in files if any(ext in path.lower() for ext in EXTS)]` */
  function MediaFiles(files: seq<string>): (r: seq<string>)
    ensures forall f :: f in r <==> f in files && IsMediaPath(f)
    ensures |r| <= |files|
  {
    if files == [] then []
    else
      var rest := MediaFiles(files[1..]);
      if IsMediaPath(files[0]) then [files[0]] + rest else rest
  }

  /** A subtype profile: the directories and the extensions a bag of that subtype may have. */
  datatype Profile = Profile(name: string, dirs: set<string>, exts: set<string>)

  /** `compare_structure(p.dirs) and compare_content(p.exts)`: subset, not equality. */
  predicate Matches(p: Profile, dirs: set<string>, exts: set<string>)
  {
    dirs <= p.dirs && exts <= p.exts
  }

  /** The subtype an if/elif chain over `profiles` assigns: the first profile that matches. */
  function FirstMatch(profiles: seq<Profile>, dirs: set<string>, exts: set<string>): (r: Option<string>)
    ensures r.None? <==> forall i :: 0 <= i < |profiles| ==> !Matches(profiles[i], dirs, exts)
    ensures r.Some? ==> exists i :: (0 <= i < |profiles| && profiles[i].name == r.value
      && Matches(profiles[i], dirs, exts) && forall j :: 0 <= j < i ==> !Matches(profiles[j], dirs, exts))
  {
    if profiles == [] then None
    else if Matches(profiles[0], dirs, exts) then Some(profiles[0].name)
    else
      var r := FirstMatch(profiles[1..], dirs, exts);
      assert forall i :: 1 <= i < |profiles| ==> profiles[i] == profiles[1..][i - 1];
      r
  }

  /** The chain stops at the first profile that matches, whichever profiles come after it. */
  lemma FirstMatchIsFirst(profiles: seq<Profile>, i: nat, dirs: set<string>, exts: set<string>)
    requires i < |profiles| && Matches(profiles[i], dirs, exts)
    requires forall j :: 0 <= j < i ==> !Matches(profiles[j], dirs, exts)
    ensures FirstMatch(profiles, dirs, exts) == Some(profiles[i].name)
  {
    var r := FirstMatch(profiles, dirs, exts);
    var k :| 0 <= k < |profiles| && profiles[k].name == r.value
      && Matches(profiles[k], dirs, exts) && forall m :: 0 <= m < k ==> !Matches(profiles[m], dirs, exts);
    assert k == i;
  }

  /** A chain of six profiles, written out as the if/elif chain it stands for. */
  lemma FirstOfSix(p: seq<Profile>, dirs: set<string>, exts: set<string>)
    requires |p| == 6
    ensures FirstMatch(p, dirs, exts) ==
      if Matches(p[0], dirs, exts) then Some(p[0].name)
      else if Matches(p[1], dirs, exts) then Some(p[1].name)
      else if Matches(p[2], dirs, exts) then Some(p[2].name)
      else if Matches(p[3], dirs, exts) then Some(p[3].name)
      else if Matches(p[4], dirs, exts) then Some(p[4].name)
      else if Matches(p[5], dirs, exts) then Some(p[5].name)
      else None
  {
    var p1, p2, p3, p4, p5 := p[1..], p[2..], p[3..], p[4..], p[5..];
    assert p1[0] == p[1] && p1[1..] == p2;
    assert p2[0] == p[2] && p2[1..] == p3;
    assert p3[0] == p[3] && p3[1..] == p4;
    assert p4[0] == p[4] && p4[1..] == p5;
    assert p5[0] == p[5] && p5[1..] == [];
  }

  /**
   * A profile whose directories and extensions are all allowed by an earlier profile
   * can never be the one chosen.
   */
  lemma ShadowedProfileNeverChosen(profiles: seq<Profile>, i: nat, j: nat, dirs: set<string>, exts: set<string>)
    requires i < j < |profiles|
    requires profiles[j].dirs <= profiles[i].dirs && profiles[j].exts <= profiles[i].exts
    requires forall k :: 0 <= k < |profiles| && k != j ==> profiles[k].name != profiles[j].name
    ensures FirstMatch(profiles, dirs, exts) != Some(profiles[j].name)
  {
    var r := FirstMatch(profiles, dirs, exts);
    if r == Some(profiles[j].name) {
      var k :| 0 <= k < |profiles| && profiles[k].name == r.value
        && Matches(profiles[k], dirs, exts) && forall m :: 0 <= m < k ==> !Matches(profiles[m], dirs, exts);
      assert k == j;
      assert Matches(profiles[i], dirs, exts);
      assert false;
    }
  }

  predicate AllFilenamesSimple(files: seq<string>)
  {
    forall f :: f in files ==> SimpleFilename(Basename(f))
  }

  predicate NoNestedDirs(dirs: set<string>)
  {
    forall d :: d in dirs ==> '/' !in d
  }

  /** `check_metadata_excel` passes: there is a workbook, and each one validates. */
  predicate MetadataValid(files: seq<string>, workbook: string -> Result<bool>)
  {
    (exists f :: f in files && IsXlsx(f))
    && forall f :: f in files && IsXlsx(f) ==> workbook(f) == Success(true)
  }

  /** `check_metadata_excel` lets an exception of `validate_workbook` escape. */
  predicate MetadataCrashes(files: seq<string>, workbook: string -> Result<bool>)
  {
    exists f :: f in files && IsXlsx(f) && workbook(f).Failure?
  }

  /** The loop of `check_filenames`: the payload paths whose file name fails `[\w]+\.\w+$`. */
  method FindBadFilenames(files: seq<string>) returns (bad: seq<string>)
    ensures forall f :: f in bad <==> f in files && !SimpleFilename(Basename(f))
  {
    bad := [];
    for i := 0 to |files|
      invariant forall f :: f in bad <==> f in files[..i] && !SimpleFilename(Basename(f))
    {
      assert files[..i + 1] == files[..i] + [files[i]];
      if !SimpleFilename(Basename(files[i])) {
        bad := bad + [files[i]];
      }
    }
    assert files[..|files|] == files;
  }

  /** The loop of `check_directory_depth`: the data directories that contain a `/`. */
  method FindDeepDirs(dirs: set<string>) returns (bad: set<string>)
    ensures bad == set d | d in dirs && '/' in d
  {
    bad := {};
    var rest := dirs;
    while rest != {}
      invariant rest <= dirs
      invariant bad == set d | d in dirs - rest && '/' in d
      decreases rest
    {
      var d :| d in rest;
      if '/' in d {
        bad := bad + {d};
      }
      rest := rest - {d};
    }
  }

  /** `check_filenames`, the same in both classifiers: fails iff some payload file name is not of the form `[\w]+\.\w+`. */
  method FilenamesCheck(files: seq<string>) returns (c: Check)
    ensures c.Pass? <==> AllFilenamesSimple(files)
    ensures c.Fail? ==> c.message == "Illegal characters in the following filenames"
  {
    var bad := FindBadFilenames(files);
    if bad != [] {
      assert bad[0] in bad;
      return Fail("Illegal characters in the following filenames");
    }
    return Pass;
  }

  /** `check_directory_depth`, the same in both classifiers: fails iff some data directory is nested. */
  method DepthCheck(dirs: set<string>) returns (c: Check)
    ensures c.Pass? <==> NoNestedDirs(dirs)
    ensures c.Fail? ==> c.message == "Too many levels of directories in data/"
  {
    var bad := FindDeepDirs(dirs);
    if bad != {} {
      var d :| d in bad;
      return Fail("Too many levels of directories in data/");
    }
    forall d | d in dirs
      ensures '/' !in d
    {
      assert d in bad <==> '/' in d;
    }
    return Pass;
  }

  predicate IsXlsx(f: string) { Extension(f) == ".xlsx" }

  /** `[f for f in files if os.path.splitext(f)[1] == ".xlsx"]`: note that the extension is not lower-cased here. */
  function XlsxFiles(files: seq<string>): (r: seq<string>)
    ensures forall f :: f in r <==> f in files && IsXlsx(f)
  {
    if files == [] then []
    else
      var rest := XlsxFiles(files[1..]);
      if IsXlsx(files[0]) then [files[0]] + rest else rest
  }

  /**
   * The loop of `check_metadata_excel` over the workbooks: the first exception raised, if any,
   * and otherwise the workbooks that did not validate.
   */
  method ValidateWorkbooks(sheets: seq<string>, workbook: string -> Result<bool>) returns (r: Result<seq<string>>)
    ensures r.Failure? <==> exists k :: 0 <= k < |sheets| && workbook(sheets[k]).Failure?
    ensures r.Success? ==> forall f :: f in r.value <==> f in sheets && workbook(f) == Success(false)
  {
    var bad: seq<string> := [];
    for i := 0 to |sheets|
      invariant forall k :: 0 <= k < i ==> workbook(sheets[k]).Success?
      invariant forall f :: f in bad <==> f in sheets[..i] && workbook(f) == Success(false)
    {
      var verdict := workbook(sheets[i]);
      if verdict.Failure? {
        return Failure(verdict.error);
      }
      assert sheets[..i + 1] == sheets[..i] + [sheets[i]];
      if !verdict.value {
        bad := bad + [sheets[i]];
      }
    }
    assert sheets[..|sheets|] == sheets;
    return Success(bad);
  }

  /**
   * `check_metadata_excel`: fails when there is no `.xlsx` file or when some workbook does not
   * validate. `workbook(f)` is the verdict of `ami_excel(f).validate_workbook()`, whose own
   * exceptions escape the check (the first one met, in payload order).
   */
  method CheckExcelMetadata(files: seq<string>, workbook: string -> Result<bool>) returns (r: Result<Check>)
    ensures r.Failure? <==> MetadataCrashes(files, workbook)
    ensures r == Success(Pass) <==> MetadataValid(files, workbook)
  {
    var sheets := XlsxFiles(files);
    if sheets == [] {
      return Success(Fail("Excel bag does not contain any files with xlsx extension"));
    }
    assert sheets[0] in sheets;
    var verdicts := ValidateWorkbooks(sheets, workbook);
    if verdicts.Failure? {
      var k :| 0 <= k < |sheets| && workbook(sheets[k]).Failure?;
      assert sheets[k] in sheets;
      return Failure(verdicts.error);
    }
    assert !MetadataCrashes(files, workbook) by {
      forall f | f in files && IsXlsx(f)
        ensures workbook(f).Success?
      {
        assert f in sheets;
      }
    }
    if verdicts.value != [] {
      var f := verdicts.value[0];
      assert f in verdicts.value;
      assert f in files && IsXlsx(f) && workbook(f) == Success(false);
      return Success(Fail("Excel files contain formatting errors"));
    }
    forall f | f in files && IsXlsx(f)
      ensures workbook(f) == Success(true)
    {
      assert f in sheets && f !in verdicts.value;
      var v := workbook(f);
      assert v.Success? && v != Success(false);
      assert v.value;
      assert v == Success(true);
    }
    return Success(Pass);
  }
}
