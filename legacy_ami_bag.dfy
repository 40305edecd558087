/**
 * The older, root-level AMI bag classifier. It knows only Excel and JSON bags, decides
 * JSON from the paths of the JSON files, and assigns the subtype while it checks the structure.
 */
module LegacyAmiBag {
  import opened Wrappers
  import opened Text
  import opened PosixPath
  import opened Patterns
  import opened BagPaths

  datatype BagType = Excel | Json

  predicate HasRoleJson(files: seq<string>)
  {
    exists f :: f in files && JsonInRoleDirectory(f)
  }

  /** The type `check_type` assigns: a JSON file in a role directory overrides the `Metadata` directory. */
  function TypeOf(dirs: set<string>, files: seq<string>): (r: Option<BagType>)
    ensures r == Some(Json) <==> HasRoleJson(files)
    ensures r == Some(Excel) <==> "Metadata" in dirs && !HasRoleJson(files)
    ensures r == None <==> "Metadata" !in dirs && !HasRoleJson(files)
  {
    var t := if "Metadata" in dirs then Some(Excel) else None;
    if HasRoleJson(files) then Some(Json) else t
  }

  /** The if/elif chain of `check_structure_excelbag`: no `.old` files, no `ProjectFile` directory. */
  const ExcelProfiles: seq<Profile> := [
    Profile("video", {"Metadata", "PreservationMasters"}, {".mov", ".xlsx"}),
    Profile("dvd", {"Metadata", "PreservationMasters"}, {".iso", ".xlsx"}),
    Profile("audio", {"Metadata", "PreservationMasters", "EditMasters"}, {".wav", ".xlsx"}),
    Profile("audio w/o edit masters", {"Metadata", "PreservationMasters"}, {".wav", ".xlsx"}),
    Profile("born-digital video",
      {"Metadata", "ArchiveOriginals", "PreservationMasters", "EditMasters", "ProjectFiles"},
      {".tar", ".mov", ".xlsx", ".fcp", ".prproj"}),
    Profile("born-digital audio", {"Metadata", "ArchiveOriginals", "EditMasters"}, {".wav", ".xlsx"})
  ]

  /** "audio" allows every directory and extension that "audio w/o edit masters" allows. */
  lemma AudioShadowsAudioWithoutEditMasters()
    ensures ExcelProfiles[3].dirs <= ExcelProfiles[2].dirs && ExcelProfiles[3].exts <= ExcelProfiles[2].exts
  {
  }

  /** The two tests of `check_structure_jsonbag`; both label the bag "video". */
  const JsonProfiles: seq<Profile> := [
    Profile("video", {"Metadata", "PreservationMasters", "ServiceCopies"}, {".mov", ".json", ".mp4", ".jpeg"}),
    Profile("video", {"Metadata", "PreservationMasters", "EditMasters"}, {".wav", ".json", ".jpeg"})
  ]

  const ExcelDirs: set<string> := {"Metadata", "PreservationMasters", "EditMasters", "ArchiveOriginals", "ProjectFiles"}
  const JsonDirs: set<string> := {"PreservationMasters", "ServiceCopies", "EditMasters", "ArchiveOriginals"}

  function AllowedDirs(t: BagType): set<string>
  {
    match t
    case Excel => ExcelDirs
    case Json => JsonDirs
  }

  /**
   * An older AMI bag. Only the payload paths and directories are fixed when it loads; the type,
   * the extension set and the subtype are assigned by the checks.
   */
  class LegacyAmiBag {
    const dataFiles: seq<string>
    const dataDirs: set<string>
    var bagType: Option<BagType>
    var dataExts: set<string>
    var subtype: Option<string>

    /** `__init__` */
    constructor (files: seq<string>)
      ensures dataFiles == files && dataDirs == DataDirs(files)
      ensures bagType == None && dataExts == {} && subtype == None
    {
      dataFiles := files;
      dataDirs := DataDirs(files);
      bagType := None;
      dataExts := {};
      subtype := None;
    }

    /** `check_type`: the extension set and the subtype are reset only when the bag has a type. */
    method CheckType() returns (c: Check)
      modifies `bagType, `dataExts, `subtype
      ensures bagType == TypeOf(dataDirs, dataFiles)
      ensures c.Fail? <==> bagType.None?
      ensures c.Fail? ==> dataExts == old(dataExts) && subtype == old(subtype)
      ensures c.Pass? ==> dataExts == DataExts(dataFiles) && subtype == None
    {
      bagType := None;
      if "Metadata" in dataDirs {
        bagType := Some(Excel);
      }
      if HasRoleJson(dataFiles) {
        bagType := Some(Json);
      }
      assert bagType == TypeOf(dataDirs, dataFiles);
      if bagType.None? {
        return Fail("Bag is not an Excel bag or JSON bag");
      }
      dataExts := DataExts(dataFiles);
      subtype := None;
      return Pass;
    }

    /** `compare_content` */
    function CompareContent(expected: set<string>): (r: bool)
      reads this
      ensures r <==> forall e :: e in dataExts ==> e in expected
    {
      expected >= dataExts
    }

    /** `compare_structure` */
    function CompareStructure(expected: set<string>): (r: bool)
      ensures r <==> forall d :: d in dataDirs ==> d in expected
    {
      expected >= dataDirs
    }

    /** The if/elif chain of `check_structure_excelbag`: a bag matching no profile keeps its subtype. */
    method AssignExcelSubtype()
      modifies `subtype
      ensures subtype == (if FirstMatch(ExcelProfiles, dataDirs, dataExts).Some?
                          then FirstMatch(ExcelProfiles, dataDirs, dataExts) else old(subtype))
    {
      // Each test below is one row of ExcelProfiles, in the order the source tries them.
      var p := ExcelProfiles;
      FirstOfSix(p, dataDirs, dataExts);
      AudioShadowsAudioWithoutEditMasters();
      if CompareStructure(p[0].dirs) && CompareContent(p[0].exts) {
        subtype := Some("video");
      } else if CompareStructure(p[1].dirs) && CompareContent(p[1].exts) {
        subtype := Some("dvd");
      } else if CompareStructure(p[2].dirs) && CompareContent(p[2].exts) {
        subtype := Some("audio");
      } else if CompareStructure(p[3].dirs) && CompareContent(p[3].exts) {
        // The source assigns "audio w/o edit masters" here; every bag this allows was taken by "audio".
        assert false;
      } else if CompareStructure(p[4].dirs) && CompareContent(p[4].exts) {
        subtype := Some("born-digital video");
      } else if CompareStructure(p[5].dirs) && CompareContent(p[5].exts) {
        subtype := Some("born-digital audio");
      }
    }

    /**
     * `check_structure_excelbag`: directories outside the five allowed fail at once; otherwise
     * the first matching profile, if any, becomes the subtype, and the check fails iff there is none.
     */
    method CheckStructureExcelBag() returns (c: Check)
      modifies `subtype
      ensures bagType == old(bagType) && dataExts == old(dataExts)
      ensures !(dataDirs <= ExcelDirs) ==> c.Fail? && subtype == old(subtype)
      ensures dataDirs <= ExcelDirs ==>
        subtype == (if FirstMatch(ExcelProfiles, dataDirs, dataExts).Some?
                    then FirstMatch(ExcelProfiles, dataDirs, dataExts) else old(subtype))
        && (c.Fail? <==> subtype.None?)
    {
      if !CompareStructure(ExcelDirs) {
        return Fail("Excel bags may only have the allowed directories");
      }
      AssignExcelSubtype();
      if subtype.None? {
        return Fail("Bag does not match an existing profile for Excel bags");
      }
      return Pass;
    }

    /**
     * `check_structure_jsonbag`: fails only for directories outside the four allowed; a bag that
     * matches either profile is labelled "video", and any other keeps its subtype.
     */
    method CheckStructureJsonBag() returns (c: Check)
      modifies `subtype
      ensures bagType == old(bagType) && dataExts == old(dataExts)
      ensures c.Fail? <==> !(dataDirs <= JsonDirs)
      ensures c.Fail? ==> subtype == old(subtype)
      ensures c.Pass? ==>
        subtype == (if FirstMatch(JsonProfiles, dataDirs, dataExts).Some? then Some("video") else old(subtype))
    {
      if !CompareStructure(JsonDirs) {
        return Fail("JSON bags may only have the allowed directories");
      }
      if CompareStructure({"Metadata", "PreservationMasters", "ServiceCopies"})
        && CompareContent({".mov", ".json", ".mp4", ".jpeg"}) {
        subtype := Some("video");
      }
      if CompareStructure({"Metadata", "PreservationMasters", "EditMasters"})
        && CompareContent({".wav", ".json", ".jpeg"}) {
        subtype := Some("video");
      }
      return Pass;
    }

    /** `check_filenames`: fails iff some payload file name is not of the form `[\w]+\.\w+`. */
    method CheckFilenames() returns (c: Check)
      ensures c.Pass? <==> AllFilenamesSimple(dataFiles)
    {
      c := FilenamesCheck(dataFiles);
    }

    /** `check_directory_depth`: fails iff some data directory is nested. */
    method CheckDirectoryDepth() returns (c: Check)
      ensures c.Pass? <==> NoNestedDirs(dataDirs)
    {
      c := DepthCheck(dataDirs);
    }

    /** `check_metadata_excel` */
    method CheckMetadataExcel(workbook: string -> Result<bool>) returns (r: Result<Check>)
      ensures r.Failure? <==> MetadataCrashes(dataFiles, workbook)
      ensures r == Success(Pass) <==> MetadataValid(dataFiles, workbook)
    {
      r := CheckExcelMetadata(dataFiles, workbook);
    }

    /** The checks `validate_amibag` runs on every bag, whatever its type. */
    method CheckBaseline(baseValid: bool) returns (valid: bool)
      modifies `bagType, `dataExts, `subtype
      ensures bagType == TypeOf(dataDirs, dataFiles)
      ensures bagType.Some? ==> dataExts == DataExts(dataFiles) && subtype.None?
      ensures valid <==> baseValid && AllFilenamesSimple(dataFiles) && NoNestedDirs(dataDirs) && bagType.Some?
    {
      valid := baseValid;
      var c := CheckFilenames();
      if c.Fail? {
        valid := false;
      }
      c := CheckDirectoryDepth();
      if c.Fail? {
        valid := false;
      }
      c := CheckType();
      if c.Fail? {
        valid := false;
      }
    }

    /** The structure check for the bag's type and, for an Excel bag, the metadata check. */
    method CheckByType(valid: bool, metadata: bool, workbook: string -> Result<bool>) returns (r: Result<bool>)
      requires bagType.None? ==> !valid
      requires bagType.Some? ==> subtype.None?
      modifies `subtype
      ensures bagType == old(bagType)
      ensures r.Failure? <==> bagType == Some(Excel) && metadata && MetadataCrashes(dataFiles, workbook)
      ensures r.Success? ==> (r.value <==>
        valid && bagType.Some? && dataDirs <= AllowedDirs(bagType.value)
        && (bagType == Some(Excel) ==> FirstMatch(ExcelProfiles, dataDirs, dataExts).Some?)
        && (bagType == Some(Excel) && metadata ==> MetadataValid(dataFiles, workbook)))
    {
      var v := valid;
      if bagType == Some(Excel) {
        var c := CheckStructureExcelBag();
        if c.Fail? {
          v := false;
        }
        ghost var structured := v;
        if metadata {
          var m := CheckMetadataExcel(workbook);
          if m.Failure? {
            return Failure(m.error);
          }
          assert m.value.Pass? <==> MetadataValid(dataFiles, workbook);
          if m.value.Fail? {
            v := false;
          }
        }
        assert v <==> structured && (metadata ==> MetadataValid(dataFiles, workbook));
      } else if bagType == Some(Json) {
        var c := CheckStructureJsonBag();
        if c.Fail? {
          v := false;
        }
      }
      return Success(v);
    }

    /**
     * `validate_amibag`: every applicable check runs and the bag is valid iff none failed. A bag
     * with no type gets no structure check; an Excel bag is valid only with a matching profile,
     * while a JSON bag needs only allowed directories.
     */
    method ValidateAmiBag(baseValid: bool, metadata: bool, workbook: string -> Result<bool>) returns (r: Result<bool>)
      modifies `bagType, `dataExts, `subtype
      ensures bagType == TypeOf(dataDirs, dataFiles)
      ensures r.Failure? <==> bagType == Some(Excel) && metadata && MetadataCrashes(dataFiles, workbook)
      ensures r.Success? ==> (r.value <==>
        baseValid && AllFilenamesSimple(dataFiles) && NoNestedDirs(dataDirs) && bagType.Some?
        && dataDirs <= AllowedDirs(bagType.value)
        && (bagType == Some(Excel) ==> FirstMatch(ExcelProfiles, dataDirs, DataExts(dataFiles)).Some?)
        && (bagType == Some(Excel) && metadata ==> MetadataValid(dataFiles, workbook)))
    {
      var valid := CheckBaseline(baseValid);
      r := CheckByType(valid, metadata, workbook);
    }
  }

  /** As in the packaged version, "audio w/o edit masters" is never assigned. */
  lemma AudioWithoutEditMastersNeverAssigned(dirs: set<string>, exts: set<string>)
    ensures FirstMatch(ExcelProfiles, dirs, exts) != Some("audio w/o edit masters")
  {
    ShadowedProfileNeverChosen(ExcelProfiles, 2, 3, dirs, exts);
  }

  /** Whatever a JSON bag holds, `check_structure_jsonbag` can only label it "video". */
  lemma JsonSubtypeOnlyVideo(dirs: set<string>, exts: set<string>)
    ensures FirstMatch(JsonProfiles, dirs, exts) in {None, Some("video")}
  {
  }

  /** A bag with WAVE preservation and edit masters and JSON metadata is labelled "video", unlike the packaged "audio". */
  lemma JsonAudioBagLabelledVideo()
    ensures FirstMatch(JsonProfiles, {"PreservationMasters", "EditMasters"}, {".wav", ".json"}) == Some("video")
  {
    var dirs, exts := {"PreservationMasters", "EditMasters"}, {".wav", ".json"};
    assert "EditMasters" !in JsonProfiles[0].dirs;
    FirstMatchIsFirst(JsonProfiles, 1, dirs, exts);
  }
}
