/**
 * The AMI bag classifier of the packaged `ami_bag` module: the type and subtype a bag is
 * given from its payload paths, and the checks `validate_amibag` runs over them.
 */
module AmiBag {
  import opened Wrappers
  import opened Text
  import opened PosixPath
  import opened Patterns
  import opened BagPaths

  datatype BagType = Excel | Json | ExcelJson

  /** The type `set_type` assigns: `Metadata` makes an Excel bag, a `.json` file a JSON bag, both an Excel-JSON bag. */
  function TypeOf(dirs: set<string>, exts: set<string>): (r: Option<BagType>)
    ensures r == Some(Excel) <==> "Metadata" in dirs && ".json" !in exts
    ensures r == Some(Json) <==> "Metadata" !in dirs && ".json" in exts
    ensures r == Some(ExcelJson) <==> "Metadata" in dirs && ".json" in exts
    ensures r == None <==> "Metadata" !in dirs && ".json" !in exts
  {
    var t := if "Metadata" in dirs then Some(Excel) else None;
    if ".json" in exts then (if t == Some(Excel) then Some(ExcelJson) else Some(Json)) else t
  }

  /** The if/elif chain of `set_excel_subtype`, in order. */
  const ExcelProfiles: seq<Profile> := [
    Profile("video", {"Metadata", "PreservationMasters"}, {".mov", ".xlsx", ".old"}),
    Profile("dvd", {"Metadata", "PreservationMasters"}, {".iso", ".xlsx", ".old"}),
    Profile("audio", {"Metadata", "PreservationMasters", "EditMasters"}, {".wav", ".xlsx", ".old"}),
    Profile("audio w/o edit masters", {"Metadata", "PreservationMasters"}, {".wav", ".xlsx", ".old"}),
    Profile("born-digital video",
      {"Metadata", "ArchiveOriginals", "PreservationMasters", "EditMasters", "ProjectFiles", "ProjectFile"},
      {".tar", ".mov", ".xlsx", ".fcp", ".prproj"}),
    Profile("born-digital audio", {"Metadata", "ArchiveOriginals", "EditMasters"}, {".wav", ".xlsx", ".old"})
  ]

  /** "audio" allows every directory and extension that "audio w/o edit masters" allows. */
  lemma AudioShadowsAudioWithoutEditMasters()
    ensures ExcelProfiles[3].dirs <= ExcelProfiles[2].dirs && ExcelProfiles[3].exts <= ExcelProfiles[2].exts
  {
  }

  /** The if/elif chain of `set_json_subtype`. */
  const JsonProfiles: seq<Profile> := [
    Profile("video", {"Metadata", "PreservationMasters", "ServiceCopies", "Images"}, {".mov", ".json", ".mp4", ".jpeg"}),
    Profile("audio", {"Metadata", "PreservationMasters", "EditMasters", "Images"}, {".wav", ".json", ".jpeg"})
  ]

  /** The if/elif chain of `set_exceljson_subtype`. */
  const ExcelJsonProfiles: seq<Profile> := [
    Profile("video", {"Metadata", "PreservationMasters", "ServiceCopies", "Images"}, {".mov", ".xlsx", ".json", ".mp4", ".jpeg"}),
    Profile("audio", {"Metadata", "PreservationMasters", "EditMasters", "Images"}, {".wav", ".xlsx", ".json", ".jpeg"})
  ]

  /** The directories each `check_structure_*bag` allows. */
  function AllowedDirs(t: BagType): set<string>
  {
    match t
    case Excel => {"Metadata", "PreservationMasters", "EditMasters", "ArchiveOriginals", "ProjectFiles"}
    case Json => {"PreservationMasters", "ServiceCopies", "EditMasters", "ArchiveOriginals"}
    case ExcelJson => {"Metadata", "PreservationMasters", "ServiceCopies", "EditMasters", "ArchiveOriginals"}
  }

  function ProfilesOf(t: BagType): seq<Profile>
  {
    match t
    case Excel => ExcelProfiles
    case Json => JsonProfiles
    case ExcelJson => ExcelJsonProfiles
  }

  /** The subtype `__init__` ends with: the first matching profile of the bag's type, if it has one. */
  function SubtypeOf(t: Option<BagType>, dirs: set<string>, exts: set<string>): Option<string>
  {
    if t.None? then None else FirstMatch(ProfilesOf(t.value), dirs, exts)
  }

  /** A loaded AMI bag: its payload-derived sets are fixed, its type and subtype are assigned while it loads. */
  class AmiBag {
    const dataFiles: seq<string>
    const dataDirs: set<string>
    const dataExts: set<string>
    const mediaFiles: seq<string>
    var bagType: Option<BagType>
    var subtype: Option<string>

    /** The derivations at the start of `__init__`. */
    constructor (files: seq<string>)
      ensures dataFiles == files && dataDirs == DataDirs(files) && dataExts == DataExts(files)
      ensures mediaFiles == MediaFiles(files)
      ensures bagType == None && subtype == None
    {
      dataFiles := files;
      dataDirs := DataDirs(files);
      dataExts := DataExts(files);
      mediaFiles := MediaFiles(files);
      bagType := None;
      subtype := None;
    }

    /** The state `__init__` leaves a bag in. */
    predicate Loaded()
      reads this
    {
      dataDirs == DataDirs(dataFiles) && dataExts == DataExts(dataFiles) && mediaFiles == MediaFiles(dataFiles)
      && bagType == TypeOf(dataDirs, dataExts) && subtype == SubtypeOf(bagType, dataDirs, dataExts)
    }

    /** `ami_bag(path)`: derive the sets, then the type, then the subtype; a bag with no type fails to load. */
    static method Open(files: seq<string>) returns (r: Result<AmiBag>)
      ensures r.Failure? <==> TypeOf(DataDirs(files), DataExts(files)).None?
      ensures r.Success? ==> fresh(r.value) && r.value.dataFiles == files && r.value.Loaded()
      ensures r.Success? ==> r.value.bagType.Some?
    {
      var bag := new AmiBag(files);
      var status := bag.SetType();
      if status.Raised? {
        return Failure(status.error);
      }
      bag.SetSubtype();
      assert bag.Loaded();
      return Success(bag);
    }

    /** `set_type`: it raises when the bag is neither an Excel nor a JSON bag. */
    method SetType() returns (status: Status)
      modifies `bagType
      ensures bagType == TypeOf(dataDirs, dataExts)
      ensures status.Raised? <==> bagType.None?
      ensures subtype == old(subtype)
    {
      bagType := None;
      if "Metadata" in dataDirs {
        bagType := Some(Excel);
      }
      if ".json" in dataExts {
        if bagType == Some(Excel) {
          bagType := Some(ExcelJson);
        } else {
          bagType := Some(Json);
        }
      }
      if bagType.None? {
        return Raised("Bag is not an Excel bag or JSON bag");
      }
      return Completed;
    }

    /** `check_type` */
    method CheckType() returns (c: Check)
      ensures c.Fail? <==> bagType.None?
    {
      if bagType.None? {
        return Fail("Bag is not an Excel bag or JSON bag");
      }
      return Pass;
    }

    /** `compare_content`: every extension of the bag is expected. */
    function CompareContent(expected: set<string>): (r: bool)
      ensures r <==> forall e :: e in dataExts ==> e in expected
    {
      expected >= dataExts
    }

    /** `compare_structure`: every directory of the bag is expected. */
    function CompareStructure(expected: set<string>): (r: bool)
      ensures r <==> forall d :: d in dataDirs ==> d in expected
    {
      expected >= dataDirs
    }

    /** The subtype step of `__init__`: the subtype setter of the bag's type, if it has one. */
    method SetSubtype()
      modifies `subtype
      ensures bagType.Some? ==> subtype == SubtypeOf(bagType, dataDirs, dataExts)
      ensures bagType.None? ==> subtype == old(subtype)
    {
      if bagType == Some(Excel) {
        SetExcelSubtype();
      }
      if bagType == Some(Json) {
        SetJsonSubtype();
      }
      if bagType == Some(ExcelJson) {
        SetExcelJsonSubtype();
      }
    }

    /** `set_excel_subtype`: the first profile of the chain that allows the bag's directories and extensions. */
    method SetExcelSubtype()
      modifies `subtype
      ensures subtype == FirstMatch(ExcelProfiles, dataDirs, dataExts)
      ensures bagType == old(bagType)
    {
      // Each test below is one row of ExcelProfiles, in the order the source tries them.
      var p := ExcelProfiles;
      FirstOfSix(p, dataDirs, dataExts);
      AudioShadowsAudioWithoutEditMasters();
      subtype := None;
      if CompareStructure(p[0].dirs) && CompareContent(p[0].exts) {
        subtype := Some("video");
      } else if CompareStructure(p[1].dirs) && CompareContent(p[1].exts) {
        subtype := Some("dvd");
      } else if CompareStructure(p[2].dirs) && CompareContent(p[2].exts) {
        subtype := Some("audio");
      } else if CompareStructure(p[3].dirs) && CompareContent(p[3].exts) {
        // The source assigns "audio w/o edit masters" here; every bag this allows was taken by "audio".
        assert false;
      } else if CompareStructure(p[4].dirs) && CompareContent(p[4].exts) {
        subtype := Some("born-digital video");
      } else if CompareStructure(p[5].dirs) && CompareContent(p[5].exts) {
        subtype := Some("born-digital audio");
      }
    }

    /** `set_json_subtype` */
    method SetJsonSubtype()
      modifies `subtype
      ensures subtype == FirstMatch(JsonProfiles, dataDirs, dataExts)
      ensures bagType == old(bagType)
    {
      var p := JsonProfiles;
      subtype := None;
      if CompareStructure(p[0].dirs) && CompareContent(p[0].exts) {
        subtype := Some("video");
        FirstMatchIsFirst(p, 0, dataDirs, dataExts);
      } else if CompareStructure(p[1].dirs) && CompareContent(p[1].exts) {
        subtype := Some("audio");
        FirstMatchIsFirst(p, 1, dataDirs, dataExts);
      }
    }

    /** `set_exceljson_subtype` */
    method SetExcelJsonSubtype()
      modifies `subtype
      ensures subtype == FirstMatch(ExcelJsonProfiles, dataDirs, dataExts)
      ensures bagType == old(bagType)
    {
      var p := ExcelJsonProfiles;
      subtype := None;
      if CompareStructure(p[0].dirs) && CompareContent(p[0].exts) {
        subtype := Some("video");
        FirstMatchIsFirst(p, 0, dataDirs, dataExts);
      } else if CompareStructure(p[1].dirs) && CompareContent(p[1].exts) {
        subtype := Some("audio");
        FirstMatchIsFirst(p, 1, dataDirs, dataExts);
      }
    }

    /** `check_filenames`: fails iff some payload file name is not of the form `[\w]+\.\w+`. */
    method CheckFilenames() returns (c: Check)
      ensures c.Pass? <==> AllFilenamesSimple(dataFiles)
    {
      c := FilenamesCheck(dataFiles);
    }

    /** `check_directory_depth`: fails iff some data directory is nested. */
    method CheckDirectoryDepth() returns (c: Check)
      ensures c.Pass? <==> NoNestedDirs(dataDirs)
    {
      c := DepthCheck(dataDirs);
    }

    /** The shared shape of the three `check_structure_*bag` methods. */
    method CheckStructure(t: BagType) returns (c: Check)
      ensures c.Pass? <==> dataDirs <= AllowedDirs(t) && subtype.Some?
    {
      if !CompareStructure(AllowedDirs(t)) {
        return Fail("Bag may only have the allowed directories");
      }
      if subtype.None? {
        return Fail("Bag does not match an existing profile");
      }
      return Pass;
    }

    /** `check_structure_excelbag` */
    method CheckStructureExcelBag() returns (c: Check)
      ensures c.Pass? <==> dataDirs <= AllowedDirs(Excel) && subtype.Some?
    {
      c := CheckStructure(Excel);
    }

    /** `check_structure_jsonbag` */
    method CheckStructureJsonBag() returns (c: Check)
      ensures c.Pass? <==> dataDirs <= AllowedDirs(Json) && subtype.Some?
    {
      c := CheckStructure(Json);
    }

    /** `check_structure_exceljsonbag` */
    method CheckStructureExcelJsonBag() returns (c: Check)
      ensures c.Pass? <==> dataDirs <= AllowedDirs(ExcelJson) && subtype.Some?
    {
      c := CheckStructure(ExcelJson);
    }

    /** `check_metadata_excel` */
    method CheckMetadataExcel(workbook: string -> Result<bool>) returns (r: Result<Check>)
      ensures r.Failure? <==> MetadataCrashes(dataFiles, workbook)
      ensures r == Success(Pass) <==> MetadataValid(dataFiles, workbook)
    {
      r := CheckExcelMetadata(dataFiles, workbook);
    }

    /**
     * `validate_amibag`: every applicable check runs, and the bag is valid iff none failed.
     * `baseValid` is the verdict of bagit's own validation; `workbook` gives the verdict of
     * each Excel workbook's own validation, whose exceptions are not caught here.
     */
    method ValidateAmiBag(baseValid: bool, metadata: bool, workbook: string -> Result<bool>) returns (r: Result<bool>)
      ensures r.Failure? <==> bagType == Some(Excel) && metadata && MetadataCrashes(dataFiles, workbook)
      ensures r.Success? ==> (r.value <==>
        baseValid && AllFilenamesSimple(dataFiles) && NoNestedDirs(dataDirs) && bagType.Some?
        && dataDirs <= AllowedDirs(bagType.value) && subtype.Some?
        && (bagType == Some(Excel) && metadata ==> MetadataValid(dataFiles, workbook)))
    {
      var valid := baseValid;
      var c := CheckFilenames();
      if c.Fail? {
        valid := false;
      }
      c := CheckDirectoryDepth();
      if c.Fail? {
        valid := false;
      }
      c := CheckType();
      if c.Fail? {
        valid := false;
      }
      assert valid <==> baseValid && AllFilenamesSimple(dataFiles) && NoNestedDirs(dataDirs) && bagType.Some?;
      if bagType == Some(Excel) {
        c := CheckStructureExcelBag();
        if c.Fail? {
          valid := false;
        }
        ghost var structured := valid;
        if metadata {
          var m := CheckMetadataExcel(workbook);
          if m.Failure? {
            return Failure(m.error);
          }
          assert m.value.Pass? <==> MetadataValid(dataFiles, workbook);
          if m.value.Fail? {
            valid := false;
          }
        }
        assert valid <==> structured && (metadata ==> MetadataValid(dataFiles, workbook));
      } else if bagType == Some(Json) {
        c := CheckStructureJsonBag();
        if c.Fail? {
          valid := false;
        }
      } else if bagType == Some(ExcelJson) {
        c := CheckStructureExcelJsonBag();
        if c.Fail? {
          valid := false;
        }
      }
      assert bagType.Some? ==> (valid <==>
        baseValid && AllFilenamesSimple(dataFiles) && NoNestedDirs(dataDirs)
        && dataDirs <= AllowedDirs(bagType.value) && subtype.Some?
        && (bagType == Some(Excel) && metadata ==> MetadataValid(dataFiles, workbook)));
      assert bagType.None? ==> !valid;
      return Success(valid);
    }
  }

  /** "audio w/o edit masters" is never assigned: every bag it allows is taken by "audio" first. */
  lemma AudioWithoutEditMastersNeverAssigned(dirs: set<string>, exts: set<string>)
    ensures FirstMatch(ExcelProfiles, dirs, exts) != Some("audio w/o edit masters")
  {
    ShadowedProfileNeverChosen(ExcelProfiles, 2, 3, dirs, exts);
  }

  /** A bag of preservation masters in QuickTime is an Excel video bag. */
  lemma ExcelVideoReachable()
    ensures FirstMatch(ExcelProfiles, {"Metadata", "PreservationMasters"}, {".mov", ".xlsx"}) == Some("video")
  {
    FirstMatchIsFirst(ExcelProfiles, 0, {"Metadata", "PreservationMasters"}, {".mov", ".xlsx"});
  }

  /** A bag of disc images is a DVD bag. */
  lemma ExcelDvdReachable()
    ensures FirstMatch(ExcelProfiles, {"Metadata", "PreservationMasters"}, {".iso", ".xlsx"}) == Some("dvd")
  {
    var dirs, exts := {"Metadata", "PreservationMasters"}, {".iso", ".xlsx"};
    assert ".iso" !in ExcelProfiles[0].exts;
    FirstMatchIsFirst(ExcelProfiles, 1, dirs, exts);
  }

  /** A bag of preservation and edit masters in WAVE is an audio bag. */
  lemma ExcelAudioReachable()
    ensures FirstMatch(ExcelProfiles, {"Metadata", "PreservationMasters", "EditMasters"}, {".wav", ".xlsx"}) == Some("audio")
  {
    var dirs, exts := {"Metadata", "PreservationMasters", "EditMasters"}, {".wav", ".xlsx"};
    assert "EditMasters" !in ExcelProfiles[0].dirs && "EditMasters" !in ExcelProfiles[1].dirs;
    FirstMatchIsFirst(ExcelProfiles, 2, dirs, exts);
  }

  /** A bag of archived originals in tar files is a born-digital video bag. */
  lemma ExcelBornDigitalVideoReachable()
    ensures FirstMatch(ExcelProfiles, {"Metadata", "ArchiveOriginals"}, {".tar", ".xlsx"}) == Some("born-digital video")
  {
    var dirs, exts := {"Metadata", "ArchiveOriginals"}, {".tar", ".xlsx"};
    assert forall j :: 0 <= j < 4 ==> "ArchiveOriginals" !in ExcelProfiles[j].dirs;
    FirstMatchIsFirst(ExcelProfiles, 4, dirs, exts);
  }

  /** A bag of archived originals and edit masters in WAVE is a born-digital audio bag. */
  lemma ExcelBornDigitalAudioReachable()
    ensures FirstMatch(ExcelProfiles, {"Metadata", "ArchiveOriginals", "EditMasters"}, {".wav", ".xlsx"})
      == Some("born-digital audio")
  {
    var dirs, exts := {"Metadata", "ArchiveOriginals", "EditMasters"}, {".wav", ".xlsx"};
    assert forall j :: 0 <= j < 4 ==> "ArchiveOriginals" !in ExcelProfiles[j].dirs;
    assert ".wav" !in ExcelProfiles[4].exts;
    FirstMatchIsFirst(ExcelProfiles, 5, dirs, exts);
  }

  /**
   * A bag of preservation masters, service copies and images with JSON metadata is a JSON video
   * bag; its `Images` directory is one that `check_structure_jsonbag` does not allow.
   */
  lemma JsonVideoScenario()
    ensures var dirs := {"PreservationMasters", "ServiceCopies", "Images"};
      var exts := {".json", ".mov", ".mp4", ".jpeg"};
      TypeOf(dirs, exts) == Some(Json) && SubtypeOf(Some(Json), dirs, exts) == Some("video")
      && !(dirs <= AllowedDirs(Json))
  {
    var dirs := {"PreservationMasters", "ServiceCopies", "Images"};
    assert "Images" in dirs && "Images" !in AllowedDirs(Json);
  }

  /** Only a JSON bag without an `Images` directory can pass `check_structure_jsonbag`, although both JSON profiles allow one. */
  lemma JsonBagWithImagesFailsStructure(dirs: set<string>)
    requires "Images" in dirs
    ensures !(dirs <= AllowedDirs(Json)) && !(dirs <= AllowedDirs(ExcelJson)) && !(dirs <= AllowedDirs(Excel))
  {
  }
}
