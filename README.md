# AMI bag tools, modelled in Dafny

NYPL's AMI tools handle audio and moving-image (AMI) preservation bags: BagIt directories whose
payload under `data/` holds media masters, service copies and Excel or JSON metadata. This project
models the core of those tools and proves what they promise.

- **Bag classifiers.** The packaged `ami_bag` class and its older top-level version derive the
  data directories, extensions and media files of a bag. They assign a type: Excel, JSON, or (in
  the packaged version) Excel-JSON. They assign a subtype by walking an if/elif chain of profiles.
  They check file names, directory depth, structure and the Excel metadata, and `validate_amibag`
  combines these checks (`AmiBag`, `LegacyAmiBag`, with shared definitions in `BagPaths`).
- **Repair engines.** `Repairable_Bag`, packaged and legacy, finds payload files missing from the
  manifests. It adds them with one digest per algorithm, or deletes the ones that the system-file
  rules mark. It backs up the manifests, rewrites them, regenerates the tag manifests, and updates
  `bag-info.txt` with a fresh Payload-Oxum (`RepairableBag` holds the shared class `Bag`; `UpdateBag`
  and `LegacyUpdateBag` hold the two versions of the loops; `Fixity` holds the pure specification).
- **Spreadsheet header validation.** The packaged `ami_excel` / `ami_pressheet` and the older
  `AMI_Excel` read the three header rows of a preservation sheet through xlrd. They rebuild each
  column's (top, middle, bottom) header triple by scanning left over merged cells. They then check
  every level and triple against the expected profile. Either `Barcode` or the object identifier
  may stand in for the other. No formula may appear in the first rows: that check reloads the
  sheet through openpyxl, which sees a formula's own text where xlrd sees its last computed value,
  so a sheet carries both views (`SheetGrid`, `AmiExcel`, `LegacyExcel`).
- **Helpers.**
  - `ami_json` nests a flat dictionary of dotted keys (`AmiJson`).
  - `move_tags` finds tag files that sit in the payload, and bags named by six digits (`MoveTags`).
  - `sort_bags` sorts bags by the file types of their manifests (`SortBags`).
  - `get_repo_file` validates object ids, groups repository assets by the id embedded in their
    name, and maps a UUID to its path in the repository (`GetRepoFile`).

Python's semantics are written out where they matter:
- `$` in a regex also matches before a final newline.
- xlrd's `cell(r, -1)` wraps to the last column.
- openpyxl cells are numbered from 1.
- `split(c)[-1]` is the text after the last separator, and slices clamp their bounds.
- A `result` variable that no branch assigned keeps its previous value, or raises
  UnboundLocalError on the first row.
- `remove` of a missing set element raises KeyError.
- Every exception that can escape is modelled as a `Failure` or a `Raised` status carrying the
  exception's text.

The file system, bagit's hashing and file-name encoding, and workbook loading are parameters of
the model. The Excel workbook validator is a function parameter of the bag classifiers.

## Model

| member | source | states |
|---|---|---|
| `AmiBag.TypeOf` | ami_bag/ami_bag.py:126-140 | Excel iff a `Metadata` directory and no `.json`; JSON iff `.json` and no `Metadata`; Excel-JSON iff both; no type iff neither |
| `AmiBag.AmiBag.constructor` | ami_bag/ami_bag.py:24-29 | the files, the data directories (path head with `data/` dropped), the lower-cased extensions and the media files are derived from the payload; type and subtype unset |
| `AmiBag.AmiBag.Open` | ami_bag/ami_bag.py:24-36 | loading fails iff the bag has no type; a loaded bag has its type, and the subtype that its type's profile chain gives |
| `AmiBag.AmiBag.SetType` | ami_bag/ami_bag.py:126-140 | the type becomes `TypeOf` of the directories and extensions; raises iff there is none; the subtype is untouched |
| `AmiBag.AmiBag.CheckType` | ami_bag/ami_bag.py:143-147 | fails iff the bag has no type |
| `AmiBag.AmiBag.CompareContent` | ami_bag/ami_bag.py:150-153 | true iff every extension of the bag is expected (subset, not equality) |
| `AmiBag.AmiBag.CompareStructure` | ami_bag/ami_bag.py:156-159 | true iff every directory of the bag is expected |
| `AmiBag.AmiBag.SetSubtype` | ami_bag/ami_bag.py:30-36 | a typed bag gets the first matching profile of its type's chain; an untyped bag keeps its subtype |
| `AmiBag.AmiBag.SetExcelSubtype` | ami_bag/ami_bag.py:162-184 | the subtype is the first of the six Excel profiles whose directories and extensions include the bag's, or none |
| `AmiBag.AmiBag.SetJsonSubtype` | ami_bag/ami_bag.py:198-208 | the subtype is the first matching JSON profile (video, then audio), or none |
| `AmiBag.AmiBag.SetExcelJsonSubtype` | ami_bag/ami_bag.py:223-233 | the subtype is the first matching Excel-JSON profile, or none |
| `AmiBag.AmiBag.CheckFilenames` | ami_bag/ami_bag.py:100-110 | passes iff every payload file name matches `[\w]+\.\w+$` |
| `AmiBag.AmiBag.CheckDirectoryDepth` | ami_bag/ami_bag.py:113-123 | passes iff no data directory contains `/` |
| `AmiBag.AmiBag.CheckStructure` | ami_bag/ami_bag.py:187-246 | passes iff the directories are among those allowed for the type and a subtype was assigned |
| `AmiBag.AmiBag.CheckStructureExcelBag` | ami_bag/ami_bag.py:187-195 | passes iff the directories are among the five Excel directories and a subtype was assigned |
| `AmiBag.AmiBag.CheckStructureJsonBag` | ami_bag/ami_bag.py:211-220 | passes iff the directories are among the four JSON directories and a subtype was assigned |
| `AmiBag.AmiBag.CheckStructureExcelJsonBag` | ami_bag/ami_bag.py:237-246 | passes iff the directories are among the five Excel-JSON directories and a subtype was assigned |
| `AmiBag.AmiBag.CheckMetadataExcel` | ami_bag/ami_bag.py:249-265 | raises iff a workbook's validation raises; passes iff there is an `.xlsx` file and every one validates |
| `AmiBag.AmiBag.ValidateAmiBag` | ami_bag/ami_bag.py:39-97 | raises only when the Excel metadata check is requested and a workbook raises; otherwise valid iff bagit, names, depth and type pass, and the structure check of the type passes (plus the metadata check for Excel when asked) |
| `AmiBag.AudioWithoutEditMastersNeverAssigned` | ami_bag/ami_bag.py:171-176 | no bag is ever given the subtype "audio w/o edit masters": every bag it allows is taken by "audio" first |
| `AmiBag.ExcelVideoReachable` | ami_bag/ami_bag.py:165-167 | Metadata and PreservationMasters with `.mov` and `.xlsx` is an Excel video bag |
| `AmiBag.ExcelDvdReachable` | ami_bag/ami_bag.py:168-170 | the same directories with `.iso` and `.xlsx` is a DVD bag |
| `AmiBag.ExcelAudioReachable` | ami_bag/ami_bag.py:171-173 | Metadata, PreservationMasters, EditMasters with `.wav` and `.xlsx` is an audio bag |
| `AmiBag.ExcelBornDigitalVideoReachable` | ami_bag/ami_bag.py:177-179 | Metadata and ArchiveOriginals with `.tar` and `.xlsx` is a born-digital video bag |
| `AmiBag.ExcelBornDigitalAudioReachable` | ami_bag/ami_bag.py:180-182 | Metadata, ArchiveOriginals, EditMasters with `.wav` and `.xlsx` is a born-digital audio bag |
| `AmiBag.JsonVideoScenario` | ami_bag/ami_bag.py:198-220 | masters, service copies and images with JSON metadata are typed JSON and labelled video, yet have an `Images` directory that the structure check refuses |
| `AmiBag.JsonBagWithImagesFailsStructure` | ami_bag/ami_bag.py:201-246 | a bag with an `Images` directory fails the structure check of every type, although both JSON profiles allow one |
| `LegacyAmiBag.TypeOf` | ami_bag.py:107-116 | JSON iff some payload path has a `.json` file in a role directory; otherwise Excel iff `Metadata`; otherwise none |
| `LegacyAmiBag.LegacyAmiBag.constructor` | ami_bag.py:22-25 | the files and data directories are derived; nothing else is set |
| `LegacyAmiBag.LegacyAmiBag.CheckType` | ami_bag.py:107-121 | the type becomes `TypeOf`; fails iff none; only a typed bag gets its extension set and a reset subtype |
| `LegacyAmiBag.LegacyAmiBag.CompareContent` | ami_bag.py:124-127 | true iff every extension is expected |
| `LegacyAmiBag.LegacyAmiBag.CompareStructure` | ami_bag.py:130-133 | true iff every directory is expected |
| `LegacyAmiBag.LegacyAmiBag.AssignExcelSubtype` | ami_bag.py:142-159 | the first matching Excel profile becomes the subtype; with no match the subtype is kept |
| `LegacyAmiBag.LegacyAmiBag.CheckStructureExcelBag` | ami_bag.py:136-164 | fails without touching the subtype when the directories are not allowed; otherwise assigns the profile and fails iff no subtype results |
| `LegacyAmiBag.LegacyAmiBag.CheckStructureJsonBag` | ami_bag.py:167-179 | fails iff the directories are not allowed; otherwise the later of the two matching tests sets "video" |
| `LegacyAmiBag.LegacyAmiBag.CheckFilenames` | ami_bag.py:82-92 | passes iff every file name matches `[\w]+\.\w+$` |
| `LegacyAmiBag.LegacyAmiBag.CheckDirectoryDepth` | ami_bag.py:94-104 | passes iff no data directory is nested |
| `LegacyAmiBag.LegacyAmiBag.CheckMetadataExcel` | ami_bag.py:182-198 | raises iff a workbook raises; passes iff an `.xlsx` exists and all validate |
| `LegacyAmiBag.LegacyAmiBag.CheckBaseline` | ami_bag.py:33-56 | valid iff bagit, file names, depth and type all pass; the type and the reset state are those of `check_type` |
| `LegacyAmiBag.LegacyAmiBag.CheckByType` | ami_bag.py:58-79 | an Excel bag gets the Excel structure check (and the metadata check when asked), a JSON bag the JSON one; raises only from the metadata check |
| `LegacyAmiBag.LegacyAmiBag.ValidateAmiBag` | ami_bag.py:28-79 | the overall verdict is the conjunction of every check run for the bag's type; raises only from a workbook |
| `LegacyAmiBag.AudioWithoutEditMastersNeverAssigned` | ami_bag.py:148-153 | "audio w/o edit masters" is never assigned in the older chain either |
| `LegacyAmiBag.JsonSubtypeOnlyVideo` | ami_bag.py:172-177 | the JSON structure check can only label a bag "video" or leave it unlabelled |
| `LegacyAmiBag.JsonAudioBagLabelledVideo` | ami_bag.py:175-177 | WAVE masters with edit masters and JSON are labelled "video" |
| `BagPaths.DataExtsMembers` | ami_bag/ami_bag.py:28 | the extension set holds exactly the lower-cased `splitext` extensions of the payload files |
| `BagPaths.MediaFiles` | ami_bag/ami_bag.py:29 | the media files are exactly the payload paths whose lower-cased text contains one of the five media extensions |
| `BagPaths.FirstMatch` | ami_bag/ami_bag.py:162-184 | no subtype iff no profile matches; otherwise the name of a matching profile with no match before it |
| `BagPaths.FirstOfSix` | ami_bag/ami_bag.py:165-184 | over six profiles the first match is exactly the six-branch if/elif chain, with no subtype when none matches |
| `BagPaths.FirstMatchIsFirst` | ami_bag/ami_bag.py:165-182 | the first matching profile is chosen, whatever comes after it |
| `BagPaths.ShadowedProfileNeverChosen` | ami_bag/ami_bag.py:171-176 | a profile contained in an earlier one is never chosen |
| `BagPaths.FindBadFilenames` | ami_bag/ami_bag.py:100-108 | the bad list holds exactly the payload paths whose base name fails the pattern |
| `BagPaths.FindDeepDirs` | ami_bag/ami_bag.py:113-121 | the bad set is exactly the data directories containing `/` |
| `BagPaths.FilenamesCheck` | ami_bag/ami_bag.py:100-110 | fails, with the bag error's text, iff some payload file name fails the pattern (shared by both classifiers' `CheckFilenames`) |
| `BagPaths.DepthCheck` | ami_bag/ami_bag.py:113-123 | fails, with the bag error's text, iff some data directory contains `/` (shared by both classifiers' `CheckDirectoryDepth`) |
| `BagPaths.XlsxFiles` | ami_bag/ami_bag.py:250 | exactly the payload files whose (not lower-cased) extension is `.xlsx` |
| `BagPaths.ValidateWorkbooks` | ami_bag/ami_bag.py:255-260 | raises iff some workbook raises; otherwise lists exactly the workbooks that do not validate |
| `BagPaths.CheckExcelMetadata` | ami_bag/ami_bag.py:249-265 | raises iff a workbook raises; passes iff a workbook exists and all validate |
| `Patterns.SimpleFilenameAtLastDot` | ami_bag/ami_bag.py:104 | `[\w]+\.\w+$` holds iff the text after the last dot (before a final newline) is non-empty word characters preceded by a word character |
| `Patterns.EscapedPatternsNeedBackslash` | update_bag.py:8-20 | the three doubled-backslash patterns match no path without a backslash |
| `PosixPath.SplitPath` | ami_bag/ami_bag.py:27 | the tail is the text after the last `/`; a path without `/` has an empty head |
| `PosixPath.Basename` | ami_bag/ami_bag.py:104 | the base name has no `/` and ends the path |
| `PosixPath.Extension` | ami_bag/ami_bag.py:28 | the extension is empty or a dot followed by no dot or slash, ending the path |
| `PosixPath.JoinPath` | bin/move_tags.py:66 | an absolute second part replaces the first; otherwise the result starts with the first and ends with the second |
| `Decimal.NatToString` | ami_bag/update_bag.py:59 | non-empty decimal digits, with no leading zero except for 0 |
| `Decimal.DigitsValueOfNatToString` | ami_bag/update_bag.py:59 | reading the digits back gives the number |
| `Decimal.NatToStringInjective` | ami_bag/update_bag.py:59 | different counts print differently |
| `Text.Lower` | ami_bag/ami_bag.py:28 | same length, each character lower-cased |
| `Text.LastIndexOf` | sort_bags.py:40-42 | `rfind`: -1 or the index of the last occurrence |
| `Text.Slice` | bin/get_repo_file.py:112-116 | within bounds it is the sub-sequence; it is never longer than the text |
| `Text.ReplaceChar` | ami_md/ami_excel.py:203 | same length, each occurrence of the character replaced |
| `Text.StripLeadingSpaces` | ami_md/ami_excel.py:203 | `lstrip` leaves no leading whitespace |
| `Text.StripTrailingSpaces` | ami_md/ami_excel.py:203 | `rstrip` leaves no trailing whitespace |
| `Text.StripNoNewline` | ami_md/ami_excel.py:203 | stripping a text without newlines gives one without newlines |
| `Text.StripEnds` | ami_md/ami_excel.py:203 | a non-empty stripped text starts and ends with non-whitespace |
| `Text.Split` | bin/get_repo_file.py:67 | at least one field, none containing the separator; a single field iff the separator is absent |
| `Text.AfterLast` | sort_bags.py:21 | the last field of `split`: no separator in it, it ends the text, and it is the whole text iff no separator |
| `Text.DropFinalNewline` | ami_bag/ami_bag.py:104 | the subject of a `$`-anchored pattern is the text or the text without its final newline |
| `Text.SplitJoin` | sort_bags.py:21 | joining the fields of `split` with the separator gives back the text |
| `Fixity.Oxum` | ami_bag/update_bag.py:59 | the generated Oxum contains the dot separator |
| `Text.IndexOf` | ami_bag/update_bag.py:39-44 | `find`: -1 or the index of the first occurrence, with no earlier one |
| `Fixity.SplitOxum` | ami_bag/update_bag.py:39-44 | `split(".", 1)` as the fast validation unpacks it: none iff there is no dot, otherwise the text is the two parts joined by a dot, the first without a dot |
| `Fixity.ParseOxum` | ami_bag/update_bag.py:39-44 | a recorded Oxum read as two non-empty digit strings around its first dot; a parsed Oxum has a dot |
| `Fixity.ReadOxum` | ami_bag/update_bag.py:39-44 | reads as `ParseOxum` does; otherwise fails with ValueError without a dot and with BagError when a part is not a digit string |
| `Fixity.LeadingZeroValue` | ami_bag/update_bag.py:39-44 | a leading zero does not change the number a digit string is read as |
| `Fixity.LeadingZeroOxumSameCounts` | ami_bag/update_bag.py:39-44 | an Oxum with a leading zero is a different text that reads as the same counts |
| `Fixity.OxumRoundTrip` | ami_bag/update_bag.py:59 | the generated Oxum reads back as the byte and file counts |
| `Fixity.OxumInjective` | ami_bag/update_bag.py:59-61 | equal Oxum values mean equal counts, so the `!=` test sees every change of the counts |
| `Fixity.BagInfoKeysDistinct` | ami_bag/update_bag.py:61-68 | the four keys `update_baginfo` writes are pairwise distinct |
| `Fixity.UpdatedInfo` | ami_bag/update_bag.py:61-68 | the Oxum is the generated one; a changed Oxum is kept under the dated key; a message is kept under its dated key; the update date is set iff either happened; nothing else changes |
| `Fixity.UpdatedInfoIdempotent` | ami_bag/update_bag.py:61-64 | updating twice with the same payload and no message equals updating once |
| `Fixity.DataEntries` | ami_bag/update_bag.py:179-180 | exactly the entries under `data/`, in order |
| `Fixity.ManifestLinesListEntries` | ami_bag/update_bag.py:178-181 | a manifest lists payload entries in entry order, each with its digest and encoded name |
| `Fixity.ManifestLinesComplete` | ami_bag/update_bag.py:178-181 | the manifest lists every payload entry iff every entry has a digest for the algorithm |
| `Fixity.FireCount` | ami_bag/update_bag.py:141-143 | at most one per rule, and positive iff some rule fires |
| `Fixity.Firing` | ami_bag/update_bag.py:141-143 | the path once per firing rule and nothing else |
| `Fixity.Marked` | ami_bag/update_bag.py:140-143 | a path is marked iff it is untracked and some rule fires on it |
| `Fixity.MarkedCount` | ami_bag/update_bag.py:140-143 | a marked path appears once per rule that fires on it |
| `Fixity.FiringCount` | ami_bag/update_bag.py:141-143 | the inner loop adds the path exactly as often as rules fire |
| `RepairableBag.BackupNameInjective` | ami_bag/update_bag.py:171-172 | same-day backups of different algorithms have different names |
| `RepairableBag.PayloadTotals` | ami_bag/update_bag.py:51-57 | the loop sums every payload size and counts every file |
| `RepairableBag.Bag.constructor` | ami_bag/update_bag.py:34-36 | the bag holds exactly the given info, entries, algorithms, disk, manifests and directory-layout verdict |
| `RepairableBag.Bag.Digests` | ami_bag/update_bag.py:123-126 | one digest per distinct algorithm, each the hash of the content |
| `RepairableBag.Bag.PayloadFilesNotInManifest` | ami_bag/update_bag.py:87-93 | exactly the untracked payload files, each once |
| `RepairableBag.Bag.GenerateOxum` | ami_bag/update_bag.py:51-59 | the Oxum of the payload on disk |
| `RepairableBag.Bag.CheckBagInfo` | ami_bag/update_bag.py:39-44 | gives `FastValidation` of the bag's layout, its manifest files, its bag-info and its payload |
| `RepairableBag.FastValidationMeans` | ami_bag/update_bag.py:39-44 | raises iff the structure checks pass, an Oxum is recorded and it does not parse; true iff the structure checks pass and the recorded Oxum parses to the payload's byte and file counts |
| `RepairableBag.GeneratedOxumPasses` | ami_bag/update_bag.py:39-44 | an Oxum as `update_baginfo` writes it passes exactly when the structure checks pass |
| `RepairableBag.LeadingZeroOxumPasses` | ami_bag/update_bag.py:39-44 | an Oxum with a leading zero differs from the generated text and still passes: the counts are compared as numbers |
| `RepairableBag.StructureFirst` | ami_bag/update_bag.py:39-44 | a bag without a manifest file or with a broken layout is False whatever its Oxum |
| `RepairableBag.Bag.WriteTagManifests` | ami_bag/update_bag.py:77-78 | raises iff some algorithm's tag manifest cannot be written; on completion every tag manifest covers the current tag files |
| `RepairableBag.Bag.RecordUpdate` | ami_bag/update_bag.py:61-68 | the bag-info becomes `UpdatedInfo` of the old one |
| `RepairableBag.Bag.UpdateBagInfo` | ami_bag/update_bag.py:47-80 | returns False when bag-info cannot be written, raises when a tag manifest cannot, else writes the updated info and fresh tag manifests |
| `RepairableBag.Bag.AddPayloadFileToManifest` | ami_bag/update_bag.py:119-128 | a bag without algorithms raises UnboundLocalError (the file name is bound only in the loop) and a missing file raises; nothing changes then; otherwise its entry becomes exactly its digests and a new entry goes last in order |
| `RepairableBag.Bag.CopyManifestFiles` | ami_bag/update_bag.py:168-172 | completes iff every manifest can be backed up; then each algorithm's dated backup holds its manifest |
| `RepairableBag.Bag.RemoveFiles` | ami_bag/update_bag.py:155-160 | every listed file is removed except those that cannot be, and the loop goes on after a failure |
| `RepairableBag.RewrittenManifestContents` | ami_bag/update_bag.py:176-183 | a writable manifest is rewritten from the entries; the others are left as they were |
| `RepairableBag.AddEntries` | ami_bag/update_bag.py:106-107 | raises UnboundLocalError, changing nothing, iff there are untracked files and no algorithms; otherwise the entries are the old ones plus the digests of every untracked file, and the entry order is the old order followed by the files in the order visited |
| `RepairableBag.AppendFiring` | ami_bag/update_bag.py:141-143 | the inner loop appends the path once for every firing rule |
| `UpdateBag.DefaultRulesFire` | ami_bag/update_bag.py:9-26 | the default table marks a path iff it ends in Thumbs.db, .DS_Store, an AppleDouble name or an Icon name |
| `UpdateBag.DefaultRulesMarkAppleDouble` | ami_bag/update_bag.py:18-21 | `data/._.SYSTEMFILE.db\r` is marked by the default table |
| `UpdateBag.ThumbsDbMarked` | ami_bag/update_bag.py:10-13 | `data/Thumbs.db` is marked by the default table and by the single-rule table |
| `UpdateBag.EscapedRuleKeepsFile` | tests/test_update_bag.py:138-147 | a rule with a doubled backslash does not mark `data/._.SYSTEMFILE.db\r` |
| `UpdateBag.RewriteManifests` | ami_bag/update_bag.py:176-183 | every writable manifest is rewritten from the entries; an unwritable one is logged and skipped |
| `UpdateBag.RefreshTagManifests` | ami_bag/update_bag.py:185-189 | every writable tag manifest covers the current tag files; the others are unchanged |
| `UpdateBag.RewriteManifestFiles` | ami_bag/update_bag.py:175-189 | both loops in turn; no failure escapes |
| `UpdateBag.BackUpAndRewrite` | ami_bag/update_bag.py:109-114 | a failed backup stops before any rewrite; otherwise every writable manifest is rewritten, every writable tag manifest is regenerated over the rewritten manifests and backups, and the bag-info update then starts from those tag manifests |
| `UpdateBag.AddPayloadFilesNotInManifest` | ami_bag/update_bag.py:96-116 | nothing changes without untracked files; with untracked files and no algorithms the UnboundLocalError of the adding loop escapes the method and nothing changes; otherwise every untracked file gets its digests and is appended after the old entry order, and the manifests change only if the backups succeed, in which case the manifests, tag manifests and bag-info end as `BackUpAndRewrite` states |
| `UpdateBag.MarkFiles` | ami_bag/update_bag.py:137-145 | files to delete are the marked list; files to keep are exactly the untracked files no rule fires on |
| `UpdateBag.RemoveAndUpdate` | ami_bag/update_bag.py:152-163 | the listed files are removed; if something was listed, an error of `check_baginfo` escapes with the bag-info untouched, and the bag-info is updated only when `check_baginfo` is False |
| `UpdateBag.DeletePayloadFilesNotInManifest` | ami_bag/update_bag.py:131-165 | an empty rule table raises UnboundLocalError and changes nothing; otherwise the marked files are removed, the kept ones are exactly the untracked files no rule marks, an error of `check_baginfo` escapes, and a bag it finds invalid gets its bag-info updated |
| `LegacyUpdateBag.EscapedTableMissesSystemFiles` | update_bag.py:8-25 | on paths without a backslash the older table marks only Icon files |
| `LegacyUpdateBag.EscapedTableKeepsThumbsDb` | update_bag.py:9-12 | the older table does not mark `data/Thumbs.db` |
| `LegacyUpdateBag.RewriteManifestsOrRaise` | update_bag.py:162-166 | completes iff every manifest is writable and every entry has its digest; then all manifests are rewritten |
| `LegacyUpdateBag.RewriteManifestFiles` | update_bag.py:161-169 | completes iff every manifest and tag manifest can be written; a manifest failure leaves the tag manifests alone |
| `LegacyUpdateBag.AddPayloadFilesNotInManifest` | update_bag.py:91-106 | with untracked files and no algorithms it raises UnboundLocalError before any change; otherwise every untracked file gets its digests and is appended after the old entry order, the bag-info is updated first (KeyError without an Oxum), then the backups, then the rewrite |
| `LegacyUpdateBag.UpdateThenRewrite` | update_bag.py:102-104 | update, copy, rewrite in that order, the first failure escaping |
| `LegacyUpdateBag.MarkFiles` | update_bag.py:127-132 | files to delete are the marked list |
| `LegacyUpdateBag.UpdateAndRewrite` | update_bag.py:150-151 | the bag-info is updated whatever was removed, then the manifests are rewritten |
| `LegacyUpdateBag.FilesToDelete` | update_bag.py:125-134 | without rules every untracked file, with rules each marked file once per firing rule |
| `LegacyUpdateBag.DeletePayloadFilesNotInManifest` | update_bag.py:121-151 | the payload left is `AfterDeletion`; the bag-info is then updated and the manifests rewritten (in the source into the caller's directory, see "Left out") |
| `SheetGrid.Cell` | validate_ami_excel.py:134 | a cell exists iff the row exists and the column is within `-ncols..ncols-1` (negative columns wrap) |
| `SheetGrid.ScanLeft` | validate_ami_excel.py:154-161 | a found column is filled; a failed scan is IndexError |
| `SheetGrid.ScanLeftFinds` | validate_ami_excel.py:154-156 | the scan stops at the nearest filled cell at or left of the start, wrapping past column 0; it fails iff every cell down to `-ncols` is empty |
| `SheetGrid.ScanLeftWraps` | validate_ami_excel.py:154-156 | a scan that passes column 0 lands on the rightmost filled cell |
| `SheetGrid.NearestLeftFinds` | ami_md/ami_excel.py:159-167 | the nearest filled cell at or left of a column, or none iff all are empty |
| `SheetGrid.ScanLeftAsNearest` | ami_md/ami_excel.py:168-172 | the wrapping scan is the nearest filled cell to the left, or else the rightmost one |
| `SheetGrid.WrappedScan` | ami_md/ami_excel.py:170-172 | the scan from a negative column is the scan from its wrapped column |
| `SheetGrid.ScanRowLeft` | validate_ami_excel.py:154-156 | the `while not key` loop computes `ScanLeft` |
| `SheetGrid.FilledCellsMembers` | ami_md/ami_excel.py:118-126 | a header row holds exactly the non-empty cell texts of the row |
| `SheetGrid.RemoveAnnoying` | ami_md/ami_excel.py:427-445 | raises KeyError exactly when the relaxation removes a value not expected; otherwise keeps every other expected value, and the relaxed set is found iff everything is found with either value of the pair sufficing |
| `SheetGrid.MissingItems` | ami_md/ami_excel.py:463-467 | exactly the expected values not found |
| `SheetGrid.CheckRequired` | ami_md/ami_excel.py:461-473 | raises iff the relaxation raises; passes iff all is found, either of the pair sufficing |
| `AmiExcel.HeaderRow` | ami_md/ami_excel.py:108-126 | the non-empty texts of the row, in column order |
| `AmiExcel.HeaderEntryKeys` | ami_md/ami_excel.py:155-174 | bottom key is the row-2 cell; middle key the nearest filled row-1 cell at or left, or `""`; top key the nearest filled row-0 cell |
| `AmiExcel.HeaderEntryRaises` | ami_md/ami_excel.py:157-172 | reading a triple raises iff the sheet has fewer than three rows or an empty first row |
| `AmiExcel.ScanMiddleKey` | ami_md/ami_excel.py:159-167 | the middle-key loop gives up at column 0 with `""` |
| `AmiExcel.HeaderEntry` | ami_md/ami_excel.py:145-180 | the loop computes the triple, including the reference-filename triple for column 0 |
| `AmiExcel.HeaderEntries` | ami_md/ami_excel.py:129-142 | one triple per column in order; raises iff one column raises |
| `AmiExcel.NormalizedTextClean` | ami_md/ami_excel.py:196-203 | the lookup text has no newline and no surrounding whitespace |
| `AmiExcel.NormalizedHeaderEntries` | ami_md/ami_excel.py:183-221 | one converted name per triple; KeyError iff a lookup text is not in the conversion table |
| `AmiExcel.LoadedSheet` | ami_md/ami_excel.py:89-100 | a loaded sheet holds the three header rows, one triple per column, and their converted names |
| `AmiExcel.LoadSheet` | ami_md/ami_excel.py:89-100 | loading succeeds iff no row, triple or lookup raises, and then gives `LoadedSheet`; a failure is IndexError when a header row or triple is missing, else KeyError from the lookup |
| `AmiExcel.SelectFromSucceeds` | ami_md/ami_excel.py:46-61 | opening succeeds iff at most one preservation and one edit sheet, each loading |
| `AmiExcel.SelectFromSlots` | ami_md/ami_excel.py:46-61 | a chosen sheet is loaded from a sheet of its kind |
| `AmiExcel.SelectFromFills` | ami_md/ami_excel.py:46-61 | a slot is filled iff the workbook has a sheet of that kind |
| `AmiExcel.OpenWorkbook` | ami_md/ami_excel.py:27-61 | the constructor's loop gives exactly `SelectFrom`, error text included |
| `AmiExcel.CheckNoEquations` | ami_md/ami_excel.py:511-530 | fails iff some cell in rows 1-4, columns 1 to n-1 (openpyxl numbering), read in the formula view, holds a formula |
| `AmiExcel.CheckHeaderRow` | ami_md/ami_excel.py:448-473 | raises iff the relaxation raises; passes iff every expected header is found, Barcode or object identifier sufficing |
| `AmiExcel.CheckHeaderEntries` | ami_md/ami_excel.py:476-502 | the same for header triples |
| `AmiExcel.CheckRefFilenameHeader` | ami_md/ami_excel.py:504-508 | passes iff the top row names the reference-filename column |
| `AmiExcel.CheckLevels` | ami_md/ami_excel.py:390-398 | raises iff some level's relaxation raises; otherwise valid iff all three levels pass |
| `AmiExcel.ValidateWorksheet` | ami_md/ami_excel.py:383-424 | raises iff a relaxation raises; otherwise valid iff the levels, triples, reference column and formula check all pass |
| `AmiExcel.ValidateWorkbook` | ami_md/ami_excel.py:69-85 | no preservation sheet raises AttributeError; otherwise the sheet's verdict |
| `LegacyExcel.ProfileLevelMembers` | validate_ami_excel.py:64-78 | a level's expected set holds exactly the profile's non-empty items at that level |
| `LegacyExcel.FirstPresSheetIsFirst` | validate_ami_excel.py:102-111 | none iff no sheet name starts with "preservation" or "files"; otherwise the first such sheet |
| `LegacyExcel.LowerAll` | validate_ami_excel.py:137 | each header lower-cased, in order |
| `LegacyExcel.LowerAllMembers` | validate_ami_excel.py:132-139 | a lower-cased list holds exactly the lower-cased originals |
| `LegacyExcel.HeaderRowLowerMembers` | validate_ami_excel.py:128-139 | raises iff the row is missing in a sheet with columns; otherwise exactly the lower-cased non-empty cells |
| `LegacyExcel.ParseHeaderRow` | validate_ami_excel.py:128-139 | the loop computes `HeaderRowLower` |
| `LegacyExcel.HierarchyEntryKeys` | validate_ami_excel.py:150-162 | the triple is the lower-cased bottom cell, the nearest middle cell to its left and the nearest top cell to that one's left |
| `LegacyExcel.HierarchyEntryEmpty` | validate_ami_excel.py:150-151 | an empty bottom cell adds nothing; a sheet without a third row raises |
| `LegacyExcel.HierarchyEntryTotal` | validate_ami_excel.py:152-161 | with a filled middle and top cell to the left the scans succeed without wrapping |
| `LegacyExcel.HierarchyRaises` | validate_ami_excel.py:142-164 | the hierarchy raises IndexError iff some column raises |
| `LegacyExcel.HierarchyContents` | validate_ami_excel.py:142-164 | the hierarchy holds exactly the triples of the columns with a bottom cell |
| `LegacyExcel.ParseHeaderHierarchy` | validate_ami_excel.py:142-164 | the loop computes `HierarchyUpTo` over all columns |
| `LegacyExcel.ParsedHeadersShape` | validate_ami_excel.py:115-125 | no columns, or fewer than three rows, raises; success gives the three rows and the hierarchy, with the reference triple appended when A1 names it |
| `LegacyExcel.CheckHeadersExist` | validate_ami_excel.py:182-201 | raises iff the relaxation raises; passes iff all headers found, either of the pair sufficing |
| `LegacyExcel.CheckHeadersHierarchy` | validate_ami_excel.py:204-223 | the same for triples |
| `LegacyExcel.PairNeverAbove` | validate_ami_excel.py:14-17 | the barcode and object-identifier names appear only as bottom items of the profile |
| `LegacyExcel.PairPlacement` | validate_ami_excel.py:64-83 | for any profile placing the pair at the bottom only, the pair is in level 2 and not in levels 0 and 1 |
| `LegacyExcel.PairOnlyAtBottom` | validate_ami_excel.py:64-85 | the pair is in the third level's expected set, not in the first two, and both triples are in the profile |
| `LegacyExcel.NeitherExpected` | validate_ami_excel.py:167-179 | if neither value of the pair is expected, the relaxation never raises and changes nothing |
| `LegacyExcel.BothExpected` | validate_ami_excel.py:167-179 | if both values are expected, the relaxation never raises |
| `LegacyExcel.ProfileNeverRaises` | validate_ami_excel.py:63-88 | with the built-in profile none of the four relaxations raises |
| `LegacyExcel.UpperLevelsNotRelaxed` | validate_ami_excel.py:63-76 | the first two levels pass iff every expected heading is found |
| `LegacyExcel.CheckNoEquations` | validate_ami_excel.py:226-240 | fails iff some cell of row 4, columns 1 to ncols-1, read in the formula view, holds a formula |
| `LegacyExcel.CheckHeaderLevels` | validate_ami_excel.py:63-88 | valid iff all four header checks pass |
| `LegacyExcel.ValidationErrors` | validate_ami_excel.py:52-94 | `validate` raises only for an unreadable workbook, a missing preservation sheet (AttributeError on the unset header list), or IndexError while parsing |
| `LegacyExcel.ValidatedMeans` | validate_ami_excel.py:52-94 | a validated workbook covers every profile heading and triple (one of the pair) and has no formula in row 4 |
| `LegacyExcel.HeadersValidCover` | validate_ami_excel.py:63-88 | passing the four header checks means covering the profile |
| `LegacyExcel.PairInProfile` | validate_ami_excel.py:14-17 | both triples of the pair are profile entries |
| `LegacyExcel.ProfileMiddlesNamed` | validate_ami_excel.py:8-31 | no profile entry has an empty middle heading |
| `LegacyExcel.UpperLevelsMean` | validate_ami_excel.py:63-76 | passing the first two levels puts every profile top and middle heading in the parsed rows |
| `LegacyExcel.HierarchyValidMeans` | validate_ami_excel.py:204-223 | passing the relaxed triple check puts every other profile triple, and one of the pair, in the hierarchy |
| `LegacyExcel.LegacyWorkbook.constructor` | validate_ami_excel.py:41-50 | the workbook is kept and no header list is set |
| `LegacyExcel.LegacyWorkbook.ParseHeaders` | validate_ami_excel.py:115-125 | gives `ParsedHeaders`; each list is set as soon as it is read |
| `LegacyExcel.LegacyWorkbook.CheckSheets` | validate_ami_excel.py:96-113 | no workbook raises AttributeError; no preservation sheet fails; otherwise the first one is parsed |
| `LegacyExcel.LegacyWorkbook.Validate` | validate_ami_excel.py:52-94 | the result is `Validation` of the workbook |
| `AmiJson.SplitFirstDot` | ami_md/ami_json.py:48 | the head, a dot and the rest give back the key, and the head has no dot |
| `AmiJson.Path` | ami_md/ami_json.py:47-53 | a key's path is never empty |
| `AmiJson.InsertFails` | ami_md/ami_json.py:36-55 | inserting raises TypeError iff a value already sits on a proper prefix of the path |
| `AmiJson.InsertReaches` | ami_md/ami_json.py:36-55 | after inserting, the path leads to the value |
| `AmiJson.InsertFrame` | ami_md/ami_json.py:36-55 | paths neither prefix nor extension of the key are unchanged |
| `AmiJson.NestFlatDict` | ami_md/ami_json.py:27-31 | the loop computes `Nest` |
| `AmiJson.NestFailureSticks` | ami_md/ami_json.py:28-31 | once an insertion raises, later items do not matter |
| `AmiJson.NestKeeps` | ami_md/ami_json.py:28-31 | an item whose path no later item overlaps can be read back |
| `AmiJson.FromFlatDict` | ami_md/ami_json.py:27-33 | an empty dict leaves no tree; otherwise the nested tree or the TypeError |
| `MoveTags.FindFilesToMove` | bin/move_tags.py:60-68 | the loop gives `TagFiles` |
| `MoveTags.SelectedCount` | bin/move_tags.py:64-66 | a path is listed (joined to the bag path) once per selecting rule |
| `MoveTags.SelectedAny` | bin/move_tags.py:64-66 | a path is listed iff some rule selects it |
| `MoveTags.TagFilesMembers` | bin/move_tags.py:60-68 | the tag files are exactly the joined payload paths some rule selects |
| `MoveTags.SelectCountOfFour` | bin/move_tags.py:12-29 | the count over the four rules is the sum of the four tests |
| `MoveTags.TagPatternsExclusive` | bin/move_tags.py:12-29 | with the built-in table a path is selected once if it is a tag file, else never |
| `MoveTags.TagFilesWithTable` | bin/move_tags.py:60-68 | with the built-in table each tag file is listed exactly once |
| `MoveTags.CollectBags` | bin/move_tags.py:79-89 | the walked six-digit directories, then the explicit bag paths |
| `MoveTags.SixDigitChildrenMembers` | bin/move_tags.py:82-85 | a directory is collected iff its name is six digits |
| `SortBags.LabelsAsWritten` | sort_bags.py:78-97 | each kind of bag is written with its own text, so a report line names one kind, and each text is the script's, e.g. "DVD bag" and "DVD and video bag" |
| `SortBags.ExtensionsAt` | sort_bags.py:31 | one extension per file: the text after its last dot |
| `SortBags.TallyCount` | sort_bags.py:32 | an extension is a key iff present, and its value is its count |
| `SortBags.TallyTotal` | sort_bags.py:32 | the counts add up to the number of files |
| `SortBags.FiletypesCount` | sort_bags.py:30-34 | each key is some file's extension with count at least one; the counts add up to the file count |
| `SortBags.Delimiter` | sort_bags.py:40-45 | the delimiter is a space or a tab |
| `SortBags.DelimiterChoice` | sort_bags.py:37-45 | tab iff the header has a tab and no space |
| `SortBags.LastFieldIsPath` | sort_bags.py:21 | the last field of a manifest line is its path when the path has no delimiter |
| `SortBags.ParseBagContents` | sort_bags.py:10-27 | the loop gives `BagSummary`: a missing manifest raises, otherwise the extension counts of the last fields |
| `SortBags.NotSureUnreachable` | sort_bags.py:78-97 | "Not sure" is never reported |
| `SortBags.OneSheetOneKind` | sort_bags.py:82-90 | one workbook and one other kind gives born-digital, audio, DVD or video, or no verdict for any other kind |
| `SortBags.NotABagMeansEmpty` | sort_bags.py:78-79 | "Not a bag" iff the summary is empty |
| `SortBags.NotABagIffEmpty` | sort_bags.py:18-25 | "Not a bag" iff the manifest has no lines |
| `SortBags.Summarised` | sort_bags.py:75-76 | one summary per bag, with its base name |
| `SortBags.SortedRows` | sort_bags.py:74-99 | one row per bag, named after it, with its own verdict when the decision reaches one |
| `SortBags.SortedReusesStale` | sort_bags.py:82-90 | a bag that no branch decides gets the previous bag's verdict |
| `SortBags.FirstUndecidedRaises` | sort_bags.py:74-99 | a first bag that no branch decides raises UnboundLocalError |
| `SortBags.SortBagsMain` | sort_bags.py:58-99 | a bag path argument raises AttributeError; otherwise the loop gives `Sorted` |
| `GetRepoFile.ValidateObject` | bin/get_repo_file.py:15-19 | accepted iff lower-case letters and digits only, returned unchanged; otherwise ArgumentTypeError |
| `GetRepoFile.ValidObjectHasNoSpace` | bin/get_repo_file.py:15-17 | an accepted id is non-empty and has no space |
| `GetRepoFile.ValidateObjectExamples` | bin/get_repo_file.py:15-17 | "ncow421" and "234567" are accepted, "ncow 421" refused |
| `GetRepoFile.ExtractId` | bin/get_repo_file.py:66-71 | none iff the name has no `_`; the id has no `_` |
| `GetRepoFile.ExtractIdLast` | bin/get_repo_file.py:66-71 | `prefix_id` gives the id |
| `GetRepoFile.ExtractIdField` | bin/get_repo_file.py:66-71 | `prefix_id_rest` gives the id |
| `GetRepoFile.ExtractIdExamples` | bin/test_get_repo_file.py:67-73 | "myt_ncow421_pm" gives "ncow421"; "mytncow421pm" gives none |
| `GetRepoFile.GetUuidPath` | bin/get_repo_file.py:108-117 | raises ValueError iff not five dash-separated groups; otherwise ten components ending with the UUID |
| `GetRepoFile.SplitCanonical` | bin/get_repo_file.py:109 | a canonical UUID splits into its five groups |
| `GetRepoFile.DashedSlices` | bin/get_repo_file.py:112-116 | a canonical UUID has 36 characters and each group at its fixed offset |
| `GetRepoFile.UuidPathLayout` | bin/get_repo_file.py:108-117 | the nine directories are the fixed slices of the groups, then the UUID |
| `GetRepoFile.UuidPathComponents` | bin/get_repo_file.py:112-117 | every directory of a canonical UUID's path is non-empty and has no `/` |
| `GetRepoFile.UuidPathExample` | bin/test_get_repo_file.py:18-24 | the test UUID maps to `12/1234/5678/3124/2314/1234/1234/5697/81` then the UUID |
| `GetRepoFile.UndashedUuidRaises` | bin/test_get_repo_file.py:103-108 | a UUID without dashes raises ValueError |
| `GetRepoFile.GroupedMeans` | bin/get_repo_file.py:81-88 | an id is a key iff some row has it, and its value is exactly those rows in order |
| `GetRepoFile.GroupedKeepsRows` | bin/get_repo_file.py:81-88 | every row lands under its own id |
| `GetRepoFile.ParseAssets` | bin/get_repo_file.py:74-90 | no header row raises TypeError, a header without name or uuid ValueError; otherwise the rows grouped by id |
| `GetRepoFile.Entries` | bin/get_repo_file.py:96-103 | one entry per row: the object id, the row's name and uuid |
| `GetRepoFile.GetObjectEntries` | bin/get_repo_file.py:93-105 | an unknown id gives no entries; otherwise the entries of its rows |
| `GetRepoFile.EntriesOfObject` | bin/get_repo_file.py:93-105 | the entries are exactly those of the rows whose name carries the id |

## Left out

- The internals of bagit are not modelled: hashing, `_encode_filename`, the tag-file writers and
  the full `validate` used by the classifiers. Bag validity, the digest function and the name
  encoding are parameters. Of the fast validation behind `check_baginfo`, the manifest-file test,
  the Payload-Oxum presence test and the Oxum reading are modelled. The directory-layout checks
  (payload directory, `bagit.txt` and its byte-order mark) are one input. The checks of
  `fetch.txt` are not modelled, nor is a Payload-Oxum given twice, since bag-info is a map. The premis and
  `update_hashes` parts of `Repairable_Bag` are not part of this model.
- The file system is not modelled. Directory listings and `os.walk` are inputs. The payload is a
  map from path to content. `os.remove`, `shutil.copyfile` and `open(..., 'w')` failures are sets
  of locked or undeletable names. The current directory (`os.chdir`) and `abspath` are left out.
- `LegacyUpdateBag.DeletePayloadFilesNotInManifest` rewrites the bag's manifests in the model. The
  source changes back to the caller's directory (update_bag.py:148) before
  `rewrite_manifest_files`, which opens its manifests by relative name (update_bag.py:163), so it
  writes them into the caller's directory.
- The date used by the repair engines is a parameter (`today`).
- `SortBags.SortBagsMain`: its last step, writing the rows to `bagtypes.csv`, is not modelled. That file is
  opened in binary mode (`"wb"`, sort_bags.py:101-103), so under Python 3 `writerows` raises TypeError
  once there is a row, and `main` does not finish normally on a non-empty directory; the model
  returns the rows instead.
- Logging and printing are left out, and so are the moves of
  `move_tags`, and `run_rsync` and `main` of `get_repo_file`.
- Opening a workbook is left out. A sheet is two grids of cell texts: the values xlrd reads, and
  the formulas openpyxl reads. The model does not relate a formula to its computed value. Non-string cell values, dates
  and the pandas data frame (`normalize_sheet_values`, the CSV and JSON conversions, `map_*`,
  `add_PMDataToEM`) are not modelled.
- `HEADER_CONVERSION` and the Media Ingest header list are parameters of the packaged sheet
  validator, because their constants module is not part of this model.
- `lower()`, `\w` and `\d` are ASCII only. Unicode case mapping and Unicode word characters are
  not modelled.
- `splitlines` is modelled as splitting at newlines only.
- `parse_bagcontents` has an `except` that returns `{}` when reading fails after the delimiter was
  detected. That path is not modelled, because the model reads the manifest once.
- `GetRepoFile.GetObjectEntries` follows the code and returns an empty list for an unknown id. The
  repository's test expects `None` there.
- `GetRepoFile.ParseAssets` requires every row to carry every header field. The ragged rows of
  `csv.DictReader` (short rows filled with `None`, extra fields under `None`) are not modelled.
- `GetRepoFile.GetUuidPath` returns the list of path components. `pathlib` normalisation of
  empty or unusual components is not modelled.
- `AmiJson.FromFlatDict` treats every value as a leaf. A value that is itself a dict is not merged,
  and the aliasing between the returned tree and the nested dicts is not modelled.
- `BagPaths.FilenamesCheck` and `BagPaths.DepthCheck` fail with the text of the bag error but
  without the Python list of offending names that the source appends to it.
- `SortBags.SortBagsMain` reports a `Verdict`, whose `Label` is the text the script writes.
- The excel-to-JSON conversion of `ami_bag` (`add_json_from_excel`) is left out, because it writes
  files through the data frame.

## Findings

| source | as written | input that shows it | evidently intended | confidence | as-written member | corrected member |
|---|---|---|---|---|---|---|
| update_bag.py:8-20 | the raw strings `r"[Tt]humbs\\.db$"`, `r"\\.DS_Store$"` and `r"\\._.+$"` double the backslash, so each pattern needs a literal backslash in the path | `data/Thumbs.db` is not marked | mark Thumbs.db, .DS_Store and AppleDouble files, as the packaged table at ami_bag/update_bag.py:9-26 does | not executed; the older `delete_payload_files_not_in_manifest` defaults to `rules=None`, so the table is only used when passed explicitly | `LegacyUpdateBag.EscapedTableKeepsThumbsDb` | `UpdateBag.ThumbsDbMarked` |
