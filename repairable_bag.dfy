/**
 * The state of a bag under repair and the operations that both versions of `Repairable_Bag`
 * share line for line. The file system is modelled as maps: the payload (path to content),
 * the text of each manifest, the backups, `bag-info.txt`, and the tag manifests.
 */
module RepairableBag {
  import opened Wrappers
  import opened Text
  import opened Sums
  import opened Fixity

  const BAG_INFO := "bag-info.txt"
  const FILENAME_UNBOUND := "UnboundLocalError: local variable 'filename' referenced before assignment"

  function ManifestName(alg: string): string { "manifest-" + alg + ".txt" }

  function BackupName(alg: string, today: string): string { "manifest-" + alg + "-" + today + ".txt.old" }

  function TagManifestName(alg: string): string { "tagmanifest-" + alg + ".txt" }

  /** Backups of different algorithms taken the same day do not overwrite each other. */
  lemma BackupNameInjective(a1: string, a2: string, today: string)
    requires BackupName(a1, today) == BackupName(a2, today)
    ensures a1 == a2
  {
    var n1, n2 := BackupName(a1, today), BackupName(a2, today);
    assert |a1| == |a2|;
    assert a1 == n1[9..9 + |a1|] && a2 == n2[9..9 + |a2|];
  }

  /** The sizes of the payload files in `done`. */
  ghost function SizesOf(disk: map<string, seq<int>>, done: set<string>): map<string, nat>
  {
    map q | q in done && q in disk :: |disk[q]|
  }

  lemma SizesStep(disk: map<string, seq<int>>, done: set<string>, p: string)
    requires p in disk && p !in done
    ensures SumValues(SizesOf(disk, done + {p})) == SumValues(SizesOf(disk, done)) + |disk[p]|
    ensures |done + {p}| == |done| + 1
  {
    assert SizesOf(disk, done + {p}) == SizesOf(disk, done)[p := |disk[p]|];
    SumValuesUpdate(SizesOf(disk, done), p, |disk[p]|);
  }

  lemma SizesAll(disk: map<string, seq<int>>)
    ensures SizesOf(disk, disk.Keys) == PayloadSizes(disk) && |disk.Keys| == |disk|
  {
  }

  /** The loop of `update_baginfo` that adds up the size of every payload file and counts them. */
  method PayloadTotals(disk: map<string, seq<int>>) returns (totalBytes: int, totalFiles: int)
    ensures totalBytes == SumValues(PayloadSizes(disk)) && totalFiles == |disk|
  {
    totalBytes, totalFiles := 0, 0;
    var rest := disk.Keys;
    ghost var done: set<string> := {};
    while rest != {}
      invariant done <= disk.Keys && rest == disk.Keys - done
      invariant totalBytes == SumValues(SizesOf(disk, done)) && totalFiles == |done|
      decreases rest
    {
      var p :| p in rest;
      SizesStep(disk, done, p);
      totalBytes := totalBytes + |disk[p]|;
      totalFiles := totalFiles + 1;
      done := done + {p};
      rest := rest - {p};
    }
    assert done == disk.Keys;
    SizesAll(disk);
  }

  /** The tag files a tag manifest covers, as they were when it was written. */
  datatype TagFiles = TagFiles(bagInfo: map<string, string>, manifests: map<string, seq<string>>,
                               backups: map<string, seq<string>>)

  class Bag {
    /** `bag.info`: the key/value pairs of bag-info.txt, as held in memory. */
    var info: map<string, string>
    /** `bag.entries`: payload path to algorithm to digest, and the order of the dict. */
    var entries: map<string, map<string, string>>
    var entryOrder: seq<string>
    const algs: seq<string>
    /** The payload files under `data/` and their contents. */
    var disk: map<string, seq<int>>
    var bagInfoFile: map<string, string>
    var manifests: map<string, seq<string>>
    var backups: map<string, seq<string>>
    var tagManifests: map<string, TagFiles>
    /** Names of tag files that cannot be written. */
    const locked: set<string>
    /** Payload paths that `os.remove` fails on. */
    const undeletable: set<string>
    /** The digest of a content under an algorithm (bagit's `_manifest_line`). */
    const hash: (string, seq<int>) -> string
    /** bagit's `_encode_filename` */
    const encode: string -> string
    /**
     * The structure checks of bagit's `validate` that look at the directory rather than at this
     * state: the payload directory and `bagit.txt` exist, and `bagit.txt` has no byte-order mark.
     */
    const layoutValid: bool

    /** `entryOrder` lists each key of `entries` once. */
    ghost predicate Valid()
      reads `entryOrder, `entries
    {
      (forall i, j :: 0 <= i < j < |entryOrder| ==> entryOrder[i] != entryOrder[j])
      && forall p :: p in entries <==> p in entryOrder
    }

    constructor (info: map<string, string>, entries: map<string, map<string, string>>, entryOrder: seq<string>,
                 algs: seq<string>, disk: map<string, seq<int>>, manifests: map<string, seq<string>>,
                 tagManifests: map<string, TagFiles>, locked: set<string>, undeletable: set<string>,
                 hash: (string, seq<int>) -> string, encode: string -> string, layoutValid: bool)
      requires forall i, j :: 0 <= i < j < |entryOrder| ==> entryOrder[i] != entryOrder[j]
      requires forall p :: p in entries <==> p in entryOrder
      ensures Valid()
      ensures this.info == info && this.entries == entries && this.entryOrder == entryOrder && this.algs == algs
      ensures this.disk == disk && this.bagInfoFile == info && this.manifests == manifests && this.backups == map[]
      ensures this.tagManifests == tagManifests && this.locked == locked && this.undeletable == undeletable
      ensures this.hash == hash && this.encode == encode && this.layoutValid == layoutValid
    {
      this.info := info;
      this.entries := entries;
      this.entryOrder := entryOrder;
      this.algs := algs;
      this.disk := disk;
      this.bagInfoFile := info;
      this.manifests := manifests;
      this.backups := map[];
      this.tagManifests := tagManifests;
      this.locked := locked;
      this.undeletable := undeletable;
      this.hash := hash;
      this.encode := encode;
      this.layoutValid := layoutValid;
    }

    /** The payload files that no manifest entry covers. */
    function Untracked(): set<string>
      reads `disk, `entries
    {
      disk.Keys - entries.Keys
    }

    /** What a tag manifest written now would cover. */
    function TagSnapshot(): TagFiles
      reads `bagInfoFile, `manifests, `backups
    {
      TagFiles(bagInfoFile, manifests, backups)
    }

    /** The digests `add_payload_file_to_manifest` records: one per distinct algorithm. */
    function Digests(content: seq<int>): (d: map<string, string>)
      ensures d.Keys == set a | a in algs
      ensures forall a :: a in d ==> d[a] == hash(a, content)
    {
      map a | a in algs :: hash(a, content)
    }

    /** The text of each manifest, as `rewrite_manifest_files` would write it now. */
    function CurrentManifest(alg: string): seq<string>
      reads `entryOrder, `entries
    {
      ManifestLines(entryOrder, entries, alg, encode)
    }

    /** The tag manifest of every algorithm covers the current tag files. */
    ghost predicate TagsFresh()
      reads `tagManifests, `bagInfoFile, `manifests, `backups
    {
      forall a :: a in algs ==> a in tagManifests && tagManifests[a] == TagSnapshot()
    }

    /** Each tag manifest is either as it was in `tags0` or freshly written for one of the algorithms. */
    ghost predicate TagsFromOrFresh(tags0: map<string, TagFiles>)
      reads `tagManifests, `bagInfoFile, `manifests, `backups
    {
      tags0.Keys <= tagManifests.Keys
      && forall a :: a in tagManifests ==>
        (a in tags0 && tagManifests[a] == tags0[a])
        || (a in algs && TagManifestName(a) !in locked && tagManifests[a] == TagSnapshot())
    }

    /**
     * The state `update_baginfo` leaves, from `info0`, `file0` and `tags0` before it: it raises
     * `KeyError` without a `Payload-Oxum`; it returns false, after updating the info in memory,
     * when bag-info.txt cannot be written; otherwise it writes bag-info.txt and then one tag
     * manifest per distinct algorithm, raising at the first one that cannot be written.
     */
    ghost predicate BagInfoUpdated(info0: map<string, string>, file0: map<string, string>,
                                   tags0: map<string, TagFiles>, message: string, today: string, r: Result<bool>)
      reads `info, `bagInfoFile, `tagManifests, `disk, `manifests, `backups
    {
      if PAYLOAD_OXUM !in info0 then
        r.Failure? && info == info0 && bagInfoFile == file0 && tagManifests == tags0
      else
        info == UpdatedInfo(info0, GeneratedOxum(disk), message, today)
        && if BAG_INFO in locked then
          r == Success(false) && bagInfoFile == file0 && tagManifests == tags0
        else
          bagInfoFile == info
          && (r.Failure? <==> exists a :: a in algs && TagManifestName(a) in locked)
          && (r.Success? ==> r.value && TagsFresh())
          && TagsFromOrFresh(tags0)
    }

    /** `payload_files_not_in_manifest`: the untracked payload files, each once, in file-system order. */
    method PayloadFilesNotInManifest() returns (files: seq<string>)
      ensures forall f :: f in files <==> f in Untracked()
      ensures forall i, j :: 0 <= i < j < |files| ==> files[i] != files[j]
    {
      files := [];
      var untracked := Untracked();
      var rest := untracked;
      while rest != {}
        invariant rest <= untracked
        invariant forall f :: f in files <==> f in untracked && f !in rest
        invariant forall i, j :: 0 <= i < j < |files| ==> files[i] != files[j]
        decreases rest
      {
        var f :| f in rest;
        assert f !in files;
        files := files + [f];
        rest := rest - {f};
      }
    }

    /** The loop of `update_baginfo` over the payload, formatted as an Oxum. */
    method GenerateOxum() returns (oxum: string)
      ensures oxum == GeneratedOxum(disk)
    {
      var totalBytes, totalFiles := PayloadTotals(disk);
      oxum := Oxum(totalBytes, totalFiles);
    }

    /** bagit's `manifest_files` finds a file: some algorithm of the bag has its payload manifest. */
    predicate HasManifestFile()
      reads `manifests
    {
      exists a :: a in algs && a in manifests
    }

    /**
     * `check_baginfo`: bagit's `validate(fast = True)`, of whose failures only BagValidationError
     * is caught (as False). The structure checks come first; then the bag-info must carry an
     * Oxum, which is read and compared, as numbers, with the payload's totals. A malformed
     * Oxum raises an error that escapes.
     */
    method CheckBagInfo() returns (r: Result<bool>)
      ensures r == FastValidation(layoutValid, HasManifestFile(), info, disk)
    {
      if !layoutValid || !HasManifestFile() || PAYLOAD_OXUM !in info {
        return Success(false);
      }
      var recorded := ReadOxum(info[PAYLOAD_OXUM]);
      if recorded.Failure? {
        return Failure(recorded.error);
      }
      var totalBytes, totalFiles := PayloadTotals(disk);
      return Success(recorded.value == (totalBytes, totalFiles));
    }

    /** `for alg in set(self.algs): bagit._make_tagmanifest_file(alg, self.path)`, where a failure escapes. */
    method WriteTagManifests() returns (st: Status)
      modifies `tagManifests
      ensures st.Raised? <==> exists a :: a in algs && TagManifestName(a) in locked
      ensures st.Completed? ==> TagsFresh()
      ensures TagsFromOrFresh(old(tagManifests))
    {
      var rest := set a | a in algs;
      while rest != {}
        invariant rest <= set a | a in algs
        invariant forall a :: a in algs && a !in rest ==> TagManifestName(a) !in locked
        invariant forall a :: a in algs && a !in rest ==> a in tagManifests && tagManifests[a] == TagSnapshot()
        invariant TagsFromOrFresh(old(tagManifests))
        decreases rest
      {
        var a :| a in rest;
        if TagManifestName(a) in locked {
          return Raised("cannot write " + TagManifestName(a));
        }
        tagManifests := tagManifests[a := TagSnapshot()];
        rest := rest - {a};
      }
      return Completed;
    }

    /** The in-memory part of `update_baginfo`: the new Oxum, the old one, the message and the date. */
    method RecordUpdate(generated: string, message: string, today: string)
      requires PAYLOAD_OXUM in info
      modifies `info
      ensures info == UpdatedInfo(old(info), generated, message, today)
    {
      BagInfoKeysDistinct(today);
      if info[PAYLOAD_OXUM] != generated {
        info := info[OxumBeforeKey(today) := info[PAYLOAD_OXUM]];
        info := info[MOST_RECENT_UPDATE_DATE := today];
        info := info[PAYLOAD_OXUM := generated];
      }
      if message != "" {
        info := info[UpdateMessageKey(today) := message];
        info := info[MOST_RECENT_UPDATE_DATE := today];
      }
    }

    /** `update_baginfo(message)`, dated `today`; an empty message stands for none. */
    method UpdateBagInfo(message: string, today: string) returns (r: Result<bool>)
      modifies `info, `bagInfoFile, `tagManifests
      ensures BagInfoUpdated(old(info), old(bagInfoFile), old(tagManifests), message, today, r)
    {
      var generated := GenerateOxum();
      if PAYLOAD_OXUM !in info {
        return Failure("KeyError: 'Payload-Oxum'");
      }
      RecordUpdate(generated, message, today);
      if BAG_INFO in locked {
        return Success(false);
      }
      bagInfoFile := info;
      var st := WriteTagManifests();
      if st.Raised? {
        return Failure(st.error);
      }
      return Success(true);
    }

    /**
     * `add_payload_file_to_manifest`: the entry of `path` becomes exactly its digests, one per distinct
     * algorithm. The file name is bound only inside the loop over the algorithms, so a bag without
     * algorithms raises UnboundLocalError before the file is ever read.
     */
    method AddPayloadFileToManifest(path: string) returns (st: Status)
      requires Valid()
      modifies `entries, `entryOrder
      ensures Valid()
      ensures st.Raised? <==> algs == [] || path !in disk
      ensures algs == [] ==> st == Raised(FILENAME_UNBOUND)
      ensures st.Raised? ==> entries == old(entries) && entryOrder == old(entryOrder)
      ensures st.Completed? ==> entries == old(entries)[path := Digests(disk[path])]
      ensures st.Completed? ==> entryOrder == if path in old(entries) then old(entryOrder) else old(entryOrder) + [path]
    {
      if |algs| == 0 {
        return Raised(FILENAME_UNBOUND);
      }
      if path !in disk {
        return Raised("FileNotFoundError: " + path);
      }
      var stuff: map<string, string> := map[];
      var rest := set a | a in algs;
      while rest != {}
        invariant rest <= set a | a in algs
        invariant stuff == map a | a in (set a | a in algs) - rest :: hash(a, disk[path])
        decreases rest
      {
        var a :| a in rest;
        stuff := stuff[a := hash(a, disk[path])];
        rest := rest - {a};
      }
      assert stuff == Digests(disk[path]);
      if path !in entries {
        entryOrder := entryOrder + [path];
      }
      entries := entries[path := stuff];
      return Completed;
    }

    /** The backups `copy_manifest_files` takes all succeed: every manifest exists and every backup name is writable. */
    predicate CanBackUp(today: string)
      reads `manifests
    {
      forall a :: a in algs ==> a in manifests && BackupName(a, today) !in locked
    }

    /** `copy_manifest_files`: each manifest, in algorithm order, is copied to its dated backup; a failed copy escapes. */
    method CopyManifestFiles(today: string) returns (st: Status)
      modifies `backups
      ensures st.Completed? <==> CanBackUp(today)
      ensures st.Completed? ==> forall a :: a in algs ==>
        BackupName(a, today) in backups && backups[BackupName(a, today)] == manifests[a]
      ensures forall n :: n in backups ==>
        (n in old(backups) && backups[n] == old(backups)[n])
        || exists a :: a in algs && a in manifests && n == BackupName(a, today) && backups[n] == manifests[a]
      ensures old(backups).Keys <= backups.Keys
    {
      for i := 0 to |algs|
        invariant forall k :: 0 <= k < i ==> algs[k] in manifests && BackupName(algs[k], today) !in locked
        invariant forall k :: 0 <= k < i ==>
          BackupName(algs[k], today) in backups && backups[BackupName(algs[k], today)] == manifests[algs[k]]
        invariant forall n :: n in backups ==>
          (n in old(backups) && backups[n] == old(backups)[n])
          || exists a :: a in algs && a in manifests && n == BackupName(a, today) && backups[n] == manifests[a]
        invariant old(backups).Keys <= backups.Keys
      {
        var a := algs[i];
        if a !in manifests || BackupName(a, today) in locked {
          return Raised("cannot copy " + ManifestName(a));
        }
        forall k | 0 <= k < i && BackupName(algs[k], today) == BackupName(a, today)
          ensures algs[k] == a
        {
          BackupNameInjective(algs[k], a, today);
        }
        backups := backups[BackupName(a, today) := manifests[a]];
      }
      return Completed;
    }

    /** The payload left after removing `paths`, except those `os.remove` fails on. */
    function Remaining(paths: seq<string>): map<string, seq<int>>
      reads `disk
    {
      map f | f in disk && !(f in paths && f !in undeletable) :: disk[f]
    }

    /** The removal loop of both deletion operations: an `OSError` is logged and the loop goes on. */
    method RemoveFiles(paths: seq<string>)
      modifies `disk
      ensures disk == old(Remaining(paths))
    {
      for i := 0 to |paths|
        invariant disk == map f | f in old(disk) && !(f in paths[..i] && f !in undeletable) :: old(disk)[f]
      {
        assert forall f :: f in paths[..i + 1] <==> f in paths[..i] || f == paths[i];
        if paths[i] in disk && paths[i] !in undeletable {
          disk := disk - {paths[i]};
        }
      }
      assert paths[..|paths|] == paths;
    }
  }

  /** `updates` restricted to the keys `done`. */
  function Restrict<V>(updates: map<string, V>, done: set<string>): (r: map<string, V>)
    ensures r.Keys == updates.Keys * done
  {
    map a | a in updates.Keys * done :: updates[a]
  }

  /** Visiting one more key adds its new value, if it has one. */
  lemma RestrictStep<V>(m0: map<string, V>, updates: map<string, V>, done: set<string>, a: string)
    ensures m0 + Restrict(updates, done + {a}) ==
      if a in updates then (m0 + Restrict(updates, done))[a := updates[a]] else m0 + Restrict(updates, done)
  {
  }

  /** The manifest text the rewrite writes for every algorithm whose manifest can be written. */
  function FreshManifests(algs: seq<string>, locked: set<string>, order: seq<string>,
                          entries: map<string, map<string, string>>, encode: string -> string): map<string, seq<string>>
  {
    map a | a in algs && ManifestName(a) !in locked :: ManifestLines(order, entries, a, encode)
  }

  /** The tag manifests the rewrite writes, each covering `snapshot`, for every algorithm whose tag manifest can be written. */
  function FreshTags(algs: seq<string>, locked: set<string>, snapshot: TagFiles): map<string, TagFiles>
  {
    map a | a in algs && TagManifestName(a) !in locked :: snapshot
  }

  /**
   * After the packaged rewrite every manifest that can be written lists the payload entries, one
   * line each, up to the first entry without a digest of its algorithm; every other manifest is kept.
   */
  lemma RewrittenManifestContents(m0: map<string, seq<string>>, algs: seq<string>, locked: set<string>, order: seq<string>,
                                  entries: map<string, map<string, string>>, encode: string -> string, a: string)
    ensures var m := m0 + FreshManifests(algs, locked, order, entries, encode);
      a in m <==> a in m0 || (a in algs && ManifestName(a) !in locked)
    ensures a in algs && ManifestName(a) !in locked ==>
      var r := (m0 + FreshManifests(algs, locked, order, entries, encode))[a];
      var data := DataEntries(order);
      (|r| == |data| <==> DigestsComplete(order, entries, a))
      && |r| <= |data|
      && forall i :: 0 <= i < |r| ==>
        data[i] in entries && a in entries[data[i]] && r[i] == ManifestLine(entries[data[i]][a], data[i], encode)
    ensures a in m0 && !(a in algs && ManifestName(a) !in locked) ==>
      (m0 + FreshManifests(algs, locked, order, entries, encode))[a] == m0[a]
  {
    ManifestLinesListEntries(order, entries, a, encode);
    ManifestLinesComplete(order, entries, a, encode);
  }

  /** The payload's octet and stream counts. */
  ghost function PayloadCounts(disk: map<string, seq<int>>): (nat, nat)
  {
    (SumValues(PayloadSizes(disk)), |disk|)
  }

  /**
   * What `check_baginfo` returns or raises, given whether the directory layout and some payload
   * manifest pass bagit's structure checks, the bag-info and the payload.
   */
  ghost function FastValidation(layoutValid: bool, manifestFound: bool, info: map<string, string>,
                                disk: map<string, seq<int>>): Result<bool>
  {
    if !layoutValid || !manifestFound || PAYLOAD_OXUM !in info then Success(false)
    else
      match ReadOxum(info[PAYLOAD_OXUM])
      case Failure(e) => Failure(e)
      case Success(counts) => Success(counts == PayloadCounts(disk))
  }

  /**
   * The fast validation raises exactly when it gets to read an Oxum that does not parse, and
   * passes exactly when it gets there and the Oxum parses to the payload's counts.
   */
  lemma FastValidationMeans(layoutValid: bool, manifestFound: bool, info: map<string, string>, disk: map<string, seq<int>>)
    ensures FastValidation(layoutValid, manifestFound, info, disk).Failure? <==>
      layoutValid && manifestFound && PAYLOAD_OXUM in info && ParseOxum(info[PAYLOAD_OXUM]).None?
    ensures FastValidation(layoutValid, manifestFound, info, disk) == Success(true) <==>
      layoutValid && manifestFound && PAYLOAD_OXUM in info && ParseOxum(info[PAYLOAD_OXUM]) == Some(PayloadCounts(disk))
  {
  }

  /** An Oxum as `update_baginfo` writes it passes, unless a structure check fails. */
  lemma GeneratedOxumPasses(layoutValid: bool, manifestFound: bool, info: map<string, string>, disk: map<string, seq<int>>)
    requires PAYLOAD_OXUM in info && info[PAYLOAD_OXUM] == GeneratedOxum(disk)
    ensures FastValidation(layoutValid, manifestFound, info, disk) == Success(layoutValid && manifestFound)
  {
    OxumRoundTrip(SumValues(PayloadSizes(disk)), |disk|);
  }

  /**
   * The comparison is of numbers: an Oxum recorded with a leading zero is not the text
   * `update_baginfo` would write, yet it passes.
   */
  lemma LeadingZeroOxumPasses(info: map<string, string>, disk: map<string, seq<int>>)
    requires PAYLOAD_OXUM in info && info[PAYLOAD_OXUM] == "0" + GeneratedOxum(disk)
    ensures info[PAYLOAD_OXUM] != GeneratedOxum(disk)
    ensures FastValidation(true, true, info, disk) == Success(true)
  {
    LeadingZeroOxumSameCounts(SumValues(PayloadSizes(disk)), |disk|);
  }

  /** A bag without a manifest file, or with a broken layout, fails whatever its bag-info says. */
  lemma StructureFirst(layoutValid: bool, manifestFound: bool, info: map<string, string>, disk: map<string, seq<int>>)
    requires !layoutValid || !manifestFound
    ensures FastValidation(layoutValid, manifestFound, info, disk) == Success(false)
  {
  }

  /** The digests of every untracked file. */
  function UntrackedDigests(bag: Bag): map<string, map<string, string>>
    reads bag`entries, bag`disk
  {
    map f | f in bag.Untracked() :: bag.Digests(bag.disk[f])
  }

  /** The entries after adding every untracked file, each with its digests. */
  function WithUntracked(bag: Bag): map<string, map<string, string>>
    reads bag`entries, bag`disk
  {
    bag.entries + UntrackedDigests(bag)
  }

  lemma PrefixStep(files: seq<string>, i: nat)
    requires i < |files|
    ensures forall g :: g in files[..i + 1] <==> g in files[..i] || g == files[i]
  {
    assert files[..i + 1] == files[..i] + [files[i]];
  }

  lemma DistinctNotBefore(files: seq<string>, i: nat)
    requires i < |files|
    requires forall i, j :: 0 <= i < j < |files| ==> files[i] != files[j]
    ensures files[i] !in files[..i]
  {
    assert forall j :: 0 <= j < i ==> files[..i][j] != files[i];
  }

  /** One turn of the adding loop, on values: the next file is new, and recording it extends both invariants. */
  lemma AddStep<V>(e0: map<string, V>, o0: seq<string>, updates: map<string, V>, done: set<string>,
                   files: seq<string>, i: nat)
    requires i < |files| && files[i] in updates && files[i] !in e0
    requires forall i, j :: 0 <= i < j < |files| ==> files[i] != files[j]
    requires forall g :: g in done <==> g in files[..i]
    ensures files[i] !in e0 + Restrict(updates, done)
    ensures (e0 + Restrict(updates, done))[files[i] := updates[files[i]]] == e0 + Restrict(updates, done + {files[i]})
    ensures o0 + files[..i] + [files[i]] == o0 + files[..i + 1]
    ensures forall g :: g in done + {files[i]} <==> g in files[..i + 1]
  {
    DistinctNotBefore(files, i);
    RestrictStep(e0, updates, done, files[i]);
    PrefixStep(files, i);
    assert files[..i + 1] == files[..i] + [files[i]];
  }

  /** Once every file is visited, the visited updates are all of them and the order has every file. */
  lemma AllAdded<V>(updates: map<string, V>, done: set<string>, files: seq<string>)
    requires forall f :: f in files <==> f in updates
    requires forall g :: g in done <==> g in files[..|files|]
    ensures Restrict(updates, done) == updates && files[..|files|] == files
  {
    assert files[..|files|] == files;
    assert done == updates.Keys;
  }

  /**
   * The loop of `add_payload_files_not_in_manifest` that records every untracked file. Without
   * algorithms its first call raises, before any entry changes. Each new file goes last in the
   * entry order, which is the order the rewritten manifests list them in.
   */
  method AddEntries(bag: Bag, files: seq<string>) returns (st: Status)
    requires bag.Valid()
    requires forall f :: f in files <==> f in bag.Untracked()
    requires forall i, j :: 0 <= i < j < |files| ==> files[i] != files[j]
    modifies bag`entries, bag`entryOrder
    ensures bag.Valid()
    ensures st.Raised? <==> files != [] && bag.algs == []
    ensures st.Raised? ==> st == Raised(FILENAME_UNBOUND) && unchanged(bag)
    ensures st.Completed? ==> bag.entries == old(WithUntracked(bag))
    ensures st.Completed? ==> bag.entryOrder == old(bag.entryOrder) + files
  {
    ghost var updates := UntrackedDigests(bag);
    ghost var done: set<string> := {};
    for i := 0 to |files|
      invariant bag.Valid()
      invariant bag.algs == [] ==> i == 0
      invariant forall g :: g in done <==> g in files[..i]
      invariant bag.entries == old(bag.entries) + Restrict(updates, done)
      invariant bag.entryOrder == old(bag.entryOrder) + files[..i]
      invariant i == 0 ==> bag.entries == old(bag.entries) && bag.entryOrder == old(bag.entryOrder)
    {
      var f := files[i];
      assert f in updates;
      AddStep(old(bag.entries), old(bag.entryOrder), updates, done, files, i);
      var added := bag.AddPayloadFileToManifest(f);
      if added.Raised? {
        assert f in bag.disk && bag.algs == [] && i == 0;
        return added;
      }
      done := done + {f};
    }
    AllAdded(updates, done, files);
    st := Completed;
  }

  lemma FiringStep(rules: seq<Rule>, j: nat, f: string)
    requires j < |rules|
    ensures Firing(rules[..j + 1], f) == Firing(rules[..j], f) + (if Fires(rules[j], f) then [f] else [])
  {
    assert rules[..j + 1][..j] == rules[..j];
  }

  /** The inner loop over the rules: `f` is appended once for every rule that fires on it. */
  method AppendFiring(acc: seq<string>, rules: seq<Rule>, f: string) returns (r: seq<string>)
    ensures r == acc + Firing(rules, f)
  {
    r := acc;
    for j := 0 to |rules|
      invariant r == acc + Firing(rules[..j], f)
    {
      FiringStep(rules, j, f);
      if Fires(rules[j], f) {
        r := r + [f];
      }
    }
    assert rules[..|rules|] == rules;
  }
}
