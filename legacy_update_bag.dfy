/**
 * The repair operations of the older, root-level `Repairable_Bag`. They share the state and
 * the single-file operations of the packaged version but differ in their control flow: every
 * failure escapes, the bag-info is updated before the manifests are backed up, and deletion
 * without rules removes every untracked file.
 */
module LegacyUpdateBag {
  import opened Wrappers
  import opened Text
  import opened Patterns
  import opened Fixity
  import opened RepairableBag

  /** The older `SYSTEM_FILE_PATTERNS`, whose raw strings double the backslash before `.`. */
  const SYSTEM_FILE_PATTERNS: seq<Rule> := [
    Rule("Thumbs.db", EscapedThumbsDb, false),
    Rule("DS_Store", EscapedDsStore, false),
    Rule("Appledouble", EscapedAppleDouble, false),
    Rule("Icon", IconFile, false)
  ]

  /**
   * The older table marks a path without a backslash only through its `Icon` rule: a
   * `Thumbs.db`, `.DS_Store` or AppleDouble file is never marked by it.
   */
  lemma EscapedTableMissesSystemFiles(path: string)
    requires '\\' !in path
    ensures AnyFires(SYSTEM_FILE_PATTERNS, path) <==> Search(IconFile, path)
  {
    EscapedPatternsNeedBackslash(path);
    if Search(IconFile, path) {
      assert Fires(SYSTEM_FILE_PATTERNS[3], path);
    }
  }

  /** In particular the older table keeps `data/Thumbs.db`, which the packaged table marks. */
  lemma EscapedTableKeepsThumbsDb()
    ensures !AnyFires(SYSTEM_FILE_PATTERNS, "data/Thumbs.db")
  {
    var t := "data/Thumbs.db";
    assert DropFinalNewline(t) == t;
    assert !EndsWith(t, "Icon") && !EndsWith(t, "icon") && !EndsWith(t, "Icon\r") && !EndsWith(t, "icon\r");
    EscapedTableMissesSystemFiles(t);
  }

  /** Every manifest can be opened for writing and every payload entry has a digest of its algorithm. */
  predicate ManifestsWritable(algs: seq<string>, locked: set<string>, order: seq<string>,
                              entries: map<string, map<string, string>>)
  {
    forall a :: a in algs ==> ManifestName(a) !in locked && DigestsComplete(order, entries, a)
  }

  /** Every tag manifest can be written. */
  predicate TagManifestsWritable(algs: seq<string>, locked: set<string>)
  {
    forall a :: a in algs ==> TagManifestName(a) !in locked
  }

  /**
   * The first loop of the older `rewrite_manifest_files`: each manifest is truncated and
   * rewritten, and the first one that cannot be opened, or whose entries lack a digest, ends
   * the operation with the error (after the lines up to the missing digest were written).
   */
  method RewriteManifestsOrRaise(bag: Bag) returns (st: Status)
    modifies bag`manifests
    ensures st.Completed? <==> ManifestsWritable(bag.algs, bag.locked, bag.entryOrder, bag.entries)
    ensures st.Completed? ==>
      bag.manifests == old(bag.manifests) + FreshManifests(bag.algs, bag.locked, bag.entryOrder, bag.entries, bag.encode)
    ensures forall a :: a in bag.manifests ==>
      (a in old(bag.manifests) && bag.manifests[a] == old(bag.manifests)[a])
      || (a in bag.algs && ManifestName(a) !in bag.locked
          && bag.manifests[a] == ManifestLines(bag.entryOrder, bag.entries, a, bag.encode))
  {
    var all := set a | a in bag.algs;
    ghost var updates := FreshManifests(bag.algs, bag.locked, bag.entryOrder, bag.entries, bag.encode);
    var rest := all;
    while rest != {}
      invariant rest <= all
      invariant bag.manifests == old(bag.manifests) + Restrict(updates, all - rest)
      invariant forall a :: a in all - rest ==> ManifestName(a) !in bag.locked && DigestsComplete(bag.entryOrder, bag.entries, a)
      decreases rest
    {
      var a :| a in rest;
      if ManifestName(a) in bag.locked {
        return Raised("cannot write " + ManifestName(a));
      }
      RestrictStep(old(bag.manifests), updates, all - rest, a);
      var lines := bag.CurrentManifest(a);
      bag.manifests := bag.manifests[a := lines];
      assert all - (rest - {a}) == (all - rest) + {a};
      rest := rest - {a};
      ManifestLinesComplete(bag.entryOrder, bag.entries, a, bag.encode);
      if |lines| != |DataEntries(bag.entryOrder)| {
        return Raised("KeyError: " + a);
      }
    }
    assert Restrict(updates, all) == updates;
    return Completed;
  }

  /** The older `rewrite_manifest_files`, where every failure escapes. */
  method RewriteManifestFiles(bag: Bag) returns (st: Status)
    modifies bag`manifests, bag`tagManifests
    ensures st.Completed? <==>
      ManifestsWritable(bag.algs, bag.locked, bag.entryOrder, bag.entries) && TagManifestsWritable(bag.algs, bag.locked)
    ensures st.Completed? ==>
      bag.manifests == old(bag.manifests) + FreshManifests(bag.algs, bag.locked, bag.entryOrder, bag.entries, bag.encode)
      && bag.TagsFresh()
    ensures !ManifestsWritable(bag.algs, bag.locked, bag.entryOrder, bag.entries) ==> bag.tagManifests == old(bag.tagManifests)
    ensures bag.TagsFromOrFresh(old(bag.tagManifests))
  {
    st := RewriteManifestsOrRaise(bag);
    if st.Completed? {
      st := bag.WriteTagManifests();
    }
  }

  /**
   * The older `add_payload_files_not_in_manifest`: every untracked file is recorded, then the
   * bag-info is updated, the manifests backed up and rewritten; the first failure escapes. In a
   * bag without algorithms the first untracked file raises UnboundLocalError, before any update.
   */
  method AddPayloadFilesNotInManifest(bag: Bag, today: string) returns (st: Status)
    requires bag.Valid()
    modifies bag`entries, bag`entryOrder, bag`backups, bag`manifests, bag`tagManifests, bag`info, bag`bagInfoFile
    ensures bag.Valid()
    ensures old(bag.Untracked()) != {} && bag.algs == [] ==> st == Raised(FILENAME_UNBOUND) && unchanged(bag)
    ensures old(bag.Untracked()) == {} || bag.algs != [] ==> bag.entries == old(WithUntracked(bag))
    ensures old(bag.Untracked()) == {} || bag.algs != [] ==>
      |old(bag.entryOrder)| <= |bag.entryOrder| && bag.entryOrder[..|old(bag.entryOrder)|] == old(bag.entryOrder)
      && forall f :: f in bag.entryOrder[|old(bag.entryOrder)|..] <==> f in old(bag.Untracked())
    ensures PAYLOAD_OXUM !in old(bag.info) ==>
      st.Raised? && bag.info == old(bag.info) && bag.bagInfoFile == old(bag.bagInfoFile)
      && bag.manifests == old(bag.manifests) && bag.tagManifests == old(bag.tagManifests) && bag.backups == old(bag.backups)
    ensures PAYLOAD_OXUM in old(bag.info) && (old(bag.Untracked()) == {} || bag.algs != []) ==>
      bag.info == UpdatedInfo(old(bag.info), GeneratedOxum(bag.disk), "", today)
    ensures st.Completed? <==>
      (old(bag.Untracked()) == {} || bag.algs != [])
      && PAYLOAD_OXUM in old(bag.info) && TagManifestsWritable(bag.algs, bag.locked) && old(bag.CanBackUp(today))
      && ManifestsWritable(bag.algs, bag.locked, bag.entryOrder, bag.entries)
    ensures st.Completed? ==>
      (forall a :: a in bag.algs ==>
        BackupName(a, today) in bag.backups && bag.backups[BackupName(a, today)] == old(bag.manifests)[a])
      && bag.manifests == old(bag.manifests) + FreshManifests(bag.algs, bag.locked, bag.entryOrder, bag.entries, bag.encode)
      && bag.TagsFresh()
  {
    var newFiles := bag.PayloadFilesNotInManifest();
    if newFiles != [] {
      assert newFiles[0] in newFiles;
    }
    st := AddEntries(bag, newFiles);
    if st.Completed? {
      st := UpdateThenRewrite(bag, today);
    }
  }

  /** The part of the older add after the entries are recorded: update, back up, rewrite. */
  method UpdateThenRewrite(bag: Bag, today: string) returns (st: Status)
    modifies bag`backups, bag`manifests, bag`tagManifests, bag`info, bag`bagInfoFile
    ensures PAYLOAD_OXUM !in old(bag.info) ==>
      st.Raised? && bag.info == old(bag.info) && bag.bagInfoFile == old(bag.bagInfoFile)
      && bag.manifests == old(bag.manifests) && bag.tagManifests == old(bag.tagManifests) && bag.backups == old(bag.backups)
    ensures PAYLOAD_OXUM in old(bag.info) ==> bag.info == UpdatedInfo(old(bag.info), GeneratedOxum(bag.disk), "", today)
    ensures st.Completed? <==>
      PAYLOAD_OXUM in old(bag.info) && TagManifestsWritable(bag.algs, bag.locked) && old(bag.CanBackUp(today))
      && ManifestsWritable(bag.algs, bag.locked, bag.entryOrder, bag.entries)
    ensures st.Completed? ==>
      (forall a :: a in bag.algs ==>
        BackupName(a, today) in bag.backups && bag.backups[BackupName(a, today)] == old(bag.manifests)[a])
      && bag.manifests == old(bag.manifests) + FreshManifests(bag.algs, bag.locked, bag.entryOrder, bag.entries, bag.encode)
      && bag.TagsFresh()
  {
    var r := bag.UpdateBagInfo("", today);
    if r.Failure? {
      return Raised(r.error);
    }
    st := bag.CopyManifestFiles(today);
    if st.Raised? {
      return;
    }
    st := RewriteManifestFiles(bag);
  }

  /** The nested loop of the older deletion: each untracked file once for every rule that fires on it. */
  method MarkFiles(files: seq<string>, rules: seq<Rule>) returns (toDelete: seq<string>)
    ensures toDelete == Marked(files, rules)
  {
    toDelete := [];
    for i := 0 to |files|
      invariant toDelete == Marked(files[..i], rules)
    {
      toDelete := AppendFiring(toDelete, rules, files[i]);
      assert files[..i + 1][..i] == files[..i];
    }
    assert files[..|files|] == files;
  }

  /** A sequence without repetitions holds each of its elements once. */
  lemma {:induction false} DistinctCount(s: seq<string>, f: string)
    requires forall i, j :: 0 <= i < j < |s| ==> s[i] != s[j]
    ensures multiset(s)[f] == if f in s then 1 else 0
  {
    if s != [] {
      DistinctCount(s[1..], f);
      assert s == [s[0]] + s[1..];
      assert s[0] !in s[1..];
    }
  }

  /** The payload after the older deletion: the untracked files marked by some rule, or all of them without rules, are gone unless they cannot be removed. */
  function AfterDeletion(bag: Bag, rules: seq<Rule>): map<string, seq<int>>
    reads bag`disk, bag`entries
  {
    map f | f in bag.disk && !(f in bag.Untracked() && (rules == [] || AnyFires(rules, f)) && f !in bag.undeletable) :: bag.disk[f]
  }

  /** The end of the older deletion: the bag-info is updated whatever was removed, then the manifests are rewritten. */
  method UpdateAndRewrite(bag: Bag, today: string) returns (st: Status)
    modifies bag`manifests, bag`tagManifests, bag`info, bag`bagInfoFile
    ensures PAYLOAD_OXUM !in old(bag.info) ==>
      st.Raised? && bag.info == old(bag.info) && bag.bagInfoFile == old(bag.bagInfoFile)
      && bag.manifests == old(bag.manifests) && bag.tagManifests == old(bag.tagManifests)
    ensures PAYLOAD_OXUM in old(bag.info) ==> bag.info == UpdatedInfo(old(bag.info), GeneratedOxum(bag.disk), "", today)
    ensures st.Completed? <==>
      PAYLOAD_OXUM in old(bag.info) && TagManifestsWritable(bag.algs, bag.locked)
      && ManifestsWritable(bag.algs, bag.locked, bag.entryOrder, bag.entries)
    ensures st.Completed? ==>
      bag.manifests == old(bag.manifests) + FreshManifests(bag.algs, bag.locked, bag.entryOrder, bag.entries, bag.encode)
      && bag.TagsFresh()
  {
    var r := bag.UpdateBagInfo("", today);
    if r.Failure? {
      return Raised(r.error);
    }
    st := RewriteManifestFiles(bag);
  }

  /** The selection half of the older deletion: every untracked file when no rules are given, else the marked ones. */
  method FilesToDelete(bag: Bag, rules: seq<Rule>) returns (toDelete: seq<string>)
    ensures forall f ::
      multiset(toDelete)[f] == (if f !in bag.Untracked() then 0 else if rules == [] then 1 else FireCount(rules, f))
    ensures bag.Remaining(toDelete) == AfterDeletion(bag, rules)
  {
    var newFiles := bag.PayloadFilesNotInManifest();
    if rules != [] {
      toDelete := MarkFiles(newFiles, rules);
      forall f
        ensures multiset(toDelete)[f] == if f in bag.Untracked() then FireCount(rules, f) else 0
      {
        MarkedCount(newFiles, rules, f);
      }
    } else {
      toDelete := newFiles;
      forall f
        ensures multiset(toDelete)[f] == if f in bag.Untracked() then 1 else 0
      {
        DistinctCount(newFiles, f);
      }
    }
    assert bag.Remaining(toDelete) == AfterDeletion(bag, rules);
  }

  /**
   * The older `delete_payload_files_not_in_manifest(rules=None)`: without rules every untracked
   * file is listed, otherwise each once for every rule that fires on it; the listed files are
   * removed, then the bag-info is updated and the manifests rewritten, and a failure escapes.
   */
  method DeletePayloadFilesNotInManifest(bag: Bag, rules: seq<Rule>, today: string) returns (st: Status, toDelete: seq<string>)
    modifies bag`disk, bag`manifests, bag`tagManifests, bag`info, bag`bagInfoFile
    ensures forall f ::
      multiset(toDelete)[f] == (if f !in old(bag.Untracked()) then 0 else if rules == [] then 1 else FireCount(rules, f))
    ensures bag.disk == old(AfterDeletion(bag, rules))
    ensures PAYLOAD_OXUM !in old(bag.info) ==>
      st.Raised? && bag.info == old(bag.info) && bag.bagInfoFile == old(bag.bagInfoFile)
      && bag.manifests == old(bag.manifests) && bag.tagManifests == old(bag.tagManifests)
    ensures PAYLOAD_OXUM in old(bag.info) ==> bag.info == UpdatedInfo(old(bag.info), GeneratedOxum(bag.disk), "", today)
    ensures st.Completed? <==>
      PAYLOAD_OXUM in old(bag.info) && TagManifestsWritable(bag.algs, bag.locked)
      && ManifestsWritable(bag.algs, bag.locked, bag.entryOrder, bag.entries)
    ensures st.Completed? ==>
      bag.manifests == old(bag.manifests) + FreshManifests(bag.algs, bag.locked, bag.entryOrder, bag.entries, bag.encode)
      && bag.TagsFresh()
  {
    toDelete := FilesToDelete(bag, rules);
    bag.RemoveFiles(toDelete);
    st := UpdateAndRewrite(bag, today);
  }
}
