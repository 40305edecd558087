/**
 * The repair operations of the packaged `Repairable_Bag`: manifest rewriting that logs and
 * skips what it cannot write, adding untracked files behind a backup, and deleting untracked
 * system files by rule.
 */
module UpdateBag {
  import opened Wrappers
  import opened Text
  import opened Patterns
  import opened Fixity
  import opened RepairableBag

  /** `SYSTEM_FILE_PATTERNS`, in dict order: a path is deleted if it matches any of them. */
  const SYSTEM_FILE_PATTERNS: seq<Rule> := [
    Rule("Thumbs.db", ThumbsDb, false),
    Rule("DS_Store", DsStore, false),
    Rule("Appledouble", AppleDouble, false),
    Rule("Icon", IconFile, false)
  ]

  /** With the default table a path is marked iff it matches one of the four system-file patterns. */
  lemma DefaultRulesFire(path: string)
    ensures AnyFires(SYSTEM_FILE_PATTERNS, path) <==>
      Search(ThumbsDb, path) || Search(DsStore, path) || Search(AppleDouble, path) || Search(IconFile, path)
  {
    if Search(ThumbsDb, path) {
      assert Fires(SYSTEM_FILE_PATTERNS[0], path);
    } else if Search(DsStore, path) {
      assert Fires(SYSTEM_FILE_PATTERNS[1], path);
    } else if Search(AppleDouble, path) {
      assert Fires(SYSTEM_FILE_PATTERNS[2], path);
    } else if Search(IconFile, path) {
      assert Fires(SYSTEM_FILE_PATTERNS[3], path);
    }
  }

  /** The AppleDouble file of the repository's tests is marked by the default table. */
  lemma DefaultRulesMarkAppleDouble()
    ensures AnyFires(SYSTEM_FILE_PATTERNS, "data/._.SYSTEMFILE.db\r")
  {
    var t := "data/._.SYSTEMFILE.db\r";
    assert t[5] == '.' && t[6] == '_' && NoNewlineFrom(t, 7);
    assert Search(AppleDouble, t);
    assert Fires(SYSTEM_FILE_PATTERNS[2], t);
  }

  /** A `Thumbs.db` file is marked by the default table, and by the one-rule table of the tests. */
  lemma ThumbsDbMarked()
    ensures AnyFires(SYSTEM_FILE_PATTERNS, "data/Thumbs.db")
    ensures AnyFires([Rule("Thumbs.db", ThumbsDb, false)], "data/Thumbs.db")
  {
    var t := "data/Thumbs.db";
    assert EndsWith(t, "Thumbs.db");
    assert Fires(SYSTEM_FILE_PATTERNS[0], t);
    assert Fires([Rule("Thumbs.db", ThumbsDb, false)][0], t);
  }

  /** A rule written with a doubled backslash marks no path without a backslash, so the tests' file is kept. */
  lemma EscapedRuleKeepsFile()
    ensures !AnyFires([Rule("Thumbs.db", EscapedThumbsDb, false)], "data/._.SYSTEMFILE.db\r")
  {
    EscapedPatternsNeedBackslash("data/._.SYSTEMFILE.db\r");
  }

  /** The first loop of `rewrite_manifest_files`: each manifest that can be opened for writing is rewritten. */
  method RewriteManifests(bag: Bag)
    modifies bag`manifests
    ensures bag.manifests == old(bag.manifests) + FreshManifests(bag.algs, bag.locked, bag.entryOrder, bag.entries, bag.encode)
  {
    var all := set a | a in bag.algs;
    ghost var updates := FreshManifests(bag.algs, bag.locked, bag.entryOrder, bag.entries, bag.encode);
    var rest := all;
    while rest != {}
      invariant rest <= all
      invariant bag.manifests == old(bag.manifests) + Restrict(updates, all - rest)
      decreases rest
    {
      var a :| a in rest;
      RestrictStep(old(bag.manifests), updates, all - rest, a);
      if ManifestName(a) !in bag.locked {
        bag.manifests := bag.manifests[a := bag.CurrentManifest(a)];
      }
      assert all - (rest - {a}) == (all - rest) + {a};
      rest := rest - {a};
    }
    assert Restrict(updates, all) == updates;
  }

  /** The second loop of `rewrite_manifest_files`: each tag manifest that can be written is regenerated. */
  method RefreshTagManifests(bag: Bag)
    modifies bag`tagManifests
    ensures bag.tagManifests == old(bag.tagManifests) + FreshTags(bag.algs, bag.locked, bag.TagSnapshot())
  {
    var all := set a | a in bag.algs;
    var snapshot := bag.TagSnapshot();
    ghost var tags := FreshTags(bag.algs, bag.locked, snapshot);
    var rest := all;
    while rest != {}
      invariant rest <= all
      invariant bag.tagManifests == old(bag.tagManifests) + Restrict(tags, all - rest)
      decreases rest
    {
      var a :| a in rest;
      RestrictStep(old(bag.tagManifests), tags, all - rest, a);
      if TagManifestName(a) !in bag.locked {
        bag.tagManifests := bag.tagManifests[a := snapshot];
      }
      assert all - (rest - {a}) == (all - rest) + {a};
      rest := rest - {a};
    }
    assert Restrict(tags, all) == tags;
  }

  /**
   * `rewrite_manifest_files`: every manifest that can be written gets one line per payload entry
   * (up to the first entry without a digest); then every tag manifest that can be written is
   * regenerated over the new manifests. Each failure is logged and the loops go on.
   */
  method RewriteManifestFiles(bag: Bag)
    modifies bag`manifests, bag`tagManifests
    ensures bag.manifests == old(bag.manifests) + FreshManifests(bag.algs, bag.locked, bag.entryOrder, bag.entries, bag.encode)
    ensures bag.tagManifests == old(bag.tagManifests) + FreshTags(bag.algs, bag.locked, bag.TagSnapshot())
  {
    RewriteManifests(bag);
    RefreshTagManifests(bag);
  }

  /** The `try` of `add_payload_files_not_in_manifest`: back up, rewrite, update the bag-info; the first failure ends it. */
  method BackUpAndRewrite(bag: Bag, today: string)
    modifies bag`backups, bag`manifests, bag`tagManifests, bag`info, bag`bagInfoFile
    ensures !old(bag.CanBackUp(today)) ==>
      bag.info == old(bag.info) && bag.bagInfoFile == old(bag.bagInfoFile)
      && bag.manifests == old(bag.manifests) && bag.tagManifests == old(bag.tagManifests)
    ensures old(bag.CanBackUp(today)) ==>
      forall a :: a in bag.algs ==>
        BackupName(a, today) in bag.backups && bag.backups[BackupName(a, today)] == old(bag.manifests)[a]
    ensures old(bag.CanBackUp(today)) ==> bag.manifests == old(bag.manifests) + FreshManifests(bag.algs, bag.locked, bag.entryOrder, bag.entries, bag.encode)
    ensures old(bag.CanBackUp(today)) ==>
      exists r :: bag.BagInfoUpdated(old(bag.info), old(bag.bagInfoFile),
        old(bag.tagManifests) + FreshTags(bag.algs, bag.locked, TagFiles(old(bag.bagInfoFile), bag.manifests, bag.backups)),
        "", today, r)
  {
    var copied := bag.CopyManifestFiles(today);
    if copied.Completed? {
      RewriteManifestFiles(bag);
      ghost var tags := bag.tagManifests;
      ghost var snapshot := bag.TagSnapshot();
      assert snapshot.bagInfo == old(bag.bagInfoFile) && bag.info == old(bag.info);
      var r := bag.UpdateBagInfo("", today);
      assert snapshot == TagFiles(old(bag.bagInfoFile), bag.manifests, bag.backups);
      assert bag.BagInfoUpdated(old(bag.info), old(bag.bagInfoFile), tags, "", today, r);
    }
  }

  /**
   * `add_payload_files_not_in_manifest`: with untracked files, their entries are added; then the
   * manifests are backed up, rewritten and the bag-info updated, in one `try` whose failures are
   * only logged, so nothing is rewritten unless every backup succeeded. The adding loop sits
   * outside that `try`: in a bag without algorithms its UnboundLocalError escapes.
   */
  method AddPayloadFilesNotInManifest(bag: Bag, today: string) returns (st: Status)
    requires bag.Valid()
    modifies bag`entries, bag`entryOrder, bag`backups, bag`manifests, bag`tagManifests, bag`info, bag`bagInfoFile
    ensures bag.Valid()
    ensures old(bag.Untracked()) == {} ==> unchanged(bag) && st.Completed?
    ensures st.Raised? <==> old(bag.Untracked()) != {} && bag.algs == []
    ensures st.Raised? ==> st == Raised(FILENAME_UNBOUND) && unchanged(bag)
    ensures st.Completed? ==> bag.entries == old(WithUntracked(bag))
    ensures st.Completed? ==>
      |old(bag.entryOrder)| <= |bag.entryOrder| && bag.entryOrder[..|old(bag.entryOrder)|] == old(bag.entryOrder)
      && forall f :: f in bag.entryOrder[|old(bag.entryOrder)|..] <==> f in old(bag.Untracked())
    ensures bag.manifests != old(bag.manifests) ==> old(bag.Untracked()) != {} && old(bag.CanBackUp(today))
    ensures st.Completed? && old(bag.Untracked()) != {} && !old(bag.CanBackUp(today)) ==>
      bag.info == old(bag.info) && bag.bagInfoFile == old(bag.bagInfoFile)
      && bag.manifests == old(bag.manifests) && bag.tagManifests == old(bag.tagManifests)
    ensures st.Completed? && old(bag.Untracked()) != {} && old(bag.CanBackUp(today)) ==>
      (forall a :: a in bag.algs ==> BackupName(a, today) in bag.backups && bag.backups[BackupName(a, today)] == old(bag.manifests)[a])
      && bag.manifests == old(bag.manifests) + FreshManifests(bag.algs, bag.locked, bag.entryOrder, bag.entries, bag.encode)
      && exists r :: bag.BagInfoUpdated(old(bag.info), old(bag.bagInfoFile),
        old(bag.tagManifests) + FreshTags(bag.algs, bag.locked, TagFiles(old(bag.bagInfoFile), bag.manifests, bag.backups)),
        "", today, r)
  {
    var newFiles := bag.PayloadFilesNotInManifest();
    if newFiles != [] {
      assert newFiles[0] in newFiles;
      st := AddEntries(bag, newFiles);
      if st.Completed? {
        BackUpAndRewrite(bag, today);
      }
    } else {
      assert forall f :: f in old(bag.Untracked()) ==> f in newFiles;
      st := Completed;
    }
  }

  /** The nested loop over untracked files and rules: which to delete (once per firing rule) and which to keep. */
  method MarkFiles(files: seq<string>, rules: seq<Rule>) returns (toDelete: seq<string>, notToDelete: seq<string>)
    ensures toDelete == Marked(files, rules)
    ensures forall f :: f in notToDelete <==> f in files && !AnyFires(rules, f)
  {
    toDelete, notToDelete := [], [];
    for i := 0 to |files|
      invariant toDelete == Marked(files[..i], rules)
      invariant forall f :: f in notToDelete <==> f in files[..i] && !AnyFires(rules, f)
    {
      var f := files[i];
      toDelete := AppendFiring(toDelete, rules, f);
      assert files[..i + 1][..i] == files[..i];
      if AnyFires(rules, f) {
        assert Firing(rules, f)[0] == f;
      }
      assert f in toDelete <==> AnyFires(rules, f);
      if f !in toDelete {
        notToDelete := notToDelete + [f];
      }
      assert forall g :: g in files[..i + 1] <==> g in files[..i] || g == f;
    }
    assert files[..|files|] == files;
  }

  /** The payload after removing the untracked files that some rule marks, except those that cannot be removed. */
  function AfterDeletion(bag: Bag, rules: seq<Rule>): map<string, seq<int>>
    reads bag`disk, bag`entries
  {
    map f | f in bag.disk && !(f in bag.Untracked() && AnyFires(rules, f) && f !in bag.undeletable) :: bag.disk[f]
  }

  /** What `check_baginfo` gives on `bag` with bag-info `info` and payload `disk`. */
  ghost function BagInfoCheck(bag: Bag, info: map<string, string>, disk: map<string, seq<int>>): Result<bool>
    reads bag`manifests
  {
    FastValidation(bag.layoutValid, bag.HasManifestFile(), info, disk)
  }

  /**
   * The removal part of `delete_payload_files_not_in_manifest`: remove what is listed, then
   * repair the bag-info if `check_baginfo` fails; an error it raises escapes.
   */
  method RemoveAndUpdate(bag: Bag, toDelete: seq<string>, today: string) returns (st: Status)
    modifies bag`disk, bag`info, bag`bagInfoFile, bag`tagManifests
    ensures bag.disk == old(bag.Remaining(toDelete))
    ensures toDelete == [] || BagInfoCheck(bag, old(bag.info), bag.disk) == Success(true) ==>
      st == Completed && bag.info == old(bag.info) && bag.bagInfoFile == old(bag.bagInfoFile)
      && bag.tagManifests == old(bag.tagManifests)
    ensures toDelete != [] && BagInfoCheck(bag, old(bag.info), bag.disk).Failure? ==>
      st == Raised(BagInfoCheck(bag, old(bag.info), bag.disk).error)
      && bag.info == old(bag.info) && bag.bagInfoFile == old(bag.bagInfoFile) && bag.tagManifests == old(bag.tagManifests)
    ensures toDelete != [] && BagInfoCheck(bag, old(bag.info), bag.disk) == Success(false) ==>
      exists r :: bag.BagInfoUpdated(old(bag.info), old(bag.bagInfoFile), old(bag.tagManifests), "", today, r)
        && (st.Raised? <==> r.Failure?)
  {
    st := Completed;
    if toDelete != [] {
      bag.RemoveFiles(toDelete);
      var ok := bag.CheckBagInfo();
      if ok.Failure? {
        return Raised(ok.error);
      }
      if !ok.value {
        var r := bag.UpdateBagInfo("", today);
        if r.Failure? {
          st := Raised(r.error);
        }
      }
    }
  }

  /**
   * `delete_payload_files_not_in_manifest(rules)`: with an empty rule table the name
   * `files_not_to_delete` is unbound and nothing is deleted; otherwise every untracked file some
   * rule marks is removed, once listed per firing rule, and if any was listed and `check_baginfo`
   * returns False, the bag-info is updated; an error `check_baginfo` raises escapes.
   */
  method DeletePayloadFilesNotInManifest(bag: Bag, rules: seq<Rule>, today: string)
    returns (st: Status, toDelete: seq<string>, notToDelete: seq<string>)
    modifies bag`disk, bag`info, bag`bagInfoFile, bag`tagManifests
    ensures rules == [] ==> st.Raised? && unchanged(bag)
    ensures rules != [] ==> bag.disk == old(AfterDeletion(bag, rules))
    ensures rules != [] ==>
      forall f :: multiset(toDelete)[f] == (if f in old(bag.Untracked()) then FireCount(rules, f) else 0)
    ensures rules != [] ==> forall f :: f in notToDelete <==> f in old(bag.Untracked()) && !AnyFires(rules, f)
    ensures rules != [] && (toDelete == [] || BagInfoCheck(bag, old(bag.info), bag.disk) == Success(true)) ==>
      st == Completed && bag.info == old(bag.info) && bag.bagInfoFile == old(bag.bagInfoFile)
      && bag.tagManifests == old(bag.tagManifests)
    ensures rules != [] && toDelete != [] && BagInfoCheck(bag, old(bag.info), bag.disk).Failure? ==>
      st == Raised(BagInfoCheck(bag, old(bag.info), bag.disk).error)
      && bag.info == old(bag.info) && bag.bagInfoFile == old(bag.bagInfoFile) && bag.tagManifests == old(bag.tagManifests)
    ensures rules != [] && toDelete != [] && BagInfoCheck(bag, old(bag.info), bag.disk) == Success(false) ==>
      exists r :: bag.BagInfoUpdated(old(bag.info), old(bag.bagInfoFile), old(bag.tagManifests), "", today, r)
        && (st.Raised? <==> r.Failure?)
  {
    var newFiles := bag.PayloadFilesNotInManifest();
    if rules == [] {
      return Raised("UnboundLocalError: files_not_to_delete"), newFiles, [];
    }
    toDelete, notToDelete := MarkFiles(newFiles, rules);
    forall f
      ensures multiset(toDelete)[f] == if f in old(bag.Untracked()) then FireCount(rules, f) else 0
    {
      MarkedCount(newFiles, rules, f);
    }
    assert bag.Remaining(toDelete) == AfterDeletion(bag, rules);
    st := RemoveAndUpdate(bag, toDelete, today);
  }
}
