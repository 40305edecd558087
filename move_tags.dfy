/**
 * Choosing the payload files of a bag that are really tag files (timecode lists, QCTools
 * reports, subtitles, CD cue sheets), and the bag directories a directory walk turns up
 * (bin/move_tags.py).
 */
module MoveTags {
  import opened Text
  import opened Patterns
  import opened PosixPath
  import opened Fixity

  /** `TAG_FILE_PATTERNS`, in the dictionary's order; every rule selects the paths that match it. */
  const TAG_FILE_PATTERNS: seq<Rule> := [
    Rule("timecode", Timecodes, true),
    Rule("qctools", QctoolsReport, true),
    Rule("subs", Subtitles, true),
    Rule("cd_cues", CdCues, true)
  ]

  /** `bool(re.search(rule["regex"], payload_file)) == rule["match"]` */
  predicate Selects(rule: Rule, path: string)
  {
    Search(rule.pattern, path) == rule.mustMatch
  }

  /** How many rules select `path`. */
  function SelectCount(rules: seq<Rule>, path: string): nat
  {
    if rules == [] then 0
    else SelectCount(rules[..|rules| - 1], path) + (if Selects(rules[|rules| - 1], path) then 1 else 0)
  }

  /** What the inner loop appends for one payload file: its path under the bag, once per selecting rule. */
  function Selected(bagPath: string, rules: seq<Rule>, path: string): seq<string>
  {
    if rules == [] then []
    else
      var here := if Selects(rules[|rules| - 1], path) then [JoinPath(bagPath, path)] else [];
      Selected(bagPath, rules[..|rules| - 1], path) + here
  }

  /** `tag_files` after the nested loop: payload order first, then rule order. */
  function TagFiles(bagPath: string, payload: seq<string>, rules: seq<Rule>): seq<string>
  {
    if payload == [] then []
    else TagFiles(bagPath, payload[..|payload| - 1], rules) + Selected(bagPath, rules, payload[|payload| - 1])
  }

  /** `find_files_to_move(bag)`, over the bag's path and its payload files, for any rule table. */
  method FindFilesToMove(bagPath: string, payload: seq<string>, rules: seq<Rule>) returns (tagFiles: seq<string>)
    ensures tagFiles == TagFiles(bagPath, payload, rules)
  {
    tagFiles := [];
    for i := 0 to |payload|
      invariant tagFiles == TagFiles(bagPath, payload[..i], rules)
    {
      assert payload[..i + 1][..i] == payload[..i];
      var before := tagFiles;
      for j := 0 to |rules|
        invariant tagFiles == before + Selected(bagPath, rules[..j], payload[i])
      {
        assert rules[..j + 1][..j] == rules[..j];
        if Search(rules[j].pattern, payload[i]) == rules[j].mustMatch {
          tagFiles := tagFiles + [JoinPath(bagPath, payload[i])];
        }
      }
      assert rules[..|rules|] == rules;
    }
    assert payload[..|payload|] == payload;
  }

  /** The inner loop lists the file's bag path exactly as many times as rules select it. */
  lemma {:induction false} SelectedCount(bagPath: string, rules: seq<Rule>, path: string)
    ensures |Selected(bagPath, rules, path)| == SelectCount(rules, path)
    ensures forall x :: x in Selected(bagPath, rules, path) ==> x == JoinPath(bagPath, path)
  {
    if rules != [] {
      SelectedCount(bagPath, rules[..|rules| - 1], path);
    }
  }

  /** A file is listed iff some rule selects it. */
  lemma {:induction false} SelectedAny(bagPath: string, rules: seq<Rule>, path: string)
    ensures Selected(bagPath, rules, path) != [] <==> exists i :: 0 <= i < |rules| && Selects(rules[i], path)
  {
    if rules != [] {
      var init := rules[..|rules| - 1];
      SelectedAny(bagPath, init, path);
      assert forall i :: 0 <= i < |init| ==> init[i] == rules[i];
    }
  }

  /** The result holds the bag path of every payload file some rule selects, and nothing else. */
  lemma {:induction false} TagFilesMembers(bagPath: string, payload: seq<string>, rules: seq<Rule>, x: string)
    ensures x in TagFiles(bagPath, payload, rules) <==>
      exists p :: p in payload && x == JoinPath(bagPath, p) && exists i :: 0 <= i < |rules| && Selects(rules[i], p)
  {
    if payload != [] {
      var init, last := payload[..|payload| - 1], payload[|payload| - 1];
      TagFilesMembers(bagPath, init, rules, x);
      SelectedCount(bagPath, rules, last);
      SelectedAny(bagPath, rules, last);
      var sel := Selected(bagPath, rules, last);
      assert sel != [] ==> sel[0] in sel;
      assert forall p :: p in payload <==> p in init || p == last;
    }
  }

  /** Whether one of the four tag-file patterns matches. */
  predicate IsTagFile(path: string)
  {
    Search(Timecodes, path) || Search(QctoolsReport, path) || Search(Subtitles, path) || Search(CdCues, path)
  }

  /** A table of four rules selects a path once for each of them that selects it. */
  lemma SelectCountOfFour(rules: seq<Rule>, path: string)
    requires |rules| == 4
    ensures SelectCount(rules, path) ==
      (if Selects(rules[0], path) then 1 else 0) + (if Selects(rules[1], path) then 1 else 0)
      + (if Selects(rules[2], path) then 1 else 0) + (if Selects(rules[3], path) then 1 else 0)
  {
    var r3, r2, r1 := rules[..3], rules[..2], rules[..1];
    assert rules[..|rules| - 1] == r3 && r3[..|r3| - 1] == r2 && r2[..|r2| - 1] == r1 && r1[..|r1| - 1] == [];
    assert r3[2] == rules[2] && r2[1] == rules[1] && r1[0] == rules[0];
    assert SelectCount(r1, path) == (if Selects(rules[0], path) then 1 else 0);
    assert SelectCount(r2, path) == SelectCount(r1, path) + (if Selects(rules[1], path) then 1 else 0);
    assert SelectCount(r3, path) == SelectCount(r2, path) + (if Selects(rules[2], path) then 1 else 0);
  }

  /** The four patterns end in different text, so no path matches two of them. */
  lemma TagPatternsExclusive(path: string)
    ensures SelectCount(TAG_FILE_PATTERNS, path) == if IsTagFile(path) then 1 else 0
  {
    var t := DropFinalNewline(path);
    SelectCountOfFour(TAG_FILE_PATTERNS, path);
    var b0, b1, b2, b3 := Search(Timecodes, path), Search(QctoolsReport, path), Search(Subtitles, path), Search(CdCues, path);
    assert b0 == EndsWith(t, "timecodes.txt") && b1 == EndsWith(t, "xml.gz");
    assert b2 == EndsWith(t, ".srt") && b3 == EndsWith(t, ".cue");
    // the four suffixes end in "xt", "gz", "rt" and "ue"
    var tail := if |t| >= 2 then t[|t| - 2..] else t;
    if b0 { assert t[|t| - 13..][11..] == tail; assert tail == "xt"; }
    if b1 { assert t[|t| - 6..][4..] == tail; assert tail == "gz"; }
    if b2 { assert t[|t| - 4..][2..] == tail; assert tail == "rt"; }
    if b3 { assert t[|t| - 4..][2..] == tail; assert tail == "ue"; }
    assert (if b0 then 1 else 0) + (if b1 then 1 else 0) + (if b2 then 1 else 0) + (if b3 then 1 else 0) <= 1;
  }

  /** The reference the table reduces to: each payload file that is a tag file, once, under the bag. */
  function TagFilesOnce(bagPath: string, payload: seq<string>): seq<string>
  {
    if payload == [] then []
    else
      var last := payload[|payload| - 1];
      TagFilesOnce(bagPath, payload[..|payload| - 1]) + (if IsTagFile(last) then [JoinPath(bagPath, last)] else [])
  }

  /** With the shipped table no payload file is listed twice: the result is the tag files, once each, in payload order. */
  lemma {:induction false} TagFilesWithTable(bagPath: string, payload: seq<string>)
    ensures TagFiles(bagPath, payload, TAG_FILE_PATTERNS) == TagFilesOnce(bagPath, payload)
  {
    if payload != [] {
      var last := payload[|payload| - 1];
      TagFilesWithTable(bagPath, payload[..|payload| - 1]);
      TagPatternsExclusive(last);
      SelectedCount(bagPath, TAG_FILE_PATTERNS, last);
      var sel := Selected(bagPath, TAG_FILE_PATTERNS, last);
      if |sel| == 1 {
        assert sel == [JoinPath(bagPath, last)] by { assert sel[0] in sel; }
      }
    }
  }

  /** The directories of one walk step that `main` collects: the children named by six digits. */
  function SixDigitChildren(root: string, dirnames: seq<string>): seq<string>
  {
    if dirnames == [] then []
    else
      var last := dirnames[|dirnames| - 1];
      SixDigitChildren(root, dirnames[..|dirnames| - 1]) + (if SixDigitName(last) then [JoinPath(root, last)] else [])
  }

  /** The bag directories of a whole walk, step by step. */
  function WalkBags(walk: seq<(string, seq<string>)>): seq<string>
  {
    if walk == [] then []
    else WalkBags(walk[..|walk| - 1]) + SixDigitChildren(walk[|walk| - 1].0, walk[|walk| - 1].1)
  }

  /**
   * The collection of `bags` in `main`: the six-digit directories found by the walk (each step
   * a directory and the names of its subdirectories), then the bag paths given directly.
   */
  method CollectBags(walk: seq<(string, seq<string>)>, bagPaths: seq<string>) returns (bags: seq<string>)
    ensures bags == WalkBags(walk) + bagPaths
  {
    bags := [];
    for i := 0 to |walk|
      invariant bags == WalkBags(walk[..i])
    {
      assert walk[..i + 1][..i] == walk[..i];
      var (root, dirnames) := walk[i];
      var before := bags;
      for j := 0 to |dirnames|
        invariant bags == before + SixDigitChildren(root, dirnames[..j])
      {
        assert dirnames[..j + 1][..j] == dirnames[..j];
        if SixDigitName(dirnames[j]) {
          bags := bags + [JoinPath(root, dirnames[j])];
        }
      }
      assert dirnames[..|dirnames|] == dirnames;
    }
    assert walk[..|walk|] == walk;
    bags := bags + bagPaths;
  }

  /** A walk step contributes exactly its six-digit subdirectories. */
  lemma {:induction false} SixDigitChildrenMembers(root: string, dirnames: seq<string>, x: string)
    ensures x in SixDigitChildren(root, dirnames) <==> exists d :: d in dirnames && SixDigitName(d) && x == JoinPath(root, d)
  {
    if dirnames != [] {
      SixDigitChildrenMembers(root, dirnames[..|dirnames| - 1], x);
      assert forall d :: d in dirnames <==> d in dirnames[..|dirnames| - 1] || d == dirnames[|dirnames| - 1];
    }
  }
}
