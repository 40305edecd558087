/**
 * The pure part of bag repair, after the BagIt format (RFC 8493): the `Payload-Oxum` of
 * section 2.2.2 of RFC 8493, the bag-info update rule, the lines of a payload manifest
 * (section 2.1.3), and the rule table that marks untracked payload files for deletion.
 */
module Fixity {
  import opened Wrappers
  import opened Text
  import opened Decimal
  import opened Sums
  import opened Patterns

  /** `"{0}.{1}".format(total_bytes, total_files)`: the octet count, a dot, the stream count. */
  function Oxum(bytes: nat, files: nat): (s: string)
    ensures '.' in s
  {
    var b := NatToString(bytes);
    var s := b + "." + NatToString(files);
    assert s[|b|] == '.';
    s
  }

  /**
   * `oxum.split(".", 1)`: the text before the first dot and the text after it, or `None` when
   * there is no dot and the two-name unpacking fails.
   */
  function SplitOxum(s: string): (r: Option<(string, string)>)
    ensures r.None? <==> '.' !in s
    ensures r.Some? ==> s == r.value.0 + "." + r.value.1 && '.' !in r.value.0
  {
    var k := IndexOf(s, '.');
    if k < 0 then None
    else
      assert s == s[..k] + "." + s[k + 1..];
      Some((s[..k], s[k + 1..]))
  }

  /**
   * How bagit's `_validate_oxum` reads a recorded Oxum: the parts around the first dot must both
   * pass `isdigit` (non-empty, digits only), and are then read as numbers.
   */
  function ParseOxum(s: string): (r: Option<(nat, nat)>)
    ensures r.Some? ==> '.' in s
  {
    match SplitOxum(s)
    case None => None
    case Some((b, f)) =>
      if |b| > 0 && |f| > 0 && AllDigits(b) && AllDigits(f) then Some((DigitsValue(b), DigitsValue(f))) else None
  }

  const OXUM_UNPACK := "ValueError: not enough values to unpack (expected 2, got 1)"

  function MalformedOxum(s: string): string { "BagError: Malformed Payload-Oxum value: " + s }

  /**
   * The reading of a recorded Oxum with its failures: no dot fails the unpacking with ValueError,
   * and a part that is not a digit string raises BagError.
   */
  function ReadOxum(s: string): (r: Result<(nat, nat)>)
    ensures r.Success? <==> ParseOxum(s).Some?
    ensures r.Success? ==> r.value == ParseOxum(s).value
    ensures r.Failure? ==> r.error == if '.' in s then MalformedOxum(s) else OXUM_UNPACK
  {
    if SplitOxum(s).None? then Failure(OXUM_UNPACK)
    else if ParseOxum(s).None? then Failure(MalformedOxum(s))
    else Success(ParseOxum(s).value)
  }

  /** The first dot of `x + [c] + y`, when `x` holds none, splits it back into `x` and `y`. */
  lemma SplitAtFirstDot(x: string, y: string)
    requires '.' !in x
    ensures SplitOxum(x + "." + y) == Some((x, y))
  {
    var s := x + "." + y;
    var k := IndexOf(s, '.');
    assert s[|x|] == '.';
    assert forall j :: 0 <= j < |x| ==> s[j] == x[j];
    assert k == |x|;
    assert s[..k] == x && s[k + 1..] == y;
  }

  /** The generated Oxum is read back as the counts it was made from. */
  lemma OxumRoundTrip(bytes: nat, files: nat)
    ensures ParseOxum(Oxum(bytes, files)) == Some((bytes, files))
  {
    var b, f := NatToString(bytes), NatToString(files);
    assert '.' !in b by {
      assert forall i :: 0 <= i < |b| ==> IsDigit(b[i]);
    }
    SplitAtFirstDot(b, f);
    assert Oxum(bytes, files) == b + "." + f;
    DigitsValueOfNatToString(bytes);
    DigitsValueOfNatToString(files);
  }

  /** A leading zero does not change the number a digit string is read as. */
  lemma {:induction false} LeadingZeroValue(x: string)
    requires AllDigits(x)
    ensures AllDigits("0" + x) && DigitsValue("0" + x) == DigitsValue(x)
    decreases |x|
  {
    if x != [] {
      var init := x[..|x| - 1];
      LeadingZeroValue(init);
      assert ("0" + x)[..|x|] == "0" + init;
    }
  }

  /**
   * bagit compares the counts as numbers, not the text: an Oxum written with a leading zero
   * differs from the generated one but is read as the same counts.
   */
  lemma LeadingZeroOxumSameCounts(bytes: nat, files: nat)
    ensures "0" + Oxum(bytes, files) != Oxum(bytes, files)
    ensures ParseOxum("0" + Oxum(bytes, files)) == Some((bytes, files))
  {
    var b, f := NatToString(bytes), NatToString(files);
    assert '.' !in "0" + b by {
      assert forall i :: 0 <= i < |b| ==> IsDigit(b[i]);
    }
    assert "0" + Oxum(bytes, files) == ("0" + b) + "." + f;
    SplitAtFirstDot("0" + b, f);
    LeadingZeroValue(b);
    DigitsValueOfNatToString(bytes);
    DigitsValueOfNatToString(files);
    assert |"0" + Oxum(bytes, files)| != |Oxum(bytes, files)|;
  }

  /** Different counts give different Oxum values. */
  lemma OxumInjective(b1: nat, f1: nat, b2: nat, f2: nat)
    requires Oxum(b1, f1) == Oxum(b2, f2)
    ensures b1 == b2 && f1 == f2
  {
    OxumRoundTrip(b1, f1);
    OxumRoundTrip(b2, f2);
  }

  function PayloadSizes(disk: map<string, seq<int>>): map<string, nat>
  {
    map p | p in disk :: |disk[p]|
  }

  /** The Oxum of a payload: the sum of the file sizes and the number of files. */
  ghost function GeneratedOxum(disk: map<string, seq<int>>): string
  {
    Oxum(SumValues(PayloadSizes(disk)), |disk|)
  }

  const PAYLOAD_OXUM := "Payload-Oxum"
  const MOST_RECENT_UPDATE_DATE := "Most-Recent-Update-Date"

  function OxumBeforeKey(today: string): string { "Payload-Oxum-Before-" + today }

  function UpdateMessageKey(today: string): string { "Update-Message-" + today }

  /** The four keys `update_baginfo` may write are pairwise distinct. */
  lemma BagInfoKeysDistinct(today: string)
    ensures PAYLOAD_OXUM != OxumBeforeKey(today) && PAYLOAD_OXUM != UpdateMessageKey(today)
    ensures MOST_RECENT_UPDATE_DATE != OxumBeforeKey(today) && MOST_RECENT_UPDATE_DATE != UpdateMessageKey(today)
    ensures PAYLOAD_OXUM != MOST_RECENT_UPDATE_DATE && OxumBeforeKey(today) != UpdateMessageKey(today)
  {
    assert |PAYLOAD_OXUM| < |OxumBeforeKey(today)|;
    assert PAYLOAD_OXUM[0] != UpdateMessageKey(today)[0];
    assert MOST_RECENT_UPDATE_DATE[0] != OxumBeforeKey(today)[0];
    assert MOST_RECENT_UPDATE_DATE[0] != UpdateMessageKey(today)[0];
    assert PAYLOAD_OXUM[0] != MOST_RECENT_UPDATE_DATE[0];
    assert OxumBeforeKey(today)[0] != UpdateMessageKey(today)[0];
  }

  /**
   * The bag-info that `update_baginfo` leaves, given the freshly generated Oxum. A changed Oxum
   * is recorded with its previous value kept under a dated key; a non-empty message is recorded
   * under a dated key; either one sets the date of the most recent update.
   */
  function UpdatedInfo(info: map<string, string>, generated: string, message: string, today: string): (r: map<string, string>)
    requires PAYLOAD_OXUM in info
    ensures PAYLOAD_OXUM in r && r[PAYLOAD_OXUM] == generated
    ensures info[PAYLOAD_OXUM] != generated ==>
      OxumBeforeKey(today) in r && r[OxumBeforeKey(today)] == info[PAYLOAD_OXUM]
    ensures message != "" ==> UpdateMessageKey(today) in r && r[UpdateMessageKey(today)] == message
    ensures info[PAYLOAD_OXUM] != generated || message != "" ==>
      MOST_RECENT_UPDATE_DATE in r && r[MOST_RECENT_UPDATE_DATE] == today
    ensures info[PAYLOAD_OXUM] == generated && message == "" ==> r == info
    ensures forall k :: k !in {PAYLOAD_OXUM, OxumBeforeKey(today), UpdateMessageKey(today), MOST_RECENT_UPDATE_DATE} ==>
      (k in r <==> k in info) && (k in info ==> r[k] == info[k])
  {
    BagInfoKeysDistinct(today);
    var stamped :=
      if info[PAYLOAD_OXUM] != generated then
        info[OxumBeforeKey(today) := info[PAYLOAD_OXUM]][MOST_RECENT_UPDATE_DATE := today][PAYLOAD_OXUM := generated]
      else info;
    if message != "" then stamped[UpdateMessageKey(today) := message][MOST_RECENT_UPDATE_DATE := today]
    else stamped
  }

  /** Updating twice with the same payload and no message changes nothing more. */
  lemma UpdatedInfoIdempotent(info: map<string, string>, generated: string, today: string)
    requires PAYLOAD_OXUM in info
    ensures UpdatedInfo(UpdatedInfo(info, generated, "", today), generated, "", today) == UpdatedInfo(info, generated, "", today)
  {
  }

  /** The prefix that marks a payload path, `"data" + os.sep`. */
  const DATA_PREFIX := "data/"

  /** The entries a manifest lists: those under `data/`, in entry order. */
  function DataEntries(order: seq<string>): (r: seq<string>)
    ensures forall p :: p in r <==> p in order && StartsWith(p, DATA_PREFIX)
    ensures |r| <= |order|
  {
    if order == [] then []
    else
      var rest := DataEntries(order[1..]);
      if StartsWith(order[0], DATA_PREFIX) then [order[0]] + rest else rest
  }

  /** `"%s  %s\n" % (digest, _encode_filename(path))`, without its newline. */
  function ManifestLine(digest: string, path: string, encode: string -> string): string
  {
    digest + "  " + encode(path)
  }

  /** Every payload entry has a digest for `alg`. */
  predicate DigestsComplete(order: seq<string>, entries: map<string, map<string, string>>, alg: string)
  {
    forall p :: p in order && StartsWith(p, DATA_PREFIX) ==> p in entries && alg in entries[p]
  }

  /**
   * The lines that `rewrite_manifest_files` writes into `manifest-<alg>.txt`: one per payload
   * entry in entry order, up to the first payload entry without a digest for `alg`, where
   * the `KeyError` stops the writing of that file.
   */
  function ManifestLines(order: seq<string>, entries: map<string, map<string, string>>, alg: string,
                         encode: string -> string): seq<string>
  {
    if order == [] then []
    else if !StartsWith(order[0], DATA_PREFIX) then ManifestLines(order[1..], entries, alg, encode)
    else if order[0] !in entries || alg !in entries[order[0]] then []
    else [ManifestLine(entries[order[0]][alg], order[0], encode)] + ManifestLines(order[1..], entries, alg, encode)
  }

  /** A manifest lists payload entries in entry order, each with its digest for the algorithm. */
  lemma {:induction false} ManifestLinesListEntries(order: seq<string>, entries: map<string, map<string, string>>,
                                                    alg: string, encode: string -> string)
    ensures var r := ManifestLines(order, entries, alg, encode);
      |r| <= |DataEntries(order)|
      && forall i :: 0 <= i < |r| ==> var p := DataEntries(order)[i];
        p in entries && alg in entries[p] && r[i] == ManifestLine(entries[p][alg], p, encode)
  {
    if order != [] {
      ManifestLinesListEntries(order[1..], entries, alg, encode);
    }
  }

  /** A manifest lists every payload entry exactly when every payload entry has a digest for the algorithm. */
  lemma {:induction false} ManifestLinesComplete(order: seq<string>, entries: map<string, map<string, string>>,
                                                 alg: string, encode: string -> string)
    ensures |ManifestLines(order, entries, alg, encode)| == |DataEntries(order)| <==> DigestsComplete(order, entries, alg)
  {
    if order != [] {
      ManifestLinesListEntries(order[1..], entries, alg, encode);
      ManifestLinesComplete(order[1..], entries, alg, encode);
      assert forall p :: p in order <==> p == order[0] || p in order[1..];
    }
  }

  /** A deletion rule: a regular expression, and whether a path must match it to be kept. */
  datatype Rule = Rule(name: string, pattern: Pattern, mustMatch: bool)

  /** `bool(re.search(rule["regex"], path)) != rule["match"]` */
  predicate Fires(rule: Rule, path: string)
  {
    Search(rule.pattern, path) != rule.mustMatch
  }

  predicate AnyFires(rules: seq<Rule>, path: string)
  {
    exists i :: 0 <= i < |rules| && Fires(rules[i], path)
  }

  /** How many rules fire for `path`. */
  function FireCount(rules: seq<Rule>, path: string): (n: nat)
    ensures n <= |rules|
    ensures n > 0 <==> AnyFires(rules, path)
  {
    if rules == [] then 0
    else
      var n := FireCount(rules[..|rules| - 1], path) + (if Fires(rules[|rules| - 1], path) then 1 else 0);
      assert forall i :: 0 <= i < |rules| - 1 ==> rules[..|rules| - 1][i] == rules[i];
      n
  }

  /** What the inner loop over the rules appends for one path: the path once per rule that fires. */
  function Firing(rules: seq<Rule>, path: string): (r: seq<string>)
    ensures |r| == FireCount(rules, path)
    ensures forall i :: 0 <= i < |r| ==> r[i] == path
  {
    if rules == [] then []
    else Firing(rules[..|rules| - 1], path) + (if Fires(rules[|rules| - 1], path) then [path] else [])
  }

  /** `files_to_delete` after the nested loop over `files` and `rules`. */
  function Marked(files: seq<string>, rules: seq<Rule>): (r: seq<string>)
    ensures forall f :: f in r <==> f in files && AnyFires(rules, f)
  {
    if files == [] then []
    else
      var r := Marked(files[..|files| - 1], rules) + Firing(rules, files[|files| - 1]);
      assert forall f :: f in files <==> f in files[..|files| - 1] || f == files[|files| - 1];
      assert forall f :: f in Firing(rules, files[|files| - 1]) <==> f == files[|files| - 1] && AnyFires(rules, f) by {
        var fs := Firing(rules, files[|files| - 1]);
        assert |fs| > 0 ==> fs[0] in fs;
      }
      r
  }

  /** A marked path is listed once for each rule that fires on it. */
  lemma {:induction false} MarkedCount(files: seq<string>, rules: seq<Rule>, f: string)
    requires forall i, j :: 0 <= i < j < |files| ==> files[i] != files[j]
    ensures multiset(Marked(files, rules))[f] == if f in files then FireCount(rules, f) else 0
  {
    if files != [] {
      var init, last := files[..|files| - 1], files[|files| - 1];
      MarkedCount(init, rules, f);
      FiringCount(rules, last, f);
      assert f in files <==> f in init || f == last;
      assert f == last ==> f !in init;
    }
  }

  lemma {:induction false} FiringCount(rules: seq<Rule>, path: string, f: string)
    ensures multiset(Firing(rules, path))[f] == if f == path then FireCount(rules, path) else 0
  {
    if rules != [] {
      FiringCount(rules[..|rules| - 1], path, f);
    }
  }
}
