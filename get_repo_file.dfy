/**
 * Looking up repository files for collection objects (bin/get_repo_file.py): object IDs taken
 * from asset names, the assets CSV grouped by object, and the directory layout that places a
 * file under its UUID.
 */
module GetRepoFile {
  import opened Wrappers
  import opened Text
  import opened Patterns

  const ARGUMENT_TYPE_ERROR := "ArgumentTypeError: Object ID must have no spaces e.g. ncow 421"
  const UUID_VALUE_ERROR := "ValueError: UUID is not formatted correctly"
  const HEADER_VALUE_ERROR := "ValueError: Assets file is missing one or more required header values: name and uuid"
  const NO_FIELDNAMES := "TypeError: argument of type 'NoneType' is not iterable"

  /** `validate_object(id)`: the argument type of `--object`, which accepts only lower-case letters and digits. */
  function ValidateObject(id: string): (r: Result<string>)
    ensures r.Success? <==> LowerAlnumName(id)
    ensures r.Success? ==> r.value == id
    ensures r.Failure? ==> r.error == ARGUMENT_TYPE_ERROR
  {
    if LowerAlnumName(id) then Success(id) else Failure(ARGUMENT_TYPE_ERROR)
  }

  /** An accepted ID is never empty and holds no space. */
  lemma ValidObjectHasNoSpace(id: string)
    requires ValidateObject(id).Success?
    ensures id != "" && ' ' !in id
  {
    var t := DropFinalNewline(id);
    assert forall j :: 0 <= j < |id| && id[j] != '\n' ==> j < |t| && t[j] == id[j];
  }

  /** The IDs the command-line tests pass are accepted, and one with a space is refused. */
  lemma ValidateObjectExamples()
    ensures ValidateObject("ncow421") == Success("ncow421")
    ensures ValidateObject("234567") == Success("234567")
    ensures ValidateObject("ncow 421").Failure?
  {
    var bad := "ncow 421";
    assert DropFinalNewline(bad) == bad && !IsLowerAlnum(bad[4]);
  }

  /** `extract_id(filename)`: the second `_`-separated field of an asset name, or `None` when it has no `_`. */
  function ExtractId(filename: string): (r: Option<string>)
    ensures r.None? <==> '_' !in filename
    ensures r.Some? ==> '_' !in r.value
  {
    var components := Split(filename, '_');
    if |components| == 1 then None else Some(components[1])
  }

  /** Where `s` has its last `c` when `s` is `x` followed by `y`. */
  lemma LastIndexOfConcat(x: string, y: string, c: char)
    ensures LastIndexOf(y, c) >= 0 ==> LastIndexOf(x + y, c) == |x| + LastIndexOf(y, c)
    ensures LastIndexOf(y, c) < 0 ==> LastIndexOf(x + y, c) == LastIndexOf(x, c)
  {
    var s, j := x + y, LastIndexOf(y, c);
    assert forall k :: |x| <= k < |s| ==> s[k] == y[k - |x|];
    if j >= 0 {
      assert s[|x| + j] == c;
    } else {
      var k := LastIndexOf(x, c);
      if k >= 0 {
        assert s[k] == c;
      }
    }
  }

  /** Splitting at the only separator: the field before it and the field after it. */
  lemma SplitOnce(a: string, c: char, b: string)
    requires c !in a && c !in b
    ensures Split(a + [c] + b, c) == [a, b]
  {
    var s := a + [c] + b;
    LastIndexOfConcat(a + [c], b, c);
    LastIndexOfConcat(a, [c], c);
    assert LastIndexOf(s, c) == |a|;
    assert s[..|a|] == a && s[|a| + 1..] == b;
  }

  /** One step of splitting from the end: the last field, and what comes before the last separator. */
  lemma SplitLast(b: string, c: char, j: nat)
    requires j < |b| && LastIndexOf(b, c) == j
    ensures Split(b, c) == Split(b[..j], c) + [b[j + 1..]]
  {
  }

  /** The same step when a field and a separator come in front. */
  lemma SplitLastBehind(a: string, c: char, b: string, j: nat)
    requires j < |b| && LastIndexOf(b, c) == j
    ensures Split(a + [c] + b, c) == Split(a + [c] + b[..j], c) + [b[j + 1..]]
  {
    var s := a + [c] + b;
    LastIndexOfConcat(a + [c], b, c);
    var i := |a| + 1 + j;
    SplitLast(s, c, i);
    assert s[..i] == a + [c] + b[..j];
    assert s[i + 1..] == b[j + 1..];
  }

  /** Splitting at a first separator: the field before it, then the fields of what follows. */
  lemma {:induction false} SplitFirst(a: string, c: char, b: string)
    requires c !in a
    ensures Split(a + [c] + b, c) == [a] + Split(b, c)
    decreases |b|
  {
    var j := LastIndexOf(b, c);
    if j < 0 {
      SplitOnce(a, c, b);
    } else {
      SplitLast(b, c, j);
      SplitLastBehind(a, c, b, j);
      SplitFirst(a, c, b[..j]);
    }
  }

  /** The ID is the field after the first `_` when no other `_` follows. */
  lemma ExtractIdLast(prefix: string, id: string)
    requires '_' !in prefix && '_' !in id
    ensures ExtractId(prefix + "_" + id) == Some(id)
  {
    SplitOnce(prefix, '_', id);
  }

  /** The ID is the field between the first and the second `_`, whatever follows. */
  lemma ExtractIdField(prefix: string, id: string, rest: string)
    requires '_' !in prefix && '_' !in id
    ensures ExtractId(prefix + "_" + id + "_" + rest) == Some(id)
  {
    var tail := id + ['_'] + rest;
    var name := prefix + ['_'] + tail;
    assert prefix + "_" + id + "_" + rest == name;
    SplitFirst(id, '_', rest);
    SplitFirst(prefix, '_', tail);
    var fields := Split(name, '_');
    assert fields == [prefix] + ([id] + Split(rest, '_'));
    assert |fields| > 1 && fields[1] == id;
  }

  /** The asset names of the tests: a current name yields its object ID, an old-style name none. */
  lemma ExtractIdExamples()
    ensures ExtractId("myt_ncow421_pm") == Some("ncow421")
    ensures ExtractId("mytncow421pm") == None
  {
    ExtractIdField("myt", "ncow421", "pm");
    assert "myt" + "_" + "ncow421" + "_" + "pm" == "myt_ncow421_pm";
  }

  /**
   * `get_uuid_path(uuid)`, as the components joined onto one another: nine directory names
   * cut from the UUID at fixed offsets, then the UUID itself; a UUID that does not split
   * into five `-`-separated groups raises.
   */
  function GetUuidPath(uuid: string): (r: Result<seq<string>>)
    ensures r.Failure? <==> |Split(uuid, '-')| != 5
    ensures r.Failure? ==> r.error == UUID_VALUE_ERROR
    ensures r.Success? ==> |r.value| == 10 && r.value[9] == uuid
  {
    if |Split(uuid, '-')| != 5 then Failure(UUID_VALUE_ERROR)
    else
      Success([Slice(uuid, 0, 2), Slice(uuid, 0, 4), Slice(uuid, 4, 8), Slice(uuid, 9, 13), Slice(uuid, 14, 18),
               Slice(uuid, 19, 23), Slice(uuid, 24, 28), Slice(uuid, 28, 32), Slice(uuid, 32, 34), uuid])
  }

  /** A UUID in its canonical form: groups of 8, 4, 4, 4 and 12 characters, none holding `-` or `/`. */
  predicate CanonicalGroups(g: seq<string>)
  {
    |g| == 5 && |g[0]| == 8 && |g[1]| == 4 && |g[2]| == 4 && |g[3]| == 4 && |g[4]| == 12 &&
    forall k :: 0 <= k < 5 ==> '-' !in g[k] && '/' !in g[k]
  }

  function Dashed(g: seq<string>): string
    requires |g| == 5
  {
    g[0] + "-" + (g[1] + "-" + (g[2] + "-" + (g[3] + "-" + g[4])))
  }

  /** The five groups of a canonical UUID are exactly its `-`-separated fields. */
  lemma SplitCanonical(g: seq<string>)
    requires CanonicalGroups(g)
    ensures Split(Dashed(g), '-') == g
  {
    var s3 := g[3] + "-" + g[4];
    var s2 := g[2] + "-" + s3;
    var s1 := g[1] + "-" + s2;
    SplitOnce(g[3], '-', g[4]);
    assert Split(s3, '-') == [g[3], g[4]];
    SplitFirst(g[2], '-', s3);
    assert Split(s2, '-') == [g[2], g[3], g[4]];
    SplitFirst(g[1], '-', s2);
    assert Split(s1, '-') == [g[1], g[2], g[3], g[4]];
    SplitFirst(g[0], '-', s1);
    assert Split(Dashed(g), '-') == [g[0], g[1], g[2], g[3], g[4]];
  }

  lemma Around(a: string, c: char, b: string)
    ensures (a + [c] + b)[..|a|] == a && (a + [c] + b)[|a| + 1..] == b
  {
  }

  /** Where each group of a canonical UUID sits in its text. */
  lemma DashedSlices(g: seq<string>)
    requires CanonicalGroups(g)
    ensures var u := Dashed(g);
      |u| == 36 && u[..8] == g[0] && u[9..13] == g[1] && u[14..18] == g[2] && u[19..23] == g[3] && u[24..] == g[4]
  {
    var r3 := g[3] + "-" + g[4];
    var r2 := g[2] + "-" + r3;
    var r1 := g[1] + "-" + r2;
    var u := g[0] + "-" + r1;
    Around(g[0], '-', r1);
    Around(g[1], '-', r2);
    Around(g[2], '-', r3);
    Around(g[3], '-', g[4]);
    assert u[9..] == r1 && r1[5..] == r2 && r2[5..] == r3 && r3[5..] == g[4];
    assert u[14..] == r2 && u[19..] == r3 && u[24..] == g[4];
    assert u[9..13] == r1[..4] && u[14..18] == r2[..4] && u[19..23] == r3[..4];
  }

  /**
   * For a canonical UUID the directories are the first two characters, then the first group
   * in halves, the three middle groups whole, and the first ten characters of the last group
   * in pieces of four, four and two: none of them empty, none holding a separator, so each
   * is one directory level.
   */
  lemma UuidPathLayout(g: seq<string>)
    requires CanonicalGroups(g)
    ensures GetUuidPath(Dashed(g)) ==
      Success([g[0][..2], g[0][..4], g[0][4..], g[1], g[2], g[3], g[4][..4], g[4][4..8], g[4][8..10], Dashed(g)])
  {
    var u := Dashed(g);
    SplitCanonical(g);
    DashedSlices(g);
    assert u[0..2] == g[0][..2] && u[0..4] == g[0][..4] && u[4..8] == g[0][4..];
    assert u[24..28] == g[4][..4] && u[28..32] == g[4][4..8] && u[32..34] == g[4][8..10];
  }

  /** Every directory of a canonical UUID's path is one non-empty component without `/`. */
  lemma UuidPathComponents(g: seq<string>)
    requires CanonicalGroups(g)
    ensures GetUuidPath(Dashed(g)).Success?
    ensures forall k :: 0 <= k < 9 ==> GetUuidPath(Dashed(g)).value[k] != "" && '/' !in GetUuidPath(Dashed(g)).value[k]
  {
    UuidPathLayout(g);
    assert forall k :: 0 <= k < 5 ==> '/' !in g[k];
    assert '/' !in g[0] && '/' !in g[4];
    assert forall x :: x in g[0][..2] || x in g[0][..4] || x in g[0][4..] ==> x in g[0];
    assert forall x :: x in g[4][..4] || x in g[4][4..8] || x in g[4][8..10] ==> x in g[4];
  }

  /** The groups of the UUID the tests use, `12345678-3124-2314-1234-123456978102`. */
  function TestGroups(): seq<string>
  {
    ["12345678", "3124", "2314", "1234", "123456978102"]
  }

  lemma TestGroupsCanonical()
    ensures CanonicalGroups(TestGroups())
  {
    var g := TestGroups();
    assert |g[0]| == 8 && |g[4]| == 12;
    assert '-' !in g[0] && '/' !in g[0];
    assert '-' !in g[4] && '/' !in g[4];
    assert '-' !in g[1] && '/' !in g[1] && '-' !in g[2] && '/' !in g[2] && '-' !in g[3] && '/' !in g[3];
    assert CanonicalGroups(g);
  }

  lemma TestGroupsCut()
    ensures var g := TestGroups();
      g[0][..2] == "12" && g[0][..4] == "1234" && g[0][4..] == "5678" &&
      g[4][..4] == "1234" && g[4][4..8] == "5697" && g[4][8..10] == "81"
  {
    var g := TestGroups();
    assert g[0] == "12" + "34" + "5678" + "" && g[4] == "1234" + "5697" + "81" + "02";
    Pieces("12", "34", "5678", "");
    Pieces("1234", "5697", "81", "02");
    assert "12" + "34" == "1234";
  }

  /** The UUID of the tests lands under `12/1234/5678/3124/2314/1234/1234/5697/81`. */
  lemma UuidPathExample()
    ensures var uuid := Dashed(TestGroups());
      GetUuidPath(uuid) == Success(["12", "1234", "5678", "3124", "2314", "1234", "1234", "5697", "81", uuid])
  {
    TestGroupsCanonical();
    TestGroupsCut();
    UuidPathLayout(TestGroups());
  }

  /** The first three parts of a concatenation of four, cut back out by position. */
  lemma Pieces(a: string, b: string, c: string, d: string)
    ensures var x := a + b + c + d;
      x[..|a|] == a && x[..|a| + |b|] == a + b && x[|a|..|a| + |b|] == b &&
      x[|a| + |b|..|a| + |b| + |c|] == c && (d == "" ==> x[|a| + |b|..] == c)
  {
  }

  /** A UUID with its dashes taken out is a single field, and raises. */
  lemma UndashedUuidRaises(uuid: string)
    requires '-' !in uuid
    ensures GetUuidPath(uuid) == Failure(UUID_VALUE_ERROR)
  {
  }

  /** A row of the assets CSV, by column name. */
  type Row = map<string, string>

  /** The object an asset row belongs to. */
  function RowId(row: Row): Option<string>
  {
    if "name" in row then ExtractId(row["name"]) else None
  }

  /** `assets_dict` after the rows so far: each row appended to the list under its object ID. */
  function Grouped(rows: seq<Row>): map<Option<string>, seq<Row>>
  {
    if rows == [] then map[]
    else
      var m := Grouped(rows[..|rows| - 1]);
      var row := rows[|rows| - 1];
      var key := RowId(row);
      m[key := (if key in m then m[key] else []) + [row]]
  }

  /** The rows that belong to one object, in file order. */
  function RowsOf(rows: seq<Row>, key: Option<string>): seq<Row>
  {
    if rows == [] then []
    else (if RowId(rows[0]) == key then [rows[0]] else []) + RowsOf(rows[1..], key)
  }

  lemma {:induction false} RowsOfAppend(rows: seq<Row>, row: Row, key: Option<string>)
    ensures RowsOf(rows + [row], key) == RowsOf(rows, key) + (if RowId(row) == key then [row] else [])
  {
    if rows != [] {
      assert (rows + [row])[1..] == rows[1..] + [row];
      RowsOfAppend(rows[1..], row, key);
    }
  }

  /**
   * The grouping keys are exactly the IDs of the rows (`None` for names without `_`), and
   * each key holds the rows with that ID, in file order.
   */
  lemma {:induction false} GroupedMeans(rows: seq<Row>, key: Option<string>)
    ensures key in Grouped(rows) <==> exists i :: 0 <= i < |rows| && RowId(rows[i]) == key
    ensures key in Grouped(rows) ==> Grouped(rows)[key] == RowsOf(rows, key) != []
    ensures key !in Grouped(rows) ==> RowsOf(rows, key) == []
  {
    if rows != [] {
      var init, row := rows[..|rows| - 1], rows[|rows| - 1];
      GroupedMeans(init, key);
      RowsOfAppend(init, row, key);
      assert rows == init + [row];
      assert forall i :: 0 <= i < |init| ==> init[i] == rows[i];
    }
  }

  /** Every row is kept under some key: the groups together hold as many rows as the file. */
  lemma {:induction false} GroupedKeepsRows(rows: seq<Row>, i: nat)
    requires i < |rows|
    ensures RowId(rows[i]) in Grouped(rows) && rows[i] in Grouped(rows)[RowId(rows[i])]
  {
    var key := RowId(rows[i]);
    GroupedMeans(rows, key);
    RowsOfHas(rows, i);
  }

  lemma {:induction false} RowsOfHas(rows: seq<Row>, i: nat)
    requires i < |rows|
    ensures rows[i] in RowsOf(rows, RowId(rows[i]))
  {
    if i > 0 {
      RowsOfHas(rows[1..], i - 1);
    }
  }

  /**
   * `parse_assets(path)`, over the header of the CSV (`None` for an empty file) and its rows:
   * a header without `name` and `uuid` raises, otherwise the rows are grouped by object.
   */
  method ParseAssets(header: Option<seq<string>>, rows: seq<Row>) returns (r: Result<map<Option<string>, seq<Row>>>)
    requires header.Some? ==> forall i :: 0 <= i < |rows| ==> forall f :: f in header.value ==> f in rows[i]
    ensures header.None? ==> r == Failure(NO_FIELDNAMES)
    ensures header.Some? && !("name" in header.value && "uuid" in header.value) ==> r == Failure(HEADER_VALUE_ERROR)
    ensures header.Some? && "name" in header.value && "uuid" in header.value ==> r == Success(Grouped(rows))
  {
    if header.None? {
      return Failure(NO_FIELDNAMES);
    }
    if !("name" in header.value && "uuid" in header.value) {
      return Failure(HEADER_VALUE_ERROR);
    }
    var assets: map<Option<string>, seq<Row>> := map[];
    for i := 0 to |rows|
      invariant assets == Grouped(rows[..i])
    {
      assert rows[..i + 1][..i] == rows[..i];
      var objectId := ExtractId(rows[i]["name"]);
      assert objectId == RowId(rows[i]);
      if objectId !in assets {
        assets := assets[objectId := []];
      }
      assets := assets[objectId := assets[objectId] + [rows[i]]];
    }
    assert rows[..|rows|] == rows;
    return Success(assets);
  }

  /** One file of an object: the object ID, the asset's name and its UUID. */
  datatype Entry = Entry(objectId: string, filename: string, uuid: string)

  /** What `get_object_entries` returns for an object: one entry per recorded row, in order. */
  function Entries(objectId: string, rows: seq<Row>): (es: seq<Entry>)
    requires forall i :: 0 <= i < |rows| ==> "name" in rows[i] && "uuid" in rows[i]
    ensures |es| == |rows|
    ensures forall i :: 0 <= i < |rows| ==> es[i] == Entry(objectId, rows[i]["name"], rows[i]["uuid"])
  {
    seq(|rows|, i requires 0 <= i < |rows| => Entry(objectId, rows[i]["name"], rows[i]["uuid"]))
  }

  /** `get_object_entries(object_id, assets_dict)`: an object with no rows gets an empty list. */
  method GetObjectEntries(objectId: string, assets: map<Option<string>, seq<Row>>) returns (entries: seq<Entry>)
    requires forall k :: k in assets ==> forall i :: 0 <= i < |assets[k]| ==> "name" in assets[k][i] && "uuid" in assets[k][i]
    ensures Some(objectId) !in assets ==> entries == []
    ensures Some(objectId) in assets ==> entries == Entries(objectId, assets[Some(objectId)])
  {
    entries := [];
    if Some(objectId) in assets {
      var files := assets[Some(objectId)];
      for i := 0 to |files|
        invariant entries == Entries(objectId, files[..i])
      {
        entries := entries + [Entry(objectId, files[i]["name"], files[i]["uuid"])];
      }
      assert files[..|files|] == files;
    }
  }

  /**
   * Looking an object up in the grouped assets gives an entry for each row of the file whose
   * name carries that ID, in file order, and nothing for an ID no row carries.
   */
  lemma EntriesOfObject(rows: seq<Row>, objectId: string)
    requires forall i :: 0 <= i < |rows| ==> "name" in rows[i] && "uuid" in rows[i]
    ensures Some(objectId) in Grouped(rows) <==> exists i :: 0 <= i < |rows| && ExtractId(rows[i]["name"]) == Some(objectId)
    ensures Some(objectId) in Grouped(rows) ==>
      var found := RowsOf(rows, Some(objectId));
      Grouped(rows)[Some(objectId)] == found &&
      (forall i :: 0 <= i < |found| ==> "name" in found[i] && "uuid" in found[i] && ExtractId(found[i]["name"]) == Some(objectId)) &&
      Entries(objectId, Grouped(rows)[Some(objectId)]) == Entries(objectId, found)
  {
    GroupedMeans(rows, Some(objectId));
    RowsOfFrom(rows, Some(objectId));
  }

  /** Every row `RowsOf` picks comes from the file and carries the key. */
  lemma {:induction false} RowsOfFrom(rows: seq<Row>, key: Option<string>)
    ensures forall i :: 0 <= i < |RowsOf(rows, key)| ==> RowsOf(rows, key)[i] in rows && RowId(RowsOf(rows, key)[i]) == key
  {
    if rows != [] {
      RowsOfFrom(rows[1..], key);
      var found := RowsOf(rows, key);
      var here := if RowId(rows[0]) == key then [rows[0]] else [];
      assert found == here + RowsOf(rows[1..], key);
      assert forall x :: x in rows[1..] ==> x in rows;
    }
  }
}
