/**
 * The nested metadata tree of `ami_json` (ami_md/ami_json.py): the dotted headers of a flat
 * dictionary, such as `technical.fileFormat`, become paths into a dictionary of dictionaries.
 * Dictionaries are values here; the in-place writes of the source become functions that
 * return the updated tree.
 */
module AmiJson {
  import opened Wrappers

  /** Writing into, or testing membership in, a value that is not a dictionary. */
  const TYPE_ERROR := "TypeError: the dotted path runs through a value that is not a dictionary"

  /** A node of the tree: a value from the flat dictionary, or a dictionary of named children. */
  datatype Node<V> = Leaf(value: V) | Dict(children: map<string, Node<V>>)

  type Tree<V> = map<string, Node<V>>

  /** `key.split(".", 1)` for a key holding a dot: the text before the first dot and the text after it. */
  function SplitFirstDot(key: string): (r: (string, string))
    requires '.' in key
    ensures r.0 + "." + r.1 == key && '.' !in r.0
  {
    if key[0] == '.' then ("", key[1..])
    else
      var (h, t) := SplitFirstDot(key[1..]);
      assert [key[0]] + h + "." + t == [key[0]] + key[1..];
      ([key[0]] + h, t)
  }

  /** The components of a dotted key, each taken up to the next dot. */
  function Path(key: string): (p: seq<string>)
    ensures p != []
    decreases |key|
  {
    if '.' in key then
      var (head, rest) := SplitFirstDot(key);
      [head] + Path(rest)
    else [key]
  }

  /** Following a path of names from the top of a tree: the node it reaches, if any. */
  function Find<V>(tree: Tree<V>, path: seq<string>): Option<Node<V>>
    requires path != []
    decreases |path|
  {
    if path[0] !in tree then None
    else if |path| == 1 then Some(tree[path[0]])
    else
      match tree[path[0]]
      case Leaf(_) => None
      case Dict(m) => Find(m, path[1..])
  }

  /**
   * `convert_dotKeyToNestedDict(tree, key, value)`: a key without a dot sets (or overwrites)
   * that entry; a dotted key creates an empty dictionary under its first component only when
   * that component is absent, and descends into it with the rest of the key.
   */
  function Insert<V>(tree: Tree<V>, key: string, value: V): Result<Tree<V>>
    decreases |key|
  {
    if '.' in key then
      var (head, rest) := SplitFirstDot(key);
      var sub := if head in tree then tree[head] else Dict(map[]);
      match sub
      case Leaf(_) => Failure(TYPE_ERROR)
      case Dict(m) =>
        var m' :- Insert(m, rest, value);
        Success(tree[head := Dict(m')])
    else Success(tree[key := Leaf(value)])
  }

  /** Some proper prefix of the path leads to a value rather than a dictionary. */
  predicate Blocked<V>(tree: Tree<V>, path: seq<string>)
    decreases |path|
  {
    |path| > 1 && path[0] in tree &&
    match tree[path[0]]
    case Leaf(_) => true
    case Dict(m) => Blocked(m, path[1..])
  }

  predicate IsPrefix(a: seq<string>, b: seq<string>)
  {
    |a| <= |b| && b[..|a|] == a
  }

  /** Two paths of which one leads into (or to) the other. */
  predicate Comparable(a: seq<string>, b: seq<string>)
  {
    IsPrefix(a, b) || IsPrefix(b, a)
  }

  /** Inserting fails exactly when the dotted path runs through a value. */
  lemma {:induction false} InsertFails<V>(tree: Tree<V>, key: string, value: V)
    ensures Insert(tree, key, value).Failure? <==> Blocked(tree, Path(key))
    ensures Insert(tree, key, value).Failure? ==> Insert(tree, key, value).error == TYPE_ERROR
    decreases |key|
  {
    if '.' in key {
      var (head, rest) := SplitFirstDot(key);
      assert Path(key) == [head] + Path(rest);
      assert Path(key)[1..] == Path(rest);
      if head in tree && tree[head].Dict? {
        InsertFails(tree[head].children, rest, value);
      } else if head !in tree {
        var empty: Tree<V> := map[];
        InsertFails(empty, rest, value);
        assert !Blocked(empty, Path(rest));
      }
    }
  }

  /** After a successful insert, following the dotted key from the top reaches the value. */
  lemma {:induction false} InsertReaches<V>(tree: Tree<V>, key: string, value: V)
    requires Insert(tree, key, value).Success?
    ensures Find(Insert(tree, key, value).value, Path(key)) == Some(Leaf(value))
    decreases |key|
  {
    if '.' in key {
      var (head, rest) := SplitFirstDot(key);
      var m := if head in tree && tree[head].Dict? then tree[head].children else map[];
      InsertReaches(m, rest, value);
      assert Path(key) == [head] + Path(rest);
      assert Path(key)[1..] == Path(rest);
    }
  }

  /**
   * A successful insert changes nothing off its path: every path that neither leads into nor
   * runs through the key's path finds what it found before, so siblings under a shared prefix
   * are kept.
   */
  lemma {:induction false} InsertFrame<V>(tree: Tree<V>, key: string, value: V, q: seq<string>)
    requires Insert(tree, key, value).Success?
    requires q != [] && !Comparable(q, Path(key))
    ensures Find(Insert(tree, key, value).value, q) == Find(tree, q)
    decreases |key|
  {
    var r := Insert(tree, key, value).value;
    if '.' in key {
      var (head, rest) := SplitFirstDot(key);
      var P := Path(key);
      assert P == [head] + Path(rest);
      if q[0] == head && |q| > 1 {
        var m := if head in tree && tree[head].Dict? then tree[head].children else map[];
        assert r[head] == Dict(Insert(m, rest, value).value);
        InsertFrame(m, rest, value, q[1..]);
      }
    }
  }

  /** The fold of the `flat_dict` branch of `__init__`: every item inserted, in order, into one tree. */
  function Nest<V>(items: seq<(string, V)>): Result<Tree<V>>
  {
    if items == [] then Success(map[])
    else
      var t :- Nest(items[..|items| - 1]);
      Insert(t, items[|items| - 1].0, items[|items| - 1].1)
  }

  /** The `flat_dict` loop of `__init__`. */
  method NestFlatDict<V>(items: seq<(string, V)>) returns (r: Result<Tree<V>>)
    ensures r == Nest(items)
  {
    var nested: Tree<V> := map[];
    for i := 0 to |items|
      invariant Nest(items[..i]) == Success(nested)
    {
      assert items[..i + 1][..i] == items[..i];
      var next := Insert(nested, items[i].0, items[i].1);
      if next.Failure? {
        NestFailureSticks(items, i + 1);
        return Failure(next.error);
      }
      nested := next.value;
    }
    assert items[..|items|] == items;
    return Success(nested);
  }

  /** Once an insert raises, the fold raises with the same error whatever items follow. */
  lemma {:induction false} NestFailureSticks<V>(items: seq<(string, V)>, n: nat)
    requires n <= |items| && Nest(items[..n]).Failure?
    ensures Nest(items) == Nest(items[..n])
    decreases |items| - n
  {
    if n < |items| {
      assert items[..n + 1][..n] == items[..n];
      NestFailureSticks(items, n + 1);
    } else {
      assert items[..n] == items;
    }
  }

  /**
   * After the fold, every item whose path no later item leads into or runs through is found
   * at its path: keys sharing a prefix end up side by side in one subtree.
   */
  lemma {:induction false} NestKeeps<V>(items: seq<(string, V)>, i: nat)
    requires Nest(items).Success? && i < |items|
    requires forall j :: i < j < |items| ==> !Comparable(Path(items[j].0), Path(items[i].0))
    ensures Find(Nest(items).value, Path(items[i].0)) == Some(Leaf(items[i].1))
  {
    var n := |items| - 1;
    var prefix := items[..n];
    var t := Nest(prefix).value;
    if i == n {
      InsertReaches(t, items[n].0, items[n].1);
    } else {
      assert forall j :: i < j < |prefix| ==> prefix[j] == items[j];
      NestKeeps(prefix, i);
      assert !Comparable(Path(items[i].0), Path(items[n].0));
      InsertFrame(t, items[n].0, items[n].1, Path(items[i].0));
    }
  }

  /** `__init__` with a flat dictionary: the nested tree, left unset when the dictionary is empty. */
  method FromFlatDict<V>(items: seq<(string, V)>) returns (r: Result<Option<Tree<V>>>)
    ensures items == [] ==> r == Success(None)
    ensures items != [] ==> (r.Failure? <==> Nest(items).Failure?)
    ensures items != [] && r.Success? ==> r.value == Some(Nest(items).value)
  {
    if items == [] {
      return Success(None);
    }
    var nested := NestFlatDict(items);
    if nested.Failure? {
      return Failure(nested.error);
    }
    return Success(Some(nested.value));
  }
}
