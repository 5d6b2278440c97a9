/**
 * The untyped tree of pkg/translate/translateValue.go: a `map[string]interface{}`
 * whose values are scalars, lists or nested maps, and `setUntypedTree`, which
 * writes a value at a path, creating missing intermediate maps.
 *
 * Go mutates the nested maps in place through shared references; here a tree
 * is a value and the write returns the updated tree. Nothing else holds a
 * reference to the destination tree while it is written, so the two agree.
 */
module UntypedTree {
  import opened Wrappers
  import opened Errors
  import opened Paths

  datatype Value =
    | Nil
    | Str(s: string)
    | Bool(b: bool)
    | Int(i: int)
    | List(items: seq<Value>)
    | Map(m: map<string, Value>)

  type Tree = map<string, Value>

  /** How a write into a tree ended: normally, with a returned error, or with a Go panic. */
  datatype Outcome = Ok | Failed(err: Error) | Panicked(reason: string)

  const EmptyPathError: Error := Message("path cannot be empty")
  const NotAMapPanic: string := "interface conversion: interface {} is not map[string]interface {}"

  /** The value reached by following `p` from `v`, if every step is a map holding the key. */
  function GetValue(v: Value, p: Path): Option<Value>
    decreases |p|
  {
    if p == [] then Some(v)
    else if v.Map? && p[0] in v.m then GetValue(v.m[p[0]], p[1..])
    else None
  }

  /** The value at path `p` below the root map `t`. */
  function Get(t: Tree, p: Path): Option<Value>
  {
    GetValue(Map(t), p)
  }

  /** One step of a lookup from the root map. */
  lemma GetStep(t: Tree, p: Path)
    requires p != []
    ensures Get(t, p) == if p[0] in t then GetValue(t[p[0]], p[1..]) else None
  {
  }

  /**
   * A path `setUntypedTree` can write without panicking: non-empty, and every
   * intermediate node that already exists is nil or a map.
   */
  predicate Writable(t: Tree, path: Path)
    decreases |path|
  {
    && |path| >= 1
    && (|path| == 1
        || path[0] !in t
        || t[path[0]].Nil?
        || (t[path[0]].Map? && Writable(t[path[0]].m, path[1..])))
  }

  /**
   * `setUntypedTree(root, path, value)`: an empty path is an error; a path of
   * one segment stores the value; otherwise a nil or missing node is replaced
   * by an empty map and the write continues below it. A node that exists and
   * is not a map makes the type assertion panic; maps created above it stay.
   */
  function SetUntypedTree(root: Tree, path: Path, value: Value): (r: (Tree, Outcome))
    ensures path == [] ==> r == (root, Failed(EmptyPathError))
    ensures path != [] ==> (r.1.Ok? <==> Writable(root, path))
    ensures path != [] ==> (r.1.Panicked? <==> !Writable(root, path))
    ensures r.1.Ok? ==> Get(r.0, path) == Some(value)
    decreases |path|
  {
    if |path| == 0 then (root, Failed(EmptyPathError))
    else if |path| == 1 then
      assert path[1..] == [];
      GetStep(root[path[0] := value], path);
      (root[path[0] := value], Ok)
    else if path[0] in root && !root[path[0]].Nil? && !root[path[0]].Map? then
      (root, Panicked(NotAMapPanic))
    else
      var child := if path[0] in root && root[path[0]].Map? then root[path[0]].m else map[];
      var (sub, o) := SetUntypedTree(child, path[1..], value);
      (root[path[0] := Map(sub)], o)
  }

  /** A write changes only the first-level key it starts from. */
  lemma SetTopKeys(root: Tree, path: Path, value: Value)
    requires path != []
    ensures var r := SetUntypedTree(root, path, value);
      r.1.Ok? ==> r.0.Keys == root.Keys + {path[0]}
    ensures var r := SetUntypedTree(root, path, value);
      forall k :: k in root && k != path[0] ==> k in r.0 && r.0[k] == root[k]
  {
  }

  /**
   * Keys off the path are unchanged: any path that is neither a prefix nor an
   * extension of the written path reads the same before and after, whatever
   * the outcome.
   */
  lemma {:induction false} SetKeepsOtherPaths(root: Tree, path: Path, value: Value, q: Path)
    requires !(q <= path) && !(path <= q)
    ensures Get(SetUntypedTree(root, path, value).0, q) == Get(root, q)
    decreases |path|
  {
    var r := SetUntypedTree(root, path, value);
    assert q != [] && path != [];
    if q[0] != path[0] {
      SetTopKeys(root, path, value);
    } else if path[0] in root && !root[path[0]].Nil? && !root[path[0]].Map? {
    } else {
      assert |path| >= 2 && |q| >= 2;
      var child := if path[0] in root && root[path[0]].Map? then root[path[0]].m else map[];
      var (sub, o) := SetUntypedTree(child, path[1..], value);
      assert r.0 == root[path[0] := Map(sub)];
      assert !(q[1..] <= path[1..]) && !(path[1..] <= q[1..]);
      SetKeepsOtherPaths(child, path[1..], value, q[1..]);
      assert Get(r.0, q) == Get(sub, q[1..]);
      if path[0] in root && root[path[0]].Map? {
        assert Get(root, q) == Get(child, q[1..]);
      } else {
        assert path[0] !in root || GetValue(root[path[0]], q[1..]) == None;
        assert Get(root, q) == None;
        assert Get(child, q[1..]) == None;
      }
    }
  }

  /**
   * Intermediate nodes on a writable path are maps afterwards; one that was
   * missing or nil is a new map holding only the next segment of the path.
   */
  lemma {:induction false} SetCreatesIntermediateMaps(root: Tree, path: Path, value: Value, i: nat)
    requires Writable(root, path)
    requires 0 < i < |path|
    ensures var after := Get(SetUntypedTree(root, path, value).0, path[..i]);
      after.Some? && after.value.Map? && path[i] in after.value.m
    ensures var before := Get(root, path[..i]);
      var after := Get(SetUntypedTree(root, path, value).0, path[..i]);
      (before.None? || before.value.Nil?) ==> after.value.m.Keys == {path[i]}
    decreases |path|
  {
    var child := if path[0] in root && root[path[0]].Map? then root[path[0]].m else map[];
    var (sub, o) := SetUntypedTree(child, path[1..], value);
    assert SetUntypedTree(root, path, value).0 == root[path[0] := Map(sub)];
    assert Writable(child, path[1..]);
    SetTopKeys(child, path[1..], value);
    assert o.Ok?;
    if i == 1 {
      assert path[..1] == [path[0]];
      assert path[..1][1..] == [];
      GetStep(root[path[0] := Map(sub)], path[..1]);
      GetStep(root, path[..1]);
      assert Get(SetUntypedTree(root, path, value).0, path[..1]) == Some(Map(sub));
      assert path[1..][0] == path[1];
    } else {
      SetCreatesIntermediateMaps(child, path[1..], value, i - 1);
      assert path[1..][..i - 1] == path[1..i];
      assert path[..i][1..] == path[1..i];
      if !(path[0] in root && root[path[0]].Map?) {
        assert path[..i][0] == path[0];
        assert path[0] !in root || GetValue(root[path[0]], path[1..i]) == None;
        assert Get(root, path[..i]) == None;
        assert Get(child, path[1..i]) == None;
      }
    }
  }
}
