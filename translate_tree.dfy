/**
 * The tree-walking half of pkg/translate/translateValue.go: rule lookup by
 * longest prefix, the default translation function, `insertLeaf` and the
 * recursive `translateTree` walk over a values tree.
 *
 * The destination tree is a value threaded through the calls; Go writes the
 * same nested maps in place, and no other reference to them exists while a
 * translation runs.
 */
module Translate {
  import opened Wrappers
  import opened Errors
  import opened Paths
  import opened UntypedTree

  /** A named custom translation function stored in a rule. */
  datatype CustomFunc = CustomFunc(name: string)

  /**
   * What each custom translation function does, given the destination tree,
   * the mapped values path and the leaf value. No rule of the 1.2 tables
   * carries one; the functions themselves are not modelled from their code.
   */
  type CustomApply = (CustomFunc, Tree, string, Value) -> (Tree, Outcome)

  /** `Translation`: an output path template and an optional custom function. */
  datatype Translation = Translation(outPath: string, translationFunc: Option<CustomFunc>)

  /** A rule table, keyed by a dotted values path. */
  type Mapping = map<string, Translation>

  /** A leaf of a values tree: its path relative to the tree and its value. */
  datatype Leaf = Leaf(rel: Path, value: Value)

  /** `l` is a leaf of `t`: a non-map value (nil included) reached by a non-empty path. */
  ghost predicate IsLeafOf(t: Tree, l: Leaf)
  {
    |l.rel| >= 1 && Get(t, l.rel) == Some(l.value) && !l.value.Map?
  }

  ghost predicate DistinctPaths(ls: seq<Leaf>)
  {
    forall i, j :: 0 <= i < j < |ls| ==> ls[i].rel != ls[j].rel
  }

  /** `ls` hands over leaves of `t`, none twice. */
  ghost predicate WalkOf(t: Tree, ls: seq<Leaf>)
  {
    (forall i :: 0 <= i < |ls| ==> IsLeafOf(t, ls[i])) && DistinctPaths(ls)
  }

  /** `ls` hands over every leaf of `t` exactly once. */
  ghost predicate FullWalkOf(t: Tree, ls: seq<Leaf>)
  {
    WalkOf(t, ls) && forall l :: IsLeafOf(t, l) ==> l in ls
  }

  /* ---------------- rule lookup ---------------- */

  /** `k` is the longest prefix length of `path` whose printed form has a rule. */
  ghost predicate LongestMatch(mapping: Mapping, path: Path, k: nat)
  {
    0 < k <= |path|
    && Join(path[..k]) in mapping
    && forall j :: k < j <= |path| ==> Join(path[..j]) !in mapping
  }

  /** The longest prefix of `path[..n]` with a rule, or 0 when there is none. */
  function MatchLength(mapping: Mapping, path: Path, n: nat): (k: nat)
    requires n <= |path|
    ensures k <= n
    ensures k > 0 ==> Join(path[..k]) in mapping
    ensures forall j :: k < j <= n ==> Join(path[..j]) !in mapping
    decreases n
  {
    if n == 0 then 0
    else if Join(path[..n]) in mapping then n
    else MatchLength(mapping, path, n - 1)
  }

  /** The values path a rule sends a leaf to: the rule's output path, then the unmatched rest. */
  function OutPathFor(outPath: string, rest: Path): string
  {
    if outPath == "" then "" else outPath + "." + Join(rest)
  }

  /**
   * `getValuesPathMapping` (defined elsewhere in the package and not modelled from its code; istio's
   * longest-prefix loop): try `path`, then ever shorter non-empty prefixes,
   * and use the first one that has a rule.
   */
  function GetValuesPathMapping(mapping: Mapping, path: Path): (r: Option<(string, Translation)>)
    ensures r.None? <==> forall j :: 0 < j <= |path| ==> Join(path[..j]) !in mapping
    ensures r.Some? ==> exists k: nat :: LongestMatch(mapping, path, k)
                              && r.value.1 == mapping[Join(path[..k])]
                              && r.value.0 == OutPathFor(r.value.1.outPath, path[k..])
  {
    var k := MatchLength(mapping, path, |path|);
    if k == 0 then None
    else
      var m := mapping[Join(path[..k])];
      assert LongestMatch(mapping, path, k);
      Some((OutPathFor(m.outPath, path[k..]), m))
  }

  /* ---------------- default translation ---------------- */

  /** `util.IsEmptyString` (defined in pkg/util, not modelled from its code): nil or the empty string. */
  predicate IsEmptyString(v: Value)
  {
    v.Nil? || (v.Str? && v.s == "")
  }

  /** The destination path of a values path: its segments, each with the first character lower-cased. */
  function DestinationPath(valuesPath: string): (p: Path)
    ensures |p| == |PathFromString(valuesPath)|
    ensures forall i :: 0 <= i < |p| ==> p[i] == FirstCharToLower(PathFromString(valuesPath)[i]) && p[i] != []
  {
    LowerSegments(PathFromString(valuesPath))
  }

  /**
   * `defaultValueTranslationFunc`: skip an empty value or an empty values
   * path; otherwise write the value at the lower-cased destination path.
   */
  function DefaultValueTranslationFunc(root: Tree, valuesPath: string, value: Value): (r: (Tree, Outcome))
    ensures IsEmptyString(value) || valuesPath == "" ==> r == (root, Ok)
    ensures !IsEmptyString(value) && valuesPath != "" ==>
      var dest := DestinationPath(valuesPath);
      && (dest == [] ==> r == (root, Failed(EmptyPathError)))
      && (dest != [] ==> (r.1.Ok? <==> Writable(root, dest)) && (!r.1.Ok? ==> r.1.Panicked?))
      && (r.1.Ok? ==> Get(r.0, dest) == Some(value))
  {
    if IsEmptyString(value) then (root, Ok)
    else if valuesPath == "" then (root, Ok)
    else SetUntypedTree(root, DestinationPath(valuesPath), value)
  }

  /** The default translation changes nothing off its destination path. */
  lemma DefaultKeepsOtherPaths(root: Tree, valuesPath: string, value: Value, q: Path)
    requires !(q <= DestinationPath(valuesPath)) && !(DestinationPath(valuesPath) <= q)
    ensures Get(DefaultValueTranslationFunc(root, valuesPath, value).0, q) == Get(root, q)
  {
    if !IsEmptyString(value) && valuesPath != "" {
      SetKeepsOtherPaths(root, DestinationPath(valuesPath), value, q);
    }
  }

  /* ---------------- insertLeaf ---------------- */

  /**
   * `insertLeaf`: look the leaf's path up, then write it with the rule's
   * custom function or, when it has none, the default one.
   */
  function InsertLeaf(root: Tree, path: Path, value: Value, mapping: Mapping, apply: CustomApply): (Tree, Outcome)
  {
    match GetValuesPathMapping(mapping, path)
    case None => (root, Ok)
    case Some((valuesPath, m)) =>
      if m.translationFunc.None? then DefaultValueTranslationFunc(root, valuesPath, value)
      else apply(m.translationFunc.value, root, valuesPath, value)
  }

  /**
   * What `insertLeaf` does, by the longest matching rule: nothing, with no
   * error, when no prefix of the path has a rule; otherwise the rule's
   * custom function if it has one, else the default translation, on the
   * rule's output path followed by the unmatched rest of the path.
   */
  lemma InsertLeafDispatch(root: Tree, path: Path, value: Value, mapping: Mapping, apply: CustomApply)
    ensures (forall j :: 0 < j <= |path| ==> Join(path[..j]) !in mapping) ==> InsertLeaf(root, path, value, mapping, apply) == (root, Ok)
    ensures forall k: nat :: LongestMatch(mapping, path, k) && mapping[Join(path[..k])].translationFunc.None? ==>
      InsertLeaf(root, path, value, mapping, apply)
        == DefaultValueTranslationFunc(root, OutPathFor(mapping[Join(path[..k])].outPath, path[k..]), value)
    ensures forall k: nat :: LongestMatch(mapping, path, k) && mapping[Join(path[..k])].translationFunc.Some? ==>
      var m := mapping[Join(path[..k])];
      InsertLeaf(root, path, value, mapping, apply) == apply(m.translationFunc.value, root, OutPathFor(m.outPath, path[k..]), value)
  {
    var found := GetValuesPathMapping(mapping, path);
    forall k: nat | LongestMatch(mapping, path, k)
      ensures found.Some? && found.value.1 == mapping[Join(path[..k])]
      ensures found.value.0 == OutPathFor(mapping[Join(path[..k])].outPath, path[k..])
    {
      assert Join(path[..k]) in mapping;
      var k': nat :| LongestMatch(mapping, path, k') && found.value.1 == mapping[Join(path[..k'])]
                && found.value.0 == OutPathFor(found.value.1.outPath, path[k'..]);
      LongestMatchUnique(mapping, path, k, k');
    }
  }

  lemma LongestMatchUnique(mapping: Mapping, path: Path, k: nat, k': nat)
    requires LongestMatch(mapping, path, k) && LongestMatch(mapping, path, k')
    ensures k == k'
  {
  }

  /**
   * The leaves handed to `insertLeaf` one after another, each under
   * `prefix`; the first outcome that is not Ok ends the walk.
   */
  function InsertLeaves(dst: Tree, prefix: Path, leaves: seq<Leaf>, mapping: Mapping, apply: CustomApply): (r: (Tree, Outcome))
    ensures leaves == [] ==> r == (dst, Ok)
    decreases |leaves|
  {
    if leaves == [] then (dst, Ok)
    else
      var (d1, o1) := InsertLeaf(dst, prefix + leaves[0].rel, leaves[0].value, mapping, apply);
      if !o1.Ok? then (d1, o1) else InsertLeaves(d1, prefix, leaves[1..], mapping, apply)
  }

  /** A walk in two stretches: the second runs only if the first ended Ok. */
  lemma {:induction false} InsertLeavesAppend(dst: Tree, prefix: Path, a: seq<Leaf>, b: seq<Leaf>, mapping: Mapping, apply: CustomApply)
    ensures InsertLeaves(dst, prefix, a + b, mapping, apply)
         == (var (d1, o1) := InsertLeaves(dst, prefix, a, mapping, apply);
             if o1.Ok? then InsertLeaves(d1, prefix, b, mapping, apply) else (d1, o1))
    decreases |a|
  {
    if a == [] {
      assert a + b == b;
    } else {
      assert (a + b)[0] == a[0];
      assert (a + b)[1..] == a[1..] + b;
      var (d1, o1) := InsertLeaf(dst, prefix + a[0].rel, a[0].value, mapping, apply);
      if o1.Ok? {
        InsertLeavesAppend(d1, prefix, a[1..], b, mapping, apply);
      }
    }
  }

  /** The leaves of a subtree `k`, seen from the tree that holds it. */
  function Lift(k: string, ls: seq<Leaf>): (r: seq<Leaf>)
    ensures |r| == |ls|
    ensures forall i :: 0 <= i < |ls| ==> r[i] == Leaf([k] + ls[i].rel, ls[i].value)
  {
    if ls == [] then [] else [Leaf([k] + ls[0].rel, ls[0].value)] + Lift(k, ls[1..])
  }

  /** Walking lifted leaves from `prefix` is walking the subtree's leaves from `prefix + [k]`. */
  lemma {:induction false} InsertLeavesLift(dst: Tree, prefix: Path, k: string, ls: seq<Leaf>, mapping: Mapping, apply: CustomApply)
    ensures InsertLeaves(dst, prefix, Lift(k, ls), mapping, apply) == InsertLeaves(dst, prefix + [k], ls, mapping, apply)
    decreases |ls|
  {
    if ls != [] {
      var lifted := Lift(k, ls);
      assert prefix + lifted[0].rel == prefix + [k] + ls[0].rel;
      assert lifted[1..] == Lift(k, ls[1..]);
      var (d1, o1) := InsertLeaf(dst, prefix + [k] + ls[0].rel, ls[0].value, mapping, apply);
      if o1.Ok? {
        InsertLeavesLift(d1, prefix, k, ls[1..], mapping, apply);
      }
    }
  }

  /** The leaves of `t[k]`, when it is a map, lifted by `k` are leaves of `t` below `k`. */
  lemma LiftedLeaves(t: Tree, k: string, ls: seq<Leaf>)
    requires k in t && t[k].Map?
    requires forall i :: 0 <= i < |ls| ==> IsLeafOf(t[k].m, ls[i])
    ensures forall i :: 0 <= i < |ls| ==> IsLeafOf(t, Lift(k, ls)[i]) && Lift(k, ls)[i].rel[0] == k
  {
    var lifted := Lift(k, ls);
    forall i | 0 <= i < |ls|
      ensures IsLeafOf(t, lifted[i]) && lifted[i].rel[0] == k
    {
      var p := [k] + ls[i].rel;
      assert p[1..] == ls[i].rel;
      GetStep(t, p);
    }
  }

  lemma LiftDistinct(k: string, ls: seq<Leaf>)
    requires DistinctPaths(ls)
    ensures DistinctPaths(Lift(k, ls))
  {
    var lifted := Lift(k, ls);
    forall i, j | 0 <= i < j < |ls|
      ensures lifted[i].rel != lifted[j].rel
    {
      assert lifted[i].rel[1..] == ls[i].rel;
      assert lifted[j].rel[1..] == ls[j].rel;
    }
  }

  /** Every leaf of `t` below a map `t[k]` is a lifted leaf of `t[k]`. */
  lemma LiftCovers(t: Tree, k: string, ls: seq<Leaf>)
    requires k in t && t[k].Map?
    requires forall l :: IsLeafOf(t[k].m, l) ==> l in ls
    ensures forall l :: IsLeafOf(t, l) && l.rel[0] == k ==> l in Lift(k, ls)
  {
    var lifted := Lift(k, ls);
    forall l | IsLeafOf(t, l) && l.rel[0] == k
      ensures l in lifted
    {
      GetStep(t, l.rel);
      var sl := Leaf(l.rel[1..], l.value);
      assert IsLeafOf(t[k].m, sl);
      var i :| 0 <= i < |ls| && ls[i] == sl;
      assert [k] + l.rel[1..] == l.rel;
      assert lifted[i] == l;
    }
  }

  /** The only leaf of `t` starting with a key whose value is not a map is that key itself. */
  lemma LeafUnderScalar(t: Tree, k: string, l: Leaf)
    requires k in t && !t[k].Map? && IsLeafOf(t, l) && l.rel[0] == k
    ensures l == Leaf([k], t[k])
  {
    GetStep(t, l.rel);
    assert |l.rel| == 1;
    assert l.rel == [k];
  }

  /** Every leaf handed over so far is a leaf of `t` under a key already done, and none twice. */
  ghost predicate SoundWalk(t: Tree, keys: set<string>, visited: seq<Leaf>)
  {
    && (forall i :: 0 <= i < |visited| ==> IsLeafOf(t, visited[i]) && visited[i].rel[0] !in keys)
    && DistinctPaths(visited)
  }

  /** Every leaf of `t` under a key already done has been handed over. */
  ghost predicate CompleteWalk(t: Tree, keys: set<string>, visited: seq<Leaf>)
  {
    forall l :: IsLeafOf(t, l) && l.rel[0] !in keys ==> l in visited
  }

  /** Finishing key `k` with the leaves `added` below it keeps the walk sound and complete. */
  lemma FinishKey(t: Tree, keys: set<string>, k: string, before: seq<Leaf>, added: seq<Leaf>)
    requires k in keys
    requires SoundWalk(t, keys, before)
    requires forall i :: 0 <= i < |added| ==> IsLeafOf(t, added[i]) && added[i].rel[0] == k
    requires DistinctPaths(added)
    ensures SoundWalk(t, keys - {k}, before + added)
    ensures CompleteWalk(t, keys, before) && (forall l :: IsLeafOf(t, l) && l.rel[0] == k ==> l in added)
            ==> CompleteWalk(t, keys - {k}, before + added)
  {
    var all := before + added;
    forall i, j | 0 <= i < j < |all|
      ensures all[i].rel != all[j].rel
    {
      if j >= |before| && i < |before| {
        assert all[i].rel[0] != k;
        assert all[j].rel[0] == k;
      }
    }
  }

  /* ---------------- translateTree ---------------- */

  /**
   * `translateTree`: visit every key of `valueTree` (in an unspecified
   * order), recursing into maps and handing every other value to
   * `insertLeaf` under `path` + key; stop at the first error.
   * `visited` is the order in which leaves were handed over: each is a leaf
   * of the source tree, none twice, all of them when the walk ends Ok, and
   * the destination is what inserting them in that order produces.
   */
  method TranslateSubtree(valueTree: Tree, cpSpecTree: Tree, path: Path, mapping: Mapping, apply: CustomApply)
    returns (out: Tree, outcome: Outcome, ghost visited: seq<Leaf>)
    ensures forall i :: 0 <= i < |visited| ==> IsLeafOf(valueTree, visited[i])
    ensures DistinctPaths(visited)
    ensures outcome.Ok? ==> forall l :: IsLeafOf(valueTree, l) ==> l in visited
    ensures (out, outcome) == InsertLeaves(cpSpecTree, path, visited, mapping, apply)
    decreases Map(valueTree)
  {
    var keys := valueTree.Keys;
    out, outcome, visited := cpSpecTree, Ok, [];
    while keys != {}
      invariant keys <= valueTree.Keys
      invariant SoundWalk(valueTree, keys, visited)
      invariant CompleteWalk(valueTree, keys, visited)
      invariant (out, Ok) == InsertLeaves(cpSpecTree, path, visited, mapping, apply)
      decreases |keys|
    {
      var k :| k in keys;
      var v := valueTree[k];
      ghost var before := visited;
      ghost var added: seq<Leaf>;
      var o: Outcome;
      if v.Map? {
        var sub, subOutcome, subVisited := TranslateSubtree(v.m, out, path + [k], mapping, apply);
        added := Lift(k, subVisited);
        LiftedLeaves(valueTree, k, subVisited);
        LiftDistinct(k, subVisited);
        if subOutcome.Ok? {
          LiftCovers(valueTree, k, subVisited);
        }
        InsertLeavesLift(out, path, k, subVisited, mapping, apply);
        out, o := sub, subOutcome;
      } else {
        var r := InsertLeaf(out, path + [k], v, mapping, apply);
        added := [Leaf([k], v)];
        assert IsLeafOf(valueTree, added[0]) by {
          GetStep(valueTree, [k]);
          assert [k][1..] == [];
        }
        assert path + added[0].rel == path + [k];
        forall l | IsLeafOf(valueTree, l) && l.rel[0] == k
          ensures l in added
        {
          LeafUnderScalar(valueTree, k, l);
        }
        out, o := r.0, r.1;
      }
      InsertLeavesAppend(cpSpecTree, path, before, added, mapping, apply);
      FinishKey(valueTree, keys, k, before, added);
      visited := before + added;
      if !o.Ok? {
        outcome := o;
        return;
      }
      keys := keys - {k};
    }
  }

  /** A walk that hands over no leaf with a matching rule leaves the destination as it was. */
  lemma {:induction false} InsertLeavesWithoutRules(dst: Tree, prefix: Path, leaves: seq<Leaf>, mapping: Mapping, apply: CustomApply)
    requires forall i, j :: 0 <= i < |leaves| && 0 < j <= |prefix + leaves[i].rel| ==>
               Join((prefix + leaves[i].rel)[..j]) !in mapping
    ensures InsertLeaves(dst, prefix, leaves, mapping, apply) == (dst, Ok)
    decreases |leaves|
  {
    if leaves != [] {
      InsertLeafDispatch(dst, prefix + leaves[0].rel, leaves[0].value, mapping, apply);
      InsertLeavesWithoutRules(dst, prefix, leaves[1..], mapping, apply);
    }
  }
}
