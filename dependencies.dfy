/**
 * The install tree of pkg/helmreconciler/dependencies.go: building it from
 * the parent-to-children table, and printing it one indented line per
 * component. A `ComponentTree` maps component names to arbitrary values, of
 * which only nested `ComponentTree`s are looked into; Go's shared references
 * to nested maps are modelled by value (the finished subtree is stored).
 */
module Dependencies {

  /** A value stored under a component name: a nested tree or anything else. */
  datatype Node = Subtree(children: map<string, Node>) | Other

  type ComponentTree = map<string, Node>

  /** `ComponentNameToListMap`: the components each parent must come before. */
  type ChildrenTable = map<string, seq<string>>

  /** The children listed for `name`; a missing entry reads as Go's nil slice. */
  function ChildrenOf(children: ChildrenTable, name: string): seq<string>
  {
    if name in children then children[name] else []
  }

  /**
   * The children relation reachable from `name` is acyclic, every chain of
   * children from it being shorter than `depth`.
   */
  ghost predicate Bounded(children: ChildrenTable, name: string, depth: nat)
    decreases depth
  {
    depth > 0 && forall c :: c in ChildrenOf(children, name) ==> Bounded(children, c, depth - 1)
  }

  /** The subtree `InsertChildrenRecursive` builds under `name`. */
  ghost function InstallSubtree(children: ChildrenTable, name: string, depth: nat): ComponentTree
    requires Bounded(children, name, depth)
    decreases depth
  {
    map c | c in ChildrenOf(children, name) :: Subtree(InstallSubtree(children, c, depth - 1))
  }

  /**
   * `InsertChildrenRecursive`: `tree[componentName]` is replaced by a fresh
   * subtree holding one entry per listed child, each built the same way;
   * every other key of `tree` is kept.
   */
  method InsertChildrenRecursive(componentName: string, tree: ComponentTree, children: ChildrenTable, ghost depth: nat)
    returns (out: ComponentTree)
    requires Bounded(children, componentName, depth)
    ensures componentName in out && out[componentName] == Subtree(InstallSubtree(children, componentName, depth))
    ensures forall k :: k != componentName ==> (k in out <==> k in tree)
    ensures forall k :: k in tree && k != componentName ==> out[k] == tree[k]
    decreases depth
  {
    var list := ChildrenOf(children, componentName);
    var sub: ComponentTree := map[];
    assert forall j :: 0 <= j < |list| ==> list[j] in list;
    for i := 0 to |list|
      invariant forall j :: 0 <= j < |list| ==> Bounded(children, list[j], depth - 1)
      invariant sub.Keys == (set j | 0 <= j < i :: list[j])
      invariant forall j :: 0 <= j < i ==> sub[list[j]] == Subtree(InstallSubtree(children, list[j], depth - 1))
    {
      assert list[i] in list;
      sub := InsertChildrenRecursive(list[i], sub, children, depth - 1);
    }
    assert sub.Keys == (set c | c in list) by {
      forall c | c in list ensures c in sub.Keys {
        var j :| 0 <= j < |list| && list[j] == c;
      }
    }
    assert sub == InstallSubtree(children, componentName, depth) by {
      forall c | c in sub.Keys ensures sub[c] == Subtree(InstallSubtree(children, c, depth - 1)) {
        var j :| 0 <= j < |list| && list[j] == c;
      }
    }
    out := tree[componentName := Subtree(sub)];
  }

  /** Every listed child has its own subtree; a component with no listed children is a leaf. */
  lemma InstallSubtreeShape(children: ChildrenTable, name: string, depth: nat)
    requires Bounded(children, name, depth)
    ensures InstallSubtree(children, name, depth).Keys == (set c | c in ChildrenOf(children, name))
    ensures name !in children ==> InstallSubtree(children, name, depth) == map[]
    ensures forall c :: c in ChildrenOf(children, name) ==>
              InstallSubtree(children, name, depth)[c] == Subtree(InstallSubtree(children, c, depth - 1))
  {
  }

  /* ---------------- printing ---------------- */

  /** The order in which one call of `buildInstallTreeString` visited the components. */
  datatype Trace = Trace(name: string, subs: seq<Trace>)

  /** `buildInstallTreeString` terminates from `name`: every chain of lookups is shorter than `depth`. */
  ghost predicate PrintBounded(ct: ComponentTree, name: string, depth: nat)
    decreases depth
  {
    depth > 0
    && (name in ct && ct[name].Subtree? ==>
          forall k :: k in ct[name].children ==> PrintBounded(ct, k, depth - 1))
  }

  /** `ts` visits exactly the names in `done`, each once. */
  predicate Enumerates(ts: seq<Trace>, done: set<string>)
  {
    Names(ts) == done && DistinctNames(ts)
  }

  predicate DistinctNames(ts: seq<Trace>)
  {
    forall i, j :: 0 <= i < j < |ts| ==> ts[i].name != ts[j].name
  }

  function Names(ts: seq<Trace>): set<string>
  {
    set i | 0 <= i < |ts| :: ts[i].name
  }

  /**
   * A visit of `t.name` as written: children are the keys of `ct[t.name]`,
   * each visited once in some order, and each is looked up again in the
   * top-level tree `ct`.
   */
  ghost predicate ValidTrace(ct: ComponentTree, t: Trace, depth: nat)
    decreases depth, 0
  {
    depth > 0
    && (if t.name in ct && ct[t.name].Subtree? then
          && Enumerates(t.subs, ct[t.name].children.Keys)
          && AllValid(ct, t.subs, depth - 1)
        else t.subs == [])
  }

  ghost predicate AllValid(ct: ComponentTree, ts: seq<Trace>, depth: nat)
    decreases depth, 1
  {
    forall i :: 0 <= i < |ts| ==> ValidTrace(ct, ts[i], depth)
  }

  lemma NamesAppend(ts: seq<Trace>, t: Trace)
    ensures Names(ts + [t]) == Names(ts) + {t.name}
    ensures t.name !in Names(ts) && DistinctNames(ts) ==> DistinctNames(ts + [t])
  {
    assert forall i :: 0 <= i < |ts| ==> (ts + [t])[i] == ts[i];
    assert (ts + [t])[|ts|] == t;
  }

  /** The lines written for a visit: the component at `prefix`, then each child's lines two spaces deeper. */
  function LinesOf(t: Trace, prefix: string): seq<string>
    decreases t, 1
  {
    [prefix + t.name + "\n"] + LinesOfAll(t.subs, prefix + "  ")
  }

  function LinesOfAll(ts: seq<Trace>, prefix: string): seq<string>
    decreases ts, 0
  {
    if ts == [] then [] else LinesOf(ts[0], prefix) + LinesOfAll(ts[1..], prefix)
  }

  lemma LinesOfUnfold(t: Trace, prefix: string)
    ensures LinesOf(t, prefix) == [prefix + t.name + "\n"] + LinesOfAll(t.subs, prefix + "  ")
  {
  }

  lemma {:induction false} LinesOfAllAppend(ts: seq<Trace>, t: Trace, prefix: string)
    ensures LinesOfAll(ts + [t], prefix) == LinesOfAll(ts, prefix) + LinesOf(t, prefix)
    decreases |ts|
  {
    if ts == [] {
      assert [t][1..] == [];
    } else {
      assert (ts + [t])[1..] == ts[1..] + [t];
      LinesOfAllAppend(ts[1..], t, prefix);
    }
  }

  /**
   * `buildInstallTreeString`: write `prefix + componentName`, then, when the
   * top-level entry of `componentName` is a tree, the lines of each of its
   * keys in map order, two spaces deeper.
   */
  method BuildInstallTreeString(ct: ComponentTree, componentName: string, prefix: string, ghost depth: nat)
    returns (lines: seq<string>, ghost trace: Trace)
    requires PrintBounded(ct, componentName, depth)
    ensures trace.name == componentName && ValidTrace(ct, trace, depth)
    ensures lines == LinesOf(trace, prefix)
    decreases depth
  {
    var head := [prefix + componentName + "\n"];
    var childPrefix := prefix + "  ";
    lines := head;
    if !(componentName in ct && ct[componentName].Subtree?) {
      trace := Trace(componentName, []);
      return;
    }
    var keys := ct[componentName].children.Keys;
    var remaining := keys;
    ghost var subs: seq<Trace> := [];
    while remaining != {}
      invariant remaining <= keys
      invariant Enumerates(subs, keys - remaining)
      invariant AllValid(ct, subs, depth - 1)
      invariant lines == head + LinesOfAll(subs, childPrefix)
      decreases |remaining|
    {
      var k :| k in remaining;
      var more, sub := BuildInstallTreeString(ct, k, childPrefix, depth - 1);
      assert Enumerates(subs + [sub], keys - (remaining - {k})) by {
        NamesAppend(subs, sub);
      }
      assert AllValid(ct, subs + [sub], depth - 1) by {
        AllValidAppend(ct, subs, sub, depth - 1);
      }
      assert lines + more == head + LinesOfAll(subs + [sub], childPrefix) by {
        LinesOfAllAppend(subs, sub, childPrefix);
      }
      subs := subs + [sub];
      lines := lines + more;
      remaining := remaining - {k};
    }
    trace := Trace(componentName, subs);
    assert ValidTrace(ct, trace, depth) by {
      ValidTraceIntro(ct, trace, depth);
    }
    LinesOfUnfold(trace, prefix);
  }

  lemma AllValidAppend(ct: ComponentTree, subs: seq<Trace>, t: Trace, depth: nat)
    requires AllValid(ct, subs, depth)
    requires ValidTrace(ct, t, depth)
    ensures AllValid(ct, subs + [t], depth)
  {
    assert forall i :: 0 <= i < |subs| ==> (subs + [t])[i] == subs[i];
  }

  lemma ValidTraceIntro(ct: ComponentTree, t: Trace, depth: nat)
    requires depth > 0 && t.name in ct && ct[t.name].Subtree?
    requires Enumerates(t.subs, ct[t.name].children.Keys)
    requires AllValid(ct, t.subs, depth - 1)
    ensures ValidTrace(ct, t, depth)
  {
  }

  /** `InstallTreeString`: the whole text, starting from the base component with no indentation. */
  method InstallTreeString(ct: ComponentTree, base: string, ghost depth: nat) returns (s: string, ghost trace: Trace)
    requires PrintBounded(ct, base, depth)
    ensures trace.name == base && ValidTrace(ct, trace, depth)
    ensures s == Flatten(LinesOf(trace, ""))
  {
    var lines;
    lines, trace := BuildInstallTreeString(ct, base, "", depth);
    s := Flatten(lines);
  }

  function Flatten(lines: seq<string>): string
  {
    if lines == [] then "" else lines[0] + Flatten(lines[1..])
  }

  /** The first line is always the component itself at the given indentation. */
  lemma FirstLine(ct: ComponentTree, t: Trace, prefix: string, depth: nat)
    requires ValidTrace(ct, t, depth)
    ensures |LinesOf(t, prefix)| >= 1 && LinesOf(t, prefix)[0] == prefix + t.name + "\n"
  {
  }

  /** A component without a tree at the top level prints as its single line. */
  lemma AbsentComponentPrintsOneLine(ct: ComponentTree, t: Trace, prefix: string, depth: nat)
    requires ValidTrace(ct, t, depth)
    requires !(t.name in ct && ct[t.name].Subtree?)
    ensures LinesOf(t, prefix) == [prefix + t.name + "\n"]
  {
  }

  /** Visits of components without a top-level tree print one line each. */
  lemma {:induction false} LeafLines(ct: ComponentTree, ts: seq<Trace>, prefix: string, depth: nat)
    requires AllValid(ct, ts, depth)
    requires forall i :: 0 <= i < |ts| ==> !(ts[i].name in ct && ct[ts[i].name].Subtree?)
    ensures |LinesOfAll(ts, prefix)| == |ts|
    ensures forall i :: 0 <= i < |ts| ==> LinesOfAll(ts, prefix)[i] == prefix + ts[i].name + "\n"
    decreases |ts|
  {
    if ts != [] {
      LeafLines(ct, ts[1..], prefix, depth);
      AbsentComponentPrintsOneLine(ct, ts[0], prefix, depth);
    }
  }

  /**
   * Where the base component's children have no tree of their own at the
   * top level (the install tree `buildInstallTree` makes), the text is the
   * base line followed by one line per child, indented by two spaces, each
   * child once, in map order.
   */
  lemma TwoLevelTreeString(ct: ComponentTree, t: Trace, depth: nat)
    requires ValidTrace(ct, t, depth)
    requires t.name in ct && ct[t.name].Subtree?
    requires forall k :: k in ct[t.name].children ==> !(k in ct && ct[k].Subtree?)
    ensures var lines := LinesOf(t, "");
      && |lines| == 1 + |ct[t.name].children.Keys|
      && lines[0] == t.name + "\n"
      && (set i | 1 <= i < |lines| :: lines[i]) == (set k | k in ct[t.name].children :: "  " + k + "\n")
  {
    TwoLevelLines(ct, t, depth);
    DistinctNamesCount(t.subs);
    ChildLines(LinesOf(t, ""), t.subs, ct[t.name].children.Keys);
  }

  /** Lines that print the visited names one by one print exactly the visited key set. */
  lemma ChildLines(lines: seq<string>, subs: seq<Trace>, keys: set<string>)
    requires |lines| == 1 + |subs| && Names(subs) == keys
    requires forall i :: 0 <= i < |subs| ==> lines[i + 1] == "  " + subs[i].name + "\n"
    ensures (set i | 1 <= i < |lines| :: lines[i]) == (set k | k in keys :: "  " + k + "\n")
  {
    forall k | k in keys
      ensures "  " + k + "\n" in (set i | 1 <= i < |lines| :: lines[i])
    {
      var i :| 0 <= i < |subs| && subs[i].name == k;
      assert lines[i + 1] == "  " + k + "\n";
    }
    forall i | 1 <= i < |lines|
      ensures lines[i] in (set k | k in keys :: "  " + k + "\n")
    {
      assert lines[(i - 1) + 1] == "  " + subs[i - 1].name + "\n";
      assert subs[i - 1].name in Names(subs);
    }
  }

  /** The lines of a two-level visit, position by position. */
  lemma TwoLevelLines(ct: ComponentTree, t: Trace, depth: nat)
    requires ValidTrace(ct, t, depth)
    requires t.name in ct && ct[t.name].Subtree?
    requires forall k :: k in ct[t.name].children ==> !(k in ct && ct[k].Subtree?)
    ensures |LinesOf(t, "")| == 1 + |t.subs|
    ensures LinesOf(t, "")[0] == t.name + "\n"
    ensures forall i :: 0 <= i < |t.subs| ==> LinesOf(t, "")[i + 1] == "  " + t.subs[i].name + "\n"
  {
    assert forall i :: 0 <= i < |t.subs| ==> t.subs[i].name in Names(t.subs);
    LeafLines(ct, t.subs, "  ", depth - 1);
    LinesOfUnfold(t, "");
    assert "" + "  " == "  " && "" + t.name == t.name;
  }

  lemma DistinctNamesCount(ts: seq<Trace>)
    requires DistinctNames(ts)
    ensures |Names(ts)| == |ts|
    decreases |ts|
  {
    if ts != [] {
      var last := ts[|ts| - 1];
      var init := ts[..|ts| - 1];
      DistinctNamesCount(init);
      assert Names(ts) == Names(init) + {last.name};
      assert last.name !in Names(init);
    }
  }

  /* ---------------- the grandchildren finding ---------------- */

  /** A tree three levels deep: `crds`, below it `Pilot`, below that `x`. */
  const ThreeLevelTree: ComponentTree := map["crds" := Subtree(map["Pilot" := Subtree(map["x" := Subtree(map[])])])]

  /**
   * As written, the children of `Pilot` are looked up in the top-level tree,
   * where `Pilot` has no entry: `x` is never printed.
   */
  lemma AsWrittenSkipsGrandchildren(t: Trace, depth: nat)
    requires t.name == "crds" && ValidTrace(ThreeLevelTree, t, depth)
    ensures LinesOf(t, "") == ["crds\n", "  Pilot\n"]
  {
    assert ThreeLevelTree["crds"].children.Keys == {"Pilot"};
    assert Names(t.subs) == {"Pilot"};
    DistinctNamesCount(t.subs);
    assert |t.subs| == 1;
    assert t.subs[0].name in Names(t.subs);
    var pilot := t.subs[0];
    assert pilot.name == "Pilot" && "Pilot" !in ThreeLevelTree;
    AbsentComponentPrintsOneLine(ThreeLevelTree, pilot, "  ", depth - 1);
    assert LinesOfAll(t.subs, "  ") == LinesOf(pilot, "  ") + LinesOfAll(t.subs[1..], "  ");
    assert t.subs[1..] == [];
    LinesOfUnfold(t, "");
    LinesOfUnfold(pilot, "  ");
    assert "" + "  " == "  ";
    assert "" + "crds" + "\n" == "crds\n";
    assert "  " + "Pilot" + "\n" == "  Pilot\n";
  }

  /**
   * A visit of `t.name` that descends into the subtree it prints: the keys of
   * `ct[t.name]` are visited, each looked up in that subtree.
   */
  ghost predicate ValidNestedTrace(ct: ComponentTree, t: Trace)
    decreases Subtree(ct), 0
  {
    if t.name in ct && ct[t.name].Subtree? then
      && Enumerates(t.subs, ct[t.name].children.Keys)
      && AllNestedValid(ct[t.name].children, t.subs)
    else t.subs == []
  }

  /** The evidently intended printer: each child is looked up in its parent's subtree. */
  method BuildNestedTreeString(ct: ComponentTree, componentName: string, prefix: string)
    returns (lines: seq<string>, ghost trace: Trace)
    ensures trace.name == componentName && ValidNestedTrace(ct, trace)
    ensures lines == LinesOf(trace, prefix)
    decreases Subtree(ct)
  {
    var head := [prefix + componentName + "\n"];
    var childPrefix := prefix + "  ";
    lines := head;
    if !(componentName in ct && ct[componentName].Subtree?) {
      trace := Trace(componentName, []);
      return;
    }
    var sub := ct[componentName].children;
    assert Subtree(sub) == ct[componentName];
    var remaining := sub.Keys;
    ghost var subs: seq<Trace> := [];
    while remaining != {}
      invariant remaining <= sub.Keys
      invariant Enumerates(subs, sub.Keys - remaining)
      invariant AllNestedValid(sub, subs)
      invariant lines == head + LinesOfAll(subs, childPrefix)
      decreases |remaining|
    {
      var k :| k in remaining;
      var more, t := BuildNestedTreeString(sub, k, childPrefix);
      assert Enumerates(subs + [t], sub.Keys - (remaining - {k})) by {
        NamesAppend(subs, t);
      }
      assert AllNestedValid(sub, subs + [t]) by {
        AllNestedValidAppend(sub, subs, t);
      }
      assert lines + more == head + LinesOfAll(subs + [t], childPrefix) by {
        LinesOfAllAppend(subs, t, childPrefix);
      }
      subs := subs + [t];
      lines := lines + more;
      remaining := remaining - {k};
    }
    trace := Trace(componentName, subs);
    assert ValidNestedTrace(ct, trace) by {
      ValidNestedTraceIntro(ct, trace);
    }
    LinesOfUnfold(trace, prefix);
  }

  ghost predicate AllNestedValid(ct: ComponentTree, ts: seq<Trace>)
    decreases Subtree(ct), 1
  {
    forall i :: 0 <= i < |ts| ==> ValidNestedTrace(ct, ts[i])
  }

  lemma AllNestedValidAppend(ct: ComponentTree, subs: seq<Trace>, t: Trace)
    requires AllNestedValid(ct, subs)
    requires ValidNestedTrace(ct, t)
    ensures AllNestedValid(ct, subs + [t])
  {
    assert forall i :: 0 <= i < |subs| ==> (subs + [t])[i] == subs[i];
  }

  lemma ValidNestedTraceIntro(ct: ComponentTree, t: Trace)
    requires t.name in ct && ct[t.name].Subtree?
    requires Enumerates(t.subs, ct[t.name].children.Keys)
    requires AllNestedValid(ct[t.name].children, t.subs)
    ensures ValidNestedTrace(ct, t)
  {
  }

  /** `path` leads from `name` through nested subtrees of `ct`. */
  ghost predicate TreePath(ct: ComponentTree, name: string, path: seq<string>)
    decreases |path|
  {
    path == [] || (name in ct && ct[name].Subtree? && path[0] in ct[name].children
                   && TreePath(ct[name].children, path[0], path[1..]))
  }

  function Indent(prefix: string, n: nat): string
    decreases n
  {
    if n == 0 then prefix else Indent(prefix + "  ", n - 1)
  }

  lemma {:induction false} LinesOfAllContains(ts: seq<Trace>, i: nat, prefix: string, line: string)
    requires i < |ts| && line in LinesOf(ts[i], prefix)
    ensures line in LinesOfAll(ts, prefix)
    decreases |ts|
  {
    if i > 0 {
      LinesOfAllContains(ts[1..], i - 1, prefix, line);
    }
  }

  /**
   * With the nested lookup every component of the tree is printed, at an
   * indentation of two spaces per level below the starting component.
   */
  lemma {:induction false} NestedPrintsEveryNode(ct: ComponentTree, t: Trace, prefix: string, path: seq<string>)
    requires ValidNestedTrace(ct, t) && TreePath(ct, t.name, path) && path != []
    ensures Indent(prefix, |path|) + path[|path| - 1] + "\n" in LinesOf(t, prefix)
    decreases |path|
  {
    var sub := ct[t.name].children;
    assert path[0] in Names(t.subs);
    var i :| 0 <= i < |t.subs| && t.subs[i].name == path[0];
    var line := Indent(prefix, |path|) + path[|path| - 1] + "\n";
    if |path| == 1 {
      assert line == prefix + "  " + t.subs[i].name + "\n";
      assert line == LinesOf(t.subs[i], prefix + "  ")[0];
    } else {
      NestedPrintsEveryNode(sub, t.subs[i], prefix + "  ", path[1..]);
      assert path[1..][|path[1..]| - 1] == path[|path| - 1];
    }
    LinesOfAllContains(t.subs, i, prefix + "  ", line);
  }

  /** On the three-level tree the nested printer does print `x`, four spaces deep. */
  lemma NestedPrintsGrandchild(t: Trace)
    requires t.name == "crds" && ValidNestedTrace(ThreeLevelTree, t)
    ensures "    x\n" in LinesOf(t, "")
  {
    var pilotTree := map["x" := Subtree(map[])];
    var crdsTree := map["Pilot" := Subtree(pilotTree)];
    assert ThreeLevelTree == map["crds" := Subtree(crdsTree)];
    var path := ["Pilot", "x"];
    assert path[1..] == ["x"] && ["x"][1..] == [];
    assert TreePath(pilotTree, "x", []);
    assert TreePath(crdsTree, "Pilot", ["x"]);
    assert TreePath(ThreeLevelTree, "crds", path);
    NestedPrintsEveryNode(ThreeLevelTree, t, "", path);
    assert Indent("", 2) == Indent("  ", 1) == Indent("    ", 0) == "    ";
    assert Indent("", |path|) + path[|path| - 1] + "\n" == "    x\n";
  }
}
