/**
 * The rendering input of pkg/controller/istiocontrolplane/inputs.go: the
 * fixed dependency table (the base component before the ten others), the
 * package state `init` builds from it (the install tree and the set of
 * components that have a dependency wait channel), and
 * `IstioRenderingInput`, which reads the instance it was made for.
 */
module Inputs {
  import opened Wrappers
  import opened HelmTypes
  import opened Names
  import opened Dependencies
  import opened IstioApi

  /** The children of the base component, in the order they are listed. */
  const BaseChildren: seq<string> := [
    PilotComponentName,
    PolicyComponentName,
    TelemetryComponentName,
    GalleyComponentName,
    CitadelComponentName,
    NodeAgentComponentName,
    CertManagerComponentName,
    SidecarInjectorComponentName,
    IngressComponentName,
    EgressComponentName
  ]

  /** `componentDependencies`: the base component is the only parent. */
  const ComponentDependencies: ChildrenTable := map[IstioBaseComponentName := BaseChildren]

  /** Every component listed as the child of some parent of `table`. */
  function AllChildren(table: ChildrenTable): (r: set<string>)
    ensures forall c :: c in r <==> exists p :: p in table && c in table[p]
  {
    set p, c | p in table && c in table[p] :: c
  }

  /** The children of the parents in `ps`. */
  function ChildrenUnder(table: ChildrenTable, ps: set<string>): (r: set<string>)
    ensures ps == table.Keys ==> r == AllChildren(table)
  {
    set p, c | p in ps && p in table && c in table[p] :: c
  }

  lemma ChildrenUnderAdd(table: ChildrenTable, ps: set<string>, p: string)
    requires p in table
    ensures ChildrenUnder(table, ps + {p}) == ChildrenUnder(table, ps) + (set c | c in table[p])
  {
  }

  predicate NoDuplicates(s: seq<string>)
  {
    forall i, j :: 0 <= i < j < |s| ==> s[i] != s[j]
  }

  /** The install tree `init` leaves behind: the base component over ten leaves. */
  function InstallTree(): ComponentTree
  {
    map[IstioBaseComponentName := Subtree(map c | c in BaseChildren :: Subtree(map[]))]
  }

  /* ---------------- the table ---------------- */

  /**
   * The table lists one parent, the base component, over ten distinct
   * children, none of which is the base or a parent itself.
   */
  lemma DependencyTableShape()
    ensures ComponentDependencies.Keys == {IstioBaseComponentName}
    ensures |BaseChildren| == 10 && NoDuplicates(BaseChildren)
    ensures IstioBaseComponentName !in BaseChildren
    ensures forall c :: c in BaseChildren ==> c !in ComponentDependencies
  {
  }

  /** A list without repeats has as many members as entries. */
  lemma {:induction false} DistinctCount(s: seq<string>)
    requires NoDuplicates(s)
    ensures |(set c | c in s)| == |s|
  {
    if s != [] {
      DistinctCount(s[1..]);
      assert (set c | c in s) == {s[0]} + (set c | c in s[1..]);
      assert s[0] !in (set c | c in s[1..]);
    }
  }

  /** The components that get a wait channel: exactly the ten children, each once. */
  lemma WaitKeysAreTheChildren()
    ensures AllChildren(ComponentDependencies) == (set c | c in BaseChildren)
    ensures |AllChildren(ComponentDependencies)| == 10
  {
    DependencyTableShape();
    DistinctCount(BaseChildren);
  }

  /** The table is acyclic from the base: every chain of children is shorter than two. */
  lemma DependenciesBounded()
    ensures Bounded(ComponentDependencies, IstioBaseComponentName, 2)
  {
    forall c | c in ChildrenOf(ComponentDependencies, IstioBaseComponentName)
      ensures Bounded(ComponentDependencies, c, 1)
    {
      assert ChildrenOf(ComponentDependencies, c) == [];
    }
  }

  /** The subtree built under the base: one leaf per listed child. */
  lemma BaseSubtree()
    ensures Bounded(ComponentDependencies, IstioBaseComponentName, 2)
    ensures InstallSubtree(ComponentDependencies, IstioBaseComponentName, 2)
            == InstallTree()[IstioBaseComponentName].children
  {
    DependenciesBounded();
    var sub := InstallSubtree(ComponentDependencies, IstioBaseComponentName, 2);
    forall c | c in BaseChildren
      ensures sub[c] == Subtree(map[])
    {
      assert ChildrenOf(ComponentDependencies, c) == [];
    }
  }

  /* ---------------- the package state ---------------- */

  /**
   * The package variables `installTree` and `dependencyWaitCh`; of the wait
   * channels only the component names they are registered under are kept.
   */
  class Globals {
    var installTree: ComponentTree
    var dependencyWaitCh: set<string>

    /** Both variables start as empty maps. */
    constructor ()
      ensures installTree == map[] && dependencyWaitCh == {}
    {
      installTree := map[];
      dependencyWaitCh := {};
    }

    /** `buildInstallTree`: inserts the subtree of the base component into the install tree. */
    method BuildInstallTree()
      modifies this
      ensures Bounded(ComponentDependencies, IstioBaseComponentName, 2)
      ensures installTree == old(installTree)[IstioBaseComponentName :=
          Subtree(InstallSubtree(ComponentDependencies, IstioBaseComponentName, 2))]
      ensures dependencyWaitCh == old(dependencyWaitCh)
    {
      DependenciesBounded();
      var tree := InsertChildrenRecursive(IstioBaseComponentName, installTree, ComponentDependencies, 2);
      installTree := tree;
    }

    /** `init`: builds the install tree, then registers a wait channel for every child of every parent. */
    method Init()
      modifies this
      ensures Bounded(ComponentDependencies, IstioBaseComponentName, 2)
      ensures installTree == old(installTree)[IstioBaseComponentName :=
          Subtree(InstallSubtree(ComponentDependencies, IstioBaseComponentName, 2))]
      ensures dependencyWaitCh == old(dependencyWaitCh) + AllChildren(ComponentDependencies)
    {
      BuildInstallTree();
      RegisterWaitChannels(ComponentDependencies);
    }

    /** The loop of `init` over every parent of `table` (in map order) and each of its children. */
    method RegisterWaitChannels(table: ChildrenTable)
      modifies this
      ensures installTree == old(installTree)
      ensures dependencyWaitCh == old(dependencyWaitCh) + AllChildren(table)
    {
      var parents := table.Keys;
      ghost var done: set<string> := {};
      while parents != {}
        invariant parents !! done && parents + done == table.Keys
        invariant dependencyWaitCh == old(dependencyWaitCh) + ChildrenUnder(table, done)
        invariant installTree == old(installTree)
        decreases parents
      {
        var parent :| parent in parents;
        var list := table[parent];
        ghost var before := dependencyWaitCh;
        for j := 0 to |list|
          invariant dependencyWaitCh == before + (set i | 0 <= i < j :: list[i])
          invariant installTree == old(installTree)
        {
          dependencyWaitCh := dependencyWaitCh + {list[j]};
        }
        assert (set i | 0 <= i < |list| :: list[i]) == (set c | c in list) by {
          forall c | c in list ensures c in (set i | 0 <= i < |list| :: list[i]) {
            var i :| 0 <= i < |list| && list[i] == c;
          }
        }
        ChildrenUnderAdd(table, done, parent);
        parents := parents - {parent};
        done := done + {parent};
      }
      assert done == table.Keys;
    }

    /**
     * `GetProcessingOrder`: the dependency table and the wait channels,
     * whatever was rendered.
     */
    function GetProcessingOrder(manifests: ChartManifestsMap): (r: (ChildrenTable, set<string>))
      reads this
      ensures r.0 == ComponentDependencies && r.1 == dependencyWaitCh
    {
      (ComponentDependencies, dependencyWaitCh)
    }
  }

  /**
   * The package as a process starts it: fresh variables and `init` run once.
   * The install tree holds only the base component over its ten children,
   * and exactly the ten children wait on their dependencies.
   */
  method InitPackage() returns (g: Globals)
    ensures fresh(g)
    ensures g.installTree == InstallTree()
    ensures g.dependencyWaitCh == (set c | c in BaseChildren)
  {
    g := new Globals();
    g.Init();
    BaseSubtree();
    WaitKeysAreTheChildren();
    assert map[][IstioBaseComponentName := InstallTree()[IstioBaseComponentName]] == InstallTree();
  }

  /**
   * After `init`, `GetProcessingOrder` hands out a wait set that is exactly
   * the children of the dependency table handed out with it, whatever was
   * rendered: the base component never waits, and no waiting component is
   * itself a parent.
   */
  lemma ProcessingOrderAfterInit(g: Globals, manifests: ChartManifestsMap)
    requires g.dependencyWaitCh == (set c | c in BaseChildren)
    ensures var (deps, wait) := g.GetProcessingOrder(manifests);
      && wait == AllChildren(deps) && |wait| == 10
      && IstioBaseComponentName in deps && IstioBaseComponentName !in wait
      && forall c :: c in wait ==> c !in deps
  {
    WaitKeysAreTheChildren();
    DependencyTableShape();
  }

  /**
   * Printed from the base, the install tree `init` builds gives the base
   * line and then one line per child, indented by two spaces: eleven lines,
   * each child once.
   */
  lemma InstallTreeText(t: Trace, depth: nat)
    requires t.name == IstioBaseComponentName && ValidTrace(InstallTree(), t, depth)
    ensures var lines := LinesOf(t, "");
      && |lines| == 11
      && lines[0] == IstioBaseComponentName + "\n"
      && (set i | 1 <= i < |lines| :: lines[i]) == (set c | c in BaseChildren :: "  " + c + "\n")
  {
    var ct := InstallTree();
    var children := ct[IstioBaseComponentName].children;
    assert children.Keys == (set c | c in BaseChildren);
    forall k | k in children ensures k !in ct {
      assert k in BaseChildren;
    }
    TwoLevelTreeString(ct, t, depth);
    DependencyTableShape();
    DistinctCount(BaseChildren);
  }

  /* ---------------- the rendering input ---------------- */

  /** `IstioRenderingInput`: the instance it renders and a chart path. */
  class IstioRenderingInput {
    const instance: IstioControlPlane
    const crPath: string

    /**
     * `NewIstioRenderingInput`: the chart path is left empty, so
     * `GetChartPath` answers "" for every input made this way.
     */
    constructor (instance: IstioControlPlane)
      ensures this.instance == instance && crPath == ""
      ensures GetChartPath() == "" && GetInputConfig() == None
    {
      this.instance := instance;
      crPath := "";
    }

    /** `GetChartPath`: the path the input was given. */
    function GetChartPath(): (p: string)
      ensures p == crPath
    {
      crPath
    }

    /** `GetInputConfig`: this renderer uses no configuration; always nil. */
    function GetInputConfig(): (c: Option<()>)
      ensures c.None?
    {
      None
    }

    /** `GetTargetNamespace`: the default namespace of the instance's spec, as it is when asked. */
    function GetTargetNamespace(): (ns: string)
      reads instance
      ensures ns == instance.defaultNamespace
    {
      instance.defaultNamespace
    }
  }
}
