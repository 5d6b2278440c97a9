/**
 * The rule tables of pkg/translate/translateValue.go: the `ValueYAMLTranslator`
 * for version 1.2, the `init*` functions that expand its per-component
 * templates into concrete rules, and `TranslateTree`, which runs the five
 * rule tables over one values tree in a fixed order.
 */
module Translator {
  import opened Wrappers
  import opened Errors
  import opened Paths
  import opened UntypedTree
  import opened Templates
  import opened Names
  import opened Translate

  /** `FeatureComponent`: the feature and component a values-file key belongs to. */
  datatype FeatureComponent = FeatureComponent(featureName: string, componentName: string)

  /* ---------------- the 1.2 tables ---------------- */

  /** A Kubernetes-setting key template: `{{.ValueComponentName}}.<setting>`. */
  function K8SKey(setting: string): string
  {
    Placeholder(ValueComponentNameField) + "." + setting
  }

  /** The output template of a Kubernetes setting: `{{.FeatureName}}.Components.{{.ComponentName}}.Common.K8S.<field>`. */
  function K8SRule(field: string): Translation
  {
    Translation(Placeholder(FeatureNameField) + ".Components." + Placeholder(ComponentNameField) + ".Common.K8S." + field, None)
  }

  lemma K8SKeyInjective(a: string, b: string)
    requires K8SKey(a) == K8SKey(b)
    ensures a == b
  {
    var n := |Placeholder(ValueComponentNameField) + "."|;
    assert a == K8SKey(a)[n..];
    assert b == K8SKey(b)[n..];
  }

  /** The Kubernetes table of 1.2 as its entries: (setting of the values file, field of `Common.K8S`). */
  const KubernetesSettings12: seq<(string, string)> := [
    ("podAntiAffinityLabelSelector", "Affinity"),
    ("env", "Env"),
    ("autoscaleEnabled", "HpaSpec"),
    ("imagePullPolicy", "ImagePullPolicy"),
    ("nodeSelector", "NodeSelector"),
    ("podDisruptionBudget", "PodDisruptionBudget"),
    ("podAnnotations", "PodAnnotations"),
    ("priorityClassName", "PriorityClassName"),
    ("readinessProbe", "ReadinessProbe"),
    ("replicaCount", "ReplicaCount"),
    ("resources", "Resources")
  ]

  /** The template table with the entry `K8SKey(setting) := K8SRule(field)` for each pair. */
  function KubernetesTemplatesOf(settings: seq<(string, string)>): Mapping
    decreases |settings|
  {
    if settings == [] then map[]
    else
      var last := settings[|settings| - 1];
      KubernetesTemplatesOf(settings[..|settings| - 1])[K8SKey(last.0) := K8SRule(last.1)]
  }

  /** Every entry's key template is in the table. */
  lemma {:induction false} KubernetesTemplatesOfHas(settings: seq<(string, string)>, i: nat)
    requires i < |settings|
    ensures K8SKey(settings[i].0) in KubernetesTemplatesOf(settings)
    decreases |settings|
  {
    if i < |settings| - 1 {
      KubernetesTemplatesOfHas(settings[..|settings| - 1], i);
    }
  }

  /** Every key of the table comes from an entry, and its rule is that entry's. */
  lemma {:induction false} KubernetesTemplatesOfFrom(settings: seq<(string, string)>, k: string)
    requires k in KubernetesTemplatesOf(settings)
    ensures exists i: nat :: i < |settings| && k == K8SKey(settings[i].0)
                          && KubernetesTemplatesOf(settings)[k] == K8SRule(settings[i].1)
    decreases |settings|
  {
    var n := |settings| - 1;
    if k != K8SKey(settings[n].0) {
      KubernetesTemplatesOfFrom(settings[..n], k);
      var i: nat :| i < n && k == K8SKey(settings[..n][i].0)
                 && KubernetesTemplatesOf(settings[..n])[k] == K8SRule(settings[..n][i].1);
      assert settings[..n][i] == settings[i];
    }
  }

  const KubernetesTemplates12: Mapping := KubernetesTemplatesOf(KubernetesSettings12)

  const ValuesToFeatureComponentName12: map<string, FeatureComponent> := map[
    "pilot" := FeatureComponent(TrafficManagementFeatureName, PilotComponentName),
    "galley" := FeatureComponent(ConfigManagementFeatureName, GalleyComponentName),
    "sidecarInjectorWebhook" := FeatureComponent(AutoInjectionFeatureName, SidecarInjectorComponentName),
    "mixer.policy" := FeatureComponent(PolicyFeatureName, PolicyComponentName),
    "mixer.telemetry" := FeatureComponent(TelemetryFeatureName, TelemetryComponentName),
    "citadel" := FeatureComponent(SecurityFeatureName, CitadelComponentName),
    "nodeagent" := FeatureComponent(SecurityFeatureName, NodeAgentComponentName),
    "certmanager" := FeatureComponent(SecurityFeatureName, CertManagerComponentName),
    "gateways.istio-ingressgateway" := FeatureComponent("", IngressComponentName),
    "gateways.istio-egressgateway" := FeatureComponent("", EgressComponentName)
  ]

  const ComponentDirLayout12: map<string, string> := map[
    "istio-control/istio-discovery" := PilotComponentName,
    "istio-control/istio-config" := GalleyComponentName,
    "istio-control/istio-autoinject" := SidecarInjectorComponentName,
    "istio-policy" := PolicyComponentName,
    "istio-telemetry" := TelemetryComponentName,
    "security/citadel" := CitadelComponentName,
    "security/nodeagent" := NodeAgentComponentName,
    "security/certmanager" := CertManagerComponentName,
    "gateways/istio-ingress" := IngressComponentName,
    "gateways/istio-egress" := EgressComponentName
  ]

  const NamespaceMapping12: Mapping := map[
    "global.istioNamespace" := Translation("security.Components.Namespace", None),
    "global.telemetryNamespace" := Translation("telemetry.Components.Namespace", None),
    "global.policyNamespace" := Translation("policy.Components.Namespace", None),
    "global.configNamespace" := Translation("configManagement.Components.Namespace", None)
  ]

  const ComponentEnablementPattern: string :=
    Placeholder(FeatureNameField) + ".Components." + Placeholder(ComponentNameField) + ".Common.enabled.value"

  /* ---------------- initK8SMapping ---------------- */

  /** Rule `nk := t` comes from values key `v` (with a feature) and key template `k`. */
  ghost predicate K8SRuleFrom(vfc: map<string, FeatureComponent>, templates: Mapping, v: string, k: string, nk: string, t: Translation)
  {
    && v in vfc && vfc[v].featureName != "" && k in templates
    && nk == ComponentString(k, v)
    && t == Translation(FeatureComponentString(templates[k].outPath, vfc[v].featureName, vfc[v].componentName), None)
  }

  /**
   * The rules `initK8SMapping` produces: one key per (values key with a
   * non-empty feature, key template) pair, and every rule comes from such a
   * pair (the last pair written wins where two render to the same key).
   */
  ghost predicate K8SExpansion(vfc: map<string, FeatureComponent>, templates: Mapping, out: Mapping)
  {
    && (forall v, k :: v in vfc && vfc[v].featureName != "" && k in templates ==> ComponentString(k, v) in out)
    && (forall nk :: nk in out ==> exists v, k :: K8SRuleFrom(vfc, templates, v, k, nk, out[nk]))
  }

  /** The loop of `initK8SMapping`, building the new Kubernetes table. */
  method ExpandK8SRules(vfc: map<string, FeatureComponent>, templates: Mapping) returns (out: Mapping)
    ensures K8SExpansion(vfc, templates, out)
  {
    var remaining := vfc.Keys;
    out := map[];
    ghost var writer: map<string, (string, string)> := map[];
    while remaining != {}
      invariant remaining <= vfc.Keys
      invariant writer.Keys == out.Keys
      invariant forall nk :: nk in out ==> K8SRuleFrom(vfc, templates, writer[nk].0, writer[nk].1, nk, out[nk])
      invariant forall v, k :: v in vfc && v !in remaining && vfc[v].featureName != "" && k in templates ==>
                  ComponentString(k, v) in out
      decreases |remaining|
    {
      var valKey :| valKey in remaining;
      var fc := vfc[valKey];
      if fc.featureName != "" {
        var pending := templates.Keys;
        while pending != {}
          invariant pending <= templates.Keys
          invariant writer.Keys == out.Keys
          invariant forall nk :: nk in out ==> K8SRuleFrom(vfc, templates, writer[nk].0, writer[nk].1, nk, out[nk])
          invariant forall v, k :: v in vfc && v !in remaining && vfc[v].featureName != "" && k in templates ==>
                      ComponentString(k, v) in out
          invariant forall k :: k in templates && k !in pending ==> ComponentString(k, valKey) in out
          decreases |pending|
        {
          var k8sValKey :| k8sValKey in pending;
          var newKey := ComponentString(k8sValKey, valKey);
          var newVal := FeatureComponentString(templates[k8sValKey].outPath, fc.featureName, fc.componentName);
          out := out[newKey := Translation(newVal, None)];
          writer := writer[newKey := (valKey, k8sValKey)];
          pending := pending - {k8sValKey};
        }
      }
      remaining := remaining - {valKey};
    }
    forall nk | nk in out
      ensures exists v, k :: K8SRuleFrom(vfc, templates, v, k, nk, out[nk])
    {
      assert K8SRuleFrom(vfc, templates, writer[nk].0, writer[nk].1, nk, out[nk]);
    }
  }

  /* ---------------- initEnablementMapping ---------------- */

  function EnabledKey(valKey: string): string
  {
    valKey + ".enabled"
  }

  lemma EnabledKeyInjective(a: string, b: string)
    requires EnabledKey(a) == EnabledKey(b)
    ensures a == b
  {
    assert |a| == |b|;
    assert a == EnabledKey(a)[..|a|];
    assert b == EnabledKey(b)[..|b|];
  }

  function FeatureEnablementRule(fc: FeatureComponent): Translation
  {
    Translation(fc.featureName + ".enabled.value", None)
  }

  function ComponentEnablementRule(fc: FeatureComponent): Translation
  {
    Translation(FeatureComponentString(ComponentEnablementPattern, fc.featureName, fc.componentName), None)
  }

  /**
   * The rules `initEnablementMapping` produces: for every values key `v`,
   * `v.enabled` maps to the feature's `enabled.value` in the feature table
   * and to the component's `Common.enabled.value` in the component table.
   */
  ghost predicate EnablementExpansion(vfc: map<string, FeatureComponent>, fe: Mapping, ce: Mapping)
  {
    && fe.Keys == (set v | v in vfc :: EnabledKey(v))
    && ce.Keys == fe.Keys
    && (forall v :: v in vfc ==> fe[EnabledKey(v)] == FeatureEnablementRule(vfc[v]))
    && (forall v :: v in vfc ==> ce[EnabledKey(v)] == ComponentEnablementRule(vfc[v]))
  }

  /** The loop of `initEnablementMapping`, building both enablement tables. */
  method ExpandEnablementRules(vfc: map<string, FeatureComponent>) returns (fe: Mapping, ce: Mapping)
    ensures EnablementExpansion(vfc, fe, ce)
  {
    var remaining := vfc.Keys;
    fe, ce := map[], map[];
    while remaining != {}
      invariant remaining <= vfc.Keys
      invariant fe.Keys == (set v | v in vfc && v !in remaining :: EnabledKey(v))
      invariant ce.Keys == fe.Keys
      invariant forall v :: v in vfc && v !in remaining ==> fe[EnabledKey(v)] == FeatureEnablementRule(vfc[v])
      invariant forall v :: v in vfc && v !in remaining ==> ce[EnabledKey(v)] == ComponentEnablementRule(vfc[v])
      decreases |remaining|
    {
      var valKey :| valKey in remaining;
      var fc := vfc[valKey];
      var newKey := valKey + ".enabled";
      fe := fe[newKey := Translation(fc.featureName + ".enabled.value", None)];
      ce := ce[newKey := Translation(FeatureComponentString(ComponentEnablementPattern, fc.featureName, fc.componentName), None)];
      forall v | v in vfc && v !in remaining && v != valKey
        ensures EnabledKey(v) != newKey
      {
        if EnabledKey(v) == newKey {
          EnabledKeyInjective(v, valKey);
        }
      }
      remaining := remaining - {valKey};
    }
  }

  /* ---------------- initAPIMapping ---------------- */

  function OutPaths(original: Mapping): set<string>
  {
    set vk | vk in original :: original[vk].outPath
  }

  /**
   * `out` is `base` with the reverse of `original` written over it: every
   * output path of `original` maps back to one values key that has it.
   */
  ghost predicate ReversedInto(base: Mapping, original: Mapping, out: Mapping)
  {
    && out.Keys == base.Keys + OutPaths(original)
    && (forall op :: op in out && op !in OutPaths(original) ==> out[op] == base[op])
    && (forall op :: op in out && op in OutPaths(original) ==>
          exists vk :: vk in original && original[vk].outPath == op && out[op] == Translation(vk, None))
  }

  /** The loop of `initAPIMapping`, writing the reversed rules into the API table. */
  method ReverseAPIMapping(base: Mapping, original: Mapping) returns (out: Mapping)
    ensures ReversedInto(base, original, out)
  {
    var remaining := original.Keys;
    out := base;
    ghost var writer: map<string, string> := map[];
    while remaining != {}
      invariant remaining <= original.Keys
      invariant writer.Keys == set vk | vk in original && vk !in remaining :: original[vk].outPath
      invariant out.Keys == base.Keys + writer.Keys
      invariant forall op :: op in out && op !in writer ==> out[op] == base[op]
      invariant forall op :: op in writer ==>
                  writer[op] in original && original[writer[op]].outPath == op && out[op] == Translation(writer[op], None)
      decreases |remaining|
    {
      var valKey :| valKey in remaining;
      var outVal := original[valKey];
      out := out[outVal.outPath := Translation(valKey, None)];
      writer := writer[outVal.outPath := valKey];
      remaining := remaining - {valKey};
    }
    assert writer.Keys == OutPaths(original);
    forall op | op in out && op in OutPaths(original)
      ensures exists vk :: vk in original && original[vk].outPath == op && out[op] == Translation(vk, None)
    {
      assert original[writer[op]].outPath == op;
    }
  }

  /** With distinct output paths the reversal is a round trip: each output path leads back to its own values key. */
  lemma {:induction false} ReverseRoundTrip(base: Mapping, original: Mapping, out: Mapping, vk: string)
    requires ReversedInto(base, original, out)
    requires forall a, b :: a in original && b in original && original[a].outPath == original[b].outPath ==> a == b
    requires vk in original
    ensures original[vk].outPath in out
    ensures out[original[vk].outPath] == Translation(vk, None)
  {
    var op := original[vk].outPath;
    assert op in OutPaths(original);
    var w :| w in original && original[w].outPath == op && out[op] == Translation(w, None);
  }

  /* ---------------- TranslateTree ---------------- */

  const GlobalMappingContext: string := "error when translating value.yaml tree with global mapping"
  const KubernetesMappingContext: string := "error when translating value.yaml tree with kubernetes mapping"

  /** The message each pass wraps its error in; the last four passes share one. */
  const PassContexts: seq<string> := [GlobalMappingContext, KubernetesMappingContext, KubernetesMappingContext,
                                      KubernetesMappingContext, KubernetesMappingContext]

  /** One pass: the walk with one table, its error wrapped in the pass's context. */
  function PassResult(dst: Tree, path: Path, leaves: seq<Leaf>, mapping: Mapping, context: string, apply: CustomApply): (r: (Tree, Outcome))
    ensures r.1.Failed? ==> r.1.err.Wrapped? && r.1.err.context == context
  {
    var (d, o) := InsertLeaves(dst, path, leaves, mapping, apply);
    (d, if o.Failed? then Failed(Wrapped(context, o.err)) else o)
  }

  /**
   * The passes of `TranslateTree` one after another on the same destination:
   * pass `i` walks `passes[i]` with `tables[i]`; the first pass that does not
   * end Ok ends the run with its outcome.
   */
  function RunPasses(dst: Tree, path: Path, tables: seq<Mapping>, contexts: seq<string>,
                     passes: seq<seq<Leaf>>, apply: CustomApply): (r: (Tree, Outcome))
    requires |tables| == |contexts| == |passes|
    ensures tables == [] ==> r == (dst, Ok)
    decreases |tables|
  {
    if tables == [] then (dst, Ok)
    else
      var (d1, o1) := PassResult(dst, path, passes[0], tables[0], contexts[0], apply);
      if o1.Ok? then RunPasses(d1, path, tables[1..], contexts[1..], passes[1..], apply) else (d1, o1)
  }

  /** A run fails only with an error wrapped in the context of one of its passes. */
  lemma {:induction false} RunPassesFailureContext(dst: Tree, path: Path, tables: seq<Mapping>, contexts: seq<string>,
                                                   passes: seq<seq<Leaf>>, apply: CustomApply)
    requires |tables| == |contexts| == |passes|
    ensures var r := RunPasses(dst, path, tables, contexts, passes, apply);
      r.1.Failed? ==> r.1.err.Wrapped? && r.1.err.context in contexts
    decreases |tables|
  {
    if tables != [] {
      var (d1, o1) := PassResult(dst, path, passes[0], tables[0], contexts[0], apply);
      if o1.Ok? {
        RunPassesFailureContext(d1, path, tables[1..], contexts[1..], passes[1..], apply);
      }
    }
  }

  /** Passes that hand over no leaf with a rule leave the destination unchanged. */
  lemma {:induction false} RunPassesWithoutRules(dst: Tree, path: Path, tables: seq<Mapping>, contexts: seq<string>,
                                                 passes: seq<seq<Leaf>>, apply: CustomApply)
    requires |tables| == |contexts| == |passes|
    requires forall t, i, j :: 0 <= t < |passes| && 0 <= i < |passes[t]| && 0 < j <= |path + passes[t][i].rel| ==>
               Join((path + passes[t][i].rel)[..j]) !in tables[t]
    ensures RunPasses(dst, path, tables, contexts, passes, apply) == (dst, Ok)
    decreases |tables|
  {
    if tables != [] {
      InsertLeavesWithoutRules(dst, path, passes[0], tables[0], apply);
      RunPassesWithoutRules(dst, path, tables[1..], contexts[1..], passes[1..], apply);
    }
  }

  /** One call of `translateTree` inside `TranslateTree`, with the error wrapped as the caller does. */
  method Pass(valueTree: Tree, dst: Tree, path: Path, mapping: Mapping, context: string, apply: CustomApply)
    returns (out: Tree, outcome: Outcome, ghost leaves: seq<Leaf>)
    ensures WalkOf(valueTree, leaves)
    ensures outcome.Ok? ==> FullWalkOf(valueTree, leaves)
    ensures (out, outcome) == PassResult(dst, path, leaves, mapping, context, apply)
  {
    var o;
    out, o, leaves := TranslateSubtree(valueTree, dst, path, mapping, apply);
    outcome := if o.Failed? then Failed(Wrapped(context, o.err)) else o;
  }

  /** A run whose first pass ends Ok in `mid` continues from `mid` with the other passes. */
  lemma RunPassesOk(dst: Tree, mid: Tree, path: Path, tables: seq<Mapping>, contexts: seq<string>,
                    passes: seq<seq<Leaf>>, apply: CustomApply)
    requires |tables| == |contexts| == |passes| && tables != []
    requires PassResult(dst, path, passes[0], tables[0], contexts[0], apply) == (mid, Ok)
    ensures RunPasses(dst, path, tables, contexts, passes, apply)
         == RunPasses(mid, path, tables[1..], contexts[1..], passes[1..], apply)
  {
  }

  /**
   * Five passes written out one after another, as `TranslateTree` runs
   * them: each pass starts from the destination the one before left, and
   * the first that does not end Ok ends the run.
   */
  ghost function FivePassRun(dst: Tree, path: Path, tables: seq<Mapping>, contexts: seq<string>,
                             passes: seq<seq<Leaf>>, apply: CustomApply): (Tree, Outcome)
    requires |tables| == |contexts| == |passes| == 5
  {
    var (d0, o0) := PassResult(dst, path, passes[0], tables[0], contexts[0], apply);
    if !o0.Ok? then (d0, o0) else
    var (d1, o1) := PassResult(d0, path, passes[1], tables[1], contexts[1], apply);
    if !o1.Ok? then (d1, o1) else
    var (d2, o2) := PassResult(d1, path, passes[2], tables[2], contexts[2], apply);
    if !o2.Ok? then (d2, o2) else
    var (d3, o3) := PassResult(d2, path, passes[3], tables[3], contexts[3], apply);
    if !o3.Ok? then (d3, o3) else
    PassResult(d3, path, passes[4], tables[4], contexts[4], apply)
  }

  /** The written-out run of five passes is the general run of those five passes. */
  lemma FivePassRunIsRunPasses(dst: Tree, path: Path, tables: seq<Mapping>, contexts: seq<string>,
                               passes: seq<seq<Leaf>>, apply: CustomApply)
    requires |tables| == |contexts| == |passes| == 5
    ensures FivePassRun(dst, path, tables, contexts, passes, apply) == RunPasses(dst, path, tables, contexts, passes, apply)
  {
    var (d0, o0) := PassResult(dst, path, passes[0], tables[0], contexts[0], apply);
    if o0.Ok? {
      RunPassesOk(dst, d0, path, tables, contexts, passes, apply);
      var (d1, o1) := PassResult(d0, path, passes[1], tables[1], contexts[1], apply);
      if o1.Ok? {
        RunPassesOk(d0, d1, path, tables[1..], contexts[1..], passes[1..], apply);
        assert tables[1..][1..] == tables[2..] && contexts[1..][1..] == contexts[2..] && passes[1..][1..] == passes[2..];
        var (d2, o2) := PassResult(d1, path, passes[2], tables[2], contexts[2], apply);
        if o2.Ok? {
          RunPassesOk(d1, d2, path, tables[2..], contexts[2..], passes[2..], apply);
          assert tables[2..][1..] == tables[3..] && contexts[2..][1..] == contexts[3..] && passes[2..][1..] == passes[3..];
          var (d3, o3) := PassResult(d2, path, passes[3], tables[3], contexts[3], apply);
          if o3.Ok? {
            RunPassesOk(d2, d3, path, tables[3..], contexts[3..], passes[3..], apply);
            assert tables[3..][1..] == tables[4..] && contexts[3..][1..] == contexts[4..] && passes[3..][1..] == passes[4..];
            var (d4, o4) := PassResult(d3, path, passes[4], tables[4], contexts[4], apply);
            if o4.Ok? {
              RunPassesOk(d3, d4, path, tables[4..], contexts[4..], passes[4..], apply);
              assert tables[4..][1..] == [];
            }
          }
        }
      }
    }
  }

  /** `ValueYAMLTranslator`: the rule tables of one version. */
  class ValueYAMLTranslator {
    var apiMapping: Mapping
    var kubernetesMapping: Mapping
    var valuesToFeatureComponentName: map<string, FeatureComponent>
    var namespaceMapping: Mapping
    var featureEnablementMapping: Mapping
    var componentEnablementMapping: Mapping
    var componentDirLayout: map<string, string>

    /** The 1.2 entry of `ValueTranslators`, as declared, before `init` expands it. */
    constructor ()
      ensures apiMapping == map[] && kubernetesMapping == KubernetesTemplates12
      ensures valuesToFeatureComponentName == ValuesToFeatureComponentName12
      ensures namespaceMapping == NamespaceMapping12 && componentDirLayout == ComponentDirLayout12
      ensures featureEnablementMapping == map[] && componentEnablementMapping == map[]
    {
      apiMapping := map[];
      kubernetesMapping := KubernetesTemplates12;
      valuesToFeatureComponentName := ValuesToFeatureComponentName12;
      namespaceMapping := NamespaceMapping12;
      featureEnablementMapping := map[];
      componentEnablementMapping := map[];
      componentDirLayout := ComponentDirLayout12;
    }

    /** `initAPIMapping`: write the reverse of the other translator's API table (`original`) into this one. */
    method InitAPIMapping(original: Mapping)
      modifies this
      ensures ReversedInto(old(apiMapping), original, apiMapping)
      ensures kubernetesMapping == old(kubernetesMapping) && valuesToFeatureComponentName == old(valuesToFeatureComponentName)
      ensures namespaceMapping == old(namespaceMapping) && componentDirLayout == old(componentDirLayout)
      ensures featureEnablementMapping == old(featureEnablementMapping)
      ensures componentEnablementMapping == old(componentEnablementMapping)
    {
      apiMapping := ReverseAPIMapping(apiMapping, original);
    }

    /** `initK8SMapping`: replace the key templates by the rules they expand to. */
    method InitK8SMapping()
      modifies this
      ensures K8SExpansion(valuesToFeatureComponentName, old(kubernetesMapping), kubernetesMapping)
      ensures apiMapping == old(apiMapping) && valuesToFeatureComponentName == old(valuesToFeatureComponentName)
      ensures namespaceMapping == old(namespaceMapping) && componentDirLayout == old(componentDirLayout)
      ensures featureEnablementMapping == old(featureEnablementMapping)
      ensures componentEnablementMapping == old(componentEnablementMapping)
    {
      kubernetesMapping := ExpandK8SRules(valuesToFeatureComponentName, kubernetesMapping);
    }

    /** `initEnablementMapping`: build both enablement tables from the values keys. */
    method InitEnablementMapping()
      modifies this
      ensures EnablementExpansion(valuesToFeatureComponentName, featureEnablementMapping, componentEnablementMapping)
      ensures apiMapping == old(apiMapping) && kubernetesMapping == old(kubernetesMapping)
      ensures valuesToFeatureComponentName == old(valuesToFeatureComponentName)
      ensures namespaceMapping == old(namespaceMapping) && componentDirLayout == old(componentDirLayout)
    {
      featureEnablementMapping, componentEnablementMapping := ExpandEnablementRules(valuesToFeatureComponentName);
    }

    /** The package `init`: API table first, then the Kubernetes table, then enablement. */
    method Init(original: Mapping)
      modifies this
      ensures ReversedInto(old(apiMapping), original, apiMapping)
      ensures K8SExpansion(valuesToFeatureComponentName, old(kubernetesMapping), kubernetesMapping)
      ensures EnablementExpansion(valuesToFeatureComponentName, featureEnablementMapping, componentEnablementMapping)
      ensures valuesToFeatureComponentName == old(valuesToFeatureComponentName)
      ensures namespaceMapping == old(namespaceMapping) && componentDirLayout == old(componentDirLayout)
    {
      InitAPIMapping(original);
      InitK8SMapping();
      InitEnablementMapping();
    }

    /** The five tables in the order `TranslateTree` applies them. */
    function Tables(): (ts: seq<Mapping>)
      reads this
      ensures |ts| == |PassContexts|
    {
      [apiMapping, kubernetesMapping, namespaceMapping, featureEnablementMapping, componentEnablementMapping]
    }

    /**
     * `TranslateTree`: walk the same values tree once per table, in the
     * order API, Kubernetes, namespace, feature enablement, component
     * enablement, each pass writing into the destination the previous one
     * left; the first failing pass ends the translation. `passes[i]` are the
     * leaves pass `i` handed over (none for a pass that did not run).
     */
    method TranslateTree(valueTree: Tree, cpSpecTree: Tree, path: Path, apply: CustomApply)
      returns (out: Tree, outcome: Outcome, ghost passes: seq<seq<Leaf>>)
      ensures |passes| == |PassContexts|
      ensures forall i :: 0 <= i < |passes| ==> WalkOf(valueTree, passes[i])
      ensures outcome.Ok? ==> forall i :: 0 <= i < |passes| ==> FullWalkOf(valueTree, passes[i])
      ensures (out, outcome) == RunPasses(cpSpecTree, path, Tables(), PassContexts, passes, apply)
    {
      ghost var ts, cs := Tables(), PassContexts;
      ghost var p0, p1, p2, p3, p4: seq<Leaf>;
      out, outcome, p0 := Pass(valueTree, cpSpecTree, path, apiMapping, GlobalMappingContext, apply);
      if !outcome.Ok? {
        passes := FivePasses(valueTree, p0, [], [], [], []);
        FivePassRunIsRunPasses(cpSpecTree, path, ts, cs, passes, apply);
        return;
      }
      out, outcome, p1 := Pass(valueTree, out, path, kubernetesMapping, KubernetesMappingContext, apply);
      if !outcome.Ok? {
        passes := FivePasses(valueTree, p0, p1, [], [], []);
        FivePassRunIsRunPasses(cpSpecTree, path, ts, cs, passes, apply);
        return;
      }
      out, outcome, p2 := Pass(valueTree, out, path, namespaceMapping, KubernetesMappingContext, apply);
      if !outcome.Ok? {
        passes := FivePasses(valueTree, p0, p1, p2, [], []);
        FivePassRunIsRunPasses(cpSpecTree, path, ts, cs, passes, apply);
        return;
      }
      out, outcome, p3 := Pass(valueTree, out, path, featureEnablementMapping, KubernetesMappingContext, apply);
      if !outcome.Ok? {
        passes := FivePasses(valueTree, p0, p1, p2, p3, []);
        FivePassRunIsRunPasses(cpSpecTree, path, ts, cs, passes, apply);
        return;
      }
      out, outcome, p4 := Pass(valueTree, out, path, componentEnablementMapping, KubernetesMappingContext, apply);
      passes := FivePasses(valueTree, p0, p1, p2, p3, p4);
      FivePassRunIsRunPasses(cpSpecTree, path, ts, cs, passes, apply);
    }
  }

  /** The five walks of one translation as a sequence; every one of them is a walk of the values tree. */
  function FivePasses(valueTree: Tree, p0: seq<Leaf>, p1: seq<Leaf>, p2: seq<Leaf>, p3: seq<Leaf>, p4: seq<Leaf>): (ps: seq<seq<Leaf>>)
    requires WalkOf(valueTree, p0) && WalkOf(valueTree, p1) && WalkOf(valueTree, p2)
    requires WalkOf(valueTree, p3) && WalkOf(valueTree, p4)
    ensures |ps| == 5 && ps[0] == p0 && ps[1] == p1 && ps[2] == p2 && ps[3] == p3 && ps[4] == p4
    ensures forall i :: 0 <= i < |ps| ==> WalkOf(valueTree, ps[i])
    ensures FullWalkOf(valueTree, p0) && FullWalkOf(valueTree, p1) && FullWalkOf(valueTree, p2)
            && FullWalkOf(valueTree, p3) && FullWalkOf(valueTree, p4)
            ==> forall i :: 0 <= i < |ps| ==> FullWalkOf(valueTree, ps[i])
  {
    [p0, p1, p2, p3, p4]
  }
}
