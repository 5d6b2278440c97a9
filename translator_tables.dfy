/**
 * What the 1.2 tables of pkg/translate/translateValue.go expand to once
 * `init` has run: which values keys get Kubernetes rules, where one of them
 * points, and where the enablement flags of a component and a gateway land.
 */
module TranslatorTables {
  import opened Wrappers
  import opened Paths
  import opened UntypedTree
  import opened Templates
  import opened Names
  import opened Translate
  import opened Translator

  /** Values keys with a feature, that is, every key but the two gateways. */
  const FeatureKeys12: set<string> :=
    {"pilot", "galley", "sidecarInjectorWebhook", "mixer.policy", "mixer.telemetry", "citadel", "nodeagent", "certmanager"}

  lemma FeatureKeysOf12(v: string)
    requires v in ValuesToFeatureComponentName12 && ValuesToFeatureComponentName12[v].featureName != ""
    ensures v in FeatureKeys12
  {
  }

  /** The settings of the 1.2 Kubernetes table are plain text, without actions. */
  lemma KubernetesSettingsPlain(i: nat)
    requires i < |KubernetesSettings12|
    ensures '{' !in KubernetesSettings12[i].0
  {
  }

  /** `replicaCount` is the setting of exactly one entry, whose field is `ReplicaCount`. */
  lemma ReplicaCountEntry(i: nat)
    requires i < |KubernetesSettings12| && KubernetesSettings12[i].0 == "replicaCount"
    ensures KubernetesSettings12[i].1 == "ReplicaCount"
  {
  }

  /** Every key template of the 1.2 Kubernetes table is the component placeholder followed by '.' and a plain setting. */
  lemma KubernetesTemplateShape(k: string)
    requires k in KubernetesTemplates12
    ensures |k| > |Placeholder(ValueComponentNameField)|
    ensures k == Placeholder(ValueComponentNameField) + k[|Placeholder(ValueComponentNameField)|..]
    ensures '{' !in k[|Placeholder(ValueComponentNameField)|..]
    ensures k[|Placeholder(ValueComponentNameField)|] == '.'
  {
    var p := Placeholder(ValueComponentNameField);
    KubernetesTemplatesOfFrom(KubernetesSettings12, k);
    var i: nat :| i < |KubernetesSettings12| && k == K8SKey(KubernetesSettings12[i].0)
                && KubernetesTemplates12[k] == K8SRule(KubernetesSettings12[i].1);
    var s := KubernetesSettings12[i].0;
    KubernetesSettingsPlain(i);
    AppendAssoc(p, ".", s);
    assert k[|p|..] == "." + s;
  }

  /** A rendered key is the values key followed by the template's plain suffix. */
  lemma RenderedKubernetesKey(k: string, v: string)
    requires k in KubernetesTemplates12
    ensures |k| > |Placeholder(ValueComponentNameField)|
    ensures ComponentString(k, v) == v + k[|Placeholder(ValueComponentNameField)|..]
    ensures k[|Placeholder(ValueComponentNameField)|] == '.'
  {
    KubernetesTemplateShape(k);
    var p := Placeholder(ValueComponentNameField);
    ComponentStringOfKeyTemplate(k[|p|..], v);
  }

  lemma NotUnderGateways(v: string, rest: string)
    requires v in FeatureKeys12
    ensures !("gateways." <= v + rest)
  {
    assert (v + rest)[0] == v[0] && (v + rest)[2] == v[2];
  }

  /**
   * The two gateway keys have no feature name, so the expanded Kubernetes
   * table holds no rule for any key under `gateways.`.
   */
  lemma GatewaysHaveNoKubernetesRules(out: Mapping)
    requires K8SExpansion(ValuesToFeatureComponentName12, KubernetesTemplates12, out)
    ensures forall nk :: nk in out ==> !("gateways." <= nk)
  {
    forall nk | nk in out
      ensures !("gateways." <= nk)
    {
      var v, k :| K8SRuleFrom(ValuesToFeatureComponentName12, KubernetesTemplates12, v, k, nk, out[nk]);
      FeatureKeysOf12(v);
      RenderedKubernetesKey(k, v);
      NotUnderGateways(v, k[|Placeholder(ValueComponentNameField)|..]);
    }
  }

  /** Only `pilot` among the keys with a feature is followed by a '.' in `pilot.replicaCount`. */
  lemma PilotKeyUnique(v: string, suffix: string)
    requires v in FeatureKeys12 && suffix != [] && suffix[0] == '.'
    requires v + suffix == "pilot.replicaCount"
    ensures v == "pilot" && suffix == ".replicaCount"
  {
    assert v == (v + suffix)[..|v|];
    assert (v + suffix)[|v|] == '.';
    if v != "pilot" {
      assert false;
    }
    assert suffix == (v + suffix)[|v|..];
  }

  /** `pilot` with the `replicaCount` template renders `pilot.replicaCount`. */
  lemma PilotReplicaCountKey()
    ensures K8SKey("replicaCount") in KubernetesTemplates12
    ensures ComponentString(K8SKey("replicaCount"), "pilot") == "pilot.replicaCount"
  {
    var p := Placeholder(ValueComponentNameField);
    var key := K8SKey("replicaCount");
    KubernetesTemplatesOfHas(KubernetesSettings12, 9);
    assert key == p + ".replicaCount";
    ComponentStringOfKeyTemplate(".replicaCount", "pilot");
  }

  /** The rule of `pilot.replicaCount` can only come from `pilot` and the `replicaCount` template. */
  lemma PilotReplicaCountWriter(out: Mapping)
    requires K8SExpansion(ValuesToFeatureComponentName12, KubernetesTemplates12, out)
    ensures "pilot.replicaCount" in out
    ensures K8SRuleFrom(ValuesToFeatureComponentName12, KubernetesTemplates12, "pilot", K8SKey("replicaCount"),
                        "pilot.replicaCount", out["pilot.replicaCount"])
  {
    PilotReplicaCountKey();
    assert "pilot" in ValuesToFeatureComponentName12 && ValuesToFeatureComponentName12["pilot"].featureName != "";
    var v, k :| K8SRuleFrom(ValuesToFeatureComponentName12, KubernetesTemplates12, v, k, "pilot.replicaCount", out["pilot.replicaCount"]);
    SameWriter(v, k);
  }

  lemma SameWriter(v: string, k: string)
    requires v in ValuesToFeatureComponentName12 && ValuesToFeatureComponentName12[v].featureName != ""
    requires k in KubernetesTemplates12 && ComponentString(k, v) == "pilot.replicaCount"
    ensures v == "pilot" && k == K8SKey("replicaCount")
  {
    var p := Placeholder(ValueComponentNameField);
    FeatureKeysOf12(v);
    RenderedKubernetesKey(k, v);
    KubernetesTemplateShape(k);
    PilotKeyUnique(v, k[|p|..]);
    assert k == p + ".replicaCount";
  }

  /** The 1.2 template of `replicaCount` points at `Common.K8S.ReplicaCount`. */
  lemma ReplicaCountTemplate()
    ensures K8SKey("replicaCount") in KubernetesTemplates12
    ensures KubernetesTemplates12[K8SKey("replicaCount")] == K8SRule("ReplicaCount")
  {
    var key := K8SKey("replicaCount");
    KubernetesTemplatesOfHas(KubernetesSettings12, 9);
    KubernetesTemplatesOfFrom(KubernetesSettings12, key);
    var i: nat :| i < |KubernetesSettings12| && key == K8SKey(KubernetesSettings12[i].0)
                && KubernetesTemplates12[key] == K8SRule(KubernetesSettings12[i].1);
    K8SKeyInjective(KubernetesSettings12[i].0, "replicaCount");
    ReplicaCountEntry(i);
  }

  /** The field name `ReplicaCount` holds no action brace. */
  lemma ReplicaCountFieldPlain()
    ensures '{' !in "ReplicaCount"
  {
  }

  /** A Kubernetes rule rendered for a plain feature and component. */
  lemma K8SRuleRendered(field: string, featureName: string, componentName: string)
    requires '{' !in field && '{' !in featureName
    ensures FeatureComponentString(K8SRule(field).outPath, featureName, componentName)
         == featureName + ".Components." + componentName + ".Common.K8S." + field
  {
    var middle, tail := ".Components.", ".Common.K8S." + field;
    assert K8SRule(field).outPath == Placeholder(FeatureNameField) + middle + Placeholder(ComponentNameField) + tail;
    FeatureComponentStringOfPathTemplate(middle, tail, featureName, componentName);
  }

  /**
   * After expansion, `pilot.replicaCount` is translated to the pilot
   * component's replica count under the traffic management feature.
   */
  lemma PilotReplicaCountRule(out: Mapping)
    requires K8SExpansion(ValuesToFeatureComponentName12, KubernetesTemplates12, out)
    ensures "pilot.replicaCount" in out
    ensures out["pilot.replicaCount"]
         == Translation(TrafficManagementFeatureName + ".Components." + PilotComponentName + ".Common.K8S." + "ReplicaCount", None)
  {
    PilotReplicaCountWriter(out);
    ReplicaCountTemplate();
    PilotFeatureComponent();
    ReplicaCountFieldPlain();
    TrafficManagementPlain();
    K8SRuleRendered("ReplicaCount", TrafficManagementFeatureName, PilotComponentName);
  }

  lemma PilotFeatureComponent()
    ensures "pilot" in ValuesToFeatureComponentName12
    ensures ValuesToFeatureComponentName12["pilot"] == FeatureComponent(TrafficManagementFeatureName, PilotComponentName)
  {
  }

  /** `PathFromString` of `a.b.` for plain segments `a` and `b`. */
  lemma TwoSegmentPath(a: string, b: string)
    requires CleanSegment(a) && CleanSegment(b)
    ensures PathFromString(a + "." + b + ".") == [a, b]
  {
    assert a + "." + b + "." == a + [Separator] + (b + [Separator] + "");
    PathFromStringAround(a, b + [Separator] + "");
    PathFromStringAround(b, "");
    PathFromJoin([a]);
    PathFromJoin([b]);
  }

  /**
   * The `enabled` flag of the ingress gateway maps, in the feature
   * enablement table, to `.enabled.value`, the feature name being empty.
   */
  lemma GatewayFeatureEnablementRule(fe: Mapping, ce: Mapping)
    requires EnablementExpansion(ValuesToFeatureComponentName12, fe, ce)
    ensures EnabledKey("gateways.istio-ingressgateway") in fe
    ensures fe[EnabledKey("gateways.istio-ingressgateway")] == Translation("" + ".enabled.value", None)
  {
    assert "gateways.istio-ingressgateway" in ValuesToFeatureComponentName12;
    assert ValuesToFeatureComponentName12["gateways.istio-ingressgateway"].featureName == "";
  }

  /**
   * Where a feature enablement rule writes: the feature name's path (none
   * for an empty name) followed by `enabled.value`.
   */
  lemma FeatureEnablementDestination(featureName: string)
    requires Separator !in featureName
    ensures DestinationPath(OutPathFor(featureName + ".enabled.value", []))
         == LowerSegments(if featureName == "" then [] else [featureName]) + ["enabled", "value"]
  {
    var tail := "enabled" + "." + "value" + ".";
    TwoSegmentPath("enabled", "value");
    assert OutPathFor(featureName + ".enabled.value", []) == featureName + [Separator] + tail;
    PathFromStringAround(featureName, tail);
    if featureName != "" {
      PathFromJoin([featureName]);
    }
    var p := PathFromString(featureName + [Separator] + tail);
    var head: Path := if featureName == "" then [] else [featureName];
    assert p == head + ["enabled", "value"];
    assert FirstCharToLower("enabled") == "enabled";
    assert FirstCharToLower("value") == "value";
    assert LowerSegments(p) == LowerSegments(head) + ["enabled", "value"];
  }

  /** With an empty feature name the flag is written at the top-level path `enabled.value`. */
  lemma EmptyFeatureEnablementDestination()
    ensures DestinationPath(OutPathFor("" + ".enabled.value", [])) == ["enabled", "value"]
  {
    FeatureEnablementDestination("");
  }

  /** The pilot key's rule in the feature enablement table. */
  lemma PilotFeatureEnablementRule(fe: Mapping, ce: Mapping)
    requires EnablementExpansion(ValuesToFeatureComponentName12, fe, ce)
    ensures EnabledKey("pilot") in fe
    ensures fe[EnabledKey("pilot")] == Translation(TrafficManagementFeatureName + ".enabled.value", None)
  {
    PilotFeatureComponent();
  }

  /** The rule for `pilot.enabled` is the longest, and only, match for that path. */
  lemma PilotEnabledMatch(fe: Mapping, ce: Mapping)
    requires EnablementExpansion(ValuesToFeatureComponentName12, fe, ce)
    ensures Join(["pilot", "enabled"]) == EnabledKey("pilot") && Join(["pilot", "enabled"]) in fe
    ensures LongestMatch(fe, ["pilot", "enabled"], 2)
    ensures fe[Join(["pilot", "enabled"])] == Translation(TrafficManagementFeatureName + ".enabled.value", None)
  {
    var path: Path := ["pilot", "enabled"];
    PilotFeatureEnablementRule(fe, ce);
    assert path[..2] == path;
    assert path[1..] == ["enabled"];
    assert Join(path) == "pilot" + [Separator] + "enabled";
    AppendAssoc("pilot", [Separator], "enabled");
    assert [Separator] + "enabled" == ".enabled";
  }

  /** `firstCharToLower` of the traffic management feature's name. */
  lemma TrafficManagementLowered()
    ensures FirstCharToLower(TrafficManagementFeatureName) == "trafficManagement"
  {
    var rest := "rafficManagement";
    assert TrafficManagementFeatureName == ['T'] + rest;
    assert (['T'] + rest)[1..] == rest;
    assert ['t'] + rest == "trafficManagement";
  }

  /** `TrafficManagement.enabled.value.` lands at `trafficManagement.enabled.value`. */
  lemma PilotEnabledDestination()
    ensures DestinationPath(OutPathFor(TrafficManagementFeatureName + ".enabled.value", []))
         == ["trafficManagement", "enabled", "value"]
  {
    FeatureEnablementDestination(TrafficManagementFeatureName);
    TrafficManagementLowered();
    var lowered := LowerSegments([TrafficManagementFeatureName]);
    assert lowered == ["trafficManagement"];
    assert lowered + ["enabled", "value"] == ["trafficManagement", "enabled", "value"];
  }

  /**
   * End to end for one leaf: with the expanded feature enablement table,
   * `pilot.enabled: false` writes `false` at
   * `trafficManagement.enabled.value` of an empty destination.
   */
  lemma PilotEnabledFlagTranslation(fe: Mapping, ce: Mapping, apply: CustomApply)
    requires EnablementExpansion(ValuesToFeatureComponentName12, fe, ce)
    ensures var r := InsertLeaf(map[], ["pilot", "enabled"], Bool(false), fe, apply);
      r.1 == Ok && Get(r.0, ["trafficManagement", "enabled", "value"]) == Some(Bool(false))
  {
    var path: Path := ["pilot", "enabled"];
    PilotEnabledMatch(fe, ce);
    InsertLeafDispatch(map[], path, Bool(false), fe, apply);
    var rule := fe[Join(path[..2])];
    assert path[..2] == path && path[2..] == [];
    var valuesPath := OutPathFor(rule.outPath, path[2..]);
    assert InsertLeaf(map[], path, Bool(false), fe, apply) == DefaultValueTranslationFunc(map[], valuesPath, Bool(false));
    PilotFlagWrite();
  }

  /** The default translation writes `false` at `trafficManagement.enabled.value` of an empty tree. */
  lemma PilotFlagWrite()
    ensures var r := DefaultValueTranslationFunc(map[], OutPathFor(TrafficManagementFeatureName + ".enabled.value", []), Bool(false));
      r.1 == Ok && Get(r.0, ["trafficManagement", "enabled", "value"]) == Some(Bool(false))
  {
    PilotEnabledDestination();
    var dest: Path := ["trafficManagement", "enabled", "value"];
    var empty: Tree := map[];
    assert dest[0] !in empty;
    assert Writable(empty, dest);
  }
}
