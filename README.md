# Istio operator core, modelled in Dafny

This project models two parts of the istio operator (the `istio.io/operator`
repository, the fork richardwxn/operator).

**The values-to-control-plane translation engine** (`pkg/translate/translateValue.go`)
- Untyped trees are maps from string keys to scalars, lists or nested maps. A write at a dotted path creates the missing intermediate maps (`setUntypedTree`).
- The default translation skips empty values and empty paths, and lower-cases the first character of each path segment (`defaultValueTranslationFunc`).
- Each leaf is looked up by the longest rule prefix (`insertLeaf`), while the values tree is walked recursively (`translateTree`).
- `TranslateTree` runs five rule tables in a fixed order.
- The `init*` functions expand the 1.2 per-component templates into concrete rules.

**The reconciliation machinery**
- The chart processing order puts the known charts first and every other rendered chart after them (`inputsv2.go`).
- The install tree is built from the static dependency table and printed (`dependencies.go`, `inputs.go`).
- `convert` turns the component-to-text map into chart-to-manifests, with the kind head read from the text. `ProcessManifests` applies every object and aggregates the errors (`manifest_rendering.go`).
- `ISCPReconciler.Reconcile` runs the pass: begin, render, order, per-chart apply, prune, end (`manifest_reconciler.go`).
- The v2 controller's finalizer state machine (`handleDeleted`) retries conflicting finalizer updates at most five times. `Reconcile` handles not-found (`istiocontrolplane_controllerv2.go`).
- The status listener writes one health value into all six feature statuses (`listenersv2.go`).

How the model is written:
- **Trees are values.** Go updates nested maps in place through shared references. Here a destination tree is a value threaded through the calls. Nothing else references it while it is written, so the two agree.
- **Collaborators are oracles.** The Kubernetes client, the listener hooks, the renderer, `Prune`/`Delete` and `ProcessObject` each answer as a function of the calls made so far. The last of those calls is the one being answered. Every method returns that call history, so which calls were made, in which order and with which arguments is part of its proven result.
- **Go map order is unspecified.** A loop over a map picks its next key with `:|`. Each such method returns the order actually taken (a ghost sequence or set) and states the result for that order.

Modules, one per file: `Wrappers`/`Errors` (wrappers.dfy), `Names`, `Paths`, `Templates`, `UntypedTree`, `Translate` (translate_tree.dfy), `Translator`, `TranslatorTables`, `InputsV2`, `Dependencies`, `HelmTypes`, `Inputs`, `IstioApi` and `KubeClient` (istio_api.dfy: the custom resource and the client), `ManifestRendering`, `ManifestReconciler`, `ListenersV2`, `ControllerV2` (controller_v2.dfy).

## Model

| member | source | states |
|---|---|---|
| UntypedTree.SetUntypedTree | pkg/translate/translateValue.go:329-342 | An empty path fails with "path cannot be empty" and leaves the tree unchanged. Otherwise the write succeeds iff every existing intermediate node is nil or a map; in every other case the type assertion panics. After a successful write, reading the path gives the value. |
| UntypedTree.SetTopKeys | pkg/translate/translateValue.go:334-341 | A successful write adds only its first segment to the top-level keys. Whatever the outcome, every other top-level entry is unchanged. |
| UntypedTree.SetKeepsOtherPaths | pkg/translate/translateValue.go:334-341 | Any path that is neither a prefix nor an extension of the written path reads the same before and after the write. |
| UntypedTree.SetCreatesIntermediateMaps | pkg/translate/translateValue.go:338-341 | After a write on a writable path, every intermediate node is a map holding the next segment. One that was missing or nil is a new map holding only that segment. |
| Paths.PathFromJoin | pkg/translate/translateValue.go:296 | Splitting a printed path whose segments are non-empty and dot-free gives the path back. |
| Paths.LowerSegmentsClean | pkg/translate/translateValue.go:296-298 | The lowered destination path keeps every segment non-empty and free of '.', lowering it again changes nothing, and printing it and splitting it again gives it back. |
| Translate.GetValuesPathMapping | pkg/translate/translateValue.go:34-35 | No rule iff no non-empty prefix of the path has one. Otherwise the result is the rule of the longest matching prefix, with output path = rule path + "." + the unmatched rest. |
| Translate.DestinationPath | pkg/translate/translateValue.go:296-298 | One segment per segment of the values path, each the source segment with its first character lowered, none empty. |
| Translate.DefaultValueTranslationFunc | pkg/translate/translateValue.go:284-301 | An empty string value, a nil value or an empty values path writes nothing and returns nil. Otherwise the value is written at the lowered path. A path with no segments (such as ".") fails with the empty-path error. Otherwise the write succeeds iff that path is writable and panics if not, and on success the value is readable there. |
| Translate.DefaultKeepsOtherPaths | pkg/translate/translateValue.go:296-300 | The default translation changes nothing off its destination path. |
| Translate.InsertLeafDispatch | pkg/translate/translateValue.go:266-281 | With no matching prefix the destination is unchanged and nil is returned. Otherwise the longest match's custom function, if it has one, or the default translation is applied, on the rule path plus the unmatched rest. |
| Translate.TranslateSubtree | pkg/translate/translateValue.go:237-264 | Hands each leaf (nil or non-map value) to `insertLeaf` under prefix + key, none twice, recursing into maps. When it ends without error every leaf was handed over. The destination is what inserting those leaves in that order gives, stopping at the first error. |
| Translate.InsertLeavesWithoutRules | pkg/translate/translateValue.go:269-272 | A walk whose leaves match no rule leaves the destination unchanged and returns nil. |
| Templates.ComponentStringOfKeyTemplate | pkg/translate/translateValue.go:305-310 | `componentString` of `{{.ValueComponentName}}<suffix>` is the values key followed by the suffix. |
| Templates.FeatureComponentStringOfPathTemplate | pkg/translate/translateValue.go:149 | `{{.FeatureName}}<m>{{.ComponentName}}<t>` renders to feature + m + component + t. |
| Translator.KubernetesTemplatesOfFrom | pkg/translate/translateValue.go:68-82 | Every key of a Kubernetes template table built from (setting, field) entries is the key template of one entry, and it maps to that entry's `Common.K8S.<field>` rule. |
| Translator.ExpandK8SRules | pkg/translate/translateValue.go:141-154 | The expanded table has a rule for every (values key with a non-empty feature, template) pair. Every rule is the rendered output template of such a pair. |
| Translator.ExpandEnablementRules | pkg/translate/translateValue.go:157-171 | The keys are exactly `<values key>.enabled`. Each maps to `<feature>.enabled.value` in the feature table and to the component enablement pattern in the component table. |
| Translator.ReverseAPIMapping | pkg/translate/translateValue.go:133-138 | The API table gains every output path of the original table, each mapping back to a values key that has it. The other entries are kept. |
| Translator.ReverseRoundTrip | pkg/translate/translateValue.go:133-138 | When output paths are distinct, each one leads back to its own values key. |
| Translator.ValueYAMLTranslator.constructor | pkg/translate/translateValue.go:65-120 | The 1.2 translator as declared: empty API and enablement tables, the eleven Kubernetes templates, the ten values keys, the four namespace rules and the directory layout. |
| Translator.ValueYAMLTranslator.InitAPIMapping | pkg/translate/translateValue.go:133-138 | Only the API table changes, to the reversal of the original. |
| Translator.ValueYAMLTranslator.InitK8SMapping | pkg/translate/translateValue.go:141-154 | The Kubernetes table is replaced by the expansion of its templates. Nothing else changes. |
| Translator.ValueYAMLTranslator.InitEnablementMapping | pkg/translate/translateValue.go:157-171 | Both enablement tables are rebuilt from the values keys. Nothing else changes. |
| Translator.ValueYAMLTranslator.Init | pkg/translate/translateValue.go:124-130 | API reversal, then Kubernetes expansion, then enablement expansion, with all three results stated. |
| Translator.Pass | pkg/translate/translateValue.go:210-213 | One `translateTree` walk over the values tree, with its error wrapped in the pass's context. |
| Translator.RunPassesFailureContext | pkg/translate/translateValue.go:207-234 | A failing run returns an error wrapped in the context of one of its passes. |
| Translator.RunPassesWithoutRules | pkg/translate/translateValue.go:207-234 | Passes whose leaves match no rule leave the destination unchanged and return nil. |
| Translator.FivePassRunIsRunPasses | pkg/translate/translateValue.go:209-233 | The five passes run back to back, each from the destination the previous one left and stopping at the first failure, are the general pass sequence. |
| Translator.ValueYAMLTranslator.TranslateTree | pkg/translate/translateValue.go:207-234 | The API, Kubernetes, namespace, feature-enablement and component-enablement tables are applied in that order to the same values tree. Each pass walks it fully when it succeeds, and the first failing pass ends the translation. |
| TranslatorTables.GatewaysHaveNoKubernetesRules | pkg/translate/translateValue.go:143-146 | The two gateway keys have no feature name, so the expanded Kubernetes table has no rule under `gateways.`. |
| TranslatorTables.KubernetesTemplateShape | pkg/translate/translateValue.go:68-82 | Every 1.2 key template is the component placeholder, a '.' and a plain setting. |
| TranslatorTables.PilotReplicaCountRule | pkg/translate/translateValue.go:80 | After expansion, `pilot.replicaCount` maps to `TrafficManagement.Components.Pilot.Common.K8S.ReplicaCount`. |
| TranslatorTables.GatewayFeatureEnablementRule | pkg/translate/translateValue.go:157-171 | The ingress gateway's `enabled` flag maps to `.enabled.value`, because its feature name is empty. |
| TranslatorTables.FeatureEnablementDestination | pkg/translate/translateValue.go:163 | A feature enablement rule writes at the lowered feature name followed by `enabled.value`. |
| TranslatorTables.EmptyFeatureEnablementDestination | pkg/translate/translateValue.go:291-298 | With an empty feature name the flag is still written, at the top-level path `enabled.value`. |
| TranslatorTables.PilotEnabledMatch | pkg/translate/translateValue.go:157-171 | The rule for `pilot.enabled` is the longest match for that path, pointing at `TrafficManagement.enabled.value`. |
| TranslatorTables.PilotEnabledFlagTranslation | pkg/translate/translateValue.go:266-301 | With the expanded feature table, `pilot.enabled: false` writes `false` at `trafficManagement.enabled.value` of an empty destination. |
| InputsV2.Known | pkg/controller/istiocontrolplane/inputsv2.go:29-34 | The first loop's output holds exactly the known charts that were rendered. |
| InputsV2.GetProcessingOrder | pkg/controller/istiocontrolplane/inputsv2.go:25-43 | The error is nil. The order is the rendered known charts in the fixed order, then every other rendered chart once. |
| InputsV2.OrderCoversManifests | pkg/controller/istiocontrolplane/inputsv2.go:29-41 | A chart is in the order iff it was rendered. |
| InputsV2.KnownChartsFirst | pkg/controller/istiocontrolplane/inputsv2.go:29-41 | Every known chart comes before every unknown one. |
| InputsV2.OrderIsAPermutationOfCharts | pkg/controller/istiocontrolplane/inputsv2.go:26-41 | When the fixed order has no repeats, the order has none and is as long as there are rendered charts. |
| InputsV2.RepeatedKnownChartRepeats | pkg/controller/istiocontrolplane/inputsv2.go:29-34 | A rendered chart listed twice in the fixed order appears twice, because the first loop does not consult `seen`. |
| InputsV2.EmptyManifestsEmptyOrder | pkg/controller/istiocontrolplane/inputsv2.go:25-43 | No rendered charts gives an empty order. |
| Dependencies.InsertChildrenRecursive | pkg/helmreconciler/dependencies.go:10-15 | `tree[componentName]` becomes a fresh subtree built recursively, replacing any previous entry. Every other key is kept. The children relation must be acyclic. |
| Dependencies.InstallSubtreeShape | pkg/helmreconciler/dependencies.go:10-15 | The subtree's keys are exactly the listed children, each with its own subtree. A component with no entry is an empty leaf. |
| Dependencies.BuildInstallTreeString | pkg/helmreconciler/dependencies.go:23-31 | Writes `prefix + name + "\n"`. When the top-level entry is a tree, it then writes each of its keys once, in map order, two spaces deeper, each looked up again in the top-level tree. Every chain of top-level lookups from the name must end. |
| Dependencies.InstallTreeString | pkg/helmreconciler/dependencies.go:17-21 | The text is the printout from the base component with no indentation. Every chain of top-level lookups from the base must end. |
| Dependencies.FirstLine | pkg/helmreconciler/dependencies.go:24 | The first line is always the component at its prefix. |
| Dependencies.AbsentComponentPrintsOneLine | pkg/helmreconciler/dependencies.go:24-27 | A component without a top-level tree prints as its single line. |
| Dependencies.TwoLevelTreeString | pkg/helmreconciler/dependencies.go:23-31 | When the children have no top-level tree, the text is the base line, then one line per child indented by two spaces, each child exactly once. |
| Dependencies.AsWrittenSkipsGrandchildren | pkg/helmreconciler/dependencies.go:28-29 | As written, a grandchild is never printed (see Findings). |
| Dependencies.BuildNestedTreeString | pkg/helmreconciler/dependencies.go:23-31 | The corrected printer looks each child up in its parent's subtree. |
| Dependencies.NestedPrintsEveryNode | pkg/helmreconciler/dependencies.go:23-31 | With the corrected lookup, every node of the tree is printed, indented two spaces per level. |
| Dependencies.NestedPrintsGrandchild | pkg/helmreconciler/dependencies.go:28-29 | On the three-level example, the corrected printer prints the grandchild four spaces deep. |
| Inputs.DependencyTableShape | pkg/controller/istiocontrolplane/inputs.go:10-23 | One parent, the base component, with ten distinct children. None of them is the base or a parent. |
| Inputs.WaitKeysAreTheChildren | pkg/controller/istiocontrolplane/inputs.go:31-35 | The components with a wait channel are exactly the ten children. |
| Inputs.DependenciesBounded | pkg/controller/istiocontrolplane/inputs.go:10-23 | The table is acyclic from the base: the recursive insertion from the base ends within two levels. |
| Inputs.BaseSubtree | pkg/controller/istiocontrolplane/inputs.go:69-72 | The base's subtree holds one empty leaf per listed child. |
| Inputs.Globals.constructor | pkg/controller/istiocontrolplane/inputs.go:25-26 | Both package variables start empty. |
| Inputs.Globals.BuildInstallTree | pkg/controller/istiocontrolplane/inputs.go:69-72 | The base's subtree is inserted into the install tree. The wait set is unchanged. |
| Inputs.Globals.RegisterWaitChannels | pkg/controller/istiocontrolplane/inputs.go:31-35 | The wait set gains every child of every parent. The install tree is unchanged. |
| Inputs.Globals.Init | pkg/controller/istiocontrolplane/inputs.go:29-37 | The install tree is built, then every child is registered for waiting. |
| Inputs.InitPackage | pkg/controller/istiocontrolplane/inputs.go:25-37 | After start-up the install tree is the base over ten leaves, and exactly the ten children wait. |
| Inputs.ProcessingOrderAfterInit | pkg/controller/istiocontrolplane/inputs.go:65-67 | After `init`, whatever was rendered, the wait set handed out is exactly the children of the dependency table handed out with it: ten components, never the base, none of them a parent. |
| Inputs.InstallTreeText | pkg/controller/istiocontrolplane/inputs.go:69-72 | Printed from the base, the install tree gives eleven lines: the base, then each child once, indented by two spaces. |
| Inputs.IstioRenderingInput.constructor | pkg/controller/istiocontrolplane/inputs.go:46-48 | Keeps the instance. The chart path is empty and the input config is nil. |
| ManifestRendering.ChartNameOf | pkg/helmreconciler/manifest_rendering.go:78 | Non-empty iff the component is in the table, and then it is the table's chart. |
| ManifestRendering.ChartNamesDistinct | pkg/helmreconciler/manifest_rendering.go:24-36 | No two components share a chart. |
| ManifestRendering.TrimSpaceSpec | pkg/helmreconciler/manifest_rendering.go:76 | The trimmed text is a slice of the input with only white space around it, and it starts and ends with non-space. It is empty only when the input is all white space. |
| ManifestRendering.KindHeadIsLeftmostMatch | pkg/helmreconciler/manifest_rendering.go:73-77 | "Unknown" iff `kind:(.*)\n` has no match. Otherwise the head is the trimmed group of the leftmost match. |
| ManifestRendering.GroupIsFilter | pkg/helmreconciler/manifest_rendering.go:85 | The grouping has a key per manifest name. Each group is the list of manifests with that name, in order. |
| ManifestRendering.Convert | pkg/helmreconciler/manifest_rendering.go:69-86 | Fails iff some component has no chart, with the error naming such a component. Otherwise the keys are the charts of the components. Each chart holds exactly its component's manifest: the text unchanged and the kind head read from it. |
| ManifestRendering.GroupOneMore | pkg/helmreconciler/manifest_rendering.go:83-85 | Appending the manifest of a component whose chart is new adds it alone under that chart and keeps the rest. |
| ManifestRendering.ApplyRawObject | pkg/helmreconciler/manifest_rendering.go:99-114 | A failed YAML conversion or decode is the object's error. Otherwise the object is handed to `HelmReconciler.ProcessObject` and its answer is the error. |
| ManifestRendering.ProcessObjects | pkg/helmreconciler/manifest_rendering.go:98-115 | Every split object of one manifest is attempted once, in map order, and its error, if any, is appended. |
| ManifestRendering.ProcessManifests | pkg/helmreconciler/manifest_rendering.go:88-119 | Every object of every manifest is attempted, in order, whatever failed before. The aggregate of the collected errors is returned. |
| ManifestRendering.OutcomesPerObject | pkg/helmreconciler/manifest_rendering.go:93-116 | There is exactly one outcome per split object of each manifest. |
| ManifestRendering.ObjectOutcomes | pkg/helmreconciler/manifest_rendering.go:98-115 | Each outcome is the conversion error, else the decode error, else `HelmReconciler.ProcessObject`'s answer to the decoded object. |
| ManifestRendering.NilIffEveryObjectSucceeds | pkg/helmreconciler/manifest_rendering.go:98-118 | At most one error per object. The result is nil iff no object failed. |
| ManifestReconciler.ISCPReconciler.constructor | pkg/helmreconciler/manifest_reconciler.go:27 | Wraps the helm reconciler the factory built. |
| ManifestReconciler.ISCPReconciler.Reconcile | pkg/helmreconciler/manifest_reconciler.go:33-109 | The calls made and the error returned are those of the staged pass. |
| ManifestReconciler.ISCPReconciler.ProcessCharts | pkg/helmreconciler/manifest_reconciler.go:67-85 | The chart loop: it skips unrendered charts and collects every hook's error. |
| ManifestReconciler.ISCPReconciler.PruneAndEnd | pkg/helmreconciler/manifest_reconciler.go:88-108 | Prune, report and return, as the pass does. |
| ManifestReconciler.ISCPReconciler.Delete | pkg/helmreconciler/manifest_reconciler.go:112-114 | One delegated Delete call, whose answer is returned. |
| ManifestReconciler.BeginFailureStopsAtOnce | pkg/helmreconciler/manifest_reconciler.go:37-39 | A failing BeginReconcile is returned as is. Nothing is rendered and EndReconcile is not called. |
| ManifestReconciler.RenderFailureReportedOnce | pkg/helmreconciler/manifest_reconciler.go:42-50 | A render error is wrapped, reported once to EndReconcile and returned, whatever EndReconcile answers. No chart is processed. |
| ManifestReconciler.OrderFailureReportedOnce | pkg/helmreconciler/manifest_reconciler.go:53-61 | An ordering error is handled the same way. |
| ManifestReconciler.ChartLoopShape | pkg/helmreconciler/manifest_reconciler.go:67-85 | For each rendered chart of the order, in order, BeginChart, ProcessManifests (given BeginChart's manifests) and EndChart are called. Unrendered charts leave no trace. No error is collected iff every call answered nil. |
| ManifestReconciler.NewBlock | pkg/helmreconciler/manifest_reconciler.go:68-84 | A rendered chart adds its three calls, all made whatever the others answered. |
| ManifestReconciler.FinishShape | pkg/helmreconciler/manifest_reconciler.go:88-108 | BeginPrune, Prune and EndPrune run once each, then EndReconcile is the last call, with the aggregate. nil is reported iff nothing was collected, and returned iff EndReconcile also answered nil. |
| ManifestReconciler.FinishErrors | pkg/helmreconciler/manifest_reconciler.go:88-108 | EndReconcile is told the aggregate of the loop's and the prune steps' errors. Its own error is appended to what is returned. |
| ManifestReconciler.FullPass | pkg/helmreconciler/manifest_reconciler.go:63-108 | A pass past ordering processes each rendered chart in order, prunes once and ends with EndReconcile given every error before it. It returns nil iff no call from the chart loop on failed. |
| IstioApi.VersionStatus.constructor | pkg/controller/istiocontrolplane/listenersv2.go:45-47 | The new status value holds the given code. |
| ListenersV2.IstioStatusUpdaterV2.constructor | pkg/controller/istiocontrolplane/listenersv2.go:34-39 | Keeps the instance. No reconciler is registered. |
| ListenersV2.IstioStatusUpdaterV2.RegisterReconciler | pkg/controller/istiocontrolplane/listenersv2.go:61-63 | Stores the reconciler. |
| ListenersV2.IstioStatusUpdaterV2.EndReconcile | pkg/controller/istiocontrolplane/listenersv2.go:43-58 | A nil status panics on the first field write, and nothing is written. Otherwise the six fields point to one new value, HEALTHY iff `err` is nil. The status update's answer is then returned, or the nil reconciler is dereferenced when none was registered. Nothing else changes. |
| ListenersV2.NewIstioRenderingListenerV2 | pkg/controller/istiocontrolplane/listenersv2.go:22-31 | Two listeners: the chart customizer, then a fresh status updater for the instance. |
| ListenersV2.RenderFailureReportsError | pkg/controller/istiocontrolplane/listenersv2.go:45-56 | A reconcile pass whose rendering fails ends with EndReconcile given an error, whose status code is ERROR; `EndReconcile` writes that code into all six features. |
| ListenersV2.PassReportsHealthyIffClean | pkg/controller/istiocontrolplane/listenersv2.go:45-56 | A reconcile pass past ordering ends with EndReconcile, and the status code of the error it is given (the code `EndReconcile` writes into all six features) is HEALTHY iff every chart-loop call and every prune step answered nil, and ERROR otherwise. |
| ControllerV2.IndexOf | pkg/controller/istiocontrolplane/istiocontrolplane_controllerv2.go:46 | The first position of the finalizer, or -1 iff it is absent. |
| ControllerV2.RemoveAtSpec | pkg/controller/istiocontrolplane/istiocontrolplane_controllerv2.go:62 | Removal drops exactly the entry at the index and keeps the others in order. |
| ControllerV2.RetryRound | pkg/controller/istiocontrolplane/istiocontrolplane_controllerv2.go:68-73 | A refetch, then either the finalizer is gone (the slice at -1) or it is removed and written. |
| ControllerV2.RetryRemovalGrows | pkg/controller/istiocontrolplane/istiocontrolplane_controllerv2.go:65-74 | The loop makes at most one update per remaining retry. |
| ControllerV2.RetryRemovalSettles | pkg/controller/istiocontrolplane/istiocontrolplane_controllerv2.go:65-74 | When the loop settles, its answer is the last update's, which is no conflict unless every retry was used. |
| ControllerV2.RetryOnlyAfterConflict | pkg/controller/istiocontrolplane/istiocontrolplane_controllerv2.go:65-68 | Every refetch directly follows an update refused with a conflict. |
| ControllerV2.RemoveFinalizer | pkg/controller/istiocontrolplane/istiocontrolplane_controllerv2.go:65-74 | The retry loop is the recursive removal function. |
| ControllerV2.HandleDeleted | pkg/controller/istiocontrolplane/istiocontrolplane_controllerv2.go:39-96 | A non-instance panics. Otherwise the outcome, the calls and the new finalizers are those of the state machine, and only the finalizers change. |
| ControllerV2.DeletedWithoutFinalizerIsDone | pkg/controller/istiocontrolplane/istiocontrolplane_controllerv2.go:48-52 | A deleted instance without the finalizer gets no call, and nil is returned. |
| ControllerV2.DeletionRemovesFinalizer | pkg/controller/istiocontrolplane/istiocontrolplane_controllerv2.go:53-78 | Delete runs if the factory built a reconciler. The first write removes exactly one copy of the finalizer. At most six updates are made, each refetch follows a conflict, and the returned error is the Delete/factory error. |
| ControllerV2.RemovalStopsOnSuccessOrRetriesSpent | pkg/controller/istiocontrolplane/istiocontrolplane_controllerv2.go:64-77 | Without a panic, removal stops on a non-conflict answer or after all five retries. |
| ControllerV2.LiveWithoutFinalizerGetsIt | pkg/controller/istiocontrolplane/istiocontrolplane_controllerv2.go:79-85 | The finalizer is appended in one update, whose answer is returned. Nothing is reconciled. |
| ControllerV2.LiveWithFinalizerReconciles | pkg/controller/istiocontrolplane/istiocontrolplane_controllerv2.go:87-95 | The reconciler runs and its error is returned. The finalizers are not written. |
| ControllerV2.ReconcileIstioControlPlaneV2.constructor | pkg/controller/istiocontrolplane/istiocontrolplane_controllerv2.go:34-37 | Keeps the client and the factory. |
| ControllerV2.ReconcileIstioControlPlaneV2.Reconcile | pkg/controller/istiocontrolplane/istiocontrolplane_controllerv2.go:100-128 | One fetch, then the request's outcome. |
| ControllerV2.FetchFailureIsNotReconciled | pkg/controller/istiocontrolplane/istiocontrolplane_controllerv2.go:106-116 | NotFound gives nil; any other fetch error is returned. Neither reaches the helm reconciler. |
| ControllerV2.ReconcileNeverTouchesFinalizers | pkg/controller/istiocontrolplane/istiocontrolplane_controllerv2.go:100-128 | `Reconcile` makes one fetch and no update. |
| ControllerV2.FetchedInstanceIsReconciled | pkg/controller/istiocontrolplane/istiocontrolplane_controllerv2.go:119-127 | A fetched instance is reconciled and the pass's error is returned as is. |
| ControllerV2.AsWrittenPanicsWhenRefetchFails | pkg/controller/istiocontrolplane/istiocontrolplane_controllerv2.go:68-71 | As written, a conflict followed by a failed refetch panics (see Findings). |
| ControllerV2.FixedNeverPanics | pkg/controller/istiocontrolplane/istiocontrolplane_controllerv2.go:65-74 | The corrected loop always settles. |
| ControllerV2.FixedAgreesUnlessPanic | pkg/controller/istiocontrolplane/istiocontrolplane_controllerv2.go:65-74 | Wherever the written loop does not panic, the corrected loop ends exactly as it does. Where it panics, the corrected loop stops there with no error. |

## Behaviour worth noting

- `TranslateTree` runs five rule tables and nothing else; a leaf that no table matches is dropped.
- A failed translation leaves the writes made before the error in the destination, because the code writes into it in place. The model returns that partial tree with the failure.
- Finalizer removal makes one update plus at most five retries, so at most six updates.
- The v2 controller's `Reconcile` never calls `handleDeleted`.
- `buildInstallTreeString` looks every child up again in the top-level tree, so on a tree where those lookups loop (`{"a": {"a": {}}}`, or two top-level entries listing each other) it recurses without end. The static dependency table is not such a tree.
- `EndReconcile` writes one `VersionStatus` value, shared by all six feature fields.

## Left out

Left out entirely:
- Logging, `dbgPrint` and the logger plumbing.
- `TranslateFromValueToSpec`'s YAML marshalling.
- `renderManifests` (file read, spec parse, external renderer).
- The CLI, manager, HTTP fetcher, webhook and utility packages.

Collaborators not modelled from their code, and what stands in for them:
- **Oracles.** `releaseutil.SplitManifests`, `yaml.YAMLToJSON`, the unstructured decoder, `HelmReconciler.ProcessObject`, `Prune`, `Delete`, `ProcessManifests`, the listener hooks and the Kubernetes client are oracles over the call history.
- **Channels.** Only the key set of `dependencyWaitCh` is modelled.
- **`CollectManifestsByChart`** is modelled as grouping the manifests by name, each group in list order.
- **`defaultProcessingOrder`** is a parameter.
- **Name values.** The `pkg/name` values and the finalizer string are constants; only their distinctness and shape are used.
- **Path helpers.** `util.PathFromString` splits at '.' and drops empty segments; escaped dots are not modelled. `firstCharToLower` lowers ASCII only. `util.IsEmptyString` is true for nil or "".
- **`getValuesPathMapping`** is the longest-prefix loop, with output path = rule path + "." + rest, and "" when the rule path is "".
- **Templates.** `html/template` is modelled as plain `{{.Field}}` substitution, so parse and execution errors and HTML escaping are not modelled. The same holds for `featureComponentString`.
- **`Translators`.** The other translator's API table that `initAPIMapping` reverses is a parameter.
- **Strings** are sequences of code points, not UTF-8 bytes. `unicode.IsSpace` is written out as its set of white-space code points.

Operations that are modelled, with these limits:
- ControllerV2.HandleDeleted: does not compile as written: it refers to `r.client` and `request`, and returns values from a function without results. It is read as using its `client` parameter and refetching the same instance. The factory is represented by its answer, the refetched finalizers are written back in place, and the controller's client calls and the helm reconciler's calls are two separate logs.
- Inputs.Globals.GetProcessingOrder: ignores the rendered manifests, as the source does.
- Translator.ValueYAMLTranslator.TranslateTree: states what happens for the order of leaves actually taken; Go's map order is not fixed, so where two leaves write the same destination the last writer wins.

## Findings

| source | as written | input that shows it | evidently intended | confidence | as-written member | corrected member |
|---|---|---|---|---|---|---|
| pkg/helmreconciler/dependencies.go:28-29 | each child of a node is looked up again in the top-level tree `ct`, not in the node's subtree | a tree `crds` → `Pilot` → `x`, with `Pilot` absent at the top level: `x` is never printed | descend into the subtree being printed, so every level appears | medium, not executed; the static two-level table does not trigger it | Dependencies.AsWrittenSkipsGrandchildren | Dependencies.NestedPrintsGrandchild |
| pkg/controller/istiocontrolplane/istiocontrolplane_controllerv2.go:68-71 | the retry round ignores the refetch error and slices at `indexOf(...)`, which is -1 when the instance no longer has the finalizer | instance with finalizers `[f]`; the first update conflicts and the refetch fails, so the instance keeps `[]` and `finalizers[:-1]` panics | stop retrying when the refetched instance no longer has the finalizer | high, not executed | ControllerV2.AsWrittenPanicsWhenRefetchFails | ControllerV2.FixedNeverPanics |
