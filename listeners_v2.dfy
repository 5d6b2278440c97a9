/**
 * The status listener of pkg/controller/istiocontrolplane/listenersv2.go:
 * at the end of a reconcile pass it records one health value, shared by all
 * six feature fields of the instance's status, and writes the status
 * through the client of the reconciler it was registered with.
 */
module ListenersV2 {
  import opened Wrappers
  import opened Errors
  import opened IstioApi
  import opened KubeClient
  import opened ManifestReconciler
  import InputsV2
  import opened HelmTypes

  /** The health recorded for a pass: HEALTHY when it returned nil, ERROR otherwise. */
  function StatusFor(err: Option<Error>): (s: StatusCode)
    ensures s == HEALTHY <==> err.None?
    ensures s == ERROR <==> err.Some?
  {
    if err.Some? then ERROR else HEALTHY
  }

  /** What `EndReconcile` did: the status update's answer, or a nil dereference. */
  datatype EndOutcome =
    | Updated(report: StatusReport, err: Option<Error>)
    | NilStatus
    | NilReconciler

  /** The report a status update sends when all six features share the code `s`. */
  function Uniform(s: StatusCode): (r: StatusReport)
    ensures r.trafficManagement == r.configManagement == r.policyTelemetry == s
    ensures r.security == r.ingressGateway == r.egressGateway == s
  {
    StatusReport(s, s, s, s, s, s)
  }

  /** `IstioStatusUpdaterV2`: the instance whose status it writes and the reconciler it writes through. */
  class IstioStatusUpdaterV2 {
    const instance: IstioControlPlane
    var reconciler: ISCPReconciler?

    /** `NewIstioStatusUpdaterV2`: no reconciler is registered yet. */
    constructor (instance: IstioControlPlane)
      ensures this.instance == instance && reconciler == null
    {
      this.instance := instance;
      reconciler := null;
    }

    /** `RegisterReconciler`: later status writes go through `r`. */
    method RegisterReconciler(r: ISCPReconciler)
      modifies this
      ensures reconciler == r
    {
      reconciler := r;
    }

    /**
     * `EndReconcile`: a nil status is dereferenced before anything is
     * written; otherwise the six feature fields are pointed at one new
     * status value, HEALTHY iff the pass returned nil, and the instance's
     * status is sent through the registered reconciler's client, whose
     * answer is returned (a nil reconciler is dereferenced only then, after
     * the fields were written). Nothing but the six fields changes.
     */
    method EndReconcile(err: Option<Error>) returns (outcome: EndOutcome)
      modifies instance.status
      ensures old(instance.status) == null ==> outcome == NilStatus
      ensures instance.status == old(instance.status)
      ensures instance.status != null ==>
        var st := instance.status;
        && st.trafficManagement != null && fresh(st.trafficManagement)
        && st.trafficManagement.status == StatusFor(err)
        && st.configManagement == st.policyTelemetry == st.security == st.trafficManagement
        && st.ingressGateway == st.egressGateway == st.trafficManagement
        && outcome == if reconciler == null then NilReconciler
                      else Updated(Uniform(StatusFor(err)),
                                   reconciler.helmreconciler.client.statusUpdate([StatusUpdateCall(Uniform(StatusFor(err)))]))
    {
      var status := instance.status;
      var vstatus := new VersionStatus(HEALTHY);
      if err.Some? {
        vstatus.status := ERROR;
      }
      if status == null {
        return NilStatus;
      }
      status.trafficManagement := vstatus;
      status.configManagement := vstatus;
      status.policyTelemetry := vstatus;
      status.security := vstatus;
      status.ingressGateway := vstatus;
      status.egressGateway := vstatus;
      if reconciler == null {
        return NilReconciler;
      }
      var report := StatusReport(
        status.trafficManagement.status, status.configManagement.status, status.policyTelemetry.status,
        status.security.status, status.ingressGateway.status, status.egressGateway.status);
      var answer := reconciler.helmreconciler.client.statusUpdate([StatusUpdateCall(report)]);
      return Updated(report, answer);
    }
  }

  /** The listeners of the composite `NewIstioRenderingListenerV2` builds. */
  datatype Listener = ChartCustomizer | StatusUpdater(updater: IstioStatusUpdaterV2)

  /**
   * `NewIstioRenderingListenerV2`: the chart customizer first, then a new
   * status updater for `instance` with no reconciler registered.
   */
  method NewIstioRenderingListenerV2(instance: IstioControlPlane) returns (listeners: seq<Listener>)
    ensures |listeners| == 2 && listeners[0] == ChartCustomizer && listeners[1].StatusUpdater?
    ensures fresh(listeners[1].updater)
    ensures listeners[1].updater.instance == instance && listeners[1].updater.reconciler == null
  {
    var updater := new IstioStatusUpdaterV2(instance);
    listeners := [ChartCustomizer, StatusUpdater(updater)];
  }

  /**
   * A reconcile pass whose rendering fails reports ERROR for all six
   * features: the listener is handed the wrapped render error.
   */
  lemma RenderFailureReportsError(h: HelmReconciler)
    requires h.beginReconcile([BeginReconcile]).None?
    requires h.renderManifests([BeginReconcile, RenderManifests]).Failure?
    ensures var calls := ReconcileRun(h).0;
      && calls != [] && calls[|calls| - 1].EndReconcile?
      && StatusFor(calls[|calls| - 1].err) == ERROR
  {
    RenderFailureReportedOnce(h);
  }

  /**
   * A reconcile pass that gets past ordering reports HEALTHY for all six
   * features exactly when every chart-loop call and every prune step
   * answered nil, and ERROR for all six otherwise.
   */
  lemma PassReportsHealthyIffClean(h: HelmReconciler, manifestMap: ChartManifestsMap, order: seq<string>)
    requires h.beginReconcile([BeginReconcile]).None?
    requires h.renderManifests([BeginReconcile, RenderManifests]) == Success(manifestMap)
    requires h.getProcessingOrder([BeginReconcile, RenderManifests, Event.GetProcessingOrder(manifestMap)]) == Success(order)
    ensures var hist := [BeginReconcile, RenderManifests, Event.GetProcessingOrder(manifestMap)];
      var charts := InputsV2.Known(order, manifestMap.Keys);
      var calls := ReconcileRun(h).0;
      var loopEnd := |hist| + 3 * |charts|;
      && |calls| == loopEnd + 4 && calls[loopEnd + 3].EndReconcile?
      && var clean := LoopClean(h, hist, calls[..loopEnd], |charts|)
                      && h.beginPrune(calls[..loopEnd + 1]).None?
                      && h.prune(calls[..loopEnd + 2]).None?
                      && h.endPrune(calls[..loopEnd + 3]).None?;
         && (StatusFor(calls[loopEnd + 3].err) == HEALTHY <==> clean)
         && (StatusFor(calls[loopEnd + 3].err) == ERROR <==> !clean)
  {
    FullPass(h, manifestMap, order);
  }
}
