/**
 * The `IstioControlPlane` custom resource as far as the controller, the
 * rendering input and the status listener read and write it. Its Go
 * definition (packages v1alpha1 and v1alpha2) is generated code outside the
 * modelled packages; one class stands for both versions, holding only the fields the
 * modelled code touches.
 */
module IstioApi {

  /** `InstallStatus_Status`: the health recorded for one feature. */
  datatype StatusCode = NONE | UPDATING | HEALTHY | ERROR

  /** `InstallStatus_VersionStatus`: a status value the six feature fields point to. */
  class VersionStatus {
    var status: StatusCode

    constructor (s: StatusCode)
      ensures status == s
    {
      status := s;
    }
  }

  /** `InstallStatus`: one reference per feature; several may share one `VersionStatus`. */
  class InstallStatus {
    var trafficManagement: VersionStatus?
    var configManagement: VersionStatus?
    var policyTelemetry: VersionStatus?
    var security: VersionStatus?
    var ingressGateway: VersionStatus?
    var egressGateway: VersionStatus?

    constructor ()
      ensures trafficManagement == null && configManagement == null && policyTelemetry == null
      ensures security == null && ingressGateway == null && egressGateway == null
    {
      trafficManagement, configManagement, policyTelemetry := null, null, null;
      security, ingressGateway, egressGateway := null, null, null;
    }
  }

  /**
   * `IstioControlPlane`: whether a deletion timestamp is set, the finalizers,
   * `Spec.DefaultNamespace` and the status.
   */
  class IstioControlPlane {
    var deleted: bool
    var finalizers: seq<string>
    var defaultNamespace: string
    var status: InstallStatus?

    constructor (deleted: bool, finalizers: seq<string>, defaultNamespace: string, status: InstallStatus?)
      ensures this.deleted == deleted && this.finalizers == finalizers
      ensures this.defaultNamespace == defaultNamespace && this.status == status
    {
      this.deleted := deleted;
      this.finalizers := finalizers;
      this.defaultNamespace := defaultNamespace;
      this.status := status;
    }
  }
}

/**
 * The Kubernetes client (`client.Client` of controller-runtime) as an oracle.
 * Every answer is a function of the calls made through the client so far
 * in the modelled operation, the last of them being the call answered; this
 * stands for whatever the API server and other controllers do meanwhile.
 */
module KubeClient {
  import opened Wrappers
  import opened Errors
  import opened IstioApi

  /** What a status update sends: the health of each of the six features. */
  datatype StatusReport = StatusReport(
    trafficManagement: StatusCode, configManagement: StatusCode, policyTelemetry: StatusCode,
    security: StatusCode, ingressGateway: StatusCode, egressGateway: StatusCode)

  /**
   * A call through the client: a fetch of the instance, an update that
   * writes its finalizers, or a status update.
   */
  datatype ClientCall =
    | GetCall
    | UpdateCall(finalizers: seq<string>)
    | StatusUpdateCall(report: StatusReport)

  /**
   * `get` answers a fetch with the finalizers of the stored instance or an
   * error; `update` and `statusUpdate` answer with nil or an error.
   */
  datatype Client = Client(
    get: seq<ClientCall> -> Result<seq<string>, Error>,
    update: seq<ClientCall> -> Option<Error>,
    statusUpdate: seq<ClientCall> -> Option<Error>)

  /** `errors.IsConflict`: the API server refused a write made against a stale version. */
  predicate IsConflict(err: Option<Error>)
  {
    err.Some? && err.value.Conflict?
  }

  /** `errors.IsNotFound`: the requested object does not exist. */
  predicate IsNotFound(err: Error)
  {
    err.NotFound?
  }
}
