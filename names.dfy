/**
 * Component and feature names of the operator (`pkg/name`, defined outside
 * the modelled packages). The string values are istio's; the model relies
 * only on their being distinct and free of '{' and '.'.
 */
module Names {

  const IstioBaseComponentName: string := "crds"
  const PilotComponentName: string := "Pilot"
  const GalleyComponentName: string := "Galley"
  const SidecarInjectorComponentName: string := "Injector"
  const PolicyComponentName: string := "Policy"
  const TelemetryComponentName: string := "Telemetry"
  const CitadelComponentName: string := "Citadel"
  const CertManagerComponentName: string := "CertManager"
  const NodeAgentComponentName: string := "NodeAgent"
  const IngressComponentName: string := "IngressGateway"
  const EgressComponentName: string := "EgressGateway"

  const TrafficManagementFeatureName: string := "TrafficManagement"
  const PolicyFeatureName: string := "Policy"
  const TelemetryFeatureName: string := "Telemetry"
  const SecurityFeatureName: string := "Security"
  const ConfigManagementFeatureName: string := "ConfigManagement"
  const AutoInjectionFeatureName: string := "AutoInjection"

  /** The traffic management feature's name holds no action brace. */
  lemma TrafficManagementPlain()
    ensures '{' !in TrafficManagementFeatureName
  {
  }
}
