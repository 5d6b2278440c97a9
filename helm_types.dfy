/** Types the helm reconciler shares between rendering, ordering and reconciling. */
module HelmTypes {

  /**
   * `manifest.Manifest` of helm as the reconciler fills it: the chart it
   * belongs to, its YAML text, and the kind recorded in its head.
   */
  datatype Manifest = Manifest(name: string, content: string, kind: string)

  /** `ChartManifestsMap`: chart name to the manifests rendered for that chart. */
  type ChartManifestsMap = map<string, seq<Manifest>>
}
