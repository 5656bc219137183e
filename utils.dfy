/**
 * The placeholder port lookup exported by the Metis utilities package
 * (metis/utils/__init__.py): a fixed table with a fall-back port, and the
 * `http` URL built from it. Nothing here reads the environment.
 */
module Utils {
  import opened Builtins
  import PortConfig

  /** The fixed table of known components. */
  const PortTable: map<string, nat> := map["metis" := 8011, "telos" := 8008, "hermes" := 8001]

  /** The port every component missing from the table gets. */
  const FallbackPort: nat := 8000

  /** `get_port`: exact-match lookup in the table, else the fall-back port.
      It is total: every name gets a port. */
  function GetPort(componentName: string): (port: nat)
    ensures componentName in PortTable ==> port == PortTable[componentName]
    ensures componentName !in PortTable <==> port == FallbackPort
  {
    if componentName in PortTable then PortTable[componentName] else FallbackPort
  }

  /** The three known names, and nothing else, have their own ports; the
      lookup is case-sensitive. */
  lemma KnownPorts()
    ensures GetPort("metis") == 8011 && GetPort("telos") == 8008 && GetPort("hermes") == 8001
    ensures GetPort("METIS") == FallbackPort && GetPort("Telos") == FallbackPort
    ensures forall name :: name !in {"metis", "telos", "hermes"} ==> GetPort(name) == FallbackPort
  {
  }

  /** `get_service_url`: `http://localhost:` and the component's port. */
  function GetServiceUrl(componentName: string): (url: string)
    ensures url == PortConfig.LocalUrl("http", GetPort(componentName))
  {
    "http://localhost:" + IntToDecimal(GetPort(componentName))
  }

  /** With an empty environment the configurable helpers agree with the
      placeholders on every component the table knows. */
  lemma PlaceholderAgreesWithEndpoints(componentName: string)
    requires componentName in PortTable
    ensures PortConfig.GetServiceEndpoints(map[]).Ok?
    ensures PortConfig.GetServiceEndpoints(map[]).value[componentName] == GetServiceUrl(componentName)
  {
    PortConfig.DefaultServiceEndpoints();
  }
}
