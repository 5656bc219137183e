/**
 * Port configuration for Metis and the URLs of the other Tekton components
 * (metis/utils/port_config.py). The process environment is an explicit map
 * from variable name to value.
 */
module PortConfig {
  import opened Builtins

  /** The `ValueError` that `int()` raises on a non-numeric variable. */
  datatype PortError = InvalidPort(variable: string, text: string)

  /** The environment variable that holds a service's port: `METIS_PORT`. */
  function PortVariable(serviceName: string): (name: string)
    ensures |name| == |serviceName| + 5 && name[|serviceName|..] == "_PORT"
    ensures forall i :: 0 <= i < |serviceName| ==> name[i] == UpperChar(serviceName[i])
  {
    Upper(serviceName) + "_PORT"
  }

  /** `get_port`: the port in the environment, else the caller's default. */
  function GetPort(env: Env, serviceName: string, defaultPort: int): (r: Result<int, PortError>)
    ensures r.Err? ==> PortVariable(serviceName) in env
    ensures r.Ok? && r.value != defaultPort ==> PortVariable(serviceName) in env && r.value >= 0
  {
    var name := PortVariable(serviceName);
    if name !in env then Ok(defaultPort)
    else match ParseDecimal(env[name])
      case Some(port) => Ok(port)
      case None => Err(InvalidPort(name, env[name]))
  }

  /** An unset variable gives the default; a set one gives the number
      `int()` reads from it, or the error when it is not a number. */
  lemma GetPortCases(env: Env, serviceName: string, defaultPort: int)
    ensures PortVariable(serviceName) !in env ==> GetPort(env, serviceName, defaultPort) == Ok(defaultPort)
    ensures PortVariable(serviceName) in env ==>
      (GetPort(env, serviceName, defaultPort).Err? <==> ParseDecimal(env[PortVariable(serviceName)]).None?)
    ensures PortVariable(serviceName) in env && ParseDecimal(env[PortVariable(serviceName)]).Some? ==>
      GetPort(env, serviceName, defaultPort) == Ok(ParseDecimal(env[PortVariable(serviceName)]).value)
    ensures GetPort(env, serviceName, defaultPort).Err? ==>
      GetPort(env, serviceName, defaultPort).error == InvalidPort(PortVariable(serviceName), env[PortVariable(serviceName)])
  {
  }

  /** Setting the variable to the decimal spelling of `port` selects `port`,
      whatever the default. */
  lemma GetPortFromVariable(env: Env, serviceName: string, defaultPort: int, port: nat)
    ensures GetPort(env[PortVariable(serviceName) := NatToDecimal(port)], serviceName, defaultPort) == Ok(port)
  {
    ParseDecimalRoundTrip(port);
  }

  /** Leading zeros are read away: `METIS_PORT=08011` selects 8011. */
  lemma GetPortLeadingZeros(env: Env, serviceName: string, defaultPort: int, zeros: string, port: nat)
    requires forall i :: 0 <= i < |zeros| ==> zeros[i] == '0'
    ensures GetPort(env[PortVariable(serviceName) := zeros + NatToDecimal(port)], serviceName, defaultPort) == Ok(port)
  {
    ParseDecimalLeadingZeros(zeros, port);
  }

  /** A set but non-numeric variable is an error: there is no fall-back to
      the default. */
  lemma GetPortRejectsNonNumeric(env: Env, serviceName: string, defaultPort: int)
    requires PortVariable(serviceName) in env
    requires !AllDigits(env[PortVariable(serviceName)]) || env[PortVariable(serviceName)] == ""
    ensures GetPort(env, serviceName, defaultPort) == Err(InvalidPort(PortVariable(serviceName), env[PortVariable(serviceName)]))
  {
  }

  /** Service names that differ only in letter case read the same variable. */
  lemma GetPortIgnoresCase(env: Env, a: string, b: string, defaultPort: int)
    requires Upper(a) == Upper(b)
    ensures GetPort(env, a, defaultPort) == GetPort(env, b, defaultPort)
  {
  }

  /** The text of a URL to a component on this host. */
  function LocalUrl(protocol: string, port: int): string {
    protocol + "://localhost:" + IntToDecimal(port)
  }

  /** A bridge between the two spellings of an `http` URL: `LocalUrl`, as
      `get_service_url` builds it, and the f-string `f"http://localhost:{port}"`
      that `get_config` writes. */
  lemma HttpLocalUrl(port: int)
    ensures LocalUrl("http", port) == "http://localhost:" + IntToDecimal(port)
  {
    assert "http" + "://localhost:" == "http://localhost:";
  }

  /** A local URL names its port unambiguously. */
  lemma LocalUrlInjective(protocol: string, p: int, q: int)
    requires LocalUrl(protocol, p) == LocalUrl(protocol, q)
    ensures p == q
  {
    var prefix := protocol + "://localhost:";
    assert LocalUrl(protocol, p)[|prefix|..] == IntToDecimal(p);
    assert LocalUrl(protocol, q)[|prefix|..] == IntToDecimal(q);
    IntToDecimalInjective(p, q);
  }

  /** `get_service_url`: `protocol://localhost:port`, `http` unless told otherwise. */
  function GetServiceUrl(env: Env, serviceName: string, defaultPort: int, protocol: string := "http"): (r: Result<string, PortError>)
    ensures r.Ok? <==> GetPort(env, serviceName, defaultPort).Ok?
    ensures r.Ok? ==> r.value == LocalUrl(protocol, GetPort(env, serviceName, defaultPort).value)
    ensures r.Err? ==> r.error == GetPort(env, serviceName, defaultPort).error
  {
    match GetPort(env, serviceName, defaultPort)
    case Ok(port) => Ok(LocalUrl(protocol, port))
    case Err(e) => Err(e)
  }

  /** `get_service_endpoints`: the URLs of the four components, looked up in
      the order the dictionary literal lists them; the first bad variable
      raises. */
  function GetServiceEndpoints(env: Env): (r: Result<map<string, string>, PortError>)
    ensures r.Ok? <==>
      GetPort(env, "METIS", 8011).Ok? && GetPort(env, "HERMES", 8001).Ok? &&
      GetPort(env, "TELOS", 8008).Ok? && GetPort(env, "PROMETHEUS", 8006).Ok?
    ensures r.Ok? ==>
      && r.value.Keys == {"metis", "hermes", "telos", "prometheus"}
      && r.value["metis"] == LocalUrl("http", GetPort(env, "METIS", 8011).value)
      && r.value["hermes"] == LocalUrl("http", GetPort(env, "HERMES", 8001).value)
      && r.value["telos"] == LocalUrl("http", GetPort(env, "TELOS", 8008).value)
      && r.value["prometheus"] == LocalUrl("http", GetPort(env, "PROMETHEUS", 8006).value)
    ensures r.Err? ==> r.error == FirstPortError(env)
  {
    match GetServiceUrl(env, "METIS", 8011)
    case Err(e) => Err(e)
    case Ok(metis) =>
      match GetServiceUrl(env, "HERMES", 8001)
      case Err(e) => Err(e)
      case Ok(hermes) =>
        match GetServiceUrl(env, "TELOS", 8008)
        case Err(e) => Err(e)
        case Ok(telos) =>
          match GetServiceUrl(env, "PROMETHEUS", 8006)
          case Err(e) => Err(e)
          case Ok(prometheus) =>
            Ok(map["metis" := metis, "hermes" := hermes, "telos" := telos, "prometheus" := prometheus])
  }

  /** The error of the first of the four lookups that fails, in the order of
      the dictionary literal. */
  function FirstPortError(env: Env): PortError
    requires
      GetPort(env, "METIS", 8011).Err? || GetPort(env, "HERMES", 8001).Err? ||
      GetPort(env, "TELOS", 8008).Err? || GetPort(env, "PROMETHEUS", 8006).Err?
  {
    if GetPort(env, "METIS", 8011).Err? then GetPort(env, "METIS", 8011).error
    else if GetPort(env, "HERMES", 8001).Err? then GetPort(env, "HERMES", 8001).error
    else if GetPort(env, "TELOS", 8008).Err? then GetPort(env, "TELOS", 8008).error
    else GetPort(env, "PROMETHEUS", 8006).error
  }

  /** With no port variables set, every component is at its default port. */
  lemma DefaultServiceEndpoints()
    ensures GetServiceEndpoints(map[]) == Ok(map[
      "metis" := LocalUrl("http", 8011),
      "hermes" := LocalUrl("http", 8001),
      "telos" := LocalUrl("http", 8008),
      "prometheus" := LocalUrl("http", 8006)])
  {
    assert GetPort(map[], "METIS", 8011) == Ok(8011);
    assert GetPort(map[], "HERMES", 8001) == Ok(8001);
    assert GetPort(map[], "TELOS", 8008) == Ok(8008);
    assert GetPort(map[], "PROMETHEUS", 8006) == Ok(8006);
  }

  /** `construct_api_url`: the service URL, then `/api/v1/`, then the
      endpoint with its leading slashes removed. */
  function ConstructApiUrl(env: Env, serviceName: string, defaultPort: int, endpoint: string): (r: Result<string, PortError>)
    ensures r.Ok? <==> GetPort(env, serviceName, defaultPort).Ok?
    ensures r.Ok? ==> r.value == GetServiceUrl(env, serviceName, defaultPort).value + "/api/v1/" + LStripSlashes(endpoint)
    ensures r.Err? ==> r.error == GetPort(env, serviceName, defaultPort).error
  {
    match GetServiceUrl(env, serviceName, defaultPort)
    case Ok(baseUrl) => Ok(baseUrl + "/api/v1/" + LStripSlashes(endpoint))
    case Err(e) => Err(e)
  }

  /** Leading slashes on the endpoint, however many, do not change the URL. */
  lemma ApiUrlIgnoresLeadingSlashes(env: Env, serviceName: string, defaultPort: int, slashes: string, endpoint: string)
    requires forall i :: 0 <= i < |slashes| ==> slashes[i] == '/'
    ensures ConstructApiUrl(env, serviceName, defaultPort, slashes + endpoint)
         == ConstructApiUrl(env, serviceName, defaultPort, endpoint)
  {
    LStripSlashesPrefix(slashes, endpoint);
  }

  /** `construct_ws_url`: the `ws` URL of the service followed by `/ws`, and
      by `/` and the path without its leading slashes when a non-empty path
      is given (`None` and `""` are both false in Python). */
  function ConstructWsUrl(env: Env, serviceName: string, defaultPort: int, path: Option<string> := None): (r: Result<string, PortError>)
    ensures r.Ok? <==> GetPort(env, serviceName, defaultPort).Ok?
    ensures r.Err? ==> r.error == GetPort(env, serviceName, defaultPort).error
  {
    match GetServiceUrl(env, serviceName, defaultPort, protocol := "ws")
    case Err(e) => Err(e)
    case Ok(baseUrl) =>
      if path.Some? && path.value != "" then Ok(baseUrl + "/ws/" + LStripSlashes(path.value))
      else Ok(baseUrl + "/ws")
  }

  /** Without a path, or with the empty one, the URL ends in `/ws`. */
  lemma WsUrlWithoutPath(env: Env, serviceName: string, defaultPort: int, port: int)
    requires GetPort(env, serviceName, defaultPort) == Ok(port)
    ensures ConstructWsUrl(env, serviceName, defaultPort) == Ok(LocalUrl("ws", port) + "/ws")
    ensures ConstructWsUrl(env, serviceName, defaultPort, Some("")) == Ok(LocalUrl("ws", port) + "/ws")
  {
  }

  /** A non-empty path follows `/ws/` stripped of its leading slashes. */
  lemma WsUrlWithPath(env: Env, serviceName: string, defaultPort: int, port: int, path: string)
    requires GetPort(env, serviceName, defaultPort) == Ok(port)
    requires path != ""
    ensures ConstructWsUrl(env, serviceName, defaultPort, Some(path)) == Ok(LocalUrl("ws", port) + "/ws/" + LStripSlashes(path))
  {
  }

  /** The path `/` leaves a trailing `/ws/`. */
  lemma WsUrlWithRootPath(env: Env, serviceName: string, defaultPort: int, port: int)
    requires GetPort(env, serviceName, defaultPort) == Ok(port)
    ensures ConstructWsUrl(env, serviceName, defaultPort, Some("/")) == Ok(LocalUrl("ws", port) + "/ws/")
  {
    var base := LocalUrl("ws", port);
    assert LStripSlashes("/") == [] by {
      assert "/"[1..] == [];
    }
    WsUrlWithPath(env, serviceName, defaultPort, port, "/");
    assert base + "/ws/" + [] == base + "/ws/";
  }
}
