# Metis configuration, service URLs and WebSocket registry in Dafny

Metis is the task-management service of the Tekton system, written in Python. This project models
three small, self-contained parts of it, and proves properties of each.

- **The WebSocket subscription registry** (`ConnectionManager`, metis/api/app.py). It
  keeps two dictionaries keyed by client id: id to connection, and id to the set of
  event-type names the client wants. It offers `connect`, `disconnect`, `subscribe`,
  `unsubscribe` and `broadcast`.
  - It is modelled as the class `Api.ConnectionManager`, whose fields are updated in place.
  - A third field, `order`, records the insertion order of the `subscriptions` dictionary,
    because that is the order `broadcast` visits clients in.
  - `unsubscribe` and `broadcast` are methods with loops. They are proved against the pure
    functions `Unsubscribed` and `BroadcastRun`, and the properties of the source are proved
    as lemmas about those functions.
  - Sending on a socket is replaced by a parameter: the set of clients whose send raises.
- **Port and URL helpers.** `Utils` models the placeholder table lookup of
  metis/utils/__init__.py. `PortConfig` models metis/utils/port_config.py:
  - the `<NAME>_PORT` environment variable;
  - `protocol://localhost:port`;
  - `/api/v1/` and `/ws` URLs with leading slashes stripped.
- **The configuration merge** (`get_config`, metis/config.py). `Config.GetConfig` copies
  `DEFAULT_CONFIG`, overrides each entry whose variable is set, converting according to
  the type of the current value, and then rebuilds the three component URLs.
  - Its loop is `Config.ApplyOverrides`, proved against `Config.Overrides`.
  - Everything promised about the result is proved about `Config.MergedConfig`.

`Builtins` holds the pieces of the Python runtime these helpers use:
- `str.upper` on ASCII;
- `str.lstrip("/")`;
- `str(int)`;
- `int(str)` on ASCII decimal digits, where the `ValueError` it raises becomes an explicit failure value.

The process environment (`os.environ`) is a `map<string, string>` parameter wherever it is read.

## Model

| member | source | states |
|---|---|---|
| `Builtins.Upper` | metis/utils/port_config.py:22 | `upper()` keeps the length and maps every character through ASCII upper-casing |
| `Builtins.UpperIdempotent` | metis/utils/port_config.py:22 | upper-casing leaves no lower-case ASCII letter and is idempotent |
| `Builtins.LStripSlashes` | metis/utils/port_config.py:67 | `lstrip("/")` yields a suffix of its input: everything removed is `/`, and the result does not start with `/` |
| `Builtins.LStripSlashesPrefix` | metis/utils/port_config.py:67 | any number of extra leading slashes is stripped to the same result |
| `Builtins.LStripSlashesIdempotent` | metis/utils/port_config.py:84 | stripping twice is stripping once |
| `Builtins.ParseDecimal` | metis/utils/port_config.py:23 | `int()` succeeds exactly on a non-empty string of decimal digits, with no length limit (see Left out) |
| `Builtins.NatToDecimal` | metis/utils/port_config.py:38 | `str(n)` is a non-empty string of digits, with no leading zero unless n is 0 |
| `Builtins.IntToDecimal` | metis/utils/port_config.py:38 | `str(n)` starts with a digit exactly when n is not negative |
| `Builtins.ParseDecimalRoundTrip` | metis/utils/port_config.py:23 | `int(str(n)) == n` for every natural n |
| `Builtins.DigitsValueLeadingZeros` | metis/utils/port_config.py:23 | any run of leading zeros leaves the number a digit string denotes unchanged |
| `Builtins.ParseDecimalLeadingZeros` | metis/utils/port_config.py:23 | the model's `int()` reads zeros followed by `str(n)` as n, e.g. `int("08011") == 8011`; with the round trip this covers every digit string. CPython's length limit on digit strings is not modelled (see Left out) |
| `Builtins.IntToDecimalInjective` | metis/utils/port_config.py:38 | distinct integers print differently |
| `PortConfig.PortVariable` | metis/utils/port_config.py:22 | the variable name is the upper-cased service name followed by `_PORT` |
| `PortConfig.GetPort` | metis/utils/port_config.py:11-23 | an error only when the variable is set; an answer other than the default only from the variable, and then never negative, because the model's `int()` rejects a sign (see Left out) |
| `PortConfig.GetPortCases` | metis/utils/port_config.py:11-23 | unset variable: the default; set variable: the number `int()` reads from it, or an error exactly when it is not a number; the error names the variable and its text |
| `PortConfig.GetPortFromVariable` | metis/utils/port_config.py:22-23 | a variable holding the decimal spelling of a port selects that port, whatever the default |
| `PortConfig.GetPortLeadingZeros` | metis/utils/port_config.py:22-23 | a variable holding a port's spelling after any number of zeros selects that port: `METIS_PORT=08011` gives 8011. Past CPython's digit limit the source raises instead (see Left out) |
| `PortConfig.GetPortRejectsNonNumeric` | metis/utils/port_config.py:23 | a set, non-numeric variable is an error, with no fall-back to the default |
| `PortConfig.GetPortIgnoresCase` | metis/utils/port_config.py:22 | names equal up to ASCII case read the same variable |
| `PortConfig.LocalUrl` | metis/utils/port_config.py:38 | the definition of `protocol://localhost:port`; `LocalUrlInjective` is its property |
| `PortConfig.HttpLocalUrl` | metis/utils/port_config.py:38 | a bridge between the two spellings of an `http` URL: `LocalUrl("http", p)` equals the f-string `http://localhost:{p}` that `get_config` writes |
| `PortConfig.LocalUrlInjective` | metis/utils/port_config.py:38 | a local URL determines its port |
| `PortConfig.GetServiceUrl` | metis/utils/port_config.py:25-38 | succeeds exactly when the port lookup does, giving `protocol://localhost:port`; otherwise the lookup's error |
| `PortConfig.FirstPortError` | metis/utils/port_config.py:47-52 | the definition of the order in which the dictionary literal evaluates its four lookups; the error clause of `GetServiceEndpoints` is its property |
| `PortConfig.GetServiceEndpoints` | metis/utils/port_config.py:40-52 | succeeds exactly when all four lookups do, with exactly the keys metis, hermes, telos and prometheus mapped to their `http` URLs; otherwise the error of the first failing lookup in literal order |
| `PortConfig.DefaultServiceEndpoints` | metis/utils/port_config.py:47-52 | with an empty environment the four ports are 8011, 8001, 8008 and 8006 |
| `PortConfig.ConstructApiUrl` | metis/utils/port_config.py:54-68 | the service URL, then `/api/v1/`, then the endpoint without its leading slashes; an error exactly when the port lookup fails, and then the lookup's own error |
| `PortConfig.ApiUrlIgnoresLeadingSlashes` | metis/utils/port_config.py:66-68 | prefixing the endpoint with any number of slashes leaves the URL unchanged |
| `PortConfig.ConstructWsUrl` | metis/utils/port_config.py:70-86 | an error exactly when the port lookup fails, and then the lookup's own error |
| `PortConfig.WsUrlWithoutPath` | metis/utils/port_config.py:82-86 | no path, or the empty path, gives the `ws` URL followed by `/ws` |
| `PortConfig.WsUrlWithPath` | metis/utils/port_config.py:82-85 | a non-empty path gives the `ws` URL, `/ws/` and the path without its leading slashes |
| `PortConfig.WsUrlWithRootPath` | metis/utils/port_config.py:83-85 | the path `/` leaves a trailing `/ws/` |
| `Utils.GetPort` | metis/utils/__init__.py:9-16 | a name in `PortTable` (`port_map`) gets its table port; every other name, and only those, gets `FallbackPort` (8000) |
| `Utils.KnownPorts` | metis/utils/__init__.py:11-16 | metis 8011, telos 8008, hermes 8001; `METIS`, `Telos` and every other name get 8000, because the lookup is exact |
| `Utils.GetServiceUrl` | metis/utils/__init__.py:18-21 | `http://localhost:` and the placeholder port |
| `Utils.PlaceholderAgreesWithEndpoints` | metis/utils/__init__.py:9-21 | with an empty environment, the placeholder URL of each table component equals its entry in `get_service_endpoints` |
| `Config.DefaultKeysExact` | metis/config.py:12-36 | `DefaultKeys`, the dictionary order of the loop at line 48, holds exactly the keys of `DefaultConfig` (`DEFAULT_CONFIG`) |
| `Config.DefaultKeysDistinct` | metis/config.py:12-36 | no key appears twice in that order |
| `Config.PortKeysAreTheIntegers` | metis/config.py:18-22 | exactly the four port entries have integer defaults; the port and URL keys are all in the table |
| `Config.Overridden` | metis/config.py:49-56 | unset variable: the current value; integer value: the parsed variable, or the error when it is not a number; any other value: the variable's text |
| `Config.FirstError` | metis/config.py:48-52 | the definition of the loop's first failing override in key order; `FirstErrorNone` and `FirstErrorIsFirst` are its properties |
| `Config.FirstErrorNone` | metis/config.py:48-52 | the loop finds no error exactly when every override succeeds |
| `Config.AllOverridden` | metis/config.py:45-56 | the overridden table has the keys of the defaults |
| `Config.Overrides` | metis/config.py:45-56 | the definition of the override loop's outcome: the first error, else every entry overridden; `ApplyOverrides` is the loop proved equal to it |
| `Config.ApplyOverrides` | metis/config.py:45-56 | the loop over the keys in dictionary order gives the first failure, or every entry overridden |
| `Config.WithUrls` | metis/config.py:58-61 | the definition of the URL rebuild; `UrlsFromPorts` and `WithUrlsOverwrites` are its properties |
| `Config.MergedConfig` | metis/config.py:38-63 | the definition of `get_config`'s result; the `MergedConfig…` lemmas are its properties |
| `Config.GetConfig` | metis/config.py:38-63 | `get_config` returns exactly `MergedConfig` |
| `Config.FirstErrorIsFirst` | metis/config.py:48-52 | the error reported is that of a failing key before which no key fails |
| `Config.MergedConfigKeys` | metis/config.py:45-49 | the result has exactly the keys of `DEFAULT_CONFIG`; variables under other names are ignored |
| `Config.MergedConfigEntry` | metis/config.py:48-56 | each non-URL entry is its default when unset, the parsed integer for a port, and the variable's text otherwise |
| `Config.UrlsFromPorts` | metis/config.py:58-61 | rebuilding the URLs keeps the ports and writes `http://localhost:` and each port into its URL |
| `Config.MergedConfigUrls` | metis/config.py:58-61 | the three URLs of the result always point at the ports the result holds |
| `Config.OverriddenFails` | metis/config.py:51-52 | an override fails exactly on a port whose variable is set and not a number, and reports that variable |
| `Config.MergedConfigFails` | metis/config.py:48-52 | the merge fails exactly when some port variable is not a number, and names the first such port in dictionary order |
| `Config.OverridesWithoutVariables` | metis/config.py:45-49 | with no variable set for any key, the overrides leave the table as it was |
| `Config.MergedConfigWithoutOverrides` | metis/config.py:38-63 | with no variable set, the result is the defaults with the URLs pointing at 8001, 8008 and 8006 |
| `Config.WithUrlsOverwrites` | metis/config.py:58-61 | the URL entries before the rebuild do not matter |
| `Config.MergedConfigReadsOnlyItsVariables` | metis/config.py:48-61 | only the variables named like the non-URL entries affect the result; variables named like the URL entries have no effect |
| `Api.Without` | metis/api/app.py:194 | `pop` on the dictionary order: exactly the other clients remain, and the order never grows |
| `Api.WithoutKeepsOrder` | metis/api/app.py:194 | `pop` distributes over concatenation, so the remaining clients keep their insertion order |
| `Api.WithoutSingle` | metis/api/app.py:194 | `pop` drops a single client exactly when it is the one popped; with `WithoutKeepsOrder` this pins `Without` down to the order-keeping filter |
| `Api.WithoutAbsent` | metis/api/app.py:194 | popping an absent client leaves the order as it was |
| `Api.WithoutDistinct` | metis/api/app.py:194 | the order stays free of duplicates, and popping twice is popping once |
| `Api.Subscribed` | metis/api/app.py:204-205 | the definition of `subscribe` on the dictionary; `SubscribedFrame` and `SubscribedIdempotent` are its properties |
| `Api.Unsubscribed` | metis/api/app.py:215-217 | the definition of `unsubscribe` on the dictionary; `UnsubscribedFrame` and `UnsubscribeUndoesSubscribe` are its properties |
| `Api.SubscribedFrame` | metis/api/app.py:204-205 | subscribing never creates a client, sets a known client's subscriptions to `old ∪ ts`, and leaves every other client unchanged |
| `Api.SubscribedIdempotent` | metis/api/app.py:204-205 | subscribing twice to the same types is subscribing once |
| `Api.UnsubscribedFrame` | metis/api/app.py:215-217 | unsubscribing never creates a client, sets a known client's subscriptions to `old \ ts` (types not held are ignored), and leaves every other client unchanged |
| `Api.UnsubscribeUndoesSubscribe` | metis/api/app.py:196-217 | unsubscribing from just-subscribed types is the same as only unsubscribing |
| `Api.Interested` | metis/api/app.py:237-239 | the definition of the test a broadcast applies to each client: subscribed to the event type and connected; `EligibleMembers` is its property |
| `Api.Eligible` | metis/api/app.py:236-239 | the definition of the clients a broadcast addresses, in dictionary order; `EligibleMembers`, `BroadcastRunIsPrefix` and `BestEffortRunSplits` state its properties |
| `Api.EligibleMembers` | metis/api/app.py:236-239 | the clients a broadcast addresses are exactly the subscribed and connected ones, each once |
| `Api.BroadcastRun` | metis/api/app.py:236-244 | the definition of the loop as written; `BroadcastRunIsPrefix` and `BroadcastRunDelivery` are its properties |
| `Api.BroadcastRunIsPrefix` | metis/api/app.py:236-244 | the clients sent to are the first of the addressed clients, in dictionary order, none of them failing; the broadcast completes exactly when all are reached, else it stops at the failing client that comes next |
| `Api.BroadcastRunDelivery` | metis/api/app.py:236-244 | only addressed clients are sent to, each at most once, and after a failure no later addressed client receives anything |
| `Api.AbortSkipsLaterClients` | metis/api/app.py:241-244 | a failing first client deprives a healthy second subscriber |
| `Api.BestEffortRun` | metis/api/app.py:236-244 | the definition of the corrected loop; `BestEffortRunSplits` and `BestEffortAgreesWhenComplete` are its properties |
| `Api.BestEffortRunSplits` | metis/api/app.py:236-244 | corrected loop: every addressed client is either sent to or dropped, according to whether its send fails |
| `Api.BestEffortAgreesWhenComplete` | metis/api/app.py:236-244 | when no send fails, the loop as written and the corrected loop send to the same clients |
| `Api.Except` | metis/api/app.py:194 | the dictionary order after several `pop`s: exactly the clients not removed remain |
| `Api.ExceptKeepsOrder` | metis/api/app.py:194 | removing several clients distributes over concatenation, so the others keep their insertion order |
| `Api.ExceptSingle` | metis/api/app.py:194 | a single client is dropped exactly when it is among those removed |
| `Api.ExceptOne` | metis/api/app.py:194 | removing one client this way is `pop` |
| `Api.ConnectionManager.Valid` | metis/api/app.py:169-194 | the registry's invariant: both dictionaries have the same clients, and `order` lists exactly those clients, each once; every method below requires and ensures it |
| `Api.ConnectionManager.constructor` | metis/api/app.py:169-172 | a new registry holds no clients |
| `Api.ConnectionManager.Connect` | metis/api/app.py:174-184 | installs the connection and an empty set, discarding earlier subscriptions, keeps the client's place in the order, and leaves every other client unchanged; keeps both key sets equal |
| `Api.ConnectionManager.Disconnect` | metis/api/app.py:186-194 | removes the client from both dictionaries and the order; a no-op for an unknown client, hence idempotent; keeps both key sets equal |
| `Api.ConnectionManager.Subscribe` | metis/api/app.py:196-205 | the subscriptions become `Subscribed(old, c, ts)`; the connections and the order are untouched |
| `Api.ConnectionManager.Unsubscribe` | metis/api/app.py:207-217 | the loop of `discard`s makes the subscriptions `Unsubscribed(old, c, ts)`; the connections and the order are untouched |
| `Api.ConnectionManager.Broadcast` | metis/api/app.py:219-244 | builds the one message `{type, data}` and sends it as `BroadcastRun` says; on completion nothing changes, on a failure only that client is disconnected and the broadcast aborts |
| `Api.ConnectionManager.DisconnectAll` | metis/api/app.py:186-194 | `disconnect` of each listed client in turn: both dictionaries lose exactly those clients, the order loses them and keeps the rest in place |
| `Api.ConnectionManager.BroadcastBestEffort` | metis/api/app.py:219-244 | corrected broadcast: sends as `BestEffortRun` says and disconnects exactly the clients whose send failed |

## Left out

- The task and dependency engine (task storage, cycle checks, cascade delete, complexity, statistics) is not part of this model. metis/api/routes.py only forwards to `TaskManager` and `TaskController`, whose source the model does not have.
- `lifespan` is left out: Hermes registration, the heartbeat task and the sleeps are process I/O. So are the CORS middleware, the exception handlers, the health and root endpoints, and the module-level `get_component_config()`.
- `websocket_endpoint` (metis/api/app.py:252-338) is left out because it is socket I/O and JSON parsing. Two problems in it are recorded but not modelled:
  - `str(UUID)` is the class name, so every client gets the same id.
  - The connection is registered under that id, but `subscribe` and `unsubscribe` use `registration.client_id`. A subscription therefore reaches a client only when the two ids happen to coincide.
- The registration of event handlers into `task_manager` (metis/api/app.py:283-289) is a call into code the model does not have.
- `websocket.accept()` in `connect` is I/O. The model assumes it succeeds.
- `websocket.send_text` is replaced by the `failing` set parameter. `json.dumps` is replaced by the `Message` datatype. The model therefore does not cover a `data` value that JSON cannot encode, which raises before any send.
- Concurrency is left out. Other coroutines that connect or disconnect during a broadcast's `await` are not modelled.
- `os.environ` is a `map<string, string>` parameter of every function that reads it.
- The dictionaries that `get_config` and `get_service_endpoints` return are `map`s in the model, so their key order is not kept. Nothing in these files depends on that order; the order of `DEFAULT_CONFIG`'s keys, which the override loop does depend on, is kept as `Config.DefaultKeys`.
- `Builtins.ParseDecimal` accepts only ASCII decimal digits. Python's `int()` also accepts surrounding whitespace, a sign and underscores between digits. Those inputs are errors in the model. Since Python 3.11, CPython's `int()` also raises on a decimal string of more than 4300 digits, leading zeros included. The model has no such limit, so `ParseDecimalLeadingZeros` and `GetPortLeadingZeros` hold in the model for any number of zeros, while the source raises once the string passes that length.
- `PortConfig.GetPort`: its answer from a set variable is never negative only because `Builtins.ParseDecimal` rejects a sign. Python's `int("-1")` is -1, so `METIS_PORT=-1` gives the port -1 in the source and an error in the model.
- `Builtins.Upper` upper-cases ASCII letters only. Python's `upper()` covers all of Unicode.
- `Api.ConnectionManager.Broadcast` follows the code as written. The intent, shown by the comment at metis/api/app.py:243, is that a failed send only removes that subscriber. The code instead aborts the broadcast at the first failure with a `RuntimeError`. The intended behaviour is `BroadcastBestEffort` (see Findings).
- The `bool` branch of `get_config` (metis/config.py:53-54) is left out. No default is a boolean, and the `int` branch would shadow it anyway because Python's `bool` is a subclass of `int`.
- `get_config` cannot modify `DEFAULT_CONFIG` in this model: `Config.DefaultConfig` is an immutable constant and `GetConfig` has no `modifies` clause.
- metis/core/mcp/tools.py holds only empty placeholders, and metis/__main__.py only starts the server. Neither is part of this model.
- The `hermes_helper` import of metis/utils/__init__.py is a module this model does not have.

## Findings

| source | as written | input that shows it | evidently intended | confidence | as-written member | corrected member |
|---|---|---|---|---|---|---|
| metis/api/app.py:236-244 | a failed send calls `disconnect`, which pops the client from `subscriptions` while the loop is still iterating that dictionary; the next iterator step raises `RuntimeError`, so the broadcast aborts | clients "a" then "b", both subscribed to the event and connected, and only "a"'s send failing: "b" receives nothing | disconnect the failing client and go on to every other subscriber, as the comment at line 243 says | high for CPython's dictionary iterator, not executed | `Api.AbortSkipsLaterClients` | `Api.ConnectionManager.BroadcastBestEffort` |
