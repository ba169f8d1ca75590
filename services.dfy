/**
 * The service registries: `Cdaprod` (a list of single-key dictionaries with first-match
 * lookup), `ApiGateway` (endpoint lookup over client connections) and `ConfigManager`
 * (name-keyed dictionaries).
 */
module Services {
  import opened Outcomes
  import opened Metastores

  datatype Server = Server(ip: string, creds: map<string, string>, connectionType: string)

  datatype ClientConnection = ClientConnection(
    serviceName: string,
    serviceType: string,
    hostname: Option<string>,
    port: Option<int>,
    username: Option<string>,
    databaseName: Option<string>)

  /** The instances a `Cdaprod` files under a service name. */
  datatype Service =
    | LangChainRepoService(repoUrl: string, apps: seq<string>)
    | RepositoryService(repoUrl: string, name: Option<string>)
    | ConnectionService(serviceName: string, hostname: Option<string>)
    | GatewayService(gatewayName: string)

  /** One element of `Cdaprod.services`. */
  type ServiceEntry = map<string, Service>

  // Cdaprod

  function ServiceNotFound(name: string): PyError {
    ValueError("Service " + name + " not found")
  }

  /** Entry `i` is the earliest one holding `name`. */
  ghost predicate FirstEntryWith(entries: seq<ServiceEntry>, name: string, i: int) {
    0 <= i < |entries| && name in entries[i] && forall j :: 0 <= j < i ==> name !in entries[j]
  }

  /** The loop of `get_service`: the instance of the earliest entry holding the name. */
  function FindService(entries: seq<ServiceEntry>, name: string): (r: Result<Service>)
    ensures r.Ok? <==> exists i :: 0 <= i < |entries| && name in entries[i]
    ensures r.Ok? ==> exists i :: FirstEntryWith(entries, name, i) && r.value == entries[i][name]
    ensures r.Err? ==> r.error == ServiceNotFound(name)
  {
    if entries == [] then Err(ServiceNotFound(name))
    else if name in entries[0] then
      assert FirstEntryWith(entries, name, 0);
      Ok(entries[0][name])
    else
      var r := FindService(entries[1..], name);
      assert forall i :: 0 <= i < |entries[1..]| ==> entries[1..][i] == entries[i + 1];
      assert r.Ok? ==> exists i :: FirstEntryWith(entries, name, i) && r.value == entries[i][name] by {
        if r.Ok? {
          var i :| FirstEntryWith(entries[1..], name, i) && r.value == entries[1..][i][name];
          assert FirstEntryWith(entries, name, i + 1);
        }
      }
      r
  }

  /**
   * Appending an entry never changes what an already registered name resolves to; a
   * name seen for the first time resolves to the appended instance.
   */
  lemma {:induction false} FindServiceAfterAppend(entries: seq<ServiceEntry>, entry: ServiceEntry, name: string)
    ensures (exists i :: 0 <= i < |entries| && name in entries[i]) ==>
              FindService(entries + [entry], name) == FindService(entries, name)
    ensures (forall i :: 0 <= i < |entries| ==> name !in entries[i]) && name in entry ==>
              FindService(entries + [entry], name) == Ok(entry[name])
  {
    if entries != [] {
      assert (entries + [entry])[1..] == entries[1..] + [entry];
      assert forall i :: 0 <= i < |entries[1..]| ==> entries[1..][i] == entries[i + 1];
      FindServiceAfterAppend(entries[1..], entry, name);
    }
  }

  /** Adding a name a second time leaves lookup on the first instance. */
  lemma ReAddedNameKeepsFirst(entries: seq<ServiceEntry>, name: string, first: Service, second: Service)
    ensures FindService(entries + [map[name := first]] + [map[name := second]], name)
         == FindService(entries + [map[name := first]], name)
  {
    var once := entries + [map[name := first]];
    assert name in once[|entries|];
    FindServiceAfterAppend(once, map[name := second], name);
  }

  class Cdaprod {
    const server: Server
    const repository: string
    var services: seq<ServiceEntry>
    const metastore: Metastore

    constructor (server: Server, repository: string, services: seq<ServiceEntry>, metastore: Metastore)
      ensures this.server == server && this.repository == repository
      ensures this.services == services && this.metastore == metastore
    {
      this.server := server;
      this.repository := repository;
      this.services := services;
      this.metastore := metastore;
    }

    /** Appends `{service_name: service_instance}`; earlier entries keep their positions. */
    method AddService(serviceName: string, serviceInstance: Service)
      modifies this
      ensures services == old(services) + [map[serviceName := serviceInstance]]
      ensures |services| == |old(services)| + 1
      ensures services[..|old(services)|] == old(services)
    {
      services := services + [map[serviceName := serviceInstance]];
    }

    /** Scans the entries in list order and returns from the first that holds the name. */
    method GetService(serviceName: string) returns (r: Result<Service>)
      ensures r == FindService(services, serviceName)
    {
      var i := 0;
      while i < |services|
        invariant 0 <= i <= |services|
        invariant FindService(services[i..], serviceName) == FindService(services, serviceName)
      {
        if serviceName in services[i] {
          return Ok(services[i][serviceName]);
        }
        assert services[i..][1..] == services[i + 1..];
        i := i + 1;
      }
      return Err(ServiceNotFound(serviceName));
    }
  }

  // ApiGateway

  /** The decimal digits of a natural number, as `str` writes them. */
  function NatToDecimal(n: nat): (s: string)
    ensures |s| > 0
    decreases n
  {
    if n < 10 then [(('0' as int) + n) as char]
    else NatToDecimal(n / 10) + [(('0' as int) + n % 10) as char]
  }

  /** Reads a string of decimal digits back. */
  function DecimalValue(s: string): int {
    if s == [] then 0 else 10 * DecimalValue(s[..|s| - 1]) + ((s[|s| - 1] as int) - ('0' as int))
  }

  lemma {:induction false} DecimalRoundTrip(n: nat)
    ensures DecimalValue(NatToDecimal(n)) == n
    decreases n
  {
    var s := NatToDecimal(n);
    if n >= 10 {
      DecimalRoundTrip(n / 10);
      assert s[..|s| - 1] == NatToDecimal(n / 10);
    }
  }

  /** `str(x)` of an integer. */
  function IntToDecimal(n: int): (s: string)
    ensures n >= 0 ==> DecimalValue(s) == n
    ensures n < 0 ==> |s| > 1 && s[0] == '-' && DecimalValue(s[1..]) == -n
  {
    if n < 0 then
      DecimalRoundTrip(-n);
      assert ("-" + NatToDecimal(-n))[1..] == NatToDecimal(-n);
      "-" + NatToDecimal(-n)
    else
      DecimalRoundTrip(n);
      NatToDecimal(n)
  }

  /** f-string rendering of an optional string: None prints as "None". */
  function RenderText(v: Option<string>): string {
    match v
    case None => "None"
    case Some(s) => s
  }

  /** f-string rendering of an optional integer: None prints as "None". */
  function RenderInt(v: Option<int>): string {
    match v
    case None => "None"
    case Some(n) => IntToDecimal(n)
  }

  /** `f"{service.hostname}:{service.port}"` */
  function Endpoint(c: ClientConnection): (e: string)
    ensures |e| > |RenderText(c.hostname)| && e[|RenderText(c.hostname)|] == ':'
    ensures e[..|RenderText(c.hostname)|] == RenderText(c.hostname)
    ensures c.port.Some? && c.port.value >= 0 ==> DecimalValue(e[|RenderText(c.hostname)| + 1..]) == c.port.value
  {
    var host := RenderText(c.hostname);
    assert (host + ":" + RenderInt(c.port))[|host| + 1..] == RenderInt(c.port);
    host + ":" + RenderInt(c.port)
  }

  ghost predicate FirstNamed(services: seq<ClientConnection>, name: string, i: int) {
    0 <= i < |services| && services[i].serviceName == name
    && forall j :: 0 <= j < i ==> services[j].serviceName != name
  }

  /** The list comprehension of `get_service_endpoint`: matching services in list order. */
  function MatchingServices(services: seq<ClientConnection>, name: string): seq<ClientConnection> {
    if services == [] then []
    else if services[0].serviceName == name then [services[0]] + MatchingServices(services[1..], name)
    else MatchingServices(services[1..], name)
  }

  /**
   * Every service kept has the name; nothing is kept exactly when no service has the
   * name; the first kept is the earliest with the name.
   */
  lemma {:induction false} MatchingServicesKeepsNamed(services: seq<ClientConnection>, name: string)
    ensures forall k :: 0 <= k < |MatchingServices(services, name)| ==> MatchingServices(services, name)[k].serviceName == name
    ensures MatchingServices(services, name) == [] <==> forall i :: 0 <= i < |services| ==> services[i].serviceName != name
    ensures MatchingServices(services, name) != [] ==>
              exists i :: FirstNamed(services, name, i) && MatchingServices(services, name)[0] == services[i]
    decreases |services|
  {
    if services != [] {
      var rest := services[1..];
      MatchingServicesKeepsNamed(rest, name);
      assert forall i :: 0 <= i < |rest| ==> rest[i] == services[i + 1];
      if services[0].serviceName == name {
        assert FirstNamed(services, name, 0);
      } else if MatchingServices(rest, name) != [] {
        var i :| FirstNamed(rest, name, i) && MatchingServices(rest, name)[0] == rest[i];
        assert FirstNamed(services, name, i + 1);
      }
    }
  }

  /** One service is kept exactly when its name matches. */
  lemma MatchingSingle(c: ClientConnection, name: string)
    ensures MatchingServices([c], name) == if c.serviceName == name then [c] else []
  {
    assert [c][1..] == [];
  }

  /** One step of the comprehension: the first service, kept or not, then the rest. */
  lemma MatchingStep(services: seq<ClientConnection>, name: string)
    requires services != []
    ensures MatchingServices(services, name)
         == (if services[0].serviceName == name then [services[0]] else []) + MatchingServices(services[1..], name)
  {
  }

  /**
   * The comprehension is a filter in list order: the matches of a concatenation are the
   * matches of each part, one after the other.
   */
  lemma {:induction false} MatchingServicesConcat(a: seq<ClientConnection>, b: seq<ClientConnection>, name: string)
    ensures MatchingServices(a + b, name) == MatchingServices(a, name) + MatchingServices(b, name)
    decreases |a|
  {
    if a == [] {
      assert a + b == b;
      assert MatchingServices(a, name) == [];
    } else {
      var head := if a[0].serviceName == name then [a[0]] else [];
      var x, y := MatchingServices(a[1..], name), MatchingServices(b, name);
      assert (a + b)[0] == a[0] && (a + b)[1..] == a[1..] + b;
      MatchingStep(a + b, name);
      MatchingStep(a, name);
      MatchingServicesConcat(a[1..], b, name);
      assert head + (x + y) == (head + x) + y;
    }
  }

  datatype SimulatedResponse = SimulatedResponse(message: string, data: Option<map<string, string>>)

  datatype ApiGateway = ApiGateway(
    name: string,
    services: seq<ClientConnection>,
    loadBalancer: string,
    timeout: Option<int>,
    healthCheckEndpoint: Option<string>)
  {
    /** "hostname:port" of the first service with the name, or ValueError when none has it. */
    function GetServiceEndpoint(serviceName: string): (r: Result<string>)
      ensures r.Err? <==> forall i :: 0 <= i < |services| ==> services[i].serviceName != serviceName
      ensures r.Err? ==> r.error == ValueError("No service found for name: " + serviceName)
      ensures r.Ok? ==> exists i :: FirstNamed(services, serviceName, i) && r.value == Endpoint(services[i])
    {
      MatchingServicesKeepsNamed(services, serviceName);
      var matching := MatchingServices(services, serviceName);
      if matching == [] then Err(ValueError("No service found for name: " + serviceName))
      else Ok(Endpoint(matching[0]))
    }

    /** Always reports every service healthy. */
    function PerformHealthCheck(): (healthy: bool)
      ensures healthy
    {
      true
    }

    /** Fails exactly as the endpoint lookup fails; otherwise echoes `data` in a canned response. */
    function SendRequest(serviceName: string, endpoint: string, httpMethod: string, data: Option<map<string, string>>): (r: Result<SimulatedResponse>)
      ensures r.Err? <==> GetServiceEndpoint(serviceName).Err?
      ensures r.Err? ==> r.error == GetServiceEndpoint(serviceName).error
      ensures r.Ok? ==> r.value.data == data && r.value.message == "This is a simulated response"
    {
      match GetServiceEndpoint(serviceName)
      case Err(e) => Err(e)
      case Ok(_) => Ok(SimulatedResponse("This is a simulated response", data))
    }
  }

  // ConfigManager

  datatype ApiConfig = ApiConfig(apiName: string, apiKey: string, apiUrl: string, additionalHeaders: Option<map<string, string>>)

  class ConfigManager {
    var clientConnections: map<string, ClientConnection>
    var apiConfigs: map<string, ApiConfig>

    constructor ()
      ensures clientConnections == map[] && apiConfigs == map[]
    {
      clientConnections := map[];
      apiConfigs := map[];
    }

    /** Files the connection under the given name, replacing any earlier one. */
    method LoadClientConnection(serviceName: string, connectionDetails: ClientConnection)
      modifies this
      ensures clientConnections == old(clientConnections)[serviceName := connectionDetails]
      ensures apiConfigs == old(apiConfigs)
    {
      clientConnections := clientConnections[serviceName := connectionDetails];
    }

    method LoadApiConfig(apiName: string, apiDetails: ApiConfig)
      modifies this
      ensures apiConfigs == old(apiConfigs)[apiName := apiDetails]
      ensures clientConnections == old(clientConnections)
    {
      apiConfigs := apiConfigs[apiName := apiDetails];
    }

    /** `dict.get`: None for an unknown name. */
    function GetClientConnection(serviceName: string): (r: Option<ClientConnection>)
      reads this
      ensures r.None? <==> serviceName !in clientConnections
      ensures r.Some? ==> r.value == clientConnections[serviceName]
    {
      if serviceName in clientConnections then Some(clientConnections[serviceName]) else None
    }

    function GetApiConfig(apiName: string): (r: Option<ApiConfig>)
      reads this
      ensures r.None? <==> apiName !in apiConfigs
      ensures r.Some? ==> r.value == apiConfigs[apiName]
    {
      if apiName in apiConfigs then Some(apiConfigs[apiName]) else None
    }
  }

  /** A connection loaded under a name is what that name then yields. */
  method LoadThenGet(serviceName: string, details: ClientConnection, unknown: string) returns (found: Option<ClientConnection>, missing: Option<ClientConnection>)
    requires unknown != serviceName
    ensures found == Some(details)
    ensures missing == None
  {
    var manager := new ConfigManager();
    manager.LoadClientConnection(serviceName, details);
    found := manager.GetClientConnection(serviceName);
    missing := manager.GetClientConnection(unknown);
  }
}
