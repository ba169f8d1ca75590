/** The field validators of `ClientConnection`: the service-type whitelist and the port check. */
module ClientValidators {
  import opened Outcomes

  const AllowedServiceTypes: seq<string> := ["database", "api", "cloud_storage", "message_broker", "custom"]

  /** The text of `f'service_type must be one of {allowed_types}'`, with the list as Python prints it. */
  const ServiceTypeMessage := "service_type must be one of ['database', 'api', 'cloud_storage', 'message_broker', 'custom']"

  const PortMessage := "Port must be a positive integer when hostname is provided"

  function ValidateServiceType(v: string): (r: Result<string>)
    ensures r.Ok? <==> v in AllowedServiceTypes
    ensures r.Ok? ==> r.value == v
    ensures r.Err? ==> r.error == ValueError(ServiceTypeMessage)
  {
    if v !in AllowedServiceTypes then Err(ValueError(ServiceTypeMessage)) else Ok(v)
  }

  /**
   * `hostname` is the already-validated hostname: None when it was not supplied (or not
   * kept in `values`). A hostname counts as given only when it is a non-empty string.
   */
  predicate HostnameGiven(hostname: Option<string>) {
    hostname.Some? && hostname.value != ""
  }

  function ValidatePort(hostname: Option<string>, port: Option<int>): (r: Result<Option<int>>)
    ensures r.Err? <==> HostnameGiven(hostname) && (port.None? || port.value <= 0)
    ensures r.Err? ==> r.error == ValueError(PortMessage)
    ensures r.Ok? ==> r.value == port
  {
    if HostnameGiven(hostname) && (port.None? || port.value <= 0) then Err(ValueError(PortMessage))
    else Ok(port)
  }

  /** Whenever a hostname is given, an accepted port is a positive integer. */
  lemma AcceptedPortIsPositive(hostname: Option<string>, port: Option<int>)
    requires HostnameGiven(hostname)
    requires ValidatePort(hostname, port).Ok?
    ensures port.Some? && port.value > 0
  {
  }

  /** Without a hostname any port, including none or a negative one, passes unchanged. */
  lemma PortUncheckedWithoutHostname(port: Option<int>)
    ensures ValidatePort(None, port) == Ok(port)
    ensures ValidatePort(Some(""), port) == Ok(port)
  {
  }

  /**
   * The port check as construction applies it. `port` is None when the argument is
   * omitted: the field then keeps its default and, since the validator is not declared
   * `always`, the check does not run. Some(None) is an explicit None.
   */
  function PortOnConstruction(hostname: Option<string>, port: Option<Option<int>>): (r: Result<Option<int>>)
    ensures r.Err? <==> port.Some? && HostnameGiven(hostname) && (port.value.None? || port.value.value <= 0)
    ensures r.Ok? ==> r.value == (if port.Some? then port.value else None)
  {
    if port.None? then Ok(None) else ValidatePort(hostname, port.value)
  }

  /** A hostname with the port left out is accepted, with no port at all. */
  lemma OmittedPortAccepted(hostname: Option<string>)
    requires HostnameGiven(hostname)
    ensures PortOnConstruction(hostname, None) == Ok(None)
    ensures PortOnConstruction(hostname, Some(None)) == Err(ValueError(PortMessage))
  {
  }

  /** The check as its message states it: it runs whether or not the port was passed. */
  function PortCheckedAlways(hostname: Option<string>, port: Option<Option<int>>): (r: Result<Option<int>>)
    ensures r.Err? <==> HostnameGiven(hostname) && (port.None? || port.value.None? || port.value.value <= 0)
    ensures r.Ok? ==> r.value == (if port.Some? then port.value else None)
  {
    ValidatePort(hostname, if port.Some? then port.value else None)
  }

  /** With the check always run, a connection with a hostname always carries a positive port. */
  lemma CheckedAlwaysPortIsPositive(hostname: Option<string>, port: Option<Option<int>>)
    requires HostnameGiven(hostname)
    requires PortCheckedAlways(hostname, port).Ok?
    ensures PortCheckedAlways(hostname, port).value.Some? && PortCheckedAlways(hostname, port).value.value > 0
  {
    AcceptedPortIsPositive(hostname, if port.Some? then port.value else None);
  }
}
