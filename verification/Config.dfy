/** The daemon's configuration and its service tables. */
module Config {
  import opened Text
  import opened MapRange

  const SERVICE_NAME_BY_PORT: map<int, string> := map[
    80 := "http",
    443 := "https",
    5432 := "pgsql",
    3306 := "mysql",
    6379 := "redis",
    27017 := "mongo",
    6443 := "k8s",
    8080 := "http",
    8443 := "https"
  ]

  const DEFAULT_TLD: AsciiText := "tunnel.test"
  const DEFAULT_POLL_INTERVAL: nat := 2_000_000_000

  /** pollInterval: nanoseconds; overrides: local port to domain identifier; servicePorts: service name to proxy listen
      port. */
  datatype Config = Config(pollInterval: int, tld: AsciiText, overrides: map<int, AsciiText>,
      servicePorts: map<string, int>)

  function ServiceName(remotePort: int): string {
    if remotePort in SERVICE_NAME_BY_PORT then SERVICE_NAME_BY_PORT[remotePort] else ""
  }

  function ServiceProxyPort(cfg: Config, remotePort: int): int {
    var svc := ServiceName(remotePort);
    if svc == "" then remotePort
    else if svc in cfg.servicePorts then cfg.servicePorts[svc]
    else remotePort
  }

  const DEFAULT_SERVICE_PORTS: map<string, int> := map[
    "http" := 8080,
    "https" := 8443,
    "pgsql" := 5432,
    "mysql" := 3306,
    "redis" := 6379,
    "mongo" := 27017,
    "k8s" := 6443
  ]

  /** The configuration without a file: a copy of the default ports and no overrides. */
  method Default() returns (cfg: Config)
    ensures cfg == Config(2_000_000_000, "tunnel.test", map[], DEFAULT_SERVICE_PORTS)
  {
    var svcPorts: map<string, int> := map[];
    var rest := DEFAULT_SERVICE_PORTS.Keys;
    while rest != {}
      invariant rest <= DEFAULT_SERVICE_PORTS.Keys
      invariant svcPorts == DEFAULT_SERVICE_PORTS - rest
      decreases rest
    {
      var k := Pick(rest);
      svcPorts := svcPorts[k := DEFAULT_SERVICE_PORTS[k]];
      rest := rest - {k};
    }
    cfg := Config(DEFAULT_POLL_INTERVAL, DEFAULT_TLD, map[], svcPorts);
  }

  /** By default the port a proxy listens on stands for the same service as the remote port, is that port itself for an
      unknown service, and is unprivileged for a known one; and it maps to itself. */
  lemma DefaultProxyPorts(cfg: Config, remotePort: int)
    requires cfg.servicePorts == DEFAULT_SERVICE_PORTS
    ensures var port := ServiceProxyPort(cfg, remotePort);
      && ServiceName(port) == ServiceName(remotePort)
      && ServiceProxyPort(cfg, port) == port
      && if ServiceName(remotePort) == "" then port == remotePort else port >= 1024
  {
    var svc := ServiceName(remotePort);
    if svc != "" {
      assert svc in DEFAULT_SERVICE_PORTS;
    }
  }

  /** Which remote ports stand for which service. */
  lemma KnownServices(remotePort: int)
    ensures ServiceName(remotePort) == "http" <==> remotePort == 80 || remotePort == 8080
    ensures ServiceName(remotePort) == "https" <==> remotePort == 443 || remotePort == 8443
    ensures ServiceName(remotePort) == "pgsql" <==> remotePort == 5432
    ensures ServiceName(remotePort) == "mysql" <==> remotePort == 3306
    ensures ServiceName(remotePort) == "redis" <==> remotePort == 6379
    ensures ServiceName(remotePort) == "mongo" <==> remotePort == 27017
    ensures ServiceName(remotePort) == "k8s" <==> remotePort == 6443
    ensures ServiceName(remotePort) == "" <==>
            remotePort !in {80, 8080, 443, 8443, 5432, 3306, 6379, 27017, 6443}
  {
  }

  /** Configuring a port for a service moves the proxies of its remote ports there and no others; without one they
      listen on the remote port itself. */
  lemma ConfiguredPort(cfg: Config, svc: string, port: int, remotePort: int)
    ensures ServiceProxyPort(cfg.(servicePorts := cfg.servicePorts[svc := port]), remotePort) ==
            if svc != "" && ServiceName(remotePort) == svc then port else ServiceProxyPort(cfg, remotePort)
    ensures ServiceName(remotePort) == svc ==>
              ServiceProxyPort(cfg.(servicePorts := cfg.servicePorts - {svc}), remotePort) == remotePort
  {
  }
}
