/** The configured sites. An absent vector of environment variables is read as empty. */
module Sites {
  import opened Wrappers
  import opened Text

  type ProcId = string

  datatype EnvVar = EnvVar(key: string, value: string)

  datatype Hint = H2 | H2C | H2CPK | H1 | H3

  datatype Backend = Backend(address: string, port: Port, https: Option<bool>, hints: Option<seq<Hint>>)

  datatype HostedSite = HostedSite(
    id: ProcId,
    hostName: string,
    port: Option<Port>,
    activePort: Option<Port>,
    envVars: seq<EnvVar>,
    terminateTls: Option<bool>,
    captureSubdomains: Option<bool>,
    forwardSubdomains: Option<bool>,
    enableLetsEncrypt: Option<bool>,
    https: Option<bool>,
    hints: Option<seq<Hint>>)

  datatype RemoteSite = RemoteSite(
    hostName: string,
    backends: seq<Backend>,
    terminateTls: Option<bool>,
    captureSubdomains: Option<bool>,
    forwardSubdomains: Option<bool>,
    enableLetsEncrypt: Option<bool>)

  /** A running container, listed under the host name it generates. */
  datatype Container = Container(hostName: string, target: RemoteSite)

  datatype DirServer = DirServer(hostName: string, dir: string)

  /** `unwrap_or_default()` on an optional flag. */
  predicate Flag(o: Option<bool>) {
    o == Some(true)
  }

  /** `list.iter().flatten()` on an optional vector. */
  function Listed<T>(o: Option<seq<T>>): seq<T> {
    match o
    case None => []
    case Some(items) => items
  }

  predicate NamesPort(e: EnvVar) {
    EqIgnoreCase(e.key, "port")
  }
}
