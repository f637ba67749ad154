/** How the FTP backend turns its configuration block into a goftp client configuration
    (backends/ftp/backend.go): `makeFTPClientConfig` and the TLS and user derivation of the
    descriptor's constructor. goftp, `url.Parse`, `time.LoadLocation` and viper's
    `Unmarshal` are foreign: their results are inputs here. */
module FtpConfig {
  import opened Common

  /** The backend's configuration block, as viper unmarshals it. */
  datatype Configuration = Configuration(
    url: string,
    timeout: int,
    ipv6Lookup: bool,
    activeTransfers: bool,
    activeListenAddr: string,
    disableEPSV: bool,
    serverLocation: string,
    insecureSkipVerify: bool,
    tlsServerName: string)

  /** A `*time.Location`, named by the zone it was loaded from. */
  datatype Location = Location(name: string)

  /** goftp's TLS mode; `TlsExplicit` is the type's zero value. */
  datatype TlsMode = TlsExplicit | TlsImplicit

  /** The fields of `tls.Config` the constructor sets. */
  datatype TlsConfig = TlsConfig(insecureSkipVerify: bool, serverName: string)

  /** The fields of `goftp.Config` the backend sets; a nil `TLSConfig` means plain FTP. */
  datatype ClientConfig = ClientConfig(
    user: string,
    password: string,
    ipv6Lookup: bool,
    activeTransfers: bool,
    activeListenAddr: string,
    disableEPSV: bool,
    serverLocation: Option<Location>,
    tlsMode: TlsMode,
    tlsConfig: Option<TlsConfig>)

  /** The parts of a parsed `url.URL` the constructor reads. */
  datatype UserInfo = UserInfo(username: string, password: Option<string>)
  datatype Url = Url(scheme: string, host: string, user: Option<UserInfo>)

  /** What the constructor keeps: the dial template and the host to dial. */
  datatype Template = Template(config: ClientConfig, host: string)

  /** `strings.ToLower`, on ASCII letters. */
  function Lower(s: string): string {
    seq(|s|, i requires 0 <= i < |s| => if 'A' <= s[i] <= 'Z' then (s[i] as int + 32) as char else s[i])
  }

  /** The four transfer settings are taken over unchanged. */
  ghost predicate CopiesTransferSettings(c: Configuration, cfg: ClientConfig) {
    && cfg.ipv6Lookup == c.ipv6Lookup
    && cfg.activeTransfers == c.activeTransfers
    && cfg.activeListenAddr == c.activeListenAddr
    && cfg.disableEPSV == c.disableEPSV
  }

  /** `makeFTPClientConfig`: the configuration's transfer settings, plus the server's time
      zone when one is named; a zone that does not load is an error. */
  function MakeClientConfig(c: Configuration, loadLocation: string -> Result<Location>): (r: Result<ClientConfig>)
    ensures r.Err? <==> |c.serverLocation| > 0 && loadLocation(c.serverLocation).Err?
    ensures r.Err? ==> r.error == loadLocation(c.serverLocation).error
    ensures r.Ok? ==> CopiesTransferSettings(c, r.value)
    ensures r.Ok? ==> r.value.user == "" && r.value.password == ""
    ensures r.Ok? ==> r.value.tlsMode == TlsExplicit && r.value.tlsConfig == None
    ensures r.Ok? ==> (r.value.serverLocation.Some? <==> |c.serverLocation| > 0)
    ensures r.Ok? && r.value.serverLocation.Some? ==> Ok(r.value.serverLocation.value) == loadLocation(c.serverLocation)
  {
    var base := ClientConfig("", "", c.ipv6Lookup, c.activeTransfers, c.activeListenAddr, c.disableEPSV,
                             None, TlsExplicit, None);
    if |c.serverLocation| > 0 then
      match loadLocation(c.serverLocation)
      case Err(e) => Err(e)
      case Ok(loc) => Ok(base.(serverLocation := Some(loc)))
    else
      Ok(base)
  }

  /** The TLS mode and a fresh TLS configuration chosen by the URL scheme. */
  function ApplyScheme(cfg: ClientConfig, scheme: string): (r: ClientConfig)
    ensures r.(tlsMode := cfg.tlsMode, tlsConfig := cfg.tlsConfig) == cfg
    ensures Lower(scheme) == "ftps" ==> r.tlsMode == TlsImplicit && r.tlsConfig == Some(TlsConfig(false, ""))
    ensures Lower(scheme) == "ftpes" ==> r.tlsMode == TlsExplicit && r.tlsConfig == Some(TlsConfig(false, ""))
    ensures Lower(scheme) != "ftps" && Lower(scheme) != "ftpes" ==> r == cfg
  {
    match Lower(scheme)
    case "ftps" => cfg.(tlsMode := TlsImplicit, tlsConfig := Some(TlsConfig(false, "")))
    case "ftpes" => cfg.(tlsMode := TlsExplicit, tlsConfig := Some(TlsConfig(false, "")))
    case _ => cfg
  }

  /** Certificate checking and the server name to check against, when TLS is on. */
  function ApplyVerification(cfg: ClientConfig, c: Configuration, host: string): (r: ClientConfig)
    ensures r.(tlsConfig := cfg.tlsConfig) == cfg
    ensures r.tlsConfig.Some? <==> cfg.tlsConfig.Some?
    ensures r.tlsConfig.Some? ==>
              && r.tlsConfig.value.insecureSkipVerify == c.insecureSkipVerify
              && r.tlsConfig.value.serverName ==
                   if c.insecureSkipVerify then cfg.tlsConfig.value.serverName
                   else if |c.tlsServerName| > 0 then c.tlsServerName
                   else host
  {
    match cfg.tlsConfig
    case None => cfg
    case Some(tls) =>
      var tls' := tls.(insecureSkipVerify := c.insecureSkipVerify);
      var tls'' :=
        if c.insecureSkipVerify then tls'
        else if |c.tlsServerName| > 0 then tls'.(serverName := c.tlsServerName)
        else tls'.(serverName := host);
      cfg.(tlsConfig := Some(tls''))
  }

  /** The login carried by the URL, if any. */
  function ApplyUser(cfg: ClientConfig, user: Option<UserInfo>): (r: ClientConfig)
    ensures r.(user := cfg.user, password := cfg.password) == cfg
    ensures r.user == if user.Some? then user.value.username else cfg.user
    ensures r.password == if user.Some? && user.value.password.Some? then user.value.password.value else cfg.password
  {
    match user
    case None => cfg
    case Some(info) =>
      var cfg' := cfg.(user := info.username);
      match info.password
      case Some(pw) => cfg'.(password := pw)
      case None => cfg'
  }

  /** The constructor's derivation, up to building the backend: unmarshal, make the client
      configuration, parse the URL, then choose TLS and the login from the URL. */
  function Derive(unmarshalled: Result<Configuration>, loadLocation: string -> Result<Location>,
                  parseUrl: string -> Result<Url>): (r: Result<Template>)
    ensures r.Err? <==> || unmarshalled.Err?
                        || MakeClientConfig(unmarshalled.value, loadLocation).Err?
                        || parseUrl(unmarshalled.value.url).Err?
    ensures unmarshalled.Err? ==> r == Err(unmarshalled.error)
    ensures unmarshalled.Ok? && MakeClientConfig(unmarshalled.value, loadLocation).Err? ==>
              r == Err(MakeClientConfig(unmarshalled.value, loadLocation).error)
    ensures unmarshalled.Ok? && MakeClientConfig(unmarshalled.value, loadLocation).Ok?
            && parseUrl(unmarshalled.value.url).Err? ==>
              r == Err(parseUrl(unmarshalled.value.url).error)
    ensures r.Ok? ==>
              var c := unmarshalled.value;
              var u := parseUrl(c.url).value;
              var cfg := r.value.config;
              && r.value.host == u.host
              && CopiesTransferSettings(c, cfg)
              && cfg.serverLocation == MakeClientConfig(c, loadLocation).value.serverLocation
              // the scheme, compared case-insensitively, picks the TLS mode
              && (Lower(u.scheme) == "ftps" ==> cfg.tlsMode == TlsImplicit && cfg.tlsConfig.Some?)
              && (Lower(u.scheme) == "ftpes" ==> cfg.tlsMode == TlsExplicit && cfg.tlsConfig.Some?)
              && (Lower(u.scheme) != "ftps" && Lower(u.scheme) != "ftpes" ==>
                    cfg.tlsMode == TlsExplicit && cfg.tlsConfig.None?)
              // with TLS, the server name is checked unless verification is skipped
              && (cfg.tlsConfig.Some? ==>
                    && cfg.tlsConfig.value.insecureSkipVerify == c.insecureSkipVerify
                    && cfg.tlsConfig.value.serverName ==
                         if c.insecureSkipVerify then ""
                         else if |c.tlsServerName| > 0 then c.tlsServerName
                         else u.host)
              // the login comes from the URL's user info only
              && cfg.user == (if u.user.Some? then u.user.value.username else "")
              && cfg.password == (if u.user.Some? && u.user.value.password.Some?
                                  then u.user.value.password.value else "")
  {
    match unmarshalled
    case Err(e) => Err(e)
    case Ok(c) =>
      match MakeClientConfig(c, loadLocation)
      case Err(e) => Err(e)
      case Ok(cfg) =>
        match parseUrl(c.url)
        case Err(e) => Err(e)
        case Ok(u) =>
          var cfg' := ApplyUser(ApplyVerification(ApplyScheme(cfg, u.scheme), c, u.host), u.user);
          Ok(Template(cfg', u.host))
  }

  /** Every spelling of a scheme, in any mix of cases, selects TLS like its lower-case
      spelling. */
  lemma SchemeIgnoresCase(cfg: ClientConfig, scheme: string)
    ensures ApplyScheme(cfg, scheme) == ApplyScheme(cfg, Lower(scheme))
  {
  }
}
