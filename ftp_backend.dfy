/** The FTP backend object (backends/ftp/backend.go, backends/ftp/authenticator.go,
    backends/ftp/storage.go): its optional client connection and the name it last logged
    in as. goftp's `DialConfig` and `Client.Close` are foreign; what they return is an input,
    and every call to them is recorded in a ghost log. */
module FtpBackend {
  import opened Common
  import opened FtpConfig
  import Registration

  /** A `*goftp.Client`, identified by the connection it stands for. */
  datatype Client = Client(handle: nat)

  /** What `goftp.DialConfig` returned: a client (possibly nil) and an error (possibly nil). */
  datatype DialOutcome = DialOutcome(client: Option<Client>, err: Option<Error>)

  /** One call of `goftp.DialConfig`: the configuration and the host it was given. */
  datatype Dial = Dial(config: ClientConfig, host: string)

  /** One call into goftp: a client closed, or a configuration dialed. */
  datatype Event = Closed(c: Client) | Dialed(d: Dial)

  class FTPBackend {
    var authenticatedUsername: string
    var client: Option<Client>
    var configTemplate: ClientConfig
    var configuredHost: string

    /** The closes and dials this backend has issued, in the order it issued them. */
    ghost var events: seq<Event>

    /** A fresh backend: no connection and nobody logged in. */
    constructor (template: ClientConfig, host: string)
      ensures configTemplate == template && configuredHost == host
      ensures client == None && authenticatedUsername == ""
      ensures events == []
    {
      configTemplate := template;
      configuredHost := host;
      client := None;
      authenticatedUsername := "";
      events := [];
    }

    /** `IsLoggedInAs`: whether the last successful login used this name. */
    predicate IsLoggedInAs(username: string): (r: bool)
      reads this
      ensures r <==> username == authenticatedUsername
    {
      username == authenticatedUsername
    }

    /** Closes and drops the connection, returning the client's close error; without a
        connection it does nothing, so closing twice is harmless. */
    method Close(clientCloseErr: Option<Error>) returns (err: Option<Error>)
      modifies this`client, this`events
      ensures client == None
      ensures old(client).Some? ==> err == clientCloseErr && events == old(events) + [Closed(old(client).value)]
      ensures old(client).None? ==> err == None && events == old(events)
    {
      err := None;
      if client.Some? {
        events := events + [Closed(client.value)];
        err := clientCloseErr;
        client := None;
      }
    }

    /** Replaces the connection by a new login: the old client is closed (its error
        ignored), the template is dialed with the given credentials, and on success the
        name is remembered. A failure always carries the dial error. */
    method Authenticate(username: string, password: string, dialed: DialOutcome)
      returns (ok: bool, err: Option<Error>)
      modifies this`client, this`events, this`authenticatedUsername
      ensures events == old(events) + (if old(client).Some? then [Closed(old(client).value)] else [])
                                    + [Dialed(Dial(configTemplate.(user := username, password := password), configuredHost))]
      ensures client == dialed.client
      ensures ok <==> err.None?
      ensures err == dialed.err
      ensures authenticatedUsername == if ok then username else old(authenticatedUsername)
      ensures ok ==> IsLoggedInAs(username)
    {
      if client.Some? {
        events := events + [Closed(client.value)];
        client := None;
      }

      var config := configTemplate.(user := username, password := password);

      events := events + [Dialed(Dial(config, configuredHost))];
      client, err := dialed.client, dialed.err;
      if err.Some? {
        return false, err;
      }

      authenticatedUsername := username;
      ok := true;
    }

    /** Password changes are not supported by FTP. */
    method ChangePassword(newPassword: string) returns (err: Error)
      ensures err == ErrUnsupportedOperation
    {
      err := ErrUnsupportedOperation;
    }
  }

  /** The descriptor's constructor: derive the dial template from the configuration and
      build a backend with no connection, or fail with the first error. */
  method New(unmarshalled: Result<Configuration>, loadLocation: string -> Result<Location>,
             parseUrl: string -> Result<Url>)
    returns (r: Result<FTPBackend>)
    ensures r.Err? <==> Derive(unmarshalled, loadLocation, parseUrl).Err?
    ensures r.Err? ==> r.error == Derive(unmarshalled, loadLocation, parseUrl).error
    ensures r.Ok? ==>
              var t := Derive(unmarshalled, loadLocation, parseUrl).value;
              && fresh(r.value)
              && r.value.configTemplate == t.config && r.value.configuredHost == t.host
              && r.value.client == None && r.value.authenticatedUsername == ""
  {
    match Derive(unmarshalled, loadLocation, parseUrl)
    case Err(e) =>
      r := Err(e);
    case Ok(t) =>
      var backend := new FTPBackend(t.config, t.host);
      r := Ok(backend);
  }

  /** The package's registration of the "ftp" backend kind. */
  method Init(registry: Registration.Registry) returns (r: Registration.RegisterResult)
    requires registry.Valid()
    modifies registry
    ensures registry.Valid()
    ensures r == Registration.Registered <==>
              forall i :: 0 <= i < |old(registry.descriptors)| ==> old(registry.descriptors)[i].id != "ftp"
    ensures r == Registration.Registered ==>
              registry.descriptors == old(registry.descriptors) + [Registration.Descriptor("ftp", "FTP")]
    ensures r != Registration.Registered ==> registry.descriptors == old(registry.descriptors)
  {
    r := registry.Register(Registration.Descriptor("ftp", "FTP"));
  }
}
