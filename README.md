# filament session and backend core, in Dafny

This project models the core of filament, a gateway that serves remote storage backends
(an FTP account, say) through a session layer. Five pieces are modelled.

- **Session store** (`app/session.go`). This is a token → session map. Sessions that are
  no longer active are dropped lazily, on every lookup.
  - A login first reuses a live session of the same account whose password verifier
    accepts the password.
  - Otherwise it tries every registered backend kind in registration order, and installs
    a new session for the first backend that accepts the credentials and can also serve
    files.
  - Each session counts its pins (operations in progress) and runs an idle timer. A
    timeout with no pins expires the session for good, closing and dropping its backend.
- **Backend registry** (`backends/registration.go`). An append-only list of backend
  kinds with unique ids. It offers lookup by id and a snapshot copy.
- **Storage walker** (`backends/util.go`). A breadth-first directory walk driven by
  `ReadDir` only, with an optional depth limit.
- **FTP configuration** (`backends/ftp/backend.go`). How the FTP backend's
  configuration block becomes a goftp dial template: the TLS mode, certificate checking
  and the login taken from the URL.
- **FTP backend object** (`backends/ftp/backend.go`, `backends/ftp/authenticator.go`).
  Its optional connection and the name it last logged in as, with `Close`,
  `Authenticate` and `ChangePassword`.

Layout:

- `common.dfy`: `Option`, `Result`, errors.
- `registration.dfy`: module `Registration`.
- `walker.dfy`: module `Walker`.
- `ftp_config.dfy`: module `FtpConfig`.
- `ftp_backend.dfy`: module `FtpBackend`.
- `sessions.dfy`: modules `Sessions` and `SessionScenarios`.

Objects the source updates in place are classes with the same fields:
`Registration.Registry`, `FtpBackend.FTPBackend`, `Sessions.Session` and
`Sessions.Store`. The loops of the source are methods with loops. Each method is proved
against a specification function or a state predicate, and the properties of that
function are proved as lemmas.

Foreign code becomes inputs:

- What goftp's `DialConfig` and `Client.Close` return.
- What `url.Parse`, `time.LoadLocation` and viper's `Unmarshal` return.
- For the session store, what each backend kind does for one login: its constructor
  fails, or it builds a backend with some capabilities whose `Authenticate` answers
  `(ok, err)`. This is a function `attempt: Descriptor -> Attempt`.
- The fresh `xid` token is a parameter that must be non-empty and unused.
- A bcrypt hash is modelled by the one password it accepts. Hashing never fails.

Ghost logs record the calls into foreign code:

- goftp dials and client closes, on `FTPBackend`, in one log that keeps their order.
- Backend constructions and closes during a login, on `Store`.
- Backend closes by the timeout, on `Session`.

Two behaviours of the code are modelled as written.

- When a backend is not an `Authenticator`, the login closes it but does not `continue`
  (`app/session.go:68-76`). The next statement calls `Authenticate` through a nil
  interface, so the Go program panics. The model ends the login with the outcome
  `Panicked(id)` after the close. It does not pretend the backend is skipped.
- An expiring session closes its storage and then its authenticator
  (`app/session.go:244-255`). For every session a login installs, these are the same
  backend, so that backend is closed twice. `SessionScenarios.LoginLifecycle` shows
  this.

Where the code differs from what its design describes, the model follows the code.

- The walk does not stop when the callback returns an error. `filepath.WalkFunc`'s
  error result is discarded (`backends/util.go:30`). Only a failing `ReadDir` ends the
  walk early.
- Finding a reusable session does not reset that session's idle timer
  (`app/session.go:122-138`).
- Nothing keeps the pin counter from going below zero (`app/session.go:163-169`). A
  timeout with a negative count expires the session like one with zero pins.

## Model

| member | source | states |
|---|---|---|
| Registration.Find | backends/registration.go:24-32 | the first descriptor with the id, if any: a found descriptor is in the list with that id and no earlier descriptor has the id, and none is found exactly when no descriptor has that id |
| Registration.FindRegistered | backends/registration.go:18-42 | with unique ids, looking up the id of a registered descriptor finds exactly that descriptor |
| Registration.Registry.constructor | backends/registration.go:8-11 | the registry starts empty, so its ids are unique |
| Registration.Registry.Register | backends/registration.go:14-22 | a new id is appended at the end and all earlier entries keep their order; a taken id panics and leaves the registry unchanged; ids stay pairwise distinct |
| Registration.Registry.UnsyncedGetByID | backends/registration.go:24-32 | the linear search returns the first descriptor with the id, and finds one exactly when some descriptor has it |
| Registration.Registry.GetByID | backends/registration.go:36-42 | returns the descriptor registered under the id, or none exactly when no descriptor has it; changes nothing |
| Registration.Registry.GetAll | backends/registration.go:45-52 | a snapshot equal to the registry element by element and in order; as a value it cannot be changed by later registrations; changes nothing |
| Walker.ReportEntries | backends/util.go:29-38 | the inner loop reports every entry to the callback with the directory's joined path and a nil error, and queues every subdirectory unless the depth limit is reached at the current directory |
| Walker.ReadDirRecursivelyLimited | backends/util.go:17-51 | the reads, callbacks and returned error of the loop are exactly the walk `WalkTree(storage, relpath, depth)` |
| Walker.ReadDirRecursively | backends/util.go:11-13 | the unlimited walk is the limited walk with depth 0 |
| Walker.EntryCallsReport | backends/util.go:29-30 | one callback per listed entry, in listing order, carrying that entry and a nil error |
| Walker.SubdirsAreChildren | backends/util.go:31-36 | every queued path is the current path extended by the name of a directory entry of the listing |
| Walker.SubdirsComplete | backends/util.go:31-36 | every directory entry of the listing is queued as a child path |
| Walker.NonPositiveDepthIsUnlimited | backends/util.go:16-32 | a depth of zero or below never prunes: the walk is the unlimited one |
| Walker.NegativeDepthUnlimited | backends/util.go:11-17 | a negative depth gives the same walk as `ReadDirRecursively` |
| Walker.ErrorEndsWalk | backends/util.go:22-27 | every callback but the last carries an entry and no error; a failed walk ends with one callback carrying the error and no entry, and its last read is the failing `ReadDir`; conversely, any read that fails is the last read and its error is the walk's error |
| Walker.WalkTreeErrorLast | backends/util.go:21-27 | the same for a whole walk from `relpath`: a `ReadDir` error is reported once, ends the walk and is returned, and a returned error is always that of the last read |
| Walker.BreadthFirst | backends/util.go:21-48 | directories are read in FIFO order: the start first, never a shallower path after a deeper one, and every read path at least as long as the start and sharing its first component |
| Walker.WalkTreeBreadthFirst | backends/util.go:17-48 | a walk from `relpath` reads `[relpath]` first, then level by level, only below `relpath` |
| Walker.DepthBounded | backends/util.go:32-35 | with a positive depth limit, no directory deeper than the limit is read |
| Walker.WalkTreeDepthBounded | backends/util.go:17-35 | the same for a whole walk from `relpath` |
| Walker.Complete | backends/util.go:21-50 | a walk that returns nil has read every queued path and, below every directory it read that is not at the depth limit, every subdirectory (for value paths; see the aliasing line under Left out) |
| Walker.WalkTreeComplete | backends/util.go:17-51 | an unlimited walk that returns nil has read every subdirectory of every directory it read (for value paths; see the aliasing line under Left out) |
| FtpConfig.MakeClientConfig | backends/ftp/backend.go:28-42 | the four transfer settings are copied verbatim; the server location is set exactly when its name is non-empty, to the loaded zone; a load error is returned; no login and no TLS yet |
| FtpConfig.ApplyScheme | backends/ftp/backend.go:66-75 | the lower-cased scheme picks the mode: "ftps" is implicit TLS with a fresh TLS config, "ftpes" is explicit TLS with a fresh TLS config, anything else leaves the config as it is; no other field changes |
| FtpConfig.ApplyVerification | backends/ftp/backend.go:76-85 | with TLS, certificate checking follows the setting; unless checking is skipped, the server name is the configured name if non-empty, else the URL host; without TLS nothing changes |
| FtpConfig.ApplyUser | backends/ftp/backend.go:86-91 | user info in the URL sets the user; the password is set only when the URL carries one |
| FtpConfig.Derive | backends/ftp/backend.go:49-96 | construction fails exactly when unmarshalling, loading the zone or parsing the URL fails, and returns the error of the first step that failed; otherwise the template has the URL's host, the copied settings, the TLS mode of the scheme, the server-name rule and the URL's login |
| FtpConfig.SchemeIgnoresCase | backends/ftp/backend.go:66 | every scheme, in any mix of upper and lower case, selects the same TLS mode and configuration as its lower-cased spelling |
| FtpBackend.FTPBackend.constructor | backends/ftp/backend.go:93-96 | a new backend holds the template and host, has no connection and nobody logged in |
| FtpBackend.FTPBackend.IsLoggedInAs | backends/ftp/storage.go:8-10 | holds exactly when the name is the one the last successful `Authenticate` stored (the empty name before any login); `Authenticate` ensures it for the name it logged in with |
| FtpBackend.FTPBackend.Close | backends/ftp/backend.go:110-116 | with a connection: it is closed and dropped, and its close error is returned; without one nothing happens and nil is returned, so a second `Close` is a no-op |
| FtpBackend.FTPBackend.Authenticate | backends/ftp/authenticator.go:9-27 | the old connection is closed before the dial (both are in one ordered log) and its error ignored; the dial uses the template with only user and password replaced, and the template is unchanged; ok holds exactly when the error is nil, so `(false, nil)` is impossible; the name is remembered only on success |
| FtpBackend.FTPBackend.ChangePassword | backends/ftp/authenticator.go:29-32 | always `ErrUnsupportedOperation`, and no state changes |
| FtpBackend.New | backends/ftp/backend.go:49-99 | fails with the derivation's error exactly when the derivation fails; otherwise a fresh backend with the derived template and host, no client and an empty username |
| FtpBackend.Init | backends/ftp/backend.go:44-101 | registers the "ftp" kind with display name "FTP", with the registry's duplicate rule |
| Sessions.Decide | app/session.go:61-95 | how one attempt ends the loop round: installing needs an authenticator that accepts without error and is a storage; a non-authenticator is a nil dereference; an accepting non-storage is closed and skipped; everything else is skipped |
| Sessions.FirstStop | app/session.go:60-118 | the position where the loop stops is at most the number of kinds |
| Sessions.FirstStopIsFirst | app/session.go:60-118 | every kind before the stop is skipped and the kind at the stop is not: the first kind that does not skip ends the loop |
| Sessions.BackendInstance.constructor | app/session.go:48-53 | a constructed backend of a kind, with its capabilities |
| Sessions.Session.constructor | app/session.go:106-113 | a new session is active, unpinned, has no language, and owns the backend as both authenticator and storage |
| Sessions.Session.Increment | app/session.go:155-161 | the pin count goes up by exactly one |
| Sessions.Session.Decrement | app/session.go:163-169 | the pin count goes down by exactly one, with no lower bound |
| Sessions.Session.ActiveClients | app/session.go:171-175 | returns the pin count |
| Sessions.Session.IsActive | app/session.go:177-181 | returns whether the session is active |
| Sessions.Session.Username | app/session.go:183-187 | returns the account name |
| Sessions.Session.VerifyPassword | app/session.go:189-191 | a session whose verifier was made from password p accepts exactly p |
| Sessions.Session.Authenticator | app/session.go:193-197 | returns the authenticator reference |
| Sessions.Session.Storage | app/session.go:199-203 | returns the storage reference |
| Sessions.Session.SetStorage | app/session.go:205-209 | replaces the storage reference only |
| Sessions.Session.SetAuthenticator | app/session.go:211-215 | replaces the authenticator reference only |
| Sessions.Session.Language | app/session.go:217-221 | returns the language |
| Sessions.Session.SetLanguage | app/session.go:223-227 | replaces the language only |
| Sessions.Session.Reset | app/session.go:229-233 | a reset signal changes no state |
| Sessions.Session.Timeout | app/session.go:234-260 | an expired session stays expired, and a pinned one stays as it is; an unpinned active one becomes inactive, closes its storage and then its authenticator if present, and drops both |
| Sessions.Store.constructor | app/session.go:16-19 | the store starts with no sessions |
| Sessions.Store.UnsyncedGC | app/session.go:27-33 | the map afterwards is exactly the active entries of the map before, each with its token and session object unchanged |
| Sessions.Store.GetSessionByID | app/session.go:35-46 | after collecting garbage, returns the session stored under the id, or nil if there is none, so never an inactive session |
| Sessions.Store.GetSessionByAccount | app/session.go:122-138 | after collecting garbage, returns the token of some live session of the account that accepts the password, and the empty token exactly when there is none |
| Sessions.Store.Authenticate | app/session.go:55-120 | a reusable session's token is returned with no backend built and no session added; otherwise kinds are built in order up to and including the first that does not skip, and none after it; if every kind skips, the empty token is returned and nothing is added; if the stop installs, exactly one fresh active, unpinned session owning a fresh backend is added under the fresh token, which is returned; if the stop is a non-authenticator, the login panics after closing it |
| Sessions.Store.TryBackends | app/session.go:60-119 | the descriptor loop: constructions, closes, the result and the map, as determined by the first kind that does not skip |
| Sessions.Store.TryBackend | app/session.go:61-117 | one round of the loop: the kind is constructed; a construction error, an authentication error or a refusal skips; an accepting non-storage is closed and skipped; a non-authenticator is closed and then panics; a storage authenticator is installed under the fresh token |
| SessionScenarios.PinnedTimeout | app/session.go:155-242 | an increment and decrement bracket keeps the session active through a timeout and restores the pin count |
| SessionScenarios.FirstLogin | app/session.go:60-117 | when the first kind refuses and the second accepts, the login installs one session owned by the second kind |
| SessionScenarios.Relogin | app/session.go:55-58 | logging in again as the same account returns the live session's token and adds nothing |
| SessionScenarios.LoginLifecycle | app/session.go:35-260 | a login, a reuse, an unpinned timeout, then the token no longer resolves; the expiry closes the one backend twice |

## Left out

- Concurrency is not modelled: the store and session mutexes, the timer goroutine, its
  channel and `time.After`. Timer events are the explicit steps `Session.Reset` and
  `Session.Timeout`, and every operation runs to completion on its own.
- The unbuffered sends in `Increment` and `Decrement` (`app/session.go:160`, `168`)
  block forever once the timer goroutine has exited. This is a liveness hazard that a
  sequential model cannot show.
- A bcrypt failure during a login is not modelled. In the source it leaves the store
  mutex locked, through `defer` inside the loop, and leaks the backend
  (`app/session.go:97-105`). The model treats hashing as infallible.
- bcrypt is not modelled. A hash is the cost and the one password it accepts.
- `xid` token generation is not modelled. The token is a parameter, required to be
  non-empty and not already in the map.
- Sessions.Store.GetSessionByAccount: Go map iteration order is unspecified, so the
  contract promises some matching token, not a particular one.
- A backend that refuses the credentials, or whose `Authenticate` fails, is skipped
  without being closed, as in the source (`app/session.go:76-84`). The close log shows
  this, but the model does not treat the leak as an error.
- Backend instances are opaque objects with their capabilities. The session store does
  not see a backend's own state.
- Walker: paths are value sequences, so the slice aliasing of `append(pwd, f.Name())`
  (`backends/util.go:36`) is not reproduced. In Go, once `pwd` has spare capacity (a
  three-component path such as `[relpath, a, x]`, whose capacity has grown to 4), every
  child `append` writes into the same backing array, and all queued sibling paths end up
  naming the last subdirectory. With subdirectories `p` then `q`, `r/a/x/p` is never read
  and `r/a/x/q` is read twice. `Walker.Complete`, `Walker.WalkTreeComplete` and the exact
  visit order of `Walker.ReadDirRecursivelyLimited` hold for the value-path walk, not for
  the program as written once paths reach that length.
- Walker: `path.Join` is modelled as joining the components with slashes. Its lexical
  cleaning is not modelled, and neither is its dropping of empty elements: the model joins
  `["", "x"]` as "/x" where Go gives "x".
- Walker: storage is a finite map from paths to listings, so the walk terminates. A
  storage with cycles or unbounded depth, on which the source would not terminate, is
  outside the model.
- Walker: the callback's returned error is not an input, because the source discards it.
- Walker: `os.FileInfo` is reduced to the entry's name and whether it is a directory.
- FtpConfig.Lower: `strings.ToLower` is modelled on ASCII letters only.
- The `Timeout` field of the FTP configuration is not used by the source and is only
  carried along.
- The goftp `TLSMode` zero value is taken to be explicit TLS. Plain-FTP templates
  therefore carry `TlsExplicit` with no TLS configuration.
- `backends/ftp/storage.go` is not modelled beyond `IsLoggedInAs`. Its `Stat`,
  `ReadDir` and `Retrieve` forward to the goftp client.
- The HTTP front-end, the configuration loading and the program start-up are not part of
  this model.
- The source does not compile together as written: descriptor field `Id` versus `ID`,
  and one import path. Each file is modelled as written.
