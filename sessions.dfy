/** The session store and the per-session state machine (app/session.go).

    The store maps opaque tokens to sessions; it drops inactive sessions lazily, on each
    lookup. A login first tries to reuse a live session of the same account; otherwise it
    tries the registered backend kinds in order and installs a session for the first backend
    that both accepts the credentials and can serve files.

    Each session counts its pins (operations in progress) and runs an idle timer. Timer
    events are the explicit steps `Reset` and `Timeout`: a timeout with no pins expires
    the session for good, closing and dropping its backend. */
module Sessions {
  import opened Common
  import opened Registration

  /** A session id, as `xid` prints it; the empty token means "not authenticated". */
  type Token = string

  // ---------------------------------------------------------------------------
  // Password verifiers. bcrypt is foreign; a hash is modelled by the cost it was made
  // with and the one password it accepts.

  const BcryptCost: nat := 14

  datatype PasswordHash = PasswordHash(cost: nat, secret: string)

  /** `bcrypt.GenerateFromPassword(password, 14)`; treated as infallible. */
  function GenerateFromPassword(password: string): PasswordHash {
    PasswordHash(BcryptCost, password)
  }

  /** `bcrypt.CompareHashAndPassword(hash, password) == nil`. */
  predicate CompareHashAndPassword(hash: PasswordHash, password: string) {
    hash.secret == password
  }

  // ---------------------------------------------------------------------------
  // Backends as the orchestration sees them.

  /** A constructed backend instance and the capabilities its dynamic type has. */
  class BackendInstance {
    const descriptorId: string
    const isAuthenticator: bool
    const isStorage: bool

    constructor (descriptorId: string, isAuthenticator: bool, isStorage: bool)
      ensures this.descriptorId == descriptorId
      ensures this.isAuthenticator == isAuthenticator && this.isStorage == isStorage
    {
      this.descriptorId := descriptorId;
      this.isAuthenticator := isAuthenticator;
      this.isStorage := isStorage;
    }
  }

  /** What trying one descriptor does for the login at hand: its constructor fails, or it
      builds a backend with the given capabilities whose `Authenticate` (when it is an
      authenticator) returns `(ok, authErr)`. */
  datatype Attempt =
    | ConstructFails(err: Error)
    | Built(isAuthenticator: bool, isStorage: bool, ok: bool, authErr: Option<Error>)

  /** How the login loop treats one attempt: go on to the next descriptor (after closing
      the backend or not), install a session, or call `Authenticate` through the nil
      interface that a failed `Authenticator` type assertion leaves (a runtime panic). */
  datatype Decision = Skip(closes: bool) | Install | NilDereference

  function Decide(a: Attempt): (d: Decision)
    ensures d == Install <==> a.Built? && a.isAuthenticator && a.authErr.None? && a.ok && a.isStorage
    ensures d == NilDereference <==> a.Built? && !a.isAuthenticator
    ensures d == Skip(true) <==> a.Built? && a.isAuthenticator && a.authErr.None? && a.ok && !a.isStorage
  {
    match a
    case ConstructFails(_) => Skip(false)
    case Built(isAuthenticator, isStorage, ok, authErr) =>
      if !isAuthenticator then NilDereference
      else if authErr.Some? then Skip(false)
      else if !ok then Skip(false)
      else if !isStorage then Skip(true)
      else Install
  }

  /** The position of the first descriptor whose attempt ends the login loop, or |ds| when
      every attempt is skipped. */
  function FirstStop(ds: seq<Descriptor>, attempt: Descriptor -> Attempt): (k: nat)
    ensures k <= |ds|
  {
    if ds == [] then 0
    else if !Decide(attempt(ds[0])).Skip? then 0
    else 1 + FirstStop(ds[1..], attempt)
  }

  /** Every attempt before the stop is skipped, and the one at the stop is not. */
  lemma {:induction false} FirstStopIsFirst(ds: seq<Descriptor>, attempt: Descriptor -> Attempt)
    ensures forall j :: 0 <= j < FirstStop(ds, attempt) ==> Decide(attempt(ds[j])).Skip?
    ensures FirstStop(ds, attempt) < |ds| ==> !Decide(attempt(ds[FirstStop(ds, attempt)])).Skip?
  {
    if ds != [] && Decide(attempt(ds[0])).Skip? {
      FirstStopIsFirst(ds[1..], attempt);
      assert forall j :: 1 <= j < |ds| ==> ds[j] == ds[1..][j - 1];
    }
  }

  /** Up to the stop, an attempt is skipped exactly when the stop lies further on. */
  lemma FirstStopAt(ds: seq<Descriptor>, attempt: Descriptor -> Attempt, i: nat)
    requires i < |ds| && i <= FirstStop(ds, attempt)
    ensures Decide(attempt(ds[i])).Skip? <==> i < FirstStop(ds, attempt)
  {
    FirstStopIsFirst(ds, attempt);
  }

  /** The ids of the first `n` descriptors of `ds`, in order. */
  ghost function Ids(ds: seq<Descriptor>, n: nat): seq<string>
    requires n <= |ds|
  {
    if n == 0 then [] else Ids(ds, n - 1) + [ds[n - 1].id]
  }

  /** The ids of those among the first `n` descriptors of `ds` whose backend is built,
      accepts the login and is then closed for not being a storage. */
  ghost function ClosedIds(ds: seq<Descriptor>, n: nat, attempt: Descriptor -> Attempt): seq<string>
    requires n <= |ds|
  {
    if n == 0 then []
    else ClosedIds(ds, n - 1, attempt) + (if Decide(attempt(ds[n - 1])) == Skip(true) then [ds[n - 1].id] else [])
  }

  /** The result of `Authenticate`: a token (empty when no backend accepted), or a panic. */
  datatype AuthOutcome = Returned(sid: Token) | Panicked(descriptorId: string)

  /** The order in which the timeout closes the session's backend references. */
  function CloseOrder(storage: BackendInstance?, authenticator: BackendInstance?): seq<BackendInstance> {
    (if storage != null then [storage] else []) + (if authenticator != null then [authenticator] else [])
  }

  // ---------------------------------------------------------------------------

  class Session {
    var username: string
    var passwordHash: PasswordHash
    var authenticator: BackendInstance?
    var storage: BackendInstance?
    var activeClients: int
    var isActive: bool
    var language: string

    /** The `Close` calls the timeout has issued, in order. */
    ghost var closed: seq<BackendInstance>

    /** A session for a fresh login: active, unpinned, owning `backend` as both its
        authenticator and its storage. */
    constructor (username: string, passwordHash: PasswordHash, backend: BackendInstance)
      ensures this.username == username && this.passwordHash == passwordHash
      ensures authenticator == backend && storage == backend
      ensures activeClients == 0 && isActive && language == "" && closed == []
    {
      this.username := username;
      this.passwordHash := passwordHash;
      authenticator := backend;
      storage := backend;
      activeClients := 0;
      isActive := true;
      language := "";
      closed := [];
    }

    /** Pins the session for one more operation and resets its idle timer. */
    method Increment()
      modifies this`activeClients
      ensures activeClients == old(activeClients) + 1
    {
      activeClients := activeClients + 1;
      Reset();
    }

    /** Releases one pin and resets the idle timer; nothing keeps the count from going
        below zero. */
    method Decrement()
      modifies this`activeClients
      ensures activeClients == old(activeClients) - 1
    {
      activeClients := activeClients - 1;
      Reset();
    }

    method ActiveClients() returns (n: int)
      ensures n == activeClients
    {
      n := activeClients;
    }

    method IsActive() returns (active: bool)
      ensures active == isActive
    {
      active := isActive;
    }

    method Username() returns (name: string)
      ensures name == username
    {
      name := username;
    }

    /** Whether `password` matches the cached verifier; a session made from password p
        accepts exactly p. */
    predicate VerifyPassword(password: string)
      reads this
      ensures forall p {:trigger GenerateFromPassword(p)} :: passwordHash == GenerateFromPassword(p) ==>
                (VerifyPassword(password) <==> password == p)
    {
      CompareHashAndPassword(passwordHash, password)
    }

    method Authenticator() returns (a: BackendInstance?)
      ensures a == authenticator
    {
      a := authenticator;
    }

    method Storage() returns (s: BackendInstance?)
      ensures s == storage
    {
      s := storage;
    }

    method SetStorage(s: BackendInstance?)
      modifies this`storage
      ensures storage == s
    {
      storage := s;
    }

    method SetAuthenticator(a: BackendInstance?)
      modifies this`authenticator
      ensures authenticator == a
    {
      authenticator := a;
    }

    method Language() returns (value: string)
      ensures value == language
    {
      value := language;
    }

    method SetLanguage(value: string)
      modifies this`language
      ensures language == value
    {
      language := value;
    }

    /** Timer event: a reset signal arrived, so the wait restarts. */
    method Reset()
      ensures unchanged(this)
    {
    }

    /** Timer event: the idle timeout elapsed. A pinned session keeps waiting; an
        unpinned one expires for good, closing its storage and then its authenticator.
        Once expired the timer is gone, so no further timeout occurs. */
    method Timeout()
      modifies this`isActive, this`storage, this`authenticator, this`closed
      ensures !old(isActive) || old(activeClients) > 0 ==> unchanged(this)
      ensures old(isActive) && old(activeClients) <= 0 ==>
                && !isActive && storage == null && authenticator == null
                && closed == old(closed) + CloseOrder(old(storage), old(authenticator))
    {
      if !isActive || activeClients > 0 {
        return;
      }
      isActive := false;
      if storage != null {
        closed := closed + [storage];
      }
      if authenticator != null {
        closed := closed + [authenticator];
      }
      storage := null;
      authenticator := null;
    }
  }

  /** `s` belongs to the account `username` and accepts `password`. */
  ghost predicate Matches(s: Session, username: string, password: string)
    reads s
  {
    s.username == username && s.VerifyPassword(password)
  }

  /** Some session of `m` belongs to the account and accepts the password. */
  ghost predicate HasSessionFor(m: map<Token, Session>, username: string, password: string)
    reads m.Values
  {
    exists t :: t in m && Matches(m[t], username, password)
  }

  /** The entries of `m` whose session is still active. */
  ghost function ActiveOnly(m: map<Token, Session>): map<Token, Session>
    reads m.Values
  {
    map t | t in m && m[t].isActive :: m[t]
  }

  /** A session just installed for `username`/`password` on a backend of `d`. */
  ghost predicate Installed(s: Session, username: string, password: string, d: Descriptor)
    reads s, s.storage
  {
    && s.username == username && s.passwordHash == GenerateFromPassword(password)
    && s.isActive && s.activeClients == 0 && s.language == "" && s.closed == []
    && s.storage != null && s.authenticator == s.storage
    && s.storage.descriptorId == d.id && s.storage.isAuthenticator && s.storage.isStorage
  }

  class Store {
    var sessions: map<Token, Session>
    const registry: Registry

    /** The descriptors whose constructor has run, by id, in order. */
    ghost var constructed: seq<string>
    /** The descriptors whose freshly built backend the login loop closed, by id, in order. */
    ghost var closed: seq<string>

    ghost predicate Valid()
      reads this
    {
      "" !in sessions
    }

    constructor (registry: Registry)
      ensures Valid() && this.registry == registry
      ensures sessions == map[] && constructed == [] && closed == []
    {
      this.registry := registry;
      sessions := map[];
      constructed := [];
      closed := [];
    }

    /** Deletes every inactive session; active entries keep their token and session. */
    method UnsyncedGC()
      modifies this`sessions
      ensures sessions == old(ActiveOnly(sessions))
    {
      ghost var m0 := sessions;
      var pending := sessions.Keys;
      while pending != {}
        invariant pending <= sessions.Keys <= m0.Keys
        invariant forall t :: t in m0 && t !in pending ==> (t in sessions <==> m0[t].isActive)
        invariant forall t :: t in sessions ==> sessions[t] == m0[t]
        decreases pending
      {
        var sid :| sid in pending;
        var active := sessions[sid].IsActive();
        if !active {
          sessions := sessions - {sid};
        }
        pending := pending - {sid};
      }
      assert sessions == ActiveOnly(m0);
    }

    /** Collects garbage, then returns the session stored under `id`, if any; it is
        therefore never an inactive one. */
    method GetSessionByID(id: Token) returns (s: Session?)
      modifies this`sessions
      ensures sessions == old(ActiveOnly(sessions))
      ensures s == (if id in sessions then sessions[id] else null)
      ensures s != null ==> s.isActive
    {
      UnsyncedGC();
      if id in sessions {
        return sessions[id];
      }
      return null;
    }

    /** Collects garbage, then returns the token of some live session of this account
        that accepts `password`, or the empty token if there is none. */
    method GetSessionByAccount(username: string, password: string) returns (id: Token)
      requires Valid()
      modifies this`sessions
      ensures Valid()
      ensures sessions == old(ActiveOnly(sessions))
      ensures id != "" ==> id in sessions && Matches(sessions[id], username, password)
      ensures id == "" <==> !HasSessionFor(sessions, username, password)
    {
      UnsyncedGC();
      var pending := sessions.Keys;
      while pending != {}
        invariant pending <= sessions.Keys
        invariant forall t :: t in sessions && t !in pending ==> !Matches(sessions[t], username, password)
        decreases pending
      {
        var sid :| sid in pending;
        var session := sessions[sid];
        if session.username == username && session.VerifyPassword(password) {
          return sid;
        }
        pending := pending - {sid};
      }
      return "";
    }

    /** Logs in: reuse a live session of the account, else try every registered backend
        kind in order and install a session, under `freshToken`, for the first one that
        accepts the credentials and can serve files. */
    method Authenticate(username: string, password: string, attempt: Descriptor -> Attempt,
                        freshToken: Token)
      returns (r: AuthOutcome)
      requires Valid()
      requires freshToken != "" && freshToken !in sessions
      modifies this
      ensures Valid()
      // reuse
      ensures var g := old(ActiveOnly(sessions));
              HasSessionFor(g, username, password) ==>
                && r.Returned? && r.sid in g && Matches(g[r.sid], username, password)
                && sessions == g && constructed == old(constructed) && closed == old(closed)
      // a fresh login
      ensures var g := old(ActiveOnly(sessions));
              var ds := registry.descriptors;
              var k := FirstStop(ds, attempt);
              !HasSessionFor(g, username, password) ==>
                && constructed == old(constructed) + Ids(ds, if k < |ds| then k + 1 else k)
                && (k == |ds| ==>
                      r == Returned("") && sessions == g && closed == old(closed) + ClosedIds(ds, |ds|, attempt))
                && (k < |ds| && Decide(attempt(ds[k])) == NilDereference ==>
                      && r == Panicked(ds[k].id) && sessions == g
                      && closed == old(closed) + ClosedIds(ds, k, attempt) + [ds[k].id])
                && (k < |ds| && Decide(attempt(ds[k])) == Install ==>
                      && r == Returned(freshToken)
                      && closed == old(closed) + ClosedIds(ds, k, attempt)
                      && freshToken in sessions && sessions == g[freshToken := sessions[freshToken]]
                      && fresh(sessions[freshToken]) && fresh(sessions[freshToken].storage)
                      && Installed(sessions[freshToken], username, password, ds[k]))
    {
      var sid := GetSessionByAccount(username, password);
      if sid != "" {
        return Returned(sid);
      }
      var ds := registry.GetAll();
      assert ds == registry.descriptors;
      r := TryBackends(ds, username, password, attempt, freshToken);
    }

    /** The second half of a login: try the registered backend kinds in order. A kind
        whose constructor fails, that rejects the credentials, or that cannot serve files
        is skipped (only in the last case is its backend closed); a kind that is not an
        authenticator ends the login in a nil dereference, after its backend is closed. */
    method TryBackends(ds: seq<Descriptor>, username: string, password: string,
                       attempt: Descriptor -> Attempt, freshToken: Token)
      returns (r: AuthOutcome)
      requires Valid()
      requires freshToken != "" && freshToken !in sessions
      modifies this`sessions, this`constructed, this`closed
      ensures Valid()
      ensures var k := FirstStop(ds, attempt);
              constructed == old(constructed) + Ids(ds, if k < |ds| then k + 1 else k)
      ensures FirstStop(ds, attempt) == |ds| ==>
                r == Returned("") && sessions == old(sessions) && closed == old(closed) + ClosedIds(ds, |ds|, attempt)
      ensures var k := FirstStop(ds, attempt);
              k < |ds| && Decide(attempt(ds[k])) == NilDereference ==>
                && r == Panicked(ds[k].id) && sessions == old(sessions)
                && closed == old(closed) + ClosedIds(ds, k, attempt) + [ds[k].id]
      ensures var k := FirstStop(ds, attempt);
              k < |ds| && Decide(attempt(ds[k])) == Install ==>
                && r == Returned(freshToken)
                && closed == old(closed) + ClosedIds(ds, k, attempt)
                && freshToken in sessions && sessions == old(sessions)[freshToken := sessions[freshToken]]
                && fresh(sessions[freshToken]) && fresh(sessions[freshToken].storage)
                && Installed(sessions[freshToken], username, password, ds[k])
    {
      ghost var k := FirstStop(ds, attempt);
      var i := 0;
      while i < |ds|
        invariant 0 <= i <= k
        invariant sessions == old(sessions)
        invariant constructed == old(constructed) + Ids(ds, i)
        invariant closed == old(closed) + ClosedIds(ds, i, attempt)
      {
        FirstStopAt(ds, attempt, i);
        var stop := TryBackend(ds[i], username, password, attempt, freshToken);
        if stop.Some? {
          return stop.value;
        }
        i := i + 1;
      }
      return Returned("");
    }

    /** One round of the backend loop: construct a backend of kind `descriptor` and try
        the credentials on it. `None` means "go on with the next kind". */
    method TryBackend(descriptor: Descriptor, username: string, password: string,
                      attempt: Descriptor -> Attempt, freshToken: Token)
      returns (stop: Option<AuthOutcome>)
      requires Valid()
      requires freshToken != "" && freshToken !in sessions
      modifies this`sessions, this`constructed, this`closed
      ensures Valid()
      ensures constructed == old(constructed) + [descriptor.id]
      ensures stop.None? <==> Decide(attempt(descriptor)).Skip?
      ensures Decide(attempt(descriptor)) == Skip(false) ==> closed == old(closed)
      ensures Decide(attempt(descriptor)) == Skip(true) ==> closed == old(closed) + [descriptor.id]
      ensures Decide(attempt(descriptor)) == NilDereference ==> closed == old(closed) + [descriptor.id]
      ensures Decide(attempt(descriptor)) == Install ==> closed == old(closed)
      ensures Decide(attempt(descriptor)) != Install ==> sessions == old(sessions)
      ensures Decide(attempt(descriptor)) == NilDereference ==> stop == Some(Panicked(descriptor.id))
      ensures Decide(attempt(descriptor)) == Install ==>
                && stop == Some(Returned(freshToken))
                && freshToken in sessions && sessions == old(sessions)[freshToken := sessions[freshToken]]
                && fresh(sessions[freshToken]) && fresh(sessions[freshToken].storage)
                && Installed(sessions[freshToken], username, password, descriptor)
    {
      constructed := constructed + [descriptor.id];
      var a := attempt(descriptor);
      if a.ConstructFails? {
        return None;
      }
      var backend := new BackendInstance(descriptor.id, a.isAuthenticator, a.isStorage);

      if !backend.isAuthenticator {
        closed := closed + [descriptor.id];
        // the missing `continue`: Authenticate is called through a nil interface
        return Some(Panicked(descriptor.id));
      }
      if a.authErr.Some? {
        return None;
      }
      if !a.ok {
        return None;
      }

      if !backend.isStorage {
        closed := closed + [descriptor.id];
        return None;
      }

      var passwordHash := GenerateFromPassword(password);
      var session := new Session(username, passwordHash, backend);
      sessions := sessions[freshToken := session];
      return Some(Returned(freshToken));
    }
  }
}

/** End-to-end behaviour of the session store, stated as client code against the model. */
module SessionScenarios {
  import opened Common
  import opened Registration
  import opened Sessions

  /** An operation in progress pins its session: a timeout meanwhile changes nothing, and
      releasing the pin restores the count the session had before. */
  method PinnedTimeout(s: Session)
    requires s.isActive && s.activeClients >= 0
    modifies s
    ensures s.isActive && s.activeClients == old(s.activeClients)
    ensures s.storage == old(s.storage) && s.authenticator == old(s.authenticator)
  {
    s.Increment();
    s.Timeout();
    s.Decrement();
  }

  /** Two backend kinds for one account: "strict" rejects its password, "ftp" accepts it. */
  function Kinds(): seq<Descriptor> {
    [Descriptor("strict", "Strict"), Descriptor("ftp", "FTP")]
  }

  function StrictThenFtp(d: Descriptor): Attempt {
    if d.id == "strict" then Built(true, true, false, None) else Built(true, true, true, None)
  }

  /** The first login falls through the rejecting kind to the accepting one, which owns
      the one new session. */
  method FirstLogin(store: Store) returns (first: AuthOutcome, s: Session)
    requires store.Valid() && store.sessions == map[] && store.registry.descriptors == Kinds()
    modifies store
    ensures store.Valid() && first == Returned("t1") && store.sessions == map["t1" := s]
    ensures fresh(s) && s.isActive && s.activeClients == 0 && Matches(s, "bob", "secret")
    ensures s.storage != null && s.authenticator == s.storage && s.closed == []
  {
    assert FirstStop(Kinds(), StrictThenFtp) == 1 by {
      assert Kinds()[1..] == [Kinds()[1]] && [Kinds()[1]][1..] == [];
    }
    first := store.Authenticate("bob", "secret", StrictThenFtp, "t1");
    assert store.sessions.Keys == {"t1"};
    s := store.sessions["t1"];
  }

  /** Logging in again as the same account returns the live session's token. */
  method Relogin(store: Store, s: Session) returns (again: AuthOutcome)
    requires store.Valid() && store.sessions == map["t1" := s]
    requires s.isActive && Matches(s, "bob", "secret")
    modifies store
    ensures store.Valid() && again == Returned("t1") && store.sessions == map["t1" := s]
  {
    assert ActiveOnly(store.sessions) == store.sessions;
    assert Matches(ActiveOnly(store.sessions)["t1"], "bob", "secret");
    again := store.Authenticate("bob", "secret", StrictThenFtp, "t2");
  }

  /** The whole lifecycle: the login falls through to the second kind, a second login
      reuses the session, and once the session times out unpinned its token no longer
      resolves. The expiry closes the session's one backend twice, once as its storage
      and once as its authenticator. */
  method LoginLifecycle()
    returns (first: AuthOutcome, again: AuthOutcome, afterExpiry: Session?, ghost closes: seq<BackendInstance>)
    ensures first == Returned("t1")
    ensures again == Returned("t1")
    ensures afterExpiry == null
    ensures |closes| == 2 && closes[0] == closes[1]
  {
    var registry := new Registry();
    var r1 := registry.Register(Descriptor("strict", "Strict"));
    var r2 := registry.Register(Descriptor("ftp", "FTP"));
    assert registry.descriptors == Kinds();
    var store := new Store(registry);
    var s;
    first, s := FirstLogin(store);
    again := Relogin(store, s);
    var found := store.GetSessionByID("t1");
    assert found == s;
    s.Timeout();
    closes := s.closed;
    afterExpiry := store.GetSessionByID("t1");
  }
}
