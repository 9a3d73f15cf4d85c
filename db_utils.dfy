/** The per-process transaction manager of `src/db_utils.py`. A process keeps
    three globals: the database user and password, fetched from the secret
    store on first use, and one connection that later transactions reuse while
    it reports itself open. A transaction commits when its body completes.
    Once the credentials are loaded and whenever a connection is held, it
    rolls back when an `Exception` escapes and resets the connection on every
    way out of its `try` statement.

    The secret store, the database driver and the transaction body are not
    part of this model: what each of their calls returns or raises is an input
    (a `World`), and the calls made are recorded as `Event`s. */
module DbUtils {
  import opened Options

  /** The name under which the credentials are stored. */
  const SecretId := "simple-serverless/db-credentials"

  /** What the secret store gives back for a secret id. */
  datatype SecretResponse =
      /** `get_secret_value` raised: a `ClientError` or another `Exception`. */
    | LookupRaised(clientError: bool)
      /** A `SecretString`, with its JSON object when the string parses as one. */
    | SecretString(json: Option<map<string, string>>)
      /** A `SecretBinary`, with its bytes when it is present and valid base64. */
    | SecretBinary(decoded: Option<seq<bv8>>)

  /** Which message `get_db_credentials` exits with. */
  datatype ExitReason = ClientErrorExit | ExceptionExit

  /** What `get_db_credentials` hands back, or that it ended the process. */
  datatype Credentials =
    | UserPassword(user: string, password: string)
      /** The one-element tuple built from a binary secret. */
    | BinaryOnly(secret: seq<bv8>)
      /** `exit(...)`: a `SystemExit`. */
    | Exit(reason: ExitReason)

  /** `get_db_credentials()`. The string secret yields its `username` and
      `password`; the binary one yields a single value; a failed lookup and any
      error while reading the answer end the process. */
  function GetDbCredentials(lookup: string -> SecretResponse): (r: Credentials)
    ensures var answer := lookup(SecretId);
      r.UserPassword? <==>
        answer.SecretString? && answer.json.Some?
        && "username" in answer.json.value && "password" in answer.json.value
    ensures var answer := lookup(SecretId);
      r.UserPassword? ==>
        r.user == answer.json.value["username"] && r.password == answer.json.value["password"]
    ensures var answer := lookup(SecretId);
      r.BinaryOnly? <==> answer.SecretBinary? && answer.decoded.Some?
    ensures r == Exit(ClientErrorExit) <==> lookup(SecretId) == LookupRaised(true)
  {
    match lookup(SecretId)
    case LookupRaised(clientError) =>
      Exit(if clientError then ClientErrorExit else ExceptionExit)
    case SecretString(json) =>
      if json.Some? && "username" in json.value && "password" in json.value then
        UserPassword(json.value["username"], json.value["password"])
      else
        Exit(ExceptionExit)
    case SecretBinary(decoded) =>
      if decoded.Some? then BinaryOnly(decoded.value) else Exit(ExceptionExit)
  }

  /** A raised exception object, known by its identity. `isException` tells an
      `Exception` from a bare `BaseException` such as `KeyboardInterrupt`,
      which `except Exception` lets through. */
  datatype Exc = Exc(id: nat, isException: bool)

  /** A database connection, known by its identity. */
  datatype Conn = Conn(id: nat)

  /** How a transaction ends when it does not return. */
  datatype Failure =
    | Raised(exc: Exc)
      /** The `SystemExit` of `get_db_credentials`. */
    | Exited(reason: ExitReason)
      /** The `ValueError` of unpacking a one-element tuple into user and password. */
    | CannotUnpack

  datatype Outcome<R> = Returned(value: R) | Failed(failure: Failure)

  /** The calls the manager makes to the world outside. */
  datatype Event =
    | FetchCreds
    | Connect
    | RunBody(conn: Conn)
    | Commit(conn: Conn)
    | Rollback(conn: Conn)
    | Reset(conn: Conn)

  /** What the outside world answers during one transaction: the secret store,
      the `closed` attribute of the cached connection, and what connecting,
      committing, rolling back and resetting return (None) or raise. */
  datatype World = World(
    lookup: string -> SecretResponse,
    closed: int,
    connect: Result<Conn, Exc>,
    commit: Option<Exc>,
    rollback: Option<Exc>,
    reset: Option<Exc>)

  /** The three globals: the cached user and password, and the connection. */
  datatype State = State(creds: Option<(string, string)>, connection: Option<Conn>)

  /** The globals after a transaction, how it ended, and the calls it made. */
  datatype Run<R> = Run(state: State, outcome: Outcome<R>, trace: seq<Event>)

  /** The connection held, the calls made and the pending result or exception
      at some point inside the `try` statement. */
  datatype Phase<R> = Phase(connection: Option<Conn>, trace: seq<Event>, result: Result<R, Exc>)

  /** Whether the `try` block opens a new connection. */
  predicate NeedsConnect(connection: Option<Conn>, w: World)
  {
    connection.None? || w.closed > 0
  }

  /** The body at the `yield`, then `commit` when it completes. */
  function BodyAndCommit<R>(c: Conn, w: World, body: Conn -> Result<R, Exc>): (p: Phase<R>)
    ensures p.connection == Some(c)
    ensures |p.trace| >= 1 && p.trace[0] == RunBody(c)
    ensures Commit(c) in p.trace <==> body(c).Ok?
    ensures p.result.Ok? ==> p.result == body(c)
    ensures body(c).Err? ==> p.result == body(c) && p.trace == [RunBody(c)]
    ensures body(c).Ok? && p.result.Err? ==> w.commit == Some(p.result.error)
  {
    match body(c)
    case Err(e) => Phase(Some(c), [RunBody(c)], Err(e))
    case Ok(v) =>
      Phase(Some(c), [RunBody(c), Commit(c)], if w.commit.Some? then Err(w.commit.value) else Ok(v))
  }

  /** The `try` block: connect when needed, then the body and the commit. A
      failed connect leaves the old connection in place. */
  function TryBlock<R>(connection: Option<Conn>, w: World, body: Conn -> Result<R, Exc>): (p: Phase<R>)
    ensures |p.trace| >= 1 && (p.trace[0] == Connect <==> NeedsConnect(connection, w))
    ensures p.result.Ok? ==> p.connection.Some?
    ensures p.connection == connection
      || (NeedsConnect(connection, w) && w.connect.Ok? && p.connection == Some(w.connect.value))
  {
    if NeedsConnect(connection, w) then
      match w.connect
      case Err(e) => Phase(connection, [Connect], Err(e))
      case Ok(c) =>
        var b := BodyAndCommit(c, w, body);
        Phase(b.connection, [Connect] + b.trace, b.result)
    else
      BodyAndCommit(connection.value, w, body)
  }

  /** The exception pending when the `try` block is left is the connect's, the
      body's or the commit's own. */
  lemma PendingErrorIsOwn<R>(connection: Option<Conn>, w: World, body: Conn -> Result<R, Exc>)
    requires TryBlock(connection, w, body).result.Err?
    ensures var p := TryBlock(connection, w, body);
      || (NeedsConnect(connection, w) && w.connect.Err? && p.result.error == w.connect.error
          && p.connection == connection && p.trace == [Connect])
      || (p.connection.Some? && p.result == body(p.connection.value))
      || (p.connection.Some? && body(p.connection.value).Ok? && w.commit == Some(p.result.error))
  {
  }

  /** `except Exception`: roll back, then re-raise; an exception raised by the
      rollback takes the place of the one being handled. */
  function ExceptClause<R>(p: Phase<R>, w: World): (q: Phase<R>)
    ensures q.connection == p.connection
    ensures |p.trace| <= |q.trace| <= |p.trace| + 1 && q.trace[..|p.trace|] == p.trace
    ensures q.result.Ok? <==> p.result.Ok?
    ensures !(p.result.Err? && p.result.error.isException) ==> q == p
  {
    if p.result.Err? && p.result.error.isException && p.connection.Some? then
      Phase(p.connection, p.trace + [Rollback(p.connection.value)],
            if w.rollback.Some? then Err(w.rollback.value) else p.result)
    else p
  }

  /** `finally`: reset the connection; an exception raised by the reset takes
      the place of whatever was on its way out. */
  function FinallyClause<R>(p: Phase<R>, w: World): (q: Phase<R>)
    ensures q.connection == p.connection
    ensures |p.trace| <= |q.trace| <= |p.trace| + 1 && q.trace[..|p.trace|] == p.trace
    ensures p.connection.None? ==> q == p
    ensures w.reset.None? ==> q.result == p.result
  {
    if p.connection.Some? then
      Phase(p.connection, p.trace + [Reset(p.connection.value)],
            if w.reset.Some? then Err(w.reset.value) else p.result)
    else p
  }

  function ToOutcome<R>(result: Result<R, Exc>): Outcome<R>
  {
    if result.Ok? then Returned(result.value) else Failed(Raised(result.error))
  }

  /** The `try` statement with its clauses, once the credentials are known. */
  function Guarded<R>(s: State, w: World, body: Conn -> Result<R, Exc>): (r: Run<R>)
    ensures r.state.creds == s.creds
    ensures |r.trace| >= 1
    ensures r.outcome.Returned? ==> r.state.connection.Some?
  {
    var done := FinallyClause(ExceptClause(TryBlock(s.connection, w, body), w), w);
    Run(s.(connection := done.connection), ToOutcome(done.result), done.trace)
  }

  /** One `with transaction_wrapper() as conn:` block whose body is `body`:
      the reference the class below is proved against. */
  function Step<R>(s: State, w: World, body: Conn -> Result<R, Exc>): (r: Run<R>)
  {
    if s.creds.None? then
      match GetDbCredentials(w.lookup)
      case Exit(reason) => Run(s, Failed(Exited(reason)), [FetchCreds])
      case BinaryOnly(_) => Run(s, Failed(CannotUnpack), [FetchCreds])
      case UserPassword(user, password) =>
        var r := Guarded(s.(creds := Some((user, password))), w, body);
        r.(trace := [FetchCreds] + r.trace)
    else
      Guarded(s, w, body)
  }

  /** One block makes at least one call, never changes cached credentials,
      and when it returns holds both the credentials and a connection. */
  lemma StepBasics<R>(s: State, w: World, body: Conn -> Result<R, Exc>)
    ensures var r := Step(s, w, body);
      && |r.trace| >= 1
      && (s.creds.Some? ==> r.state.creds == s.creds)
      && (r.outcome.Returned? ==> r.state.creds.Some? && r.state.connection.Some?)
  {
  }

  /** Whether the credentials are known once the lazy load is over. */
  predicate CredentialsReady(s: State, w: World)
  {
    s.creds.Some? || GetDbCredentials(w.lookup).UserPassword?
  }

  /** The state the `try` statement starts from. */
  function Loaded(s: State, w: World): (t: State)
    requires CredentialsReady(s, w)
    ensures t.connection == s.connection && t.creds.Some?
  {
    if s.creds.Some? then s
    else
      var c := GetDbCredentials(w.lookup);
      s.(creds := Some((c.user, c.password)))
  }

  lemma StepUnfolds<R>(s: State, w: World, body: Conn -> Result<R, Exc>)
    requires CredentialsReady(s, w)
    ensures var r := Step(s, w, body);
      var g := Guarded(Loaded(s, w), w, body);
      && r.state == g.state && r.outcome == g.outcome
      && r.trace == (if s.creds.None? then [FetchCreds] else []) + g.trace
  {
  }

  // ---------------------------------------------------------------------------
  // Credentials

  /** The secret store is asked exactly when no user is cached, and then first
      of all; a cached user stays cached. */
  lemma FetchOnlyWhenUncached<R>(s: State, w: World, body: Conn -> Result<R, Exc>)
    ensures var r := Step(s, w, body);
      && (FetchCreds in r.trace <==> s.creds.None?)
      && (s.creds.None? ==> r.trace[0] == FetchCreds)
      && (s.creds.Some? ==> r.state.creds == s.creds)
  {
    var r := Step(s, w, body);
    if CredentialsReady(s, w) {
      StepUnfolds(s, w, body);
      NoFetchInside(Loaded(s, w), w, body);
    }
  }

  lemma NoFetchInside<R>(s: State, w: World, body: Conn -> Result<R, Exc>)
    ensures FetchCreds !in Guarded(s, w, body).trace
  {
    var t := TryBlock(s.connection, w, body);
    if NeedsConnect(s.connection, w) && w.connect.Ok? {
      var b := BodyAndCommit(w.connect.value, w, body);
      assert FetchCreds !in b.trace;
    }
    assert FetchCreds !in t.trace;
  }

  /** Credentials that cannot be had end the transaction before its `try`:
      nothing is connected, rolled back or reset, and nothing is cached. A
      binary secret is fetched but cannot be unpacked into user and password. */
  lemma CredentialFailureStopsEarly<R>(s: State, w: World, body: Conn -> Result<R, Exc>)
    requires !CredentialsReady(s, w)
    ensures var r := Step(s, w, body);
      && r.state == s && r.state.creds.None?
      && r.trace == [FetchCreds]
      && (GetDbCredentials(w.lookup).BinaryOnly? ==> r.outcome == Failed(CannotUnpack))
      && (GetDbCredentials(w.lookup).Exit? ==>
            r.outcome == Failed(Exited(GetDbCredentials(w.lookup).reason)))
  {
  }

  // ---------------------------------------------------------------------------
  // Connections

  /** The `try` statement with the cached connection still open. */
  lemma GuardedReuses<R>(s: State, w: World, body: Conn -> Result<R, Exc>)
    requires !NeedsConnect(s.connection, w)
    ensures var g := Guarded(s, w, body);
      && g.state.connection == s.connection
      && |g.trace| > 0 && g.trace[0] == RunBody(s.connection.value)
      && Connect !in g.trace
  {
    var t := TryBlock(s.connection, w, body);
    var e := ExceptClause(t, w);
    GuardedShape(s, w, body);
    assert Connect !in t.trace;
    assert Connect !in e.trace;
  }

  /** The `try` statement when it has to connect. */
  lemma GuardedConnects<R>(s: State, w: World, body: Conn -> Result<R, Exc>)
    requires NeedsConnect(s.connection, w)
    ensures var g := Guarded(s, w, body);
      && |g.trace| > 0 && g.trace[0] == Connect
      && (w.connect.Ok? ==>
            g.state.connection == Some(w.connect.value)
            && |g.trace| > 1 && g.trace[1] == RunBody(w.connect.value))
      && (w.connect.Err? ==> g.state.connection == s.connection && forall c :: RunBody(c) !in g.trace)
  {
    var t := TryBlock(s.connection, w, body);
    var e := ExceptClause(t, w);
    GuardedShape(s, w, body);
    if w.connect.Err? {
      assert t.trace == [Connect];
      assert forall c :: RunBody(c) !in e.trace;
    } else {
      var b := BodyAndCommit(w.connect.value, w, body);
      assert t.trace == [Connect] + b.trace;
    }
  }

  /** A connection is opened exactly when there is none or the cached one
      reports itself closed; otherwise the cached one is what the body gets. */
  lemma ConnectOnlyWhenNeeded<R>(s: State, w: World, body: Conn -> Result<R, Exc>)
    requires CredentialsReady(s, w)
    ensures var r := Step(s, w, body);
      && (Connect in r.trace <==> NeedsConnect(s.connection, w))
      && (!NeedsConnect(s.connection, w) ==>
            r.state.connection == s.connection && RunBody(s.connection.value) in r.trace)
      && (NeedsConnect(s.connection, w) && w.connect.Ok? ==>
            r.state.connection == Some(w.connect.value) && RunBody(w.connect.value) in r.trace)
      && (NeedsConnect(s.connection, w) && w.connect.Err? ==>
            r.state.connection == s.connection && forall c :: RunBody(c) !in r.trace)
  {
    StepUnfolds(s, w, body);
    var ls := Loaded(s, w);
    var g := Guarded(ls, w, body);
    var pre: seq<Event> := if s.creds.None? then [FetchCreds] else [];
    assert Step(s, w, body).trace == pre + g.trace;
    if NeedsConnect(s.connection, w) {
      GuardedConnects(ls, w, body);
      assert (pre + g.trace)[|pre|] == Connect;
      if w.connect.Ok? {
        assert (pre + g.trace)[|pre| + 1] == RunBody(w.connect.value);
      }
    } else {
      GuardedReuses(ls, w, body);
      assert (pre + g.trace)[|pre|] == RunBody(s.connection.value);
    }
  }

  // ---------------------------------------------------------------------------
  // Commit, rollback and reset

  /** The pending result when the `try` statement is left, and who decided it. */
  lemma GuardedShape<R>(s: State, w: World, body: Conn -> Result<R, Exc>)
    ensures var t := TryBlock(s.connection, w, body);
      var e := ExceptClause(t, w);
      var g := Guarded(s, w, body);
      && e.connection == t.connection && g.state.connection == t.connection
      && (t.connection.Some? ==> g.trace == e.trace + [Reset(t.connection.value)])
      && (t.connection.None? ==> g.trace == e.trace)
  {
  }

  /** The connection the `try` block hands to the body: the cached one, or a
      new one when a connect is needed and succeeds; none when it raises. */
  function UsedConnection(connection: Option<Conn>, w: World): (u: Option<Conn>)
    ensures u.None? <==> NeedsConnect(connection, w) && w.connect.Err?
    ensures !NeedsConnect(connection, w) ==> u == connection
  {
    if NeedsConnect(connection, w) then
      if w.connect.Ok? then Some(w.connect.value) else None
    else connection
  }

  /** When the body returns and the commit succeeds, the transaction commits and
      then resets its connection and never rolls back. It returns the body's
      value, unless the reset raises: then that exception is what it raises. */
  lemma SuccessCommitsThenResets<R>(s: State, w: World, body: Conn -> Result<R, Exc>)
    requires CredentialsReady(s, w) && UsedConnection(s.connection, w).Some?
    requires body(UsedConnection(s.connection, w).value).Ok? && w.commit.None?
    ensures var c := UsedConnection(s.connection, w).value;
      var r := Step(s, w, body);
      && r.state.connection == Some(c)
      && |r.trace| >= 3
      && r.trace[|r.trace| - 3..] == [RunBody(c), Commit(c), Reset(c)]
      && (forall c' :: Rollback(c') !in r.trace)
      && (w.reset.None? ==> r.outcome == Returned(body(c).value))
      && (w.reset.Some? ==> r.outcome == Failed(Raised(w.reset.value)))
  {
    var ls := Loaded(s, w);
    GuardedCommitted(ls, w, body);
    StepUnfolds(s, w, body);
    TraceLift(Step(s, w, body).trace, Guarded(Loaded(s, w), w, body).trace, s.creds.None?, 3);
  }

  /** A transaction that returns is one whose body returned and whose commit
      and reset succeeded. */
  lemma ReturnedMeansCommitted<R>(s: State, w: World, body: Conn -> Result<R, Exc>)
    requires Step(s, w, body).outcome.Returned?
    ensures CredentialsReady(s, w) && UsedConnection(s.connection, w).Some?
    ensures body(UsedConnection(s.connection, w).value).Ok?
    ensures w.commit.None? && w.reset.None?
  {
    ReturnedMeansReady(s, w, body);
    StepUnfolds(s, w, body);
    var ls := Loaded(s, w);
    GuardedShape(ls, w, body);
    TryCompleted(ls.connection, w, body);
  }

  /** The `try` statement when the body returns and the commit succeeds. */
  lemma GuardedCommitted<R>(s: State, w: World, body: Conn -> Result<R, Exc>)
    requires UsedConnection(s.connection, w).Some?
    requires body(UsedConnection(s.connection, w).value).Ok? && w.commit.None?
    ensures var c := UsedConnection(s.connection, w).value;
      var g := Guarded(s, w, body);
      && g.state.connection == Some(c)
      && |g.trace| >= 3 && g.trace[|g.trace| - 3..] == [RunBody(c), Commit(c), Reset(c)]
      && (forall c' :: Rollback(c') !in g.trace)
      && g.outcome == (if w.reset.Some? then Failed(Raised(w.reset.value)) else Returned(body(c).value))
  {
    var c := UsedConnection(s.connection, w).value;
    var cx: seq<Event> := if NeedsConnect(s.connection, w) then [Connect] else [];
    TryCommitted(s.connection, w, body);
    GuardedShape(s, w, body);
    EndsCommitted(Guarded(s, w, body).trace, cx, c);
  }

  /** The `try` block when the body returns and the commit succeeds. */
  lemma TryCommitted<R>(connection: Option<Conn>, w: World, body: Conn -> Result<R, Exc>)
    requires UsedConnection(connection, w).Some?
    requires body(UsedConnection(connection, w).value).Ok? && w.commit.None?
    ensures var c := UsedConnection(connection, w).value;
      var t := TryBlock(connection, w, body);
      && t.connection == Some(c) && t.result == body(c)
      && t.trace == (if NeedsConnect(connection, w) then [Connect] else []) + [RunBody(c), Commit(c)]
  {
  }

  /** The calls of a transaction are the fetch, if any, then those of its
      `try` statement. */
  lemma TraceLift(r: seq<Event>, g: seq<Event>, fetched: bool, k: nat)
    requires r == (if fetched then [FetchCreds] else []) + g && k <= |g|
    ensures |r| >= k && r[|r| - k..] == g[|g| - k..]
    ensures forall e :: e in r && e != FetchCreds ==> e in g
  {
    var pre: seq<Event> := if fetched then [FetchCreds] else [];
    assert r[|pre|..] == g;
    assert r[|r| - k..] == r[|pre|..][|g| - k..];
  }

  lemma ReturnedMeansReady<R>(s: State, w: World, body: Conn -> Result<R, Exc>)
    requires Step(s, w, body).outcome.Returned?
    ensures CredentialsReady(s, w)
  {
  }

  lemma EndsCommitted(t: seq<Event>, front: seq<Event>, c: Conn)
    requires front == [] || front == [Connect]
    requires t == front + [RunBody(c), Commit(c)] + [Reset(c)]
    ensures |t| >= 3 && t[|t| - 3..] == [RunBody(c), Commit(c), Reset(c)]
    ensures forall c' :: Rollback(c') !in t
  {
  }

  /** A `try` block that completes has run the body and committed. */
  lemma TryCompleted<R>(connection: Option<Conn>, w: World, body: Conn -> Result<R, Exc>)
    requires TryBlock(connection, w, body).result.Ok?
    ensures var t := TryBlock(connection, w, body);
      && t.connection.Some?
      && var c := t.connection.value;
      && t.trace == (if NeedsConnect(connection, w) then [Connect] else []) + [RunBody(c), Commit(c)]
      && body(c) == Ok(t.result.value)
  {
  }

  /** When the body, the connect or the commit raises an `Exception` while a
      connection is held, the manager rolls back and then resets, and what it
      raises is that very exception object unless the rollback or the reset
      raised one of its own. */
  lemma ExceptionRollsBackThenResets<R>(s: State, w: World, body: Conn -> Result<R, Exc>)
    requires CredentialsReady(s, w)
    requires var t := TryBlock(Loaded(s, w).connection, w, body);
      t.result.Err? && t.result.error.isException && t.connection.Some?
    ensures var t := TryBlock(Loaded(s, w).connection, w, body);
      var r := Step(s, w, body);
      var c := t.connection.value;
      && r.state.connection == Some(c)
      && |r.trace| >= 2 && r.trace[|r.trace| - 2..] == [Rollback(c), Reset(c)]
      && r.outcome == Failed(Raised(
           if w.reset.Some? then w.reset.value
           else if w.rollback.Some? then w.rollback.value
           else t.result.error))
  {
    GuardedRollsBack(Loaded(s, w), w, body);
    StepUnfolds(s, w, body);
    TraceLift(Step(s, w, body).trace, Guarded(Loaded(s, w), w, body).trace, s.creds.None?, 2);
  }

  /** The `try` statement when an `Exception` is pending with a connection held. */
  lemma GuardedRollsBack<R>(s: State, w: World, body: Conn -> Result<R, Exc>)
    requires var t := TryBlock(s.connection, w, body);
      t.result.Err? && t.result.error.isException && t.connection.Some?
    ensures var t := TryBlock(s.connection, w, body);
      var g := Guarded(s, w, body);
      var c := t.connection.value;
      && g.state.connection == Some(c)
      && |g.trace| >= 2 && g.trace[|g.trace| - 2..] == [Rollback(c), Reset(c)]
      && g.outcome == Failed(Raised(
           if w.reset.Some? then w.reset.value
           else if w.rollback.Some? then w.rollback.value
           else t.result.error))
  {
    GuardedShape(s, w, body);
  }

  /** On a cold start, a connect that raises leaves nothing to roll back or
      reset: the transaction raises the connect's own exception. */
  lemma ColdConnectFailureReraises<R>(s: State, w: World, body: Conn -> Result<R, Exc>)
    requires CredentialsReady(s, w) && s.connection.None? && w.connect.Err?
    ensures var r := Step(s, w, body);
      && r.outcome == Failed(Raised(w.connect.error))
      && r.state.connection.None?
      && (forall c :: Rollback(c) !in r.trace && Reset(c) !in r.trace && RunBody(c) !in r.trace)
  {
    StepUnfolds(s, w, body);
  }

  /** A bare `BaseException` is not handled: no rollback, but the reset still
      runs and the exception goes on unchanged unless the reset raised. */
  lemma BaseExceptionOnlyResets<R>(s: State, w: World, body: Conn -> Result<R, Exc>)
    requires CredentialsReady(s, w)
    requires var t := TryBlock(Loaded(s, w).connection, w, body);
      t.result.Err? && !t.result.error.isException
    ensures var t := TryBlock(Loaded(s, w).connection, w, body);
      var r := Step(s, w, body);
      && (forall c :: Rollback(c) !in r.trace)
      && (t.connection.Some? ==> r.trace[|r.trace| - 1] == Reset(t.connection.value))
      && r.outcome == Failed(Raised(
           if t.connection.Some? && w.reset.Some? then w.reset.value else t.result.error))
  {
    var ls := Loaded(s, w);
    GuardedOnlyResets(ls, w, body);
    StepUnfolds(s, w, body);
    TraceLift(Step(s, w, body).trace, Guarded(ls, w, body).trace, s.creds.None?, 1);
  }

  /** The `try` statement when a bare `BaseException` is pending. */
  lemma GuardedOnlyResets<R>(s: State, w: World, body: Conn -> Result<R, Exc>)
    requires var t := TryBlock(s.connection, w, body);
      t.result.Err? && !t.result.error.isException
    ensures var t := TryBlock(s.connection, w, body);
      var g := Guarded(s, w, body);
      && (forall c :: Rollback(c) !in g.trace)
      && (t.connection.Some? ==> g.trace[|g.trace| - 1] == Reset(t.connection.value))
      && g.outcome == Failed(Raised(
           if t.connection.Some? && w.reset.Some? then w.reset.value else t.result.error))
  {
    GuardedShape(s, w, body);
    NoRollbackInTry(s.connection, w, body);
  }

  lemma NoRollbackInTry<R>(connection: Option<Conn>, w: World, body: Conn -> Result<R, Exc>)
    ensures forall c :: Rollback(c) !in TryBlock(connection, w, body).trace
  {
    if NeedsConnect(connection, w) && w.connect.Ok? {
      var b := BodyAndCommit(w.connect.value, w, body);
      assert forall c :: Rollback(c) !in b.trace;
    }
  }

  /** The reset runs on every way out of the `try` statement whenever a
      connection is held, as the last call made. */
  lemma ResetWheneverConnected<R>(s: State, w: World, body: Conn -> Result<R, Exc>)
    requires CredentialsReady(s, w)
    ensures var r := Step(s, w, body);
      && (r.state.connection.Some? ==>
            |r.trace| > 0 && r.trace[|r.trace| - 1] == Reset(r.state.connection.value))
      && (r.state.connection.None? ==> forall c :: Reset(c) !in r.trace)
  {
    StepUnfolds(s, w, body);
    var ls := Loaded(s, w);
    GuardedShape(ls, w, body);
    NoResetBeforeFinally(ls.connection, w, body);
  }

  lemma NoResetBeforeFinally<R>(connection: Option<Conn>, w: World, body: Conn -> Result<R, Exc>)
    ensures forall c :: Reset(c) !in ExceptClause(TryBlock(connection, w, body), w).trace
  {
    if NeedsConnect(connection, w) && w.connect.Ok? {
      var b := BodyAndCommit(w.connect.value, w, body);
      assert forall c :: Reset(c) !in b.trace;
    }
  }

  /** A cached connection that reports itself closed and cannot be replaced
      stays in place: it is rolled back (the connect raised an `Exception`)
      and reset, and the connect's exception is raised unless those raise. */
  lemma StaleConnectionStillReset<R>(s: State, w: World, body: Conn -> Result<R, Exc>)
    requires CredentialsReady(s, w)
    requires s.connection.Some? && w.closed > 0
    requires w.connect.Err? && w.connect.error.isException
    ensures var r := Step(s, w, body);
      var stale := s.connection.value;
      && r.state.connection == Some(stale)
      && r.trace == (if s.creds.None? then [FetchCreds] else []) + [Connect, Rollback(stale), Reset(stale)]
      && r.outcome == Failed(Raised(
           if w.reset.Some? then w.reset.value
           else if w.rollback.Some? then w.rollback.value
           else w.connect.error))
  {
    StepUnfolds(s, w, body);
  }

  // ---------------------------------------------------------------------------
  // The decorator

  /** The body `transaction(func)` runs: `func` with the connection first. */
  function Decorate<A, R>(func: (Conn, A) -> Result<R, Exc>, args: A): (body: Conn -> Result<R, Exc>)
    ensures forall c :: body(c) == func(c, args)
  {
    c => func(c, args)
  }

  /** A decorated call that returns hands back what `func` returned when given
      the transaction's connection. */
  lemma DecoratedResult<A, R>(s: State, w: World, func: (Conn, A) -> Result<R, Exc>, args: A)
    requires Step(s, w, Decorate(func, args)).outcome.Returned?
    ensures var r := Step(s, w, Decorate(func, args));
      && r.state.connection.Some?
      && RunBody(r.state.connection.value) in r.trace
      && func(r.state.connection.value, args) == Ok(r.outcome.value)
  {
    ReturnedMeansCommitted(s, w, Decorate(func, args));
    SuccessCommitsThenResets(s, w, Decorate(func, args));
    var r := Step(s, w, Decorate(func, args));
    assert r.trace[|r.trace| - 3] == RunBody(r.state.connection.value);
  }

  // ---------------------------------------------------------------------------
  // Many transactions in one process

  /** One transaction of a sequence: what the world answers and what the body does. */
  datatype Call<R> = Call(world: World, body: Conn -> Result<R, Exc>)

  /** The globals after a sequence of transactions, and all the calls made. */
  function RunMany<R>(s: State, calls: seq<Call<R>>): (r: (State, seq<Event>))
    ensures |r.1| >= |calls|
    decreases |calls|
  {
    if calls == [] then (s, [])
    else
      var first := Step(s, calls[0].world, calls[0].body);
      StepBasics(s, calls[0].world, calls[0].body);
      var rest := RunMany(first.state, calls[1..]);
      (rest.0, first.trace + rest.1)
  }

  /** Once the credentials are cached, no later transaction fetches them and
      they never change. */
  lemma {:induction false} NoFetchOnceCached<R>(s: State, calls: seq<Call<R>>)
    requires s.creds.Some?
    ensures FetchCreds !in RunMany(s, calls).1
    ensures RunMany(s, calls).0.creds == s.creds
    decreases |calls|
  {
    if calls != [] {
      FetchOnlyWhenUncached(s, calls[0].world, calls[0].body);
      NoFetchOnceCached(Step(s, calls[0].world, calls[0].body).state, calls[1..]);
    }
  }

  /** The first transaction that gets the credentials is the last to fetch:
      a process fetches until it succeeds once, and never after. */
  lemma FetchesStopAfterSuccess<R>(s: State, calls: seq<Call<R>>)
    requires calls != [] && CredentialsReady(s, calls[0].world)
    ensures FetchCreds !in RunMany(s, calls).1[|Step(s, calls[0].world, calls[0].body).trace|..]
  {
    var first := Step(s, calls[0].world, calls[0].body);
    if s.creds.None? {
      StepUnfolds(s, calls[0].world, calls[0].body);
    }
    FetchOnlyWhenUncached(s, calls[0].world, calls[0].body);
    NoFetchOnceCached(first.state, calls[1..]);
    assert RunMany(s, calls).1[|first.trace|..] == RunMany(first.state, calls[1..]).1;
  }

  /** Two transactions in a row with the connection reported open share the
      one connection. */
  lemma ConnectionReused<R>(s: State, w1: World, w2: World, b1: Conn -> Result<R, Exc>,
                            b2: Conn -> Result<R, Exc>)
    requires CredentialsReady(s, w1)
    requires Step(s, w1, b1).state.connection.Some? && w2.closed <= 0
    ensures var r1 := Step(s, w1, b1);
      var r2 := Step(r1.state, w2, b2);
      && r2.state.connection == r1.state.connection
      && Connect !in r2.trace
      && RunBody(r1.state.connection.value) in r2.trace
  {
    var r1 := Step(s, w1, b1);
    FetchOnlyWhenUncached(s, w1, b1);
    if s.creds.None? {
      StepUnfolds(s, w1, b1);
    }
    assert r1.state.creds.Some?;
    ConnectOnlyWhenNeeded(r1.state, w2, b2);
  }

  // ---------------------------------------------------------------------------
  // The module globals

  /** The globals `db_user`, `db_password` and `connection` of one process,
      with the calls made so far. */
  class Session {
    var creds: Option<(string, string)>
    var connection: Option<Conn>
    ghost var trace: seq<Event>

    function Globals(): State
      reads this
    {
      State(creds, connection)
    }

    /** A process starts with nothing cached. */
    constructor ()
      ensures creds == None && connection == None && trace == []
    {
      creds := None;
      connection := None;
      trace := [];
    }

    /** `with transaction_wrapper() as conn:` around `body`. */
    method TransactionWrapper<R>(w: World, body: Conn -> Result<R, Exc>) returns (outcome: Outcome<R>)
      modifies this
      ensures var r := Step(old(Globals()), w, body);
        && Globals() == r.state && outcome == r.outcome && trace == old(trace) + r.trace
    {
      ghost var start := Globals();
      ghost var before := trace;
      if creds.None? {
        trace := trace + [FetchCreds];
        var reply := GetDbCredentials(w.lookup);
        match reply
        case Exit(reason) =>
          CredentialFailureStopsEarly(start, w, body);
          return Failed(Exited(reason));
        case BinaryOnly(_) =>
          CredentialFailureStopsEarly(start, w, body);
          return Failed(CannotUnpack);
        case UserPassword(user, password) =>
          creds := Some((user, password));
      }
      ghost var fetched: seq<Event> := if start.creds.None? then [FetchCreds] else [];
      assert Globals() == Loaded(start, w) && trace == before + fetched;
      outcome := TryStatement(w, body);
      StepUnfolds(start, w, body);
      assert trace == before + (fetched + Guarded(Loaded(start, w), w, body).trace);
    }

    /** The `try` statement with its `except` and `finally` clauses. */
    method TryStatement<R>(w: World, body: Conn -> Result<R, Exc>) returns (outcome: Outcome<R>)
      modifies this
      ensures var g := Guarded(old(Globals()), w, body);
        && Globals() == g.state && outcome == g.outcome && trace == old(trace) + g.trace
    {
      var result, events := TryPart(w, body);
      result, events := ExceptPart(result, events, w);
      result, events := FinallyPart(result, events, w);
      trace := trace + events;
      outcome := ToOutcome(result);
    }

    /** The `try` block: connect when needed, then the body and the commit. */
    method TryPart<R>(w: World, body: Conn -> Result<R, Exc>)
      returns (result: Result<R, Exc>, ghost events: seq<Event>)
      modifies this
      ensures creds == old(creds) && trace == old(trace)
      ensures Phase(connection, events, result) == TryBlock(old(connection), w, body)
    {
      events := [];
      var connectFailed := false;
      if connection.None? || w.closed > 0 {
        events := events + [Connect];
        match w.connect
        case Err(e) =>
          result := Err(e);
          connectFailed := true;
        case Ok(c) =>
          connection := Some(c);
      }
      if !connectFailed {
        var c := connection.value;
        ghost var more;
        result, more := BodyPart(c, w, body);
        events := events + more;
      }
    }

    /** The body at the `yield`, then `commit` when it completes. */
    method BodyPart<R>(c: Conn, w: World, body: Conn -> Result<R, Exc>)
      returns (result: Result<R, Exc>, ghost events: seq<Event>)
      ensures result.Ok? <==> body(c).Ok? && w.commit.None?
      ensures result.Ok? ==> result == body(c)
      ensures Phase(Some(c), events, result) == BodyAndCommit(c, w, body)
    {
      events := [RunBody(c)];
      result := body(c);
      if result.Ok? {
        events := events + [Commit(c)];
        if w.commit.Some? {
          result := Err(w.commit.value);
        }
      }
    }

    /** `except Exception`: roll back and re-raise. */
    method ExceptPart<R>(pending: Result<R, Exc>, ghost events: seq<Event>, w: World)
      returns (result: Result<R, Exc>, ghost events': seq<Event>)
      ensures result.Ok? <==> pending.Ok?
      ensures pending.Ok? || !pending.error.isException || connection.None? ==> result == pending
      ensures Phase(connection, events', result) == ExceptClause(Phase(connection, events, pending), w)
    {
      result, events' := pending, events;
      if result.Err? && result.error.isException && connection.Some? {
        events' := events' + [Rollback(connection.value)];
        if w.rollback.Some? {
          result := Err(w.rollback.value);
        }
      }
    }

    /** `finally`: reset the connection. */
    method FinallyPart<R>(pending: Result<R, Exc>, ghost events: seq<Event>, w: World)
      returns (result: Result<R, Exc>, ghost events': seq<Event>)
      ensures result.Ok? ==> result == pending
      ensures connection.None? ==> result == pending
      ensures Phase(connection, events', result) == FinallyClause(Phase(connection, events, pending), w)
    {
      result, events' := pending, events;
      if connection.Some? {
        events' := events' + [Reset(connection.value)];
        if w.reset.Some? {
          result := Err(w.reset.value);
        }
      }
    }

    /** A call of a function decorated with `@transaction`. */
    method Transaction<A, R>(w: World, func: (Conn, A) -> Result<R, Exc>, args: A)
      returns (outcome: Outcome<R>)
      modifies this
      ensures var r := Step(old(Globals()), w, Decorate(func, args));
        && Globals() == r.state && outcome == r.outcome && trace == old(trace) + r.trace
    {
      outcome := TransactionWrapper(w, Decorate(func, args));
    }
  }
}
