/**
 * The template: execute acquires a session, hands the callback the native
 * session or a logout-suppressing proxy, translates what the callback
 * throws, and releases the session unless it is bound to the current
 * context; the dump, query and rename operations are callbacks run by it.
 */
module Template {
  import opened Wrappers
  import opened Exceptions
  import opened LinkedMaps
  import opened Content
  import opened Paths
  import opened QueryResults
  import opened Queries
  import opened Dumper
  import opened SessionProxy
  import opened Sessions
  import opened Sequences

  /** The callbacks execute runs: code supplied by a caller, or one of the template's own. */
  datatype JcrCallback =
      /** Caller code: the calls it makes on the session it is given, then its result from their replies. */
    | Script(calls: Handle -> seq<Invocation>, finish: (Handle, seq<Result<Value, Exn>>) -> Result<Value, Exn>)
    | DumpCallback(start: Option<Node>)
    | NodeQueryCallback(node: Node)
    | StatementQueryCallback(statement: string, language: Option<string>)
    | BatchQueryCallback(statements: seq<string>, language: Option<string>, ignoreErrors: bool)
      /** rename's callback, given the node's path, or None for a null node. */
    | RenameCallback(path: Option<string>, newName: string)

  function FoundOr(r: Result<QueryResult, Exn>): Result<Value, Exn> {
    if r.Ok? then Ok(Found(r.value)) else Err(r.error)
  }

  /**
   * The destination rename moves a node at `path` to, as the template builds
   * it: the parent's path, a '/', the new name; the root has no parent.
   */
  function MoveDestination(path: string, newName: string): Result<string, Exn> {
    match Parent(path)
    case None => Err(RepositoryException("the root node has no parent"))
    case Some(parentPath) => Ok(RenameDestinationAsWritten(parentPath, newName))
  }

  /** The destination rename means to move to: the sibling called `newName`. */
  function CorrectedMoveDestination(path: string, newName: string): Result<string, Exn> {
    match Parent(path)
    case None => Err(RepositoryException("the root node has no parent"))
    case Some(parentPath) => Ok(RenameDestination(parentPath, newName))
  }

  /**
   * doInJcr on the handle `h`: the callback's result or exception, and the
   * sessions still open afterwards. Only the handle's session can be closed,
   * and through a proxy none is.
   */
  function CallbackRun(repo: Repository, live: set<SessionId>, h: Handle, action: JcrCallback): (r: (Result<Value, Exn>, set<SessionId>))
    ensures r.1 <= live && live - {Target(h)} <= r.1
    ensures h.Proxied? ==> r.1 == live
  {
    match action
    case Script(calls, finish) =>
      var p := RunCalls(repo, live, h, calls(h));
      (finish(h, p.0), p.1)
    case DumpCallback(start) =>
      (Ok(Text(Render(if start.Some? then start.value else repo.root))), live)
    case NodeQueryCallback(node) =>
      (FoundOr(RunNodeQuery(repo.queries, node)), live)
    case StatementQueryCallback(statement, language) =>
      (FoundOr(RunStatement(repo.queries, statement, QueryLanguage(language))), live)
    case BatchQueryCallback(statements, language, ignoreErrors) =>
      var b := Batch(repo.queries, QueryLanguage(language), ignoreErrors, statements, 0, Empty());
      (if b.Ok? then Ok(Results(b.value)) else Err(b.error), live)
    case RenameCallback(path, newName) =>
      if path.None? then (Err(NullPointerException), live)
      else
        match MoveDestination(path.value, newName)
        case Err(e) => (Err(e), live)
        case Ok(dest) =>
          var moved := Call(repo, live, h, MethodCall("move", [Text(path.value), Text(dest)]));
          (if moved.0.Ok? then Ok(Null) else moved.0, moved.1)
  }

  /** The session handed to the callback: the native one exactly when asked for, otherwise a new proxy around it. */
  function Exposed(s: SessionId, exposeNative: bool, proxyId: nat): (h: Handle)
    ensures Target(h) == s
    ensures h.Native? <==> exposeNative
    ensures h.Proxied? ==> h.guard.id == proxyId
  {
    if exposeNative then Native(s) else Proxied(Guard(proxyId, s))
  }

  /** What one execute produces: its result, the sessions' state, and the count of proxies created. */
  datatype Run = Run(result: Result<Value, Exn>, state: SessionState, proxies: nat)

  /**
   * execute(action, exposeNative): acquire; remember whether the session was
   * bound; run the callback on the native session or a fresh proxy; on
   * failure translate; in every case release the session unless it was bound.
   */
  function ExecuteSpec(st: SessionState, repo: Repository, allowCreate: bool, exposeNative: bool, proxies: nat, action: JcrCallback): Run {
    match Acquire(st, repo, allowCreate)
    case Err(e) => Run(Err(e), st, proxies)
    case Ok(s) =>
      var existingTransaction := st.bound == Some(s);
      var acquired := AfterAcquire(st, s);
      var out := CallbackRun(repo, acquired.live, Exposed(s, exposeNative, proxies), action);
      var after := acquired.(live := out.1);
      Run(if out.0.Ok? then out.0 else Err(Escaping(out.0.error)),
          if existingTransaction then after else Release(after, s),
          if exposeNative then proxies else proxies + 1)
  }

  /** Several executions one after the other, with the same settings. */
  function ExecuteMany(st: SessionState, repo: Repository, allowCreate: bool, exposeNative: bool, proxies: nat, actions: seq<JcrCallback>): Run
    decreases |actions|
  {
    if actions == [] then Run(Ok(Null), st, proxies)
    else
      var first := ExecuteSpec(st, repo, allowCreate, exposeNative, proxies, actions[0]);
      ExecuteMany(first.state, repo, allowCreate, exposeNative, first.proxies, actions[1..])
  }

  /** (String) execute(...) */
  function AsText(r: Result<Value, Exn>): Result<string, Exn> {
    match r
    case Ok(Text(s)) => Ok(s)
    case Ok(_) => Err(RuntimeException("ClassCastException"))
    case Err(e) => Err(e)
  }

  /** (QueryResult) execute(...) */
  function AsQueryResult(r: Result<Value, Exn>): Result<QueryResult, Exn> {
    match r
    case Ok(Found(q)) => Ok(q)
    case Ok(_) => Err(RuntimeException("ClassCastException"))
    case Err(e) => Err(e)
  }

  /** (Map) execute(...) */
  function AsResultMap(r: Result<Value, Exn>): Result<ResultMap, Exn> {
    match r
    case Ok(Results(m)) => Ok(m)
    case Ok(_) => Err(RuntimeException("ClassCastException"))
    case Err(e) => Err(e)
  }

  /** An operation without a result: the exception it threw, if any. */
  function Thrown(r: Result<Value, Exn>): Option<Exn> {
    if r.Err? then Some(r.error) else None
  }

  class JcrTemplate {
    const factory: SessionFactory
    var allowCreate: bool
    var exposeNativeSession: bool
    /** Logout-suppressing proxies created so far; the next one gets this number as its identity. */
    var proxies: nat

    /** Both settings start false: no session is created outside a context, and callbacks see a proxy. */
    constructor(factory: SessionFactory)
      ensures this.factory == factory
      ensures !allowCreate && !exposeNativeSession && proxies == 0
    {
      this.factory := factory;
      allowCreate := false;
      exposeNativeSession := false;
      proxies := 0;
    }

    method SetAllowCreate(allowCreate: bool)
      modifies this`allowCreate
      ensures this.allowCreate == allowCreate
    {
      this.allowCreate := allowCreate;
    }

    method SetExposeNativeSession(exposeNativeSession: bool)
      modifies this`exposeNativeSession
      ensures this.exposeNativeSession == exposeNativeSession
    {
      this.exposeNativeSession := exposeNativeSession;
    }

    /** createSessionProxy: a new proxy, distinct from every earlier one, forwarding to `s`. */
    method CreateSessionProxy(s: SessionId) returns (h: Handle)
      modifies this`proxies
      ensures h == Proxied(Guard(old(proxies), s)) && proxies == old(proxies) + 1
    {
      h := Proxied(Guard(proxies, s));
      proxies := proxies + 1;
    }

    /** action.doInJcr(sessionToExpose) */
    method DoInJcr(action: JcrCallback, h: Handle) returns (out: Result<Value, Exn>)
      modifies factory
      ensures var c := CallbackRun(factory.repo, old(factory.live), h, action);
        out == c.0 && factory.State() == old(factory.State()).(live := c.1)
    {
      match action {
        case Script(calls, finish) =>
          var replies := factory.Perform(h, calls(h));
          out := finish(h, replies);
        case DumpCallback(start) =>
          var nd := if start.Some? then start.value else factory.repo.root;
          var text := DumpNode(nd);
          out := Ok(Text(text));
        case NodeQueryCallback(node) =>
          out := FoundOr(RunNodeQuery(factory.repo.queries, node));
        case StatementQueryCallback(statement, language) =>
          out := FoundOr(RunStatement(factory.repo.queries, statement, QueryLanguage(language)));
        case BatchQueryCallback(statements, language, ignoreErrors) =>
          var b := RunBatch(factory.repo.queries, QueryLanguage(language), ignoreErrors, statements);
          out := if b.Ok? then Ok(Results(b.value)) else Err(b.error);
        case RenameCallback(path, newName) =>
          if path.None? {
            out := Err(NullPointerException);
          } else {
            var dest := MoveDestination(path.value, newName);
            if dest.Err? {
              out := Err(dest.error);
            } else {
              var moved := factory.Send(h, MethodCall("move", [Text(path.value), Text(dest.value)]));
              out := if moved.Ok? then Ok(Null) else moved;
            }
          }
      }
    }

    /** execute(action, exposeNativeSession) */
    method Execute(action: JcrCallback, exposeNative: bool) returns (r: Result<Value, Exn>)
      modifies factory, this`proxies
      ensures Run(r, factory.State(), proxies) ==
        ExecuteSpec(old(factory.State()), factory.repo, allowCreate, exposeNative, old(proxies), action)
    {
      var acquired := factory.GetSession(allowCreate);
      if acquired.Err? {
        return Err(acquired.error);
      }
      var session := acquired.value;
      var existingTransaction := factory.IsSessionBound(session);
      var sessionToExpose: Handle;
      if exposeNative {
        sessionToExpose := Native(session);
      } else {
        sessionToExpose := CreateSessionProxy(session);
      }
      var outcome := DoInJcr(action, sessionToExpose);
      if outcome.Ok? {
        r := outcome;
      } else if Caught(outcome.error) {
        r := Err(Convert(outcome.error));
      } else {
        r := outcome;
      }
      // the finally block
      if !existingTransaction {
        factory.ReleaseSession(session);
      }
    }

    /** execute(action): with the configured exposeNativeSession. */
    method ExecuteConfigured(action: JcrCallback) returns (r: Result<Value, Exn>)
      modifies factory, this`proxies
      ensures Run(r, factory.State(), proxies) ==
        ExecuteSpec(old(factory.State()), factory.repo, allowCreate, exposeNativeSession, old(proxies), action)
    {
      r := Execute(action, exposeNativeSession);
    }

    /** dump(node): the dump of `node`, or of the root node when it is null. */
    method Dump(node: Option<Node>) returns (r: Result<string, Exn>)
      modifies factory, this`proxies
      ensures var run := ExecuteSpec(old(factory.State()), factory.repo, allowCreate, true, old(proxies), DumpCallback(node));
        r == AsText(run.result) && factory.State() == run.state && proxies == run.proxies
    {
      var v := Execute(DumpCallback(node), true);
      r := AsText(v);
    }

    /** query(node): a null node is refused before any session is acquired. */
    method QueryNode(node: Option<Node>) returns (r: Result<QueryResult, Exn>)
      modifies factory, this`proxies
      ensures node == None ==> (r == Err(IllegalArgumentException("node can't be null")) &&
        factory.State() == old(factory.State()) && proxies == old(proxies))
      ensures node != None ==>
        var run := ExecuteSpec(old(factory.State()), factory.repo, allowCreate, true, old(proxies), NodeQueryCallback(node.value));
        r == AsQueryResult(run.result) && factory.State() == run.state && proxies == run.proxies
    {
      if node.None? {
        return Err(IllegalArgumentException("node can't be null"));
      }
      var v := Execute(NodeQueryCallback(node.value), true);
      r := AsQueryResult(v);
    }

    /** query(statement, language): a null statement is refused before any session is acquired. */
    method Query(statement: Option<string>, language: Option<string>) returns (r: Result<QueryResult, Exn>)
      modifies factory, this`proxies
      ensures statement == None ==> (r == Err(IllegalArgumentException("statement can't be null")) &&
        factory.State() == old(factory.State()) && proxies == old(proxies))
      ensures statement != None ==>
        var run := ExecuteSpec(old(factory.State()), factory.repo, allowCreate, true, old(proxies), StatementQueryCallback(statement.value, language));
        r == AsQueryResult(run.result) && factory.State() == run.state && proxies == run.proxies
    {
      if statement.None? {
        return Err(IllegalArgumentException("statement can't be null"));
      }
      var v := Execute(StatementQueryCallback(statement.value, language), true);
      r := AsQueryResult(v);
    }

    /** query(statement): with a null language, that is XPath. */
    method QueryStatement(statement: Option<string>) returns (r: Result<QueryResult, Exn>)
      modifies factory, this`proxies
      ensures statement == None ==> (r == Err(IllegalArgumentException("statement can't be null")) &&
        factory.State() == old(factory.State()) && proxies == old(proxies))
      ensures statement != None ==>
        var run := ExecuteSpec(old(factory.State()), factory.repo, allowCreate, true, old(proxies), StatementQueryCallback(statement.value, None));
        r == AsQueryResult(run.result) && factory.State() == run.state && proxies == run.proxies
    {
      r := Query(statement, None);
    }

    /** query(list, language, ignoreErrors): a null list is refused before any session is acquired. */
    method QueryList(list: Option<seq<string>>, language: Option<string>, ignoreErrors: bool) returns (r: Result<ResultMap, Exn>)
      modifies factory, this`proxies
      ensures list == None ==> (r == Err(IllegalArgumentException("list can't be null")) &&
        factory.State() == old(factory.State()) && proxies == old(proxies))
      ensures list != None ==>
        var run := ExecuteSpec(old(factory.State()), factory.repo, allowCreate, true, old(proxies), BatchQueryCallback(list.value, language, ignoreErrors));
        r == AsResultMap(run.result) && factory.State() == run.state && proxies == run.proxies
    {
      if list.None? {
        return Err(IllegalArgumentException("list can't be null"));
      }
      var v := Execute(BatchQueryCallback(list.value, language, ignoreErrors), true);
      r := AsResultMap(v);
    }

    /** query(list): XPath, and any failure aborts the batch. */
    method QueryListDefault(list: Option<seq<string>>) returns (r: Result<ResultMap, Exn>)
      modifies factory, this`proxies
      ensures list == None ==> (r == Err(IllegalArgumentException("list can't be null")) &&
        factory.State() == old(factory.State()) && proxies == old(proxies))
      ensures list != None ==>
        var run := ExecuteSpec(old(factory.State()), factory.repo, allowCreate, true, old(proxies), BatchQueryCallback(list.value, None, false));
        r == AsResultMap(run.result) && factory.State() == run.state && proxies == run.proxies
    {
      r := QueryList(list, None, false);
    }

    /** rename(node, newName): moves the node at `path` (None for a null node) to the path built from its parent's and `newName`. */
    method Rename(path: Option<string>, newName: string) returns (thrown: Option<Exn>)
      modifies factory, this`proxies
      ensures var run := ExecuteSpec(old(factory.State()), factory.repo, allowCreate, true, old(proxies), RenameCallback(path, newName));
        thrown == Thrown(run.result) && factory.State() == run.state && proxies == run.proxies
    {
      var v := Execute(RenameCallback(path, newName), true);
      thrown := Thrown(v);
    }
  }

  // ---------------------------------------------------------------------
  // What execute guarantees

  /** A failed acquisition is execute's result: no session is opened or released, no proxy created. */
  lemma AcquireFailureChangesNothing(st: SessionState, repo: Repository, allowCreate: bool, exposeNative: bool, proxies: nat, action: JcrCallback)
    requires Acquire(st, repo, allowCreate).Err?
    ensures ExecuteSpec(st, repo, allowCreate, exposeNative, proxies, action) == Run(Err(Acquire(st, repo, allowCreate).error), st, proxies)
  {
  }

  /** Nothing leaves execute as a checked exception: a failed acquisition already arrives translated. */
  lemma ExecuteThrowsNothingChecked(st: SessionState, repo: Repository, allowCreate: bool, exposeNative: bool, proxies: nat, action: JcrCallback)
    ensures var r := ExecuteSpec(st, repo, allowCreate, exposeNative, proxies, action).result;
      r.Err? ==> !IsChecked(r.error)
  {
  }

  /**
   * The callback's value is returned as it is; a checked exception it throws
   * comes back wrapped in a DataAccessException, an unchecked one or an
   * Error comes back unchanged.
   */
  lemma ExecuteTranslatesCallbackOutcome(st: SessionState, repo: Repository, allowCreate: bool, exposeNative: bool, proxies: nat, action: JcrCallback)
    requires Acquire(st, repo, allowCreate).Ok?
    ensures var s := Acquire(st, repo, allowCreate).value;
      var out := CallbackRun(repo, AfterAcquire(st, s).live, Exposed(s, exposeNative, proxies), action).0;
      var r := ExecuteSpec(st, repo, allowCreate, exposeNative, proxies, action).result;
      (out.Ok? ==> r == out) &&
      (out.Err? && IsChecked(out.error) ==> r == Err(DataAccessException(out.error))) &&
      (out.Err? && !IsChecked(out.error) ==> r == out)
  {
  }

  /** A session bound to the context is the one used; it is never released, and no session is opened. */
  lemma BoundSessionNeverReleased(st: SessionState, repo: Repository, allowCreate: bool, exposeNative: bool, proxies: nat, action: JcrCallback)
    requires st.bound.Some?
    ensures var run := ExecuteSpec(st, repo, allowCreate, exposeNative, proxies, action);
      run.state.bound == st.bound && run.state.nextId == st.nextId && run.state.released == st.released
  {
  }

  /**
   * Outside a context, execute opens a session never seen before, releases it
   * exactly once, and returns with exactly the sessions open that were open
   * before: the new one is closed whatever the callback did.
   */
  lemma NewSessionReleasedExactlyOnce(st: SessionState, repo: Repository, allowCreate: bool, exposeNative: bool, proxies: nat, action: JcrCallback)
    requires Valid(st) && st.bound.None? && Acquire(st, repo, allowCreate).Ok?
    ensures var s := st.nextId;
      var run := ExecuteSpec(st, repo, allowCreate, exposeNative, proxies, action);
      Acquire(st, repo, allowCreate).value == s && s !in st.live && multiset(st.released)[s] == 0 &&
      run.state.bound == None && run.state.nextId == s + 1 &&
      run.state.released == st.released + [s] && multiset(run.state.released)[s] == 1 &&
      run.state.live == st.live
  {
    var s := st.nextId;
    assert s !in st.released;
    assert multiset(st.released)[s] == 0;
  }

  /** Only the acquired session can change between open and closed. */
  lemma OnlyItsSessionChanges(st: SessionState, repo: Repository, allowCreate: bool, exposeNative: bool, proxies: nat, action: JcrCallback)
    requires Acquire(st, repo, allowCreate).Ok?
    ensures var s := Acquire(st, repo, allowCreate).value;
      var run := ExecuteSpec(st, repo, allowCreate, exposeNative, proxies, action);
      forall x :: x != s ==> (x in run.state.live <==> x in st.live)
  {
  }

  /**
   * Through the proxy a callback cannot close any session: execute returns
   * with exactly the sessions open that were open before, so a session bound
   * to the context outlives every callback.
   */
  lemma ProxiedExecutionKeepsSessionsOpen(st: SessionState, repo: Repository, allowCreate: bool, proxies: nat, action: JcrCallback)
    requires Valid(st)
    ensures var run := ExecuteSpec(st, repo, allowCreate, false, proxies, action);
      run.state.live == st.live && run.proxies == proxies + (if Acquire(st, repo, allowCreate).Ok? then 1 else 0)
  {
    if st.bound.None? && Acquire(st, repo, allowCreate).Ok? {
      assert st.nextId !in st.live;
    }
  }

  /** With the native session exposed, a callback's logout does close the bound session: the case the proxy prevents. */
  lemma NativeLogoutClosesBoundSession(st: SessionState, repo: Repository, allowCreate: bool, proxies: nat, b: SessionId,
                                       finish: (Handle, seq<Result<Value, Exn>>) -> Result<Value, Exn>)
    requires st.bound == Some(b)
    ensures var run := ExecuteSpec(st, repo, allowCreate, true, proxies, Script(h => [MethodCall("logout", [])], finish));
      b !in run.state.live
  {
    var logout: Invocation := MethodCall("logout", []);
    assert RunCalls(repo, st.live, Native(b), [logout]).1 == st.live - {b};
  }

  /** execute keeps every session it mentions among those opened. */
  lemma ExecutePreservesValid(st: SessionState, repo: Repository, allowCreate: bool, exposeNative: bool, proxies: nat, action: JcrCallback)
    requires Valid(st)
    ensures Valid(ExecuteSpec(st, repo, allowCreate, exposeNative, proxies, action).state)
  {
    var run := ExecuteSpec(st, repo, allowCreate, exposeNative, proxies, action);
    if Acquire(st, repo, allowCreate).Ok? {
      var s := Acquire(st, repo, allowCreate).value;
      assert s < AfterAcquire(st, s).nextId;
      assert forall k :: 0 <= k < |run.state.released| ==> run.state.released[k] in st.released || run.state.released[k] == s;
    }
  }

  /** Within a context, any number of executions open no session and release none. */
  lemma {:induction false} InContextNothingOpenedOrReleased(st: SessionState, repo: Repository, allowCreate: bool, exposeNative: bool, proxies: nat, actions: seq<JcrCallback>)
    requires st.bound.Some?
    ensures var run := ExecuteMany(st, repo, allowCreate, exposeNative, proxies, actions);
      run.state.bound == st.bound && run.state.nextId == st.nextId && run.state.released == st.released
    decreases |actions|
  {
    if actions != [] {
      var first := ExecuteSpec(st, repo, allowCreate, exposeNative, proxies, actions[0]);
      BoundSessionNeverReleased(st, repo, allowCreate, exposeNative, proxies, actions[0]);
      InContextNothingOpenedOrReleased(first.state, repo, allowCreate, exposeNative, first.proxies, actions[1..]);
    }
  }

  /** The session ids from, from + 1, ..., n of them. */
  function Range(from: nat, n: nat): (r: seq<SessionId>)
    ensures |r| == n && forall i :: 0 <= i < n ==> r[i] == from + i
    decreases n
  {
    if n == 0 then [] else [from] + Range(from + 1, n - 1)
  }

  /**
   * Outside a context, each execution opens a session of its own: after n
   * executions n sessions have been opened, none is bound, and the open
   * sessions are exactly those open before.
   */
  lemma {:induction false} OutsideContextNoSessionLeaks(st: SessionState, repo: Repository, exposeNative: bool, proxies: nat, actions: seq<JcrCallback>)
    requires Valid(st) && st.bound.None? && repo.loginAllowed
    ensures var run := ExecuteMany(st, repo, true, exposeNative, proxies, actions);
      Valid(run.state) && run.state.bound == None && run.state.nextId == st.nextId + |actions| &&
      run.state.live == st.live
    decreases |actions|
  {
    if actions != [] {
      var first := ExecuteSpec(st, repo, true, exposeNative, proxies, actions[0]);
      assert Valid(first.state) && first.state.bound == None && first.state.nextId == st.nextId + 1 && first.state.live == st.live by {
        NewSessionReleasedExactlyOnce(st, repo, true, exposeNative, proxies, actions[0]);
        ExecutePreservesValid(st, repo, true, exposeNative, proxies, actions[0]);
      }
      OutsideContextNoSessionLeaks(first.state, repo, exposeNative, first.proxies, actions[1..]);
    }
  }

  /** Outside a context, n executions release the n sessions they opened, once each and in the order opened. */
  lemma {:induction false} OutsideContextReleaseLog(st: SessionState, repo: Repository, exposeNative: bool, proxies: nat, actions: seq<JcrCallback>)
    requires Valid(st) && st.bound.None? && repo.loginAllowed
    ensures ExecuteMany(st, repo, true, exposeNative, proxies, actions).state.released == st.released + Range(st.nextId, |actions|)
    decreases |actions|
  {
    if actions != [] {
      var first := ExecuteSpec(st, repo, true, exposeNative, proxies, actions[0]);
      assert Valid(first.state) && first.state.bound == None && first.state.nextId == st.nextId + 1 &&
        first.state.released == st.released + [st.nextId] by {
        NewSessionReleasedExactlyOnce(st, repo, true, exposeNative, proxies, actions[0]);
        ExecutePreservesValid(st, repo, true, exposeNative, proxies, actions[0]);
      }
      OutsideContextReleaseLog(first.state, repo, exposeNative, first.proxies, actions[1..]);
      assert ExecuteMany(st, repo, true, exposeNative, proxies, actions) ==
        ExecuteMany(first.state, repo, true, exposeNative, first.proxies, actions[1..]);
      var later := Range(st.nextId + 1, |actions| - 1);
      assert Range(st.nextId, |actions|) == [st.nextId] + later;
      AppendAssociative(st.released, [st.nextId], later);
    }
  }

  // ---------------------------------------------------------------------
  // The template's own callbacks

  /** dump returns the pre-order rendering of the node given, or of the root node when none is. */
  lemma DumpRendersTree(st: SessionState, repo: Repository, allowCreate: bool, proxies: nat, node: Option<Node>)
    requires Acquire(st, repo, allowCreate).Ok?
    ensures AsText(ExecuteSpec(st, repo, allowCreate, true, proxies, DumpCallback(node)).result) ==
      Ok(Render(if node.Some? then node.value else repo.root))
  {
  }

  /** query(list, ...) gives the batch's map, or the batch's first abort as execute translates it. */
  lemma BatchQueryThroughExecute(st: SessionState, repo: Repository, allowCreate: bool, proxies: nat,
                                 statements: seq<string>, language: Option<string>, ignoreErrors: bool)
    requires Acquire(st, repo, allowCreate).Ok?
    ensures var b := Batch(repo.queries, QueryLanguage(language), ignoreErrors, statements, 0, Empty());
      var r := AsResultMap(ExecuteSpec(st, repo, allowCreate, true, proxies, BatchQueryCallback(statements, language, ignoreErrors)).result);
      (b.Ok? ==> r == b) && (b.Err? ==> r.Err? && r.error == Escaping(b.error) && !IsChecked(r.error))
  {
  }

  /**
   * When errors are not ignored, a RepositoryException from creating a
   * statement's query or from executing it reaches the caller wrapped in
   * exactly one DataAccessException: the loop's translation and execute's
   * do not stack.
   */
  lemma RepositoryFailureTranslatedOnce(qm: QueryManager, lang: string, statement: string, done: nat, m: string)
    requires qm.createQuery(statement, lang) == Err(RepositoryException(m)) ||
      (qm.createQuery(statement, lang).Ok? && qm.execute(qm.createQuery(statement, lang).value, done) == Err(RepositoryException(m)))
    ensures StatementStep(qm, lang, false, statement, done).Abort?
    ensures Escaping(StatementStep(qm, lang, false, statement, done).error) == DataAccessException(RepositoryException(m))
  {
    ConvertIdempotent(RepositoryException(m));
  }

  /**
   * rename refuses the root, which has no parent. Below the root's children
   * it moves a node to its sibling path called newName; a child of the root
   * is sent to "//" followed by newName, which is not a path.
   */
  lemma RenameMovesToSibling(path: string, newName: string)
    requires WellFormed(path) && IsName(newName)
    ensures path == "/" <==> MoveDestination(path, newName).Err?
    ensures path != "/" && Parent(path) != Some("/") ==> var d := MoveDestination(path, newName).value;
      WellFormed(d) && Parent(d) == Parent(path) && Name(d) == newName
    ensures Parent(path) == Some("/") ==>
      MoveDestination(path, newName) == Ok("//" + newName) && !WellFormed("//" + newName)
  {
    if path != "/" {
      var parent := Parent(path).value;
      if parent == "/" {
        var d := "//" + newName;
        assert RenameDestinationAsWritten(parent, newName) == d;
        assert d[0] == '/' && d[1] == '/';
      } else {
        RenameDestinationAgreesBelowRoot(parent, newName);
        RenameDestinationIsSibling(path, newName);
      }
    }
  }

  /** The corrected destination is the sibling path called newName for every node but the root. */
  lemma CorrectedRenameMovesToSibling(path: string, newName: string)
    requires WellFormed(path) && IsName(newName)
    ensures path == "/" <==> CorrectedMoveDestination(path, newName).Err?
    ensures path != "/" ==> var d := CorrectedMoveDestination(path, newName).value;
      WellFormed(d) && Parent(d) == Parent(path) && Name(d) == newName
  {
    if path != "/" {
      RenameDestinationIsSibling(path, newName);
    }
  }

  /**
   * The sessions after a callback that makes no call: the acquired session is
   * released unless it was already bound.
   */
  function NoCallState(st: SessionState, repo: Repository, allowCreate: bool): (after: SessionState)
    requires Acquire(st, repo, allowCreate).Ok?
    ensures after.bound == st.bound
    ensures st.bound.Some? ==> after == st
    ensures st.bound.None? ==> var s := Acquire(st, repo, allowCreate).value;
      after.nextId == s + 1 && after.live == st.live - {s} && after.released == st.released + [s]
  {
    var s := Acquire(st, repo, allowCreate).value;
    if st.bound.Some? then AfterAcquire(st, s) else Release(AfterAcquire(st, s), s)
  }

  /**
   * Renaming the root fails, translated, before any call is made on the
   * session: the sessions end as they would after a callback making no call.
   */
  lemma RenameOfRootFails(st: SessionState, repo: Repository, allowCreate: bool, proxies: nat, newName: string)
    requires Acquire(st, repo, allowCreate).Ok?
    ensures var run := ExecuteSpec(st, repo, allowCreate, true, proxies, RenameCallback(Some("/"), newName));
      Thrown(run.result) == Some(DataAccessException(RepositoryException("the root node has no parent"))) &&
      run.state == NoCallState(st, repo, allowCreate)
  {
  }

  /**
   * Renaming a null node fails inside the callback with a
   * NullPointerException, which execute passes on untranslated, and makes no
   * call on the session.
   */
  lemma RenameOfNullPassesThrough(st: SessionState, repo: Repository, allowCreate: bool, proxies: nat, newName: string)
    requires Acquire(st, repo, allowCreate).Ok?
    ensures var run := ExecuteSpec(st, repo, allowCreate, true, proxies, RenameCallback(None, newName));
      Thrown(run.result) == Some(NullPointerException) &&
      run.state == NoCallState(st, repo, allowCreate)
  {
  }
}
