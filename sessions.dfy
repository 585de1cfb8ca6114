/**
 * The session factory and the session lifecycle as the template relies on
 * it: the session bound to the current context, opening a new one when that
 * is allowed, releasing, and how a native session or its proxy answers calls.
 */
module Sessions {
  import opened Wrappers
  import opened Exceptions
  import opened Content
  import opened Queries
  import opened SessionProxy

  /** The repository behind the factory, as far as the template can observe it. */
  datatype Repository = Repository(
    respond: (SessionId, bool, Invocation) -> Result<Value, Exn>, // a session's answer to any call but logout, given whether it is still open
    loginAllowed: bool,                                            // whether a new session can be opened
    root: Node,                                                    // the workspace's root node
    queries: QueryManager)                                         // the workspace's query manager

  /** What the factory and the binding context know about sessions. */
  datatype SessionState = SessionState(
    bound: Option<SessionId>,  // the session bound to the current context for this factory, if any
    nextId: nat,               // sessions opened so far are 0 .. nextId - 1; the next one gets nextId
    live: set<SessionId>,      // the sessions not logged out
    released: seq<SessionId>)  // every releaseSession call, in order

  /** Every session mentioned has been opened. */
  ghost predicate Valid(st: SessionState) {
    (st.bound.Some? ==> st.bound.value < st.nextId) &&
    (forall s :: s in st.live ==> s < st.nextId) &&
    (forall k :: 0 <= k < |st.released| ==> st.released[k] < st.nextId)
  }

  /**
   * getSession(factory, allowCreate): the bound session if there is one;
   * otherwise a new session when creation is allowed and the repository
   * accepts the login; otherwise an exception.
   */
  function Acquire(st: SessionState, repo: Repository, allowCreate: bool): (r: Result<SessionId, Exn>)
    ensures st.bound.Some? ==> r == Ok(st.bound.value)
    ensures st.bound.None? && r.Ok? ==> allowCreate && repo.loginAllowed && r.value == st.nextId
    ensures st.bound.None? && !allowCreate ==> r.Err? && r.error.IllegalStateException?
    ensures st.bound.None? && allowCreate && !repo.loginAllowed ==> r.Err? && r.error.DataAccessException?
  {
    if st.bound.Some? then Ok(st.bound.value)
    else if !allowCreate then Err(IllegalStateException("no session bound to the context and creation not allowed"))
    else if !repo.loginAllowed then Err(DataAccessException(RepositoryException("login refused")))
    else Ok(st.nextId)
  }

  /** The state once `s` has been acquired: a session that was not bound has just been opened. */
  function AfterAcquire(st: SessionState, s: SessionId): SessionState {
    if st.bound == Some(s) then st else st.(nextId := st.nextId + 1, live := st.live + {s})
  }

  /** releaseSession: logged; a session bound to the context stays open, any other is logged out. */
  function Release(st: SessionState, s: SessionId): SessionState {
    st.(released := st.released + [s], live := if st.bound == Some(s) then st.live else st.live - {s})
  }

  /** A native session: logout closes it; every other call is answered by the repository. */
  function NativeCall(repo: Repository, live: set<SessionId>, s: SessionId, inv: Invocation): (Result<Value, Exn>, set<SessionId>) {
    if inv.name == "logout" then (Ok(Null), live - {s})
    else (repo.respond(s, s in live, inv), live)
  }

  /** A call through a handle: a native session answers itself; a proxy answers or forwards unchanged. */
  function Call(repo: Repository, live: set<SessionId>, h: Handle, inv: Invocation): (r: (Result<Value, Exn>, set<SessionId>))
    ensures r.1 <= live && live - {Target(h)} <= r.1
    ensures h.Proxied? ==> r.1 == live
  {
    match h
    case Native(s) => NativeCall(repo, live, s, inv)
    case Proxied(g) =>
      match Invoke(g, inv)
      case Answer(v) => (Ok(v), live)
      case ForwardToTarget => NativeCall(repo, live, g.target, inv)
  }

  /**
   * A callback's calls on its handle, in order: one reply per call. Only the
   * handle's own session can be closed by them, and through a proxy none is.
   */
  function RunCalls(repo: Repository, live: set<SessionId>, h: Handle, calls: seq<Invocation>): (r: (seq<Result<Value, Exn>>, set<SessionId>))
    ensures |r.0| == |calls|
    ensures r.1 <= live && live - {Target(h)} <= r.1
    ensures h.Proxied? ==> r.1 == live
    decreases |calls|
  {
    if calls == [] then ([], live)
    else
      var first := Call(repo, live, h, calls[0]);
      var rest := RunCalls(repo, first.1, h, calls[1..]);
      ([first.0] + rest.0, rest.1)
  }

  /** Through a proxy, every call but equals, hashCode and logout gets exactly the native session's answer and effect. */
  lemma ProxyForwards(repo: Repository, live: set<SessionId>, g: Guard, inv: Invocation)
    requires inv.name != "equals" && inv.name != "hashCode" && inv.name != "logout"
    ensures Call(repo, live, Proxied(g), inv) == Call(repo, live, Native(g.target), inv)
  {
  }

  /** A target's exception comes back through the proxy as it is, not wrapped. */
  lemma ProxyRethrowsUnwrapped(repo: Repository, live: set<SessionId>, g: Guard, inv: Invocation, e: Exn)
    requires inv.name != "equals" && inv.name != "hashCode" && inv.name != "logout"
    requires repo.respond(g.target, g.target in live, inv) == Err(e)
    ensures Call(repo, live, Proxied(g), inv).0 == Err(e)
  {
  }

  /** logout through a proxy returns null and leaves the session open; on the native session it closes it. */
  lemma LogoutThroughProxyOrNot(repo: Repository, live: set<SessionId>, s: SessionId, id: nat, inv: Invocation)
    requires inv.name == "logout"
    ensures Call(repo, live, Proxied(Guard(id, s)), inv) == (Ok(Null), live)
    ensures Call(repo, live, Native(s), inv) == (Ok(Null), live - {s})
  {
  }

  /** The factory: the context's bound session and the sessions it has opened and released. */
  class SessionFactory {
    const repo: Repository
    var bound: Option<SessionId>
    var nextId: nat
    var live: set<SessionId>
    var released: seq<SessionId>

    function State(): SessionState
      reads this
    {
      SessionState(bound, nextId, live, released)
    }

    /** A factory over `repo`; when `inContext`, a session is already open and bound to the current context. */
    constructor(repo: Repository, inContext: bool)
      ensures this.repo == repo && Valid(State())
      ensures inContext ==> State() == SessionState(Some(0), 1, {0}, [])
      ensures !inContext ==> State() == SessionState(None, 0, {}, [])
    {
      this.repo := repo;
      if inContext {
        bound, nextId, live := Some(0), 1, {0};
      } else {
        bound, nextId, live := None, 0, {};
      }
      released := [];
    }

    /** SessionFactoryUtils.getSession(factory, allowCreate) */
    method GetSession(allowCreate: bool) returns (r: Result<SessionId, Exn>)
      modifies this
      ensures r == Acquire(old(State()), repo, allowCreate)
      ensures r.Ok? ==> State() == AfterAcquire(old(State()), r.value)
      ensures r.Err? ==> State() == old(State())
    {
      if bound.Some? {
        r := Ok(bound.value);
      } else if !allowCreate {
        r := Err(IllegalStateException("no session bound to the context and creation not allowed"));
      } else if !repo.loginAllowed {
        r := Err(DataAccessException(RepositoryException("login refused")));
      } else {
        r := Ok(nextId);
        nextId := nextId + 1;
        live := live + {r.value};
      }
    }

    /** SessionFactoryUtils.isSessionThreadBound(session, factory) */
    predicate IsSessionBound(s: SessionId)
      reads this
    {
      bound == Some(s)
    }

    /** SessionFactoryUtils.releaseSession(session, factory) */
    method ReleaseSession(s: SessionId)
      modifies this
      ensures State() == Release(old(State()), s)
    {
      released := released + [s];
      if bound != Some(s) {
        live := live - {s};
      }
    }

    /** One call a callback makes on the handle it was given. */
    method Send(h: Handle, inv: Invocation) returns (reply: Result<Value, Exn>)
      modifies this
      ensures var c := Call(repo, old(live), h, inv);
        reply == c.0 && State() == old(State()).(live := c.1)
    {
      var c := Call(repo, live, h, inv);
      reply := c.0;
      live := c.1;
    }

    /** A callback's calls on the handle it was given, in order. */
    method Perform(h: Handle, calls: seq<Invocation>) returns (replies: seq<Result<Value, Exn>>)
      modifies this
      ensures var p := RunCalls(repo, old(live), h, calls);
        replies == p.0 && State() == old(State()).(live := p.1)
    {
      var p := RunCalls(repo, live, h, calls);
      replies := p.0;
      live := p.1;
    }
  }
}
