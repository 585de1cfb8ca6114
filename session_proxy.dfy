/**
 * Session handles as a callback sees them, the values that pass through
 * session calls, and the dispatch of the logout-suppressing proxy that
 * execute hands out when the native session is not exposed.
 */
module SessionProxy {
  import opened QueryResults

  /** A session of the repository, known by the order in which it was opened. */
  type SessionId = nat

  /**
   * A logout-suppressing proxy: its own identity (that of its invocation
   * handler, one per proxy) and the session it forwards to.
   */
  datatype Guard = Guard(id: nat, target: SessionId)

  /** What a callback is given: the native session, or a proxy around it. */
  datatype Handle = Native(session: SessionId) | Proxied(guard: Guard)

  /** The session a handle's calls end up on. */
  function Target(h: Handle): SessionId {
    match h
    case Native(s) => s
    case Proxied(g) => g.target
  }

  /** Values passed to and returned from session calls (null included). */
  datatype Value =
    | Null
    | Bool(b: bool)
    | Int(i: int)
    | Text(s: string)
    | Ref(handle: Handle)
    | Found(result: QueryResult)
    | Results(entries: ResultMap)

  /** A call of a Session method: its name and its arguments. */
  datatype MethodCall = MethodCall(name: string, args: seq<Value>)

  /** Session calls as the interface admits them: equals(Object) always carries its one argument. */
  type Invocation = c: MethodCall | c.name != "equals" || |c.args| == 1 witness MethodCall("logout", [])

  /** How the proxy's invocation handler deals with a call. */
  datatype Dispatch = Answer(value: Value) | ForwardToTarget

  /**
   * The invocation handler of the proxy: equals compares with the proxy
   * itself, hashCode is the handler's own, logout does nothing, and every
   * other call goes to the target session.
   */
  function Invoke(g: Guard, inv: Invocation): (d: Dispatch)
    ensures d == ForwardToTarget <==> inv.name != "equals" && inv.name != "hashCode" && inv.name != "logout"
    ensures inv.name == "logout" ==> d == Answer(Null)
    ensures inv.name == "equals" ==> (d == Answer(Bool(true)) <==> inv.args[0] == Ref(Proxied(g)))
    ensures inv.name == "equals" ==> d.Answer? && d.value.Bool?
  {
    if inv.name == "equals" then Answer(Bool(inv.args[0] == Ref(Proxied(g))))
    else if inv.name == "hashCode" then Answer(Int(g.id))
    else if inv.name == "logout" then Answer(Null)
    else ForwardToTarget
  }

  /** Two proxies are equal only if they are the same proxy, even when they wrap the same session. */
  lemma DistinctProxiesUnequal(g1: Guard, g2: Guard, inv: Invocation)
    requires inv.name == "equals" && inv.args[0] == Ref(Proxied(g2))
    requires g1.id != g2.id
    ensures Invoke(g1, inv) == Answer(Bool(false))
  {
  }

  /** The hash code a proxy answers depends on the proxy alone, not on the session it wraps. */
  lemma HashCodeIgnoresTarget(id: nat, s1: SessionId, s2: SessionId, inv: Invocation)
    requires inv.name == "hashCode"
    ensures Invoke(Guard(id, s1), inv) == Invoke(Guard(id, s2), inv)
    ensures Invoke(Guard(id, s1), inv).Answer?
  {
  }
}
