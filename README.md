# JcrTemplate, modelled in Dafny

This project models the session-execution engine of Spring Modules' `JcrTemplate`.
It also models the operations the template builds on that engine.

`execute(callback, exposeNativeSession)` works in five steps:
- It acquires a session: the one bound to the current context, or a new one when `allowCreate` permits.
- It remembers whether that session was bound.
- It hands the callback either the native session or a logout-suppressing proxy.
- It translates what the callback throws.
- In its `finally`, it releases the session unless the session was bound.

The operations built on it are:
- the batch query runner `query(list, language, ignoreErrors)`, which fills an insertion-ordered map;
- the tree dumper `dump`/`dumpNode`;
- the single-statement and node queries, with their null-argument guards and the XPath default language;
- `rename`, which builds its destination as written (see Findings).

The files are:

- `wrappers.dfy`: `Option` and `Result`.
- `sequences.dfy`: a fact about concatenation that several proofs share.
- `exceptions.dfy`: the exceptions that cross the template.
  - `Convert` is `convertJcrAccessException`.
  - `Escaping` is what leaves `execute` once its catch clauses have run.
- `linked_map.dfy`: the insertion-ordered map the batch builds, as a value.
- `query_results.dfy`: query results and the batch's result map, shared by the queries and the session calls.
- `content.dfy`:
  - the node tree (nodes, properties and single or multiple values);
  - JCR paths, a node's parent and name, and rename's destination path.
- `queries.dfy`:
  - the query manager the workspace provides;
  - language defaulting;
  - one statement's step in the batch, and the batch as a fold;
  - `RunBatch`, the batch loop proved equal to the fold.
- `dumper.dfy`: the rendering as a pure recursive function, and `DumpNode`, the loop-and-recursion method proved equal to it.
- `session_proxy.dfy`: session handles (native or proxy), the values calls exchange, and the proxy's invocation handler.
- `sessions.dfy`:
  - the session factory as a class whose state is the bound session, the sessions opened, those still open and the release log;
  - acquisition, release, and how calls on a handle behave.
- `template.dfy`:
  - the callbacks;
  - `ExecuteSpec`, the reference definition of one `execute`;
  - the `JcrTemplate` class, whose methods are proved against `ExecuteSpec`;
  - the lemmas about sessions, translation, the proxy and the template's own callbacks.

Design notes:
- **Callbacks.** Caller code is modelled as `Script`: the calls it makes on the session it is given, followed by its result computed from their replies. The template's own anonymous callbacks (dump, the three queries, rename) are further constructors of the same datatype.
- **Bound session.** Binding to the current thread is the factory's `bound` field.
- **Proxies.** Each proxy gets a fresh number, and proxy identity is that number.
- **Query executions.** Executing a query is also given its position among the executions of the same template call (the `j`-th statement of a batch is execution `j`; a single query is execution 0). The repository may therefore answer a repeated statement differently each time, and the batch map keeps the last answer.

## Model

| member | source | states |
|---|---|---|
| Exceptions.Convert | src/main/java/org/springmodules/jcr/JcrTemplate.java:98-106 | a RepositoryException or IOException becomes a DataAccessException whose cause is that exception; a runtime exception is returned unchanged; the result is always unchecked |
| Exceptions.Escaping | src/main/java/org/springmodules/jcr/JcrTemplate.java:92-107 | what leaves execute's catch clauses is the converted exception for every caught kind and an Error unchanged, and is never checked |
| Exceptions.ConvertIdempotent | src/main/java/org/springmodules/jcr/JcrTemplate.java:104-106 | converting an already converted exception changes nothing, so the batch's own translation and execute's do not stack |
| LinkedMaps.LinkedMap.Put | src/main/java/org/springmodules/jcr/JcrTemplate.java:692-709 | put on the linked map maps the key to the new value, leaves every other key's value alone, keeps the key order and appends a new key at the end |
| LinkedMaps.FirstOccurrencesSpec | src/main/java/org/springmodules/jcr/JcrTemplate.java:692-715 | the key order produced by a series of puts has no duplicates, extends the earlier order and holds exactly the keys put |
| LinkedMaps.FirstOccurrencesOfDistinct | src/main/java/org/springmodules/jcr/JcrTemplate.java:692-715 | when the keys put are all different and none is present yet, the key order is the earlier order followed by the keys in the order put |
| LinkedMaps.FirstOccurrencesOfPresent | src/main/java/org/springmodules/jcr/JcrTemplate.java:692-715 | putting keys that are all already present does not change the key order |
| Paths.RenameUnderRootAsWritten | src/main/java/org/springmodules/jcr/JcrTemplate.java:451 | for a node directly under the root, the destination rename builds ("//" followed by the new name) is not a well-formed path |
| Paths.RenameDestinationAgreesBelowRoot | src/main/java/org/springmodules/jcr/JcrTemplate.java:451 | below the root, the corrected destination is exactly the one rename builds |
| Paths.RenameDestinationIsSibling | src/main/java/org/springmodules/jcr/JcrTemplate.java:451 | for any non-root well-formed path, the corrected destination is well formed, has the same parent and is named with the new name |
| Paths.ParentWellFormed | src/main/java/org/springmodules/jcr/JcrTemplate.java:451 | the parent path of a non-root node is a well-formed path |
| Queries.QueryLanguage | src/main/java/org/springmodules/jcr/JcrTemplate.java:649-650 | a null language becomes XPath, and any other language is used verbatim |
| Queries.RunStep | src/main/java/org/springmodules/jcr/JcrTemplate.java:698-712 | one iteration of the batch loop creates and executes the statement's query and records its result, records null for an ignored RepositoryException from executing it, and otherwise aborts with the creation failure, the translated RepositoryException or the other exception |
| Queries.RunBatch | src/main/java/org/springmodules/jcr/JcrTemplate.java:697-715 | the statement loop returns exactly the batch fold over the statements from an empty map, the `j`-th statement being the `j`-th query executed |
| Queries.BatchSucceedsIff | src/main/java/org/springmodules/jcr/JcrTemplate.java:697-715 | the batch returns a map exactly when no statement aborts |
| Queries.BatchFailsAtFirstAbort | src/main/java/org/springmodules/jcr/JcrTemplate.java:700-713 | a failed batch fails with the error of some statement that aborts, and every statement before it recorded a result |
| Queries.BatchMap | src/main/java/org/springmodules/jcr/JcrTemplate.java:692-715 | a successful batch holds one key per distinct statement in order of first occurrence; each statement maps to what the execution of its last occurrence recorded (its result, or null for an ignored failure), so a repeated statement's later entry overwrites the earlier one; keys not in the list keep their values |
| Queries.DuplicateStatementLastWins | src/main/java/org/springmodules/jcr/JcrTemplate.java:704-710 | with A listed twice, answering the first time and failing the second, ignoring errors gives the single key A mapped to null |
| Queries.BatchOfThree | src/main/java/org/springmodules/jcr/JcrTemplate.java:704-713 | with B failing in A, B, C: ignoring errors gives A, B, C in order with B mapped to null; not ignoring them gives B's failure translated and no map |
| Dumper.AppendProperty | src/main/java/org/springmodules/jcr/JcrTemplate.java:577-588 | the appends for one property add exactly its line: path, "=", its value or its values separated by commas, newline |
| Dumper.DumpNode | src/main/java/org/springmodules/jcr/JcrTemplate.java:571-597 | the builder loops and the recursion over children produce exactly the pre-order rendering of the node |
| Dumper.RenderAllAppend | src/main/java/org/springmodules/jcr/JcrTemplate.java:591-595 | the rendering of a run of siblings is the concatenation of the renderings of its parts |
| Dumper.RenderPreOrder | src/main/java/org/springmodules/jcr/JcrTemplate.java:571-597 | a node's rendering starts with its path and property lines, and each child's rendering sits between its earlier and later siblings' |
| Dumper.DumpOfSmallTree | src/main/java/org/springmodules/jcr/JcrTemplate.java:571-597 | the exact dump of a two-level tree with one property |
| Dumper.MultipleValuesJoined | src/main/java/org/springmodules/jcr/JcrTemplate.java:579-588 | a property with three values renders as its path, "=", the three values joined by commas, and a newline |
| Dumper.PathsRunTogether | src/main/java/org/springmodules/jcr/JcrTemplate.java:573-594 | no separator follows a node's path, so a node without properties runs straight into its first child's path |
| SessionProxy.Invoke | src/main/java/org/springmodules/jcr/JcrTemplate.java:746-773 | the handler forwards exactly the calls other than equals, hashCode and logout; logout answers null; equals answers true exactly for the very same proxy |
| SessionProxy.DistinctProxiesUnequal | src/main/java/org/springmodules/jcr/JcrTemplate.java:750-752 | two different proxies are unequal even when they wrap the same session |
| SessionProxy.HashCodeIgnoresTarget | src/main/java/org/springmodules/jcr/JcrTemplate.java:753-755 | a proxy's hash code is answered by the handler and does not depend on the wrapped session |
| Sessions.Acquire | src/main/java/org/springmodules/jcr/support/JcrDaoSupport.java:64-73 | the bound session when there is one; otherwise IllegalStateException when creation is not allowed, a DataAccessException when the login fails, and a new session otherwise |
| Sessions.Call | src/main/java/org/springmodules/jcr/JcrTemplate.java:746-773 | a call on a handle can close only the handle's own session, and a call through a proxy closes none |
| Sessions.RunCalls | src/main/java/org/springmodules/jcr/JcrTemplate.java:94 | a callback's calls get one reply each, and close at most the handle's own session, or none through a proxy |
| Sessions.ProxyForwards | src/main/java/org/springmodules/jcr/JcrTemplate.java:761-770 | through the proxy, every other call gets exactly the native session's answer and has exactly its effect |
| Sessions.ProxyRethrowsUnwrapped | src/main/java/org/springmodules/jcr/JcrTemplate.java:771-772 | the target's exception comes back through the proxy as it is |
| Sessions.LogoutThroughProxyOrNot | src/main/java/org/springmodules/jcr/JcrTemplate.java:756-758 | logout through the proxy returns null and leaves the session open; on the native session it closes it |
| Sessions.SessionFactory.GetSession | src/main/java/org/springmodules/jcr/JcrTemplate.java:133-135 | getSession returns what Acquire says and opens a session only when it returns a new one |
| Sessions.SessionFactory.ReleaseSession | src/main/java/org/springmodules/jcr/JcrTemplate.java:111 | releaseSession logs the release and closes the session unless it is bound |
| Sessions.SessionFactory.Send | src/main/java/org/springmodules/jcr/JcrTemplate.java:451 | one call on a handle gives the handle's reply and changes only which sessions are open |
| Sessions.SessionFactory.Perform | src/main/java/org/springmodules/jcr/JcrTemplate.java:94 | a callback's calls give the replies RunCalls says and change only which sessions are open |
| Template.CallbackRun | src/main/java/org/springmodules/jcr/JcrTemplate.java:94 | running any callback can close only the exposed session, and through a proxy none |
| Template.Exposed | src/main/java/org/springmodules/jcr/JcrTemplate.java:93 | the callback gets the native session exactly when exposeNativeSession is set, otherwise a new proxy, and either way it reaches the acquired session |
| Template.JcrTemplate.constructor | src/main/java/org/springmodules/jcr/JcrTemplate.java:45-58 | allowCreate and exposeNativeSession both start false |
| Template.JcrTemplate.SetAllowCreate | src/main/java/org/springmodules/jcr/JcrTemplate.java:68 | sets allowCreate |
| Template.JcrTemplate.SetExposeNativeSession | src/main/java/org/springmodules/jcr/JcrTemplate.java:78 | sets exposeNativeSession |
| Template.JcrTemplate.CreateSessionProxy | src/main/java/org/springmodules/jcr/JcrTemplate.java:727-731 | returns a new proxy, distinct from every earlier one, wrapping the given session |
| Template.JcrTemplate.DoInJcr | src/main/java/org/springmodules/jcr/JcrTemplate.java:94 | runs the callback on the handle, with the outcome and session effect CallbackRun gives |
| Template.JcrTemplate.Execute | src/main/java/org/springmodules/jcr/JcrTemplate.java:84-114 | the acquire, expose, run, translate and release-unless-bound sequence leaves exactly the result, session state and proxy count that ExecuteSpec gives |
| Template.JcrTemplate.ExecuteConfigured | src/main/java/org/springmodules/jcr/JcrTemplate.java:120-122 | the one-argument execute is execute with the configured exposeNativeSession |
| Template.JcrTemplate.Dump | src/main/java/org/springmodules/jcr/JcrTemplate.java:548-560 | dump runs the dump callback through execute with the native session exposed |
| Template.JcrTemplate.QueryNode | src/main/java/org/springmodules/jcr/JcrTemplate.java:604-623 | a null node throws IllegalArgumentException before any session is acquired; otherwise the node's stored query runs through execute with the native session exposed |
| Template.JcrTemplate.Query | src/main/java/org/springmodules/jcr/JcrTemplate.java:638-660 | a null statement throws IllegalArgumentException before any session is acquired; otherwise the statement runs through execute with the native session exposed |
| Template.JcrTemplate.QueryStatement | src/main/java/org/springmodules/jcr/JcrTemplate.java:630-632 | query(statement) is query(statement, null) |
| Template.JcrTemplate.QueryList | src/main/java/org/springmodules/jcr/JcrTemplate.java:675-717 | a null list throws IllegalArgumentException before any session is acquired; otherwise the whole batch runs inside one execute with the native session exposed |
| Template.JcrTemplate.QueryListDefault | src/main/java/org/springmodules/jcr/JcrTemplate.java:667-669 | query(list) is query(list, null, false) |
| Template.JcrTemplate.Rename | src/main/java/org/springmodules/jcr/JcrTemplate.java:443-454 | rename runs the move callback through execute with the native session exposed, and reports what it threw; the destination is built as written, and a null node fails inside the callback |
| Template.AcquireFailureChangesNothing | src/main/java/org/springmodules/jcr/JcrTemplate.java:85 | when acquisition fails, its exception is the result, nothing is released or opened, and no proxy is created |
| Template.ExecuteThrowsNothingChecked | src/main/java/org/springmodules/jcr/JcrTemplate.java:84-106 | execute never throws a checked exception |
| Template.ExecuteTranslatesCallbackOutcome | src/main/java/org/springmodules/jcr/JcrTemplate.java:92-106 | the callback's value is returned as it is; a checked exception comes back wrapped in a DataAccessException; an unchecked one or an Error comes back unchanged |
| Template.BoundSessionNeverReleased | src/main/java/org/springmodules/jcr/JcrTemplate.java:87-113 | with a session bound, execute releases nothing, opens nothing and keeps the binding |
| Template.NewSessionReleasedExactlyOnce | src/main/java/org/springmodules/jcr/JcrTemplate.java:107-112 | without a bound session, execute opens a session never released before, releases it exactly once on every outcome, and leaves the open sessions as they were |
| Template.OnlyItsSessionChanges | src/main/java/org/springmodules/jcr/JcrTemplate.java:84-114 | no session other than the acquired one is opened or closed |
| Template.ProxiedExecutionKeepsSessionsOpen | src/main/java/org/springmodules/jcr/JcrTemplate.java:93 | when the proxy is exposed, the open sessions after execute are exactly those before it, whatever the callback calls, and one proxy was created |
| Template.NativeLogoutClosesBoundSession | src/main/java/org/springmodules/jcr/JcrTemplate.java:93 | when the native session is exposed, a callback's logout closes even the bound session |
| Template.ExecutePreservesValid | src/main/java/org/springmodules/jcr/JcrTemplate.java:84-114 | execute mentions only sessions that have been opened |
| Template.InContextNothingOpenedOrReleased | src/main/java/org/springmodules/jcr/JcrTemplate.java:87-113 | any number of executions with a bound session open and release nothing |
| Template.OutsideContextNoSessionLeaks | src/main/java/org/springmodules/jcr/JcrTemplate.java:107-112 | n executions without a bound session open n sessions, bind none, and leave exactly the sessions open that were open before |
| Template.OutsideContextReleaseLog | src/main/java/org/springmodules/jcr/JcrTemplate.java:107-112 | n executions without a bound session release the n sessions they opened, once each and in the order opened |
| Template.DumpRendersTree | src/main/java/org/springmodules/jcr/JcrTemplate.java:548-560 | dump returns the rendering of the node given, or of the root node when it is null |
| Template.BatchQueryThroughExecute | src/main/java/org/springmodules/jcr/JcrTemplate.java:675-717 | query(list, ...) returns the batch's map, or the batch's error as execute translates it |
| Template.RepositoryFailureTranslatedOnce | src/main/java/org/springmodules/jcr/JcrTemplate.java:700-711 | when errors are not ignored, a RepositoryException from creating or executing a query reaches the caller wrapped in exactly one DataAccessException |
| Template.RenameMovesToSibling | src/main/java/org/springmodules/jcr/JcrTemplate.java:451 | rename refuses the root, which has no parent; a node deeper than the root's children moves to the sibling path with the new name; a child of the root is sent to "//" followed by the new name, which is not a path |
| Template.CorrectedRenameMovesToSibling | src/main/java/org/springmodules/jcr/JcrTemplate.java:451 | with the corrected destination, every node but the root moves to the well-formed sibling path with the new name |
| Template.NoCallState | src/main/java/org/springmodules/jcr/JcrTemplate.java:107-112 | after a callback that makes no call, a bound session leaves the state as it was; otherwise the new session is the only one opened and is released, and the open sessions are those open before |
| Template.RenameOfRootFails | src/main/java/org/springmodules/jcr/JcrTemplate.java:451 | renaming the root fails with a translated RepositoryException, and the sessions end as after a callback making no call, so nothing is moved or closed |
| Template.RenameOfNullPassesThrough | src/main/java/org/springmodules/jcr/JcrTemplate.java:451 | renaming a null node fails with a NullPointerException that execute passes on untranslated, and no call is made on the session |

## Left out

- Binding to the current thread is not modelled as such. The bound session is explicit factory state.
- Logging is left out.
- Reflection and dynamic-proxy mechanics are left out. The proxy is modelled directly as a handle over the session it wraps.
- The convenience delegates that forward one call to the session are not modelled separately (`addLockToken`, `getAttribute`, `save`, `move`, `refresh`, `isLive` and the like). Each of them is `execute(callback, true)` around one `Script` call, and `Execute` covers that.
- `isVersionable` is left out.
- The code of `SessionFactoryUtils` and `convertJcrAccessException` is not part of this model.
  - `Acquire` and `Release` follow the documented contract of getting and releasing a session.
  - `Convert` follows the exception taxonomy.
  - `Convert`: does not model how a checked exception is mapped onto particular DataAccessException subclasses. It wraps every checked exception in one DataAccessException that keeps it as its cause.
  - `Acquire`: models every failed login as one DataAccessException and does not model its subclass or message.
- Caller callbacks are modelled as fixed call lists, so a callback cannot choose its next call from an earlier reply. Its result may still depend on all replies.
- Node accessors, `getRootNode`, `getWorkspace()` and `getQueryManager()` never fail in the model. What the repository's queries return, and XPath itself, are parameters (`QueryManager`).
- Sessions and query results are identities, not objects. Aliasing between sessions is not modelled.
- `Release`: cannot fail. If `releaseSession` threw in execute's `finally` (lines 107-112), that exception would replace the callback's result or exception; this is not modelled, as `SessionFactoryUtils` is not part of this model.
- Batch elements are strings. A list element that is not a String (a ClassCastException at line 698, thrown outside the loop's catch clause, so it aborts the batch even when errors are ignored) and a null element (passed to `createQuery` as null) are not modelled.
- Namespace handlers, XML configuration and `RepositoryFactoryBean` (repository construction and shutdown) are left out.

## Findings

| source | as written | input that shows it | evidently intended | confidence | as-written member | corrected member |
|---|---|---|---|---|---|---|
| src/main/java/org/springmodules/jcr/JcrTemplate.java:451 | rename moves the node to its parent's path, then "/", then the new name | renaming node `/a` to `b`: the parent path is `/`, so the destination is `//b`, which is not a valid JCR path | the node moves to the sibling path `/b`, with no doubled slash under the root | medium, not executed | Paths.RenameUnderRootAsWritten | Template.CorrectedRenameMovesToSibling |
