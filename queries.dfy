/**
 * Queries run through the template: the default query language, a single
 * statement, the query stored in a node, and the batch runner that fills an
 * insertion-ordered map statement by statement.
 */
module Queries {
  import opened Wrappers
  import opened Exceptions
  import opened LinkedMaps
  import opened Content
  import opened QueryResults

  /** The language a query is written in when the caller names none (JCR's Query.XPATH). */
  const XPATH: string := "xpath"

  /** A query the query manager has created. */
  datatype Query = Query(statement: string, language: string)

  /**
   * The workspace's query manager and the queries it creates, as the
   * repository behaves: each operation either answers or throws. Executing a
   * query is also given how many queries the same template call executed
   * before it, so that the repository may answer the same statement
   * differently each time it is run.
   */
  datatype QueryManager = QueryManager(
    createQuery: (string, string) -> Result<Query, Exn>,
    getQuery: Node -> Result<Query, Exn>,
    execute: (Query, nat) -> Result<QueryResult, Exn>)

  /** A null language means XPath; any other language is used as given. */
  function QueryLanguage(language: Option<string>): (lang: string)
    ensures language == None ==> lang == XPATH
    ensures language != None ==> lang == language.value
  {
    if language.None? then XPATH else language.value
  }

  /** query(statement, language) once inside execute: create the query, then execute it. */
  function RunStatement(qm: QueryManager, statement: string, lang: string): Result<QueryResult, Exn> {
    match qm.createQuery(statement, lang)
    case Err(e) => Err(e)
    case Ok(q) => qm.execute(q, 0)
  }

  /** query(node) once inside execute: the query stored in the node, executed. */
  function RunNodeQuery(qm: QueryManager, node: Node): Result<QueryResult, Exn> {
    match qm.getQuery(node)
    case Err(e) => Err(e)
    case Ok(q) => qm.execute(q, 0)
  }

  /** What one iteration of the batch loop does with its statement. */
  datatype Step = Record(entry: Option<QueryResult>) | Abort(error: Exn)

  /**
   * One statement of the batch, the `done`-th to run: a failure to create the
   * query always aborts; a RepositoryException from executing it is recorded
   * as null when errors are ignored and aborts translated otherwise; any
   * other exception from executing it escapes the loop's catch clause and
   * aborts as it is.
   */
  function StatementStep(qm: QueryManager, lang: string, ignoreErrors: bool, statement: string, done: nat): Step {
    match qm.createQuery(statement, lang)
    case Err(e) => Abort(e)
    case Ok(q) =>
      match qm.execute(q, done)
      case Ok(result) => Record(Some(result))
      case Err(e) =>
        if !e.RepositoryException? then Abort(e)
        else if ignoreErrors then Record(None)
        else Abort(Convert(e))
  }

  /**
   * The body of the batch loop for the `done`-th statement: create and
   * execute its query, and catch a RepositoryException from executing it.
   */
  method RunStep(qm: QueryManager, lang: string, ignoreErrors: bool, statement: string, done: nat) returns (step: Step)
    ensures step == StatementStep(qm, lang, ignoreErrors, statement, done)
  {
    var created := qm.createQuery(statement, lang);
    if created.Err? {
      return Abort(created.error);
    }
    var executed := qm.execute(created.value, done);
    if executed.Ok? {
      step := Record(Some(executed.value));
    } else if !executed.error.RepositoryException? {
      step := Abort(executed.error);
    } else if ignoreErrors {
      step := Record(None);
    } else {
      step := Abort(Convert(executed.error));
    }
  }

  /**
   * The batch from its `i`-th statement on, into `acc`: the statements in
   * list order, the `j`-th being the `j`-th query executed, stopping at the
   * first abort.
   */
  function Batch(qm: QueryManager, lang: string, ignoreErrors: bool, statements: seq<string>, i: nat, acc: ResultMap): Result<ResultMap, Exn>
    requires acc.Valid()
    decreases |statements| - i
  {
    if i >= |statements| then Ok(acc)
    else
      match StatementStep(qm, lang, ignoreErrors, statements[i], i)
      case Abort(e) => Err(e)
      case Record(entry) => Batch(qm, lang, ignoreErrors, statements, i + 1, acc.Put(statements[i], entry))
  }

  /**
   * The loop of query(list, language, ignoreErrors): each statement in turn,
   * its result put into the map, the whole batch abandoned at the first abort.
   */
  method RunBatch(qm: QueryManager, lang: string, ignoreErrors: bool, statements: seq<string>) returns (r: Result<ResultMap, Exn>)
    ensures r == Batch(qm, lang, ignoreErrors, statements, 0, Empty())
  {
    var m: ResultMap := Empty();
    var i := 0;
    while i < |statements|
      invariant 0 <= i <= |statements|
      invariant m.Valid()
      invariant Batch(qm, lang, ignoreErrors, statements, 0, Empty()) == Batch(qm, lang, ignoreErrors, statements, i, m)
    {
      var step := RunStep(qm, lang, ignoreErrors, statements[i], i);
      if step.Abort? {
        return Err(step.error);
      }
      m := m.Put(statements[i], step.entry);
      i := i + 1;
    }
    r := Ok(m);
  }

  /** The batch succeeds exactly when none of its statements aborts. */
  lemma {:induction false} BatchSucceedsIff(qm: QueryManager, lang: string, ignoreErrors: bool, statements: seq<string>, i: nat, acc: ResultMap)
    requires acc.Valid()
    ensures Batch(qm, lang, ignoreErrors, statements, i, acc).Ok? <==>
      forall j :: i <= j < |statements| ==> StatementStep(qm, lang, ignoreErrors, statements[j], j).Record?
    decreases |statements| - i
  {
    if i < |statements| {
      var step := StatementStep(qm, lang, ignoreErrors, statements[i], i);
      if step.Record? {
        BatchSucceedsIff(qm, lang, ignoreErrors, statements, i + 1, acc.Put(statements[i], step.entry));
      }
    }
  }

  /** A failed batch fails with the abort of its first aborting statement, every earlier one having recorded. */
  lemma {:induction false} BatchFailsAtFirstAbort(qm: QueryManager, lang: string, ignoreErrors: bool, statements: seq<string>, i: nat, acc: ResultMap)
    requires acc.Valid()
    requires Batch(qm, lang, ignoreErrors, statements, i, acc).Err?
    ensures exists k :: (i <= k < |statements| &&
      StatementStep(qm, lang, ignoreErrors, statements[k], k) == Abort(Batch(qm, lang, ignoreErrors, statements, i, acc).error) &&
      forall j :: i <= j < k ==> StatementStep(qm, lang, ignoreErrors, statements[j], j).Record?)
    decreases |statements| - i
  {
    var step := StatementStep(qm, lang, ignoreErrors, statements[i], i);
    if step.Record? {
      BatchFailsAtFirstAbort(qm, lang, ignoreErrors, statements, i + 1, acc.Put(statements[i], step.entry));
    }
  }

  /**
   * A successful batch holds one key per distinct statement, in order of first
   * occurrence after the keys already there; a statement listed more than once
   * keeps what its last occurrence recorded, the earlier entries overwritten;
   * keys not in the list keep their values.
   */
  lemma {:induction false} BatchMap(qm: QueryManager, lang: string, ignoreErrors: bool, statements: seq<string>, i: nat, acc: ResultMap)
    requires acc.Valid() && i <= |statements|
    requires Batch(qm, lang, ignoreErrors, statements, i, acc).Ok?
    ensures var m := Batch(qm, lang, ignoreErrors, statements, i, acc).value;
      m.Valid() &&
      m.keys == FirstOccurrences(acc.keys, statements[i..]) &&
      (forall j :: i <= j < |statements| ==> m.Get(statements[j]).Some?) &&
      (forall j :: i <= j < |statements| && statements[j] !in statements[j + 1..] ==>
        StatementStep(qm, lang, ignoreErrors, statements[j], j) == Record(m.Get(statements[j]).value)) &&
      (forall k :: k !in statements[i..] ==> m.Get(k) == acc.Get(k))
    decreases |statements| - i
  {
    if i == |statements| {
      assert statements[i..] == [];
    } else {
      var s := statements[i];
      var step := StatementStep(qm, lang, ignoreErrors, s, i);
      var next := acc.Put(s, step.entry);
      BatchMap(qm, lang, ignoreErrors, statements, i + 1, next);
      var m := Batch(qm, lang, ignoreErrors, statements, i, acc).value;
      assert m == Batch(qm, lang, ignoreErrors, statements, i + 1, next).value;
      assert statements[i..][0] == s && statements[i..][1..] == statements[i + 1..];
      assert next.keys == (if s in acc.keys then acc.keys else acc.keys + [s]);
      if s in statements[i + 1..] {
        var j :| 0 <= j < |statements[i + 1..]| && statements[i + 1..][j] == s;
        assert statements[i + 1 + j] == s;
      } else {
        assert m.Get(s) == next.Get(s);
      }
      forall k | k !in statements[i..]
        ensures m.Get(k) == acc.Get(k)
      {
        assert k != s && k !in statements[i + 1..];
      }
    }
  }

  /**
   * query(["A", "B", "C"]) where only "B" fails to execute, with a
   * RepositoryException: ignoring errors gives A, B and C in that order with
   * B mapped to null; otherwise the batch fails with B's exception translated.
   */
  lemma BatchOfThree(qm: QueryManager, lang: string, qa: Query, qb: Query, qc: Query, ra: QueryResult, rc: QueryResult, msg: string)
    requires qm.createQuery("A", lang) == Ok(qa) && qm.execute(qa, 0) == Ok(ra)
    requires qm.createQuery("B", lang) == Ok(qb) && qm.execute(qb, 1) == Err(RepositoryException(msg))
    requires qm.createQuery("C", lang) == Ok(qc) && qm.execute(qc, 2) == Ok(rc)
    ensures var m := Batch(qm, lang, true, ["A", "B", "C"], 0, Empty());
      m.Ok? && m.value.keys == ["A", "B", "C"] &&
      m.value.Get("A") == Some(Some(ra)) && m.value.Get("B") == Some(None) && m.value.Get("C") == Some(Some(rc))
    ensures Batch(qm, lang, false, ["A", "B", "C"], 0, Empty()) == Err(DataAccessException(RepositoryException(msg)))
  {
    var list := ["A", "B", "C"];
    var e: ResultMap := Empty();
    var m1 := e.Put("A", Some(ra));
    var m2 := m1.Put("B", None);
    var m3 := m2.Put("C", Some(rc));
    assert Batch(qm, lang, true, list, 0, e) == Ok(m3);
    assert m3.keys == ["A", "B", "C"];
    assert Batch(qm, lang, false, list, 0, e) == Batch(qm, lang, false, list, 1, m1);
  }

  /**
   * query(["A", "A"], ignoring errors) where the first run of "A" answers and
   * the second throws a RepositoryException: the map holds the one key "A",
   * mapped to null, the second run having overwritten the first.
   */
  lemma DuplicateStatementLastWins(qm: QueryManager, lang: string, qa: Query, ra: QueryResult, msg: string)
    requires qm.createQuery("A", lang) == Ok(qa)
    requires qm.execute(qa, 0) == Ok(ra) && qm.execute(qa, 1) == Err(RepositoryException(msg))
    ensures var m := Batch(qm, lang, true, ["A", "A"], 0, Empty());
      m.Ok? && m.value.keys == ["A"] && m.value.Get("A") == Some(None)
  {
    var list := ["A", "A"];
    var e: ResultMap := Empty();
    var m1 := e.Put("A", Some(ra));
    var m2 := m1.Put("A", None);
    assert Batch(qm, lang, true, list, 0, e) == Ok(m2);
  }
}
