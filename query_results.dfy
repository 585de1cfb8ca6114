/**
 * What queries give back, shared by the query runner and by the values that
 * pass through session calls.
 */
module QueryResults {
  import opened Wrappers
  import opened LinkedMaps

  /** An opaque query result. */
  datatype QueryResult = QueryResult(id: nat)

  /** The batch result: each statement to its result, or to null when its failure was ignored. */
  type ResultMap = LinkedMap<string, Option<QueryResult>>
}
