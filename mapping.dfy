/**
 * The table-to-job mapping of the `migration:run` command: how one table is
 * resolved to the job record handed to the spawner, and how a table name is
 * written into the generated queries.
 */
module Mapping {
  import opened Wrappers

  /** A where or join clause; the command passes these through unchanged. */
  type Clause = string

  /** One value of the configured table-to-job mapping. */
  datatype Entry =
    | Shorthand(name: string)
      // the full form; a key that is absent or set to null is None
    | Full(job: Option<string>, wheres: Option<seq<Clause>>, joins: Option<seq<Clause>>, chunkSize: Option<int>)
      // null, or any other value that is neither a string nor an array
    | Other

  /** The job record for one table. */
  datatype MigrationItem = MigrationItem(job: string, wheres: seq<Clause>, joins: seq<Clause>, chunkSize: int)

  /** The job class an entry names, if it names one. */
  function EntryJob(e: Entry): Option<string> {
    match e
    case Shorthand(j) => Some(j)
    case Full(j, _, _, _) => j
    case Other => None
  }

  /**
   * The test the environment check applies to every mapping entry: a string
   * that is a known class, or an array whose `job` is set and a known class.
   */
  predicate ValidEntry(e: Entry, known: set<string>) {
    match e
    case Shorthand(j) => j in known
    case Full(j, _, _, _) => j.Some? && j.value in known
    case Other => false
  }

  /**
   * Resolves `table` to its job record, or None. `known` is the set of class
   * names that exist; `defaultChunkSize` is the configured default.
   */
  function GetMigrationItem(mapping: map<string, Entry>, table: string, defaultChunkSize: int, known: set<string>)
    : (r: Option<MigrationItem>)
    // resolves exactly when the entry passes the environment check
    ensures r.Some? <==> table in mapping && ValidEntry(mapping[table], known)
    ensures r.Some? ==> EntryJob(mapping[table]) == Some(r.value.job) && r.value.job in known
    // shorthand: no clauses and the default chunk size
    ensures r.Some? && mapping[table].Shorthand? ==>
      r.value.wheres == [] && r.value.joins == [] && r.value.chunkSize == defaultChunkSize
    // full form: each missing field falls back on its own, present ones pass through
    ensures r.Some? && mapping[table].Full? ==>
      var e := mapping[table];
      && (e.wheres.Some? ==> r.value.wheres == e.wheres.value)
      && (e.wheres.None? ==> r.value.wheres == [])
      && (e.joins.Some? ==> r.value.joins == e.joins.value)
      && (e.joins.None? ==> r.value.joins == [])
      && (e.chunkSize.Some? ==> r.value.chunkSize == e.chunkSize.value)
      && (e.chunkSize.None? ==> r.value.chunkSize == defaultChunkSize)
  {
    if table !in mapping then None
    else
      match mapping[table]
      case Other => None
      case Shorthand(j) =>
        if j !in known then None
        else Some(MigrationItem(j, [], [], defaultChunkSize))
      case Full(j, wheres, joins, chunkSize) =>
        if j.None? || j.value !in known then None
        else Some(MigrationItem(j.value, wheres.GetOr([]), joins.GetOr([]), chunkSize.GetOr(defaultChunkSize)))
  }

  /** A shorthand entry resolves exactly as the full form that names only the job. */
  lemma ShorthandIsFullWithDefaults(mapping: map<string, Entry>, table: string, job: string, defaultChunkSize: int, known: set<string>)
    ensures GetMigrationItem(mapping[table := Shorthand(job)], table, defaultChunkSize, known)
         == GetMigrationItem(mapping[table := Full(Some(job), None, None, None)], table, defaultChunkSize, known)
  {
  }

  /**
   * The name as written into a query: wrapped in backticks when it contains a
   * dot, so that a schema-qualified name is read as one identifier.
   */
  function TableNameExpression(table: string): (r: string)
    ensures r == table <==> '.' !in table
    ensures '.' in table ==> r == "`" + table + "`"
    ensures ('.' in r) == ('.' in table)
    ensures Unquote(r) == table
  {
    if '.' in table then "`" + table + "`" else table
  }

  /** Reads back the table name from an expression built by TableNameExpression. */
  function Unquote(e: string): string {
    if 2 <= |e| && e[0] == '`' && e[|e| - 1] == '`' && '.' in e then e[1..|e| - 1] else e
  }

  /** Two different tables never share an expression. */
  lemma TableNameExpressionInjective(a: string, b: string)
    requires TableNameExpression(a) == TableNameExpression(b)
    ensures a == b
  {
    assert Unquote(TableNameExpression(a)) == a;
  }
}
