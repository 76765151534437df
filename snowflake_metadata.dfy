/** The bookkeeping of the Snowflake ingestion source: cluster-key and
    description maps filled from query rows, partition-column repair, the
    identifiers of a parsed cluster key, the Snowflake web URLs and the table
    list of a schema. Query rows, the SQL parser's output and the inspector's
    answers are parameters. */
module SnowflakeMetadata {
  import opened Wrappers

  // ---------------------------------------------------------------------
  // Python strings
  // ---------------------------------------------------------------------

  /** An `Optional[str]` is truthy when it is present and not empty. */
  predicate Truthy(s: Option<string>) {
    s.Some? && s.value != ""
  }

  /** `str.lower()` on ASCII letters. */
  function LowerChar(c: char): char {
    if 'A' <= c <= 'Z' then (c as int + 32) as char else c
  }

  function Lower(s: string): (r: string)
    ensures |r| == |s|
    ensures forall i :: 0 <= i < |s| ==> r[i] == LowerChar(s[i])
  {
    seq(|s|, i requires 0 <= i < |s| => LowerChar(s[i]))
  }

  /** An f-string renders a missing value as `None`. */
  function Formatted(s: Option<string>): string {
    match s
    case Some(v) => v
    case None => "None"
  }

  // ---------------------------------------------------------------------
  // Rows of the metadata queries
  // ---------------------------------------------------------------------

  datatype ClusterKeyRow = ClusterKeyRow(tableSchema: string, tableName: string, clusteringKey: Option<string>)
  datatype SchemaCommentRow = SchemaCommentRow(databaseName: string, schemaName: string, comment: Option<string>)
  datatype DatabaseCommentRow = DatabaseCommentRow(databaseName: string, comment: Option<string>)

  /** The key under which a table's cluster key is stored: `SCHEMA.TABLE`. */
  function PartitionKey(schema: string, table: string): string {
    schema + "." + table
  }

  /** Row `row` records a cluster key under `key`. */
  predicate Records(row: ClusterKeyRow, key: string) {
    Truthy(row.clusteringKey) && PartitionKey(row.tableSchema, row.tableName) == key
  }

  /** The cluster-key map built from `rows` into an empty map: only rows with a
      non-empty clustering key are kept, and a later row for the same key wins. */
  function PartitionMap(rows: seq<ClusterKeyRow>): (m: map<string, string>)
    ensures forall k :: k in m ==> m[k] != ""
    ensures forall k :: k in m <==> exists i :: 0 <= i < |rows| && Records(rows[i], k)
  {
    if rows == [] then map[]
    else
      var prefix := rows[..|rows| - 1];
      var row := rows[|rows| - 1];
      assert forall i :: 0 <= i < |prefix| ==> prefix[i] == rows[i];
      if Truthy(row.clusteringKey) then
        PartitionMap(prefix)[PartitionKey(row.tableSchema, row.tableName) := row.clusteringKey.value]
      else
        PartitionMap(prefix)
  }

  /** The stored cluster key of a table is that of the last row naming it. */
  lemma {:induction false} PartitionMapLastRowWins(rows: seq<ClusterKeyRow>, i: nat, key: string)
    requires i < |rows| && Records(rows[i], key)
    requires forall j :: i < j < |rows| ==> !Records(rows[j], key)
    ensures key in PartitionMap(rows) && PartitionMap(rows)[key] == rows[i].clusteringKey.value
  {
    var prefix := rows[..|rows| - 1];
    if i < |rows| - 1 {
      assert forall j :: i < j < |prefix| ==> prefix[j] == rows[j];
      PartitionMapLastRowWins(prefix, i, key);
    }
  }

  /** Assigning `entries` one after another into `m`, as a loop of
      `d[key] = value` does. */
  function AssignAll<K, V>(m: map<K, V>, entries: seq<(K, V)>): (r: map<K, V>)
    ensures r.Keys == m.Keys + (set i | 0 <= i < |entries| :: entries[i].0)
  {
    if entries == [] then m
    else
      var prefix := entries[..|entries| - 1];
      assert forall i :: 0 <= i < |prefix| ==> prefix[i] == entries[i];
      AssignAll(m, prefix)[entries[|entries| - 1].0 := entries[|entries| - 1].1]
  }

  /** The last assignment to a key decides its value. */
  lemma {:induction false} AssignAllLastWins<K, V>(m: map<K, V>, entries: seq<(K, V)>, i: nat)
    requires i < |entries|
    requires forall j :: i < j < |entries| ==> entries[j].0 != entries[i].0
    ensures AssignAll(m, entries)[entries[i].0] == entries[i].1
  {
    var prefix := entries[..|entries| - 1];
    if i < |entries| - 1 {
      assert forall j :: i < j < |prefix| ==> prefix[j] == entries[j];
      AssignAllLastWins(m, prefix, i);
    }
  }

  /** Keys that no entry assigns keep their old value. */
  lemma {:induction false} AssignAllKeepsOthers<K, V>(m: map<K, V>, entries: seq<(K, V)>, k: K)
    requires k in m
    requires forall j :: 0 <= j < |entries| ==> entries[j].0 != k
    ensures AssignAll(m, entries)[k] == m[k]
  {
    if entries != [] {
      AssignAllKeepsOthers(m, entries[..|entries| - 1], k);
    }
  }

  function SchemaEntries(rows: seq<SchemaCommentRow>): (r: seq<((string, string), Option<string>)>)
    ensures |r| == |rows|
    ensures forall i :: 0 <= i < |rows| ==> r[i] == ((rows[i].databaseName, rows[i].schemaName), rows[i].comment)
  {
    seq(|rows|, i requires 0 <= i < |rows| => ((rows[i].databaseName, rows[i].schemaName), rows[i].comment))
  }

  function DatabaseEntries(rows: seq<DatabaseCommentRow>): (r: seq<(string, Option<string>)>)
    ensures |r| == |rows|
    ensures forall i :: 0 <= i < |rows| ==> r[i] == (rows[i].databaseName, rows[i].comment)
  {
    seq(|rows|, i requires 0 <= i < |rows| => (rows[i].databaseName, rows[i].comment))
  }

  /** The database-description map after one load-once call: it is filled
      from `rows` only when it is empty. */
  function LoadDatabaseDescriptions(m: map<string, Option<string>>, rows: seq<DatabaseCommentRow>): (r: map<string, Option<string>>)
    ensures m != map[] ==> r == m
    ensures m == map[] ==> forall k :: k in r <==> exists i :: 0 <= i < |rows| && rows[i].databaseName == k
  {
    if m == map[] then AssignAll(m, DatabaseEntries(rows)) else m
  }

  /** Once the map holds something, later loads change nothing: a load on a
      non-empty map, or a load that received at least one row, is final. */
  lemma LoadDatabaseDescriptionsIsFinal(m: map<string, Option<string>>, rows1: seq<DatabaseCommentRow>, rows2: seq<DatabaseCommentRow>)
    requires m != map[] || rows1 != []
    ensures LoadDatabaseDescriptions(LoadDatabaseDescriptions(m, rows1), rows2) == LoadDatabaseDescriptions(m, rows1)
  {
    var once := LoadDatabaseDescriptions(m, rows1);
    if m == map[] {
      assert DatabaseEntries(rows1)[0].0 in once;
    }
  }

  /** A first load fills the map from the rows, the last row for a database
      deciding its comment. */
  lemma LoadDatabaseDescriptionsLastRowWins(rows: seq<DatabaseCommentRow>, i: nat)
    requires i < |rows|
    requires forall j :: i < j < |rows| ==> rows[j].databaseName != rows[i].databaseName
    ensures LoadDatabaseDescriptions(map[], rows)[rows[i].databaseName] == rows[i].comment
  {
    AssignAllLastWins(map[], DatabaseEntries(rows), i);
  }

  // ---------------------------------------------------------------------
  // Cluster-key parsing
  // ---------------------------------------------------------------------

  /** The tokens of a parsed cluster-key expression that matter here. */
  datatype Token =
    | FunctionToken(parameters: seq<Token>)
    | IdentifierToken(realName: string)
    | OtherToken

  /** What the SQL parser returns for an expression: the statements' top-level
      tokens, or an exception. */
  datatype ParseOutcome = ParseError | Statements(statements: seq<seq<Token>>)

  /** Identifier `n` occurs in `t`: `t` is that identifier, or a function
      with `n` among its parameters at any depth. */
  predicate Mentions(t: Token, n: string)
    decreases t
  {
    match t
    case FunctionToken(ps) => exists i :: 0 <= i < |ps| && Mentions(ps[i], n)
    case IdentifierToken(m) => m == n
    case OtherToken => false
  }

  /** The column names one token contributes: exactly the identifiers it
      mentions; an identifier gives its own name, a function the names of its
      parameters left to right. */
  function TokenIdentifiers(t: Token): (r: seq<string>)
    ensures forall n :: n in r <==> Mentions(t, n)
    ensures t.IdentifierToken? ==> r == [t.realName]
    ensures t.FunctionToken? ==> r == Identifiers(t.parameters)
    ensures t.OtherToken? ==> r == []
    decreases t
  {
    match t
    case FunctionToken(ps) => Identifiers(ps)
    case IdentifierToken(n) => [n]
    case OtherToken => []
  }

  /** The identifier names of `ts`, left to right, descending into the
      parameters of nested functions and skipping every other token: a name
      is collected exactly when some token mentions it. */
  function Identifiers(ts: seq<Token>): (r: seq<string>)
    ensures forall n :: n in r <==> exists i :: 0 <= i < |ts| && Mentions(ts[i], n)
    decreases ts
  {
    if ts == [] then []
    else
      assert forall i :: 1 <= i < |ts| ==> ts[1..][i - 1] == ts[i];
      TokenIdentifiers(ts[0]) + Identifiers(ts[1..])
  }

  lemma {:induction false} IdentifiersAppend(a: seq<Token>, b: seq<Token>)
    ensures Identifiers(a + b) == Identifiers(a) + Identifiers(b)
    decreases a
  {
    if a == [] {
      assert a + b == b;
    } else {
      assert (a + b)[0] == a[0];
      assert (a + b)[1..] == a[1..] + b;
      IdentifiersAppend(a[1..], b);
    }
  }

  /** A function over plain identifiers, the usual cluster-key shape
      `LINEAR(c1, c2)`, yields exactly those names, in order and once each
      occurrence. */
  lemma {:induction false} IdentifiersOfNames(ns: seq<string>)
    ensures Identifiers(seq(|ns|, i requires 0 <= i < |ns| => IdentifierToken(ns[i]))) == ns
  {
    var ts := seq(|ns|, i requires 0 <= i < |ns| => IdentifierToken(ns[i]));
    if ns != [] {
      var rest := seq(|ns| - 1, i requires 0 <= i < |ns| - 1 => IdentifierToken(ns[1..][i]));
      assert ts[0] == IdentifierToken(ns[0]);
      assert ts[1..] == rest;
      IdentifiersOfNames(ns[1..]);
      assert Identifiers(ts) == [ns[0]] + ns[1..];
    }
  }

  lemma {:induction false} ClusterKeyIdentifiers(ns: seq<string>)
    ensures Identifiers([FunctionToken(seq(|ns|, i requires 0 <= i < |ns| => IdentifierToken(ns[i])))]) == ns
  {
    IdentifiersOfNames(ns);
    assert [FunctionToken(seq(|ns|, i requires 0 <= i < |ns| => IdentifierToken(ns[i])))][1..] == [];
  }

  /** The column names the parser's output yields: `None` when parsing
      raised, `[]` when it produced no statement. */
  function ColumnNamesOf(outcome: ParseOutcome): (r: Option<seq<string>>)
    ensures r.None? <==> outcome.ParseError?
    ensures r.Some? ==> forall n :: n in r.value <==>
      outcome.statements != [] && exists i :: 0 <= i < |outcome.statements[0]| && Mentions(outcome.statements[0][i], n)
  {
    match outcome
    case ParseError => None
    case Statements(ss) => if ss == [] then Some([]) else Some(Identifiers(ss[0]))
  }

  /** `parse_column_name_from_expr` on the parser's output for the expression. */
  method ParseColumnNameFromExpr(outcome: ParseOutcome) returns (r: Option<seq<string>>)
    ensures r.None? <==> outcome.ParseError?
    ensures outcome == Statements([]) ==> r == Some([])
    ensures outcome.Statements? && outcome.statements != [] ==> r == Some(Identifiers(outcome.statements[0]))
  {
    match outcome
    case ParseError =>
      return None;
    case Statements(ss) =>
      if ss == [] {
        return Some([]);
      }
      var tokens := ss[0];
      var result: seq<string> := [];
      for i := 0 to |tokens|
        invariant result == Identifiers(tokens[..i])
      {
        match tokens[i] {
          case FunctionToken(ps) =>
            result := result + Identifiers(ps);
          case IdentifierToken(n) =>
            result := result + [n];
          case OtherToken =>
        }
        assert Identifiers([tokens[i]]) == TokenIdentifiers(tokens[i]);
        IdentifiersAppend(tokens[..i], [tokens[i]]);
        assert tokens[..i + 1] == tokens[..i] + [tokens[i]];
      }
      assert tokens[..|tokens|] == tokens;
      return Some(result);
  }

  // ---------------------------------------------------------------------
  // Partition-column case repair
  // ---------------------------------------------------------------------

  /** Column `c` names partition column `p` up to case. */
  predicate SameName(c: string, p: string) {
    Lower(c) == Lower(p)
  }

  /** The index of the first table column that names `p` up to case. */
  function FirstMatch(columns: seq<string>, p: string): (r: Option<nat>)
    ensures r.Some? ==> r.value < |columns| && SameName(columns[r.value], p)
    ensures r.Some? ==> forall k :: 0 <= k < r.value ==> !SameName(columns[k], p)
    ensures r.None? ==> forall k :: 0 <= k < |columns| ==> !SameName(columns[k], p)
  {
    if columns == [] then None
    else if SameName(columns[0], p) then Some(0)
    else match FirstMatch(columns[1..], p)
      case None => None
      case Some(k) => Some(k + 1)
  }

  /** The repaired partition columns: in partition order, each replaced by the
      stored name of the first table column matching it up to case, unmatched
      ones dropped. */
  function FixedColumns(partition: seq<string>, columns: seq<string>): (r: seq<string>)
    ensures |r| <= |partition|
    ensures forall j :: 0 <= j < |r| ==> r[j] in columns
    ensures forall j :: 0 <= j < |r| ==> exists i :: 0 <= i < |partition| && SameName(r[j], partition[i])
  {
    if partition == [] then []
    else
      assert forall i :: 0 <= i < |partition| - 1 ==> partition[..|partition| - 1][i] == partition[i];
      FixedColumns(partition[..|partition| - 1], columns)
      + match FirstMatch(columns, partition[|partition| - 1])
        case Some(k) => [columns[k]]
        case None => []
  }

  /** A matched last partition column contributes its first matching table
      column at the end. */
  lemma FixedColumnsMatchedLast(partition: seq<string>, columns: seq<string>)
    requires partition != [] && FirstMatch(columns, partition[|partition| - 1]).Some?
    ensures FixedColumns(partition, columns)
         == FixedColumns(partition[..|partition| - 1], columns)
            + [columns[FirstMatch(columns, partition[|partition| - 1]).value]]
  {
  }

  /** When every partition column has a match, the output lines up with the
      input: element `i` is the first table column matching column `i`. */
  lemma {:induction false} FixedColumnsAllMatched(partition: seq<string>, columns: seq<string>)
    requires forall i :: 0 <= i < |partition| ==> FirstMatch(columns, partition[i]).Some?
    ensures |FixedColumns(partition, columns)| == |partition|
    ensures forall i :: 0 <= i < |partition| ==>
      FixedColumns(partition, columns)[i] == columns[FirstMatch(columns, partition[i]).value]
  {
    if partition != [] {
      var prefix := partition[..|partition| - 1];
      forall i | 0 <= i < |prefix| ensures FirstMatch(columns, prefix[i]).Some? {
        assert prefix[i] == partition[i];
      }
      FixedColumnsAllMatched(prefix, columns);
      FixedColumnsMatchedLast(partition, columns);
      var fixedPrefix := FixedColumns(prefix, columns);
      var fixedAll := FixedColumns(partition, columns);
      forall i | 0 <= i < |partition|
        ensures fixedAll[i] == columns[FirstMatch(columns, partition[i]).value]
      {
        if i < |prefix| {
          assert prefix[i] == partition[i];
          assert fixedAll[i] == fixedPrefix[i];
        } else {
          var matched := columns[FirstMatch(columns, partition[|partition| - 1]).value];
          assert fixedAll == fixedPrefix + [matched];
          assert i == |fixedPrefix| && partition[i] == partition[|partition| - 1];
        }
      }
    }
  }

  /** A partition column without any match contributes nothing. */
  lemma {:induction false} FixedColumnsDropsUnmatched(partition: seq<string>, columns: seq<string>, p: string)
    requires FirstMatch(columns, p).None?
    ensures FixedColumns(partition + [p], columns) == FixedColumns(partition, columns)
  {
    assert (partition + [p])[..|partition|] == partition;
  }

  /** `__fix_partition_column_case`: `partition` is the parsed column list,
      `tableColumns` the names the inspector reports for the table. */
  method FixPartitionColumnCase(partition: Option<seq<string>>, tableColumns: seq<string>) returns (columns: seq<string>)
    ensures partition.None? || partition == Some([]) ==> columns == []
    ensures partition.Some? ==> columns == FixedColumns(partition.value, tableColumns)
  {
    if partition.None? || partition.value == [] {
      return [];
    }
    var ps := partition.value;
    columns := [];
    for i := 0 to |ps|
      invariant columns == FixedColumns(ps[..i], tableColumns)
    {
      var p := ps[i];
      var j := 0;
      var found := false;
      while j < |tableColumns|
        invariant 0 <= j <= |tableColumns|
        invariant forall k :: 0 <= k < j ==> !SameName(tableColumns[k], p)
        invariant columns == FixedColumns(ps[..i], tableColumns)
      {
        if Lower(tableColumns[j]) == Lower(p) {
          found := true;
          break;
        }
        j := j + 1;
      }
      assert ps[..i + 1][..i] == ps[..i];
      if found {
        assert FirstMatch(tableColumns, p) == Some(j);
        columns := columns + [tableColumns[j]];
      }
    }
    assert ps[..|ps|] == ps;
  }

  /** What `get_table_partition_details` returns for a table with a stored
      cluster key: its columns and the `COLUMN_VALUE` interval type. */
  datatype IntervalType = ColumnValue
  datatype TablePartition = TablePartition(columns: seq<string>, intervalType: IntervalType)

  /** The partition columns of a cluster key the parser turned into `outcome`. */
  function PartitionColumns(outcome: ParseOutcome, tableColumns: seq<string>): (r: seq<string>)
    ensures outcome.ParseError? ==> r == []
    ensures forall j :: 0 <= j < |r| ==> r[j] in tableColumns
    ensures outcome.Statements? ==>
      forall j :: 0 <= j < |r| ==> exists n :: n in ColumnNamesOf(outcome).value && SameName(r[j], n)
  {
    match ColumnNamesOf(outcome)
    case None => []
    case Some(ps) =>
      assert forall i :: 0 <= i < |ps| ==> ps[i] in ps;
      FixedColumns(ps, tableColumns)
  }

  // ---------------------------------------------------------------------
  // Snowflake web URLs
  // ---------------------------------------------------------------------

  datatype TableType = Regular | External | Transient | View

  /** The database URL, with `/schemas/{schema}` when a schema is given. */
  function UrlRoot(org: string, account: string, database: Option<string>, schema: Option<string>): (r: string)
    ensures var db := "https://app.snowflake.com/" + Lower(org) + "/" + Lower(account) + "/#/data/databases/" + Formatted(database);
      |db| <= |r| && r[..|db|] == db
      && (if Truthy(schema) then r[|db|..] == "/schemas/" + schema.value else |r| == |db|)
  {
    "https://app.snowflake.com/" + Lower(org) + "/" + Lower(account) + "/#/data/databases/" + Formatted(database)
    + (if Truthy(schema) then "/schemas/" + schema.value else "")
  }

  /** The path segment naming a table's kind. */
  function KindSegment(tableType: TableType): string {
    if tableType == View then "view" else "table"
  }

  /** `get_source_url`, given the cached account and organisation names. */
  function SourceUrl(account: Option<string>, org: Option<string>, database: Option<string>, schema: Option<string>,
                     table: Option<string>, tableType: TableType): (r: Option<string>)
    ensures r.Some? <==> Truthy(account) && Truthy(org)
    ensures r.Some? && !Truthy(table) ==> r.value == UrlRoot(org.value, account.value, database, schema)
  {
    if Truthy(account) && Truthy(org) then
      var root := UrlRoot(org.value, account.value, database, schema);
      Some(if Truthy(table) then root + "/" + KindSegment(tableType) + "/" + table.value else root)
    else None
  }

  /** The `sourceUrl` of a stored procedure; `None` stands for the exception
      that `.lower()` on a missing organisation or account name raises. */
  function ProcedureUrl(account: Option<string>, org: Option<string>, database: string, schema: string,
                        name: string, signature: Option<string>): (r: Option<string>)
    ensures r.Some? <==> account.Some? && org.Some?
    ensures r.Some? ==>
      var root := UrlRoot(org.value, account.value, Some(database), Some(schema)) + "/procedure/" + name;
      |root| <= |r.value| && r.value[..|root|] == root
  {
    if org.Some? && account.Some? then
      Some(UrlRoot(org.value, account.value, Some(database), Some(schema)) + "/procedure/" + name
           + (if Truthy(signature) then signature.value else ""))
    else None
  }

  lemma LowerIdempotent(s: string)
    ensures Lower(Lower(s)) == Lower(s)
  {
  }

  /** The URL does not depend on the case of the organisation and account names. */
  lemma UrlRootIgnoresCase(org: string, account: string, database: Option<string>, schema: Option<string>)
    ensures UrlRoot(Lower(org), Lower(account), database, schema) == UrlRoot(org, account, database, schema)
  {
    LowerIdempotent(org);
    LowerIdempotent(account);
  }

  /** A schema URL extends the database URL by `/schemas/{schema}`. */
  lemma SchemaUrlExtendsDatabaseUrl(org: string, account: string, database: Option<string>, schema: string)
    requires schema != ""
    ensures UrlRoot(org, account, database, Some(schema)) == UrlRoot(org, account, database, None) + "/schemas/" + schema
  {
  }

  /** A table URL extends the schema URL by `/{kind}/{table}`. */
  lemma TableUrlExtendsSchemaUrl(account: Option<string>, org: Option<string>, database: Option<string>,
                                 schema: Option<string>, table: string, tableType: TableType)
    requires Truthy(account) && Truthy(org) && table != ""
    ensures SourceUrl(account, org, database, schema, Some(table), tableType).value
         == SourceUrl(account, org, database, schema, None, tableType).value + "/" + KindSegment(tableType) + "/" + table
  {
  }

  /** Two table URLs of the same schema coincide only for the same table name
      and the same view-or-table kind. */
  lemma TableUrlDeterminesTable(account: Option<string>, org: Option<string>, database: Option<string>,
                                schema: Option<string>, t1: string, k1: TableType, t2: string, k2: TableType)
    requires Truthy(account) && Truthy(org) && t1 != "" && t2 != ""
    requires SourceUrl(account, org, database, schema, Some(t1), k1) == SourceUrl(account, org, database, schema, Some(t2), k2)
    ensures t1 == t2
    ensures (k1 == View) == (k2 == View)
  {
    var root := UrlRoot(org.value, account.value, database, schema);
    var u1 := root + "/" + KindSegment(k1) + "/" + t1;
    var u2 := root + "/" + KindSegment(k2) + "/" + t2;
    assert u1 == u2;
    assert u1[|root| + 1] == KindSegment(k1)[0];
    assert u2[|root| + 1] == KindSegment(k2)[0];
    assert KindSegment(k1) == KindSegment(k2);
    var n := |root| + 1 + |KindSegment(k1)| + 1;
    assert u1[n..] == t1;
    assert u2[n..] == t2;
  }

  /** The procedure URL extends the schema URL that `get_source_url` gives
      for the same database and schema. */
  lemma ProcedureUrlExtendsSchemaUrl(account: Option<string>, org: Option<string>, database: string, schema: string,
                                     name: string, signature: Option<string>, tableType: TableType)
    requires Truthy(account) && Truthy(org)
    ensures ProcedureUrl(account, org, database, schema, name, signature).value
         == SourceUrl(account, org, Some(database), Some(schema), None, tableType).value + "/procedure/" + name
            + (if Truthy(signature) then signature.value else "")
  {
  }

  // ---------------------------------------------------------------------
  // Table list of a schema
  // ---------------------------------------------------------------------

  datatype TableNameAndType = TableNameAndType(name: string, tableType: TableType)

  function Tagged(names: seq<string>, t: TableType): (r: seq<TableNameAndType>)
    ensures |r| == |names|
    ensures forall i :: 0 <= i < |names| ==> r[i] == TableNameAndType(names[i], t)
  {
    seq(|names|, i requires 0 <= i < |names| => TableNameAndType(names[i], t))
  }

  /** The names of the tables of type `t`, in list order. */
  function NamesOfType(tables: seq<TableNameAndType>, t: TableType): seq<string> {
    if tables == [] then []
    else (if tables[0].tableType == t then [tables[0].name] else []) + NamesOfType(tables[1..], t)
  }

  lemma {:induction false} NamesOfTypeAppend(a: seq<TableNameAndType>, b: seq<TableNameAndType>, t: TableType)
    ensures NamesOfType(a + b, t) == NamesOfType(a, t) + NamesOfType(b, t)
  {
    if a == [] {
      assert a + b == b;
    } else {
      assert (a + b)[0] == a[0];
      assert (a + b)[1..] == a[1..] + b;
      NamesOfTypeAppend(a[1..], b, t);
    }
  }

  /** Tagging a name list and then selecting a type gives the list back for
      its own type and nothing for any other. */
  lemma {:induction false} NamesOfTagged(names: seq<string>, t: TableType, u: TableType)
    ensures NamesOfType(Tagged(names, t), u) == if t == u then names else []
  {
    if names != [] {
      assert Tagged(names, t)[1..] == Tagged(names[1..], t);
      NamesOfTagged(names[1..], t, u);
    }
  }

  /** Selecting type `u` from the regular, external and transient lists
      tagged and concatenated gives back the list of that type. */
  lemma NamesOfThreeLists(regular: seq<string>, external: seq<string>, transient: seq<string>, u: TableType)
    ensures NamesOfType(Tagged(regular, Regular) + Tagged(external, External) + Tagged(transient, Transient), u)
         == (if u == Regular then regular else []) + (if u == External then external else [])
            + (if u == Transient then transient else [])
  {
    var r, e, t := Tagged(regular, Regular), Tagged(external, External), Tagged(transient, Transient);
    NamesOfTypeAppend(r + e, t, u);
    NamesOfTypeAppend(r, e, u);
    NamesOfTagged(regular, Regular, u);
    NamesOfTagged(external, External, u);
    NamesOfTagged(transient, Transient, u);
  }

  /** `query_table_names_and_types`: the inspector's regular, external and
      transient table names of a schema are parameters. */
  method QueryTableNamesAndTypes(regular: seq<string>, external: seq<string>, transient: seq<string>,
                                 includeTransientTables: bool) returns (tables: seq<TableNameAndType>)
    ensures |tables| == |regular| + |external| + (if includeTransientTables then |transient| else 0)
    ensures tables[..|regular|] == Tagged(regular, Regular)
    ensures tables[|regular|..|regular| + |external|] == Tagged(external, External)
    ensures tables[|regular| + |external|..] == if includeTransientTables then Tagged(transient, Transient) else []
    ensures NamesOfType(tables, Regular) == regular
    ensures NamesOfType(tables, External) == external
    ensures NamesOfType(tables, Transient) == if includeTransientTables then transient else []
    ensures NamesOfType(tables, View) == []
  {
    var r := Tagged(regular, Regular);
    var e := Tagged(external, External);
    tables := r + e;
    var included: seq<string> := [];
    if includeTransientTables {
      included := transient;
      tables := tables + Tagged(transient, Transient);
    }
    assert tables == r + e + Tagged(included, Transient);
    assert tables[..|regular|] == r;
    assert tables[|regular|..|regular| + |external|] == e;
    NamesOfThreeLists(regular, external, included, Regular);
    NamesOfThreeLists(regular, external, included, External);
    NamesOfThreeLists(regular, external, included, Transient);
    NamesOfThreeLists(regular, external, included, View);
  }

  // ---------------------------------------------------------------------
  // The source object
  // ---------------------------------------------------------------------

  class SnowflakeSource {
    var partitionDetails: map<string, string>
    var schemaDescMap: map<(string, string), Option<string>>
    var databaseDescMap: map<string, Option<string>>
    var cachedAccount: Option<string>
    var cachedOrgName: Option<string>

    constructor ()
      ensures partitionDetails == map[] && schemaDescMap == map[] && databaseDescMap == map[]
      ensures cachedAccount == None && cachedOrgName == None
    {
      partitionDetails := map[];
      schemaDescMap := map[];
      databaseDescMap := map[];
      cachedAccount := None;
      cachedOrgName := None;
    }

    /** `set_partition_details` on the rows of the cluster-key query. */
    method SetPartitionDetails(rows: seq<ClusterKeyRow>)
      modifies this`partitionDetails
      ensures partitionDetails == PartitionMap(rows)
    {
      partitionDetails := map[];
      for i := 0 to |rows|
        invariant partitionDetails == PartitionMap(rows[..i])
      {
        var row := rows[i];
        if row.clusteringKey.Some? && row.clusteringKey.value != "" {
          partitionDetails := partitionDetails[row.tableSchema + "." + row.tableName := row.clusteringKey.value];
        }
        assert rows[..i + 1][..i] == rows[..i];
      }
      assert rows[..|rows|] == rows;
    }

    /** `set_schema_description_map`: no clearing; each row overwrites its key. */
    method SetSchemaDescriptionMap(rows: seq<SchemaCommentRow>)
      modifies this`schemaDescMap
      ensures schemaDescMap == AssignAll(old(schemaDescMap), SchemaEntries(rows))
    {
      ghost var entries := SchemaEntries(rows);
      for i := 0 to |rows|
        invariant schemaDescMap == AssignAll(old(schemaDescMap), entries[..i])
      {
        var row := rows[i];
        schemaDescMap := schemaDescMap[(row.databaseName, row.schemaName) := row.comment];
        assert entries[..i + 1][..i] == entries[..i];
      }
      assert entries[..|rows|] == entries;
    }

    /** `set_database_description_map`: loads only into an empty map. */
    method SetDatabaseDescriptionMap(rows: seq<DatabaseCommentRow>)
      modifies this`databaseDescMap
      ensures databaseDescMap == LoadDatabaseDescriptions(old(databaseDescMap), rows)
    {
      if databaseDescMap == map[] {
        ghost var entries := DatabaseEntries(rows);
        for i := 0 to |rows|
          invariant databaseDescMap == AssignAll(old(databaseDescMap), entries[..i])
        {
          databaseDescMap := databaseDescMap[rows[i].databaseName := rows[i].comment];
          assert entries[..i + 1][..i] == entries[..i];
        }
        assert entries[..|rows|] == entries;
      }
    }

    /** `get_schema_description` within the current database. */
    function SchemaDescription(database: string, schema: string): (r: Option<string>)
      reads this
      ensures (database, schema) !in schemaDescMap ==> r.None?
      ensures (database, schema) in schemaDescMap ==> r == schemaDescMap[(database, schema)]
    {
      if (database, schema) in schemaDescMap then schemaDescMap[(database, schema)] else None
    }

    /** `get_database_description`. */
    function DatabaseDescription(database: string): (r: Option<string>)
      reads this
      ensures database !in databaseDescMap ==> r.None?
      ensures database in databaseDescMap ==> r == databaseDescMap[database]
    {
      if database in databaseDescMap then databaseDescMap[database] else None
    }

    /** `get_table_partition_details`; `parse` stands for the SQL parser and
        `tableColumns` for the inspector's column names of the table. */
    method GetTablePartitionDetails(tableName: string, schemaName: string, parse: string -> ParseOutcome,
                                    tableColumns: seq<string>) returns (found: bool, partition: Option<TablePartition>)
      ensures found <==> PartitionKey(schemaName, tableName) in partitionDetails
                         && partitionDetails[PartitionKey(schemaName, tableName)] != ""
      ensures !found ==> partition.None?
      ensures found ==> partition == Some(TablePartition(
                          PartitionColumns(parse(partitionDetails[PartitionKey(schemaName, tableName)]), tableColumns),
                          ColumnValue))
    {
      var key := schemaName + "." + tableName;
      if key in partitionDetails && partitionDetails[key] != "" {
        var names := ParseColumnNameFromExpr(parse(partitionDetails[key]));
        var columns := FixPartitionColumnCase(names, tableColumns);
        return true, Some(TablePartition(columns, ColumnValue));
      }
      return false, None;
    }

    /** The `account` property: the query result `fetched` is stored only
        while nothing is cached, so a missing answer is asked for again. */
    method Account(fetched: Option<string>) returns (account: Option<string>)
      modifies this`cachedAccount
      ensures old(cachedAccount).Some? ==> cachedAccount == old(cachedAccount)
      ensures old(cachedAccount).None? ==> cachedAccount == fetched
      ensures account == cachedAccount
    {
      if cachedAccount.None? {
        cachedAccount := fetched;
      }
      return cachedAccount;
    }

    /** The `org_name` property, cached like `account`. */
    method OrgName(fetched: Option<string>) returns (org: Option<string>)
      modifies this`cachedOrgName
      ensures old(cachedOrgName).Some? ==> cachedOrgName == old(cachedOrgName)
      ensures old(cachedOrgName).None? ==> cachedOrgName == fetched
      ensures org == cachedOrgName
    {
      if cachedOrgName.None? {
        cachedOrgName := fetched;
      }
      return cachedOrgName;
    }

    /** `get_source_url`; `accountQuery` and `orgQuery` are what the account
        and organisation queries would answer. The organisation is looked up
        only when the account is truthy. */
    method GetSourceUrl(database: Option<string>, schema: Option<string>, table: Option<string>, tableType: TableType,
                        accountQuery: Option<string>, orgQuery: Option<string>) returns (url: Option<string>)
      modifies this`cachedAccount, this`cachedOrgName
      ensures cachedAccount == (if old(cachedAccount).Some? then old(cachedAccount) else accountQuery)
      ensures cachedOrgName == (if old(cachedOrgName).Some? || !Truthy(cachedAccount) then old(cachedOrgName) else orgQuery)
      ensures url == SourceUrl(cachedAccount, cachedOrgName, database, schema, table, tableType)
    {
      var account := Account(accountQuery);
      if Truthy(account) {
        var org := OrgName(orgQuery);
      }
      url := SourceUrl(cachedAccount, cachedOrgName, database, schema, table, tableType);
    }

    /** The `sourceUrl` of a stored procedure. The organisation name is
        evaluated first; when it is missing, `.lower()` raises before the
        account is looked up. */
    method StoredProcedureUrl(database: string, schema: string, name: string, signature: Option<string>,
                              accountQuery: Option<string>, orgQuery: Option<string>) returns (url: Option<string>)
      modifies this`cachedAccount, this`cachedOrgName
      ensures cachedOrgName == (if old(cachedOrgName).Some? then old(cachedOrgName) else orgQuery)
      ensures cachedAccount == (if old(cachedAccount).Some? || cachedOrgName.None? then old(cachedAccount) else accountQuery)
      ensures url == ProcedureUrl(cachedAccount, cachedOrgName, database, schema, name, signature)
    {
      var org := OrgName(orgQuery);
      if org.Some? {
        var account := Account(accountQuery);
      }
      url := ProcedureUrl(cachedAccount, cachedOrgName, database, schema, name, signature);
    }
  }

  /** After `set_partition_details(rows)`, a table reports a partition
      exactly when some row recorded a cluster key under its key. */
  lemma PartitionReportedForClusteredTables(rows: seq<ClusterKeyRow>, schema: string, table: string)
    ensures (PartitionKey(schema, table) in PartitionMap(rows) && PartitionMap(rows)[PartitionKey(schema, table)] != "")
        <==> exists i :: 0 <= i < |rows| && Records(rows[i], PartitionKey(schema, table))
  {
  }
}
