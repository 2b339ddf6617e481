/**
 * The fluent SQL text builder the extension uses for its configuration
 * tables. Setters overwrite (or, for lists, append to) the builder's fields;
 * the `build_*` operations assemble the statement text from them.
 */
module QueryBuilder {
  import opened Wrappers
  import opened Text

  /** The extension's configuration tables. */
  datatype FlockTable = DefaultModel | UserDefinedModel | Prompt | Secret

  datatype CreateType = Table | Schema

  const ConfigPrefix := "flockmtl_config.FLOCKMTL_"
  const InternalSuffix := "_INTERNAL_TABLE"

  /** The part of a configuration table's name that tells the tables apart. */
  function TableStem(t: FlockTable): string
  {
    match t
    case DefaultModel => "MODEL_DEFAULT"
    case UserDefinedModel => "MODEL_USER_DEFINED"
    case Prompt => "PROMPT"
    case Secret => "SECRET"
  }

  /** The qualified name `from` stores for each configuration table. */
  function TableName(t: FlockTable): string
  {
    ConfigPrefix + (TableStem(t) + InternalSuffix)
  }

  /** Different configuration tables have different names. */
  lemma TableNameInjective(a: FlockTable, b: FlockTable)
    requires TableName(a) == TableName(b)
    ensures a == b
  {
    var sa, sb := TableStem(a) + InternalSuffix, TableStem(b) + InternalSuffix;
    assert sa == TableName(a)[|ConfigPrefix|..] && sb == TableName(b)[|ConfigPrefix|..];
    assert TableStem(a) == sa[..|sa| - |InternalSuffix|];
    assert TableStem(b) == sb[..|sb| - |InternalSuffix|];
  }

  /** `keyword + v`, or nothing when `v` is empty. */
  function Optional(keyword: string, v: string): string
  {
    if v == "" then "" else keyword + v
  }

  /** `opening + v + ")"`, or nothing when `v` is empty. */
  function Enclosed(opening: string, v: string): string
  {
    if v == "" then "" else opening + v + ")"
  }

  /** The WHERE part: nothing, or the conditions joined by ` AND `. */
  function WhereText(conditions: seq<string>): string
  {
    if |conditions| == 0 then "" else " WHERE " + Join(conditions, " AND ")
  }

  function SelectText(columns: string, table: string, conditions: seq<string>, orderBy: string, limit: string): string
  {
    "SELECT " + columns + " FROM " + table + WhereText(conditions)
    + Optional(" ORDER BY ", orderBy) + Optional(" LIMIT ", limit)
  }

  /** Every value in its own parentheses. */
  function Parenthesized(values: seq<string>): (r: seq<string>)
    ensures |r| == |values|
  {
    seq(|values|, i requires 0 <= i < |values| => "(" + values[i] + ")")
  }

  /**
   * `INSERT INTO t (cols) VALUES (v1),(v2);`. With no value the text is
   * `INSERT INTO t (cols) VALUES;`: the character dropped to remove the last
   * comma is then the space after `VALUES`.
   */
  function InsertText(table: string, columns: string, values: seq<string>): string
  {
    "INSERT INTO " + table + " (" + columns + ") VALUES"
    + (if |values| == 0 then "" else " " + Join(Parenthesized(values), ","))
    + ";"
  }

  /** The `column = value` assignments, in order. */
  function Assignments(columns: seq<string>, values: seq<string>): (r: seq<string>)
    requires |columns| == |values|
    ensures |r| == |columns|
  {
    seq(|columns|, i requires 0 <= i < |columns| => columns[i] + " = " + values[i])
  }

  function UpdateText(table: string, columns: seq<string>, values: seq<string>, conditions: seq<string>): string
    requires |columns| == |values|
  {
    "UPDATE " + table + " SET " + Join(Assignments(columns, values), ", ") + WhereText(conditions)
  }

  function DeleteText(table: string, conditions: seq<string>): string
  {
    "DELETE FROM " + table + WhereText(conditions)
  }

  /**
   * `CREATE TABLE t (c1,c2,PRIMARY KEY (pk), FOREIGN KEY (fk));` with the
   * key parts only when set, or `CREATE SCHEMA s;`.
   */
  function CreateText(kind: CreateType, table: string, schema: string, columns: seq<string>,
                      primaryKey: string, foreignKey: string): string
  {
    match kind
    case Table =>
      "CREATE TABLE " + (table + " (") + Terminated(columns, ",")
      + Enclosed("PRIMARY KEY (", primaryKey) + Enclosed(", FOREIGN KEY (", foreignKey) + ");"
    case Schema => "CREATE SCHEMA " + (schema + ";")
  }

  /** A further condition is appended after ` AND `, so none is ever followed by a separator. */
  lemma WhereSnoc(conditions: seq<string>, c: string)
    requires |conditions| > 0
    ensures WhereText(conditions + [c]) == WhereText(conditions) + " AND " + c
  {
    JoinSnoc(conditions, c, " AND ");
  }

  /** DELETE text never ends in a semicolon: none appears unless the table or a condition holds one. */
  lemma DeleteHasNoSemicolon(table: string, conditions: seq<string>)
    requires Avoids(table, ';')
    requires forall i :: 0 <= i < |conditions| ==> Avoids(conditions[i], ';')
    ensures Avoids(DeleteText(table, conditions), ';')
  {
    if |conditions| > 0 {
      JoinAvoids(conditions, " AND ", ';');
    }
  }

  /** A further value is added as `,(v)` just before the closing semicolon. */
  lemma InsertSnoc(table: string, columns: string, values: seq<string>, v: string)
    requires |values| > 0
    ensures var before := InsertText(table, columns, values);
      InsertText(table, columns, values + [v]) == before[..|before| - 1] + ",(" + v + ");"
  {
    var ps := Parenthesized(values);
    assert Parenthesized(values + [v]) == ps + ["(" + v + ")"];
    JoinSnoc(ps, "(" + v + ")", ",");
    var stem := "INSERT INTO " + table + " (" + columns + ") VALUES" + (" " + Join(ps, ","));
    assert InsertText(table, columns, values) == stem + ";";
    assert (stem + ";")[..|stem + ";"| - 1] == stem;
  }

  /** With no value the text ends `VALUES;`, without the space. */
  lemma InsertWithoutValues(table: string, columns: string)
    ensures InsertText(table, columns, []) == "INSERT INTO " + table + " (" + columns + ") VALUES;"
  {
  }

  /** A further column and value pair is added as `, c = v`, after the pairs already there. */
  lemma UpdateSnoc(table: string, columns: seq<string>, values: seq<string>, c: string, v: string, conditions: seq<string>)
    requires |columns| == |values| > 0
    ensures UpdateText(table, columns + [c], values + [v], conditions)
         == "UPDATE " + table + " SET " + Join(Assignments(columns, values), ", ") + ", " + (c + " = " + v) + WhereText(conditions)
  {
    assert Assignments(columns + [c], values + [v]) == Assignments(columns, values) + [c + " = " + v];
    JoinSnoc(Assignments(columns, values), c + " = " + v, ", ");
  }

  /** Without keys the comma after the last column stays: the text ends `,);`. */
  lemma CreateWithoutKeys(table: string, schema: string, columns: seq<string>)
    requires |columns| > 0
    ensures CreateText(Table, table, schema, columns, "", "") == "CREATE TABLE " + table + " (" + Join(columns, ",") + ",);"
  {
    TerminatedIsJoin(columns, ",");
  }

  /** With no columns chosen the column list is empty: `SELECT  FROM t`. */
  lemma SelectWithoutColumns(table: string)
    ensures SelectText("", table, [], "", "") == "SELECT  FROM " + table
  {
  }

  /** All of the builder's fields at once. */
  datatype Fields = Fields(
    createClause: bool, createType: CreateType, schemaName: string, createColumns: seq<string>,
    createPrimaryKey: string, createForeignKey: string,
    updateClause: bool, updateColumns: seq<string>, updateValues: seq<string>,
    deleteClause: bool,
    insertClause: bool, insertColumns: string, insertValues: seq<string>,
    selectClause: bool, selectColumns: string, orderByClause: string, limitClause: string,
    tableName: string, whereClause: seq<string>)

  /** The empty builder. */
  const Empty := Fields(false, Table, "", [], "", "", false, [], [], false, false, "", [], false, "", "", "", "", [])

  /**
   * Appends `parts` joined by `sep`: each part, then the separator unless it
   * is the last.
   */
  method AppendJoined(query: string, parts: seq<string>, sep: string) returns (r: string)
    ensures r == query + Join(parts, sep)
  {
    r := query;
    var i := 0;
    while i < |parts|
      invariant 0 <= i <= |parts|
      invariant r == query + Join(parts[..i], sep) + (if 0 < i < |parts| then sep else "")
    {
      if i > 0 {
        JoinSnoc(parts[..i], parts[i], sep);
      }
      assert parts[..i + 1] == parts[..i] + [parts[i]];
      r := r + parts[i];
      if i != |parts| - 1 {
        r := r + sep;
      }
      i := i + 1;
    }
    assert parts[..i] == parts;
  }

  /** Appends the WHERE part: ` WHERE ` and the conditions, when there are any. */
  method AppendWhere(query: string, conditions: seq<string>) returns (r: string)
    ensures r == query + WhereText(conditions)
  {
    r := query;
    if |conditions| > 0 {
      r := AppendJoined(r + " WHERE ", conditions, " AND ");
    }
  }

  class Query {
    var createClause: bool
    var createType: CreateType
    var schemaName: string
    var createColumns: seq<string>
    var createPrimaryKey: string
    var createForeignKey: string
    var updateClause: bool
    var updateColumns: seq<string>
    var updateValues: seq<string>
    var deleteClause: bool
    var insertClause: bool
    var insertColumns: string
    var insertValues: seq<string>
    var selectClause: bool
    var selectColumns: string
    var orderByClause: string
    var limitClause: string
    var tableName: string
    var whereClause: seq<string>

    ghost function State(): Fields
      reads this
    {
      Fields(createClause, createType, schemaName, createColumns, createPrimaryKey, createForeignKey,
             updateClause, updateColumns, updateValues, deleteClause, insertClause, insertColumns, insertValues,
             selectClause, selectColumns, orderByClause, limitClause, tableName, whereClause)
    }

    constructor()
      ensures State() == Empty
    {
      createType := Table;
      schemaName, createColumns, createPrimaryKey, createForeignKey := "", [], "", "";
      updateColumns, updateValues := [], [];
      insertColumns, insertValues := "", [];
      selectColumns, orderByClause, limitClause := "", "", "";
      tableName, whereClause := "", [];
      createClause, updateClause, deleteClause, insertClause, selectClause := false, false, false, false, false;
    }

    // CREATE clause

    method Create(kind: CreateType)
      modifies this
      ensures State() == old(State()).(createClause := true, createType := kind)
    {
      createClause := true;
      createType := kind;
    }

    method SetTable(name: string)
      modifies this
      ensures State() == old(State()).(tableName := name)
    {
      tableName := name;
    }

    method SetSchema(name: string)
      modifies this
      ensures State() == old(State()).(schemaName := name)
    {
      schemaName := name;
    }

    method Column(column: string)
      modifies this
      ensures State() == old(State()).(createColumns := old(createColumns) + [column])
    {
      createColumns := createColumns + [column];
    }

    method PrimaryKey(key: string)
      modifies this
      ensures State() == old(State()).(createPrimaryKey := key)
    {
      createPrimaryKey := key;
    }

    method ForeignKey(key: string)
      modifies this
      ensures State() == old(State()).(createForeignKey := key)
    {
      createForeignKey := key;
    }

    /** The CREATE statement; the loop puts a comma after every column. */
    method BuildCreate() returns (r: string)
      ensures r == CreateText(createType, tableName, schemaName, createColumns, createPrimaryKey, createForeignKey)
    {
      r := "CREATE ";
      match createType {
        case Table =>
          r := r + "TABLE ";
          assert r == "CREATE TABLE ";
          r := r + (tableName + " (");
          ghost var head := r;
          var i := 0;
          while i < |createColumns|
            invariant 0 <= i <= |createColumns|
            invariant r == head + Terminated(createColumns[..i], ",")
          {
            assert createColumns[..i + 1][..i] == createColumns[..i];
            r := r + (createColumns[i] + ",");
            i := i + 1;
          }
          assert createColumns[..i] == createColumns;
          ghost var body := r;
          if createPrimaryKey != "" {
            r := r + ("PRIMARY KEY (" + createPrimaryKey + ")");
          } else {
            assert r == body + "";
          }
          ghost var keys := r;
          if createForeignKey != "" {
            r := r + (", FOREIGN KEY (" + createForeignKey + ")");
          } else {
            assert r == keys + "";
          }
          r := r + ");";
        case Schema =>
          r := r + "SCHEMA ";
          assert r == "CREATE SCHEMA ";
          r := r + (schemaName + ";");
      }
    }

    // UPDATE clause

    method Update(name: string)
      modifies this
      ensures State() == old(State()).(updateClause := true, tableName := name)
    {
      updateClause := true;
      tableName := name;
    }

    method Set(columns: seq<string>)
      modifies this
      ensures State() == old(State()).(updateColumns := columns)
    {
      updateColumns := columns;
    }

    method Values(values: seq<string>)
      modifies this
      ensures State() == old(State()).(updateValues := values)
    {
      updateValues := values;
    }

    /** The UPDATE statement, refused when the columns and values do not pair up. */
    method BuildUpdate() returns (r: Result<string, string>)
      ensures |updateColumns| != |updateValues| ==> r == Err("Invalid number of columns and values")
      ensures |updateColumns| == |updateValues| ==>
        r == Ok(UpdateText(tableName, updateColumns, updateValues, whereClause))
    {
      var query := "UPDATE " + tableName + " SET ";
      if |updateColumns| != |updateValues| {
        return Err("Invalid number of columns and values");
      }
      query := AppendJoined(query, Assignments(updateColumns, updateValues), ", ");
      query := AppendWhere(query, whereClause);
      return Ok(query);
    }

    // DELETE clause

    method DeleteFrom(name: string)
      modifies this
      ensures State() == old(State()).(deleteClause := true, tableName := name)
    {
      deleteClause := true;
      tableName := name;
    }

    method BuildDelete() returns (r: string)
      ensures r == DeleteText(tableName, whereClause)
    {
      r := "DELETE FROM " + tableName;
      r := AppendWhere(r, whereClause);
    }

    // INSERT clause

    method Insert(name: string)
      modifies this
      ensures State() == old(State()).(insertClause := true, tableName := name)
    {
      insertClause := true;
      tableName := name;
    }

    method Columns(columns: string)
      modifies this
      ensures State() == old(State()).(insertColumns := columns)
    {
      insertColumns := columns;
    }

    method Value(value: string)
      modifies this
      ensures State() == old(State()).(insertValues := old(insertValues) + [value])
    {
      insertValues := insertValues + [value];
    }

    /** The INSERT statement: every value parenthesised and followed by a comma, then the last character dropped. */
    method BuildInsert() returns (r: string)
      ensures r == InsertText(tableName, insertColumns, insertValues)
    {
      ghost var stem := "INSERT INTO " + tableName + " (" + insertColumns + ") VALUES";
      var query := "INSERT INTO " + tableName + " (" + insertColumns + ") VALUES ";
      ghost var head := query;
      var i := 0;
      while i < |insertValues|
        invariant 0 <= i <= |insertValues|
        invariant query == head + Terminated(Parenthesized(insertValues)[..i], ",")
      {
        assert Parenthesized(insertValues)[..i + 1][..i] == Parenthesized(insertValues)[..i];
        query := query + "(" + insertValues[i] + "),";
        i := i + 1;
      }
      assert Parenthesized(insertValues)[..i] == Parenthesized(insertValues);
      if |insertValues| > 0 {
        TerminatedIsJoin(Parenthesized(insertValues), ",");
      }
      assert head == stem + " ";
      query := query[..|query| - 1];
      r := query + ";";
    }

    // SELECT clause

    method Select(columns: string)
      modifies this
      ensures State() == old(State()).(selectClause := true, selectColumns := columns)
    {
      selectClause := true;
      selectColumns := columns;
    }

    method From(name: string)
      modifies this
      ensures State() == old(State()).(tableName := name)
    {
      tableName := name;
    }

    method FromTable(table: FlockTable)
      modifies this
      ensures State() == old(State()).(tableName := TableName(table))
    {
      tableName := TableName(table);
    }

    method OrderBy(clause: string)
      modifies this
      ensures State() == old(State()).(orderByClause := clause)
    {
      orderByClause := clause;
    }

    method Limit(clause: string)
      modifies this
      ensures State() == old(State()).(limitClause := clause)
    {
      limitClause := clause;
    }

    /**
     * The SELECT statement, refused without a table. With no columns the
     * `*` meant for them lands on the `select_clause` flag instead, and the
     * text reads `SELECT  FROM t`.
     */
    method BuildSelect() returns (r: Result<string, string>)
      modifies this
      ensures old(tableName) == "" ==> r == Err("Table name is required") && State() == old(State())
      ensures old(tableName) != "" ==>
        && r == Ok(SelectText(selectColumns, tableName, whereClause, orderByClause, limitClause))
        && State() == old(State()).(selectClause := old(selectClause) || old(selectColumns) == "")
    {
      if tableName == "" {
        return Err("Table name is required");
      }
      if selectColumns == "" {
        selectClause := true;
      }
      var query := "SELECT " + selectColumns + " FROM " + tableName;
      query := AppendWhere(query, whereClause);
      ghost var conditioned := query;
      if orderByClause != "" {
        query := query + (" ORDER BY " + orderByClause);
      } else {
        assert query == conditioned + "";
      }
      ghost var ordered := query;
      if limitClause != "" {
        query := query + (" LIMIT " + limitClause);
      } else {
        assert query == ordered + "";
      }
      return Ok(query);
    }
  }
}
