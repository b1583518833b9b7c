/**
 * The statement builders: `generateCreateSchemaSQL`,
 * `generateCreateTableSQL`, `generateInsertSQL`, `generateUpdateSQL`,
 * `generateDeleteSQL` and `getColumnNames`. Each loop of the source is a
 * method proved equal to a specification function; the properties of the
 * statements are lemmas about those functions.
 */
module Statements {
  import opened Strings
  import opened Documents
  import opened Render

  // ---------------------------------------------------------------------
  // Specification
  // ---------------------------------------------------------------------

  const SchemaPrefix: string := "CREATE SCHEMA "

  /** Go's `generateCreateSchemaSQL`: `CREATE SCHEMA <schema>;`. The
      schema name can be read back from the statement. */
  function CreateSchemaSQL(schema: string): (sql: string)
    ensures |sql| == |SchemaPrefix| + |schema| + 1
    ensures sql[..|SchemaPrefix|] == SchemaPrefix && sql[|sql| - 1] == ';'
    ensures sql[|SchemaPrefix|..|sql| - 1] == schema
  {
    SchemaPrefix + schema + ";"
  }

  /** Two different schema names never give the same statement. */
  lemma CreateSchemaInjective(s1: string, s2: string)
    requires CreateSchemaSQL(s1) == CreateSchemaSQL(s2)
    ensures s1 == s2
  {
    var sql := CreateSchemaSQL(s1);
    assert s1 == sql[|SchemaPrefix|..|sql| - 1];
  }

  /** The columns of a table created from `d`, and of an insert of `d`:
      the field names in Go's string order. */
  function ColumnNames(d: Document): (cols: seq<string>)
    ensures Sorted(cols)
    ensures multiset(cols) == multiset(Keys(d))
  {
    Sort(Keys(d))
  }

  /** `<column> <type>` for one column of `CREATE TABLE`. */
  function ColumnDefinition(d: Document, col: string): string
  {
    col + " " + ColumnSQLDataType(col, Get(d, col))
  }

  function ColumnDefinitions(d: Document, cols: seq<string>): seq<string>
  {
    seq(|cols|, i requires 0 <= i < |cols| => ColumnDefinition(d, cols[i]))
  }

  /** The text `generateCreateTableSQL` returns for namespace `ns` and
      insert document `d`. */
  function CreateTableSQL(ns: string, d: Document): string
  {
    "CREATE TABLE " + ns + " (" + Join(", ", ColumnDefinitions(d, ColumnNames(d))) + ");"
  }

  /** The rendered values of the columns `cols`, position by position. */
  function ColumnValues(d: Document, cols: seq<string>): (vals: seq<string>)
    ensures |vals| == |cols|
  {
    seq(|cols|, i requires 0 <= i < |cols| => ColumnValue(Get(d, cols[i])))
  }

  /** The text `generateInsertSQL` returns for an insert of `d` into `ns`. */
  function InsertSQL(ns: string, d: Document): string
  {
    var cols := ColumnNames(d);
    "INSERT INTO " + ns + " (" + Join(", ", cols) + ") VALUES (" + Join(", ", ColumnValues(d, cols)) + ");"
  }

  /** `<column> = <literal>`: one SET fragment of `diff.u`, or one
      fragment of a WHERE clause. */
  function Assignment(p: (string, Value)): string
  {
    p.0 + " = " + ColumnValue(p.1)
  }

  /** The fragments for the pairs of `d`, in iteration order. */
  function Assignments(d: Document): seq<string>
  {
    Map(Assignment, d)
  }

  /** `<column> = NULL`: one SET fragment of `diff.d`. */
  function NullAssignment(col: string): string
  {
    col + " = NULL"
  }

  /** The sorted SET fragments of an update whose document is `o`: from
      `diff.u` when that is a map, otherwise from the names in `diff.d`
      when that is a map; otherwise, and when `diff` is not a map, the
      "invalid oplog" error. */
  function SetFragments(o: Document): (r: Result<seq<string>>)
    ensures r.Err? <==> !Get(o, "diff").Object? ||
                        (!Get(Get(o, "diff").fields, "u").Object? && !Get(Get(o, "diff").fields, "d").Object?)
    ensures r.Err? ==> r.error == InvalidOplog
    ensures r.Ok? ==> Sorted(r.value)
    ensures r.Ok? && Get(Get(o, "diff").fields, "u").Object? ==>
              multiset(r.value) == multiset(Assignments(Get(Get(o, "diff").fields, "u").fields))
    ensures r.Ok? && !Get(Get(o, "diff").fields, "u").Object? ==>
              multiset(r.value) == multiset(Map(NullAssignment, Keys(Get(Get(o, "diff").fields, "d").fields)))
  {
    var diff := Get(o, "diff");
    if !diff.Object? then Err(InvalidOplog)
    else
      var setMap := Get(diff.fields, "u");
      if setMap.Object? then Ok(Sort(Assignments(setMap.fields)))
      else
        var unsetMap := Get(diff.fields, "d");
        if unsetMap.Object? then Ok(Sort(Map(NullAssignment, Keys(unsetMap.fields))))
        else Err(InvalidOplog)
  }

  /** The result of `generateUpdateSQL` for namespace `ns`, document `o`
      and prior-key document `o2`. */
  function UpdateSQL(ns: string, o: Document, o2: Document): Result<string>
  {
    match SetFragments(o)
    case Err(e) => Err(e)
    case Ok(frags) =>
      Ok("UPDATE " + ns + " SET" + " " + Join(", ", frags) + " WHERE " + Join(" AND ", Assignments(o2)) + ";")
  }

  /** The text `generateDeleteSQL` returns for namespace `ns` and
      document `o`. */
  function DeleteSQL(ns: string, o: Document): string
  {
    "DELETE FROM " + ns + " WHERE" + " " + Join(" AND ", Assignments(o)) + ";"
  }

  // ---------------------------------------------------------------------
  // Properties
  // ---------------------------------------------------------------------

  lemma ColumnValueAt(d: Document, cols: seq<string>, i: nat, k: nat)
    requires DistinctKeys(d) && i < |cols| && k < |d| && d[k].0 == cols[i]
    ensures ColumnValues(d, cols)[i] == ColumnValue(d[k].1)
  {
    assert Get(d, cols[i]) == d[k].1;
  }

  lemma ColumnHasField(d: Document, i: nat)
    requires DistinctKeys(d) && i < |ColumnNames(d)|
    ensures exists k :: 0 <= k < |d| && d[k].0 == ColumnNames(d)[i] &&
                        ColumnValues(d, ColumnNames(d))[i] == ColumnValue(d[k].1)
  {
    var cols := ColumnNames(d);
    assert cols[i] in multiset(Keys(d)) by { assert cols[i] in multiset(cols); }
    var k :| 0 <= k < |d| && Keys(d)[k] == cols[i];
    ColumnValueAt(d, cols, i, k);
  }

  lemma FieldHasColumn(d: Document, k: nat)
    requires DistinctKeys(d) && k < |d|
    ensures exists i :: 0 <= i < |ColumnNames(d)| && ColumnNames(d)[i] == d[k].0 &&
                        ColumnValues(d, ColumnNames(d))[i] == ColumnValue(d[k].1)
  {
    var cols := ColumnNames(d);
    assert d[k].0 in multiset(cols) by { assert Keys(d)[k] in multiset(Keys(d)); }
    var i :| 0 <= i < |cols| && cols[i] == d[k].0;
    ColumnValueAt(d, cols, i, k);
  }

  /** In the INSERT, every column is paired with the rendering of the value
      stored under it, and every field of the document appears as such a
      pair. */
  lemma InsertPairsColumnsWithValues(d: Document)
    requires DistinctKeys(d)
    ensures var cols := ColumnNames(d); var vals := ColumnValues(d, cols);
      && (forall i :: 0 <= i < |cols| ==>
            exists k :: 0 <= k < |d| && d[k].0 == cols[i] && vals[i] == ColumnValue(d[k].1))
      && (forall k :: 0 <= k < |d| ==>
            exists i :: 0 <= i < |cols| && cols[i] == d[k].0 && vals[i] == ColumnValue(d[k].1))
  {
    forall i | 0 <= i < |ColumnNames(d)| {
      ColumnHasField(d, i);
    }
    forall k | 0 <= k < |d| {
      FieldHasColumn(d, k);
    }
  }

  /** CREATE TABLE and INSERT list the same columns in the same order:
      the i-th column definition starts with the i-th INSERT column, and
      there are as many values as columns. */
  lemma SharedColumnOrder(d: Document, i: nat)
    requires i < |ColumnNames(d)|
    ensures var cols := ColumnNames(d);
      && |ColumnDefinitions(d, cols)| == |cols| == |ColumnValues(d, cols)|
      && ColumnDefinitions(d, cols)[i][..|cols[i]| + 1] == cols[i] + " "
  {
    var cols := ColumnNames(d);
    var def := ColumnDefinitions(d, cols)[i];
    assert def == cols[i] + " " + ColumnSQLDataType(cols[i], Get(d, cols[i]));
  }

  /** Exactly the `_id` column of `CREATE TABLE` carries the primary-key
      designation, whatever its type. */
  lemma PrimaryKeyOnlyOnId(d: Document, col: string)
    ensures EndsWith(ColumnDefinition(d, col), PrimaryKey) <==> col == "_id"
  {
    var t := ColumnSQLDataType(col, Get(d, col));
    var def := ColumnDefinition(d, col);
    assert def == col + " " + t;
    if col != "_id" {
      assert t == BaseSQLType(Get(d, col));
      assert def[|def| - 1] == t[|t| - 1] != 'Y';
    } else {
      assert def[|def| - |PrimaryKey|..] == t[|t| - |PrimaryKey|..];
    }
  }

  /** CREATE TABLE and INSERT do not depend on the order in which the
      document's map is iterated. */
  lemma CreateTableAndInsertOrderIndependent(ns: string, d1: Document, d2: Document)
    requires DistinctKeys(d1) && DistinctKeys(d2) && multiset(d1) == multiset(d2)
    ensures ColumnNames(d1) == ColumnNames(d2)
    ensures CreateTableSQL(ns, d1) == CreateTableSQL(ns, d2)
    ensures InsertSQL(ns, d1) == InsertSQL(ns, d2)
  {
    MapPermutation(KeyOf, d1, d2);
    SortOrderIndependent(Keys(d1), Keys(d2));
    var cols := ColumnNames(d1);
    forall i | 0 <= i < |cols|
      ensures ColumnDefinitions(d1, cols)[i] == ColumnDefinitions(d2, cols)[i]
      ensures ColumnValues(d1, cols)[i] == ColumnValues(d2, cols)[i]
    {
      GetPermutation(d1, d2, cols[i]);
    }
    assert ColumnDefinitions(d1, cols) == ColumnDefinitions(d2, cols);
    assert ColumnValues(d1, cols) == ColumnValues(d2, cols);
  }

  /** The SET fragments of `diff.u` do not depend on the map's iteration
      order: they are sorted. `UnsetFragmentsOrderIndependent` below states
      the same for `diff.d`. */
  lemma SetFragmentsOrderIndependent(u1: Document, u2: Document)
    requires multiset(u1) == multiset(u2)
    ensures Sort(Assignments(u1)) == Sort(Assignments(u2))
  {
    MapPermutation(Assignment, u1, u2);
    SortOrderIndependent(Assignments(u1), Assignments(u2));
  }

  /** Likewise for `diff.d`: the sorted `col = NULL` fragments do not
      depend on the map's iteration order. */
  lemma UnsetFragmentsOrderIndependent(d1: Document, d2: Document)
    requires multiset(d1) == multiset(d2)
    ensures Sort(Map(NullAssignment, Keys(d1))) == Sort(Map(NullAssignment, Keys(d2)))
  {
    MapPermutation(KeyOf, d1, d2);
    MapPermutation(NullAssignment, Keys(d1), Keys(d2));
    SortOrderIndependent(Map(NullAssignment, Keys(d1)), Map(NullAssignment, Keys(d2)));
  }

  /** The WHERE fragments follow the map's iteration order; whatever that
      order, they are the same fragments. */
  lemma WhereFragmentsPermutation(d1: Document, d2: Document)
    requires multiset(d1) == multiset(d2)
    ensures multiset(Assignments(d1)) == multiset(Assignments(d2))
  {
    MapPermutation(Assignment, d1, d2);
  }

  // ---------------------------------------------------------------------
  // The builders
  // ---------------------------------------------------------------------

  /** Go's `getColumnNames`: collects the keys, then `sort.Strings`. */
  method GetColumnNames(d: Document) returns (names: seq<string>)
    ensures names == ColumnNames(d)
  {
    names := [];
    var i := 0;
    while i < |d|
      invariant 0 <= i <= |d|
      invariant names == Keys(d)[..i]
    {
      names := names + [d[i].0];
      i := i + 1;
    }
    assert Keys(d)[..|d|] == Keys(d);
    names := Sort(names);
  }

  /** Go's `generateCreateTableSQL`. */
  method GenerateCreateTableSQL(e: OplogEntry) returns (sql: string)
    ensures sql == CreateTableSQL(e.ns, e.o)
  {
    var sb := "CREATE TABLE " + e.ns + " (";
    ghost var head := sb;
    var columnNames := GetColumnNames(e.o);
    ghost var defs := ColumnDefinitions(e.o, columnNames);
    var sep := "";
    var i := 0;
    while i < |columnNames|
      invariant 0 <= i <= |columnNames|
      invariant sep == if i == 0 then "" else ", "
      invariant sb == head + Join(", ", defs[..i])
    {
      var value := Get(e.o, columnNames[i]);
      var colDataType := ColumnSQLDataType(columnNames[i], value);
      JoinPrefixStep(", ", defs, i);
      assert defs[i] == columnNames[i] + " " + colDataType;
      ConcatAssociative(head, Join(", ", defs[..i]), sep + defs[i]);
      sb := sb + (sep + (columnNames[i] + " " + colDataType));
      sep := ", ";
      i := i + 1;
    }
    assert defs[..|defs|] == defs;
    sql := sb + ");";
  }

  /** Go's `generateInsertSQL` for an insert entry: collects and sorts
      the column names itself, then renders the values in that order. */
  method GenerateInsertSQL(e: OplogEntry) returns (sql: string)
    ensures sql == InsertSQL(e.ns, e.o)
  {
    sql := "INSERT INTO " + e.ns;
    var columnNames := [];
    var i := 0;
    while i < |e.o|
      invariant 0 <= i <= |e.o|
      invariant columnNames == Keys(e.o)[..i]
    {
      columnNames := columnNames + [e.o[i].0];
      i := i + 1;
    }
    assert Keys(e.o)[..|e.o|] == Keys(e.o);
    columnNames := Sort(columnNames);
    ghost var vals := ColumnValues(e.o, columnNames);
    var columnValues := [];
    i := 0;
    while i < |columnNames|
      invariant 0 <= i <= |columnNames|
      invariant columnValues == vals[..i]
    {
      columnValues := columnValues + [ColumnValue(Get(e.o, columnNames[i]))];
      i := i + 1;
    }
    assert vals[..|vals|] == vals;
    sql := sql + " (" + Join(", ", columnNames) + ") VALUES (" + Join(", ", columnValues) + ");";
  }

  /** The `range` loop that renders `<column> = <literal>` for every pair,
      in iteration order. */
  method CollectAssignments(d: Document) returns (frags: seq<string>)
    ensures frags == Assignments(d)
  {
    frags := [];
    var i := 0;
    while i < |d|
      invariant 0 <= i <= |d|
      invariant frags == Assignments(d)[..i]
    {
      assert Assignments(d)[..i + 1] == frags + [Assignment(d[i])];
      frags := frags + [d[i].0 + " = " + ColumnValue(d[i].1)];
      i := i + 1;
    }
    assert Assignments(d)[..|d|] == Assignments(d);
  }

  /** Go's `generateUpdateSQL` for an update entry. */
  method GenerateUpdateSQL(e: OplogEntry) returns (r: Result<string>)
    ensures r == UpdateSQL(e.ns, e.o, e.o2)
  {
    var sql := "UPDATE " + e.ns + " SET";
    var diffMap := Get(e.o, "diff");
    if !diffMap.Object? {
      return Err(InvalidOplog);
    }
    var setMap := Get(diffMap.fields, "u");
    if setMap.Object? {
      var columnValues := CollectAssignments(setMap.fields);
      columnValues := Sort(columnValues);
      sql := sql + " " + Join(", ", columnValues);
    } else {
      var unsetMap := Get(diffMap.fields, "d");
      if unsetMap.Object? {
        ghost var frags := Map(NullAssignment, Keys(unsetMap.fields));
        var columnValues := [];
        var i := 0;
        while i < |unsetMap.fields|
          invariant 0 <= i <= |unsetMap.fields|
          invariant columnValues == frags[..i]
        {
          columnValues := columnValues + [unsetMap.fields[i].0 + " = NULL"];
          i := i + 1;
        }
        assert frags[..|frags|] == frags;
        columnValues := Sort(columnValues);
        sql := sql + " " + Join(", ", columnValues);
      } else {
        return Err(InvalidOplog);
      }
    }
    var whereColumnValues := CollectAssignments(e.o2);
    sql := sql + " WHERE " + Join(" AND ", whereColumnValues) + ";";
    return Ok(sql);
  }

  /** Go's `generateDeleteSQL` for a delete entry. */
  method GenerateDeleteSQL(e: OplogEntry) returns (sql: string)
    ensures sql == DeleteSQL(e.ns, e.o)
  {
    sql := "DELETE FROM " + e.ns + " WHERE";
    var whereColumnValues := CollectAssignments(e.o);
    sql := sql + " " + Join(" AND ", whereColumnValues) + ";";
  }
}
