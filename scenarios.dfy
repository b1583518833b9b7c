/**
 * The expected outputs of the repository's test table (main_test.go),
 * stated for the model. JSON numbers decode to float64, so `51` is
 * `Float("51")`.
 */
module Scenarios {
  import opened Strings
  import opened Documents
  import opened Render
  import opened Statements
  import opened Translator

  const StudentId: Value := Str("635b79e231d82a8ab1de863b")

  /** The empty payload is not JSON: both decodes fail. */
  lemma EmptyPayloadFails()
    ensures TranslatePayload(Payload(None, None)) == Err(DecodeError)
  {
  }

  /** A single insert into a fresh namespace: columns sorted by name,
      strings quoted, the boolean and the number bare. */
  const Student: Document := [("_id", StudentId), ("name", Str("Selena Miller")),
                               ("roll_no", Float("51")), ("is_graduated", Bool(false)),
                               ("date_of_birth", Str("2000-01-30"))]

  const StudentColumnOrder: seq<string> := ["_id", "date_of_birth", "is_graduated", "name", "roll_no"]

  lemma StudentColumnOrderSorted()
    ensures Sorted(StudentColumnOrder)
  {
    forall i, j | 0 <= i < j < 5 ensures !Less(StudentColumnOrder[j], StudentColumnOrder[i]) {
      assert StudentColumnOrder[i][0] < StudentColumnOrder[j][0];
    }
  }

  lemma StudentColumnOrderPermutes()
    ensures multiset(StudentColumnOrder) == multiset(Keys(Student))
  {
    assert Keys(Student) == ["_id", "name", "roll_no", "is_graduated", "date_of_birth"];
    Reorder5("_id", "name", "roll_no", "is_graduated", "date_of_birth");
  }

  /** Swapping two neighbours keeps the elements. */
  lemma SwapNeighbours<T>(x: seq<T>, p: T, q: T, y: seq<T>)
    ensures multiset(x + [p, q] + y) == multiset(x + [q, p] + y)
  {
    assert multiset([p, q]) == multiset([q, p]) by {
      assert [p, q] == [p] + [q] && [q, p] == [q] + [p];
    }
  }

  /** The reordering that sorts the student's keys keeps them. */
  lemma Reorder5<T>(a: T, b: T, c: T, d: T, e: T)
    ensures multiset([a, e, d, b, c]) == multiset([a, b, c, d, e])
  {
    assert [a, b, c] + [d, e] + [] == [a, b, c, d, e] && [a, b, c] + [e, d] + [] == [a, b, c, e, d];
    assert [a, b] + [c, e] + [d] == [a, b, c, e, d] && [a, b] + [e, c] + [d] == [a, b, e, c, d];
    assert [a] + [b, e] + [c, d] == [a, b, e, c, d] && [a] + [e, b] + [c, d] == [a, e, b, c, d];
    assert [a, e, b] + [c, d] + [] == [a, e, b, c, d] && [a, e, b] + [d, c] + [] == [a, e, b, d, c];
    assert [a, e] + [b, d] + [c] == [a, e, b, d, c] && [a, e] + [d, b] + [c] == [a, e, d, b, c];
    SwapNeighbours([a, b, c], d, e, []);
    SwapNeighbours([a, b], c, e, [d]);
    SwapNeighbours([a], b, e, [c, d]);
    SwapNeighbours([a, e, b], c, d, []);
    SwapNeighbours([a, e], b, d, [c]);
  }

  /** The student's columns come out in the order the test expects. */
  lemma StudentColumns()
    ensures ColumnNames(Student) == StudentColumnOrder
  {
    StudentColumnOrderSorted();
    StudentColumnOrderPermutes();
    SortedUnique(ColumnNames(Student), StudentColumnOrder);
  }

  lemma StudentDistinct()
    ensures DistinctKeys(Student)
  {
    forall i, j | 0 <= i < j < 5 ensures Student[i].0 != Student[j].0 {
      assert Student[i].0[0] != Student[j].0[0];
    }
  }

  /** The literals of the student's columns, in column order. */
  lemma StudentValues()
    ensures ColumnValues(Student, StudentColumnOrder)
      == ["'" + "635b79e231d82a8ab1de863b" + "'", "'" + "2000-01-30" + "'", "false", "'" + "Selena Miller" + "'", "51"]
  {
    StudentDistinct();
    var r, cols := ColumnValues(Student, StudentColumnOrder), StudentColumnOrder;
    ColumnValueAt(Student, cols, 0, 0);
    ColumnValueAt(Student, cols, 1, 4);
    ColumnValueAt(Student, cols, 2, 3);
    ColumnValueAt(Student, cols, 3, 1);
    ColumnValueAt(Student, cols, 4, 2);
    Five(r, "'" + "635b79e231d82a8ab1de863b" + "'", "'" + "2000-01-30" + "'", "false", "'" + "Selena Miller" + "'", "51");
  }

  lemma Five<T>(r: seq<T>, a: T, b: T, c: T, d: T, e: T)
    requires |r| == 5 && r[0] == a && r[1] == b && r[2] == c && r[3] == d && r[4] == e
    ensures r == [a, b, c, d, e]
  {
  }

  /** The whole INSERT of the single-insert test: the sorted columns, then
      their literals in the same order. */
  lemma StudentInsert()
    ensures InsertSQL("test.student", Student) ==
      "INSERT INTO " + "test.student" + " (" + Join(", ", StudentColumnOrder) + ") VALUES (" +
      Join(", ", ["'" + "635b79e231d82a8ab1de863b" + "'", "'" + "2000-01-30" + "'", "false", "'" + "Selena Miller" + "'", "51"]) + ");"
  {
    StudentColumns();
    StudentValues();
  }

  /** A nested map whose keys are out of order. */
  const Nested: Document := [("b", Str("x")), ("a", Float("1"))]

  lemma NestedKeys()
    ensures Sort(Keys(Nested)) == ["a", "b"]
  {
    assert Keys(Nested) == ["b", "a"];
    assert Sorted(["a", "b"]) by {
      assert "a"[0] < "b"[0];
    }
    assert multiset(["b", "a"]) == multiset(["a", "b"]);
    SortedUnique(Sort(Keys(Nested)), ["a", "b"]);
  }

  lemma NestedEntries()
    ensures MapEntries(Nested) == ["a:1", "b:x"]
  {
    NestedKeys();
    MapEntriesMeans(Nested);
    var e := MapEntries(Nested);
    assert Get(Nested, "a") == Float("1");
    assert Get(Nested, "b") == Str("x");
    assert "a" + ":" + "1" == "a:1" && "b" + ":" + "x" == "b:x";
    Two(e, "a:1", "b:x");
  }

  /** A nested map prints with its keys sorted, and its column literal is
      that text between quotes. */
  lemma NestedMapText()
    ensures Format(Object(Nested)) == "map[a:1 b:x]"
    ensures ColumnValue(Object(Nested)) == "'map[a:1 b:x]'"
  {
    NestedEntries();
    var e: seq<string> := ["a:1", "b:x"];
    assert e[..1] == ["a:1"];
    assert Join(" ", e) == "a:1" + " " + "b:x";
  }

  lemma Two<T>(r: seq<T>, a: T, b: T)
    requires |r| == 2 && r[0] == a && r[1] == b
    ensures r == [a, b]
  {
  }

  /** The prior-key document of the update tests. */
  const StudentKey: Document := [("_id", StudentId)]

  /** The WHERE clause of the update and delete tests. */
  lemma StudentKeyWhere()
    ensures Assignments(StudentKey) == ["_id" + " = " + ("'" + "635b79e231d82a8ab1de863b" + "'")]
  {
  }

  /** The document of the update test that sets two columns; JSON numbers
      are float64. */
  const SetTwoColumns: Document :=
    [("$v", Float("2")), ("diff", Object([("u", Object([("is_graduated", Bool(true)), ("roll_no", Float("21"))]))]))]

  lemma SetTwoColumnsDiff()
    ensures Get(SetTwoColumns, "diff") == Object([("u", Object([("is_graduated", Bool(true)), ("roll_no", Float("21"))]))])
  {
    assert DistinctKeys(SetTwoColumns) by {
      assert SetTwoColumns[0].0[0] != SetTwoColumns[1].0[0];
    }
    assert SetTwoColumns[1].0 == "diff";
  }

  /** The SET clause of that test: both assignments, in column order. */
  lemma SetTwoColumnsScenario()
    ensures SetFragments(SetTwoColumns) == Ok(["is_graduated" + " = " + "true", "roll_no" + " = " + "21"])
  {
    SetTwoColumnsDiff();
    var frags := ["is_graduated" + " = " + "true", "roll_no" + " = " + "21"];
    var u := [("is_graduated", Bool(true)), ("roll_no", Float("21"))];
    assert Assignments(u) == frags;
    assert Sorted(frags) by {
      assert frags[0][0] == 'i' && frags[1][0] == 'r';
    }
    SortedUnique(Sort(frags), frags);
  }

  /** The document of the update test that unsets a column. */
  const UnsetOneColumn: Document :=
    [("$v", Float("2")), ("diff", Object([("d", Object([("roll_no", Bool(false))]))]))]

  /** The SET clause of that test: the column set to NULL. */
  lemma UnsetOneColumnScenario()
    ensures SetFragments(UnsetOneColumn) == Ok(["roll_no" + " = NULL"])
  {
    assert DistinctKeys(UnsetOneColumn) by {
      assert UnsetOneColumn[0].0[0] != UnsetOneColumn[1].0[0];
    }
    assert UnsetOneColumn[1].0 == "diff";
    var diff := [("d", Object([("roll_no", Bool(false))]))];
    assert Get(UnsetOneColumn, "diff") == Object(diff);
    assert diff[0].0 != "u" by { assert diff[0].0[0] != "u"[0]; }
    assert Sort(["roll_no" + " = NULL"]) == ["roll_no" + " = NULL"];
  }

  lemma StudentSchema()
    ensures SchemaName("test.student") == "test"
  {
  }

  /** The first insert into `test.student` creates the schema and the
      table; the cache then holds both names. */
  lemma FirstStudentInsert(d: Document)
    ensures EntrySQL(OplogEntry("i", "test.student", d, []), {})
      == Ok([CreateSchemaSQL("test"), CreateTableSQL("test.student", d), InsertSQL("test.student", d)])
    ensures CacheAfter(OplogEntry("i", "test.student", d, []), {}) == {"test", "test.student"}
  {
    var e := OplogEntry("i", "test.student", d, []);
    StudentSchema();
    assert |"test.student"| != |"test"|;
    assert EmitsCreateSchema(e, {});
    assert EmitsCreateTable(e, {});
    var cs, ct, ins := CreateSchemaSQL("test"), CreateTableSQL("test.student", d), InsertSQL("test.student", d);
    Append3(cs, ct, ins);
  }

  /** A later insert into `test.student` emits only its INSERT. */
  lemma LaterStudentInsert(d: Document)
    ensures EntrySQL(OplogEntry("i", "test.student", d, []), {"test", "test.student"})
      == Ok([InsertSQL("test.student", d)])
  {
    var e := OplogEntry("i", "test.student", d, []);
    StudentSchema();
    assert !EmitsCreateSchema(e, {"test", "test.student"});
    assert !EmitsCreateTable(e, {"test", "test.student"});
    assert [] + [] + [InsertSQL("test.student", d)] == [InsertSQL("test.student", d)];
  }

  /** Two inserts into one namespace: the schema and the table are created
      once, before the first insert. */
  lemma TwoInsertsScenario(d1: Document, d2: Document)
    ensures Translate([OplogEntry("i", "test.student", d1, []), OplogEntry("i", "test.student", d2, [])], {})
      == Ok([CreateSchemaSQL("test"), CreateTableSQL("test.student", d1), InsertSQL("test.student", d1), InsertSQL("test.student", d2)])
  {
    var e1 := OplogEntry("i", "test.student", d1, []);
    var e2 := OplogEntry("i", "test.student", d2, []);
    var cs, ct := CreateSchemaSQL("test"), CreateTableSQL("test.student", d1);
    var i1, i2 := InsertSQL("test.student", d1), InsertSQL("test.student", d2);
    FirstStudentInsert(d1);
    var c := CacheAfter(e1, {});
    assert c == {"test", "test.student"};
    assert Translate([e2], c) == Ok([i2]) by {
      LaterStudentInsert(d2);
      TranslateSingle(e2, c);
    }
    var es := [e1, e2];
    TranslateFrom(es, {}, 0);
    assert es[0..] == es && es[0] == e1 && es[1..] == [e2];
    Append4(cs, ct, i1, i2);
  }

  lemma Append3<T>(a: T, b: T, c: T)
    ensures [a] + [b] + [c] == [a, b, c]
  {
  }

  lemma Append4<T>(a: T, b: T, c: T, d: T)
    ensures [a, b, c] + [d] == [a, b, c, d]
  {
  }
}
