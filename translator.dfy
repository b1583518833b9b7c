/**
 * The translation driver: `GenerateSQL` decodes the payload and walks the
 * entries, `generateSQL` dispatches one entry on its operation code and
 * consults the emission cache, one set shared by schema names and full
 * namespaces, before emitting CREATE SCHEMA and CREATE TABLE.
 */
module Translator {
  import opened Strings
  import opened Documents
  import opened Statements

  // ---------------------------------------------------------------------
  // Specification
  // ---------------------------------------------------------------------

  /** The schema of a namespace: `strings.Split(ns, ".")[0]`. */
  function SchemaName(ns: string): string
  {
    FirstSegment(ns, '.')
  }

  /** The names an entry puts into the emission cache: an insert marks its
      schema name and its namespace; other entries mark nothing. */
  function Marks(e: OplogEntry): set<string>
  {
    if e.op == "i" then {SchemaName(e.ns), e.ns} else {}
  }

  /** The emission cache after `generateSQL` has handled `e`. */
  function CacheAfter(e: OplogEntry, cache: set<string>): set<string>
  {
    cache + Marks(e)
  }

  /** The names all entries of `es` put into the cache. */
  function Marked(es: seq<OplogEntry>): set<string>
  {
    if es == [] then {} else Marks(es[0]) + Marked(es[1..])
  }

  /** The emission cache `generateSQL` sees for entry `i` of a batch whose
      cache started as `cache`. */
  function CacheBefore(es: seq<OplogEntry>, cache: set<string>, i: nat): set<string>
    requires i <= |es|
  {
    cache + Marked(es[..i])
  }

  /** An insert emits CREATE SCHEMA when its schema name is not cached. */
  predicate EmitsCreateSchema(e: OplogEntry, cache: set<string>)
  {
    e.op == "i" && SchemaName(e.ns) !in cache
  }

  /** An insert emits CREATE TABLE when its namespace is not cached once
      its schema name has been added. */
  predicate EmitsCreateTable(e: OplogEntry, cache: set<string>)
  {
    e.op == "i" && e.ns !in cache + {SchemaName(e.ns)}
  }

  /** What `generateSQL` returns for entry `e` when the cache holds
      `cache`: for an insert, CREATE SCHEMA if needed, then CREATE TABLE if
      needed, then the INSERT; for an update or a delete, its one
      statement or the update's error; for any other code, nothing. */
  function EntrySQL(e: OplogEntry, cache: set<string>): (r: Result<seq<string>>)
    ensures r.Err? ==> e.op == "u" && r.error == InvalidOplog
    ensures e.op == "i" ==>
      && r.Ok?
      && r.value == (if EmitsCreateSchema(e, cache) then [CreateSchemaSQL(SchemaName(e.ns))] else [])
                  + (if EmitsCreateTable(e, cache) then [CreateTableSQL(e.ns, e.o)] else [])
                  + [InsertSQL(e.ns, e.o)]
    ensures e.op == "u" ==> (r.Err? <==> SetFragments(e.o).Err?) && (r.Ok? ==> r.value == [UpdateSQL(e.ns, e.o, e.o2).value])
    ensures e.op == "d" ==> r == Ok([DeleteSQL(e.ns, e.o)])
    ensures e.op !in {"i", "u", "d"} ==> r == Ok([])
  {
    if e.op == "i" then
      var schemaName := SchemaName(e.ns);
      var schema := if schemaName in cache then [] else [CreateSchemaSQL(schemaName)];
      var table := if e.ns in cache + {schemaName} then [] else [CreateTableSQL(e.ns, e.o)];
      Ok(schema + table + [InsertSQL(e.ns, e.o)])
    else if e.op == "u" then
      match UpdateSQL(e.ns, e.o, e.o2)
      case Err(err) => Err(err)
      case Ok(sql) => Ok([sql])
    else if e.op == "d" then
      Ok([DeleteSQL(e.ns, e.o)])
    else
      Ok([])
  }

  /** The statements for a batch, entry by entry in order, with the cache
      threaded from each entry to the next; the first error ends the
      batch. */
  function Translate(es: seq<OplogEntry>, cache: set<string>): (r: Result<seq<string>>)
    ensures r.Err? ==> r.error == InvalidOplog
  {
    if es == [] then Ok([])
    else Then(EntrySQL(es[0], cache), Translate(es[1..], CacheAfter(es[0], cache)))
  }

  /** Two results in sequence: the first error, or both outputs. */
  function Then(r1: Result<seq<string>>, r2: Result<seq<string>>): Result<seq<string>>
  {
    match r1
    case Err(err) => Err(err)
    case Ok(a) =>
      match r2
      case Err(err) => Err(err)
      case Ok(b) => Ok(a + b)
  }

  /** The entries the payload decodes to: the array if the text is one,
      else the single entry, else the decoder's error. */
  function Decode(p: Payload): (r: Result<seq<OplogEntry>>)
    ensures r.Err? <==> p.asArray.None? && p.asObject.None?
    ensures r.Err? ==> r.error == DecodeError
    ensures p.asArray.Some? ==> r == Ok(p.asArray.value)
    ensures p.asArray.None? && p.asObject.Some? ==> r == Ok([p.asObject.value])
  {
    if p.asArray.Some? then Ok(p.asArray.value)
    else if p.asObject.Some? then Ok([p.asObject.value])
    else Err(DecodeError)
  }

  /** What `GenerateSQL` computes for a payload. */
  function TranslatePayload(p: Payload): Result<seq<string>>
  {
    match Decode(p)
    case Err(err) => Err(err)
    case Ok(es) => Translate(es, {})
  }

  // ---------------------------------------------------------------------
  // Properties
  // ---------------------------------------------------------------------

  /** No statements, then `r`, is `r`. */
  lemma ThenEmpty(r: Result<seq<string>>)
    ensures Then(Ok([]), r) == r
    ensures Then(r, Ok([])) == r
  {
    match r
    case Err(_) =>
    case Ok(out) => assert [] + out == out && out + [] == out;
  }

  lemma ThenAssociative(r1: Result<seq<string>>, r2: Result<seq<string>>, r3: Result<seq<string>>)
    ensures Then(Then(r1, r2), r3) == Then(r1, Then(r2, r3))
  {
    match r1
    case Err(_) =>
    case Ok(a) =>
      match r2
      case Err(_) =>
      case Ok(b) =>
        match r3
        case Err(_) =>
        case Ok(c) => assert (a + b) + c == a + (b + c);
  }

  /** A batch of one entry is that entry. */
  lemma TranslateSingle(e: OplogEntry, cache: set<string>)
    ensures Translate([e], cache) == EntrySQL(e, cache)
  {
    assert [e][1..] == [];
    ThenEmpty(EntrySQL(e, cache));
  }

  lemma {:induction false} MarkedConcat(a: seq<OplogEntry>, b: seq<OplogEntry>)
    ensures Marked(a + b) == Marked(a) + Marked(b)
  {
    if a == [] {
      assert a + b == b;
    } else {
      assert (a + b)[0] == a[0] && (a + b)[1..] == a[1..] + b;
      MarkedConcat(a[1..], b);
    }
  }

  /** A name is cached by a batch exactly when some insert of it marks it. */
  lemma {:induction false} MarkedMeans(es: seq<OplogEntry>, x: string)
    ensures x in Marked(es) <==> exists k :: 0 <= k < |es| && x in Marks(es[k])
  {
    if es != [] {
      MarkedMeans(es[1..], x);
      if x in Marked(es[1..]) {
        var k :| 0 <= k < |es[1..]| && x in Marks(es[1..][k]);
        assert x in Marks(es[k + 1]);
      }
      if k :| 0 < k < |es| && x in Marks(es[k]) {
        assert x in Marks(es[1..][k - 1]);
      }
    }
  }

  /** Splitting a batch in two: the first part runs on the initial cache,
      the second on the cache the first part leaves; the output is the two
      outputs in order, and the first error wins. */
  lemma {:induction false} TranslateConcat(a: seq<OplogEntry>, b: seq<OplogEntry>, cache: set<string>)
    ensures Translate(a + b, cache) == Then(Translate(a, cache), Translate(b, cache + Marked(a)))
  {
    if a == [] {
      assert a + b == b && cache + Marked(a) == cache;
      ThenEmpty(Translate(b, cache));
    } else {
      assert (a + b)[0] == a[0] && (a + b)[1..] == a[1..] + b;
      var c1 := CacheAfter(a[0], cache);
      TranslateConcat(a[1..], b, c1);
      assert c1 + Marked(a[1..]) == cache + Marked(a);
      assert Translate(a, cache) == Then(EntrySQL(a[0], cache), Translate(a[1..], c1));
      assert Translate(a + b, cache) == Then(EntrySQL(a[0], cache), Translate(a[1..] + b, c1));
      ThenAssociative(EntrySQL(a[0], cache), Translate(a[1..], c1), Translate(b, cache + Marked(a)));
    }
  }

  /** The rest of a batch from entry `i` on is entry `i`, then the rest
      from `i + 1` on. */
  lemma TranslateFrom(es: seq<OplogEntry>, cache: set<string>, i: nat)
    requires i < |es|
    ensures Translate(es[i..], cache) == Then(EntrySQL(es[i], cache), Translate(es[i + 1..], CacheAfter(es[i], cache)))
  {
    assert es[i..][0] == es[i] && es[i..][1..] == es[i + 1..];
  }

  /** The cache after one more entry. */
  lemma CacheBeforeNext(es: seq<OplogEntry>, cache: set<string>, i: nat)
    requires i < |es|
    ensures CacheBefore(es, cache, i + 1) == CacheAfter(es[i], CacheBefore(es, cache, i))
  {
    assert es[..i + 1] == es[..i] + [es[i]];
    MarkedConcat(es[..i], [es[i]]);
    assert Marked([es[i]]) == Marks(es[i]) by { assert [es[i]][1..] == []; }
  }

  /** Entry `i` of a batch is translated with the cache the entries before
      it leave: the batch output is the output of the entries before `i`,
      then entry `i`'s, then the rest. */
  lemma EntryInBatch(es: seq<OplogEntry>, cache: set<string>, i: nat)
    requires i < |es|
    ensures Translate(es, cache) ==
      Then(Translate(es[..i], cache),
           Then(EntrySQL(es[i], CacheBefore(es, cache, i)),
                Translate(es[i + 1..], CacheBefore(es, cache, i + 1))))
  {
    var c := CacheBefore(es, cache, i);
    assert es == es[..i] + ([es[i]] + es[i + 1..]);
    TranslateConcat(es[..i], [es[i]] + es[i + 1..], cache);
    TranslateConcat([es[i]], es[i + 1..], c);
    TranslateSingle(es[i], c);
    CacheBeforeNext(es, cache, i);
    assert c + Marked([es[i]]) == CacheBefore(es, cache, i + 1) by {
      assert Marked([es[i]]) == Marks(es[i]) by { assert [es[i]][1..] == []; }
    }
  }

  /** The cache an entry sees, in closed form: the initial cache and the
      names marked by earlier inserts. */
  lemma CacheBeforeMeans(es: seq<OplogEntry>, cache: set<string>, j: nat, x: string)
    requires j <= |es|
    ensures x in CacheBefore(es, cache, j) <==>
      x in cache || exists k :: 0 <= k < j && es[k].op == "i" && x in {SchemaName(es[k].ns), es[k].ns}
  {
    MarkedMeans(es[..j], x);
    if k :| 0 <= k < j && x in Marks(es[..j][k]) {
      assert es[..j][k] == es[k];
    }
    if k :| 0 <= k < j && es[k].op == "i" && x in {SchemaName(es[k].ns), es[k].ns} {
      assert x in Marks(es[..j][k]);
    }
  }

  /** An insert emits CREATE SCHEMA exactly when its schema name is not in
      the initial cache and no earlier insert has a namespace or schema
      equal to it. */
  lemma CreateSchemaWhen(es: seq<OplogEntry>, cache: set<string>, j: nat)
    requires j < |es| && es[j].op == "i"
    ensures var s := SchemaName(es[j].ns);
      EmitsCreateSchema(es[j], CacheBefore(es, cache, j)) <==>
        s !in cache && forall k :: 0 <= k < j && es[k].op == "i" ==> SchemaName(es[k].ns) != s && es[k].ns != s
  {
    CacheBeforeMeans(es, cache, j, SchemaName(es[j].ns));
  }

  /** An insert emits CREATE TABLE exactly when its namespace is not in the
      initial cache, differs from its own schema name, and no earlier
      insert has a namespace or schema equal to it. */
  lemma CreateTableWhen(es: seq<OplogEntry>, cache: set<string>, j: nat)
    requires j < |es| && es[j].op == "i"
    ensures var ns := es[j].ns;
      EmitsCreateTable(es[j], CacheBefore(es, cache, j)) <==>
        && ns !in cache && ns != SchemaName(ns)
        && forall k :: 0 <= k < j && es[k].op == "i" ==> es[k].ns != ns && SchemaName(es[k].ns) != ns
  {
    CacheBeforeMeans(es, cache, j, es[j].ns);
  }

  /** Once an insert into a namespace has been handled, a later insert
      into the same namespace emits nothing but its INSERT. */
  lemma LaterInsertOnlyInserts(es: seq<OplogEntry>, cache: set<string>, i: nat, j: nat)
    requires i < j < |es| && es[i].op == "i" && es[j].op == "i" && es[i].ns == es[j].ns
    ensures EntrySQL(es[j], CacheBefore(es, cache, j)) == Ok([InsertSQL(es[j].ns, es[j].o)])
  {
    CreateSchemaWhen(es, cache, j);
    CreateTableWhen(es, cache, j);
    assert !EmitsCreateSchema(es[j], CacheBefore(es, cache, j));
    assert !EmitsCreateTable(es[j], CacheBefore(es, cache, j));
    assert [] + [] + [InsertSQL(es[j].ns, es[j].o)] == [InsertSQL(es[j].ns, es[j].o)];
  }

  /** Within a batch, two inserts into one namespace never both emit
      CREATE TABLE. */
  lemma CreateTableAtMostOnce(es: seq<OplogEntry>, cache: set<string>, i: nat, j: nat)
    requires i < j < |es| && es[i].ns == es[j].ns
    ensures !(EmitsCreateTable(es[i], CacheBefore(es, cache, i)) && EmitsCreateTable(es[j], CacheBefore(es, cache, j)))
  {
    if es[i].op == "i" && es[j].op == "i" {
      CreateTableWhen(es, cache, j);
    }
  }

  /** A namespace without a dot is its own schema name, so the shared
      cache suppresses its CREATE TABLE: such an insert never creates its
      table. */
  lemma NoDotNamespaceNeverCreatesTable(e: OplogEntry, cache: set<string>)
    requires '.' !in e.ns
    ensures !EmitsCreateTable(e, cache)
  {
    FirstSegmentWhole(e.ns, '.');
  }

  /** Updates, deletes and unknown codes neither read nor change the cache. */
  lemma OnlyInsertsUseCache(e: OplogEntry, c1: set<string>, c2: set<string>)
    requires e.op != "i"
    ensures EntrySQL(e, c1) == EntrySQL(e, c2)
    ensures CacheAfter(e, c1) == c1
  {
  }

  /** The eighth character tells CREATE SCHEMA from CREATE TABLE, the
      first from INSERT, UPDATE and DELETE. */
  lemma CreateSchemaTag(s: string)
    ensures CreateSchemaSQL(s)[0] == 'C' && CreateSchemaSQL(s)[7] == 'S'
  {
    assert CreateSchemaSQL(s)[..|SchemaPrefix|] == SchemaPrefix;
  }

  lemma CreateTableTag(ns: string, d: Document)
    ensures CreateTableSQL(ns, d)[7] == 'T'
  {
    var j := Join(", ", ColumnDefinitions(d, ColumnNames(d)));
    PrefixChar("CREATE TABLE " + ns + " (" + j, ");", 7);
    PrefixChar("CREATE TABLE " + ns + " (", j, 7);
    PrefixChar("CREATE TABLE " + ns, " (", 7);
    PrefixChar("CREATE TABLE ", ns, 7);
  }

  lemma InsertTag(ns: string, d: Document)
    ensures InsertSQL(ns, d)[0] == 'I'
  {
    var cols := ColumnNames(d);
    var j1 := Join(", ", cols);
    var j2 := Join(", ", ColumnValues(d, cols));
    var l := "INSERT INTO " + ns + " (";
    PrefixChar("INSERT INTO ", ns, 0);
    PrefixChar("INSERT INTO " + ns, " (", 0);
    PrefixChar(l, j1, 0);
    PrefixChar(l + j1, ") VALUES (", 0);
    PrefixChar(l + j1 + ") VALUES (", j2, 0);
    PrefixChar(l + j1 + ") VALUES (" + j2, ");", 0);
  }

  lemma DeleteTag(ns: string, d: Document)
    ensures DeleteSQL(ns, d)[0] == 'D'
  {
    var j := Join(" AND ", Assignments(d));
    PrefixChar("DELETE FROM ", ns, 0);
    PrefixChar("DELETE FROM " + ns, " WHERE", 0);
    PrefixChar("DELETE FROM " + ns + " WHERE", " ", 0);
    PrefixChar("DELETE FROM " + ns + " WHERE" + " ", j, 0);
    PrefixChar("DELETE FROM " + ns + " WHERE" + " " + j, ";", 0);
  }

  lemma UpdateTag(ns: string, d: Document, o2: Document)
    requires UpdateSQL(ns, d, o2).Ok?
    ensures UpdateSQL(ns, d, o2).value[0] == 'U'
  {
    var j1 := Join(", ", SetFragments(d).value);
    var j2 := Join(" AND ", Assignments(o2));
    var l2 := "UPDATE " + ns + " SET" + " ";
    PrefixChar("UPDATE ", ns, 0);
    PrefixChar("UPDATE " + ns, " SET", 0);
    PrefixChar("UPDATE " + ns + " SET", " ", 0);
    PrefixChar(l2, j1, 0);
    PrefixChar(l2 + j1, " WHERE ", 0);
    PrefixChar(l2 + j1 + " WHERE ", j2, 0);
    PrefixChar(l2 + j1 + " WHERE " + j2, ";", 0);
  }

  lemma PrefixChar(p: string, x: string, k: nat)
    requires k < |p|
    ensures (p + x)[k] == p[k]
  {
  }

  /** How many times one entry emits `CREATE SCHEMA s;`. */
  lemma EntryCreateSchemaCount(e: OplogEntry, cache: set<string>, s: string)
    requires EntrySQL(e, cache).Ok?
    ensures multiset(EntrySQL(e, cache).value)[CreateSchemaSQL(s)] ==
      if EmitsCreateSchema(e, cache) && SchemaName(e.ns) == s then 1 else 0
  {
    var out := EntrySQL(e, cache).value;
    var stmt := CreateSchemaSQL(s);
    CreateSchemaTag(s);
    if e.op == "i" {
      CreateTableTag(e.ns, e.o);
      InsertTag(e.ns, e.o);
    } else if e.op == "u" {
      UpdateTag(e.ns, e.o, e.o2);
    } else if e.op == "d" {
      DeleteTag(e.ns, e.o);
    }
    if EmitsCreateSchema(e, cache) && CreateSchemaSQL(SchemaName(e.ns)) == stmt {
      CreateSchemaInjective(SchemaName(e.ns), s);
    }
    if e.op == "i" {
      var schema := if EmitsCreateSchema(e, cache) then [CreateSchemaSQL(SchemaName(e.ns))] else [];
      var table := if EmitsCreateTable(e, cache) then [CreateTableSQL(e.ns, e.o)] else [];
      assert out == schema + table + [InsertSQL(e.ns, e.o)];
      assert multiset(out) == multiset(schema) + multiset(table) + multiset{InsertSQL(e.ns, e.o)};
    }
  }

  /** Within a batch, `CREATE SCHEMA s;` is emitted at most once, and not
      at all when `s` is already cached. */
  lemma {:induction false} CreateSchemaAtMostOnce(es: seq<OplogEntry>, cache: set<string>, s: string)
    requires Translate(es, cache).Ok?
    ensures multiset(Translate(es, cache).value)[CreateSchemaSQL(s)] <= if s in cache then 0 else 1
  {
    if es != [] {
      var out := EntrySQL(es[0], cache).value;
      var c1 := CacheAfter(es[0], cache);
      var rest := Translate(es[1..], c1).value;
      assert Translate(es, cache).value == out + rest;
      CreateSchemaAtMostOnce(es[1..], c1, s);
      EntryCreateSchemaCount(es[0], cache, s);
      assert multiset(out + rest) == multiset(out) + multiset(rest);
    }
  }

  // ---------------------------------------------------------------------
  // The driver
  // ---------------------------------------------------------------------

  /** Go's `generateSQL`: the statements for one entry, and the cache
      after it (Go updates the map in place). */
  method GenerateEntrySQL(e: OplogEntry, cache: set<string>)
    returns (sqls: seq<string>, err: Option<Error>, cache': set<string>)
    ensures cache' == CacheAfter(e, cache)
    ensures err.None? ==> EntrySQL(e, cache) == Ok(sqls)
    ensures err.Some? ==> EntrySQL(e, cache) == Err(err.value) && sqls == []
  {
    sqls, err, cache' := [], None, cache;
    if e.op == "i" {
      var schemaName := SchemaName(e.ns);
      if schemaName !in cache' {
        sqls := sqls + [CreateSchemaSQL(schemaName)];
        cache' := cache' + {schemaName};
      }
      if e.ns !in cache' {
        var table := GenerateCreateTableSQL(e);
        sqls := sqls + [table];
        cache' := cache' + {e.ns};
      }
      var sql := GenerateInsertSQL(e);
      assert sqls == (if EmitsCreateSchema(e, cache) then [CreateSchemaSQL(schemaName)] else [])
                   + (if EmitsCreateTable(e, cache) then [CreateTableSQL(e.ns, e.o)] else []);
      sqls := sqls + [sql];
    } else if e.op == "u" {
      var r := GenerateUpdateSQL(e);
      match r
      case Err(x) => err := Some(x);
      case Ok(sql) =>
        sqls := sqls + [sql];
        assert e.op != "i" && sqls == [sql];
    } else if e.op == "d" {
      var sql := GenerateDeleteSQL(e);
      sqls := sqls + [sql];
      assert e.op != "i" && e.op != "u";
      assert sqls == [DeleteSQL(e.ns, e.o)];
    }
  }

  /** Go's `GenerateSQL`: decode, then translate entry by entry with one
      fresh cache; on any error, no statements and the error. */
  method GenerateSQL(p: Payload) returns (sqls: seq<string>, err: Option<Error>)
    ensures err.Some? ==> sqls == []
    ensures TranslatePayload(p) == if err.Some? then Err(err.value) else Ok(sqls)
  {
    sqls, err := [], None;
    var entries: seq<OplogEntry>;
    if p.asArray.Some? {
      entries := p.asArray.value;
    } else if p.asObject.Some? {
      entries := [p.asObject.value];
    } else {
      return [], Some(DecodeError);
    }
    var cache: set<string> := {};
    var i := 0;
    assert entries[0..] == entries && entries[..0] == [];
    ThenEmpty(Translate(entries, {}));
    while i < |entries|
      invariant 0 <= i <= |entries|
      invariant Translate(entries, {}) == Then(Ok(sqls), Translate(entries[i..], cache))
    {
      var innerSqls, innerErr, cache' := GenerateEntrySQL(entries[i], cache);
      TranslateFrom(entries, cache, i);
      if innerErr.Some? {
        return [], innerErr;
      }
      ThenAssociative(Ok(sqls), Ok(innerSqls), Translate(entries[i + 1..], cache'));
      sqls := sqls + innerSqls;
      cache := cache';
      i := i + 1;
    }
    assert entries[i..] == [];
    ThenEmpty(Ok(sqls));
  }
}
