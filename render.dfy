/**
 * Schema inference and literal rendering (`getColumnSQLDataType`,
 * `getColumnValue`), and the text fmt's %v verb prints for a value.
 */
module Render {
  import opened Strings
  import opened Documents

  /** fmt's %v text for a value. Integers print in decimal, a float as its
      given text, nil as `<nil>`, a map as `map[k:v ...]` with its keys
      sorted, an array as `[a b ...]`. */
  function Format(v: Value): (r: string)
    decreases v, 2
    ensures v.Null? ==> r == "<nil>"
    ensures v.Object? ==> |r| >= 5 && r[..4] == "map[" && r[|r| - 1] == ']'
    ensures v.List? ==> |r| >= 2 && r[0] == '[' && r[|r| - 1] == ']'
  {
    match v
    case Int(n) => IntText(n)
    case Float(repr) => repr
    case Bool(b) => if b then "true" else "false"
    case Str(s) => s
    case Null => "<nil>"
    case Object(fs) => "map[" + Join(" ", MapEntries(fs)) + "]"
    case List(xs) =>
      "[" + Join(" ", seq(|xs|, i requires 0 <= i < |xs| => Format(xs[i]))) + "]"
  }

  /** The `k:v` entries fmt prints for a map: one per key, keys in sorted
      order, each with the text of the value stored under it. */
  function MapEntries(fs: seq<(string, Value)>): (r: seq<string>)
    decreases Object(fs), 1
    ensures |r| == |Sort(Keys(fs))|
  {
    var keys := Sort(Keys(fs));
    seq(|keys|, j requires 0 <= j < |keys| => keys[j] + ":" + FieldText(fs, keys[j]))
  }

  /** The text of the value stored under `k`, a key of `fs`. */
  function FieldText(fs: seq<(string, Value)>, k: string): (r: string)
    decreases Object(fs), 0
  {
    var i := FirstIndex(fs, k);
    if i < |fs| then Format(fs[i].1) else ""
  }

  /** Entry `j` of a map's text is the `j`-th key in sorted order, a colon
      and the text of the value `Get` reads under that key. */
  lemma MapEntriesMeans(fs: seq<(string, Value)>)
    ensures |MapEntries(fs)| == |fs|
    ensures forall j :: 0 <= j < |fs| ==>
      MapEntries(fs)[j] == Sort(Keys(fs))[j] + ":" + Format(Get(fs, Sort(Keys(fs))[j]))
  {
    var keys := Sort(Keys(fs));
    assert |keys| == |Keys(fs)| by {
      assert |multiset(keys)| == |multiset(Keys(fs))|;
    }
    forall j | 0 <= j < |fs| ensures MapEntries(fs)[j] == keys[j] + ":" + Format(Get(fs, keys[j])) {
      assert keys[j] in multiset(Keys(fs)) by { assert keys[j] in multiset(keys); }
      var i := FirstIndex(fs, keys[j]);
      assert i < |fs| by {
        var m :| 0 <= m < |Keys(fs)| && Keys(fs)[m] == keys[j];
      }
    }
  }

  /** fmt sorts a map's keys, so its text does not depend on the map's
      iteration order. */
  lemma FormatOrderIndependent(fs1: seq<(string, Value)>, fs2: seq<(string, Value)>)
    requires DistinctKeys(fs1) && DistinctKeys(fs2) && multiset(fs1) == multiset(fs2)
    ensures Format(Object(fs1)) == Format(Object(fs2))
  {
    MapPermutation(KeyOf, fs1, fs2);
    SortOrderIndependent(Keys(fs1), Keys(fs2));
    MapEntriesMeans(fs1);
    MapEntriesMeans(fs2);
    var e1, e2 := MapEntries(fs1), MapEntries(fs2);
    forall j | 0 <= j < |e1| ensures e1[j] == e2[j] {
      GetPermutation(fs1, fs2, Sort(Keys(fs1))[j]);
    }
    assert e1 == e2;
  }

  /** The values that `getColumnValue` wraps in single quotes: everything
      that is neither a number nor a boolean. */
  predicate Quoted(v: Value)
  {
    !(v.Int? || v.Float? || v.Bool?)
  }

  /** Go's `getColumnValue`: the SQL literal for a value. Numbers are
      bare, booleans are `true`/`false`, everything else is its %v text
      between single quotes, with nothing escaped. */
  function ColumnValue(v: Value): (r: string)
    ensures v.Int? ==> |r| > 0 && r[0] != '\'' && ParseInt(r) == v.n
    ensures v.Float? ==> r == v.repr
    ensures v.Bool? ==> r == if v.b then "true" else "false"
    ensures Quoted(v) ==> |r| >= 2 && r[0] == '\'' && r[|r| - 1] == '\'' && r[1..|r| - 1] == Format(v)
  {
    match v
    case Int(n) =>
      IntTextRoundTrip(n);
      IntText(n)
    case Float(repr) => repr
    case Bool(b) => if b then "true" else "false"
    case _ => "'" + Format(v) + "'"
  }

  /** An integer's literal is its canonical decimal text (digits, a '-'
      only for negatives, no leading zero) and reads back as the integer;
      by `CanonicalDecimalUnique` no other text has both properties. */
  lemma ColumnValueInt(n: int)
    ensures CanonicalDecimal(ColumnValue(Int(n)))
    ensures ParseInt(ColumnValue(Int(n))) == n
  {
    IntTextCanonical(n);
    IntTextRoundTrip(n);
  }

  /** The SQL type for a value's runtime type, before the key suffix. */
  function BaseSQLType(v: Value): string
  {
    match v
    case Int(_) => "INTEGER"
    case Float(_) => "FLOAT"
    case Bool(_) => "BOOLEAN"
    case _ => "VARCHAR(255)"
  }

  const PrimaryKey: string := " PRIMARY KEY"

  predicate EndsWith(s: string, suffix: string)
  {
    |suffix| <= |s| && s[|s| - |suffix|..] == suffix
  }

  /** Go's `getColumnSQLDataType`: integer kinds are INTEGER, float kinds
      FLOAT, booleans BOOLEAN and everything else VARCHAR(255); exactly
      the column named `_id` also gets " PRIMARY KEY". */
  function ColumnSQLDataType(name: string, v: Value): (t: string)
    ensures t == BaseSQLType(v) || t == BaseSQLType(v) + PrimaryKey
    ensures EndsWith(t, PrimaryKey) <==> name == "_id"
  {
    var base := BaseSQLType(v);
    assert !EndsWith(base, PrimaryKey) by {
      assert |base| < |PrimaryKey| || base[|base| - 1] != 'Y';
    }
    if name == "_id" then base + PrimaryKey else base
  }
}
