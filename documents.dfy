/**
 * The data the translator works on: dynamically typed field values,
 * documents (Go's `map[string]interface{}`), oplog entries, the decoded
 * payload and the errors.
 */
module Documents {
  import opened Strings

  /** A field value as `encoding/json` and the Go type switches see it. */
  datatype Value =
    | Int(n: int)                           // any signed Go integer kind
    | Float(repr: string)                   // float32 or float64, given by the text %v prints for it
    | Bool(b: bool)
    | Str(s: string)
    | Null                                  // nil: JSON null, or a key the map does not hold
    | Object(fields: seq<(string, Value)>)  // a nested map[string]interface{}
    | List(items: seq<Value>)               // a JSON array, []interface{}

  /** A Go map from field names to values. The order of the pairs is the
      order in which `range` visits the map in a given run. */
  type Document = seq<(string, Value)>

  function KeyOf(p: (string, Value)): string
  {
    p.0
  }

  /** The field names in iteration order. */
  function Keys(d: Document): seq<string>
  {
    Map(KeyOf, d)
  }

  /** A Go map never holds a key twice. */
  predicate DistinctKeys(d: Document)
  {
    forall i, j :: 0 <= i < j < |d| ==> d[i].0 != d[j].0
  }

  /** Go's `d[k]` on a `map[string]interface{}`: the value stored under
      `k`, or nil when there is none. */
  function Get(d: Document, k: string): (v: Value)
    ensures (forall i :: 0 <= i < |d| ==> d[i].0 != k) ==> v == Null
    ensures DistinctKeys(d) ==> forall i :: 0 <= i < |d| && d[i].0 == k ==> v == d[i].1
  {
    if d == [] then Null
    else if d[0].0 == k then d[0].1
    else Get(d[1..], k)
  }

  /** The position of the first pair stored under `k`, or `|d|` when
      there is none; the pair there is the one `Get` reads. */
  function FirstIndex(d: Document, k: string): (i: nat)
    ensures i <= |d|
    ensures i < |d| ==> d[i].0 == k && Get(d, k) == d[i].1
    ensures i == |d| ==> forall j :: 0 <= j < |d| ==> d[j].0 != k
  {
    if d == [] then 0
    else if d[0].0 == k then 0
    else
      var r := FirstIndex(d[1..], k);
      assert forall j :: 0 < j < |d| ==> d[j] == d[1..][j - 1];
      1 + r
  }

  /** Reading a map does not depend on its iteration order. */
  lemma GetPermutation(d1: Document, d2: Document, k: string)
    requires DistinctKeys(d1) && DistinctKeys(d2) && multiset(d1) == multiset(d2)
    ensures Get(d1, k) == Get(d2, k)
  {
    if i :| 0 <= i < |d1| && d1[i].0 == k {
      assert d1[i] in multiset(d2) by { assert d1[i] in multiset(d1); }
      var j :| 0 <= j < |d2| && d2[j] == d1[i];
    } else {
      forall j | 0 <= j < |d2| ensures d2[j].0 != k {
        assert d2[j] in multiset(d1) by { assert d2[j] in multiset(d2); }
      }
    }
  }

  /** One oplog record (Go's `OplogEntry`): the operation code, the
      namespace `schema.table`, the document `o` and, for updates, the
      prior-key document `o2`. A field missing from the JSON text is the
      zero value: the empty string or the empty map. */
  datatype OplogEntry = OplogEntry(op: string, ns: string, o: Document, o2: Document)

  datatype Option<T> = None | Some(value: T)

  /** What the two `json.Unmarshal` calls on the payload text produce:
      the text read as an array of entries, and read as a single entry
      (`None` when that call reports an error). */
  datatype Payload = Payload(asArray: Option<seq<OplogEntry>>, asObject: Option<OplogEntry>)

  /** The errors the translator returns: the decoder's, and the
      "invalid oplog" error of an update without a usable diff. */
  datatype Error = DecodeError | InvalidOplog

  datatype Result<T> = Ok(value: T) | Err(error: Error)
}
