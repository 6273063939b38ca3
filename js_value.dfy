/**
 * The JavaScript values that flow through the query service: what `JSON.parse`
 * produces, plus `undefined`, MongoDB `ObjectId` instances and `Date`s.
 * An object is the ordered list of its own enumerable properties, in the order
 * in which `for...in`, `Object.keys` and object spread visit them.
 */
module JsValue {
  import opened Calendar

  datatype Option<+T> = None | Some(value: T)

  datatype Value =
    | Undefined
    | Null
    | Bool(b: bool)
    | Num(n: real)
    | Str(s: string)
    | Arr(elems: seq<Value>)
    | Obj(fields: seq<(string, Value)>)
    | OId(hex: string)
    | DateVal(at: Day)

  /** The errors a request can end with; the comment gives the `Error` message. */
  datatype QueryError =
    | AnalysisFailed            // "AI analysis failed."
    | GenerationFailed          // "AI query generation failed."
    | InvalidUserIdFormat       // "Invalid user ID format."
    | InvalidUserId(given: Value) // "Invalid user ID provided: ${userId}"
    | DatabaseNotInitialized    // "Database not initialized. Call connectDB first."
    | InvalidPrimaryCollection  // "Invalid primary collection identified by AI."
    | ExecutionFailed           // "Database query execution failed."
    | TypeError                 // a property read on, or Object.keys of, null or undefined

  /** A computation that returns a value or throws. */
  datatype Outcome<+T> = Ok(value: T) | Throw(error: QueryError)

  /**
   * The MongoDB driver's `ObjectId`: `isValid` is `ObjectId.isValid`, and
   * `construct(s)` is `new ObjectId(s)`, giving the identifier's hex text or
   * `None` when the constructor throws. Both depend on the driver version and
   * stay uninterpreted.
   */
  datatype ObjectIdDriver = ObjectIdDriver(isValid: string -> bool, construct: string -> Option<string>)

  /** `!!v` */
  predicate Truthy(v: Value) {
    match v
    case Undefined => false
    case Null => false
    case Bool(b) => b
    case Num(n) => n != 0.0
    case Str(s) => s != ""
    case _ => true
  }

  /** Reading a property of `v` throws a TypeError. */
  predicate Nullish(v: Value) {
    v.Undefined? || v.Null?
  }

  /** `typeof v === 'object'` (true of `null` too). */
  predicate IsObjectType(v: Value) {
    v.Null? || v.Arr? || v.Obj? || v.OId? || v.DateVal?
  }

  /** A value that `JSON.parse` can produce: no `undefined`, no class instances, no repeated key. */
  predicate IsJson(v: Value) {
    match v
    case Undefined => false
    case OId(_) => false
    case DateVal(_) => false
    case Arr(es) => forall i :: 0 <= i < |es| ==> IsJson(es[i])
    case Obj(fs) => DistinctKeys(fs) && forall i :: 0 <= i < |fs| ==> IsJson(fs[i].1)
    case _ => true
  }

  /** The keys of a field list, in order. */
  function Keys(fs: seq<(string, Value)>): (ks: seq<string>)
    ensures |ks| == |fs|
    ensures forall i :: 0 <= i < |fs| ==> ks[i] == fs[i].0
  {
    seq(|fs|, i requires 0 <= i < |fs| => fs[i].0)
  }

  /** No key occurs twice: every object built by JavaScript has this shape. */
  predicate DistinctKeys(fs: seq<(string, Value)>) {
    forall i, j :: 0 <= i < j < |fs| ==> fs[i].0 != fs[j].0
  }

  /** Distinctness depends on the keys alone. */
  lemma SameKeysDistinct(a: seq<(string, Value)>, b: seq<(string, Value)>)
    requires Keys(a) == Keys(b) && DistinctKeys(a)
    ensures DistinctKeys(b)
  {
    forall i, j | 0 <= i < j < |b| ensures b[i].0 != b[j].0 {
      assert b[i].0 == Keys(b)[i] && b[j].0 == Keys(b)[j];
    }
  }

  /** The position of the first occurrence of `k` in `ks`, or -1. */
  function KeyIndex(ks: seq<string>, k: string): (i: int)
    ensures -1 <= i < |ks|
    ensures i == -1 <==> k !in ks
    ensures 0 <= i ==> ks[i] == k && forall j :: 0 <= j < i ==> ks[j] != k
  {
    if ks == [] then -1
    else if ks[0] == k then 0
    else
      var j := KeyIndex(ks[1..], k);
      if j == -1 then -1 else j + 1
  }

  /** The position of the first field named `k`, or -1. */
  function IndexOf(fs: seq<(string, Value)>, k: string): (i: int)
    ensures -1 <= i < |fs|
    ensures i == -1 <==> k !in Keys(fs)
    ensures 0 <= i ==> fs[i].0 == k && forall j :: 0 <= j < i ==> fs[j].0 != k
  {
    KeyIndex(Keys(fs), k)
  }

  /** The value of field `k`, if there is one. */
  function Lookup(fs: seq<(string, Value)>, k: string): (r: Option<Value>)
    ensures r.Some? <==> k in Keys(fs)
  {
    var i := IndexOf(fs, k);
    if i < 0 then None else Some(fs[i].1)
  }

  /**
   * `v[k]` on a value that is not null or undefined: an own field of an object,
   * `undefined` otherwise (none of the keys the service reads is a property
   * of strings, arrays or numbers).
   */
  function Prop(v: Value, k: string): Value {
    if v.Obj? then (match Lookup(v.fields, k) case Some(x) => x case None => Undefined)
    else Undefined
  }

  /** `o[k] = v`: overwrite the field in its place, or add it at the end. */
  function Assign(fs: seq<(string, Value)>, k: string, v: Value): (r: seq<(string, Value)>)
    ensures k in Keys(fs) ==> |r| == |fs| && Keys(r) == Keys(fs)
    ensures k !in Keys(fs) ==> r == fs + [(k, v)]
  {
    var i := IndexOf(fs, k);
    if i < 0 then fs + [(k, v)] else fs[i := (k, v)]
  }

  /** After `o[k] = v`, reading `k` gives `v` and every other key reads as before. */
  lemma AssignReads(fs: seq<(string, Value)>, k: string, v: Value)
    ensures Lookup(Assign(fs, k, v), k) == Some(v)
    ensures forall key :: key != k ==> Lookup(Assign(fs, k, v), key) == Lookup(fs, key)
  {
    var r := Assign(fs, k, v);
    if k !in Keys(fs) {
      assert Keys(r) == Keys(fs) + [k];
      forall key | key != k ensures Lookup(r, key) == Lookup(fs, key) {
        if key in Keys(fs) {
          var j := IndexOf(fs, key);
          var i' := IndexOf(r, key);
          assert r[j] == fs[j];
          assert i' <= j;
          assert r[i'] == fs[i'];
        }
      }
    }
  }

  /** `o[k] = v` adds at most the key `k` and keeps the keys distinct. */
  lemma AssignKeys(fs: seq<(string, Value)>, k: string, v: Value)
    ensures forall key :: key in Keys(Assign(fs, k, v)) <==> key in Keys(fs) || key == k
    ensures DistinctKeys(fs) ==> DistinctKeys(Assign(fs, k, v))
  {
    var r := Assign(fs, k, v);
    if k !in Keys(fs) {
      assert Keys(r) == Keys(fs) + [k];
    }
  }

  /**
   * Assigning the fields `fs` one after another onto `acc`: `for (k in src)
   * acc[k] = src[k]` and the object spread `{...acc, ...src}`.
   */
  function AssignAll(acc: seq<(string, Value)>, fs: seq<(string, Value)>): seq<(string, Value)>
    decreases |fs|
  {
    if fs == [] then acc else AssignAll(Assign(acc, fs[0].0, fs[0].1), fs[1..])
  }

  /** The keys after the assignments are those of `acc` and of `fs`, and stay distinct. */
  lemma {:induction false} AssignAllKeys(acc: seq<(string, Value)>, fs: seq<(string, Value)>)
    ensures forall key :: key in Keys(AssignAll(acc, fs)) <==> key in Keys(acc) || key in Keys(fs)
    ensures DistinctKeys(acc) ==> DistinctKeys(AssignAll(acc, fs))
    decreases |fs|
  {
    if fs != [] {
      AssignKeys(acc, fs[0].0, fs[0].1);
      AssignAllKeys(Assign(acc, fs[0].0, fs[0].1), fs[1..]);
      assert Keys(fs) == [fs[0].0] + Keys(fs[1..]);
    }
  }

  /** On distinct keys, assigning the fields one after another appends them in order. */
  lemma {:induction false} AssignAllAppends(acc: seq<(string, Value)>, fs: seq<(string, Value)>)
    requires DistinctKeys(acc + fs)
    ensures AssignAll(acc, fs) == acc + fs
    decreases |fs|
  {
    if fs != [] {
      assert (acc + fs)[|acc|] == fs[0];
      assert fs[0].0 !in Keys(acc) by {
        forall i | 0 <= i < |acc| ensures acc[i].0 != fs[0].0 {
          assert (acc + fs)[i] == acc[i];
        }
      }
      assert acc + [fs[0]] + fs[1..] == acc + fs;
      AssignAllAppends(acc + [fs[0]], fs[1..]);
    }
  }

  /**
   * `Object.keys(v)[0]` together with `v[Object.keys(v)[0]]`, or `None` when
   * `v` has no own enumerable key; `v` is not null or undefined.
   */
  function FirstEntry(v: Value): Option<(string, Value)> {
    match v
    case Obj(fs) => if fs == [] then None else Some(fs[0])
    case Str(s) => if s == [] then None else Some(("0", Str([s[0]])))
    case Arr(es) => if es == [] then None else Some(("0", es[0]))
    case _ => None
  }

  /** A field of a parsed object is itself a parsed value. */
  lemma JsonFieldIsJson(fs: seq<(string, Value)>, k: string, x: Value)
    requires IsJson(Obj(fs)) && Lookup(fs, k) == Some(x)
    ensures IsJson(x) && !x.OId? && !x.Undefined?
  {
    assert fs[IndexOf(fs, k)].1 == x;
  }

  /** Writing the value a key already holds changes nothing. */
  lemma AssignSame(fs: seq<(string, Value)>, k: string, v: Value)
    requires Lookup(fs, k) == Some(v)
    ensures Assign(fs, k, v) == fs
  {
    var i := IndexOf(fs, k);
    assert fs[i] == (k, v);
  }

  /** `{...src}` copies an object whose keys are distinct. */
  lemma SpreadCopies(fs: seq<(string, Value)>)
    requires DistinctKeys(fs)
    ensures AssignAll([], fs) == fs
  {
    assert [] + fs == fs;
    AssignAllAppends([], fs);
  }

  /** A key the assigned fields do not carry reads as it did before. */
  lemma {:induction false} AssignAllKeepsAbsent(acc: seq<(string, Value)>, fs: seq<(string, Value)>, k: string)
    requires k !in Keys(fs)
    ensures Lookup(AssignAll(acc, fs), k) == Lookup(acc, k)
    decreases |fs|
  {
    if fs != [] {
      assert Keys(fs) == [fs[0].0] + Keys(fs[1..]);
      AssignReads(acc, fs[0].0, fs[0].1);
      AssignAllKeepsAbsent(Assign(acc, fs[0].0, fs[0].1), fs[1..], k);
    }
  }

  /** Past a first field with another name, looking `k` up is looking it up in the rest. */
  lemma LookupTail(fs: seq<(string, Value)>, k: string)
    requires |fs| > 0 && fs[0].0 != k
    ensures Lookup(fs, k) == Lookup(fs[1..], k)
  {
    assert Keys(fs) == [fs[0].0] + Keys(fs[1..]);
    if k in Keys(fs[1..]) {
      assert IndexOf(fs, k) == IndexOf(fs[1..], k) + 1;
    }
  }

  /** A distinct field list without its first field is still distinct and lacks that field's key. */
  lemma DistinctTail(fs: seq<(string, Value)>)
    requires DistinctKeys(fs) && |fs| > 0
    ensures DistinctKeys(fs[1..]) && fs[0].0 !in Keys(fs[1..])
    ensures Keys(fs) == [fs[0].0] + Keys(fs[1..])
  {
    forall i | 0 <= i < |fs[1..]| ensures fs[1..][i].0 != fs[0].0 {
      assert fs[1..][i] == fs[i + 1];
    }
    forall i, j | 0 <= i < j < |fs[1..]| ensures fs[1..][i].0 != fs[1..][j].0 {
      assert fs[1..][i] == fs[i + 1] && fs[1..][j] == fs[j + 1];
    }
  }

  /** The first field's key, not assigned again later, keeps the first field's value. */
  lemma AssignAllReadsHead(acc: seq<(string, Value)>, fs: seq<(string, Value)>)
    requires DistinctKeys(fs) && |fs| > 0
    ensures Lookup(AssignAll(acc, fs), fs[0].0) == Some(fs[0].1)
  {
    var k := fs[0].0;
    var a := Assign(acc, k, fs[0].1);
    assert AssignAll(acc, fs) == AssignAll(a, fs[1..]);
    DistinctTail(fs);
    AssignReads(acc, k, fs[0].1);
    AssignAllKeepsAbsent(a, fs[1..], k);
  }

  /** A key the assigned fields carry, once each, ends up with their value. */
  lemma {:induction false} AssignAllReads(acc: seq<(string, Value)>, fs: seq<(string, Value)>, k: string)
    requires DistinctKeys(fs) && k in Keys(fs)
    ensures Lookup(AssignAll(acc, fs), k) == Lookup(fs, k)
    decreases |fs|
  {
    DistinctTail(fs);
    if fs[0].0 == k {
      AssignAllReadsHead(acc, fs);
      assert Keys(fs)[0] == k;
    } else {
      var a := Assign(acc, fs[0].0, fs[0].1);
      assert AssignAll(acc, fs) == AssignAll(a, fs[1..]);
      LookupTail(fs, k);
      AssignAllReads(a, fs[1..], k);
    }
  }

  /** The keys already in `acc` keep their positions. */
  lemma {:induction false} AssignAllKeepsPrefixKeys(acc: seq<(string, Value)>, fs: seq<(string, Value)>)
    ensures |acc| <= |AssignAll(acc, fs)|
    ensures forall i :: 0 <= i < |acc| ==> AssignAll(acc, fs)[i].0 == acc[i].0
    decreases |fs|
  {
    if fs != [] {
      var a := Assign(acc, fs[0].0, fs[0].1);
      assert forall i :: 0 <= i < |acc| ==> a[i].0 == acc[i].0 by {
        if fs[0].0 in Keys(acc) {
          assert Keys(a) == Keys(acc);
          assert forall i :: 0 <= i < |acc| ==> a[i].0 == Keys(a)[i];
        }
      }
      AssignAllKeepsPrefixKeys(a, fs[1..]);
    }
  }

  /** Assigning an object's fields onto its own first field rebuilds it. */
  lemma AssignAllOntoHead(fs: seq<(string, Value)>)
    requires DistinctKeys(fs) && |fs| > 0
    ensures AssignAll([fs[0]], fs) == fs
  {
    assert Lookup([fs[0]], fs[0].0) == Some(fs[0].1);
    AssignSame([fs[0]], fs[0].0, fs[0].1);
    assert [fs[0]] + fs[1..] == fs;
    AssignAllAppends([fs[0]], fs[1..]);
  }
}
