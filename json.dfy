/**
 * JSON values as the Vert.x `JsonObject`/`JsonArray` API presents them to the
 * modelled code. An object is its members in insertion order (Vert.x keeps a
 * `LinkedHashMap`), so "the object's iteration order" is the order of the
 * sequence. Numbers are integers only.
 */
module Json {
  import opened Wrappers
  import opened JavaText

  datatype Json =
    | JNull
    | JBool(b: bool)
    | JNum(n: int)
    | JStr(s: string)
    | JArr(items: seq<Json>)
    | JObj(members: seq<Member>)

  datatype Member = Member(key: string, value: Json)

  type Object = seq<Member>

  /** The field names in iteration order. */
  function Keys(o: Object): (ks: seq<string>)
    ensures |ks| == |o|
    decreases |o|
  {
    if o == [] then [] else [o[0].key] + Keys(o[1..])
  }

  lemma {:induction false} KeysAt(o: Object, i: nat)
    requires i < |o|
    ensures Keys(o)[i] == o[i].key
    decreases |o|
  {
    if i > 0 {
      KeysAt(o[1..], i - 1);
    }
  }

  /** The underlying map lookup: the value stored under `k`, `None` when the key is absent. */
  function Get(o: Object, k: string): Option<Json>
    decreases |o|
  {
    if o == [] then None
    else if o[0].key == k then Some(o[0].value)
    else Get(o[1..], k)
  }

  /** `containsKey(k)`: true also when the key holds JSON null. */
  predicate HasKey(o: Object, k: string) {
    Get(o, k).Some?
  }

  /** A key is present exactly when it is one of the field names. */
  lemma {:induction false} HasKeyIffInKeys(o: Object, k: string)
    ensures HasKey(o, k) <==> k in Keys(o)
    decreases |o|
  {
    if o != [] {
      HasKeyIffInKeys(o[1..], k);
    }
  }

  predicate IsDistinct(s: seq<string>) {
    forall i, j :: 0 <= i < j < |s| ==> s[i] != s[j]
  }

  /** A JSON object never holds a key twice. */
  predicate DistinctKeys(o: Object) {
    IsDistinct(Keys(o))
  }

  /** In an object with distinct keys, looking up the i-th field name finds the i-th value. */
  lemma {:induction false} GetByPosition(o: Object, i: nat)
    requires DistinctKeys(o) && i < |o|
    ensures Get(o, o[i].key) == Some(o[i].value)
    decreases |o|
  {
    if i > 0 {
      KeysAt(o, 0);
      KeysAt(o, i);
      assert Keys(o)[0] != Keys(o)[i];
      assert o[1..][i - 1] == o[i];
      assert Keys(o[1..]) == Keys(o)[1..];
      GetByPosition(o[1..], i - 1);
    }
  }

  /**
   * `put(k, v)`: an existing key keeps its place and takes the new value; a new
   * key goes at the end. No other key changes.
   */
  function Put(o: Object, k: string, v: Json): (r: Object)
    ensures Get(r, k) == Some(v)
    ensures forall k' {:trigger Get(r, k')} :: k' != k ==> Get(r, k') == Get(o, k')
    ensures Keys(r) == if HasKey(o, k) then Keys(o) else Keys(o) + [k]
    decreases |o|
  {
    if o == [] then [Member(k, v)]
    else if o[0].key == k then
      var r := [Member(k, v)] + o[1..];
      assert r[1..] == o[1..];
      r
    else
      var rest := Put(o[1..], k, v);
      var r := [o[0]] + rest;
      assert r[1..] == rest;
      r
  }

  /** Two `put`s of distinct keys on a fresh object: both keys, in order, each with its value. */
  lemma PutTwo(k1: string, v1: Json, k2: string, v2: Json)
    requires k1 != k2
    ensures var r := Put(Put([], k1, v1), k2, v2);
      && Keys(r) == [k1, k2]
      && Get(r, k1) == Some(v1) && Get(r, k2) == Some(v2)
      && forall k :: k != k1 && k != k2 ==> Get(r, k) == None
  {
    var o1 := Put([], k1, v1);
    assert Keys(o1) == [k1];
    assert !HasKey(o1, k2);
  }

  /** Three `put`s of distinct keys on a fresh object: the keys in order, each with its value. */
  lemma PutThree(k1: string, v1: Json, k2: string, v2: Json, k3: string, v3: Json)
    requires k1 != k2 && k1 != k3 && k2 != k3
    ensures var r := Put(Put(Put([], k1, v1), k2, v2), k3, v3);
      && Keys(r) == [k1, k2, k3]
      && Get(r, k1) == Some(v1) && Get(r, k2) == Some(v2) && Get(r, k3) == Some(v3)
  {
    var o2 := Put(Put([], k1, v1), k2, v2);
    PutTwo(k1, v1, k2, v2);
    assert !HasKey(o2, k3);
  }

  /** `put` never creates a duplicate key. */
  lemma PutKeepsDistinct(o: Object, k: string, v: Json)
    requires DistinctKeys(o)
    ensures DistinctKeys(Put(o, k, v))
  {
    HasKeyIffInKeys(o, k);
  }

  /** `put` of a new key appends it. */
  lemma {:induction false} PutAppends(o: Object, k: string, v: Json)
    requires !HasKey(o, k)
    ensures Put(o, k, v) == o + [Member(k, v)]
    decreases |o|
  {
    if o != [] {
      PutAppends(o[1..], k, v);
      assert o + [Member(k, v)] == [o[0]] + (o[1..] + [Member(k, v)]);
    }
  }

  lemma {:induction false} KeysAppend(o: Object, m: Member)
    ensures Keys(o + [m]) == Keys(o) + [m.key]
    decreases |o|
  {
    if o != [] {
      KeysAppend(o[1..], m);
      assert (o + [m])[1..] == o[1..] + [m];
    } else {
      assert [] + [m] == [m];
    }
  }

  /** A member added at the end is found only when no earlier member has its key. */
  lemma {:induction false} GetAppend(o: Object, m: Member, k: string)
    ensures Get(o + [m], k) == if HasKey(o, k) then Get(o, k) else if m.key == k then Some(m.value) else None
    decreases |o|
  {
    if o != [] {
      GetAppend(o[1..], m, k);
      assert (o + [m])[1..] == o[1..] + [m];
    } else {
      assert [] + [m] == [m];
    }
  }

  /** `remove(k)`: the key is gone and every other key keeps its value. */
  function Remove(o: Object, k: string): (r: Object)
    ensures !HasKey(r, k)
    ensures forall k' {:trigger Get(r, k')} :: k' != k ==> Get(r, k') == Get(o, k')
    decreases |o|
  {
    if o == [] then []
    else if o[0].key == k then Remove(o[1..], k)
    else
      var rest := Remove(o[1..], k);
      var r := [o[0]] + rest;
      assert r[1..] == rest;
      r
  }

  // ---------------------------------------------------------------------------
  // The typed getters of JsonObject and JsonArray
  // ---------------------------------------------------------------------------

  /** What a typed getter gives back: `null`, a value, or a `ClassCastException`. */
  datatype Read<+T> = Null | Value(value: T) | Mismatch

  /**
   * Java's `toString()` of a JSON value, `None` for null. Strings are
   * themselves, numbers and booleans print as Java prints them, and the text of
   * a nested array or object is the library's, given by `nestedText`.
   */
  function Text(v: Json, nestedText: Json -> string): (r: Option<string>)
    ensures r.None? <==> v.JNull?
    ensures v.JStr? ==> r == Some(v.s)
  {
    match v
    case JNull => None
    case JStr(s) => Some(s)
    case JBool(b) => Some(if b then "true" else "false")
    case JNum(n) => Some(IntToDecimal(n))
    case JArr(_) => Some(nestedText(v))
    case JObj(_) => Some(nestedText(v))
  }

  /** `getString(k)`: null when the key is absent or holds null, otherwise the value's text. */
  function GetString(o: Object, k: string, nestedText: Json -> string): (r: Option<string>)
    ensures r.None? <==> Get(o, k) == None || Get(o, k) == Some(JNull)
    ensures Get(o, k).Some? && Get(o, k).value.JStr? ==> r == Some(Get(o, k).value.s)
  {
    match Get(o, k)
    case None => None
    case Some(v) => Text(v, nestedText)
  }

  /** `getJsonArray(k)`: null when absent or null, the elements of an array, a cast failure otherwise. */
  function GetJsonArray(o: Object, k: string): Read<seq<Json>> {
    match Get(o, k)
    case None => Null
    case Some(JNull) => Null
    case Some(JArr(items)) => Value(items)
    case Some(_) => Mismatch
  }

  /** `getInteger(k)`: a stored number narrowed by `intValue()`, a cast failure for a non-number. */
  function GetInteger(o: Object, k: string): Read<int> {
    match Get(o, k)
    case None => Null
    case Some(JNull) => Null
    case Some(JNum(n)) => Value(ToInt32(n))
    case Some(_) => Mismatch
  }

  /** `getInteger(i)` / `getJsonObject(i)` on an array element. */
  function ElementInteger(v: Json): Read<int> {
    match v
    case JNull => Null
    case JNum(n) => Value(ToInt32(n))
    case _ => Mismatch
  }

  function ElementObject(v: Json): Read<Object> {
    match v
    case JNull => Null
    case JObj(members) => Value(members)
    case _ => Mismatch
  }
}
