// A parsed project template as an untyped JSON tree, and the handful of
// Python operations the template code applies to it (`dict.get`, `in`,
// iteration, truthiness, hashing). An operation Python would refuse with an
// exception returns `Err(TypeFault)`.
module JsonDoc {
  import opened Results
  import opened Dedup

  /** A JSON value; object members keep the order in which they were written. */
  datatype Json =
    | Null
    | Bool(b: bool)
    | Num(n: int)
    | Str(s: string)
    | Arr(items: seq<Json>)
    | Obj(members: seq<(string, Json)>)

  /** Python raised an exception (AttributeError, TypeError) on a value of the wrong shape. */
  datatype Fault = TypeFault

  /** Concatenation of two partial results; an exception in either wins. */
  function Cat<T>(a: Result<seq<T>, Fault>, b: Result<seq<T>, Fault>): (r: Result<seq<T>, Fault>)
    ensures r.Ok? <==> a.Ok? && b.Ok?
    ensures r.Ok? ==> r.value == a.value + b.value
  {
    if a.Err? || b.Err? then Err(TypeFault) else Ok(a.value + b.value)
  }

  /** The value stored under `key`; as with `json.load`, a repeated key keeps its last value. */
  function Find(ms: seq<(string, Json)>, key: string): (r: Option<Json>)
    ensures r.None? <==> forall i :: 0 <= i < |ms| ==> ms[i].0 != key
    ensures r.Some? ==> exists i :: 0 <= i < |ms| && ms[i] == (key, r.value) &&
                                    forall k :: i < k < |ms| ==> ms[k].0 != key
  {
    if ms == [] then None
    else if ms[|ms| - 1].0 == key then Some(ms[|ms| - 1].1)
    else Find(ms[..|ms| - 1], key)
  }

  /** `key in obj` for a dict `obj`. */
  predicate HasKey(ms: seq<(string, Json)>, key: string) {
    Find(ms, key).Some?
  }

  /** `obj.get(key, default)`: only a dict has `get`. */
  function Get(j: Json, key: string, default: Json): (r: Result<Json, Fault>)
    ensures r.Err? <==> !j.Obj?
    ensures j.Obj? && !HasKey(j.members, key) ==> r == Ok(default)
    ensures j.Obj? && HasKey(j.members, key) ==>
              r.Ok? && exists i :: 0 <= i < |j.members| && j.members[i] == (key, r.value) &&
                                   forall k :: i < k < |j.members| ==> j.members[k].0 != key
  {
    if !j.Obj? then Err(TypeFault)
    else match Find(j.members, key)
      case None => Ok(default)
      case Some(v) => Ok(v)
  }

  /**
   * The keys of the dict `json.load` builds from these members: each distinct
   * key once, at the position where it first occurs.
   */
  function Keys(ms: seq<(string, Json)>): (r: seq<string>)
    ensures NoDuplicates(r)
    ensures forall k :: k in r <==> HasKey(ms, k)
  {
    var written := seq(|ms|, i requires 0 <= i < |ms| => ms[i].0);
    DedupContents(written);
    assert forall k :: k in written <==> exists i :: 0 <= i < |ms| && ms[i].0 == k by {
      forall k | k in written ensures exists i :: 0 <= i < |ms| && ms[i].0 == k {
        var i :| 0 <= i < |written| && written[i] == k;
      }
      forall i | 0 <= i < |ms| ensures ms[i].0 in written {
        assert written[i] == ms[i].0;
      }
    }
    Dedup.Dedup(written)
  }

  /** The values a Python `for` loop visits: list items, dict keys, or the characters of a string. */
  function Iterate(j: Json): (r: Result<seq<Json>, Fault>)
    ensures r.Err? <==> j.Null? || j.Bool? || j.Num?
    ensures j.Arr? ==> r == Ok(j.items)
    ensures j.Obj? ==> r.Ok? && |r.value| == |Keys(j.members)| &&
                       forall i :: 0 <= i < |r.value| ==> r.value[i] == Str(Keys(j.members)[i])
    ensures j.Str? ==> r.Ok? && |r.value| == |j.s| && forall i :: 0 <= i < |j.s| ==> r.value[i] == Str([j.s[i]])
  {
    match j
    case Arr(items) => Ok(items)
    case Obj(ms) =>
      var ks := Keys(ms);
      Ok(seq(|ks|, i requires 0 <= i < |ks| => Str(ks[i])))
    case Str(s) => Ok(seq(|s|, i requires 0 <= i < |s| => Str([s[i]])))
    case _ => Err(TypeFault)
  }

  /** Python truthiness: `None`, `False`, `0` and empty strings and containers are false. */
  predicate Truthy(j: Json) {
    match j
    case Null => false
    case Bool(b) => b
    case Num(n) => n != 0
    case Str(s) => s != []
    case Arr(items) => items != []
    case Obj(ms) => ms != []
  }

  /** Lists and dicts cannot be dictionary keys. */
  predicate Hashable(j: Json) {
    !j.Arr? && !j.Obj?
  }

  /**
   * The values a recursive walk descends into: list items in order, and a
   * dict's `values()`: one per distinct key, in key order, the value `Find`
   * gives, so a value shadowed by a repeated key is not visited.
   */
  function Children(j: Json): (r: seq<Json>)
    ensures forall i :: 0 <= i < |r| ==> r[i] < j
    ensures j.Arr? ==> r == j.items
    ensures !j.Arr? && !j.Obj? ==> r == []
  {
    match j
    case Arr(items) => items
    case Obj(ms) =>
      var ks := Keys(ms);
      assert forall i :: 0 <= i < |ks| ==> Find(ms, ks[i]).Some? && Find(ms, ks[i]).value < j by {
        forall i | 0 <= i < |ks| ensures Find(ms, ks[i]).Some? && Find(ms, ks[i]).value < j {
          assert ks[i] in ks;
          var k :| 0 <= k < |ms| && ms[k] == (ks[i], Find(ms, ks[i]).value);
          assert ms[k] in ms;
        }
      }
      seq(|ks|, i requires 0 <= i < |ks| => Find(ms, ks[i]).value)
    case _ => []
  }

  /** A dict's children are its `values()`: the value `Find` gives for each of its `Keys`, in order. */
  lemma ChildrenOfObj(j: Json)
    requires j.Obj?
    ensures |Children(j)| == |Keys(j.members)|
    ensures forall i :: 0 <= i < |Children(j)| ==> Find(j.members, Keys(j.members)[i]) == Some(Children(j)[i])
  {
    var ks := Keys(j.members);
    forall i | 0 <= i < |ks| ensures Find(j.members, ks[i]).Some? {
      assert ks[i] in ks;
    }
    assert Children(j) == seq(|ks|, i requires 0 <= i < |ks| => Find(j.members, ks[i]).value);
  }

  /** A dict written with a repeated key is walked through its last value only. */
  lemma RepeatedKeyChildren(ms: seq<(string, Json)>, key: string, first: Json, last: Json)
    requires ms == [(key, first), (key, last)]
    ensures Children(Obj(ms)) == [last]
  {
    RepeatedKeyOnce(ms, key, first, last);
    ChildrenOfObj(Obj(ms));
    assert Find(ms, key) == Some(last);
    var kids := Children(Obj(ms));
    assert kids == [kids[0]];
  }

  /** The repeated key is listed once. */
  lemma RepeatedKeyOnce(ms: seq<(string, Json)>, key: string, first: Json, last: Json)
    requires ms == [(key, first), (key, last)]
    ensures Keys(ms) == [key]
  {
    var one := [(key, first)];
    assert ms == one + [(key, last)];
    KeysAppend([], (key, first));
    assert [] + [(key, first)] == one;
    assert Keys([]) == [];
    KeysAppend(one, (key, last));
  }

  /** Adding a member appends its key only when the key is new, as a dict assignment does. */
  lemma KeysAppend(ms: seq<(string, Json)>, m: (string, Json))
    ensures Keys(ms + [m]) == AppendNew(Keys(ms), m.0)
  {
    var written := seq(|ms|, i requires 0 <= i < |ms| => ms[i].0);
    var more := ms + [m];
    var writtenMore := seq(|more|, i requires 0 <= i < |more| => more[i].0);
    assert writtenMore == written + [m.0];
    assert writtenMore[..|writtenMore| - 1] == written;
  }

  /** `sub` is `j` itself or lies somewhere below it. */
  ghost predicate Within(sub: Json, j: Json)
    decreases j
  {
    sub == j || exists i :: 0 <= i < |Children(j)| && Within(sub, Children(j)[i])
  }
}
