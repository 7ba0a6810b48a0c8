// The recursive walk that files every `AxisUuidOptions` declaration of a
// template under its uuid. The walk is specified by the sequence of
// declarations it meets, in the order it meets them (a node's own `axisUuids`
// list first, then its children in order); the lookup is that sequence stored
// into a map one entry at a time, so a later declaration of a uuid replaces an
// earlier one.
module AxisLookup {
  import opened Results
  import opened JsonDoc

  /** One declaration: its uuid and the `fields` object it is filed under. */
  datatype AxisEntry = AxisEntry(uuid: Json, fields: Json)

  type Lookup = map<Json, Json>

  /** `fields` is what an item of an `axisUuids` list declares for `uuid`. */
  ghost predicate Declaration(axis: Json, e: AxisEntry) {
    && axis.Obj?
    && Find(axis.members, "className") == Some(Str("AxisUuidOptions"))
    && e.fields == (match Find(axis.members, "fields") case Some(f) => f case None => Obj([]))
    && e.fields.Obj?
    && Find(e.fields.members, "uuid") == Some(e.uuid)
    && Truthy(e.uuid) && Hashable(e.uuid)
  }

  /** What one item of an `axisUuids` list contributes: nothing, one entry, or an exception. */
  function EntryOf(axis: Json): (r: Result<Option<AxisEntry>, Fault>)
    ensures r.Ok? && r.value.Some? ==> Declaration(axis, r.value.value)
  {
    match Get(axis, "className", Null)
    case Err(f) => Err(f)
    case Ok(cls) =>
      if cls != Str("AxisUuidOptions") then Ok(None)
      else match Get(axis, "fields", Obj([]))
        case Err(f) => Err(f)
        case Ok(fields) =>
          match Get(fields, "uuid", Null)
          case Err(f) => Err(f)
          case Ok(uuid) =>
            if !Truthy(uuid) then Ok(None)
            else if !Hashable(uuid) then Err(TypeFault)
            else Ok(Some(AxisEntry(uuid, fields)))
  }

  /** A well-formed declaration is always recorded. */
  lemma EntryOfDeclaration(axis: Json, e: AxisEntry)
    requires Declaration(axis, e)
    ensures EntryOf(axis) == Ok(Some(e))
  {
  }

  /**
   * An item raises an exception exactly when it is not a dict, or it is an
   * `AxisUuidOptions` item whose `fields` is not a dict or whose truthy uuid
   * is a list or a dict.
   */
  lemma EntryOfFaults(axis: Json)
    ensures EntryOf(axis).Err? <==>
      (|| !axis.Obj?
       || (&& Find(axis.members, "className") == Some(Str("AxisUuidOptions"))
           && (match Find(axis.members, "fields")
               case None => false
               case Some(f) => !f.Obj? || (match Find(f.members, "uuid") case Some(u) => Truthy(u) && !Hashable(u) case None => false))))
  {
  }

  /** The entries declared by `axes[i..]`. */
  function AxesFrom(axes: seq<Json>, i: nat): (r: Result<seq<AxisEntry>, Fault>)
    requires i <= |axes|
    decreases |axes| - i
  {
    if i == |axes| then Ok([])
    else
      var here := match EntryOf(axes[i])
        case Err(f) => Err(f)
        case Ok(None) => Ok([])
        case Ok(Some(e)) => Ok([e]);
      Cat(here, AxesFrom(axes, i + 1))
  }

  /** The entries of the `axisUuids` list of `j` itself, if it is a dict holding one. */
  function OwnEntries(j: Json): Result<seq<AxisEntry>, Fault> {
    if j.Obj? && HasKey(j.members, "axisUuids") then
      match Iterate(Find(j.members, "axisUuids").value)
      case Err(f) => Err(f)
      case Ok(axes) => AxesFrom(axes, 0)
    else Ok([])
  }

  /** `sub` declares `e` in its own `axisUuids` list. */
  ghost predicate Declares(sub: Json, e: AxisEntry) {
    OwnEntries(sub).Ok? && e in OwnEntries(sub).value
  }

  /** All entries met by the walk from `j`, in walk order. */
  function AxisEntries(j: Json): Result<seq<AxisEntry>, Fault>
    decreases j, 1
  {
    Cat(OwnEntries(j), EntriesFrom(j, 0))
  }

  /** All entries met by the walks from `Children(j)[i..]`. */
  function EntriesFrom(j: Json, i: nat): Result<seq<AxisEntry>, Fault>
    requires i <= |Children(j)|
    decreases j, 0, |Children(j)| - i
  {
    if i == |Children(j)| then Ok([])
    else Cat(AxisEntries(Children(j)[i]), EntriesFrom(j, i + 1))
  }

  /** Stores the entries into `m` one by one, left to right. */
  function StoreAll(m: Lookup, es: seq<AxisEntry>): Lookup
    decreases |es|
  {
    if es == [] then m else StoreAll(m[es[0].uuid := es[0].fields], es[1..])
  }

  /** The lookup a walk leaves behind when it started from `m`, or the exception it raised. */
  function Apply(r: Result<seq<AxisEntry>, Fault>, m: Lookup): Result<Lookup, Fault> {
    match r
    case Err(f) => Err(f)
    case Ok(es) => Ok(StoreAll(m, es))
  }

  /**
   * The walk of `_find_axis_uuids`: it adds to `lookup` the declarations of
   * `obj`'s own `axisUuids` list, then walks every dict value or list item.
   */
  method FindAxisUuids(obj: Json, lookup: Lookup) returns (r: Result<Lookup, Fault>)
    ensures r == Apply(AxisEntries(obj), lookup)
    decreases obj, 1
  {
    var current := lookup;
    if obj.Obj? {
      if HasKey(obj.members, "axisUuids") {
        var listed := Iterate(Find(obj.members, "axisUuids").value);
        if listed.Err? {
          return Err(TypeFault);
        }
        var own := AddAxes(listed.value, lookup);
        if own.Err? {
          return Err(TypeFault);
        }
        current := own.value;
      }
      assert Apply(OwnEntries(obj), lookup) == Ok(current);
      r := FindInChildren(obj, current);
    } else if obj.Arr? {
      assert OwnEntries(obj) == Ok([]);
      r := FindInChildren(obj, current);
    } else {
      assert OwnEntries(obj) == Ok([]) && EntriesFrom(obj, 0) == Ok([]);
      r := Ok(current);
    }
    ApplyCat(OwnEntries(obj), EntriesFrom(obj, 0), lookup);
  }

  /** The loop over the `axisUuids` list of `_find_axis_uuids`. */
  method AddAxes(axes: seq<Json>, lookup: Lookup) returns (r: Result<Lookup, Fault>)
    ensures r == Apply(AxesFrom(axes, 0), lookup)
  {
    var current := lookup;
    for i := 0 to |axes|
      invariant Apply(AxesFrom(axes, i), current) == Apply(AxesFrom(axes, 0), lookup)
    {
      var entry := EntryOf(axes[i]);
      if entry.Err? {
        return Err(TypeFault);
      }
      if entry.value.Some? {
        var e := entry.value.value;
        ApplyCat(Ok([e]), AxesFrom(axes, i + 1), current);
        current := current[e.uuid := e.fields];
      } else {
        ApplyCat(Ok([]), AxesFrom(axes, i + 1), current);
      }
    }
    return Ok(current);
  }

  /** The loop over dict values or list items of `_find_axis_uuids`. */
  method FindInChildren(obj: Json, lookup: Lookup) returns (r: Result<Lookup, Fault>)
    ensures r == Apply(EntriesFrom(obj, 0), lookup)
    decreases obj, 0
  {
    var kids := Children(obj);
    ghost var goal := Apply(EntriesFrom(obj, 0), lookup);
    var current := lookup;
    for i := 0 to |kids|
      invariant Apply(EntriesFrom(obj, i), current) == goal
    {
      var sub := FindAxisUuids(kids[i], current);
      EntriesFromStep(obj, i, current);
      if sub.Err? {
        assert goal == Err(TypeFault);
        return Err(TypeFault);
      }
      current := sub.value;
    }
    return Ok(current);
  }

  /** One step of the loop over the children: the walk of child `i`, then the rest. */
  lemma EntriesFromStep(obj: Json, i: nat, m: Lookup)
    requires i < |Children(obj)|
    ensures Apply(AxisEntries(Children(obj)[i]), m).Err? ==> Apply(EntriesFrom(obj, i), m) == Err(TypeFault)
    ensures Apply(AxisEntries(Children(obj)[i]), m).Ok? ==>
              Apply(EntriesFrom(obj, i), m) == Apply(EntriesFrom(obj, i + 1), Apply(AxisEntries(Children(obj)[i]), m).value)
  {
    ApplyCat(AxisEntries(Children(obj)[i]), EntriesFrom(obj, i + 1), m);
  }

  lemma {:induction false} StoreAllAppend(m: Lookup, a: seq<AxisEntry>, b: seq<AxisEntry>)
    ensures StoreAll(m, a + b) == StoreAll(StoreAll(m, a), b)
    decreases |a|
  {
    if a == [] {
      assert a + b == b;
    } else {
      assert (a + b)[1..] == a[1..] + b;
      StoreAllAppend(m[a[0].uuid := a[0].fields], a[1..], b);
    }
  }

  /** Walking two parts in turn leaves what walking their concatenation leaves. */
  lemma ApplyCat(a: Result<seq<AxisEntry>, Fault>, b: Result<seq<AxisEntry>, Fault>, m: Lookup)
    ensures a.Err? ==> Apply(Cat(a, b), m) == Err(TypeFault)
    ensures a.Ok? ==> Apply(Cat(a, b), m) == Apply(b, StoreAll(m, a.value))
  {
    if a.Ok? && b.Ok? {
      StoreAllAppend(m, a.value, b.value);
    } else if b.Err? {
      assert b.error == TypeFault;
    }
  }

  /** The lookup's keys are the keys it started with plus every uuid stored. */
  lemma {:induction false} StoreAllKeys(m: Lookup, es: seq<AxisEntry>, k: Json)
    ensures k in StoreAll(m, es) <==> k in m || exists i :: 0 <= i < |es| && es[i].uuid == k
    decreases |es|
  {
    if es != [] {
      StoreAllKeys(m[es[0].uuid := es[0].fields], es[1..], k);
      if exists i :: 0 <= i < |es| && es[i].uuid == k {
        var i :| 0 <= i < |es| && es[i].uuid == k;
        if i > 0 {
          assert es[1..][i - 1].uuid == k;
        }
      }
      forall i | 0 <= i < |es| - 1 && es[1..][i].uuid == k
        ensures exists i :: 0 <= i < |es| && es[i].uuid == k
      {
        assert es[i + 1].uuid == k;
      }
    }
  }

  /** The last entry stored for a uuid wins. */
  lemma {:induction false} StoreAllLastWins(m: Lookup, es: seq<AxisEntry>, i: nat)
    requires i < |es|
    requires forall k :: i < k < |es| ==> es[k].uuid != es[i].uuid
    ensures es[i].uuid in StoreAll(m, es) && StoreAll(m, es)[es[i].uuid] == es[i].fields
    decreases |es|
  {
    if i == 0 {
      StoreAllUntouched(m[es[0].uuid := es[0].fields], es[1..], es[0].uuid);
    } else {
      StoreAllLastWins(m[es[0].uuid := es[0].fields], es[1..], i - 1);
    }
  }

  /** A key no entry mentions keeps its value. */
  lemma {:induction false} StoreAllUntouched(m: Lookup, es: seq<AxisEntry>, k: Json)
    requires k in m
    requires forall i :: 0 <= i < |es| ==> es[i].uuid != k
    ensures k in StoreAll(m, es) && StoreAll(m, es)[k] == m[k]
    decreases |es|
  {
    if es != [] {
      StoreAllUntouched(m[es[0].uuid := es[0].fields], es[1..], k);
    }
  }

  /** An entry of an `axisUuids` list is exactly a well-formed declaration made by one of its items. */
  lemma {:induction false} AxesFromMembers(axes: seq<Json>, i: nat, e: AxisEntry)
    requires i <= |axes| && AxesFrom(axes, i).Ok?
    ensures e in AxesFrom(axes, i).value <==> exists k :: i <= k < |axes| && Declaration(axes[k], e)
    decreases |axes| - i
  {
    if i < |axes| {
      AxesFromMembers(axes, i + 1, e);
      if Declaration(axes[i], e) {
        EntryOfDeclaration(axes[i], e);
      }
      forall k | i < k < |axes| && Declaration(axes[k], e)
        ensures exists k :: i + 1 <= k < |axes| && Declaration(axes[k], e)
      {
      }
    }
  }

  /** The walk finds exactly the declarations made anywhere in the tree. */
  lemma {:induction false} AxisEntriesWithin(j: Json, e: AxisEntry)
    requires AxisEntries(j).Ok?
    ensures e in AxisEntries(j).value <==> exists sub :: Within(sub, j) && Declares(sub, e)
    decreases j, 1
  {
    EntriesFromWithin(j, 0, e);
    assert Within(j, j);
    forall sub | Within(sub, j) && Declares(sub, e) ensures e in AxisEntries(j).value {
      if sub != j {
        var k :| 0 <= k < |Children(j)| && Within(sub, Children(j)[k]);
      }
    }
    if e in EntriesFrom(j, 0).value {
      var k, sub :| 0 <= k < |Children(j)| && Within(sub, Children(j)[k]) && Declares(sub, e);
      assert Within(sub, j);
    }
  }

  lemma {:induction false} EntriesFromWithin(j: Json, i: nat, e: AxisEntry)
    requires i <= |Children(j)| && EntriesFrom(j, i).Ok?
    ensures e in EntriesFrom(j, i).value <==>
            exists k, sub :: i <= k < |Children(j)| && Within(sub, Children(j)[k]) && Declares(sub, e)
    decreases j, 0, |Children(j)| - i
  {
    if i < |Children(j)| {
      AxisEntriesWithin(Children(j)[i], e);
      EntriesFromWithin(j, i + 1, e);
      forall k, sub | i <= k < |Children(j)| && Within(sub, Children(j)[k]) && Declares(sub, e)
        ensures e in EntriesFrom(j, i).value
      {
        if k == i {
          assert e in AxisEntries(Children(j)[i]).value;
        } else {
          assert e in EntriesFrom(j, i + 1).value;
        }
      }
    }
  }

  /** The walk raises an exception exactly when some node's own `axisUuids` list is malformed. */
  lemma {:induction false} AxisEntriesOk(j: Json)
    ensures AxisEntries(j).Ok? <==> forall sub :: Within(sub, j) ==> OwnEntries(sub).Ok?
    decreases j, 1
  {
    EntriesFromOk(j, 0);
    assert Within(j, j);
    if EntriesFrom(j, 0).Ok? {
      forall sub | Within(sub, j) && sub != j ensures OwnEntries(sub).Ok? {
        var k :| 0 <= k < |Children(j)| && Within(sub, Children(j)[k]);
      }
    }
  }

  lemma {:induction false} EntriesFromOk(j: Json, i: nat)
    requires i <= |Children(j)|
    ensures EntriesFrom(j, i).Ok? <==>
            forall k, sub :: i <= k < |Children(j)| && Within(sub, Children(j)[k]) ==> OwnEntries(sub).Ok?
    decreases j, 0, |Children(j)| - i
  {
    var cs := Children(j);
    if i < |cs| {
      AxisEntriesOk(cs[i]);
      EntriesFromOk(j, i + 1);
      OkFromSplit(cs, i);
      assert EntriesFrom(j, i) == Cat(AxisEntries(cs[i]), EntriesFrom(j, i + 1));
    }
  }

  /** Splits a claim about the subtrees of `cs[i..]` into the first one and the rest. */
  lemma OkFromSplit(cs: seq<Json>, i: nat)
    requires i < |cs|
    ensures (forall k, sub :: i <= k < |cs| && Within(sub, cs[k]) ==> OwnEntries(sub).Ok?) <==>
            (forall sub :: Within(sub, cs[i]) ==> OwnEntries(sub).Ok?) &&
            (forall k, sub :: i + 1 <= k < |cs| && Within(sub, cs[k]) ==> OwnEntries(sub).Ok?)
  {
  }

  /** The lookup built from an empty dict, as `_parse_template_file` builds it. */
  function LookupOf(j: Json): Result<Lookup, Fault> {
    Apply(AxisEntries(j), map[])
  }

  /** A uuid is in the lookup exactly when some node of the tree declares it. */
  lemma LookupKeys(j: Json, k: Json)
    requires LookupOf(j).Ok?
    ensures k in LookupOf(j).value <==> exists sub, e :: Within(sub, j) && Declares(sub, e) && e.uuid == k
  {
    var es := AxisEntries(j).value;
    StoreAllKeys(map[], es, k);
    if k in LookupOf(j).value {
      var i :| 0 <= i < |es| && es[i].uuid == k;
      AxisEntriesWithin(j, es[i]);
    }
    forall sub, e | Within(sub, j) && Declares(sub, e) && e.uuid == k ensures k in LookupOf(j).value {
      AxisEntriesWithin(j, e);
      var i :| 0 <= i < |es| && es[i] == e;
    }
  }

  /** Every value of the lookup is the fields of a declaration made somewhere in the tree: the last one for its uuid. */
  lemma LookupValueDeclared(j: Json, k: Json)
    requires LookupOf(j).Ok? && k in LookupOf(j).value
    ensures exists sub, e :: Within(sub, j) && Declares(sub, e) && e.uuid == k && e.fields == LookupOf(j).value[k]
  {
    var es := AxisEntries(j).value;
    StoreAllKeys(map[], es, k);
    var i := LastIndex(es, k, |es|);
    StoreAllLastWins(map[], es, i);
    AxisEntriesWithin(j, es[i]);
  }

  /** The position of the last entry for a uuid among the first `n` entries. */
  function LastIndex(es: seq<AxisEntry>, u: Json, n: nat): (i: nat)
    requires n <= |es| && exists i :: 0 <= i < n && es[i].uuid == u
    ensures i < n && es[i].uuid == u && forall k :: i < k < n ==> es[k].uuid != u
  {
    if es[n - 1].uuid == u then n - 1 else LastIndex(es, u, n - 1)
  }
}
