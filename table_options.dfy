// The second walk over a template: every dict whose `className` is
// `VSTableDataOptions`, in pre-order (a node before anything below it,
// children in order). The walk also builds a dotted path to each node for
// diagnostics; the path is not kept here.
module TableDataOptions {
  import opened Results
  import opened JsonDoc

  predicate IsTableNode(j: Json) {
    j.Obj? && Find(j.members, "className") == Some(Str("VSTableDataOptions"))
  }

  /** The table nodes at or below `j`, in pre-order. */
  function TableOptions(j: Json): (r: seq<Json>)
    ensures forall t :: t in r ==> IsTableNode(t)
    decreases j, 1
  {
    (if IsTableNode(j) then [j] else []) + TablesFrom(j, 0)
  }

  /** The table nodes at or below `Children(j)[i..]`, in pre-order. */
  function TablesFrom(j: Json, i: nat): (r: seq<Json>)
    requires i <= |Children(j)|
    ensures forall t :: t in r ==> IsTableNode(t)
    decreases j, 0, |Children(j)| - i
  {
    if i == |Children(j)| then [] else TableOptions(Children(j)[i]) + TablesFrom(j, i + 1)
  }

  /** The walk finds every table node of the tree and nothing else. */
  lemma {:induction false} TableOptionsWithin(j: Json, t: Json)
    ensures t in TableOptions(j) <==> Within(t, j) && IsTableNode(t)
    decreases j, 1
  {
    TablesFromWithin(j, 0, t);
    if Within(t, j) && IsTableNode(t) && t != j {
      var k :| 0 <= k < |Children(j)| && Within(t, Children(j)[k]);
    }
    if t in TablesFrom(j, 0) {
      var k :| 0 <= k < |Children(j)| && Within(t, Children(j)[k]);
      assert Within(t, j);
    }
  }

  lemma {:induction false} TablesFromWithin(j: Json, i: nat, t: Json)
    requires i <= |Children(j)|
    ensures t in TablesFrom(j, i) <==> IsTableNode(t) && exists k :: i <= k < |Children(j)| && Within(t, Children(j)[k])
    decreases j, 0, |Children(j)| - i
  {
    var cs := Children(j);
    if i < |cs| {
      TableOptionsWithin(cs[i], t);
      TablesFromWithin(j, i + 1, t);
      WithinSplit(cs, i, t);
      assert t in TablesFrom(j, i) <==> t in TableOptions(cs[i]) || t in TablesFrom(j, i + 1);
    }
  }

  lemma WithinSplit(cs: seq<Json>, i: nat, t: Json)
    requires i < |cs|
    ensures (exists k :: i <= k < |cs| && Within(t, cs[k])) <==>
            Within(t, cs[i]) || exists k :: i + 1 <= k < |cs| && Within(t, cs[k])
  {
    if exists k :: i <= k < |cs| && Within(t, cs[k]) {
      var k :| i <= k < |cs| && Within(t, cs[k]);
      if k > i {
        assert i + 1 <= k;
      }
    }
  }

  /** Pre-order: a table node comes before every table node below it. */
  lemma TableNodeFirst(j: Json)
    requires IsTableNode(j)
    ensures |TableOptions(j)| > 0 && TableOptions(j)[0] == j
  {
  }
}
