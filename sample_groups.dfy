/**
 * Group Resolver: the sample-sheet normaliser (`_parse_sample_file`), the
 * breadth-first search over the implicit reference graph
 * (`_find_connected_samples`) and the grouping loop of
 * `find_sample_relationships`, including its cohort override.
 */
module SampleGroups {
  import opened Results
  import opened Text

  /**
   * A parsed sample sheet: sample name -> its trimmed, non-empty metadata
   * values.  Its key set is the run's sample set: the parser adds a name to
   * `all_samples` exactly when it stores a row under that name.
   */
  type SampleTable = map<string, seq<string>>

  datatype ParseError = MissingHeader

  // ---------------------------------------------------------------- parsing

  /** The trimmed name cell of a row; "" for an empty row. */
  function RowName(row: seq<string>): string {
    if row == [] then "" else Strip(row[0])
  }

  /** The metadata kept from a row: each value that is non-empty once trimmed, trimmed, in row order. */
  function CleanValues(values: seq<string>): (r: seq<string>)
    ensures forall v :: v in r ==> v != []
    ensures forall w :: w in values && Strip(w) != [] ==> Strip(w) in r
    ensures forall v :: v in r ==> exists w :: w in values && Strip(w) == v
  {
    if values == [] then []
    else
      var rest := CleanValues(values[1..]);
      assert forall w :: w in values ==> w == values[0] || w in values[1..];
      var t := Strip(values[0]);
      if t != [] then [t] + rest else rest
  }

  /** The table the data rows (the rows after the header) describe: a later row with the same name replaces an earlier one. */
  function TableOf(rows: seq<seq<string>>): SampleTable
  {
    if rows == [] then map[]
    else
      var t := TableOf(rows[..|rows| - 1]);
      var row := rows[|rows| - 1];
      if RowName(row) == "" then t else t[RowName(row) := CleanValues(row[1..])]
  }

  /** The sample set is the set of non-empty trimmed names of the data rows. */
  lemma {:induction false} TableOfSamples(rows: seq<seq<string>>, name: string)
    ensures name in TableOf(rows) <==> name != "" && exists i :: 0 <= i < |rows| && RowName(rows[i]) == name
    decreases |rows|
  {
    if rows != [] {
      var init := rows[..|rows| - 1];
      TableOfSamples(init, name);
      if exists i :: 0 <= i < |rows| && RowName(rows[i]) == name {
        var i :| 0 <= i < |rows| && RowName(rows[i]) == name;
        if i < |init| {
          assert RowName(init[i]) == name;
        }
      }
      if exists i :: 0 <= i < |init| && RowName(init[i]) == name {
        var i :| 0 <= i < |init| && RowName(init[i]) == name;
        assert RowName(rows[i]) == name;
      }
    }
  }

  /** A sample's metadata comes from the last data row carrying its name. */
  lemma {:induction false} TableOfLastRow(rows: seq<seq<string>>, i: nat)
    requires i < |rows| && RowName(rows[i]) != ""
    requires forall j :: i < j < |rows| ==> RowName(rows[j]) != RowName(rows[i])
    ensures RowName(rows[i]) in TableOf(rows)
    ensures TableOf(rows)[RowName(rows[i])] == CleanValues(rows[i][1..])
    decreases |rows|
  {
    if i < |rows| - 1 {
      var init := rows[..|rows| - 1];
      assert init[i] == rows[i];
      TableOfLastRow(init, i);
    }
  }

  /**
   * `_parse_sample_file` over the rows a tab-separated reader yields: the
   * first row is the header; an empty row or a row whose trimmed name is
   * empty is skipped.  A sheet without even a header row is an error (the
   * source's `next(reader)` raises).
   */
  method ParseSampleRows(rows: seq<seq<string>>) returns (r: Result<SampleTable, ParseError>)
    ensures rows == [] ==> r == Err(MissingHeader)
    ensures rows != [] ==> r == Ok(TableOf(rows[1..]))
  {
    if rows == [] {
      return Err(MissingHeader);
    }
    var table: SampleTable := map[];
    var i := 1;
    while i < |rows|
      invariant 1 <= i <= |rows|
      invariant table == TableOf(rows[1..i])
    {
      var row := rows[i];
      assert rows[1..i + 1][..i - 1] == rows[1..i];
      if row != [] {
        var name := Strip(row[0]);
        if name != "" {
          table := table[name := CleanValues(row[1..])];
        }
      }
      i := i + 1;
    }
    assert rows[1..i] == rows[1..];
    return Ok(table);
  }

  // ------------------------------------------------------------ the graph

  /** Samples a and b are related when either one's metadata lists the other's exact name. */
  predicate Related(t: SampleTable, a: string, b: string) {
    a in t && b in t && (b in t[a] || a in t[b])
  }

  /** A chain of pairwise related samples whose members after the first all lie outside `avoid`. */
  ghost predicate IsWalk(t: SampleTable, p: seq<string>, avoid: set<string>) {
    |p| > 0
    && (forall i :: 0 <= i < |p| - 1 ==> Related(t, p[i], p[i + 1]))
    && (forall i :: 1 <= i < |p| ==> p[i] !in avoid)
  }

  /** v can be reached from s through related samples without entering `avoid`. */
  ghost predicate ReachableAvoiding(t: SampleTable, avoid: set<string>, s: string, v: string) {
    exists p :: IsWalk(t, p, avoid) && p[0] == s && p[|p| - 1] == v
  }

  /** a and b lie in the same connected component of the reference graph. */
  ghost predicate Connected(t: SampleTable, a: string, b: string) {
    ReachableAvoiding(t, {}, a, b)
  }

  lemma ExtendWalk(t: SampleTable, avoid: set<string>, p: seq<string>, v: string)
    requires IsWalk(t, p, avoid) && Related(t, p[|p| - 1], v) && v !in avoid
    ensures IsWalk(t, p + [v], avoid)
    ensures (p + [v])[0] == p[0] && (p + [v])[|p|] == v
  {
    var q := p + [v];
    forall i | 0 <= i < |q| - 1 ensures Related(t, q[i], q[i + 1]) {
      if i < |p| - 1 {
        assert q[i] == p[i] && q[i + 1] == p[i + 1];
      }
    }
  }

  /** One more reference extends what is reachable. */
  lemma ReachStep(t: SampleTable, avoid: set<string>, s: string, u: string, v: string)
    requires ReachableAvoiding(t, avoid, s, u) && Related(t, u, v) && v !in avoid
    ensures ReachableAvoiding(t, avoid, s, v)
  {
    var p :| IsWalk(t, p, avoid) && p[0] == s && p[|p| - 1] == u;
    ExtendWalk(t, avoid, p, v);
  }

  /** A set that every reference out of it leads back into (or into `avoid`) holds every walk that starts in it. */
  lemma {:induction false} ClosedSetHoldsWalk(t: SampleTable, avoid: set<string>, g: set<string>, p: seq<string>)
    requires IsWalk(t, p, avoid) && p[0] in g
    requires forall u, v :: u in g && Related(t, u, v) ==> v in avoid || v in g
    ensures p[|p| - 1] in g
    decreases |p|
  {
    if |p| > 1 {
      var init := p[..|p| - 1];
      assert IsWalk(t, init, avoid) by {
        forall i | 0 <= i < |init| - 1 ensures Related(t, init[i], init[i + 1]) {
          assert init[i] == p[i] && init[i + 1] == p[i + 1];
        }
      }
      ClosedSetHoldsWalk(t, avoid, g, init);
      assert Related(t, p[|p| - 2], p[|p| - 1]);
    }
  }

  /** A sample reached from outside `avoid` lies outside `avoid`. */
  lemma ReachedOutside(t: SampleTable, avoid: set<string>, s: string, v: string)
    requires s !in avoid && ReachableAvoiding(t, avoid, s, v)
    ensures v !in avoid
  {
    var p :| IsWalk(t, p, avoid) && p[0] == s && p[|p| - 1] == v;
  }

  /** Two samples reached from a common start are connected (the graph is undirected). */
  lemma ConnectedViaCommonStart(t: SampleTable, avoid: set<string>, s: string, a: string, b: string)
    requires ReachableAvoiding(t, avoid, s, a) && ReachableAvoiding(t, avoid, s, b)
    ensures Connected(t, a, b)
  {
    var p :| IsWalk(t, p, avoid) && p[0] == s && p[|p| - 1] == a;
    var q :| IsWalk(t, q, avoid) && q[0] == s && q[|q| - 1] == b;
    var back := seq(|p|, i requires 0 <= i < |p| => p[|p| - 1 - i]);
    var w := back + q[1..];
    forall i | 0 <= i < |w| - 1 ensures Related(t, w[i], w[i + 1]) {
      if i < |p| - 1 {
        assert Related(t, p[|p| - 2 - i], p[|p| - 1 - i]);
      } else if i == |p| - 1 {
        assert w[i] == s && w[i + 1] == q[1];
      } else {
        assert w[i] == q[i - |p| + 1] && w[i + 1] == q[i - |p| + 2];
      }
    }
    assert IsWalk(t, w, {}) && w[0] == a && w[|w| - 1] == b;
  }

  // ------------------------------------------------- breadth-first search

  /** What the search knows at every step: its group is reachable from `sample` avoiding the samples processed before it started. */
  ghost predicate SearchState(t: SampleTable, before: set<string>, sample: string, group: set<string>, processed: set<string>) {
    && sample in group && group <= t.Keys
    && processed == before + group
    && (forall v :: v in group ==> ReachableAvoiding(t, before, sample, v))
  }

  /**
   * First scan of a search step: every sample not yet processed whose
   * metadata names `current` joins the group, the processed set and the queue.
   */
  method AddSamplesNaming(t: SampleTable, ghost before: set<string>, ghost sample: string, current: string,
                          group: set<string>, processed: set<string>, queue: seq<string>)
    returns (group': set<string>, processed': set<string>, queue': seq<string>)
    requires SearchState(t, before, sample, group, processed) && current in group
    ensures SearchState(t, before, sample, group', processed')
    ensures group <= group' && forall v :: v in queue' <==> v in queue || v in group' - group
    ensures t.Keys - processed' < t.Keys - processed || queue' == queue
    ensures forall o :: o in t && current in t[o] ==> o in processed'
  {
    group', processed', queue' := group, processed, queue;
    var others := t.Keys;
    while others != {}
      invariant others <= t.Keys
      invariant SearchState(t, before, sample, group', processed')
      invariant group <= group' && forall v :: v in queue' <==> v in queue || v in group' - group
      invariant t.Keys - processed' < t.Keys - processed || queue' == queue
      invariant forall o :: o in t.Keys - others && current in t[o] ==> o in processed'
      decreases others
    {
      var other :| other in others;
      others := others - {other};
      if other !in processed' && current in t[other] {
        ReachStep(t, before, sample, current, other);
        group' := group' + {other};
        processed' := processed' + {other};
        queue' := queue' + [other];
      }
    }
  }

  /**
   * Second scan of a search step: every known sample named in `current`'s
   * metadata that is not yet processed joins the group, the processed set
   * and the queue.
   */
  method AddNamedSamples(t: SampleTable, ghost before: set<string>, ghost sample: string, current: string,
                         group: set<string>, processed: set<string>, queue: seq<string>)
    returns (group': set<string>, processed': set<string>, queue': seq<string>)
    requires SearchState(t, before, sample, group, processed) && current in group
    ensures SearchState(t, before, sample, group', processed')
    ensures group <= group' && forall v :: v in queue' <==> v in queue || v in group' - group
    ensures t.Keys - processed' < t.Keys - processed || queue' == queue
    ensures forall v :: v in t[current] && v in t ==> v in processed'
  {
    group', processed', queue' := group, processed, queue;
    var values := t[current];
    var i := 0;
    while i < |values|
      invariant i <= |values|
      invariant SearchState(t, before, sample, group', processed')
      invariant group <= group' && forall v :: v in queue' <==> v in queue || v in group' - group
      invariant t.Keys - processed' < t.Keys - processed || queue' == queue
      invariant forall k :: 0 <= k < i && values[k] in t ==> values[k] in processed'
    {
      var value := values[i];
      if value in t && value !in processed' {
        ReachStep(t, before, sample, current, value);
        group' := group' + {value};
        processed' := processed' + {value};
        queue' := queue' + [value];
      }
      i := i + 1;
    }
  }

  /**
   * `_find_connected_samples`: the group of `sample` is every sample that can
   * be reached from it through references without entering a sample already
   * processed; `processed'` is the caller's set with that group added.
   */
  method FindConnectedSamples(sample: string, t: SampleTable, processed: set<string>)
    returns (group: set<string>, processed': set<string>)
    requires sample in t
    ensures sample in group && group <= t.Keys
    ensures processed' == processed + group
    ensures forall v :: v in group ==> ReachableAvoiding(t, processed, sample, v)
    ensures forall v :: ReachableAvoiding(t, processed, sample, v) ==> v in group
  {
    group := {sample};
    processed' := processed + {sample};
    var queue := [sample];
    ghost var done: set<string> := {};
    assert IsWalk(t, [sample], processed);
    while queue != []
      invariant SearchState(t, processed, sample, group, processed')
      invariant forall v :: v in group <==> v in done || v in queue
      invariant forall u, v :: u in done && Related(t, u, v) ==> v in processed'
      decreases t.Keys - processed', |queue|
    {
      var current := queue[0];
      queue := queue[1..];
      ghost var rest := queue;
      group, processed', queue := AddSamplesNaming(t, processed, sample, current, group, processed', queue);
      group, processed', queue := AddNamedSamples(t, processed, sample, current, group, processed', queue);
      done := done + {current};
      assert forall v :: v in group <==> v in done || v in queue by {
        forall v ensures v in group <==> v in done || v in queue {
          if v in rest { assert v in queue; }
        }
      }
    }
    forall v | ReachableAvoiding(t, processed, sample, v) ensures v in group {
      var p :| IsWalk(t, p, processed) && p[0] == sample && p[|p| - 1] == v;
      ClosedSetHoldsWalk(t, processed, group, p);
    }
  }

  // ------------------------------------------------------------ grouping

  /** Each group is listed in increasing order and stored under its smallest member. */
  ghost predicate KeyedBySmallest(groups: map<string, seq<string>>) {
    forall k :: k in groups ==> |groups[k]| > 0 && groups[k][0] == k && StrictlySorted(groups[k])
  }

  /** Every sample lies in exactly one group and groups hold nothing but samples. */
  ghost predicate Partitions(t: SampleTable, groups: map<string, seq<string>>) {
    && (forall s :: s in t <==> exists k :: k in groups && s in groups[k])
    && (forall k1, k2, s :: k1 in groups && k2 in groups && s in groups[k1] && s in groups[k2] ==> k1 == k2)
  }

  /** A sample related to a member of a group is in that group. */
  ghost predicate ClosedUnderReferences(t: SampleTable, groups: map<string, seq<string>>) {
    forall k, a, b :: k in groups && a in groups[k] && Related(t, a, b) ==> b in groups[k]
  }

  /** Every member of a group is connected to the group's key. */
  ghost predicate GroupsConnected(t: SampleTable, groups: map<string, seq<string>>) {
    forall k, a :: k in groups && a in groups[k] ==> Connected(t, k, a)
  }

  /** The groups are the connected components of the reference graph, each sorted and keyed by its least member. */
  ghost predicate IsComponentGrouping(t: SampleTable, groups: map<string, seq<string>>) {
    KeyedBySmallest(groups) && Partitions(t, groups) && ClosedUnderReferences(t, groups) && GroupsConnected(t, groups)
  }

  /** A group found from an unprocessed sample, when the processed set is closed under references, is a whole component disjoint from it. */
  lemma NewGroupIsComponent(t: SampleTable, before: set<string>, sample: string, group: set<string>)
    requires sample !in before
    requires forall a, b :: a in before && Related(t, a, b) ==> b in before
    requires forall v :: v in group <==> ReachableAvoiding(t, before, sample, v)
    ensures group !! before
    ensures forall a, b :: a in group && Related(t, a, b) ==> b in group
  {
    forall v | v in group ensures v !in before {
      ReachedOutside(t, before, sample, v);
    }
    forall a, b | a in group && Related(t, a, b) ensures b in group {
      if b in before {
        assert Related(t, b, a);
      } else {
        ReachStep(t, before, sample, a, b);
      }
    }
  }

  /**
   * The grouping of `find_sample_relationships`.  In cohort mode every sample
   * forms one group stored under "cohort" (none when there are no samples);
   * otherwise the samples are split into the connected components of the
   * reference graph.
   */
  method FindSampleRelationships(t: SampleTable, cohort: bool) returns (groups: map<string, seq<string>>)
    ensures cohort && t == map[] ==> groups == map[]
    ensures cohort && t != map[] ==> groups.Keys == {"cohort"} && StrictlySorted(groups["cohort"])
                                     && forall s :: s in groups["cohort"] <==> s in t
    ensures !cohort ==> IsComponentGrouping(t, groups)
  {
    groups := map[];
    if cohort {
      if t != map[] {
        var members := SortedMembers(t.Keys);
        groups := groups["cohort" := members];
      }
    } else {
      groups := GroupComponents(t);
    }
  }

  /** The loop's invariant: the processed samples are closed under references and are exactly the members of the groups stored so far; `owner` names each one's group. */
  ghost predicate GroupingSoFar(t: SampleTable, processed: set<string>, owner: map<string, string>,
                                groups: map<string, seq<string>>) {
    && processed <= t.Keys
    && (forall a, b :: a in processed && Related(t, a, b) ==> b in processed)
    && owner.Keys == processed
    && (forall s :: s in processed ==> owner[s] in groups && s in groups[owner[s]])
    && (forall k, s :: k in groups && s in groups[k] ==> s in processed && owner[s] == k)
    && KeyedBySmallest(groups)
    && ClosedUnderReferences(t, groups)
    && GroupsConnected(t, groups)
  }

  /** Storing the group found from an unprocessed sample keeps the invariant. */
  lemma StoreGroup(t: SampleTable, processed: set<string>, owner: map<string, string>, groups: map<string, seq<string>>,
                   sample: string, group: set<string>, members: seq<string>)
    requires GroupingSoFar(t, processed, owner, groups)
    requires sample in t && sample !in processed && group <= t.Keys
    requires forall v :: v in group <==> ReachableAvoiding(t, processed, sample, v)
    requires StrictlySorted(members) && forall x :: x in members <==> x in group
    ensures sample in group && |members| > 0
    ensures GroupingSoFar(t, processed + group, owner + map s | s in group :: members[0], groups[members[0] := members])
  {
    assert IsWalk(t, [sample], processed);
    assert sample in members;
    NewGroupIsComponent(t, processed, sample, group);
    var key := members[0];
    NewKeyIsFresh(processed, groups, group, members);
    GroupConnectedToKey(t, processed, sample, group, key);
    StoreGroupOwners(t, processed, owner, groups, group, members);
    StoreGroupShape(t, groups, group, members);
  }

  /** The smallest member of a group disjoint from the processed samples is not yet a key. */
  lemma NewKeyIsFresh(processed: set<string>, groups: map<string, seq<string>>, group: set<string>, members: seq<string>)
    requires forall k, s :: k in groups && s in groups[k] ==> s in processed
    requires KeyedBySmallest(groups)
    requires group !! processed && |members| > 0 && forall x :: x in members <==> x in group
    ensures members[0] !in groups
  {
    var key := members[0];
    assert key in members && key in group && key !in processed;
    forall k | k in groups ensures k != key {
      assert k in groups[k];
    }
  }

  /** Every member of a freshly found group is connected to any other member, in particular to its key. */
  lemma GroupConnectedToKey(t: SampleTable, processed: set<string>, sample: string, group: set<string>, key: string)
    requires forall v :: v in group <==> ReachableAvoiding(t, processed, sample, v)
    requires key in group
    ensures forall a :: a in group ==> Connected(t, key, a)
  {
    forall a | a in group ensures Connected(t, key, a) {
      ConnectedViaCommonStart(t, processed, sample, key, a);
    }
  }

  lemma StoreGroupOwners(t: SampleTable, processed: set<string>, owner: map<string, string>,
                         groups: map<string, seq<string>>, group: set<string>, members: seq<string>)
    requires GroupingSoFar(t, processed, owner, groups)
    requires |members| > 0 && members[0] !in groups && group <= t.Keys && group !! processed
    requires forall x :: x in members <==> x in group
    requires forall a, b :: a in group && Related(t, a, b) ==> b in group
    ensures var key := members[0];
      var owner' := owner + map s | s in group :: key;
      var groups' := groups[key := members];
      && (forall a, b :: a in processed + group && Related(t, a, b) ==> b in processed + group)
      && owner'.Keys == processed + group
      && (forall s :: s in processed + group ==> owner'[s] in groups' && s in groups'[owner'[s]])
      && (forall k, s :: k in groups' && s in groups'[k] ==> s in processed + group && owner'[s] == k)
  {
    var key := members[0];
    var owner' := owner + map s | s in group :: key;
    var groups' := groups[key := members];
    forall s | s in processed + group ensures owner'[s] in groups' && s in groups'[owner'[s]] {
      if s !in group {
        assert owner'[s] == owner[s] && owner[s] in groups && owner[s] != key;
      }
    }
    forall k, s | k in groups' && s in groups'[k] ensures s in processed + group && owner'[s] == k {
      if k != key {
        assert s in groups[k];
        assert s in processed && s !in group;
      }
    }
  }

  lemma StoreGroupShape(t: SampleTable, groups: map<string, seq<string>>, group: set<string>, members: seq<string>)
    requires KeyedBySmallest(groups) && ClosedUnderReferences(t, groups) && GroupsConnected(t, groups)
    requires |members| > 0 && StrictlySorted(members) && forall x :: x in members <==> x in group
    requires forall a, b :: a in group && Related(t, a, b) ==> b in group
    requires forall a :: a in group ==> Connected(t, members[0], a)
    ensures var groups' := groups[members[0] := members];
      KeyedBySmallest(groups') && ClosedUnderReferences(t, groups') && GroupsConnected(t, groups')
  {
  }

  /** Once every sample is processed, the stored groups are a component grouping. */
  lemma GroupingDone(t: SampleTable, processed: set<string>, owner: map<string, string>, groups: map<string, seq<string>>)
    requires GroupingSoFar(t, processed, owner, groups) && t.Keys <= processed
    ensures IsComponentGrouping(t, groups)
  {
    forall s | s in t ensures exists k :: k in groups && s in groups[k] {
      assert owner[s] in groups && s in groups[owner[s]];
    }
    forall k1, k2, s | k1 in groups && k2 in groups && s in groups[k1] && s in groups[k2] ensures k1 == k2 {
      assert owner[s] == k1 && owner[s] == k2;
    }
  }

  /**
   * The non-cohort loop of `find_sample_relationships`: a search from every
   * sample not yet processed, its group stored sorted under its least member.
   * The source walks `all_samples`, a Python set, in an order the model
   * leaves open; `GroupingIsUnique` shows the result does not depend on it.
   */
  method GroupComponents(t: SampleTable) returns (groups: map<string, seq<string>>)
    ensures IsComponentGrouping(t, groups)
  {
    groups := map[];
    var processed: set<string> := {};
    ghost var owner: map<string, string> := map[];
    var rest := t.Keys;
    while rest != {}
      invariant rest <= t.Keys
      invariant t.Keys - rest <= processed
      invariant GroupingSoFar(t, processed, owner, groups)
      decreases rest
    {
      var sample :| sample in rest;
      rest := rest - {sample};
      if sample !in processed {
        ghost var before := processed;
        var group;
        group, processed := FindConnectedSamples(sample, t, processed);
        var members := SortedMembers(group);
        StoreGroup(t, before, owner, groups, sample, group, members);
        var key := members[0];  // min(current_group)
        groups := groups[key := members];
        owner := owner + map s | s in group :: key;
      }
    }
    GroupingDone(t, processed, owner, groups);
  }

  /** A walk that starts in a group closed under references ends in it. */
  lemma {:induction false} WalkStaysInGroup(t: SampleTable, groups: map<string, seq<string>>, k: string, p: seq<string>)
    requires ClosedUnderReferences(t, groups) && k in groups
    requires IsWalk(t, p, {}) && p[0] in groups[k]
    ensures p[|p| - 1] in groups[k]
  {
    var g := set s | s in groups[k];
    ClosedSetHoldsWalk(t, {}, g, p);
  }

  /** Component groupings are unique: the result of the grouping loop depends only on the sample sheet. */
  lemma GroupingIsUnique(t: SampleTable, g1: map<string, seq<string>>, g2: map<string, seq<string>>)
    requires IsComponentGrouping(t, g1) && IsComponentGrouping(t, g2)
    ensures g1 == g2
  {
    forall k | k in g1 ensures k in g2 && g1[k] == g2[k] {
      SameComponent(t, g1, g2, k);
    }
    forall k | k in g2 ensures k in g1 {
      SameComponent(t, g2, g1, k);
    }
    assert g1.Keys == g2.Keys;
  }

  lemma SameComponent(t: SampleTable, g1: map<string, seq<string>>, g2: map<string, seq<string>>, k: string)
    requires IsComponentGrouping(t, g1) && IsComponentGrouping(t, g2) && k in g1
    ensures k in g2 && g1[k] == g2[k]
  {
    assert k in g1[k];
    assert k in t;
    var k2 :| k2 in g2 && k in g2[k2];
    forall a ensures a in g1[k] <==> a in g2[k2] {
      if a in g1[k] {
        var p :| IsWalk(t, p, {}) && p[0] == k && p[|p| - 1] == a;
        WalkStaysInGroup(t, g2, k2, p);
      }
      if a in g2[k2] {
        ConnectedViaCommonStart(t, {}, k2, k, a);
        var p :| IsWalk(t, p, {}) && p[0] == k && p[|p| - 1] == a;
        WalkStaysInGroup(t, g1, k, p);
      }
    }
    StrictlySortedUnique(g1[k], g2[k2]);
  }
}
