// Which table of a template receives each kind of import. Every table node
// names the axes it is built on; a table becomes a candidate for a category
// when one of those axes is declared with that category's axis type. Per
// category one candidate is then chosen: a sole distinct candidate wins,
// otherwise the alphabetically first custom name, otherwise the alphabetically
// first generic `TableN` name.
module TableSelection {
  import opened Results
  import opened Text
  import opened Dedup
  import opened JsonDoc
  import opened AxisLookup
  import opened TableDataOptions

  datatype Category = Cnv | Breakend | Region

  /** The `axisType` value that marks an axis of each category. */
  function AxisTypeOf(c: Category): string {
    match c
    case Cnv => "CNV"
    case Breakend => "Breakend"
    case Region => "Region"
  }

  /** The category an `axisType` value selects, if any; the comparison is exact. */
  function CategoryOf(axisType: Json): (r: Option<Category>)
    ensures r.None? <==> axisType != Str("CNV") && axisType != Str("Breakend") && axisType != Str("Region")
    ensures r.Some? ==> axisType == Str(AxisTypeOf(r.value))
  {
    if axisType == Str("CNV") then Some(Cnv)
    else if axisType == Str("Breakend") then Some(Breakend)
    else if axisType == Str("Region") then Some(Region)
    else None
  }

  /** A table name found to be a candidate for a category. */
  datatype Hit = Hit(category: Category, name: string)

  /** What one entry of a table's `axisUuidList` contributes. */
  function HitOf(uuid: Json, userId: Json, lookup: Lookup): (r: Result<seq<Hit>, Fault>)
    ensures r.Ok? ==> |r.value| <= 1
  {
    if !Hashable(uuid) then Err(TypeFault)
    else if uuid !in lookup then Ok([])
    else match Get(lookup[uuid], "axisType", Str(""))
      case Err(f) => Err(f)
      case Ok(axisType) =>
        match CategoryOf(axisType)
        case None => Ok([])
        case Some(c) => if userId.Str? then Ok([Hit(c, userId.s)]) else Err(TypeFault)
  }

  /** What the entries `uuids[i..]` of one table contribute. */
  function HitsFrom(uuids: seq<Json>, i: nat, userId: Json, lookup: Lookup): Result<seq<Hit>, Fault>
    requires i <= |uuids|
    decreases |uuids| - i
  {
    if i == |uuids| then Ok([])
    else Cat(HitOf(uuids[i], userId, lookup), HitsFrom(uuids, i + 1, userId, lookup))
  }

  /** The `fields` dict of a table node with its `userId` and `axisUuidList` read out. */
  function TableFields(table: Json): Result<(Json, seq<Json>), Fault> {
    match Get(table, "fields", Obj([]))
    case Err(f) => Err(f)
    case Ok(fields) =>
      match Get(fields, "userId", Str(""))
      case Err(f) => Err(f)
      case Ok(userId) =>
        match Get(fields, "axisUuidList", Arr([]))
        case Err(f) => Err(f)
        case Ok(list) =>
          match Iterate(list)
          case Err(f) => Err(f)
          case Ok(uuids) => Ok((userId, uuids))
  }

  /** What one table node contributes, in the order of its `axisUuidList`. */
  function TableHits(table: Json, lookup: Lookup): Result<seq<Hit>, Fault> {
    match TableFields(table)
    case Err(f) => Err(f)
    case Ok((userId, uuids)) => HitsFrom(uuids, 0, userId, lookup)
  }

  /** What the tables `tables[i..]` contribute, in order. */
  function AllHitsFrom(tables: seq<Json>, i: nat, lookup: Lookup): Result<seq<Hit>, Fault>
    requires i <= |tables|
    decreases |tables| - i
  {
    if i == |tables| then Ok([])
    else Cat(TableHits(tables[i], lookup), AllHitsFrom(tables, i + 1, lookup))
  }

  /** The names hit for one category, in order. */
  function NamesFor(hits: seq<Hit>, c: Category): seq<string> {
    if hits == [] then []
    else (if hits[0].category == c then [hits[0].name] else []) + NamesFor(hits[1..], c)
  }

  /** The names for a category are exactly the names hit for it. */
  lemma {:induction false} NamesForMembers(hits: seq<Hit>, c: Category, n: string)
    ensures n in NamesFor(hits, c) <==> Hit(c, n) in hits
  {
    if hits != [] {
      NamesForMembers(hits[1..], c, n);
      assert hits == [hits[0]] + hits[1..];
    }
  }

  lemma {:induction false} NamesForAppend(a: seq<Hit>, b: seq<Hit>, c: Category)
    ensures NamesFor(a + b, c) == NamesFor(a, c) + NamesFor(b, c)
    decreases |a|
  {
    if a == [] {
      assert a + b == b;
    } else {
      assert (a + b)[1..] == a[1..] + b;
      NamesForAppend(a[1..], b, c);
    }
  }

  /** The three candidate lists of `matching_tables`. */
  datatype Buckets = Buckets(cnv: seq<string>, breakend: seq<string>, region: seq<string>)

  function Bucket(b: Buckets, c: Category): seq<string> {
    match c
    case Cnv => b.cnv
    case Breakend => b.breakend
    case Region => b.region
  }

  /** `matching_tables[c].append(name)`. */
  function AddHit(b: Buckets, h: Hit): (r: Buckets)
    ensures Bucket(r, h.category) == Bucket(b, h.category) + [h.name]
    ensures forall c :: c != h.category ==> Bucket(r, c) == Bucket(b, c)
  {
    match h.category
    case Cnv => b.(cnv := b.cnv + [h.name])
    case Breakend => b.(breakend := b.breakend + [h.name])
    case Region => b.(region := b.region + [h.name])
  }

  /** One table node of the bucketing loop: its fields are read, then its axis list is scanned. */
  method CollectFromTable(table: Json, lookup: Lookup, b: Buckets) returns (r: Result<Buckets, Fault>)
    ensures r.Ok? <==> TableHits(table, lookup).Ok?
    ensures r.Ok? ==> forall c :: Bucket(r.value, c) == Bucket(b, c) + NamesFor(TableHits(table, lookup).value, c)
  {
    var read := TableFields(table);
    if read.Err? {
      return Err(TypeFault);
    }
    var (userId, uuids) := read.value;
    r := CollectHits(uuids, userId, lookup, b);
  }

  /** The inner loop of the bucketing: the `axisUuidList` of one table. */
  method CollectHits(uuids: seq<Json>, userId: Json, lookup: Lookup, b: Buckets) returns (r: Result<Buckets, Fault>)
    ensures r.Ok? <==> HitsFrom(uuids, 0, userId, lookup).Ok?
    ensures r.Ok? ==> forall c :: Bucket(r.value, c) == Bucket(b, c) + NamesFor(HitsFrom(uuids, 0, userId, lookup).value, c)
  {
    ghost var goal := HitsFrom(uuids, 0, userId, lookup);
    var current := b;
    ghost var done: seq<Hit> := [];
    if goal.Ok? {
      assert done + goal.value == goal.value;
    }
    for i := 0 to |uuids|
      invariant goal == Cat(Ok(done), HitsFrom(uuids, i, userId, lookup))
      invariant forall c :: Bucket(current, c) == Bucket(b, c) + NamesFor(done, c)
    {
      var hit := HitOf(uuids[i], userId, lookup);
      HitsFromStep(uuids, i, userId, lookup, done);
      if hit.Err? {
        return Err(TypeFault);
      }
      if hit.value != [] {
        var h := hit.value[0];
        assert hit.value == [h];
        AddHitExtends(current, b, done, h);
        current := AddHit(current, h);
      } else {
        assert done + hit.value == done;
      }
      done := done + hit.value;
    }
    assert done + [] == done;
    r := Ok(current);
  }

  /** Adding a hit to the buckets extends the names of its category by the hit's name. */
  lemma AddHitExtends(cur: Buckets, b: Buckets, done: seq<Hit>, h: Hit)
    requires forall c :: Bucket(cur, c) == Bucket(b, c) + NamesFor(done, c)
    ensures forall c :: Bucket(AddHit(cur, h), c) == Bucket(b, c) + NamesFor(done + [h], c)
  {
    forall c ensures Bucket(AddHit(cur, h), c) == Bucket(b, c) + NamesFor(done + [h], c) {
      NamesForAppend(done, [h], c);
      assert NamesFor([h], c) == (if h.category == c then [h.name] else []) + NamesFor([], c) by {
        assert [h][1..] == [];
      }
      if c == h.category {
        assert Bucket(b, c) + NamesFor(done, c) + [h.name] == Bucket(b, c) + (NamesFor(done, c) + [h.name]);
      } else {
        assert NamesFor(done, c) + [] == NamesFor(done, c);
      }
    }
  }

  /** One step of the inner loop: the hits of entry `i`, then the rest. */
  lemma HitsFromStep(uuids: seq<Json>, i: nat, userId: Json, lookup: Lookup, done: seq<Hit>)
    requires i < |uuids|
    ensures HitOf(uuids[i], userId, lookup).Err? ==> Cat(Ok(done), HitsFrom(uuids, i, userId, lookup)).Err?
    ensures HitOf(uuids[i], userId, lookup).Ok? ==>
              Cat(Ok(done), HitsFrom(uuids, i, userId, lookup)) ==
              Cat(Ok(done + HitOf(uuids[i], userId, lookup).value), HitsFrom(uuids, i + 1, userId, lookup))
  {
    var here := HitOf(uuids[i], userId, lookup);
    var rest := HitsFrom(uuids, i + 1, userId, lookup);
    if here.Ok? && rest.Ok? {
      assert done + (here.value + rest.value) == done + here.value + rest.value;
    }
  }

  /** The bucketing loop over all table nodes, in the order the walk found them. */
  method CollectCandidates(tables: seq<Json>, lookup: Lookup) returns (r: Result<Buckets, Fault>)
    ensures r.Ok? <==> AllHitsFrom(tables, 0, lookup).Ok?
    ensures r.Ok? ==> forall c :: Bucket(r.value, c) == NamesFor(AllHitsFrom(tables, 0, lookup).value, c)
  {
    ghost var goal := AllHitsFrom(tables, 0, lookup);
    var current := Buckets([], [], []);
    ghost var done: seq<Hit> := [];
    if goal.Ok? {
      assert done + goal.value == goal.value;
    }
    for i := 0 to |tables|
      invariant goal == Cat(Ok(done), AllHitsFrom(tables, i, lookup))
      invariant forall c :: Bucket(current, c) == NamesFor(done, c)
    {
      var next := CollectFromTable(tables[i], lookup, current);
      AllHitsStep(tables, i, lookup, done);
      if next.Err? {
        return Err(TypeFault);
      }
      current := next.value;
      var mine := TableHits(tables[i], lookup).value;
      forall c ensures Bucket(current, c) == NamesFor(done + mine, c) {
        NamesForAppend(done, mine, c);
      }
      done := done + mine;
    }
    assert done + [] == done;
    r := Ok(current);
  }

  /** One step of the outer loop: the hits of table `i`, then the rest. */
  lemma AllHitsStep(tables: seq<Json>, i: nat, lookup: Lookup, done: seq<Hit>)
    requires i < |tables|
    ensures TableHits(tables[i], lookup).Err? ==> Cat(Ok(done), AllHitsFrom(tables, i, lookup)).Err?
    ensures TableHits(tables[i], lookup).Ok? ==>
              Cat(Ok(done), AllHitsFrom(tables, i, lookup)) ==
              Cat(Ok(done + TableHits(tables[i], lookup).value), AllHitsFrom(tables, i + 1, lookup))
  {
    var here := TableHits(tables[i], lookup);
    var rest := AllHitsFrom(tables, i + 1, lookup);
    if here.Ok? && rest.Ok? {
      assert done + (here.value + rest.value) == done + here.value + rest.value;
    }
  }

  /** A table name is generic when it is `Table` followed by digits once every `Table` is removed. */
  predicate IsGeneric(name: string) {
    StartsWith(name, "Table") && IsDigits(RemoveAll(name, "Table"))
  }

  function Customs(u: seq<string>): (r: seq<string>)
    ensures forall x :: x in r <==> x in u && !IsGeneric(x)
  {
    if u == [] then [] else (if IsGeneric(u[0]) then [] else [u[0]]) + Customs(u[1..])
  }

  function Generics(u: seq<string>): (r: seq<string>)
    ensures forall x :: x in r <==> x in u && IsGeneric(x)
  {
    if u == [] then [] else (if IsGeneric(u[0]) then [u[0]] else []) + Generics(u[1..])
  }

  /** The first element of a sorted non-empty list is its least member. */
  lemma SortedFirstIsLeast(s: seq<string>)
    requires s != []
    ensures Sort(s)[0] in s
    ensures forall x :: x in s ==> AtMost(Sort(s)[0], x)
  {
    var r := Sort(s);
    assert r[0] in multiset(r);
    forall x | x in s ensures AtMost(r[0], x) {
      assert x in multiset(r);
      var k :| 0 <= k < |r| && r[k] == x;
      if k > 0 {
        assert AtMost(r[0], r[k]);
      }
    }
  }

  /**
   * The priority rule for one category's candidates. With no candidate
   * nothing is chosen; otherwise a custom name is preferred to a generic one,
   * and the alphabetically first name of the preferred kind wins.
   */
  function PickTable(cands: seq<string>): (r: Option<string>)
    ensures r.None? <==> cands == []
    ensures r.Some? ==> r.value in cands
    ensures r.Some? && (exists c :: c in cands && !IsGeneric(c)) ==>
              !IsGeneric(r.value) && forall c :: c in cands && !IsGeneric(c) ==> AtMost(r.value, c)
    ensures r.Some? && (forall c :: c in cands ==> IsGeneric(c)) ==>
              forall c :: c in cands ==> AtMost(r.value, c)
  {
    if cands == [] then None
    else
      var u := Dedup.Dedup(cands);
      DedupContents(cands);
      assert cands[0] in u;
      if |u| == 1 then
        assert forall c :: c in cands ==> c == u[0];
        Some(u[0])
      else
        var custom := Customs(u);
        var generic := Generics(u);
        if custom != [] then
          SortedFirstIsLeast(custom);
          Some(Sort(custom)[0])
        else
          assert u[0] in generic;
          SortedFirstIsLeast(generic);
          Some(Sort(generic)[0])
  }

  /** Every distinct candidate is custom or generic, so the "first encountered" fallback is never taken. */
  lemma FallbackUnreachable(cands: seq<string>)
    requires cands != []
    ensures Customs(Dedup.Dedup(cands)) != [] || Generics(Dedup.Dedup(cands)) != []
  {
    DedupContents(cands);
    assert cands[0] in Dedup.Dedup(cands);
  }

  lemma GenericNames()
    ensures IsGeneric("Table1") && IsGeneric("Table2")
    ensures !IsGeneric("Table") && !IsGeneric("MyCustomTable") && !IsGeneric("Table1a")
  {
    assert RemoveAll("Table1", "Table") == "1";
    assert RemoveAll("Table2", "Table") == "2";
    assert RemoveAll("Table", "Table") == "";
    assert !StartsWith("MyCustomTable", "Table");
    assert RemoveAll("Table1a", "Table") == "1a";
  }

  /** A custom name beats generic ones. */
  lemma PickCustomExample(a: seq<string>)
    requires a == ["Table2", "Table1", "MyCustomTable"]
    ensures PickTable(a) == Some("MyCustomTable")
  {
    GenericNames();
    assert a[2] in a;
    assert forall c :: c in a ==> c == a[0] || c == a[1] || c == a[2];
  }

  /** Among generic names the alphabetically first wins, whatever the order they came in. */
  lemma PickGenericExample(b: seq<string>)
    requires b == ["Table2", "Table1", "Table2"]
    ensures PickTable(b) == Some("Table1")
  {
    GenericNames();
    assert forall c :: c in b ==> c == "Table1" || c == "Table2";
    var r := PickTable(b).value;
    assert AtMost(r, b[1]);
    assert Below("Table1", "Table2") by {
      BelowStep("Table1", "Table2", 5);
      assert "Table1"[5..] == "1" && "Table2"[5..] == "2";
    }
    if r == "Table2" {
      BelowAsymmetric("Table1", "Table2");
    }
  }

  /** Strings that agree on a prefix compare like what follows it. */
  lemma {:induction false} BelowStep(a: string, b: string, n: nat)
    requires n <= |a| && n <= |b| && a[..n] == b[..n]
    ensures Below(a, b) <==> Below(a[n..], b[n..])
    decreases n
  {
    if n > 0 {
      assert a[0] == b[0];
      assert a[1..][..n - 1] == b[1..][..n - 1];
      BelowStep(a[1..], b[1..], n - 1);
      assert a[1..][n - 1..] == a[n..] && b[1..][n - 1..] == b[n..];
    }
  }

  /** The deduplication and choice for one category, with the `seen` set of the source. */
  method SelectTable(cands: seq<string>) returns (r: Option<string>)
    ensures r == PickTable(cands)
  {
    if cands == [] {
      return None;
    }
    var seen: set<string> := {};
    var unique: seq<string> := [];
    for i := 0 to |cands|
      invariant unique == AppendAll([], cands[..i])
      invariant forall x :: x in seen <==> x in unique
    {
      AppendAllStep([], cands, i);
      if cands[i] !in seen {
        seen := seen + {cands[i]};
        unique := unique + [cands[i]];
      }
    }
    assert cands[..|cands|] == cands;
    if |unique| == 1 {
      r := Some(unique[0]);
    } else {
      var custom := Customs(unique);
      var generic := Generics(unique);
      if custom != [] {
        r := Some(Sort(custom)[0]);
      } else {
        assert unique[0] in generic;
        r := Some(Sort(generic)[0]);
      }
    }
  }

  /** The chosen table per category; `None` where nothing was chosen. */
  datatype TableIds = TableIds(cnv: Option<string>, breakend: Option<string>, region: Option<string>)

  function IdOf(ids: TableIds, c: Category): Option<string> {
    match c
    case Cnv => ids.cnv
    case Breakend => ids.breakend
    case Region => ids.region
  }

  function SetId(ids: TableIds, c: Category, id: Option<string>): (r: TableIds)
    ensures IdOf(r, c) == id && forall d :: d != c ==> IdOf(r, d) == IdOf(ids, d)
  {
    match c
    case Cnv => ids.(cnv := id)
    case Breakend => ids.(breakend := id)
    case Region => ids.(region := id)
  }

  /** The selection loop over the three categories. */
  method SelectTables(b: Buckets) returns (ids: TableIds)
    ensures forall c :: IdOf(ids, c) == PickTable(Bucket(b, c))
  {
    ids := TableIds(None, None, None);
    var order := [Cnv, Breakend, Region];
    for k := 0 to |order|
      invariant forall c :: IdOf(ids, c) == if Position(c) < k then PickTable(Bucket(b, c)) else None
    {
      var c := order[k];
      assert Position(c) == k;
      var cands := Bucket(b, c);
      if cands == [] {
        continue;
      }
      var chosen := SelectTable(cands);
      ids := SetId(ids, c, chosen);
    }
  }

  /** Where a category comes in the selection loop. */
  function Position(c: Category): nat {
    match c
    case Cnv => 0
    case Breakend => 1
    case Region => 2
  }

  /** The lookup holds `u` with the axis type of category `c`. */
  ghost predicate Typed(lookup: Lookup, u: Json, c: Category) {
    u in lookup && Get(lookup[u], "axisType", Str("")) == Ok(Str(AxisTypeOf(c)))
  }

  /** The table node is named `name` and lists an axis uuid typed for `c`. */
  ghost predicate Candidate(table: Json, lookup: Lookup, c: Category, name: string) {
    && TableFields(table).Ok? && TableFields(table).value.0 == Str(name)
    && exists u :: u in TableFields(table).value.1 && Typed(lookup, u, c)
  }

  /**
   * A name is a candidate for a category exactly when some table node lists an
   * axis uuid whose lookup entry has that category's axis type, and the node's
   * `userId` is that name.
   */
  lemma {:induction false} CandidateSource(tables: seq<Json>, i: nat, lookup: Lookup, c: Category, name: string)
    requires i <= |tables| && AllHitsFrom(tables, i, lookup).Ok?
    ensures Hit(c, name) in AllHitsFrom(tables, i, lookup).value <==>
      exists k :: i <= k < |tables| && Candidate(tables[k], lookup, c, name)
    decreases |tables| - i
  {
    if i < |tables| {
      CandidateSource(tables, i + 1, lookup, c, name);
      TableCandidate(tables[i], lookup, c, name);
      CandidateSplit(tables, i, lookup, c, name);
    }
  }

  lemma CandidateSplit(tables: seq<Json>, i: nat, lookup: Lookup, c: Category, name: string)
    requires i < |tables|
    ensures (exists k :: i <= k < |tables| && Candidate(tables[k], lookup, c, name)) <==>
            Candidate(tables[i], lookup, c, name) || exists k :: i + 1 <= k < |tables| && Candidate(tables[k], lookup, c, name)
  {
    var found := seq(|tables|, k requires 0 <= k < |tables| => Candidate(tables[k], lookup, c, name));
    TrueSplit(found, i);
    assert forall k :: 0 <= k < |tables| ==> (found[k] <==> Candidate(tables[k], lookup, c, name));
  }

  lemma TrueSplit(found: seq<bool>, i: nat)
    requires i < |found|
    ensures (exists k :: i <= k < |found| && found[k]) <==> found[i] || exists k :: i + 1 <= k < |found| && found[k]
  {
    if exists k :: i <= k < |found| && found[k] {
      var k :| i <= k < |found| && found[k];
      if k > i {
        assert i + 1 <= k;
      }
    }
  }

  /** One table node yields a hit for `c` named `name` exactly when it is such a candidate. */
  lemma TableCandidate(table: Json, lookup: Lookup, c: Category, name: string)
    requires TableHits(table, lookup).Ok?
    ensures Hit(c, name) in TableHits(table, lookup).value <==> Candidate(table, lookup, c, name)
  {
    var (userId, uuids) := TableFields(table).value;
    TableHitsSource(uuids, 0, userId, lookup, c, name);
    if exists u :: u in uuids && Typed(lookup, u, c) {
      var u :| u in uuids && Typed(lookup, u, c);
      var m :| 0 <= m < |uuids| && uuids[m] == u;
    }
  }

  lemma {:induction false} TableHitsSource(uuids: seq<Json>, i: nat, userId: Json, lookup: Lookup, c: Category, name: string)
    requires i <= |uuids| && HitsFrom(uuids, i, userId, lookup).Ok?
    ensures Hit(c, name) in HitsFrom(uuids, i, userId, lookup).value <==>
      userId == Str(name) && exists m :: i <= m < |uuids| && Typed(lookup, uuids[m], c)
    decreases |uuids| - i
  {
    if i < |uuids| {
      TableHitsSource(uuids, i + 1, userId, lookup, c, name);
      HitOfSource(uuids[i], userId, lookup, c, name);
      TypedSplit(uuids, i, lookup, c);
    }
  }

  lemma TypedSplit(uuids: seq<Json>, i: nat, lookup: Lookup, c: Category)
    requires i < |uuids|
    ensures (exists m :: i <= m < |uuids| && Typed(lookup, uuids[m], c)) <==>
            Typed(lookup, uuids[i], c) || exists m :: i + 1 <= m < |uuids| && Typed(lookup, uuids[m], c)
  {
    if exists m :: i <= m < |uuids| && Typed(lookup, uuids[m], c) {
      var m :| i <= m < |uuids| && Typed(lookup, uuids[m], c);
      if m > i {
        assert i + 1 <= m;
      }
    }
  }

  /** One axis uuid yields a hit for `c` named `name` exactly when the table is `name` and the uuid is typed for `c`. */
  lemma HitOfSource(u: Json, userId: Json, lookup: Lookup, c: Category, name: string)
    requires HitOf(u, userId, lookup).Ok?
    ensures Hit(c, name) in HitOf(u, userId, lookup).value <==> userId == Str(name) && Typed(lookup, u, c)
  {
  }
}
