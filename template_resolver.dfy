// Reading a project template: which import algorithms it contains and which
// table each kind of import should target. Any exception raised while reading
// the template makes the whole answer fall back to "no import algorithms, no
// table ids".
module TemplateResolver {
  import opened Results
  import opened Text
  import opened JsonDoc
  import opened AxisLookup
  import opened TableDataOptions
  import opened TableSelection

  /**
   * The import an algorithm name announces: it must mention `import`
   * (ignoring case); `cnv` is tested first, then `breakend` or `bnd`, then
   * `region`.
   */
  function ImportKind(algName: string): (r: Option<Category>)
    ensures r.Some? ==> Contains(Lower(algName), "import")
    ensures r == Some(Cnv) <==> Contains(Lower(algName), "import") && Contains(Lower(algName), "cnv")
    ensures r == Some(Breakend) <==>
      Contains(Lower(algName), "import") && !Contains(Lower(algName), "cnv") &&
      (Contains(Lower(algName), "breakend") || Contains(Lower(algName), "bnd"))
    ensures r == Some(Region) <==>
      Contains(Lower(algName), "import") && !Contains(Lower(algName), "cnv") &&
      !Contains(Lower(algName), "breakend") && !Contains(Lower(algName), "bnd") && Contains(Lower(algName), "region")
  {
    var name := Lower(algName);
    if !Contains(name, "import") then None
    else if Contains(name, "cnv") then Some(Cnv)
    else if Contains(name, "breakend") || Contains(name, "bnd") then Some(Breakend)
    else if Contains(name, "region") then Some(Region)
    else None
  }

  /** The `import_algorithms` flags. */
  datatype Flags = Flags(cnv: bool, breakend: bool, region: bool)

  function FlagOf(f: Flags, c: Category): bool {
    match c
    case Cnv => f.cnv
    case Breakend => f.breakend
    case Region => f.region
  }

  /** `import_algorithms[c] = True`. */
  function Raise(f: Flags, c: Category): (r: Flags)
    ensures FlagOf(r, c) && forall d :: d != c ==> FlagOf(r, d) == FlagOf(f, d)
  {
    match c
    case Cnv => f.(cnv := true)
    case Breakend => f.(breakend := true)
    case Region => f.(region := true)
  }

  /** The flags a list of algorithm names sets: a flag is up when some name announces its import. */
  function FlagsOf(names: seq<string>): (r: Flags)
    ensures forall c :: FlagOf(r, c) <==> exists i :: 0 <= i < |names| && ImportKind(names[i]) == Some(c)
  {
    Flags(exists i :: 0 <= i < |names| && ImportKind(names[i]) == Some(Cnv),
          exists i :: 0 <= i < |names| && ImportKind(names[i]) == Some(Breakend),
          exists i :: 0 <= i < |names| && ImportKind(names[i]) == Some(Region))
  }

  /** Flags are only ever raised: the names of a longer list keep every flag the shorter one set. */
  lemma FlagsOnlyRise(a: seq<string>, b: seq<string>, c: Category)
    ensures FlagOf(FlagsOf(a + b), c) <==> FlagOf(FlagsOf(a), c) || FlagOf(FlagsOf(b), c)
  {
    if FlagOf(FlagsOf(a), c) {
      var i :| 0 <= i < |a| && ImportKind(a[i]) == Some(c);
      assert (a + b)[i] == a[i];
    }
    if FlagOf(FlagsOf(b), c) {
      var i :| 0 <= i < |b| && ImportKind(b[i]) == Some(c);
      assert (a + b)[|a| + i] == b[i];
    }
    if FlagOf(FlagsOf(a + b), c) {
      var i :| 0 <= i < |a + b| && ImportKind((a + b)[i]) == Some(c);
      if i >= |a| {
        assert b[i - |a|] == (a + b)[i];
      }
    }
  }

  /** The loop over the algorithms of every data tree. */
  method ImportFlags(names: seq<string>) returns (f: Flags)
    ensures f == FlagsOf(names)
  {
    f := Flags(false, false, false);
    for i := 0 to |names|
      invariant forall c :: FlagOf(f, c) <==> exists k :: 0 <= k < i && ImportKind(names[k]) == Some(c)
    {
      var kind := ImportKind(names[i]);
      if kind.Some? {
        f := Raise(f, kind.value);
      }
    }
    var spec := FlagsOf(names);
    assert FlagOf(f, Cnv) == FlagOf(spec, Cnv) && FlagOf(f, Breakend) == FlagOf(spec, Breakend) &&
           FlagOf(f, Region) == FlagOf(spec, Region);
  }

  /** The `algName` of each item of an `algorithms` list; a name that is not a string raises. */
  function AlgNamesFrom(algs: seq<Json>, i: nat): Result<seq<string>, Fault>
    requires i <= |algs|
    decreases |algs| - i
  {
    if i == |algs| then Ok([])
    else
      var name := match Get(algs[i], "fields", Obj([]))
        case Err(f) => Err(f)
        case Ok(fields) =>
          match Get(fields, "algName", Str(""))
          case Err(f) => Err(f)
          case Ok(n) => if n.Str? then Ok(n.s) else Err(TypeFault);
      match name
      case Err(f) => Err(f)
      case Ok(n) =>
        match AlgNamesFrom(algs, i + 1)
        case Err(f) => Err(f)
        case Ok(rest) => Ok([n] + rest)
  }

  /** The algorithm names of the data trees `trees[i..]`, tree by tree. */
  function TreeNamesFrom(trees: seq<Json>, i: nat): Result<seq<string>, Fault>
    requires i <= |trees|
    decreases |trees| - i
  {
    if i == |trees| then Ok([])
    else
      var mine := match Get(trees[i], "fields", Obj([]))
        case Err(f) => Err(f)
        case Ok(fields) =>
          match Get(fields, "algorithms", Arr([]))
          case Err(f) => Err(f)
          case Ok(list) =>
            match Iterate(list)
            case Err(f) => Err(f)
            case Ok(algs) => AlgNamesFrom(algs, 0);
      match mine
      case Err(f) => Err(f)
      case Ok(names) =>
        match TreeNamesFrom(trees, i + 1)
        case Err(f) => Err(f)
        case Ok(rest) => Ok(names + rest)
  }

  /** The data trees at `project.fields.dal.fields.dataTrees`, a missing step reading as empty. */
  function DataTrees(doc: Json): Result<Json, Fault> {
    match Get(doc, "project", Obj([]))
    case Err(f) => Err(f)
    case Ok(project) =>
      match Get(project, "fields", Obj([]))
      case Err(f) => Err(f)
      case Ok(fields) =>
        match Get(fields, "dal", Obj([]))
        case Err(f) => Err(f)
        case Ok(dal) =>
          match Get(dal, "fields", Obj([]))
          case Err(f) => Err(f)
          case Ok(dalFields) => Get(dalFields, "dataTrees", Arr([]))
  }

  /** Every algorithm name of the template, in document order. */
  function AlgorithmNames(doc: Json): Result<seq<string>, Fault> {
    match DataTrees(doc)
    case Err(f) => Err(f)
    case Ok(trees) =>
      match Iterate(trees)
      case Err(f) => Err(f)
      case Ok(items) => TreeNamesFrom(items, 0)
  }

  /** The path `DataTrees` follows, one `.get(key, {})` per key. */
  const TreesPath: seq<string> := ["project", "fields", "dal", "fields", "dataTrees"]

  /** Following `path` from `j` meets a dict that lacks the next key. */
  predicate MissingAlong(j: Json, path: seq<string>)
    decreases |path|
  {
    j.Obj? && |path| > 0 &&
    (!HasKey(j.members, path[0]) || MissingAlong(Find(j.members, path[0]).value, path[1..]))
  }

  /**
   * A template where any dict on the way to `dataTrees` lacks its next key
   * reads as having no data trees, so it has no algorithms and every flag
   * stays down.
   */
  lemma MissingStepNoFlags(doc: Json)
    requires MissingAlong(doc, TreesPath)
    ensures DataTrees(doc) == Ok(Arr([]))
    ensures AlgorithmNames(doc) == Ok([])
    ensures forall c :: !FlagOf(FlagsOf(AlgorithmNames(doc).value), c)
  {
    var empty := Obj([]);
    assert forall k :: Find([], k) == None;
    var path := TreesPath;
    assert path[1..] == ["fields", "dal", "fields", "dataTrees"];
    assert path[1..][1..] == ["dal", "fields", "dataTrees"];
    assert path[1..][1..][1..] == ["fields", "dataTrees"];
    assert path[1..][1..][1..][1..] == ["dataTrees"];
    assert path[1..][1..][1..][1..][1..] == [];
    assert Iterate(Arr([])) == Ok([]);
  }

  datatype TemplateInfo = TemplateInfo(flags: Flags, ids: TableIds)

  /** The answer after an exception: no import algorithms and no table ids. */
  const Unresolved := TemplateInfo(Flags(false, false, false), TableIds(None, None, None))

  /** What a template resolves to. */
  function Resolve(doc: Json): TemplateInfo {
    match LookupOf(doc)
    case Err(_) => Unresolved
    case Ok(lookup) =>
      match AllHitsFrom(TableOptions(doc), 0, lookup)
      case Err(_) => Unresolved
      case Ok(hits) =>
        match AlgorithmNames(doc)
        case Err(_) => Unresolved
        case Ok(names) =>
          TemplateInfo(FlagsOf(names), TableIds(PickTable(NamesFor(hits, Cnv)),
                                                PickTable(NamesFor(hits, Breakend)),
                                                PickTable(NamesFor(hits, Region))))
  }

  /** The body of `_parse_template_file` after the document has been read. */
  method ParseTemplate(doc: Json) returns (info: TemplateInfo)
    ensures info == Resolve(doc)
  {
    var lookup := FindAxisUuids(doc, map[]);
    if lookup.Err? {
      return Unresolved;
    }
    var tables := TableOptions(doc);
    var buckets := CollectCandidates(tables, lookup.value);
    if buckets.Err? {
      return Unresolved;
    }
    var ids := SelectTables(buckets.value);
    var names := AlgorithmNames(doc);
    if names.Err? {
      return Unresolved;
    }
    var flags := ImportFlags(names.value);
    info := TemplateInfo(flags, ids);
    var hits := AllHitsFrom(tables, 0, lookup.value).value;
    assert IdOf(ids, Cnv) == PickTable(NamesFor(hits, Cnv));
    assert IdOf(ids, Breakend) == PickTable(NamesFor(hits, Breakend));
    assert IdOf(ids, Region) == PickTable(NamesFor(hits, Region));
  }

  /** A malformed `axisUuids` list anywhere in the template makes the whole answer fall back. */
  lemma MalformedAxesUnresolve(doc: Json, sub: Json)
    requires Within(sub, doc) && OwnEntries(sub).Err?
    ensures Resolve(doc) == Unresolved
  {
    AxisEntriesOk(doc);
  }

  function IdFor(info: TemplateInfo, c: Category): Option<string> {
    IdOf(info.ids, c)
  }

  /**
   * A table id is only ever chosen for a category when the template holds a
   * table node with that `userId` listing an axis uuid that some node of the
   * template declares with the category's axis type.
   */
  lemma ChosenTableIsDeclared(doc: Json, c: Category, name: string)
    requires IdFor(Resolve(doc), c) == Some(name)
    ensures exists t, userId, uuids, u, sub, e ::
      && Within(t, doc) && IsTableNode(t)
      && TableFields(t) == Ok((userId, uuids)) && userId == Str(name) && u in uuids
      && Within(sub, doc) && Declares(sub, e) && e.uuid == u
      && Get(e.fields, "axisType", Str("")) == Ok(Str(AxisTypeOf(c)))
  {
    var lookup := LookupOf(doc).value;
    var tables := TableOptions(doc);
    var hits := AllHitsFrom(tables, 0, lookup).value;
    assert PickTable(NamesFor(hits, c)) == Some(name);
    NamesForMembers(hits, c, name);
    CandidateSource(tables, 0, lookup, c, name);
    var k :| 0 <= k < |tables| && Candidate(tables[k], lookup, c, name);
    var (userId, uuids) := TableFields(tables[k]).value;
    var u :| u in uuids && Typed(lookup, u, c);
    TableOptionsWithin(doc, tables[k]);
    LookupValueDeclared(doc, u);
  }
}
