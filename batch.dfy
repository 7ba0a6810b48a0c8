// The batch script for one group of related samples: create the project from
// the template, import the group's files one block per kind of import, then
// list the tasks, save and close.
module Batch {
  import opened Results
  import opened Text
  import Manifest
  import opened TableSelection
  import opened TemplateResolver

  /** The part of a path after its last `/`, as `os.path.basename` computes it. */
  function Basename(path: string): (r: string)
    ensures '/' !in r
    ensures |r| <= |path| && r == path[|path| - |r|..]
    ensures |r| < |path| ==> path[|path| - |r| - 1] == '/'
  {
    if path == [] || path[|path| - 1] == '/' then []
    else Basename(path[..|path| - 1]) + [path[|path| - 1]]
  }

  /**
   * The project a group is imported into: a group of fewer than six samples
   * is named by its sorted members joined with `_`, a larger one by its first
   * member followed by `_cohort`.
   */
  function ProjectName(group: seq<string>): string {
    if |group| < 6 then Join("_", Sort(group)) else group[0] + "_cohort"
  }

  /** A small group's project name does not depend on the order its members are listed in. */
  lemma ProjectNameOrderFree(a: seq<string>, b: seq<string>)
    requires |a| < 6 && multiset(a) == multiset(b)
    ensures ProjectName(a) == ProjectName(b)
  {
    assert |a| == |multiset(a)| == |multiset(b)| == |b|;
    SortIgnoresOrder(a, b);
  }

  /** Each file in double quotes. */
  function Quoted(files: seq<string>): (r: seq<string>)
    ensures |r| == |files| && forall i :: 0 <= i < |files| ==> r[i] == "\"" + files[i] + "\""
  {
    if files == [] then [] else ["\"" + files[0] + "\""] + Quoted(files[1..])
  }

  /** The `files=` argument: the quoted files separated by commas, without spaces. */
  function Listing(files: seq<string>): string {
    Join(",", Quoted(files))
  }

  /** A table id, or `Table1` when the id is missing or empty. */
  function TableIdOr(id: Option<string>): (r: string)
    ensures r != []
    ensures id.Some? && id.value != [] ==> r == id.value
    ensures id.None? || id.value == [] ==> r == "Table1"
  {
    if id.Some? && id.value != [] then id.value else "Table1"
  }

  /** The manifest file type whose files an update import reads. */
  function FileTypeOf(c: Category): Manifest.FileType {
    match c
    case Cnv => Manifest.Cnv
    case Breakend => Manifest.Bnd
    case Region => Manifest.Region
  }

  /**
   * The files of one type of every sample of the group, group member by group
   * member; a member the manifest does not list contributes nothing.
   */
  function CollectFiles(group: seq<string>, data: Manifest.Samples, t: Manifest.FileType): seq<string> {
    if group == [] then []
    else
      var s := group[|group| - 1];
      CollectFiles(group[..|group| - 1], data, t) + (if s in data then Manifest.Files(data[s], t) else [])
  }

  /** A file is collected exactly when some member of the group lists it under that type. */
  lemma {:induction false} CollectFilesMembers(group: seq<string>, data: Manifest.Samples, t: Manifest.FileType, p: string)
    ensures p in CollectFiles(group, data, t) <==>
      exists i :: 0 <= i < |group| && group[i] in data && p in Manifest.Files(data[group[i]], t)
  {
    if group != [] {
      var front := group[..|group| - 1];
      CollectFilesMembers(front, data, t, p);
      if exists i :: 0 <= i < |group| && group[i] in data && p in Manifest.Files(data[group[i]], t) {
        var i :| 0 <= i < |group| && group[i] in data && p in Manifest.Files(data[group[i]], t);
        if i < |front| {
          assert front[i] == group[i];
        }
      }
      if exists i :: 0 <= i < |front| && front[i] in data && p in Manifest.Files(data[front[i]], t) {
        var i :| 0 <= i < |front| && front[i] in data && p in Manifest.Files(data[front[i]], t);
        assert group[i] == front[i];
      }
    }
  }

  /** The four file lists of a group. */
  function GroupFiles(group: seq<string>, data: Manifest.Samples): (r: Manifest.FileLists)
    ensures forall t :: Manifest.Files(r, t) == CollectFiles(group, data, t)
  {
    Manifest.FileLists(CollectFiles(group, data, Manifest.Multiverse), CollectFiles(group, data, Manifest.Cnv),
                       CollectFiles(group, data, Manifest.Bnd), CollectFiles(group, data, Manifest.Region))
  }

  /** The loop over the group that extends the four file lists. */
  method CollectGroupFiles(group: seq<string>, data: Manifest.Samples) returns (f: Manifest.FileLists)
    ensures f == GroupFiles(group, data)
  {
    f := Manifest.NoFiles;
    for i := 0 to |group|
      invariant f == GroupFiles(group[..i], data)
    {
      assert group[..i + 1][..i] == group[..i];
      var s := group[i];
      if s in data {
        var info := data[s];
        f := Manifest.FileLists(f.multiverse + info.multiverse, f.cnv + info.cnv,
                                f.bnd + info.bnd, f.region + info.region);
      }
    }
    assert group[..|group|] == group;
  }

  /** The commands a batch script is made of; `Render` gives each one's text. */
  datatype Command =
    | ProjectCreate(name: string, templateName: string, overwrite: bool)
    | DownloadSources
    | ImportFiles(files: seq<string>)
    | UpdateImport(category: Category, files: seq<string>, tableId: string)
    | TaskWait
    | GetTaskList
    | ProjectSave
    | ProjectClose

  /** The command word of each kind of update import. */
  function UpdateCommand(c: Category): string {
    match c
    case Cnv => "update_cnv_import"
    case Breakend => "update_bnd_import"
    case Region => "update_region_import"
  }

  /** The `project_create` line; `overwrite=true` is added when the project may be replaced. */
  function CreateLine(name: string, templateName: string, overwrite: bool): string {
    "project_create \"AppData/Projects/" + name + "\" template=\"" + templateName + "\"" +
    (if overwrite then " overwrite=true" else "")
  }

  /** The multiverse import line. */
  function ImportLine(files: seq<string>): string {
    "import files=" + Listing(files) + " sample_fields_catalog=SampleCatalog"
  }

  /** The update import line of a category. */
  function UpdateLine(c: Category, files: seq<string>, tableId: string): string {
    UpdateCommand(c) + " files=" + Listing(files) + " table_id=\"" + tableId + "\""
  }

  /** The line a command is written as. */
  function Render(cmd: Command): string {
    match cmd
    case ProjectCreate(name, templateName, overwrite) => CreateLine(name, templateName, overwrite)
    case DownloadSources => "download_required_sources"
    case ImportFiles(files) => ImportLine(files)
    case UpdateImport(c, files, tableId) => UpdateLine(c, files, tableId)
    case TaskWait => "task_wait"
    case GetTaskList => "get_task_list"
    case ProjectSave => "project_save"
    case ProjectClose => "project_close"
  }

  /** The lines of a list of commands. */
  function RenderAll(cmds: seq<Command>): (r: seq<string>)
    ensures |r| == |cmds| && forall i :: 0 <= i < |cmds| ==> r[i] == Render(cmds[i])
  {
    seq(|cmds|, i requires 0 <= i < |cmds| => Render(cmds[i]))
  }

  lemma RenderAllAppend(a: seq<Command>, b: seq<Command>)
    ensures RenderAll(a + b) == RenderAll(a) + RenderAll(b)
  {
    var whole := RenderAll(a + b);
    var parts := RenderAll(a) + RenderAll(b);
    forall i | 0 <= i < |whole| ensures whole[i] == parts[i] {
      if i < |a| {
        assert (a + b)[i] == a[i];
      } else {
        assert (a + b)[i] == b[i - |a|];
      }
    }
  }

  /** The multiverse import block: present only when there are multiverse files. */
  function MultiverseBlock(files: seq<string>): seq<Command> {
    if files != [] then [ImportFiles(files), TaskWait] else []
  }

  /**
   * An update import block: present only when the template has the import
   * algorithm and there are files for it; a missing or empty table id falls
   * back to `Table1`.
   */
  function UpdateBlock(c: Category, flags: Flags, files: seq<string>, ids: TableIds): seq<Command> {
    if FlagOf(flags, c) && files != [] then [UpdateImport(c, files, TableIdOr(IdOf(ids, c))), TaskWait] else []
  }

  const Footer: seq<Command> := [GetTaskList, ProjectSave, ProjectClose]

  /**
   * The commands of a script: the project creation, the source download, the
   * import blocks in the fixed order multiverse, cnv, breakend, region, and
   * the footer.
   */
  function Script(name: string, templateName: string, overwrite: bool, files: Manifest.FileLists,
                  flags: Flags, ids: TableIds): seq<Command>
  {
    [ProjectCreate(name, templateName, overwrite), DownloadSources]
    + MultiverseBlock(files.multiverse)
    + UpdateBlock(Cnv, flags, files.cnv, ids)
    + UpdateBlock(Breakend, flags, files.bnd, ids)
    + UpdateBlock(Region, flags, files.region, ids)
    + Footer
  }

  lemma HeadLines(name: string, templateName: string, overwrite: bool)
    ensures RenderAll([ProjectCreate(name, templateName, overwrite), DownloadSources]) ==
      [CreateLine(name, templateName, overwrite), "download_required_sources"]
  {
  }

  lemma MultiverseLines(files: seq<string>)
    ensures RenderAll(MultiverseBlock(files)) == (if files != [] then [ImportLine(files), "task_wait"] else [])
  {
  }

  lemma UpdateLines(c: Category, flags: Flags, files: seq<string>, ids: TableIds)
    ensures RenderAll(UpdateBlock(c, flags, files, ids)) ==
      (if FlagOf(flags, c) && files != [] then [UpdateLine(c, files, TableIdOr(IdOf(ids, c))), "task_wait"] else [])
  {
  }

  lemma FooterLines()
    ensures RenderAll(Footer) == ["get_task_list", "project_save", "project_close"]
  {
  }

  /** The `project_create` line, built as the source builds it. */
  method CreateCommand(name: string, templateName: string, overwrite: bool) returns (line: string)
    ensures line == CreateLine(name, templateName, overwrite)
    ensures StartsWith(line, "project_create \"AppData/Projects/" + name + "\" template=\"" + templateName + "\"")
    ensures EndsWith(line, " overwrite=true") <==> overwrite
  {
    line := "project_create \"AppData/Projects/" + name + "\" template=\"" + templateName + "\"";
    if overwrite {
      line := line + " overwrite=true";
    } else {
      assert line + "" == line;
    }
    CreateLineShape(name, templateName, overwrite);
  }

  /**
   * The creation line opens the project folder named after the group, from
   * the named template, and ends in `overwrite=true` exactly when asked.
   */
  lemma CreateLineShape(name: string, templateName: string, overwrite: bool)
    ensures StartsWith(CreateLine(name, templateName, overwrite),
                       "project_create \"AppData/Projects/" + name + "\" template=\"" + templateName + "\"")
    ensures EndsWith(CreateLine(name, templateName, overwrite), " overwrite=true") <==> overwrite
  {
    var plain := "project_create \"AppData/Projects/" + name + "\" template=\"" + templateName + "\"";
    var flag := " overwrite=true";
    var line := CreateLine(name, templateName, overwrite);
    if overwrite {
      assert line == plain + flag;
      assert line[..|plain|] == plain;
      assert line[|line| - |flag|..] == flag;
    } else {
      assert line == plain + "";
      assert line[|line| - 1] == '"';
      assert |flag| > |line| || line[|line| - |flag|..][|flag| - 1] == '"';
    }
  }

  /** Appends the multiverse import and its `task_wait` when there are multiverse files. */
  method AppendMultiverse(lines: seq<string>, files: seq<string>) returns (r: seq<string>)
    ensures r == lines + RenderAll(MultiverseBlock(files))
  {
    r := lines;
    if files != [] {
      r := r + [ImportLine(files), "task_wait"];
    }
    MultiverseLines(files);
  }

  /**
   * Appends the update import of a category and its `task_wait` when the
   * template has the import and there are files for it.
   */
  method AppendUpdate(lines: seq<string>, c: Category, flags: Flags, files: seq<string>, ids: TableIds)
    returns (r: seq<string>)
    ensures r == lines + RenderAll(UpdateBlock(c, flags, files, ids))
  {
    r := lines;
    if FlagOf(flags, c) && files != [] {
      var tableId := TableIdOr(IdOf(ids, c));
      r := r + [UpdateLine(c, files, tableId), "task_wait"];
    }
    UpdateLines(c, flags, files, ids);
  }

  /** The lines of `_generate_vsbatch_content`, appended one block at a time. */
  method BuildLines(templateFile: string, group: seq<string>, data: Manifest.Samples,
                    flags: Flags, ids: TableIds, overwrite: bool) returns (lines: seq<string>)
    ensures lines == RenderAll(Script(ProjectName(group), Basename(templateFile), overwrite,
                                      GroupFiles(group, data), flags, ids))
  {
    var name := ProjectName(group);
    var templateName := Basename(templateFile);
    var create := CreateCommand(name, templateName, overwrite);
    lines := [create, "download_required_sources"];
    ghost var cmds := [ProjectCreate(name, templateName, overwrite), DownloadSources];
    HeadLines(name, templateName, overwrite);
    var files := CollectGroupFiles(group, data);
    lines := AppendMultiverse(lines, files.multiverse);
    RenderAllAppend(cmds, MultiverseBlock(files.multiverse));
    cmds := cmds + MultiverseBlock(files.multiverse);
    lines := AppendUpdate(lines, Cnv, flags, files.cnv, ids);
    RenderAllAppend(cmds, UpdateBlock(Cnv, flags, files.cnv, ids));
    cmds := cmds + UpdateBlock(Cnv, flags, files.cnv, ids);
    lines := AppendUpdate(lines, Breakend, flags, files.bnd, ids);
    RenderAllAppend(cmds, UpdateBlock(Breakend, flags, files.bnd, ids));
    cmds := cmds + UpdateBlock(Breakend, flags, files.bnd, ids);
    lines := AppendUpdate(lines, Region, flags, files.region, ids);
    RenderAllAppend(cmds, UpdateBlock(Region, flags, files.region, ids));
    cmds := cmds + UpdateBlock(Region, flags, files.region, ids);
    lines := lines + ["get_task_list", "project_save", "project_close"];
    FooterLines();
    RenderAllAppend(cmds, Footer);
    cmds := cmds + Footer;
  }

  /** `_generate_vsbatch_content`: the script's lines joined with newlines. */
  method GenerateBatch(templateFile: string, group: seq<string>, data: Manifest.Samples,
                       flags: Flags, ids: TableIds, overwrite: bool) returns (content: string)
    ensures content == Join("\n", RenderAll(Script(ProjectName(group), Basename(templateFile), overwrite,
                                                   GroupFiles(group, data), flags, ids)))
  {
    var lines := BuildLines(templateFile, group, data, flags, ids, overwrite);
    content := Join("\n", lines);
  }

  /** The script holds a multiverse import. */
  predicate HasImport(cmds: seq<Command>) {
    exists i :: 0 <= i < |cmds| && cmds[i].ImportFiles?
  }

  /** The script holds an update import of category `c`. */
  predicate HasUpdate(cmds: seq<Command>, c: Category) {
    exists i :: 0 <= i < |cmds| && cmds[i].UpdateImport? && cmds[i].category == c
  }

  /**
   * A script opens with the project creation and the source download and
   * closes with the task list, the save and the close; neither opening
   * command appears anywhere else.
   */
  lemma ScriptFrame(name: string, templateName: string, overwrite: bool, files: Manifest.FileLists,
                    flags: Flags, ids: TableIds)
    ensures var cmds := Script(name, templateName, overwrite, files, flags, ids);
      && |cmds| >= 5
      && cmds[0] == ProjectCreate(name, templateName, overwrite)
      && cmds[1] == DownloadSources
      && cmds[|cmds| - 3..] == [GetTaskList, ProjectSave, ProjectClose]
      && forall i :: 2 <= i < |cmds| ==> !cmds[i].ProjectCreate? && !cmds[i].DownloadSources?
  {
    var cmds := Script(name, templateName, overwrite, files, flags, ids);
    assert cmds[|cmds| - 3..] == Footer;
  }

  /** The multiverse import appears exactly when there are multiverse files. */
  lemma MultiverseImportPresent(name: string, templateName: string, overwrite: bool, files: Manifest.FileLists,
                                flags: Flags, ids: TableIds)
    ensures HasImport(Script(name, templateName, overwrite, files, flags, ids)) <==> files.multiverse != []
  {
    var cmds := Script(name, templateName, overwrite, files, flags, ids);
    if files.multiverse != [] {
      assert cmds[2] == ImportFiles(files.multiverse);
    }
  }

  /**
   * An update import appears exactly when the template has that import
   * algorithm and there are files of the matching type.
   */
  lemma UpdateImportPresent(name: string, templateName: string, overwrite: bool, files: Manifest.FileLists,
                            flags: Flags, ids: TableIds, c: Category)
    ensures HasUpdate(Script(name, templateName, overwrite, files, flags, ids), c) <==>
      FlagOf(flags, c) && Manifest.Files(files, FileTypeOf(c)) != []
  {
    var head := [ProjectCreate(name, templateName, overwrite), DownloadSources] + MultiverseBlock(files.multiverse);
    var cb := UpdateBlock(Cnv, flags, files.cnv, ids);
    var bb := UpdateBlock(Breakend, flags, files.bnd, ids);
    var rb := UpdateBlock(Region, flags, files.region, ids);
    var cmds := Script(name, templateName, overwrite, files, flags, ids);
    assert cmds == head + cb + bb + rb + Footer;
    var mine := Manifest.Files(files, FileTypeOf(c));
    if FlagOf(flags, c) && mine != [] {
      var k := match c case Cnv => |head| case Breakend => |head + cb| case Region => |head + cb + bb|;
      assert cmds[k] == UpdateImport(c, mine, TableIdOr(IdOf(ids, c)));
    }
  }

  /**
   * Every import in a script is followed by `task_wait`; an update import
   * reads the files of its type and targets the table id given for its
   * category, or `Table1` when there is none.
   */
  lemma ImportsWellFormed(name: string, templateName: string, overwrite: bool, files: Manifest.FileLists,
                          flags: Flags, ids: TableIds, i: nat)
    requires var cmds := Script(name, templateName, overwrite, files, flags, ids);
      i < |cmds| && (cmds[i].ImportFiles? || cmds[i].UpdateImport?)
    ensures var cmds := Script(name, templateName, overwrite, files, flags, ids);
      && i + 1 < |cmds| && cmds[i + 1] == TaskWait
      && (cmds[i].ImportFiles? ==> cmds[i].files == files.multiverse)
      && (cmds[i].UpdateImport? ==>
            && FlagOf(flags, cmds[i].category)
            && cmds[i].files == Manifest.Files(files, FileTypeOf(cmds[i].category)) != []
            && cmds[i].tableId == TableIdOr(IdOf(ids, cmds[i].category)))
  {
  }

  /** The texts a command carries hold no newline. */
  predicate OneLine(cmd: Command) {
    match cmd
    case ProjectCreate(name, templateName, _) => '\n' !in name && '\n' !in templateName
    case ImportFiles(files) => forall i :: 0 <= i < |files| ==> '\n' !in files[i]
    case UpdateImport(_, files, tableId) => '\n' !in tableId && forall i :: 0 <= i < |files| ==> '\n' !in files[i]
    case _ => true
  }

  lemma ListingOneLine(files: seq<string>)
    requires forall i :: 0 <= i < |files| ==> '\n' !in files[i]
    ensures '\n' !in Listing(files)
  {
    var q := Quoted(files);
    forall i | 0 <= i < |q| ensures '\n' !in q[i] {
      assert q[i] == "\"" + files[i] + "\"";
    }
    JoinAvoids(",", q, '\n');
  }

  lemma CreateLineOneLine(name: string, templateName: string, overwrite: bool)
    requires '\n' !in name && '\n' !in templateName
    ensures '\n' !in CreateLine(name, templateName, overwrite)
  {
  }

  lemma ImportLineOneLine(files: seq<string>)
    requires forall i :: 0 <= i < |files| ==> '\n' !in files[i]
    ensures '\n' !in ImportLine(files)
  {
    ListingOneLine(files);
    var head := "import files=";
    var tail := " sample_fields_catalog=SampleCatalog";
    assert '\n' !in head && '\n' !in tail;
    assert ImportLine(files) == head + Listing(files) + tail;
  }

  lemma UpdateLineOneLine(c: Category, files: seq<string>, tableId: string)
    requires '\n' !in tableId && forall i :: 0 <= i < |files| ==> '\n' !in files[i]
    ensures '\n' !in UpdateLine(c, files, tableId)
  {
    ListingOneLine(files);
    var word := UpdateCommand(c);
    assert '\n' !in word by {
      match c
      case Cnv =>
      case Breakend =>
      case Region =>
    }
    var middle := " files=" + Listing(files) + " table_id=\"";
    assert '\n' !in middle;
    assert UpdateLine(c, files, tableId) == word + middle + tableId + "\"";
  }

  /** A command whose texts hold no newline is written on a single line. */
  lemma RenderOneLine(cmd: Command)
    requires OneLine(cmd)
    ensures '\n' !in Render(cmd)
  {
    match cmd
    case ProjectCreate(name, templateName, overwrite) => CreateLineOneLine(name, templateName, overwrite);
    case ImportFiles(files) => ImportLineOneLine(files);
    case UpdateImport(c, files, tableId) => UpdateLineOneLine(c, files, tableId);
    case _ =>
  }

  /**
   * The batch text holds exactly the script's lines: splitting it at the
   * newlines gives back one line per command, provided the project name, the
   * template name, the file paths and the table ids hold no newline.
   */
  lemma BatchTextLines(name: string, templateName: string, overwrite: bool, files: Manifest.FileLists,
                       flags: Flags, ids: TableIds)
    requires '\n' !in name && '\n' !in templateName
    requires forall t, p :: p in Manifest.Files(files, t) ==> '\n' !in p
    requires forall c :: IdOf(ids, c).Some? ==> '\n' !in IdOf(ids, c).value
    ensures var lines := RenderAll(Script(name, templateName, overwrite, files, flags, ids));
      SplitOn('\n', Join("\n", lines)) == lines
  {
    var cmds := Script(name, templateName, overwrite, files, flags, ids);
    var lines := RenderAll(cmds);
    ScriptFrame(name, templateName, overwrite, files, flags, ids);
    forall i | 0 <= i < |lines| ensures '\n' !in lines[i] {
      var cmd := cmds[i];
      if cmd.ImportFiles? {
        ImportsWellFormed(name, templateName, overwrite, files, flags, ids, i);
        forall k | 0 <= k < |cmd.files| ensures '\n' !in cmd.files[k] {
          assert cmd.files[k] in Manifest.Files(files, Manifest.Multiverse);
        }
      } else if cmd.UpdateImport? {
        ImportsWellFormed(name, templateName, overwrite, files, flags, ids, i);
        forall k | 0 <= k < |cmd.files| ensures '\n' !in cmd.files[k] {
          assert cmd.files[k] in Manifest.Files(files, FileTypeOf(cmd.category));
        }
        assert '\n' !in TableIdOr(IdOf(ids, cmd.category));
      }
      assert OneLine(cmd);
      RenderOneLine(cmd);
    }
    assert "\n" == ['\n'];
    SplitJoin('\n', lines);
  }
}
