/** Where the report of one module goes and which class name it carries (`writeReport`). */
module PathResolver {
  import opened Strings

  /** `path.sep`. */
  const Sep: char := '/'

  /** `path.join` of two segments, without normalisation. */
  function PathJoin(a: string, b: string): string
  {
    a + [Sep] + b
  }

  /** What `writeReport` derives from a module key before rendering. */
  datatype ReportPaths = ReportPaths(
    moduleName: string,
    className: string,
    outputFolder: string,
    shouldCreateFolder: bool,
    filename: string)

  /** The key is split on the separator; its last segment is the module name. Leading
      segments become sub-folders of the base folder and a dotted class-name prefix. */
  function ResolvePaths(moduleKey: string, baseFolder: string, reportPrefix: string): ReportPaths
  {
    var parts := Split(moduleKey, Sep);
    var moduleName := parts[|parts| - 1];
    var leading := parts[..|parts| - 1];
    var className, outputFolder, shouldCreateFolder :=
      if |leading| > 0 then Join(leading, '.') + "." + moduleName else moduleName,
      if |leading| > 0 then PathJoin(baseFolder, Join(leading, Sep)) else baseFolder,
      |leading| > 0;
    ReportPaths(moduleName, className, outputFolder, shouldCreateFolder,
                PathJoin(outputFolder, reportPrefix + moduleName + ".xml"))
  }

  /** The module name is the last separator-delimited segment of the key: it holds no
      separator, it ends the key, and it is the whole key or follows a separator. */
  lemma ModuleNameIsLastSegment(moduleKey: string, baseFolder: string, reportPrefix: string)
    ensures var m := ResolvePaths(moduleKey, baseFolder, reportPrefix).moduleName;
      Sep !in m && |m| <= |moduleKey| && moduleKey[|moduleKey| - |m|..] == m &&
      (|m| == |moduleKey| || moduleKey[|moduleKey| - |m| - 1] == Sep)
  {
    var parts := Split(moduleKey, Sep);
    var last := parts[|parts| - 1];
    JoinSplit(moduleKey, Sep);
    if |parts| > 1 {
      assert parts == parts[..|parts| - 1] + [last];
      JoinSnoc(parts[..|parts| - 1], last, Sep);
    }
  }

  /** A folder is created exactly for keys that contain the separator. */
  lemma CreatesFolderIffNested(moduleKey: string, baseFolder: string, reportPrefix: string)
    ensures ResolvePaths(moduleKey, baseFolder, reportPrefix).shouldCreateFolder <==> Sep in moduleKey
  {
    SplitCount(moduleKey, Sep);
  }

  /** A key without separator names a module at the top of the base folder. */
  lemma FlatKey(moduleKey: string, baseFolder: string, reportPrefix: string)
    requires Sep !in moduleKey
    ensures var p := ResolvePaths(moduleKey, baseFolder, reportPrefix);
      p.moduleName == moduleKey && p.className == moduleKey &&
      p.outputFolder == baseFolder && !p.shouldCreateFolder
  {
    SplitWithoutSeparator(moduleKey, Sep);
  }

  /** A nested key `p1/.../pn/m`: the folder is the base joined with `p1/.../pn`, the class
      name is `p1.....pn.m`, and the folder has to be created. */
  lemma NestedKey(moduleKey: string, baseFolder: string, reportPrefix: string)
    requires Sep in moduleKey
    ensures var p := ResolvePaths(moduleKey, baseFolder, reportPrefix);
      var leading := Split(moduleKey, Sep)[..|Split(moduleKey, Sep)| - 1];
      |leading| >= 1 &&
      moduleKey == Join(leading, Sep) + [Sep] + p.moduleName &&
      p.outputFolder == PathJoin(baseFolder, Join(leading, Sep)) &&
      p.className == Join(leading, '.') + "." + p.moduleName &&
      p.shouldCreateFolder
  {
    var parts := Split(moduleKey, Sep);
    SplitCount(moduleKey, Sep);
    JoinSplit(moduleKey, Sep);
    JoinInitLast(parts, Sep);
  }

  /** The class name is the key with every separator turned into a dot. */
  lemma {:induction false} ClassNameIsDotted(moduleKey: string, baseFolder: string, reportPrefix: string)
    ensures ResolvePaths(moduleKey, baseFolder, reportPrefix).className == Replace(moduleKey, Sep, '.')
  {
    var parts := Split(moduleKey, Sep);
    JoinSplitReplaces(moduleKey, Sep, '.');
    if |parts| > 1 {
      JoinInitLast(parts, '.');
    }
  }

  /** The output folder joined with the module name is the base folder joined with the key. */
  lemma FolderMirrorsKey(moduleKey: string, baseFolder: string, reportPrefix: string)
    ensures var p := ResolvePaths(moduleKey, baseFolder, reportPrefix);
      PathJoin(p.outputFolder, p.moduleName) == PathJoin(baseFolder, moduleKey)
  {
    if Sep in moduleKey {
      NestedKey(moduleKey, baseFolder, reportPrefix);
    } else {
      FlatKey(moduleKey, baseFolder, reportPrefix);
    }
  }

  /** The file name is the output folder joined with the prefixed module name and `.xml`. */
  lemma FilenameInFolder(moduleKey: string, baseFolder: string, reportPrefix: string)
    ensures var p := ResolvePaths(moduleKey, baseFolder, reportPrefix);
      p.filename == PathJoin(p.outputFolder, reportPrefix + p.moduleName + ".xml")
  {
  }

  /** The file name is the base folder, the key's directory part, the prefix, the module
      name and `.xml`; without a prefix it is the base folder joined with the key plus `.xml`. */
  lemma FilenameFromKey(moduleKey: string, baseFolder: string, reportPrefix: string)
    ensures |ResolvePaths(moduleKey, baseFolder, reportPrefix).moduleName| <= |moduleKey|
    ensures var p := ResolvePaths(moduleKey, baseFolder, reportPrefix);
      var dir := moduleKey[..|moduleKey| - |p.moduleName|];
      moduleKey == dir + p.moduleName &&
      p.filename == PathJoin(baseFolder, dir + reportPrefix + p.moduleName + ".xml") &&
      (reportPrefix == "" ==> p.filename == PathJoin(baseFolder, moduleKey + ".xml"))
  {
    var p := ResolvePaths(moduleKey, baseFolder, reportPrefix);
    FilenameInFolder(moduleKey, baseFolder, reportPrefix);
    if Sep in moduleKey {
      NestedFilename(moduleKey, baseFolder, reportPrefix, p);
    } else {
      FlatKey(moduleKey, baseFolder, reportPrefix);
      AssembleFlat(p, baseFolder, reportPrefix, moduleKey);
    }
  }

  lemma NestedFilename(moduleKey: string, baseFolder: string, reportPrefix: string, p: ReportPaths)
    requires Sep in moduleKey && p == ResolvePaths(moduleKey, baseFolder, reportPrefix)
    requires p.filename == PathJoin(p.outputFolder, reportPrefix + p.moduleName + ".xml")
    ensures |p.moduleName| <= |moduleKey|
    ensures var dir := moduleKey[..|moduleKey| - |p.moduleName|];
      moduleKey == dir + p.moduleName &&
      p.filename == PathJoin(baseFolder, dir + reportPrefix + p.moduleName + ".xml") &&
      (reportPrefix == "" ==> p.filename == PathJoin(baseFolder, moduleKey + ".xml"))
  {
    NestedKey(moduleKey, baseFolder, reportPrefix);
    var parts := Split(moduleKey, Sep);
    AssembleNested(p, baseFolder, Join(parts[..|parts| - 1], Sep), reportPrefix, moduleKey);
  }

  /** Sequence bookkeeping for `FilenameFromKey`, nested case. */
  lemma AssembleNested(p: ReportPaths, base: string, joined: string, prefix: string, key: string)
    requires key == joined + [Sep] + p.moduleName
    requires p.outputFolder == PathJoin(base, joined)
    requires p.filename == PathJoin(p.outputFolder, prefix + p.moduleName + ".xml")
    ensures |p.moduleName| <= |key|
    ensures var dir := key[..|key| - |p.moduleName|];
      key == dir + p.moduleName &&
      p.filename == PathJoin(base, dir + prefix + p.moduleName + ".xml") &&
      (prefix == "" ==> p.filename == PathJoin(base, key + ".xml"))
  {
    var dir := key[..|key| - |p.moduleName|];
    assert dir == joined + [Sep];
  }

  /** Sequence bookkeeping for `FilenameFromKey`, flat case. */
  lemma AssembleFlat(p: ReportPaths, base: string, prefix: string, key: string)
    requires p.moduleName == key && p.outputFolder == base
    requires p.filename == PathJoin(p.outputFolder, prefix + p.moduleName + ".xml")
    ensures key[..0] + key == key
    ensures p.filename == PathJoin(base, key[..0] + prefix + key + ".xml")
    ensures prefix == "" ==> p.filename == PathJoin(base, key + ".xml")
  {
    assert key[..0] == [];
  }

  /** Every report file name ends in `.xml`. */
  lemma FilenameIsXml(moduleKey: string, baseFolder: string, reportPrefix: string)
    ensures var f := ResolvePaths(moduleKey, baseFolder, reportPrefix).filename;
      |f| >= 4 && f[|f| - 4..] == ".xml"
  {
    var p := ResolvePaths(moduleKey, baseFolder, reportPrefix);
    var f := p.filename;
    assert f == (p.outputFolder + [Sep] + reportPrefix + p.moduleName) + ".xml";
  }

  /** The scenario of a flat module `mod1` written under `out`. */
  lemma FlatScenario()
    ensures ResolvePaths("mod1", "out", "").filename == "out/mod1.xml"
  {
    FlatKey("mod1", "out", "");
  }

  /** A module nested one level. */
  lemma NestedScenario(key: string)
    requires key == "suiteA/moduleB"
    ensures var p := ResolvePaths(key, "out", "");
      p.moduleName == "moduleB" && p.className == "suiteA.moduleB" &&
      p.outputFolder == "out/suiteA" && p.shouldCreateFolder &&
      p.filename == "out/suiteA/moduleB.xml"
  {
    ScenarioSplit(key);
  }

  lemma ScenarioSplit(key: string)
    requires key == "suiteA/moduleB"
    ensures Split(key, Sep) == ["suiteA", "moduleB"]
  {
    var dir, name := "suiteA", "moduleB";
    assert key == dir + [Sep] + name;
    TwoSegments(dir, name);
  }

  /** A key made of two separator-free segments splits into them. */
  lemma TwoSegments(dir: string, name: string)
    requires Sep !in dir && Sep !in name
    ensures Split(dir + [Sep] + name, Sep) == [dir, name]
  {
    SplitAfterField(dir, Sep, name);
    SplitWithoutSeparator(name, Sep);
  }
}
