/** Writing one report per module (`writeReportFile`, `writeReport`, `write`), with the file
    system, the template engine and the filters as parameters. */
module ReportWriter {
  import opened Wrappers
  import opened Strings
  import opened Sanitizer
  import opened PathResolver
  import opened Templates

  /** How one file-system call or one report branch ended. */
  datatype IoOutcome = Done | Failed(error: string)

  /** A file-system call the writer performs, in order. */
  datatype Effect = MakeFolder(folder: string) | WriteFile(filename: string, content: string)

  /** The calls performed and how the whole step ended. */
  datatype Performed = Performed(effects: seq<Effect>, outcome: IoOutcome)

  /** `writeReportFile`: the folder is created (recursively) only when asked, and always
      before the file is written; a failed folder creation means the file is not written.
      `mkdir` and `write` are what the two calls would report. */
  function WriteReportFile(filename: string, rendered: string, shouldCreateFolder: bool,
                           outputFolder: string, mkdir: IoOutcome, write: IoOutcome): (r: Performed)
    ensures MakeFolder(outputFolder) in r.effects <==> shouldCreateFolder
    ensures WriteFile(filename, rendered) in r.effects <==> !(shouldCreateFolder && mkdir.Failed?)
    ensures forall e :: e in r.effects ==> e == MakeFolder(outputFolder) || e == WriteFile(filename, rendered)
    ensures forall i, j :: 0 <= i < j < |r.effects| ==> r.effects[i].MakeFolder? && r.effects[j].WriteFile?
    ensures r.outcome == Done <==> WriteFile(filename, rendered) in r.effects && write == Done
    ensures shouldCreateFolder && mkdir.Failed? ==> r.outcome == mkdir
    ensures !(shouldCreateFolder && mkdir.Failed?) ==> r.outcome == write
  {
    var writeStep := Performed([WriteFile(filename, rendered)], write);
    if shouldCreateFolder then
      if mkdir.Failed? then Performed([MakeFolder(outputFolder)], mkdir)
      else Performed([MakeFolder(outputFolder)] + writeStep.effects, write)
    else writeStep
  }

  /** The observable state of a module's results, as the template sees it. */
  datatype ModuleView = ModuleView(
    completed: map<string, TestCaseView>,
    failed: int,
    stackTrace: Option<string>,
    reportPrefix: string)

  function Snapshot(m: ModuleResult): ModuleView
    reads m, m.completed.Values, m.Arrays()
  {
    ModuleView(map k | k in m.completed :: m.completed[k].View(), m.failed, m.stackTrace, m.reportPrefix)
  }

  /** The object handed to the template engine; `results` is its `module` property. */
  datatype RenderContext = RenderContext(
    results: ModuleView,
    moduleName: string,
    className: string,
    systemerr: string)

  /** The collaborators the writer calls but that are not modelled: the stack-trace filter,
      the template engine and the control-character stripper. */
  datatype Collaborators = Collaborators(
    filter: TraceFilter,
    render: (string, RenderContext) -> string,
    strip: string -> string)

  /** `writeReport` up to the launch of the post-processing scripts: sanitise the module,
      derive its paths, render the template with the sanitised module, strip the result and
      write it. `mkdir` and `write` are what the two file-system calls would report. */
  method WriteReport(m: ModuleResult, moduleKey: string, outputFolder: string, errmessages: seq<string>,
                     template: string, env: Collaborators, mkdir: IoOutcome, write: IoOutcome)
    returns (paths: ReportPaths, run: Performed)
    requires m.Separate()
    modifies m.completed.Values, m.Arrays()
    ensures unchanged(m)
    ensures forall k :: k in m.completed ==>
              m.completed[k].View() == AdaptTestCase(env.filter, old(m.completed[k].View()))
    ensures paths == ResolvePaths(moduleKey, outputFolder, m.reportPrefix)
    ensures run == WriteReportFile(
                     paths.filename,
                     env.strip(env.render(template, RenderContext(Snapshot(m), paths.moduleName, paths.className,
                                                                  Join(errmessages, NewLine)))),
                     paths.shouldCreateFolder, paths.outputFolder, mkdir, write)
  {
    AdaptAssertions(m, env.filter);
    paths := ResolvePaths(moduleKey, outputFolder, m.reportPrefix);
    var context := RenderContext(Snapshot(m), paths.moduleName, paths.className, Join(errmessages, NewLine));
    var rendered := env.render(template, context);
    rendered := env.strip(rendered);
    run := WriteReportFile(paths.filename, rendered, paths.shouldCreateFolder, paths.outputFolder, mkdir, write);
  }

  /** A report run under a nested key creates exactly the derived folder and then writes the
      derived file; under a flat key it only writes the file. */
  lemma ReportLandsAtDerivedPath(moduleKey: string, outputFolder: string, reportPrefix: string,
                                 rendered: string, mkdir: IoOutcome, write: IoOutcome)
    ensures var p := ResolvePaths(moduleKey, outputFolder, reportPrefix);
      var r := WriteReportFile(p.filename, rendered, p.shouldCreateFolder, p.outputFolder, mkdir, write);
      (Sep !in moduleKey ==> r.effects == [WriteFile(p.filename, rendered)]) &&
      (Sep in moduleKey && mkdir == Done ==> r.effects == [MakeFolder(p.outputFolder), WriteFile(p.filename, rendered)])
  {
    CreatesFolderIffNested(moduleKey, outputFolder, reportPrefix);
  }

  /** The first failure in a list of outcomes, or `Done` when there is none. */
  function FirstFailure(outcomes: seq<IoOutcome>): (r: IoOutcome)
    ensures r == Done <==> forall i :: 0 <= i < |outcomes| ==> outcomes[i] == Done
    ensures r.Failed? ==> r in outcomes
  {
    if outcomes == [] then Done
    else if outcomes[0].Failed? then outcomes[0]
    else FirstFailure(outcomes[1..])
  }

  /** How `writeReport` for one key ends: it either returns a promise that settles with an
      outcome, or throws before returning (a template the engine rejects, a test case
      without assertions). */
  datatype BranchEnd = Settled(outcome: IoOutcome) | Threw(error: string)

  /** Position of the first branch that throws, or `|ends|` when none does. */
  function FirstThrow(ends: seq<BranchEnd>): (n: nat)
    ensures n <= |ends|
    ensures forall i :: 0 <= i < n ==> ends[i].Settled?
    ensures n < |ends| ==> ends[n].Threw?
  {
    if ends == [] then 0
    else if ends[0].Threw? then 0
    else 1 + FirstThrow(ends[1..])
  }

  /** A `write` call: the keys whose branch was started, how each of them ended, and how the
      promise returned by `write` ended. */
  datatype WriteRun = WriteRun(branches: seq<string>, ends: seq<BranchEnd>, outcome: IoOutcome)

  /** `keys.map(writeReport)` followed by `Promise.all`. Branches are started in key order;
      a branch that throws stops the mapping, so later keys get no branch and the run
      rejects with the thrown error. When no branch throws, every key gets a branch and the
      run succeeds exactly when every branch does, and otherwise fails with the error of one
      failing branch. `branch` gives how the branch for a key ends with the loaded template. */
  function Dispatch(keys: seq<string>, template: string, branch: (string, string) -> BranchEnd): (r: WriteRun)
    ensures |r.branches| <= |keys| && r.branches == keys[..|r.branches|]
    ensures |r.ends| == |r.branches|
    ensures forall i :: 0 <= i < |r.branches| ==> r.ends[i] == branch(keys[i], template)
    ensures forall i :: 0 <= i < |r.branches| - 1 ==> r.ends[i].Settled?
    ensures (forall k :: k in keys ==> branch(k, template).Settled?) ==> r.branches == keys
    ensures r.branches != keys ==> |r.ends| > 0 && r.ends[|r.ends| - 1].Threw?
    ensures |r.ends| > 0 && r.ends[|r.ends| - 1].Threw? ==> r.outcome == Failed(r.ends[|r.ends| - 1].error)
    ensures r.outcome == Done <==> forall k :: k in keys ==> branch(k, template) == Settled(Done)
    ensures r.outcome.Failed? ==>
              exists i :: 0 <= i < |r.ends| &&
                (r.ends[i] == Settled(r.outcome) || r.ends[i] == Threw(r.outcome.error))
  {
    var ends := seq(|keys|, i requires 0 <= i < |keys| => branch(keys[i], template));
    var n := FirstThrow(ends);
    assert forall k :: k in keys ==> exists i :: 0 <= i < |keys| && keys[i] == k;
    if n < |keys| then
      assert keys[..n + 1][n] == keys[n];
      WriteRun(keys[..n + 1], ends[..n + 1], Failed(ends[n].error))
    else
      var outcomes := seq(|keys|, i requires 0 <= i < |keys| => ends[i].outcome);
      assert forall i :: 0 <= i < |keys| ==> ends[i] == Settled(outcomes[i]);
      WriteRun(keys, ends, FirstFailure(outcomes))
  }

  /** `write`: load the template through the cache, then dispatch one branch per key. A
      failed template load rejects the run before any branch starts. */
  method Write(cache: TemplateCache, read: ReadOutcome, keys: seq<string>,
               branch: (string, string) -> BranchEnd)
    returns (run: WriteRun)
    modifies cache
    ensures var l := LoadStep(old(cache.data), read);
      cache.data == l.cell &&
      run == match l.result
             case Err(e) => WriteRun([], [], Failed(e))
             case Ok(template) => Dispatch(keys, template, branch)
  {
    var loaded, _ := cache.Load(read);
    match loaded
    case Err(e) =>
      run := WriteRun([], [], Failed(e));
    case Ok(template) =>
      run := Dispatch(keys, template, branch);
  }
}
