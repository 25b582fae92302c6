# TestNG reporter model

A Dafny model of the data-shaping core of the TestNG XML reporter of a Nightwatch
test runner (`lib/runner/reporters/testng.js`). After a suite completes, the reporter
writes one TestNG-style XML file per test module and then launches external scripts
against the file and a target URL. The model covers the parts that hold logic:

- **Sanitizer** (`sanitizer.dfy`): `adaptAssertions`. A test case is a class whose
  fields are updated in place. Its assertions are an `array` whose slots are rewritten
  by an indexed loop. Each truthy assertion trace becomes the filtered list of its
  lines. For a failed test case with a truthy trace, the first line becomes the
  `message` and the filtered remaining lines become the `stackTrace`.
- **PathResolver** (`paths.dfy`): the folder, file name, class name and
  folder-creation flag that `writeReport` derives from a module key.
- **HomeUrl** (`home_url.dfy`): the normalisation of the target URL `home`.
- **Templates** (`templates.dfy`): the one-cell template cache of `loadTemplate`, as a
  class with a `string` field. The file read is a parameter.
- **ReportWriter** (`report_writer.dfy`): `writeReportFile` as an ordered trace of
  file-system effects; `writeReport` as sanitise, derive paths, render, strip and
  write; `write` as one branch per module key after the template load.
- **Strings** (`strings.dfy`): `split`, `join` and `includes` for one-character
  separators, with their round-trip lemmas. **Wrappers** (`wrappers.dfy`): `Option` and
  `Result`.

The stack-trace filter, the template engine and the control-character stripper are
code this model cannot see. They are function-valued parameters (`TraceFilter`,
`Collaborators`), and nothing is assumed about what they compute. File-system calls
and the template read are parameters that say how the call would end.

Three behaviours of the code differ from what the reporter is meant to do; the model follows
the code:

- `home` is rewritten unless the text `https://` occurs *anywhere* in it. This is a
  substring test, not a scheme-prefix test, and it knows only `https://`. So
  `http://x` becomes `https://http://x/` (`HomeUrl.PlainHttpIsWrapped`).
- Trace promotion happens per test case (`testcase.failed`, `testcase.stackTrace`), not
  on the module object. Module-level fields are never written.
- The sanitiser does not cope with malformed input: a test case without an
  `assertions` array would throw. The model gives every test case an array.

## Model

| member | source | states |
|---|---|---|
| `Strings.Split` | lib/runner/reporters/testng.js:89 | `split('\n')` yields at least one field, and no field contains the separator |
| `Strings.JoinSplit` | lib/runner/reporters/testng.js:94 | joining the fields of a split with the separator gives the original text back |
| `Strings.Join` | lib/runner/reporters/testng.js:130-140 | `parts.join(sep)`: fields separated by one separator each; the empty list joins to the empty string |
| `Strings.Contains` | lib/runner/reporters/testng.js:25 | `url.includes(t)`, scanning from the left; `ContainsOccurs` ties it to positional occurrence |
| `Strings.SplitJoin` | lib/runner/reporters/testng.js:94 | fields free of the separator come back unchanged from splitting their join |
| `Strings.SplitAtFirst` | lib/runner/reporters/testng.js:94-95 | the first field is the text before the first separator; the other fields are the split of the text after it; with no separator the split is the whole text |
| `Strings.SplitCount` | lib/runner/reporters/testng.js:121-129 | a split has more than one field exactly when the separator occurs |
| `Strings.ContainsOccurs` | lib/runner/reporters/testng.js:25 | `includes` holds exactly when the text occurs at some position, in both directions |
| `HomeUrl.NormaliseHome` | lib/runner/reporters/testng.js:24-27 | the URL unchanged when it contains `https://`, else `https://` + url + `/`; its properties are the lemmas below |
| `HomeUrl.HomeIsSecure` | lib/runner/reporters/testng.js:24-27 | the normalised URL always contains `https://` |
| `HomeUrl.NormaliseIdempotent` | lib/runner/reporters/testng.js:24-27 | normalising twice equals normalising once |
| `HomeUrl.UnchangedIffSecureSomewhere` | lib/runner/reporters/testng.js:24-27 | the URL is kept exactly when `https://` occurs at some position of it; otherwise it becomes `https://` + url + `/` |
| `HomeUrl.BareHost` | lib/runner/reporters/testng.js:25-26 | `example.com` becomes `https://example.com/` |
| `HomeUrl.PlainHttpIsWrapped` | lib/runner/reporters/testng.js:25-26 | `http://x` becomes `https://http://x/` |
| `HomeUrl.EmbeddedSecureKept` | lib/runner/reporters/testng.js:25 | a URL with `https://` after its start is kept, because the test is for a substring |
| `PathResolver.PathJoin` | lib/runner/reporters/testng.js:130-135 | `path.join` of two segments as a plain join with `/` |
| `PathResolver.ResolvePaths` | lib/runner/reporters/testng.js:121-135 | the module name, class name, folder, folder flag and file name of a key; its properties are the lemmas below |
| `PathResolver.ModuleNameIsLastSegment` | lib/runner/reporters/testng.js:121-122 | the module name has no separator, ends the key, and is the whole key or follows a separator |
| `PathResolver.CreatesFolderIffNested` | lib/runner/reporters/testng.js:125-133 | `shouldCreateFolder` holds exactly when the key contains the separator |
| `PathResolver.FlatKey` | lib/runner/reporters/testng.js:121-129 | for a key without separator, module name and class name equal the key, the folder is the base folder and no folder is created |
| `PathResolver.NestedKey` | lib/runner/reporters/testng.js:129-133 | for a key `p1/…/pn/m`, the key is the leading segments joined with `/` plus `/m`; the folder is the base joined with `p1/…/pn`; the class name is `p1.….pn.m`; the folder is created |
| `PathResolver.ClassNameIsDotted` | lib/runner/reporters/testng.js:123-131 | the class name is the key with every separator replaced by a dot |
| `PathResolver.FolderMirrorsKey` | lib/runner/reporters/testng.js:124-130 | the output folder joined with the module name equals the base folder joined with the key |
| `PathResolver.FilenameFromKey` | lib/runner/reporters/testng.js:135 | the file name is the base folder joined with the key's directory part, the report prefix, the module name and `.xml`; without a prefix it is the base folder joined with the key plus `.xml` |
| `PathResolver.FilenameIsXml` | lib/runner/reporters/testng.js:135 | every report file name ends in `.xml` |
| `PathResolver.FlatScenario` | lib/runner/reporters/testng.js:121-135 | module `mod1` under `out` is written to `out/mod1.xml` |
| `PathResolver.NestedScenario` | lib/runner/reporters/testng.js:121-135 | `suiteA/moduleB` under `out` gives class `suiteA.moduleB`, folder `out/suiteA` (created) and file `out/suiteA/moduleB.xml` |
| `Sanitizer.Truthy` | lib/runner/reporters/testng.js:88-93 | a trace field in a boolean test: true exactly when it is present and non-empty |
| `Sanitizer.Promotes` | lib/runner/reporters/testng.js:93 | the promotion condition `failed > 0` with a truthy trace |
| `Sanitizer.SanitizeAssertion` | lib/runner/reporters/testng.js:88-90 | an assertion with a truthy trace gets the filter of the trace's lines; any other assertion is left as it is |
| `Sanitizer.SanitizeAll` | lib/runner/reporters/testng.js:87-91 | the assertion array after the loop: same length, each slot sanitised on its own; `TestCase.Adapt`'s loop is proved against it |
| `Sanitizer.AdaptTestCase` | lib/runner/reporters/testng.js:84-98 | the state of a test case after the callback of `adaptAssertions`; its properties are `AdaptTestCaseEffect`, `PromotedMessage` and `PromotionLosesNothing` |
| `Sanitizer.AdaptTestCaseEffect` | lib/runner/reporters/testng.js:84-98 | counts, assertion count and assertion messages are kept; assertions without a truthy trace are untouched; a truthy assertion trace becomes the filter of its lines; without promotion the test case's message and trace are kept; with promotion the message holds no line break |
| `Sanitizer.PromotedMessage` | lib/runner/reporters/testng.js:93-98 | the promoted message is the trace's text before its first line break (all of it if none), and the filter receives the lines after that break (none if there is no break) |
| `Sanitizer.PromotionLosesNothing` | lib/runner/reporters/testng.js:94-97 | the message and the lines handed to the filter join back to the original trace |
| `Sanitizer.TestCase.Adapt` | lib/runner/reporters/testng.js:84-98 | the test case's new state is `AdaptTestCase` of its old state, with the same assertion array |
| `Sanitizer.AdaptAssertions` | lib/runner/reporters/testng.js:82-100 | every test case of the module is adapted in place; the module object, its keys and the identity of its test cases and arrays are unchanged |
| `Templates.LoadStep` | lib/runner/reporters/testng.js:53-68 | a read happens exactly when the cell is empty; a non-empty cell is returned unchanged; a resolved load leaves the returned text in the cell; a read that succeeds resolves with what was read; a read that fails rejects with its error and leaves the cell unchanged, and a rejection comes only from a failed read |
| `Templates.Replay` | lib/runner/reporters/testng.js:53-68 | successive `loadTemplate` calls, each starting from the cell the previous one left; one result per call |
| `Templates.CachedTemplateSticks` | lib/runner/reporters/testng.js:55-57 | once the cell holds a non-empty template, every later load returns it and reads nothing |
| `Templates.FirstLoadWins` | lib/runner/reporters/testng.js:53-68 | after a load resolves with a non-empty template, all later loads return that template without reading |
| `Templates.EmptyCellRereads` | lib/runner/reporters/testng.js:29-65 | while only failures or empty templates are read, every load reads the file again and the cell stays empty |
| `Templates.TemplateCache.constructor` | lib/runner/reporters/testng.js:29 | the cache starts empty, so the first load reads the file |
| `Templates.TemplateCache.Load` | lib/runner/reporters/testng.js:53-68 | the new cell, the result and whether a read happened are those of `LoadStep` on the old cell |
| `ReportWriter.WriteReportFile` | lib/runner/reporters/testng.js:102-117 | the folder is created exactly when asked and always before the write; the file is written unless folder creation failed; a failed folder creation rejects with its error, and otherwise the step ends as the write does |
| `ReportWriter.Snapshot` | lib/runner/reporters/testng.js:137 | the `module` property handed to the template engine: every completed test case's current state, with the module's failure count, trace and report prefix |
| `ReportWriter.WriteReport` | lib/runner/reporters/testng.js:119-145 | the module is sanitised first; the paths are those derived from the key; the text written is the stripped rendering of the sanitised module with the derived names and the joined error log |
| `ReportWriter.ReportLandsAtDerivedPath` | lib/runner/reporters/testng.js:102-135 | a flat key only writes the derived file; a nested key creates the derived folder and, if that succeeds, writes the derived file |
| `ReportWriter.FirstFailure` | lib/runner/reporters/testng.js:195 | the combined outcome is success exactly when every outcome is, and otherwise one of the failures |
| `ReportWriter.FirstThrow` | lib/runner/reporters/testng.js:191-193 | the position of the first branch that throws: all earlier branches settled, and the one there threw |
| `ReportWriter.Dispatch` | lib/runner/reporters/testng.js:187-195 | branches start in key order, one per key, and stop after the first branch that throws, which makes the run reject with the thrown error; without a throw every key gets a branch; the run succeeds exactly when every branch settles successfully, and otherwise fails with the error of a started branch |
| `ReportWriter.Write` | lib/runner/reporters/testng.js:186-197 | the template is loaded through the cache first; a failed load rejects with no branch launched; otherwise the run is the dispatch over the keys with the loaded template |

## Left out

- File-system I/O (`fs.readFile`, `fs.writeFile`, `mkpath`): each is a parameter saying how the call ends, and folder creation and file writing are effect events.
- `ejs.render` and `Utils.stripControlChars`: foreign and unseen code, passed in as `Collaborators.render` and `Collaborators.strip`. Nothing is proved about stripping.
- `Utils.stackTraceFilter` is unseen code, passed in as `TraceFilter`. Its result is typed `string` because the source stores it back into the trace field.
- The template file's location (`templateFile`, `path.join(__dirname, …)`): it is a fixed path with no logic.
- The four `child_process.exec` calls to PHP scripts after a successful write, and their logging callbacks: these are fire-and-forget subprocesses.
- `minimist` argument parsing and all `console.log` output.
- The crash when no `url` argument is given: `home` is undefined and `includes` throws at start-up.
- Concurrency: `Promise.all` and the interleaving of branches. Two concurrent `write` calls could both read the template; the model runs loads one after another.
- `ReportWriter.Dispatch`: when several branches fail, which error `Promise.all` rejects with depends on timing. The model takes the first in key order, and its contract promises only "the error of one failing branch".
- `ReportWriter.Write`: each branch is an abstract end (settled or thrown) per key and template. It is not tied to `WriteReport`, whose module objects would need a frame for every module at once.
- `ReportWriter.WriteReport`: it never throws. The template engine and the filter are total, and every test case has an assertions array. A `writeReport` that throws (a template the engine rejects, a test case without `assertions`) appears only as a `Threw` branch end in `Dispatch`.
- The `write(results, options, callback)` export and the callback wiring; `writeReport` looking up its module in `results.modules` (the module object is passed in instead).
- `Sanitizer.AdaptAssertions`: it requires distinct keys to hold distinct test-case objects with distinct assertion arrays. A test case shared between two keys would be adapted twice by the source; that aliasing is not modelled.
- Assertion objects are values in the array, so an assertion object shared between slots or test cases is not modelled. Only an assertion's message and trace are represented.
- `ReportWriter.Snapshot`: the template engine sees only what `ModuleView` and `TestCaseView` hold: a module's completed test cases, failure count, trace and report prefix, and each test case's assertions, `failed`, `passed`, trace and message. Any other field of the module or of a test case (timings, skipped lists, error counts and the like) is not represented, so the modelled rendering cannot depend on it.
- JavaScript truthiness is modelled only for trace fields (absent or empty string is falsy). `failed` is an integer, so non-numeric `failed` values are not modelled.
- `path.join` normalisation (`..`, `.`, repeated or trailing separators, an empty base): the model's `PathJoin` is a plain join with `/`. `path.sep` is taken to be `/`.
