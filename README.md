# express-bundles, modelled in Dafny

express-bundles is an Express middleware that serves concatenated, minified bundles
of CSS, JavaScript and HTML. It is configured with a map from bundle names to ordered
lists of entries. An entry is a local file under the source root, a remote `http:` or
`https:` URL, or the name of another bundle, which nests that bundle. On a request for
a bundle, the middleware:

- checks whether anything the bundle depends on changed since its last build, comparing
  each local file's modification time with the one recorded then;
- rebuilds the bundle when something changed or its output file is missing;
- otherwise leaves the output as it is.

The rebuild starts every entry at once and keeps their results in declared order: a
nested bundle is built and its output file read back, and a leaf is read and passed
through the user hook registered for its extension. The model processes the entries one
after the other in declared order. It then records the modification times captured by the check. Last, it
writes the joined contents under the bundle's own name, minified for `.css` and `.js`.
Templates ask the `emit` resolver which file names to reference: the bundle itself in
production, its entries one by one in development.

The model has these parts:

- `Paths`: `path.join` and `path.extname`.
- `BundleRegistry`: the registry built from the configuration (`Register`), and the
  acyclicity of the bundle graph, witnessed by a rank that decreases along nesting.
- `Emitter`: the `emit` resolver.
- `FileSystem`: the world a build acts on. It holds the disk (path to content and
  modification time), the network, the two per-entry marker maps and a log of reads and
  writes. The marker maps are `mtime`, recorded at the last successful collection, and
  `ttime`, captured at the last check.
- `ChangeDetector`: `check` as a function, and an independent reference definition of
  "changed".
- `Persister`: the text `save` writes.
- `Builder`: `build` and `save` as functions from the world before a build to its
  outcome and the world after it.
- `BuildFrames`: what a build may change.
- `BuilderProperties`: what a build promises.
- `SharedNesting`: one configuration with a bundle nested in two siblings, and the
  stale outputs its in-order rebuild and its change detection produce.
- `Middleware`: class `Bundler`, holding the middleware's state. Its recursive `Check`
  and `Build` methods update the markers and the disk in place. Each method is proved
  equal to the corresponding function.

A build ends in one of four outcomes:

- `Skipped`: the output is up to date.
- `Rebuilt`: the output was written.
- `Failed`: an error was reported.
- `Stalled`: `save` never calls back. This happens for an unknown extension or a failing
  JS minifier.

The middleware's recursion has no cycle guard. The model therefore requires an acyclic
configuration: `Bundler`'s constructor takes a rank as a ghost witness.

## Model

| member | source | states |
|---|---|---|
| Paths.Join | index.js:59 | Definition, no contract: `path.join` as concatenation with one `/`; `Paths.JoinInjective` states its property |
| Paths.Extname | index.js:152 | Definition, no contract: `path.extname` of a name; `Paths.ExtnameShape` and `Paths.ExtnameOf` state its properties |
| BundleRegistry.IsRemote | index.js:39 | Definition, no contract: an entry name matching `^https?:` is remote; `BundleRegistry.BundleOf` states where it is used |
| BundleRegistry.RegistryOf | index.js:34-79 | Definition, no contract: the registry built from a configuration; `BundleRegistry.Register` and `BundleRegistry.RegistryOfIsRanked` state its properties |
| Emitter.IsDevelopment | index.js:18 | Definition, no contract: only the exact environment string "development" selects per-entry emission; `Emitter.Emit` states its effect |
| BundleRegistry.Describe | index.js:35-73 | Definition, no contract: the descriptor of one configured entry; `BundleRegistry.BundleOf` states its properties |
| Persister.JoinWith | index.js:197-212 | Definition, no contract: `Array.join` with a separator; `Persister.SplitJoin` states its property |
| ChangeDetector.CheckOutcome | index.js:82-104 | Definition, no contract: `check` of a bundle; `ChangeDetector.CheckDecidesChanged` and `ChangeDetector.ColdStartCheck` state what it answers |
| ChangeDetector.CheckEntries | index.js:83-100 | Definition, no contract: the in-order walk over the entries, stopping at the first changed one; `ChangeDetector.CheckEntriesDecide` states what it answers |
| Builder.ReadLeaf | index.js:42-70 | Definition, no contract: `file.read`; `Builder.ReadLeafSpec` states it |
| Builder.LeafContent | index.js:146-168 | Definition, no contract: a leaf read, then passed through its extension's hook; `Builder.LeafContentSpec` states it |
| Builder.Step | index.js:123-169 | Definition, no contract: one entry of the collection; `BuildFrames.StepFramed`, `BuilderProperties.StepLeaf` and `BuilderProperties.NestedEntryReadsFreshOutput` state its properties |
| Builder.Collect | index.js:122-174 | Definition, no contract: the in-order collection; `BuilderProperties.CollectContents`, `BuilderProperties.CollectFailsAt` and `BuildFrames.CollectFramed` state its properties |
| Builder.Run | index.js:122-170 | Definition, no contract: the entries before a given one, processed as the collection does; `BuilderProperties.CollectFailsAt` and `BuilderProperties.BuildFailsIff` use it to say that every entry before the failing one succeeded |
| Builder.BuildOutcome | index.js:106-191 | Definition, no contract: `build`; the `BuilderProperties` lemmas and `BuildFrames.BuildFramed` state its properties |
| Builder.Finish | index.js:170-189 | Definition, no contract: the collection's final callback; `BuilderProperties.FinishNeverSkips` states its properties |
| Builder.Save | index.js:193-229 | Definition, no contract: `save`; `BuilderProperties.SaveDispatch` and `BuildFrames.SaveFramed` state its properties |
| Paths.JoinInjective | index.js:74-77 | Two bundles' output paths under one source root differ when their names differ |
| Paths.ExtnameShape | index.js:152 | The extension is empty, or a '.' followed by no other '.' and no '/', and it is a suffix of the name |
| Paths.ExtnameOf | index.js:194-205 | A name made of a non-empty stem and an extension such as ".css" has exactly that extension |
| BundleRegistry.BundleOf | index.js:35-78 | One bundle per configured name: output path `src/name`, one entry per configured name in the same order, an `^https?:` entry remote with its URL as path, any other under `src` |
| BundleRegistry.Register | index.js:34-79 | The registry has exactly the configured bundle names, each registered as `BundleOf` its configured entries |
| BundleRegistry.RegistryOfIsRanked | index.js:74-78 | The registered registry is well formed (names, output paths, entry descriptors) and inherits the configuration's acyclicity witness |
| Emitter.Emit | index.js:11-25 | Outside "development" the result is exactly `[name]`; in development there is a result exactly when `name` is a registered bundle |
| Emitter.EmitListsConfiguredEntries | index.js:18-24 | In development a bundle emits its configured entry names in declared order, nested bundles unexpanded |
| FileSystem.FetchAsWritten | index.js:45-55 | As written: the remote read fails, with a fetch error, only when no response arrives; a 200 response yields its body and any other response empty content |
| FileSystem.FetchAsWrittenAcceptsNotFound | index.js:52-54 | A 404 answer is read, as written, as an empty remote file |
| FileSystem.Fetch | index.js:42-56 | The remote read as intended: it succeeds exactly on a 200 response, with the response body as content |
| Persister.SplitJoin | index.js:197-202 | Joining contents with a newline loses nothing when no piece contains one: splitting gives the pieces back in order |
| Persister.Assemble | index.js:193-229 | `save` writes nothing exactly when the extension is not ".css", ".html" or ".js", or when it is ".js" and the JS minifier fails |
| Builder.ReadLeafSpec | index.js:42-70 | A local leaf reads successfully exactly when its file exists, yielding its content, and otherwise fails naming its path; a remote leaf is read through the corrected remote read of "## Findings", so exactly when the answer is a 200, yielding its body |
| Builder.LeafContentSpec | index.js:146-168 | A leaf contributes its read content, passed through the hook registered for its extension when there is one; read errors pass through and a hook error fails with that entry |
| Builder.Advance | index.js:176-179 | After advancing, each of the bundle's entries has its captured marker as recorded marker, or none if none was captured; every other slot keeps its recorded marker |
| Builder.AdvanceOneMore | index.js:177-178 | Advancing one more entry updates, or removes, exactly that entry's recorded marker |
| ChangeDetector.ChangedIffSomeEntry | index.js:83-100 | "Changed" holds exactly when some entry changed: a nested bundle that changed, or a local leaf with no recorded marker or a different modification time |
| ChangeDetector.CheckEntriesDecide | index.js:83-100 | Whenever the check from an entry on answers, it answers exactly the reference "changed from here"; with every reachable local leaf present it always answers |
| ChangeDetector.CheckDecidesChanged | index.js:82-104 | Whenever `check` answers, it answers exactly whether the bundle changed, remote leaves never counting; with every reachable local leaf present it always answers |
| ChangeDetector.ColdStartFrom | index.js:94-96 | With no recorded markers, entries from `i` on are changed exactly when some of them transitively contains a local leaf |
| ChangeDetector.ColdStart | index.js:94-96 | With no recorded markers, a bundle is changed exactly when it transitively contains a local leaf |
| ChangeDetector.FirstLeafFound | index.js:83-100 | A first local leaf, depth first in declared order, exists exactly when some local leaf is reachable |
| ChangeDetector.ColdStartCheckFrom | index.js:83-100 | With no recorded markers, the check from entry `i` on answers unchanged when no local leaf is reachable, and otherwise changed or a stat failure naming the first local leaf reached, as that file exists or not |
| ChangeDetector.ColdStartCheck | index.js:82-104 | On a cold start `check` answers unchanged when no local leaf is reachable, and otherwise changed or a stat failure naming the first local leaf reached, as that file exists or not; with every leaf present it reports exactly whether the bundle transitively contains a local leaf |
| ChangeDetector.CheckIgnoresCaptured | index.js:94-96 | The answer of a check does not depend on the markers captured by earlier checks |
| ChangeDetector.CheckFramed | index.js:84-95 | A check captures markers only for entries of bundles ranked no higher than the one checked |
| BuildFrames.OwnOutputNotBelow | index.js:198 | No bundle ranked below a bundle has that bundle's output path |
| BuildFrames.LeafNotOutput | index.js:59 | A local leaf's path is the output path of no bundle |
| BuildFrames.BuildFramed | index.js:106-191 | A build changes markers only of bundles ranked no higher than it, writes only such bundles' outputs, and only appends to the I/O log |
| BuildFrames.ProbeFramed | index.js:108 | The check inside a build stays within that frame |
| BuildFrames.CollectFramed | index.js:122-170 | Collecting a bundle's entries stays within the frame of the bundles ranked below it |
| BuildFrames.StepFramed | index.js:123-169 | Processing one entry stays within the frame of the bundles ranked below its bundle |
| BuildFrames.FinishFramed | index.js:176-188 | Advancing the markers and saving changes only the bundle's own markers and output |
| BuildFrames.AdvanceFramed | index.js:177-179 | Advancing the markers changes only the bundle's own slots |
| BuildFrames.SaveFramed | index.js:193-229 | `save` writes at most the bundle's own output |
| BuilderProperties.SaveEnds | index.js:182-188 | `save` either never calls back or reports the contents it was given |
| BuilderProperties.FinishNeverSkips | index.js:170-189 | After collection a build never reports a skip, and fails exactly when the collection failed |
| BuilderProperties.CollectFailsAt | index.js:122-170 | A collection fails with an error exactly when some entry fails with it after every entry before it succeeded |
| BuilderProperties.BuildFailsIff | index.js:106-174 | A build fails with an error exactly when its check fails with it, or the check answers, the build does not skip, and some entry (a leaf read, a hook, a nested build or the read of its output) fails with it after every entry before it succeeded |
| BuilderProperties.SkipExactlyWhenUnchanged | index.js:106-119 | A build skips exactly when its check answers, nothing changed and the output file exists; with every reachable local leaf present the check always answers |
| BuilderProperties.SkipTouchesNothing | index.js:115-119 | A skipped build leaves the disk and the recorded markers as they were and reads or writes nothing |
| BuilderProperties.SkipIsStable | index.js:108-119 | A build that skipped skips again when repeated |
| BuilderProperties.FailureLeavesBundleUntouched | index.js:170-174 | A failed build, whether a stat failed in its check or an entry failed in its collection, keeps the bundle's recorded markers and its output file, and never writes that file |
| BuilderProperties.MarkersAdvanceToCaptured | index.js:176-179 | After a rebuild each entry's recorded marker is the one its check captured; markers of bundles ranked higher are untouched |
| BuilderProperties.SaveFailureAdvancesMarkers | index.js:176-229 | When `save` writes nothing after a successful collection, the build never reports back and the output is not written, yet the markers have already advanced |
| BuilderProperties.SaveDispatch | index.js:193-229 | ".css" writes the CSS-minified newline join, ".html" the newline join, ".js" the JS-minified concatenation when the minifier succeeds, each to `src/name` with the markers unchanged; otherwise nothing changes and no callback comes |
| BuilderProperties.RebuildWritesArtifact | index.js:182-229 | A rebuild writes the assembled contents, stamped with the clock, to the bundle's output path as its last I/O |
| BuilderProperties.LeafContentLocal | index.js:58-70 | What a leaf contributes depends on the disk only at its own path |
| BuilderProperties.StepLeaf | index.js:146-168 | A leaf's piece is what that leaf yields, read and hooked, on the current disk or on any disk holding the same leaf files |
| BuilderProperties.StepKeepsLeaves | index.js:123-169 | Processing an entry, nested builds included, changes the file of no later local leaf of the bundle |
| BuilderProperties.CollectContents | index.js:122-170 | A successful collection adds one piece per remaining entry, in order, each leaf's piece being what that leaf yields from the starting disk |
| BuilderProperties.RebuildContents | index.js:122-169 | A rebuilt bundle has one piece per entry, in declared order, each leaf's piece being what that leaf yields, read and hooked, from the disk before the build |
| BuilderProperties.NestedEntryReadsFreshOutput | index.js:123-142 | A nested entry's piece is the nested bundle's output file read after that build (and its write) completed, equal to what that build wrote when it rebuilt |
| BuilderProperties.ColdStartLooksChangedTwice | index.js:83-96 | Since the check stops at the first changed entry, a bundle of two local leaves still looks changed after its first rebuild |
| SharedNesting.SharedRebuilt | index.js:106-191 | With `n1.css = [a.css]` built once and `a.css` edited since, building `n1.css` rebuilds it from the new `a.css`, writes its output and records the new time |
| SharedNesting.SharedNestedGoesStale | index.js:122-142 | With `n2.css = [n1.css]` and `p.css = [n1.css, n2.css]` as well, the in-order rebuild of `p.css` takes the new `n1.css` output but the old `n2.css` output, because `n2.css` is checked after `n1.css` recorded the edit |
| SharedNesting.ParentSkipsAfterNestedRequest | index.js:106-119 | In the same configuration, a request for `n1.css` followed by one for `p.css` rebuilds `n1.css` and then skips `p.css`, whose output stays the old one |
| Middleware.Bundler.constructor | index.js:33-79 | The bundler starts with the registry of the configuration, the given disk and no markers |
| Middleware.Bundler.Check | index.js:82-104 | The method's answer and captured markers are exactly those of `check`'s specification |
| Middleware.Bundler.Build | index.js:106-191 | The outcome and new state are exactly those of `build`'s specification |
| Middleware.Bundler.CollectAll | index.js:122-174 | The in-order collection gives exactly the specified pieces and state |
| Middleware.Bundler.Process | index.js:123-169 | Processing one entry gives exactly the specified piece and state |
| Middleware.Bundler.Conclude | index.js:170-189 | The final callback advances the markers and saves exactly as specified |
| Middleware.Bundler.AdvanceMarkers | index.js:176-179 | The loop over the entries sets the recorded markers to exactly `Advance` of the old ones |

## Left out

- The HTTP glue (index.js:231-249), `attachTo` and `res.locals` (index.js:27-30) are framework wiring. This covers routing a request URL to a bundle and passing the build's error to `next`.
- The network, the file system and the clock are not modelled as real I/O:
  - Remote entries are read from a map from URL to response; a URL missing from it stands for a transport error.
  - The file system is a map from path to content and modification time.
  - The time stamped on written files is a parameter of the build.
  - Writes always succeed: a failing `fs.writeFile` is not modelled.
- `path.join` is plain concatenation with one `/`. Normalisation of `..`, duplicate separators and trailing slashes is not modelled.
- The internals of the CSS and JS minifiers and the hook bodies are not modelled; they are opaque functions. A JS minifier that reports an error and one that throws are both `None`. A hook receives the entry's name, not the whole file descriptor, and reports an error as `None`.
- The `async` library's scheduling is not modelled. `async.some` and `async.map` run in order:
  - The check stops at the first entry found changed.
  - The collection stops at the first failure or stall.
  - Entries after the failing one, which the library may already have started, are not run in the model.
  - A stalled entry therefore ends the model's collection. With the entries `[a nested bundle with an unknown extension, a missing local file]`, the source's parallel `async.map` still reports the second entry's error (a failed build), where the model stalls.
  - The error reported is the first in declared order, not the first to complete. `BuilderProperties.BuildFailsIff` and `BuilderProperties.CollectFailsAt` are exact relative to that order.
- `Builder.Collect` runs a bundle's entries one after the other, so a bundle nested in two siblings is rebuilt by the first sibling before the second is checked. With `n1.css = [a.css]`, `n2.css = [n1.css]` and `p.css = [n1.css, n2.css]`, all built once and `a.css` edited since, the model rebuilds `p.css` from the new `n1.css` and the old `n2.css` output, and `SharedNesting.SharedNestedGoesStale` proves it. In the source both siblings are started before either finishes, so `n2.css` also sees the edit. The relative timing of the two builds' reads and writes is not modelled.
- `Builder.BuildOutcome` keeps the source's change detection, which compares leaf modification times only (index.js:83-100). A bundle whose nested bundle was rebuilt by an earlier request is skipped with a stale output, as `SharedNesting.ParentSkipsAfterNestedRequest` shows. A detection that also compares the nested bundles' outputs is not modelled.
- Logging of hook and minifier errors to the console (index.js:159, 207-208) is not modelled.
- A `fs.statSync` call on a missing local leaf throws in the source. The model treats this as the check failing with `StatFailed`, which the build then reports.
- A transport error with no response dereferences an undefined response in the source. The model treats it as the remote read failing.
- `Date` objects are integers compared for equality.
- Looking up a bundle or hook through inherited object properties is not modelled: lookups are exact map lookups.
- `Emitter.Emit` returns `None` for an unknown bundle in development, where the source throws a `TypeError`.
- `BuilderProperties.FailureLeavesBundleUntouched` is weaker than "no recorded marker changes". It is stated for the failing bundle's own markers and output only, because nested bundles that finished before the failing entry keep their new outputs and markers in the source too. `BuildFrames.BuildFramed` bounds what those may be.
- `Builder.ReadLeafSpec` and the build through `Builder.ReadLeaf` use the corrected remote read `FileSystem.Fetch` of "## Findings": a remote entry answering 404 fails the build with `FetchFailed`, where index.js:52-54 carries on with an empty piece. `FileSystem.FetchAsWritten` keeps the behaviour as written.
- `Paths.Extname` returns the empty string for a name ending in `/`, where `path.extname` first skips trailing separators. Bundle and entry names ending in `/` are not modelled further.
- `BuilderProperties.RebuildContents` states each leaf's piece against the disk before the build. Nested pieces are stated one entry at a time, by `BuilderProperties.NestedEntryReadsFreshOutput`.

## Findings

| source | as written | input that shows it | evidently intended | confidence | as-written member | corrected member |
|---|---|---|---|---|---|---|
| index.js:45-55 | A response whose status is not 200 calls back with the transport error, which is `null` when a response arrived, so the read succeeds with `undefined` content, joined as an empty string | a remote entry whose URL answers 404 | a non-200 response fails the read and so the build | high (not executed) | FileSystem.FetchAsWrittenAcceptsNotFound | FileSystem.Fetch |
