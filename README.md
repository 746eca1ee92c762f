# karma-webpack plugin core, modelled in Dafny

This project models the coordination logic of the karma-webpack plugin (`index.js`).
The plugin runs webpack in watch mode beside karma. Each test file the karma
preprocessor sees becomes a webpack entry. A read issued while a build is running
(`waiting` is open) is retried after the next `done` in which every member
compilation emitted assets; a read issued while idle runs at once.

The model covers four parts:

- **Entry registry** (`Entries`, `KarmaPlugin.Plugin.AddFile`, `Plugin.Make`). The registry is a duplicate-free list of
  files in registration order. The make pass adds one entry per file. The entry's name is the base-relative path
  with forward slashes. The module request gets the mocha loader prefix when there is more than one configuration
  and mocha is in use. A file whose module failed with ENOENT is dropped from the list, and the middleware is
  invalidated.
- **Build/wait-queue state machine** (`KarmaPlugin.Plugin`). `waiting` is `None` when idle and a queue of
  retries while a build runs. It starts as an empty queue. `OnInvalid` opens a queue only if none is open.
  `OnDone` does three things in order:
  - it notifies karma (`fileList.refresh()`) when no queue is open or the open queue is empty;
  - when a queue is open and every member compilation emitted assets, it resets `waiting` to `None`;
  - it then runs the queued thunks in order.

  A thunk hands its retry to `process.nextTick`. `scheduled` holds those retries, and `RunNextTick` runs the
  oldest one. `ReadFile` reads at once when idle and otherwise queues one retry.
- **Virtual reads** (`Paths`, `VirtualRead`, `Aggregate`). With one configuration a read looks at
  `/_karma_webpack_/<file>`. With several, it reads `/_karma_webpack_/<i>/<file>` for every index `i`. Backslashes
  become `/` in both cases. The first failing read decides the error. On success the buffers are joined in index
  order with one newline between neighbours. The join is modelled as written: a left fold from `null`, then
  `Buffer.concat`. It is proved equal to an independent interleaving definition.
- **Output option rewriting** (`OutputOptions`). Every configuration gets:
  - `watch = true`;
  - an output path `/_karma_webpack_/[i/]` and a public path one `/` longer;
  - `filename = "[name]"` and `chunkFilename = "[id].chunk.js"`;
  - a `webpackJsonp<i>` JSONP function, only when there is more than one configuration.

  The index segment also appears only in that case. All other options are kept.

Side effects are recorded in ghost logs on the plugin object:
- `refreshes` counts `fileList.refresh()` calls;
- `invalidations` counts `middleware.invalidate()` calls;
- `deliveries` lists the reads that ran and what each callback received;
- `fired` lists the queued thunks that ran;
- `entries` lists the entries added by make passes.

The `Scenarios` module holds client methods. They show what a caller can conclude from the contracts alone:
- registering twice;
- FIFO release of queued reads;
- a zero-asset build keeping the queue;
- a retry that observes a new build;
- an unsolicited build notifying karma;
- the two-configuration join;
- recovery from a deleted test file.

Points where the behaviour is the code's own, as modelled:
- The queue is kept when ANY member compilation reports zero assets. The build's total asset count is not what
  decides.
- Karma is notified when `waiting` is `null` OR an empty queue. So a build that nobody waited for notifies even
  while a queue is open but empty. This includes the first build after start-up, because `waiting` starts as `[]`.
- `waiting` is reset to `null` before the queued thunks run. Each thunk only schedules its retry. The retry runs
  `readFile` again later, against the store as it is then.
- The mocha loader prefix is applied only in multi-configuration mode.
- A new file registered while the compiler is idle is read at once, before any build that includes it:
  `middleware.invalidate()` opens no queue, only the compiler's later `invalid` event does.
- The index segment is added only when there are two or more configurations (`includeIndex` is
  `applyOptions.length > 1`). The comment above it says an array of length 1 also gets the index, but that is
  not what the code does. The model follows the code.
- `publicPath` is the output path followed by another `/`. It ends in `//`, for example `/_karma_webpack_//` or
  `/_karma_webpack_/0//`.

## Model

| member | source | states |
|---|---|---|
| Paths.NatToString | index.js:36 | the rendered index is a non-empty string of decimal digits, one digit exactly when the index is below 10 |
| Paths.NatToStringInjective | index.js:36 | different indices render to different text |
| Paths.NatToStringValue | index.js:36 | the rendered index, read back as decimal digits, is the index itself |
| Paths.IndexSegment | index.js:36 | the segment is non-empty exactly in multi mode, and is then the index's digits followed by `/` |
| Paths.Normalize | index.js:159 | the result has the input's length; each backslash becomes `/`, every other character is kept |
| Paths.NormalizeIdempotent | index.js:138 | a normalised path holds no backslash and normalising it again changes nothing |
| Paths.OutputPath | index.js:36-40 | an output path starts with `/_karma_webpack_/` and ends in `/`; in single mode it is exactly `/_karma_webpack_/`, in multi mode the text between the namespace and the final `/` is the index's decimal digits |
| Paths.PublicPath | index.js:41 | the public path is the output path followed by one more `/` |
| Paths.SinglePath | index.js:171 | the single-mode read path is the namespace followed by the normalised file, so it has the file's length after the prefix and no backslash there |
| Paths.IndexedPath | index.js:159 | the multi-mode read path is longer than namespace plus file and has no backslash after the namespace |
| Paths.ReadPathsUnderOutputPath | index.js:40 | in both modes a read path is the configuration's output path followed by the normalised file |
| Paths.IndexedPathInjective | index.js:159 | a multi-mode read path determines both the configuration index and the normalised file (no two roots collide) |
| Paths.OutputPathsDistinct | index.js:34-40 | two different indices never share an output path |
| Aggregate.Step | index.js:162-165 | the reducer never yields `null`: from `null` the list is just the buffer, and a list keeps its elements and gains the newline and the buffer at its end |
| Aggregate.Reduce | index.js:162-166 | the fold from `null` yields `null` only for an empty list of buffers |
| Aggregate.Concat | index.js:167 | `Buffer.concat` lays the buffers end to end; its length is the sum of theirs (`ConcatAppend` splits it over `+`) |
| Aggregate.Joined | index.js:162-167 | a single configuration's content is delivered unchanged; in general the join equals the newline interleaving (`JoinedIsInterleave`, `JoinedLength`) |
| Aggregate.JoinedIsInterleave | index.js:162-167 | reducing then concatenating gives exactly `c0 + "\n" + c1 + ... + c(n-1)` |
| Aggregate.JoinedLength | index.js:162-167 | the joined buffer's length is the sum of the contents' lengths plus n-1 |
| Aggregate.InterleaveSnoc | index.js:164 | one more buffer extends the join by a newline and that buffer |
| Aggregate.JoinedPair | index.js:162-167 | two configurations with contents `a` and `b` give `a`, a newline, `b` |
| VirtualRead.IndexedPaths | index.js:158-159 | `async.times` reads exactly `optionsCount` paths, the one for index `i` in position `i` |
| VirtualRead.ReadAt | index.js:171 | a store read succeeds exactly when the path is stored and returns its bytes; otherwise it reports that path as not found |
| VirtualRead.ReadResult | index.js:156-172 | a failed read names a path the store does not hold: the single path in single mode, one of the per-index paths in multi mode; success and failure are characterised by `SingleRead`, `AggregatedReadSucceeds` and `AggregatedReadFails` |
| VirtualRead.ReadAll | index.js:158-161 | a successful sequence of reads returns one buffer per path |
| VirtualRead.ReadAllMeaning | index.js:158-161 | the reads succeed iff every path is stored, then return the stored buffers in order; else they report the first missing path |
| VirtualRead.ReadAllFailsEarly | index.js:161 | once a prefix of the reads fails, the later reads do not change the outcome |
| VirtualRead.AggregatedReadSucceeds | index.js:157-168 | a multi read succeeds iff every configuration holds the file, and then delivers the newline-interleaved buffers with the summed length |
| VirtualRead.AggregatedReadFails | index.js:158-161 | a failing multi read reports the first configuration missing the file and delivers no content |
| VirtualRead.SingleRead | index.js:169-172 | a single-mode read is one read of `/_karma_webpack_/<file>`, passing its error through unchanged |
| VirtualRead.ReadAllStep | index.js:158-161 | one more read after a successful prefix either extends its buffers by the one read or ends with that read's error |
| VirtualRead.DoRead | index.js:156-173 | the per-index read loop plus join delivers exactly the specified read result |
| Entries.Without | index.js:142-144 | filtering out one file never lengthens the list |
| Entries.WithoutMembers | index.js:142-144 | the filter removes exactly the dropped file and keeps every other one |
| Entries.Keep | index.js:142-144 | filtering a set of files never lengthens the list |
| Entries.KeepMembers | index.js:142-144 | filtering keeps exactly the files not dropped |
| Entries.CountIn | index.js:145 | at most one invalidation per file of the snapshot |
| Entries.CountKeep | index.js:141-145 | every snapshot file is either kept or counted as dropped: the count plus the kept list's length is the snapshot's length |
| Entries.KeepNoDuplicates | index.js:142-144 | filtering a duplicate-free list keeps it duplicate-free |
| Entries.AppendNoDuplicates | index.js:124-125 | appending an absent file keeps the list duplicate-free |
| Entries.MakeStepDrop | index.js:140-145 | dropping the current file from the list leaves the kept prefix followed by the unprocessed rest |
| Entries.MakeStepKeep | index.js:140-147 | keeping the current file leaves the kept prefix followed by the unprocessed rest |
| Entries.EntryFor | index.js:132-138 | an entry's name is the base-relative path with every backslash turned to `/` and no backslash left; its request is `loader!file` when wrapping, else the file |
| Entries.EntriesFor | index.js:131-138 | a make pass adds as many entries as there are files |
| Entries.EntriesForAt | index.js:131-138 | the k-th entry of a make pass is the entry for the k-th file of the snapshot |
| OutputOptions.Rewrite | index.js:28-46 | a rewritten configuration watches and has the namespace output and public paths, the fixed filename templates and the per-index JSONP name in multi mode; every other option is kept |
| OutputOptions.JsonpNameInjective | index.js:43-44 | different indices get different JSONP function names |
| OutputOptions.JsonpName | index.js:44 | the JSONP name is `webpackJsonp` followed by decimal digits that spell the index (distinct per index by `JsonpNameInjective`) |
| OutputOptions.RewriteSeparatesConfigs | index.js:34-44 | in multi mode, two indices get different output paths, public paths and JSONP names |
| OutputOptions.ReadsLandInOutputPath | index.js:36-40 | the path read for configuration `i` is its rewritten `output.path` followed by the normalised file, in both modes |
| OutputOptions.ApplyOptions | index.js:25-46 | every configuration in the array is rewritten for its own index, and the resulting output paths are pairwise distinct |
| KarmaPlugin.NoAssets | index.js:66-75 | `noAssets` holds exactly when some member compilation has zero assets |
| KarmaPlugin.ReadFindsEntryBundle | index.js:138 | the preprocessor reads a file's bundle where the make pass has it written: the output path followed by the entry name |
| KarmaPlugin.Plugin.constructor | index.js:25-53 | the configurations are rewritten; the plugin starts building with an empty queue, no files and empty logs; mocha wrapping only in multi mode; the loader path and the base-relative function are the ones passed in |
| KarmaPlugin.Plugin.NotifyKarmaAboutChanges | index.js:117-121 | one more `fileList.refresh()` call |
| KarmaPlugin.Plugin.Invalidate | index.js:193 | one more `middleware.invalidate()` call |
| KarmaPlugin.Plugin.AddFile | index.js:123-127 | returns true iff the file was unseen; an unseen file is appended at the end, a known one leaves the list unchanged; no duplicates ever |
| KarmaPlugin.Plugin.OnInvalid | index.js:92-95 | opens an empty queue when idle; an existing queue, empty or not, is left exactly as it was |
| KarmaPlugin.Plugin.RunThunk | index.js:181 | a queued thunk hands its own request, once, to the next-tick queue |
| KarmaPlugin.Plugin.OnDone | index.js:64-91 | refreshes exactly once when the queue is null or empty; with an open queue and assets everywhere, waiting becomes null and every queued retry fires once, in push order; otherwise queue and logs are unchanged |
| KarmaPlugin.Plugin.ReadFile | index.js:174-182 | idle: reads at once, delivers the specified read result and stays idle; building: no read, one retry of the same request appended to the queue |
| KarmaPlugin.Plugin.RunNextTick | index.js:181 | the oldest scheduled retry re-issues its `readFile` against the current store; with nothing scheduled nothing changes |
| KarmaPlugin.Plugin.MakeVisit | index.js:132-146 | one turn over the snapshot's `i`-th file moves the kept/unvisited boundary, the entries and the invalidation count from position `i` to `i + 1` |
| KarmaPlugin.Plugin.Make | index.js:129-150 | the list becomes the snapshot without the ENOENT files, in order, still duplicate-free; one entry per snapshot file is added; one invalidation per dropped file, so the invalidation count grows by exactly how much the list shrank |
| KarmaPlugin.Plugin.Preprocess | index.js:188-197 | a new file is registered and invalidates once, a known one changes nothing; then the base-relative file is read as `readFile` does |

Three lemmas are not used by other proofs: Aggregate.InterleaveSnoc, OutputOptions.ReadsLandInOutputPath and
KarmaPlugin.ReadFindsEntryBundle. They are kept as statements of the design for a reader:
- InterleaveSnoc: the reference join grows exactly as the reducer's `push` does.
- ReadsLandInOutputPath: reads look where webpack writes, in `output.path`.
- ReadFindsEntryBundle: the preprocessor reads the bundle named after the entry the make pass added.

## Left out

- Building webpack and webpack-dev-middleware and registering the compiler hooks (index.js:55-62, 98): these are
  calls into libraries this model does not include. The hooks are the methods `OnInvalid`, `Make` and `OnDone`.
  The `this-compilation` dependency-factory setup is not modelled.
- The middleware's `publicPath` option (index.js:97), the custom file handler with its 404 fallback
  (index.js:100-108) and `middleware.close()` on exit (index.js:110-114): these are HTTP and lifecycle wiring.
- Logging, and the preprocessor's `throw err` and `done(err, content.toString())` (index.js:189-204): the read
  result is recorded in `deliveries` instead.
- Scheduling: `process.nextTick` is the `scheduled` queue, and the event loop's turns are `RunNextTick` calls.
  `async.forEach` and `async.times` run sequentially in index order. The make pass's completion callback is not
  modelled.
- KarmaPlugin.Plugin.Make: a make pass is one atomic step. In the code each `addEntry` callback runs only after
  its module is built, so `addFile`, `readFile`, `done` or another compiler's `make` may run between the
  snapshot (`this.files.slice()`) and the filter. The filter then acts on the live `this.files`. `make` is
  registered on every child compiler, so with N configurations N passes may overlap. Each snapshot then still
  holds an ENOENT file, which gets N entries and N `invalidate()` calls. Successive `Make` calls in the model
  drop the file on the first call and invalidate once.
- `stats.toJson()` is reduced to one asset count per member compilation. The `assets` list the handler collects,
  and never uses, is not modelled.
- `path.relative(basePath, ·)` is an arbitrary function given to the constructor. `require.resolve` of the mocha
  loader is an arbitrary string. The preprocessor uses the same base path as the plugin.
- The ENOENT test on the entry's module error is a set of file names given to `Make`. The compiler's reaction
  to `middleware.invalidate()`, its next `invalid` event, is a separate `OnInvalid` call.
- The output store is a map from path to bytes. A missing path is its only read error. With several
  configurations the store answers each read at once, so the first failing index in index order decides the
  error.
- `_.clone` and object identity: configurations are values in an array rewritten in place. The model does not
  capture one configuration object appearing twice in the array, or being shared with the caller. A
  non-array configuration is the one-element array. An array with no configurations is allowed and reads in
  single mode, as the code does.
- Callbacks are identified by a number. `Buffer` is a sequence of bytes.
