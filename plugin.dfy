/**
 * The karma-webpack plugin object: the entry registry, the build/wait-queue
 * state machine driven by the compiler's `invalid` and `done` events, the
 * make pass, reads that either run at once or wait for the next good build,
 * and the preprocessor step that registers a file and reads its bundle.
 */
module KarmaPlugin {
  import opened Wrappers
  import opened Paths
  import opened Aggregate
  import opened VirtualRead
  import opened Entries
  import opened OutputOptions

  /** One read request: the base-relative file and the callback waiting for it. */
  datatype Request = Request(file: string, callback: nat)

  /** A read that ran: the request and what its callback received. */
  datatype Delivery = Delivery(request: Request, result: Result<Buffer, ReadError>)

  /** Some member compilation of the finished build emitted no asset. */
  predicate AnyEmpty(assetCounts: seq<nat>) {
    exists i :: 0 <= i < |assetCounts| && assetCounts[i] == 0
  }

  /** The `applyStats.forEach` loop of the `done` handler, computing `noAssets`. */
  method NoAssets(assetCounts: seq<nat>) returns (noAssets: bool)
    ensures noAssets == AnyEmpty(assetCounts)
  {
    noAssets := false;
    for i := 0 to |assetCounts|
      invariant noAssets <==> exists j :: 0 <= j < i && assetCounts[j] == 0
    {
      if assetCounts[i] == 0 {
        noAssets := true;
      }
    }
  }

  /**
   * The files the preprocessor reads are found where the make pass has the
   * compiler write them: with the `[name]` filename template, the bundle of
   * `path` lands at the configuration's output path followed by its entry
   * name, which is exactly the path read for `path`.
   */
  lemma ReadFindsEntryBundle(relative: string -> string, wrap: bool, loader: string, path: string, index: nat)
    ensures IndexedPath(index, relative(path)) == OutputPath(index, true) + EntryFor(relative, wrap, loader, path).name
    ensures SinglePath(relative(path)) == OutputPath(index, false) + EntryFor(relative, wrap, loader, path).name
  {
    ReadPathsUnderOutputPath(index, relative(path));
  }

  class Plugin {
    /** `applyOptions.length`, the number of webpack configurations. */
    const optionsCount: nat
    /** Entries are wrapped in the mocha environment loader. */
    const wrapMocha: bool
    /** `require.resolve("./mocha-env-loader")`. */
    const loaderPath: string
    /** `path.relative(basePath, ·)`. */
    const relative: string -> string

    /** The registered test files, in registration order. */
    var files: seq<string>
    /** `None` when idle; the queued retries while a build is running. */
    var waiting: Option<seq<Request>>
    /** Retries handed to `process.nextTick` that have not run yet, oldest first. */
    var scheduled: seq<Request>

    /** Calls of `fileList.refresh()`. */
    ghost var refreshes: nat
    /** Calls of `middleware.invalidate()`. */
    ghost var invalidations: nat
    /** Reads that ran, in order, with what each callback received. */
    ghost var deliveries: seq<Delivery>
    /** Queued thunks that ran, in order. */
    ghost var fired: seq<Request>
    /** Entries added to compilations by make passes, in order. */
    ghost var entries: seq<Entry>

    ghost predicate Valid()
      reads this
    {
      NoDuplicates(files) && (wrapMocha ==> optionsCount > 1)
    }

    /**
     * Rewrites the configurations' options, then starts in the building
     * state: no files and an empty wait queue.
     */
    constructor (configs: array<WebpackConfig>, frameworks: seq<string>, loaderPath: string, relative: string -> string)
      modifies configs
      ensures Valid()
      ensures forall i :: 0 <= i < configs.Length ==> configs[i] == Rewrite(old(configs[i]), i, configs.Length > 1)
      ensures optionsCount == configs.Length
      ensures wrapMocha == ("mocha" in frameworks && configs.Length > 1)
      ensures this.loaderPath == loaderPath && this.relative == relative
      ensures files == [] && waiting == Some([]) && scheduled == []
      ensures refreshes == 0 && invalidations == 0 && deliveries == [] && fired == [] && entries == []
    {
      ApplyOptions(configs);
      optionsCount := configs.Length;
      wrapMocha := "mocha" in frameworks && configs.Length > 1;
      this.loaderPath := loaderPath;
      this.relative := relative;
      files := [];
      waiting := Some([]);
      scheduled := [];
      refreshes, invalidations := 0, 0;
      deliveries, fired, entries := [], [], [];
    }

    /** `notifyKarmaAboutChanges`: one call of `fileList.refresh()`. */
    method NotifyKarmaAboutChanges()
      modifies this`refreshes
      ensures refreshes == old(refreshes) + 1
    {
      refreshes := refreshes + 1;
    }

    /** `middleware.invalidate()`: recorded, the compiler's reaction arrives as `OnInvalid`. */
    method Invalidate()
      modifies this`invalidations
      ensures invalidations == old(invalidations) + 1
    {
      invalidations := invalidations + 1;
    }

    /** `addFile`: appends an unseen file and reports that it was new. */
    method AddFile(entry: string) returns (added: bool)
      requires Valid()
      modifies this`files
      ensures Valid()
      ensures added <==> entry !in old(files)
      ensures added ==> files == old(files) + [entry]
      ensures !added ==> files == old(files)
      ensures entry in files
    {
      if entry in files {
        return false;
      }
      AppendNoDuplicates(files, entry);
      files := files + [entry];
      added := true;
    }

    /** The `invalid` handler: opens a wait queue unless one is already open. */
    method OnInvalid()
      modifies this`waiting
      ensures old(waiting).None? ==> waiting == Some([])
      ensures old(waiting).Some? ==> waiting == old(waiting)
    {
      if waiting.None? {
        waiting := Some([]);
      }
    }

    /** One queued thunk: it hands the retry of its read to `process.nextTick`. */
    method RunThunk(r: Request)
      modifies this`scheduled, this`fired
      ensures scheduled == old(scheduled) + [r]
      ensures fired == old(fired) + [r]
    {
      scheduled := scheduled + [r];
      fired := fired + [r];
    }

    /**
     * The `done` handler. `assetCounts` holds the number of assets of each
     * member compilation. Karma is notified when nobody is waiting; the queue
     * is drained, in order and after `waiting` is reset, only when a queue is
     * open and every member produced assets.
     */
    method OnDone(assetCounts: seq<nat>)
      modifies this`waiting, this`refreshes, this`scheduled, this`fired
      ensures refreshes == old(refreshes) + (if old(waiting).None? || old(waiting).value == [] then 1 else 0)
      ensures old(waiting).Some? && !AnyEmpty(assetCounts) ==>
        waiting == None && fired == old(fired) + old(waiting).value && scheduled == old(scheduled) + old(waiting).value
      ensures old(waiting).None? || AnyEmpty(assetCounts) ==>
        waiting == old(waiting) && fired == old(fired) && scheduled == old(scheduled)
    {
      var noAssets := NoAssets(assetCounts);
      if waiting.None? || waiting.value == [] {
        NotifyKarmaAboutChanges();
      }
      if waiting.Some? && !noAssets {
        var w := waiting.value;
        waiting := None;
        for k := 0 to |w|
          invariant waiting == None
          invariant refreshes == old(refreshes) + (if old(waiting).value == [] then 1 else 0)
          invariant fired == old(fired) + w[..k]
          invariant scheduled == old(scheduled) + w[..k]
        {
          assert w[..k + 1] == w[..k] + [w[k]];
          RunThunk(w[k]);
        }
        assert w[..|w|] == w;
      }
    }

    /** `readFile`: reads now when idle, otherwise queues one retry of the same request. */
    method ReadFile(file: string, callback: nat, fs: Store)
      modifies this`waiting, this`deliveries
      ensures old(waiting).None? ==>
        waiting == None &&
        deliveries == old(deliveries) + [Delivery(Request(file, callback), ReadResult(fs, optionsCount, file))]
      ensures old(waiting).Some? ==>
        waiting == Some(old(waiting).value + [Request(file, callback)]) && deliveries == old(deliveries)
    {
      if waiting.None? {
        var result := DoRead(fs, optionsCount, file);
        deliveries := deliveries + [Delivery(Request(file, callback), result)];
      } else {
        waiting := Some(waiting.value + [Request(file, callback)]);
      }
    }

    /**
     * The event loop running the oldest retry handed to `process.nextTick`:
     * it calls `readFile` again, against the store as it is now.
     */
    method RunNextTick(fs: Store) returns (ran: bool)
      modifies this`scheduled, this`waiting, this`deliveries
      ensures ran <==> old(scheduled) != []
      ensures !ran ==> scheduled == old(scheduled) && waiting == old(waiting) && deliveries == old(deliveries)
      ensures ran ==> scheduled == old(scheduled)[1..]
      ensures ran && old(waiting).None? ==>
        var r := old(scheduled)[0];
        waiting == None &&
        deliveries == old(deliveries) + [Delivery(r, ReadResult(fs, optionsCount, r.file))]
      ensures ran && old(waiting).Some? ==>
        waiting == Some(old(waiting).value + [old(scheduled)[0]]) && deliveries == old(deliveries)
    {
      if scheduled == [] {
        return false;
      }
      var r := scheduled[0];
      scheduled := scheduled[1..];
      ReadFile(r.file, r.callback, fs);
      ran := true;
    }

    /**
     * One turn of the make pass over `snapshot[i]`: its entry is added, and
     * the file is dropped and the middleware invalidated when it is missing.
     */
    method MakeVisit(snapshot: seq<string>, notFound: set<string>, i: nat, ghost entries0: seq<Entry>, ghost invalidations0: nat)
      requires NoDuplicates(snapshot) && i < |snapshot|
      requires files == Keep(snapshot[..i], notFound) + snapshot[i..]
      requires entries == entries0 + EntriesFor(relative, wrapMocha, loaderPath, snapshot[..i])
      requires invalidations == invalidations0 + CountIn(snapshot[..i], notFound)
      modifies this`files, this`invalidations, this`entries
      ensures files == Keep(snapshot[..i + 1], notFound) + snapshot[i + 1..]
      ensures entries == entries0 + EntriesFor(relative, wrapMocha, loaderPath, snapshot[..i + 1])
      ensures invalidations == invalidations0 + CountIn(snapshot[..i + 1], notFound)
    {
      var file := snapshot[i];
      var entry := EntryFor(relative, wrapMocha, loaderPath, file);
      EntriesForStep(relative, wrapMocha, loaderPath, snapshot, i);
      CountInStep(snapshot, notFound, i);
      entries := entries + [entry];
      if file in notFound {
        MakeStepDrop(snapshot, notFound, i);
        files := Without(files, file);
        Invalidate();
      } else {
        MakeStepKeep(snapshot, notFound, i);
      }
    }

    /**
     * `make`: walks a snapshot of the files, adds one entry per file, and
     * drops each file whose module failed with ENOENT (`notFound`),
     * invalidating the middleware once per dropped file.
     */
    method Make(notFound: set<string>)
      requires Valid()
      modifies this`files, this`invalidations, this`entries
      ensures Valid()
      ensures files == Keep(old(files), notFound)
      ensures entries == old(entries) + EntriesFor(relative, wrapMocha, loaderPath, old(files))
      ensures invalidations == old(invalidations) + CountIn(old(files), notFound)
      ensures invalidations == old(invalidations) + (|old(files)| - |files|)
    {
      var snapshot := files;
      ghost var entries0, invalidations0 := entries, invalidations;
      assert NoDuplicates(snapshot);
      assert entries == entries0 + EntriesFor(relative, wrapMocha, loaderPath, snapshot[..0]);
      for i := 0 to |snapshot|
        invariant files == Keep(snapshot[..i], notFound) + snapshot[i..]
        invariant entries == entries0 + EntriesFor(relative, wrapMocha, loaderPath, snapshot[..i])
        invariant invalidations == invalidations0 + CountIn(snapshot[..i], notFound)
      {
        MakeVisit(snapshot, notFound, i, entries0, invalidations0);
      }
      assert snapshot[..|snapshot|] == snapshot;
      KeepNoDuplicates(snapshot, notFound);
      CountKeep(snapshot, notFound);
    }

    /**
     * The preprocessor: registers the file, invalidates the middleware when
     * it is new, and reads its bundle through `readFile`.
     */
    method Preprocess(path: string, callback: nat, fs: Store)
      requires Valid()
      modifies this`files, this`invalidations, this`waiting, this`deliveries
      ensures Valid()
      ensures path !in old(files) ==> files == old(files) + [path] && invalidations == old(invalidations) + 1
      ensures path in old(files) ==> files == old(files) && invalidations == old(invalidations)
      ensures old(waiting).None? ==>
        waiting == None &&
        deliveries == old(deliveries) + [Delivery(Request(relative(path), callback), ReadResult(fs, optionsCount, relative(path)))]
      ensures old(waiting).Some? ==>
        waiting == Some(old(waiting).value + [Request(relative(path), callback)]) && deliveries == old(deliveries)
    {
      var isNew := AddFile(path);
      if isNew {
        Invalidate();
      }
      ReadFile(relative(path), callback, fs);
    }
  }
}
