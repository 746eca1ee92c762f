/**
 * Reading a compiled file back from the in-memory output store (`doRead`):
 * one read in single-configuration mode, and one read per configuration,
 * first error wins, newline-joined on success, in multi-configuration mode.
 */
module VirtualRead {
  import opened Wrappers
  import opened Aggregate
  import opened Paths

  /** The store's `readFile` error; a path with no artifact is the only failure it reports. */
  datatype ReadError = NotFound(path: string)

  /** The middleware's in-memory file system: the artifacts of the most recent builds. */
  type Store = map<string, Buffer>

  /** `fileSystem.readFile(path, callback)`. */
  function ReadAt(fs: Store, path: string): (r: Result<Buffer, ReadError>)
    ensures r.Success? <==> path in fs
    ensures r.Success? ==> r.value == fs[path]
    ensures r.Failure? ==> r.error == NotFound(path)
  {
    if path in fs then Success(fs[path]) else Failure(NotFound(path))
  }

  /** The `optionsCount` paths `async.times` reads, in index order. */
  function IndexedPaths(n: nat, file: string): (ps: seq<string>)
    ensures |ps| == n
    ensures forall i :: 0 <= i < n ==> ps[i] == IndexedPath(i, file)
  {
    seq(n, i requires 0 <= i < n => IndexedPath(i, file))
  }

  /** Reading `paths` one after another; the first failing read decides the outcome. */
  function ReadAll(fs: Store, paths: seq<string>): (r: Result<seq<Buffer>, ReadError>)
    ensures r.Success? ==> |r.value| == |paths|
    ensures r.Failure? ==> r.error.path in paths && r.error.path !in fs
    decreases |paths|
  {
    if paths == [] then Success([])
    else match ReadAll(fs, paths[..|paths| - 1])
      case Failure(e) => Failure(e)
      case Success(bs) =>
        match ReadAt(fs, paths[|paths| - 1])
        case Failure(e) => Failure(e)
        case Success(b) => Success(bs + [b])
  }

  /** What `doRead` hands its callback for `file` with `optionsCount` configurations. */
  function ReadResult(fs: Store, optionsCount: nat, file: string): (r: Result<Buffer, ReadError>)
    ensures r.Failure? ==> r.error.path !in fs
    ensures r.Failure? && optionsCount <= 1 ==> r.error.path == SinglePath(file)
    ensures r.Failure? && optionsCount > 1 ==> r.error.path in IndexedPaths(optionsCount, file)
  {
    if optionsCount > 1 then
      match ReadAll(fs, IndexedPaths(optionsCount, file))
      case Failure(e) => Failure(e)
      case Success(cs) => Success(Joined(cs))
    else
      ReadAt(fs, SinglePath(file))
  }

  /** Index of the first path the store does not hold. */
  ghost predicate FirstMissing(fs: Store, paths: seq<string>, k: nat) {
    k < |paths| && paths[k] !in fs && forall j :: 0 <= j < k ==> paths[j] in fs
  }

  /**
   * ReadAll succeeds exactly when every path is present, and then returns the
   * stored buffers in order; otherwise it reports the first missing path.
   */
  lemma {:induction false} ReadAllMeaning(fs: Store, paths: seq<string>)
    ensures ReadAll(fs, paths).Success? <==> forall i :: 0 <= i < |paths| ==> paths[i] in fs
    ensures ReadAll(fs, paths).Success? ==>
      forall i :: 0 <= i < |paths| ==> ReadAll(fs, paths).value[i] == fs[paths[i]]
    ensures ReadAll(fs, paths).Failure? ==>
      exists k: nat :: FirstMissing(fs, paths, k) && ReadAll(fs, paths).error == NotFound(paths[k])
    decreases |paths|
  {
    if paths != [] {
      var init := paths[..|paths| - 1];
      ReadAllMeaning(fs, init);
      assert forall i :: 0 <= i < |init| ==> init[i] == paths[i];
      if ReadAll(fs, init).Failure? {
        var k: nat :| FirstMissing(fs, init, k) && ReadAll(fs, init).error == NotFound(init[k]);
        assert FirstMissing(fs, paths, k);
      } else if paths[|paths| - 1] !in fs {
        assert FirstMissing(fs, paths, |paths| - 1);
      }
    }
  }

  /** Once a prefix of the reads has failed, the remaining reads do not change the outcome. */
  lemma {:induction false} ReadAllFailsEarly(fs: Store, paths: seq<string>, k: nat)
    requires k <= |paths|
    requires ReadAll(fs, paths[..k]).Failure?
    ensures ReadAll(fs, paths) == ReadAll(fs, paths[..k])
    decreases |paths| - k
  {
    if k < |paths| {
      var longer := paths[..k + 1];
      assert longer[..|longer| - 1] == paths[..k];
      ReadAllFailsEarly(fs, paths, k + 1);
    } else {
      assert paths[..k] == paths;
    }
  }

  /**
   * A multi-configuration read succeeds exactly when every configuration holds
   * the file, and then delivers each configuration's buffer, in index order,
   * separated by single newlines; its length is the sum of the contents plus
   * one byte per gap.
   */
  lemma AggregatedReadSucceeds(fs: Store, n: nat, file: string)
    requires n > 1
    ensures ReadResult(fs, n, file).Success? <==> forall i :: 0 <= i < n ==> IndexedPath(i, file) in fs
    ensures ReadResult(fs, n, file).Success? ==>
      var cs := seq(n, i requires 0 <= i < n && IndexedPath(i, file) in fs => fs[IndexedPath(i, file)]);
      ReadResult(fs, n, file).value == Interleave(cs) &&
      |ReadResult(fs, n, file).value| == TotalLength(cs) + n - 1
  {
    var ps := IndexedPaths(n, file);
    ReadAllMeaning(fs, ps);
    if ReadAll(fs, ps).Success? {
      var cs := ReadAll(fs, ps).value;
      assert cs == seq(n, i requires 0 <= i < n && IndexedPath(i, file) in fs => fs[IndexedPath(i, file)]);
      JoinedIsInterleave(cs);
      JoinedLength(cs);
    }
  }

  /**
   * A multi-configuration read with any configuration missing the file fails
   * with the error of the first such configuration and delivers no content.
   */
  lemma AggregatedReadFails(fs: Store, n: nat, file: string)
    requires n > 1
    ensures ReadResult(fs, n, file).Failure? ==>
      exists k :: 0 <= k < n && IndexedPath(k, file) !in fs &&
        (forall j :: 0 <= j < k ==> IndexedPath(j, file) in fs) &&
        ReadResult(fs, n, file) == Failure(NotFound(IndexedPath(k, file)))
  {
    var ps := IndexedPaths(n, file);
    ReadAllMeaning(fs, ps);
    if ReadAll(fs, ps).Failure? {
      var k: nat :| FirstMissing(fs, ps, k) && ReadAll(fs, ps).error == NotFound(ps[k]);
      assert 0 <= k < n && IndexedPath(k, file) !in fs;
    }
  }

  /** A single-configuration read is one read of `/_karma_webpack_/<file>`. */
  lemma SingleRead(fs: Store, n: nat, file: string)
    requires n <= 1
    ensures ReadResult(fs, n, file).Success? <==> SinglePath(file) in fs
    ensures SinglePath(file) in fs ==> ReadResult(fs, n, file) == Success(fs[SinglePath(file)])
    ensures SinglePath(file) !in fs ==> ReadResult(fs, n, file) == Failure(NotFound(SinglePath(file)))
  {
  }

  /** One more read after a successful prefix: its outcome extends or ends the prefix's. */
  lemma ReadAllStep(fs: Store, ps: seq<string>, i: nat, contents: seq<Buffer>)
    requires i < |ps| && ReadAll(fs, ps[..i]) == Success(contents)
    ensures ReadAt(fs, ps[i]).Success? ==> ReadAll(fs, ps[..i + 1]) == Success(contents + [ReadAt(fs, ps[i]).value])
    ensures ReadAt(fs, ps[i]).Failure? ==> ReadAll(fs, ps[..i + 1]) == Failure(ReadAt(fs, ps[i]).error)
  {
    assert ps[..i + 1][..i] == ps[..i];
  }

  /**
   * `doRead`: the `async.times` loop over the configurations, taken in index
   * order, followed by the newline join.
   */
  method DoRead(fs: Store, optionsCount: nat, file: string) returns (r: Result<Buffer, ReadError>)
    ensures r == ReadResult(fs, optionsCount, file)
  {
    if optionsCount <= 1 {
      return ReadAt(fs, SinglePath(file));
    }
    ghost var ps := IndexedPaths(optionsCount, file);
    var contents: seq<Buffer> := [];
    var idx := 0;
    while idx < optionsCount
      invariant 0 <= idx <= optionsCount
      invariant ReadAll(fs, ps[..idx]) == Success(contents)
    {
      var one := ReadAt(fs, IndexedPath(idx, file));
      ReadAllStep(fs, ps, idx, contents);
      if one.Failure? {
        ReadAllFailsEarly(fs, ps, idx + 1);
        return Failure(one.error);
      }
      contents := contents + [one.value];
      idx := idx + 1;
    }
    assert ps[..idx] == ps;
    r := Success(Joined(contents));
  }
}
