/**
 * Client scenarios: what a caller can conclude from the plugin's contracts
 * alone, for the behaviours the plugin is built around.
 */
module Scenarios {
  import opened Wrappers
  import opened Paths
  import opened Aggregate
  import opened VirtualRead
  import opened Entries
  import opened OutputOptions
  import opened KarmaPlugin

  const Blank := WebpackConfig(None, None, map[])

  method NewPlugin(count: nat) returns (p: Plugin)
    ensures fresh(p) && p.Valid()
    ensures p.optionsCount == count && !p.wrapMocha
    ensures p.files == [] && p.waiting == Some([]) && p.scheduled == []
    ensures p.refreshes == 0 && p.invalidations == 0 && p.deliveries == [] && p.fired == []
  {
    var configs := new WebpackConfig[count](_ => Blank);
    p := new Plugin(configs, ["jasmine"], "/loader.js", (f: string) => f);
  }

  /** Registering a file twice reports it as new once and keeps one copy. */
  method RegisterTwice() {
    var p := NewPlugin(1);
    var first := p.AddFile("test/a.js");
    var second := p.AddFile("test/a.js");
    assert first && !second;
    assert p.files == ["test/a.js"];
  }

  /** Reads made while building wait, and a good build releases them in order. */
  method FifoDrain(fs: Store) {
    var p := NewPlugin(1);
    var r1, r2 := Request("a.js", 1), Request("b.js", 2);
    p.ReadFile("a.js", 1, fs);
    p.ReadFile("b.js", 2, fs);
    assert p.waiting.value == [r1, r2];
    assert p.deliveries == [];
    assert [4][0] != 0;
    p.OnDone([4]);
    assert p.waiting == None && p.fired == [r1, r2] && p.refreshes == 0;
    assert p.scheduled == [r1, r2];
    var ran := p.RunNextTick(fs);
    assert p.scheduled == [r2] && p.waiting == None && p.deliveries[0].request == r1;
    ran := p.RunNextTick(fs);
    assert p.scheduled == [] && p.deliveries[1].request == r2;
  }

  /** A build where one member emitted nothing leaves the queued reads waiting. */
  method ZeroAssetsKeepQueue(fs: Store) {
    var p := NewPlugin(2);
    p.ReadFile("a.js", 7, fs);
    assert p.waiting.value == [Request("a.js", 7)];
    assert [3, 0][1] == 0;
    p.OnDone([3, 0]);
    assert p.waiting == Some([Request("a.js", 7)]) && p.fired == [] && p.refreshes == 0;
  }

  /** A build that starts again before a retry runs sends the retry back to the queue. */
  method RetrySeesNewBuild(fs: Store) {
    var p := NewPlugin(1);
    p.ReadFile("a.js", 1, fs);
    p.OnDone([1]);
    assert p.waiting == None && p.scheduled == [Request("a.js", 1)];
    p.OnInvalid();
    assert p.waiting == Some([]);
    var ran := p.RunNextTick(fs);
    assert ran && p.waiting.value == [Request("a.js", 1)] && p.deliveries == [];
  }

  /** A build nobody waits for notifies karma exactly once. */
  method UnsolicitedBuild() {
    var p := NewPlugin(1);
    p.OnDone([2]);
    assert p.refreshes == 1 && p.waiting == None;
    p.OnDone([2]);
    assert p.refreshes == 2;
  }

  /** With two configurations the same file is read from both and joined by a newline. */
  method TwoConfigurations(a: Buffer, b: Buffer) {
    IndexedPathInjective(0, "a.js", 1, "a.js");
    var fs: Store := map[IndexedPath(0, "a.js") := a, IndexedPath(1, "a.js") := b];
    var r := DoRead(fs, 2, "a.js");
    AggregatedReadSucceeds(fs, 2, "a.js");
    JoinedPair(a, b);
    assert [a, b][1..] == [b];
    assert seq(2, i requires 0 <= i < 2 && IndexedPath(i, "a.js") in fs => fs[IndexedPath(i, "a.js")]) == [a, b];
    assert r == Success(a + Newline + b);
  }

  /** A registered file that has vanished is dropped by the next make pass. */
  method MissingFileRecovery(fs: Store) {
    var p := NewPlugin(1);
    p.Preprocess("gone.js", 1, fs);
    assert p.files == ["gone.js"] && p.invalidations == 1;
    p.Make({"gone.js"});
    assert p.files == [] && p.invalidations == 2;
  }
}
