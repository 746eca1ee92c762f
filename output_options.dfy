/**
 * The rewriting of each webpack configuration's options before the compiler
 * is built: watch mode is forced on, and the output options point into the
 * `/_karma_webpack_/` namespace, with an index segment and a per-index JSONP
 * function name only when there is more than one configuration.
 */
module OutputOptions {
  import opened Wrappers
  import opened Paths

  /** A configuration's `output` object: the options rewritten here, and the rest. */
  datatype Output = Output(
    path: Option<string>,
    publicPath: Option<string>,
    filename: Option<string>,
    chunkFilename: Option<string>,
    jsonpFunction: Option<string>,
    other: map<string, string>)

  /** One webpack configuration: `watch`, `output`, and every other option. */
  datatype WebpackConfig = WebpackConfig(watch: Option<bool>, output: Option<Output>, other: map<string, string>)

  /** The `{}` put in place of a missing `output`. */
  const EmptyOutput := Output(None, None, None, None, None, map[])

  /** The `[name]` template: each bundle is written under its entry's name. */
  const NameTemplate := "[name]"

  const ChunkTemplate := "[id].chunk.js"

  /** `"webpackJsonp" + index`. */
  function JsonpName(index: nat): (r: string)
    ensures |r| > |"webpackJsonp"| && r[..|"webpackJsonp"|] == "webpackJsonp"
    ensures forall k :: |"webpackJsonp"| <= k < |r| ==> IsDigit(r[k])
    ensures DigitsValue(r[|"webpackJsonp"|..]) == index
  {
    NatToStringValue(index);
    assert ("webpackJsonp" + NatToString(index))[|"webpackJsonp"|..] == NatToString(index);
    "webpackJsonp" + NatToString(index)
  }

  /** The body of the options loop for the configuration at `index`. */
  function Rewrite(c: WebpackConfig, index: nat, includeIndex: bool): (r: WebpackConfig)
    ensures r.watch == Some(true)
    ensures r.other == c.other
    ensures r.output.Some?
    ensures r.output.value.path == Some(OutputPath(index, includeIndex))
    ensures r.output.value.publicPath == Some(OutputPath(index, includeIndex) + "/")
    ensures r.output.value.filename == Some(NameTemplate)
    ensures r.output.value.chunkFilename == Some(ChunkTemplate)
    ensures includeIndex ==> r.output.value.jsonpFunction == Some(JsonpName(index))
    ensures !includeIndex ==> c.output.Some? ==> r.output.value.jsonpFunction == c.output.value.jsonpFunction
    ensures !includeIndex ==> c.output.None? ==> r.output.value.jsonpFunction == None
    ensures r.output.value.other == if c.output.Some? then c.output.value.other else map[]
  {
    var out := if c.output.Some? then c.output.value else EmptyOutput;
    var out' := out.(
      path := Some(OutputPath(index, includeIndex)),
      publicPath := Some(PublicPath(index, includeIndex)),
      filename := Some(NameTemplate),
      jsonpFunction := if includeIndex then Some(JsonpName(index)) else out.jsonpFunction,
      chunkFilename := Some(ChunkTemplate));
    c.(watch := Some(true), output := Some(out'))
  }

  lemma JsonpNameInjective(i: nat, j: nat)
    ensures JsonpName(i) == JsonpName(j) ==> i == j
  {
    var p := "webpackJsonp";
    if JsonpName(i) == JsonpName(j) {
      assert NatToString(i) == JsonpName(i)[|p|..];
      assert NatToString(j) == JsonpName(j)[|p|..];
      NatToStringInjective(i, j);
    }
  }

  lemma AppendSlashInjective(a: string, b: string)
    ensures a + "/" == b + "/" ==> a == b
  {
    if a + "/" == b + "/" {
      assert a == (a + "/")[..|a|];
      assert b == (b + "/")[..|b|];
    }
  }

  /**
   * With more than one configuration, two different indices get different
   * output paths, public paths and JSONP function names.
   */
  lemma RewriteSeparatesConfigs(c: WebpackConfig, d: WebpackConfig, i: nat, j: nat)
    requires i != j
    ensures Rewrite(c, i, true).output.value.path != Rewrite(d, j, true).output.value.path
    ensures Rewrite(c, i, true).output.value.publicPath != Rewrite(d, j, true).output.value.publicPath
    ensures Rewrite(c, i, true).output.value.jsonpFunction != Rewrite(d, j, true).output.value.jsonpFunction
  {
    OutputPathsDistinct(i, j);
    JsonpNameInjective(i, j);
    AppendSlashInjective(OutputPath(i, true), OutputPath(j, true));
  }

  /**
   * A read for configuration `index` looks exactly where that configuration
   * writes: its `output.path` followed by the normalised file, in both modes.
   */
  lemma ReadsLandInOutputPath(c: WebpackConfig, index: nat, count: nat, file: string)
    requires index < count
    ensures count > 1 ==> IndexedPath(index, file) == Rewrite(c, index, count > 1).output.value.path.value + Normalize(file)
    ensures count <= 1 ==> SinglePath(file) == Rewrite(c, index, count > 1).output.value.path.value + Normalize(file)
  {
    ReadPathsUnderOutputPath(index, file);
  }

  /** `applyOptions.forEach(...)`: every configuration is rewritten in place. */
  method ApplyOptions(configs: array<WebpackConfig>)
    modifies configs
    ensures forall i :: 0 <= i < configs.Length ==> configs[i] == Rewrite(old(configs[i]), i, configs.Length > 1)
    ensures forall i, j :: 0 <= i < j < configs.Length ==>
      configs[i].output.Some? && configs[j].output.Some? &&
      configs[i].output.value.path != configs[j].output.value.path
  {
    var includeIndex := configs.Length > 1;
    ghost var before := configs[..];
    for index := 0 to configs.Length
      invariant forall i :: 0 <= i < index ==> configs[i] == Rewrite(before[i], i, includeIndex)
      invariant forall i :: index <= i < configs.Length ==> configs[i] == before[i]
    {
      configs[index] := Rewrite(configs[index], index, includeIndex);
    }
    forall i, j | 0 <= i < j < configs.Length
      ensures configs[i].output.Some? && configs[j].output.Some? &&
        configs[i].output.value.path != configs[j].output.value.path
    {
      RewriteSeparatesConfigs(before[i], before[j], i, j);
    }
  }
}
