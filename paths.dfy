/**
 * The virtual paths of the in-memory output store: the fixed `/_karma_webpack_/`
 * namespace, the per-configuration index segment, and the backslash
 * normalisation applied to entry names and read paths.
 */
module Paths {

  /** The common prefix of every output root. */
  const Namespace: string := "/_karma_webpack_/"

  predicate IsDigit(c: char) {
    '0' <= c <= '9'
  }

  /** Decimal rendering of a configuration index, as JavaScript's `index + "/"` produces it. */
  function NatToString(n: nat): (s: string)
    ensures |s| >= 1
    ensures forall k :: 0 <= k < |s| ==> IsDigit(s[k])
    ensures n < 10 <==> |s| == 1
    decreases n
  {
    if n < 10 then [Digit(n)] else NatToString(n / 10) + [Digit(n % 10)]
  }

  function Digit(d: nat): (c: char)
    requires d < 10
    ensures IsDigit(c)
  {
    ['0', '1', '2', '3', '4', '5', '6', '7', '8', '9'][d]
  }

  /** The number a decimal digit character stands for. */
  function DigitValue(c: char): (d: int)
    requires IsDigit(c)
    ensures 0 <= d < 10
  {
    c as int - '0' as int
  }

  /** The number a string of decimal digits spells, most significant digit first. */
  function DigitsValue(s: string): (v: nat)
    requires forall k :: 0 <= k < |s| ==> IsDigit(s[k])
    decreases |s|
  {
    if s == [] then 0 else DigitsValue(s[..|s| - 1]) * 10 + DigitValue(s[|s| - 1])
  }

  lemma DigitRoundTrip(d: nat)
    requires d < 10
    ensures DigitValue(Digit(d)) == d
  {
  }

  /** The rendered index spells the index itself in decimal. */
  lemma {:induction false} NatToStringValue(n: nat)
    ensures DigitsValue(NatToString(n)) == n
    decreases n
  {
    var s := NatToString(n);
    DigitRoundTrip(n % 10);
    if n < 10 {
      assert s[..|s| - 1] == [];
    } else {
      assert s[..|s| - 1] == NatToString(n / 10);
      NatToStringValue(n / 10);
    }
  }

  lemma DigitInjective(a: nat, b: nat)
    requires a < 10 && b < 10
    ensures Digit(a) == Digit(b) ==> a == b
  {
  }

  /** Different indices never render to the same text. */
  lemma {:induction false} NatToStringInjective(a: nat, b: nat)
    ensures NatToString(a) == NatToString(b) ==> a == b
    decreases a
  {
    var sa, sb := NatToString(a), NatToString(b);
    if sa == sb {
      if a < 10 || b < 10 {
        DigitInjective(a, b);
      } else {
        assert sa[|sa| - 1] == Digit(a % 10) && sb[|sb| - 1] == Digit(b % 10);
        DigitInjective(a % 10, b % 10);
        assert sa[..|sa| - 1] == NatToString(a / 10);
        assert sb[..|sb| - 1] == NatToString(b / 10);
        NatToStringInjective(a / 10, b / 10);
      }
    }
  }

  /** `p.replace(/\\/g, "/")`: every backslash becomes a forward slash. */
  function Normalize(p: string): (r: string)
    ensures |r| == |p|
    ensures forall k :: 0 <= k < |p| ==> r[k] == (if p[k] == '\\' then '/' else p[k])
  {
    if p == [] then [] else [if p[0] == '\\' then '/' else p[0]] + Normalize(p[1..])
  }

  /** A normalised path holds no backslash, and normalising it again changes nothing. */
  lemma NormalizeIdempotent(p: string)
    ensures '\\' !in Normalize(p)
    ensures Normalize(Normalize(p)) == Normalize(p)
  {
    var r := Normalize(p);
    assert forall k :: 0 <= k < |r| ==> r[k] != '\\';
  }

  /** The `index + "/"` segment, present only when there is more than one configuration. */
  function IndexSegment(index: nat, includeIndex: bool): (r: string)
    ensures includeIndex <==> r != []
    ensures includeIndex ==> r == NatToString(index) + "/"
  {
    if includeIndex then NatToString(index) + "/" else ""
  }

  /** `output.path` of configuration `index`. */
  function OutputPath(index: nat, includeIndex: bool): (r: string)
    ensures |r| >= |Namespace| + (if includeIndex then 2 else 0)
    ensures r[..|Namespace|] == Namespace
    ensures r[|r| - 1] == '/'
    ensures !includeIndex ==> r == Namespace
    ensures includeIndex ==> r[|Namespace|..|r| - 1] == NatToString(index)
  {
    Namespace + IndexSegment(index, includeIndex)
  }

  /** `output.publicPath` of configuration `index`: the output path followed by one more `/`. */
  function PublicPath(index: nat, includeIndex: bool): (r: string)
    ensures r == OutputPath(index, includeIndex) + "/"
  {
    Namespace + IndexSegment(index, includeIndex) + "/"
  }

  /** The path read in single-configuration mode. */
  function SinglePath(file: string): (r: string)
    ensures |r| == |Namespace| + |file|
    ensures r[..|Namespace|] == Namespace && r[|Namespace|..] == Normalize(file)
    ensures '\\' !in r[|Namespace|..]
  {
    NormalizeIdempotent(file);
    Namespace + Normalize(file)
  }

  /** The path read from configuration `idx` in multi-configuration mode. */
  function IndexedPath(idx: nat, file: string): (r: string)
    ensures |r| > |Namespace| + |file|
    ensures '\\' !in r[|Namespace|..]
  {
    NormalizeIdempotent(file);
    NatToStringNoBackslash(idx);
    Namespace + NatToString(idx) + "/" + Normalize(file)
  }

  lemma NatToStringNoBackslash(n: nat)
    ensures '\\' !in NatToString(n)
  {
    var s := NatToString(n);
    assert forall k :: 0 <= k < |s| ==> IsDigit(s[k]);
  }

  /**
   * A read lands in the directory its configuration writes to: the read path
   * is that configuration's `output.path` followed by the normalised file.
   */
  lemma ReadPathsUnderOutputPath(idx: nat, file: string)
    ensures IndexedPath(idx, file) == OutputPath(idx, true) + Normalize(file)
    ensures SinglePath(file) == OutputPath(idx, false) + Normalize(file)
  {
  }

  /** A run of digits followed by `/` is recovered unambiguously from the text it starts. */
  lemma DigitsThenSlash(a: string, x: string, b: string, y: string)
    requires forall k :: 0 <= k < |a| ==> IsDigit(a[k])
    requires forall k :: 0 <= k < |b| ==> IsDigit(b[k])
    requires a + "/" + x == b + "/" + y
    ensures a == b && x == y
  {
    var s, t := a + "/" + x, b + "/" + y;
    assert s[|a|] == '/' && t[|b|] == '/';
    assert forall k :: 0 <= k < |a| ==> s[k] != '/';
    assert forall k :: 0 <= k < |b| ==> t[k] != '/';
    assert |a| == |b|;
    assert a == s[..|a|] && b == t[..|b|];
    assert x == s[|a| + 1..] && y == t[|b| + 1..];
  }

  /**
   * The output roots never collide: a multi-configuration read path determines
   * both the configuration index and the normalised file it was built from.
   */
  lemma IndexedPathInjective(i: nat, f: string, j: nat, g: string)
    ensures IndexedPath(i, f) == IndexedPath(j, g) ==> i == j && Normalize(f) == Normalize(g)
  {
    var p, q := IndexedPath(i, f), IndexedPath(j, g);
    if p == q {
      var di, dj, nf, ng := NatToString(i), NatToString(j), Normalize(f), Normalize(g);
      assert p[|Namespace|..] == di + "/" + nf;
      assert q[|Namespace|..] == dj + "/" + ng;
      DigitsThenSlash(di, nf, dj, ng);
      NatToStringInjective(i, j);
    }
  }

  /** Two different configurations never share an output root. */
  lemma OutputPathsDistinct(i: nat, j: nat)
    requires i != j
    ensures OutputPath(i, true) != OutputPath(j, true)
  {
    ReadPathsUnderOutputPath(i, "");
    ReadPathsUnderOutputPath(j, "");
    assert IndexedPath(i, "") == OutputPath(i, true);
    assert IndexedPath(j, "") == OutputPath(j, true);
    if OutputPath(i, true) == OutputPath(j, true) {
      IndexedPathInjective(i, "", j, "");
      assert false;
    }
  }
}
