/**
 * The entry registry (`this.files`) as values: the duplicate-free list, the
 * filter the make pass applies when a file has vanished, and the entry each
 * registered file becomes in a build.
 */
module Entries {
  import opened Paths

  /** No file is registered twice. */
  ghost predicate NoDuplicates(s: seq<string>) {
    forall i, j :: 0 <= i < j < |s| ==> s[i] != s[j]
  }

  /** `files.filter(function(f) { return file !== f; })`. */
  function Without(s: seq<string>, x: string): (r: seq<string>)
    ensures |r| <= |s|
    decreases |s|
  {
    if s == [] then []
    else if s[0] == x then Without(s[1..], x)
    else [s[0]] + Without(s[1..], x)
  }

  /** The files of `s` that are not in `bad`, in their order in `s`. */
  function Keep(s: seq<string>, bad: set<string>): (r: seq<string>)
    ensures |r| <= |s|
    decreases |s|
  {
    if s == [] then []
    else if s[0] in bad then Keep(s[1..], bad)
    else [s[0]] + Keep(s[1..], bad)
  }

  /** How many members of `s` are in `bad`. */
  function CountIn(s: seq<string>, bad: set<string>): (n: nat)
    ensures n <= |s|
    decreases |s|
  {
    if s == [] then 0
    else CountIn(s[..|s| - 1], bad) + (if s[|s| - 1] in bad then 1 else 0)
  }

  /** Every file of `s` is either kept or counted as dropped, never both. */
  lemma {:induction false} CountKeep(s: seq<string>, bad: set<string>)
    ensures CountIn(s, bad) + |Keep(s, bad)| == |s|
    decreases |s|
  {
    if s != [] {
      var p, x := s[..|s| - 1], s[|s| - 1];
      assert s == p + [x];
      KeepSnoc(p, bad, x);
      CountKeep(p, bad);
    }
  }

  /** Counting one more member of `s` adds one exactly when it is in `bad`. */
  lemma CountInStep(s: seq<string>, bad: set<string>, i: nat)
    requires i < |s|
    ensures CountIn(s[..i + 1], bad) == CountIn(s[..i], bad) + (if s[i] in bad then 1 else 0)
  {
    assert s[..i + 1][..i] == s[..i];
  }

  lemma {:induction false} KeepSnoc(s: seq<string>, bad: set<string>, x: string)
    ensures Keep(s + [x], bad) == Keep(s, bad) + (if x in bad then [] else [x])
    decreases |s|
  {
    if s == [] {
      assert s + [x] == [x];
    } else {
      assert (s + [x])[1..] == s[1..] + [x];
      KeepSnoc(s[1..], bad, x);
    }
  }

  /** Filtering keeps exactly the members of the list that are not in `bad`. */
  lemma {:induction false} KeepMembers(s: seq<string>, bad: set<string>, y: string)
    ensures y in Keep(s, bad) <==> y in s && y !in bad
    decreases |s|
  {
    if s != [] {
      KeepMembers(s[1..], bad, y);
    }
  }

  /** The make pass's filter removes exactly the dropped file and keeps every other one. */
  lemma {:induction false} WithoutMembers(s: seq<string>, x: string, y: string)
    ensures y in Without(s, x) <==> y in s && y != x
    decreases |s|
  {
    if s != [] {
      WithoutMembers(s[1..], x, y);
    }
  }

  lemma {:induction false} WithoutAbsent(s: seq<string>, x: string)
    requires x !in s
    ensures Without(s, x) == s
    decreases |s|
  {
    if s != [] {
      WithoutAbsent(s[1..], x);
    }
  }

  lemma {:induction false} WithoutAppend(a: seq<string>, b: seq<string>, x: string)
    ensures Without(a + b, x) == Without(a, x) + Without(b, x)
    decreases |a|
  {
    if a == [] {
      assert a + b == b;
    } else {
      assert (a + b)[1..] == a[1..] + b;
      WithoutAppend(a[1..], b, x);
    }
  }

  /** The position of a file in a duplicate-free list is the only place it occurs. */
  lemma OccursOnlyAt(s: seq<string>, i: nat)
    requires NoDuplicates(s) && i < |s|
    ensures s[i] !in s[..i] && s[i] !in s[i + 1..]
  {
    assert forall j :: 0 <= j < i ==> s[..i][j] == s[j];
    assert forall j :: i + 1 <= j < |s| ==> s[j] != s[i];
  }

  /**
   * One step of the make pass over a duplicate-free snapshot `s`: with the
   * first `i` files processed, the list is the kept part of the processed
   * prefix followed by the unprocessed rest; dropping `s[i]` moves the
   * boundary by one.
   */
  lemma MakeStepDrop(s: seq<string>, bad: set<string>, i: nat)
    requires NoDuplicates(s) && i < |s| && s[i] in bad
    ensures Without(Keep(s[..i], bad) + s[i..], s[i]) == Keep(s[..i + 1], bad) + s[i + 1..]
  {
    OccursOnlyAt(s, i);
    var x, p, q := s[i], s[..i], s[i + 1..];
    assert s[..i + 1] == p + [x];
    assert s[i..] == [x] + q;
    MakeStepDropParts(p, x, q, bad);
  }

  lemma MakeStepDropParts(p: seq<string>, x: string, q: seq<string>, bad: set<string>)
    requires x !in p && x !in q && x in bad
    ensures Without(Keep(p, bad) + ([x] + q), x) == Keep(p + [x], bad) + q
  {
    var kept := Keep(p, bad);
    KeepMembers(p, bad, x);
    assert x !in kept;
    WithoutAbsent(kept, x);
    assert Without(kept, x) == kept;
    WithoutDropsHead(x, q);
    WithoutAppend(kept, [x] + q, x);
    assert Without(kept + ([x] + q), x) == kept + q;
    KeepSnoc(p, bad, x);
    assert Keep(p + [x], bad) == kept + [];
    assert kept + [] == kept;
  }

  lemma WithoutDropsHead(x: string, q: seq<string>)
    requires x !in q
    ensures Without([x] + q, x) == q
  {
    assert ([x] + q)[1..] == q;
    WithoutAbsent(q, x);
  }

  /** Keeping `s[i]` moves the boundary by one as well. */
  lemma MakeStepKeep(s: seq<string>, bad: set<string>, i: nat)
    requires i < |s| && s[i] !in bad
    ensures Keep(s[..i], bad) + s[i..] == Keep(s[..i + 1], bad) + s[i + 1..]
  {
    var x, p, q := s[i], s[..i], s[i + 1..];
    assert s[..i + 1] == p + [x];
    assert s[i..] == [x] + q;
    KeepSnoc(p, bad, x);
    assert Keep(p, bad) + ([x] + q) == (Keep(p, bad) + [x]) + q;
  }

  /** Filtering never introduces a duplicate. */
  lemma {:induction false} KeepNoDuplicates(s: seq<string>, bad: set<string>)
    requires NoDuplicates(s)
    ensures NoDuplicates(Keep(s, bad))
    decreases |s|
  {
    if s != [] {
      assert NoDuplicates(s[1..]) by {
        assert forall i :: 0 <= i < |s[1..]| ==> s[1..][i] == s[i + 1];
      }
      KeepNoDuplicates(s[1..], bad);
      var rest := Keep(s[1..], bad);
      KeepMembers(s[1..], bad, s[0]);
      assert s[0] !in s[1..] by {
        assert forall j :: 0 <= j < |s[1..]| ==> s[1..][j] == s[j + 1] && s[j + 1] != s[0];
      }
      if s[0] !in bad {
        var r := [s[0]] + rest;
        assert s[0] !in rest;
        forall i, j | 0 <= i < j < |r| ensures r[i] != r[j] {
          if i == 0 {
            assert r[j] == rest[j - 1];
          } else {
            assert r[i] == rest[i - 1] && r[j] == rest[j - 1];
          }
        }
      }
    }
  }

  /** Appending a file that is absent keeps the list duplicate-free. */
  lemma AppendNoDuplicates(s: seq<string>, x: string)
    requires NoDuplicates(s) && x !in s
    ensures NoDuplicates(s + [x])
  {
    var r := s + [x];
    forall i, j | 0 <= i < j < |r| ensures r[i] != r[j] {
      if j == |s| {
        assert r[i] == s[i];
      } else {
        assert r[i] == s[i] && r[j] == s[j];
      }
    }
  }

  /** An entry added to a compilation: its chunk name and the module request. */
  datatype Entry = Entry(name: string, request: string)

  /**
   * The entry the make pass adds for `file`: named by its base-relative path
   * with forward slashes, requested through the loader when `wrap` is set.
   */
  function EntryFor(relative: string -> string, wrap: bool, loader: string, file: string): (e: Entry)
    ensures '\\' !in e.name
    ensures |e.name| == |relative(file)|
    ensures forall k :: 0 <= k < |e.name| ==> relative(file)[k] != '\\' ==> e.name[k] == relative(file)[k]
    ensures forall k :: 0 <= k < |e.name| ==> relative(file)[k] == '\\' ==> e.name[k] == '/'
    ensures wrap ==> e.request == loader + "!" + file
    ensures !wrap ==> e.request == file
  {
    NormalizeIdempotent(relative(file));
    Entry(Normalize(relative(file)), if wrap then loader + "!" + file else file)
  }

  /** The entries of one make pass over `files`, in order. */
  function EntriesFor(relative: string -> string, wrap: bool, loader: string, files: seq<string>): (es: seq<Entry>)
    ensures |es| == |files|
    decreases |files|
  {
    if files == [] then []
    else EntriesFor(relative, wrap, loader, files[..|files| - 1]) + [EntryFor(relative, wrap, loader, files[|files| - 1])]
  }

  lemma EntriesForStep(relative: string -> string, wrap: bool, loader: string, s: seq<string>, i: nat)
    requires i < |s|
    ensures EntriesFor(relative, wrap, loader, s[..i + 1]) ==
      EntriesFor(relative, wrap, loader, s[..i]) + [EntryFor(relative, wrap, loader, s[i])]
  {
    assert s[..i + 1][..i] == s[..i];
  }

  /** A make pass adds one entry per file, the `k`-th entry for the `k`-th file. */
  lemma {:induction false} EntriesForAt(relative: string -> string, wrap: bool, loader: string, files: seq<string>, k: nat)
    requires k < |files|
    ensures EntriesFor(relative, wrap, loader, files)[k] == EntryFor(relative, wrap, loader, files[k])
    decreases |files|
  {
    if k < |files| - 1 {
      var init := files[..|files| - 1];
      EntriesForAt(relative, wrap, loader, init, k);
    }
  }
}
