/** The last loop of `Prefix::build`, as written, against the corrected one that `Build` in
    module `Prefixes` uses. As written, a depth held by the last record only pops one
    segment even when the depths below it in the pending chain are held by that record only
    too, so the chain's remaining segments end up in the label of the next run emitted. */
module PrefixFinding {
  import opened Basics
  import opened Text
  import opened Prefixes

  /** The final loop of `build` as written, on the segments still held by `ref_path` (for a
      path aligned with its segments, so that `pop(n)` splits off `Slashed` of the last `n`
      segments). Depth `i` is visited with `length` pending segments; the runs are returned
      in the order they are pushed. `None` is a panic: a `pop` past the first segment or a
      range start below zero. */
  function FlushAsWritten(tokens: seq<string>, counts: seq<nat>, sum: nat, i: nat,
                          length: nat): (r: Option<seq<Prefix>>)
    requires i < |counts|
    decreases i
  {
    if i == 0 || (counts[i] > 1 && counts[i] < counts[i - 1]) then
      if length > |tokens| || counts[i] > sum then None
      else
        var p := Prefix(Slashed(tokens[|tokens| - length..]), sum - counts[i], sum);
        if i == 0 then Some([p])
        else
          match FlushAsWritten(tokens[..|tokens| - length], counts, sum, i - 1, 1)
          case None => None
          case Some(rest) => Some([p] + rest)
    else if counts[i] == counts[i - 1] then
      FlushAsWritten(tokens, counts, sum, i - 1, length + 1)
    else if tokens == [] then None
    else
      FlushAsWritten(tokens[..|tokens| - 1], counts, sum, i - 1, length)
  }

  /** Unless it panics, that loop pushes between one and `i + 1` runs, all ending at the last
      record. */
  lemma {:induction false} FlushAsWrittenShape(tokens: seq<string>, counts: seq<nat>, sum: nat,
                                               i: nat, length: nat)
    requires i < |counts|
    ensures var r := FlushAsWritten(tokens, counts, sum, i, length);
            r.Some? ==> 1 <= |r.value| <= i + 1 && EndAt(r.value, sum)
    decreases i
  {
    if i == 0 || (counts[i] > 1 && counts[i] < counts[i - 1]) {
      if i > 0 && length <= |tokens| && counts[i] <= sum {
        FlushAsWrittenShape(tokens[..|tokens| - length], counts, sum, i - 1, 1);
      }
    } else if counts[i] == counts[i - 1] {
      FlushAsWrittenShape(tokens, counts, sum, i - 1, length + 1);
    } else if tokens != [] {
      FlushAsWrittenShape(tokens[..|tokens| - 1], counts, sum, i - 1, length);
    }
  }

  /** Every run of `runs` ends at record `sum`. */
  predicate EndAt(runs: seq<Prefix>, sum: nat) {
    forall a :: 0 <= a < |runs| ==> runs[a].end == sum
  }

  /** The segment lists of the sorted paths `/a/b/c` and `/a/d`. */
  function SampleTokens(): (T: seq<seq<string>>)
    ensures |T| == 2 && |T[0]| == 3 && |T[1]| == 2
  {
    [["a", "b", "c"], ["a", "d"]]
  }

  /** For the paths `/a/b/c` and `/a/d`, the walk leaves `ref_path` at `/a/b/c` with counters
      `[2, 1, 1]` after two records. The loop as written then labels both records `/a/b`,
      a segment the second record does not have: no depth and end give that run the
      meaning `Labels` states. */
  lemma FlushAsWrittenMislabels()
    ensures FlushAsWritten(["a", "b", "c"], [2, 1, 1], 2, 2, 1) == Some([Prefix("/a/b", 0, 2)])
    ensures forall d: nat, e: nat :: !Labels(true, SampleTokens(), Prefix("/a/b", 0, 2), d, e)
  {
    var tokens: seq<string> := ["a", "b", "c"];
    assert tokens[..2] == ["a", "b"] && tokens[..2][0..] == ["a", "b"];
    assert Slashed(["a", "b"]) == "/a/b";
    forall d: nat, e: nat
      ensures !Labels(true, SampleTokens(), Prefix("/a/b", 0, 2), d, e)
    {
      if Labels(true, SampleTokens(), Prefix("/a/b", 0, 2), d, e) {
        SampleRun(Prefix("/a/b", 0, 2), d, e);
      }
    }
  }

  /** A run over both sample records can only be the depth-0 run labelled `/a`. */
  lemma SampleRun(r: Prefix, d: nat, e: nat)
    requires r.start == 0 && r.end == 2 && Labels(true, SampleTokens(), r, d, e)
    ensures d == 0 && e == 1 && r.text == "/a"
  {
    var T := SampleTokens();
    assert Agree(T, 1, 0, e);
    if e >= 2 {
      SharedAt(T[1], T[0], e, 1);
    }
    assert T[0][0..1] == ["a"];
    assert Slashed(["a"]) == "/a";
  }

  /** The corrected loop on the same paths: `build` returns one run, over both records,
      labelled `/a`. */
  method BuildSample() returns (runs: seq<Prefix>)
    ensures runs == [Prefix("/a", 0, 2)]
  {
    var paths := ["/a/b/c", "/a/d"];
    SampleWellFormed();
    ghost var spans;
    runs, spans := Build(paths);
    SampleFirst(paths, runs[0], spans[0].0, spans[0].1);
    assert runs[|runs| - 1].start == 0 && runs[|runs| - 1].end == 2;
  }

  /** A run that `Build` may return first for the sample paths is the one labelled `/a`. */
  lemma SampleFirst(paths: seq<string>, r: Prefix, d: nat, e: nat)
    requires paths == ["/a/b/c", "/a/d"] && r.start == 0 && r.end <= 2
    requires Labels(AllAligned(paths), AllTokens(paths), r, d, e)
    ensures r == Prefix("/a", 0, 2)
  {
    var T := SampleTokens();
    assert AllTokens(paths) == T && AllAligned(paths) by {
      SampleAllTokens();
      SampleAllAligned();
    }
    SampleEnd(r, d, e);
    SampleRun(r, d, e);
  }

  /** No run of the sample paths holds the first record alone. */
  lemma SampleEnd(r: Prefix, d: nat, e: nat)
    requires r.start == 0 && r.end <= 2 && Labels(true, SampleTokens(), r, d, e)
    ensures r.end == 2
  {
    var T := SampleTokens();
    if r.end == 1 {
      assert d == 0;
      assert T[1][..1] == T[0][..1];
      assert Agree(T, 1, 0, 1);
    }
  }

  lemma SharedAt(a: seq<string>, b: seq<string>, m: nat, k: nat)
    requires Shares(a, b, m) && k < m
    ensures a[k] == b[k]
  {
    assert a[k] == a[..m][k];
  }

  /** The segments of the sample paths. */
  lemma SampleSegments()
    ensures Tokens("/a/b/c") == ["a", "b", "c"] && Tokens("/a/d") == ["a", "d"]
  {
    assert "/a/b/c"[1..] == "a/b/c" && "/a/d"[1..] == "a/d";
    assert TrimStart("/a/b/c", '/') == TrimStart("a/b/c", '/') == "a/b/c";
    assert TrimStart("/a/d", '/') == TrimStart("a/d", '/') == "a/d";
    assert TrimEnd("a/b/c", '/') == "a/b/c" && TrimEnd("a/d", '/') == "a/d";
    assert Join(["a", "b", "c"], '/') == "a/b/c" by {
      assert ["a", "b", "c"][1..] == ["b", "c"];
      assert Join(["b", "c"], '/') == "b/c";
    }
    assert Join(["a", "d"], '/') == "a/d";
    SplitJoin(["a", "b", "c"], '/');
    SplitJoin(["a", "d"], '/');
  }

  lemma SampleWellFormed()
    ensures WellFormed("/a/b/c") && WellFormed("/a/d")
  {
    RootedFits("/a/b/c");
    RootedFits("/a/d");
  }

  lemma SampleAllTokens()
    ensures AllTokens(["/a/b/c", "/a/d"]) == SampleTokens()
  {
    SampleSegments();
    PairTokens("/a/b/c", "/a/d", ["a", "b", "c"], ["a", "d"]);
  }

  lemma SampleAllAligned()
    ensures AllAligned(["/a/b/c", "/a/d"])
  {
    RootedAligned("/a/b/c");
    RootedAligned("/a/d");
    PairAligned("/a/b/c", "/a/d");
  }

  lemma PairTokens(p: string, q: string, tp: seq<string>, tq: seq<string>)
    requires Tokens(p) == tp && Tokens(q) == tq
    ensures AllTokens([p, q]) == [tp, tq]
  {
    assert [p, q][..1] == [p] && [p][..0] == [];
  }

  lemma PairAligned(p: string, q: string)
    requires Aligned(p) && Aligned(q)
    ensures AllAligned([p, q])
  {
    assert [p, q][..1] == [p] && [p][..0] == [];
  }
}
