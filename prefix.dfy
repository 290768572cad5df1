/** The prefix compressor: groups consecutive record paths that share leading `/`-segments
    into labelled runs, merging chains of segments that every member of a group shares. */
module Prefixes {
  import opened Text

  /** Capacity of the fixed-size vectors that hold a path's segments and the per-depth
      counters. */
  const MAX_LEVEL: nat := 16

  /** A label and the half-open range `start..end` of record indices it covers. */
  datatype Prefix = Prefix(text: string, start: nat, end: nat)

  /** The segments of a path: `raw.trim_matches('/').split('/')`. */
  function Tokens(raw: string): (r: seq<string>)
    ensures |r| >= 1
  {
    Split(Trim(raw, '/'), '/')
  }

  /** The segments joined with `/` give the path back without its leading and trailing
      slashes. */
  lemma TokensJoin(raw: string)
    ensures Join(Tokens(raw), '/') == Trim(raw, '/')
  {
    JoinSplit(Trim(raw, '/'), '/');
  }

  /** Segments written back with a `/` before each one. Its length is what `pop` computes by
      folding `len + 1` over the segments it removes. */
  function Slashed(ts: seq<string>): string {
    if ts == [] then "" else "/" + ts[0] + Slashed(ts[1..])
  }

  /** A non-empty segment list written back is `/` followed by its segments joined with `/`. */
  lemma {:induction false} SlashedJoin(ts: seq<string>)
    requires |ts| >= 1
    ensures Slashed(ts) == "/" + Join(ts, '/')
  {
    if |ts| >= 2 {
      SlashedJoin(ts[1..]);
    }
  }

  lemma {:induction false} SlashedAppend(a: seq<string>, b: seq<string>)
    ensures Slashed(a + b) == Slashed(a) + Slashed(b)
  {
    if a == [] {
      assert a + b == b;
    } else {
      assert (a + b)[0] == a[0];
      assert (a + b)[1..] == a[1..] + b;
      SlashedAppend(a[1..], b);
    }
  }

  /** A path that starts with `/` is long enough for all of its segments to be split off. */
  lemma RootedFits(raw: string)
    requires StartsWith(raw, "/")
    ensures |Slashed(Tokens(raw))| <= |raw|
  {
    assert raw[..1][0] == raw[0] == '/';
    var t := TrimStart(raw, '/');
    TrimStartShape(raw, '/');
    TrimEndShape(t, '/');
    assert |t| < |raw|;
    var ts := Tokens(raw);
    TokensJoin(raw);
    SlashedJoin(ts);
    assert |Slashed(ts)| == 1 + |Trim(raw, '/')|;
    assert |Trim(raw, '/')| <= |t|;
  }

  /** `raw` ends with its own segments, so every `pop` splits at segment boundaries. */
  predicate Aligned(raw: string) {
    EndsWith(raw, Slashed(Tokens(raw)))
  }

  /** A path that starts with `/` and does not end with one (other than the root itself) is
      aligned. */
  lemma RootedAligned(raw: string)
    requires StartsWith(raw, "/")
    requires |raw| == 1 || raw[|raw| - 1] != '/'
    ensures Aligned(raw)
  {
    assert raw[..1][0] == raw[0] == '/';
    var t := TrimStart(raw, '/');
    TrimStartShape(raw, '/');
    var m := |raw| - |t|;
    if t == [] {
      EmptyTokens(raw);
    } else {
      assert m >= 1 && raw[m - 1] == '/';
      assert t == raw[m..] && t[|t| - 1] == raw[|raw| - 1] != '/';
      assert TrimEnd(t, '/') == t;
      TokensJoin(raw);
      SlashedJoin(Tokens(raw));
      assert Slashed(Tokens(raw)) == "/" + t;
      assert raw[m - 1..] == [raw[m - 1]] + raw[m..];
    }
  }

  /** A path made only of `/` has the single empty segment. */
  lemma EmptyTokens(raw: string)
    requires raw != [] && TrimStart(raw, '/') == []
    ensures Aligned(raw)
  {
    TrimStartShape(raw, '/');
    assert Trim(raw, '/') == [];
    assert Tokens(raw) == Split([], '/');
    assert Slashed([""]) == "/";
    assert raw[|raw| - 1] == '/';
  }

  /** `|a|` and `|b|` agree on their first `m` segments. */
  predicate Shares(a: seq<string>, b: seq<string>, m: nat) {
    m <= |a| && m <= |b| && a[..m] == b[..m]
  }

  lemma ShareFewer(a: seq<string>, b: seq<string>, m: nat, k: nat)
    requires Shares(a, b, m) && k <= m
    ensures Shares(a, b, k)
  {
    assert a[..k] == a[..m][..k];
    assert b[..k] == b[..m][..k];
  }

  /** The number of leading segments two segment lists have in common. */
  function CommonLength(a: seq<string>, b: seq<string>): (r: nat)
    ensures Shares(a, b, r)
    ensures r < |a| && r < |b| ==> a[r] != b[r]
  {
    if a == [] || b == [] || a[0] != b[0] then 0
    else
      var r := 1 + CommonLength(a[1..], b[1..]);
      assert a[..r] == [a[0]] + a[1..][..r - 1];
      assert b[..r] == [b[0]] + b[1..][..r - 1];
      r
  }

  /** Two segment lists share exactly the first `CommonLength` segments and no more. */
  lemma CommonLengthExact(a: seq<string>, b: seq<string>, m: nat)
    ensures Shares(a, b, m) <==> m <= CommonLength(a, b)
  {
    var r := CommonLength(a, b);
    if m <= r {
      ShareFewer(a, b, r, m);
    } else if m <= |a| && m <= |b| {
      assert a[..m][r] == a[r] && b[..m][r] == b[r];
    }
  }

  /** A parsed path: the text still held and its remaining segments. */
  class Path {
    var raw: string
    var tokens: seq<string>

    /** `Path::from`: the segments of `raw`, collected into a vector of capacity
        `MAX_LEVEL` (more segments than that is a panic). */
    constructor From(raw: string)
      requires |Tokens(raw)| <= MAX_LEVEL
      ensures this.raw == raw && tokens == Tokens(raw)
    {
      this.raw := raw;
      tokens := Tokens(raw);
    }

    /** `num_level` */
    function NumLevel(): (r: nat)
      reads this
      ensures r == |tokens|
    {
      |tokens|
    }

    /** `match_tokens`: the number of leading segments shared with `other`. */
    function MatchTokens(other: Path): (r: nat)
      reads this, other
      ensures Shares(tokens, other.tokens, r)
      ensures r < |tokens| && r < |other.tokens| ==> tokens[r] != other.tokens[r]
    {
      CommonLength(tokens, other.tokens)
    }

    /** `pop(n)`: removes the last `n` segments and splits off the text they occupy, which
        is one `/` plus the segment per segment removed. An out-of-range count or split is a
        panic. */
    method Pop(n: nat) returns (suffix: string)
      requires n <= |tokens|
      requires |Slashed(tokens[|tokens| - n..])| <= |raw|
      modifies this
      ensures Popped(old(tokens), old(raw), n, tokens, raw, suffix)
    {
      if n == 0 {
        assert tokens[..|tokens|] == tokens;
        return "";
      }
      var remain := |tokens| - n;
      var length := |Slashed(tokens[remain..])|;
      ghost var whole := Slashed(tokens);
      assert tokens == tokens[..remain] + tokens[remain..];
      SlashedAppend(tokens[..remain], tokens[remain..]);
      suffix := raw[|raw| - length..];
      raw := raw[..|raw| - length];
      tokens := tokens[..remain];
    }
  }

  /** The segment lists of all paths. */
  ghost function AllTokens(paths: seq<string>): (T: seq<seq<string>>)
    ensures |T| == |paths|
    decreases |paths|
  {
    if paths == [] then [] else AllTokens(paths[..|paths| - 1]) + [Tokens(paths[|paths| - 1])]
  }

  lemma {:induction false} AllTokensAt(paths: seq<string>, k: nat)
    requires k < |paths|
    ensures AllTokens(paths)[k] == Tokens(paths[k])
    decreases |paths|
  {
    if k < |paths| - 1 {
      AllTokensAt(paths[..|paths| - 1], k);
    }
  }

  /** Every path ends at a segment. */
  ghost predicate AllAligned(paths: seq<string>)
    decreases |paths|
  {
    paths == [] || (AllAligned(paths[..|paths| - 1]) && Aligned(paths[|paths| - 1]))
  }

  lemma {:induction false} AllAlignedAt(paths: seq<string>, k: nat)
    requires AllAligned(paths) && k < |paths|
    ensures Aligned(paths[k])
    decreases |paths|
  {
    if k < |paths| - 1 {
      AllAlignedAt(paths[..|paths| - 1], k);
    }
  }

  /** Records `x` and `y` agree on their first `m` segments. */
  predicate Agree(T: seq<seq<string>>, x: nat, y: nat, m: nat) {
    x < |T| && y < |T| && Shares(T[x], T[y], m)
  }

  /** Records `lo..hi` all share their first `m` segments with record `lo`, and the record just
      after them does not. */
  predicate Run(T: seq<seq<string>>, lo: nat, hi: nat, m: nat) {
    lo < hi <= |T|
    && (forall x :: lo <= x < hi ==> Agree(T, x, lo, m))
    && (hi < |T| ==> !Agree(T, hi, lo, m))
  }

  /** Records `lo..hi` are a maximal stretch of consecutive records sharing their first `m`
      segments. */
  predicate Block(T: seq<seq<string>>, lo: nat, hi: nat, m: nat) {
    Run(T, lo, hi, m) && (lo > 0 ==> !Agree(T, lo - 1, lo, m))
  }

  /** Records `lo..hi`, two or more, are a maximal stretch sharing their first `m >= 1`
      segments. */
  predicate Shared(T: seq<seq<string>>, lo: nat, hi: nat, m: nat) {
    1 <= m && lo + 2 <= hi && Block(T, lo, hi, m)
  }

  /** Two maximal stretches either are disjoint or the one for more segments lies inside the
      one for fewer. */
  lemma BlocksNest(T: seq<seq<string>>, lo1: nat, hi1: nat, m1: nat, lo2: nat, hi2: nat, m2: nat)
    requires Block(T, lo1, hi1, m1) && Block(T, lo2, hi2, m2) && m1 <= m2
    requires lo2 < hi1 && lo1 < hi2
    ensures lo1 <= lo2 && hi2 <= hi1
  {
    if lo2 < lo1 {
      assert Agree(T, lo1 - 1, lo2, m2) && Agree(T, lo1, lo2, m2);
      ShareFewer(T[lo1 - 1], T[lo2], m2, m1);
      ShareFewer(T[lo1], T[lo2], m2, m1);
      assert false;
    }
    if hi1 < hi2 {
      assert Agree(T, hi1, lo2, m2) && Agree(T, lo2, lo1, m1);
      ShareFewer(T[hi1], T[lo2], m2, m1);
      assert false;
    }
  }

  /** Records that agree with record `z` agree with every record `z` agrees with. */
  lemma AgreeVia(T: seq<seq<string>>, lo: nat, hi: nat, z: nat, x: nat, m: nat)
    requires forall y :: lo <= y < hi ==> Agree(T, y, z, m)
    requires Agree(T, z, x, m)
    ensures forall y :: lo <= y < hi ==> Agree(T, y, x, m)
  {
    forall y | lo <= y < hi
      ensures Agree(T, y, x, m)
    {
      assert T[y][..m] == T[z][..m] == T[x][..m] by {
        assert Agree(T, y, z, m);
      }
    }
  }

  /** The first record of the stretch around record `x` whose records share its first `m`
      segments. */
  ghost function StretchStart(T: seq<seq<string>>, x: nat, m: nat): (lo: nat)
    requires x < |T| && m <= |T[x]|
    ensures lo <= x && forall y :: lo <= y <= x ==> Agree(T, y, x, m)
    ensures lo > 0 ==> !Agree(T, lo - 1, x, m)
    decreases x
  {
    if x > 0 && Agree(T, x - 1, x, m) then
      var prev := x - 1;
      var lo := StretchStart(T, prev, m);
      AgreeVia(T, lo, x, prev, x, m);
      lo
    else x
  }

  /** The record just after that stretch. */
  ghost function StretchEnd(T: seq<seq<string>>, x: nat, m: nat): (hi: nat)
    requires x < |T| && m <= |T[x]|
    ensures x < hi <= |T| && forall y :: x <= y < hi ==> Agree(T, y, x, m)
    ensures hi < |T| ==> !Agree(T, hi, x, m)
    decreases |T| - x
  {
    if x + 1 < |T| && Agree(T, x + 1, x, m) then
      var next := x + 1;
      var hi := StretchEnd(T, next, m);
      AgreeVia(T, next, hi, next, x, m);
      hi
    else x + 1
  }

  /** The stretch around record `x` is a maximal one. */
  lemma StretchBlock(T: seq<seq<string>>, x: nat, m: nat)
    requires x < |T| && m <= |T[x]|
    ensures Block(T, StretchStart(T, x, m), StretchEnd(T, x, m), m)
  {
    var lo, hi := StretchStart(T, x, m), StretchEnd(T, x, m);
    forall y | lo <= y < hi
      ensures Agree(T, y, lo, m)
    {
      assert Agree(T, lo, x, m);
      if y <= x {
        assert Agree(T, y, x, m);
      } else {
        assert Agree(T, y, x, m);
      }
    }
  }

  /** A maximal stretch sharing `m` segments holds every record of a stretch that shares them
      with its first record and has a record in common with it. */
  lemma BlockHolds(T: seq<seq<string>>, lo: nat, hi: nat, m: nat, s: nat, e: nat, x: nat)
    requires Block(T, lo, hi, m) && lo <= x < hi && s <= x < e <= |T|
    requires forall y :: s <= y < e ==> Agree(T, y, s, m)
    ensures lo <= s && e <= hi
  {
    assert s < lo ==> Agree(T, lo - 1, s, m) && Agree(T, lo, s, m);
    assert lo <= s && hi < e ==> Agree(T, hi, s, m) && Agree(T, s, lo, m);
  }

  /** What an emitted run means: its records are a maximal stretch sharing `d + 1` segments,
      they all share the `e` segments down to the end of its label and no more (`Widest`),
      the label spells segments `d..e` (for paths aligned with their segments), and only a
      run of the first record at depth 0 may hold a single record. */
  ghost predicate Labels(aligned: bool, T: seq<seq<string>>, r: Prefix, d: nat, e: nat) {
    Block(T, r.start, r.end, d + 1) && d < e && e <= |T[r.start]|
    && (forall x :: r.start <= x < r.end ==> Agree(T, x, r.start, e))
    && Widest(T, r, e)
    && ((r.start == 0 && d == 0) || r.end - r.start >= 2)
    && (aligned ==> r.text == Slashed(T[r.start][d..e]))
  }

  /** The label of `r` ends at segment `e`: the last segment of its first record, or one
      that some record of the run does not share. */
  ghost predicate Widest(T: seq<seq<string>>, r: Prefix, e: nat) {
    var next := e + 1;
    r.start < |T|
    && (e == |T[r.start]| || exists x :: r.start <= x < r.end && !Agree(T, x, r.start, next))
  }

  /** A range counted backwards from the end, as `build` counts while it walks the paths in
      reverse, mapped into forward index space. */
  function Remap(r: Prefix, n: nat): (f: Prefix)
    requires r.start <= r.end <= n
    ensures f.end - f.start == r.end - r.start && f.end == n - r.start
  {
    Prefix(r.text, n - r.end, n - r.start)
  }

  /** Runs in the order `build` emits them: by end, and deeper (shorter) first for the same end. */
  predicate EmitOrder(rs: seq<Prefix>) {
    forall a, b :: 0 <= a < b < |rs| ==>
      rs[a].end < rs[b].end || (rs[a].end == rs[b].end && rs[a].start > rs[b].start)
  }

  /** Every run of `rs` (in backward index space) lies within the records and, mapped into
      forward index space, has the meaning `Labels` gives it with its span from `spans`. */
  ghost predicate Labelled(aligned: bool, T: seq<seq<string>>, rs: seq<Prefix>,
                           spans: seq<(nat, nat)>)
    decreases |rs|
  {
    |spans| == |rs|
    && (rs != [] ==>
          var r, sp := rs[|rs| - 1], spans[|rs| - 1];
          r.start < r.end <= |T| && Labels(aligned, T, Remap(r, |T|), sp.0, sp.1)
          && Labelled(aligned, T, rs[..|rs| - 1], spans[..|rs| - 1]))
  }

  lemma LabelledAppend(aligned: bool, T: seq<seq<string>>, rs: seq<Prefix>,
                       spans: seq<(nat, nat)>, r: Prefix, sp: (nat, nat))
    requires Labelled(aligned, T, rs, spans)
    requires r.start < r.end <= |T| && Labels(aligned, T, Remap(r, |T|), sp.0, sp.1)
    ensures Labelled(aligned, T, rs + [r], spans + [sp])
  {
    assert (rs + [r])[..|rs|] == rs;
    assert (spans + [sp])[..|rs|] == spans;
  }

  lemma {:induction false} LabelledAt(aligned: bool, T: seq<seq<string>>, rs: seq<Prefix>,
                                      spans: seq<(nat, nat)>, a: nat)
    requires Labelled(aligned, T, rs, spans) && a < |rs|
    ensures rs[a].start < rs[a].end <= |T|
    ensures Labels(aligned, T, Remap(rs[a], |T|), spans[a].0, spans[a].1)
    decreases |rs|
  {
    if a < |rs| - 1 {
      LabelledAt(aligned, T, rs[..|rs| - 1], spans[..|rs| - 1], a);
    }
  }

  predicate Descending(counts: seq<nat>) {
    forall i, k :: 0 <= i < k < |counts| ==> counts[k] <= counts[i]
  }

  predicate Positive(counts: seq<nat>) {
    forall i :: 0 <= i < |counts| ==> counts[i] >= 1
  }

  /** For every depth `p` and below, `counts[p]` is the length of the stretch from record `f`
      on that shares `p + 1` segments with it. */
  ghost predicate Counted(T: seq<seq<string>>, f: nat, counts: seq<nat>, p: nat)
    decreases |counts| - p
  {
    p >= |counts| || (Run(T, f, f + counts[p], p + 1) && Counted(T, f, counts, p + 1))
  }

  lemma {:induction false} CountedAt(T: seq<seq<string>>, f: nat, counts: seq<nat>, p: nat, i: nat)
    requires Counted(T, f, counts, p) && p <= i < |counts|
    ensures Run(T, f, f + counts[i], i + 1)
    decreases i - p
  {
    if p < i {
      CountedAt(T, f, counts, p + 1, i);
    }
  }

  /** What holds of the emitted runs `retval` while the walk is at backward index `index`:
      they are ordered and meaningful, none ends after `index`, and those ending at `index`
      count fewer records than `bound`. */
  ghost predicate EmittedBy(aligned: bool, T: seq<seq<string>>, retval: seq<Prefix>,
                            spans: seq<(nat, nat)>, index: nat, bound: nat) {
    EmitOrder(retval) && Labelled(aligned, T, retval, spans)
    && (forall a :: 0 <= a < |retval| ==> retval[a].end <= index)
    && (forall a :: 0 <= a < |retval| && retval[a].end == index ==> index - retval[a].start < bound)
  }

  /** Two stretches from the same record sharing the same segments end at the same record. */
  lemma RunUnique(T: seq<seq<string>>, lo: nat, hi: nat, hi': nat, m: nat)
    requires Run(T, lo, hi, m) && Run(T, lo, hi', m)
    ensures hi == hi'
  {
  }

  /** Some emitted run covers exactly the backward range `s..e`, and its span takes in depth
      `m - 1`. */
  ghost predicate Found(rs: seq<Prefix>, spans: seq<(nat, nat)>, s: nat, e: nat, m: nat) {
    exists a :: 0 <= a < |rs| && a < |spans| && rs[a].start == s && rs[a].end == e
                && spans[a].0 < m <= spans[a].1
  }

  /** Every maximal stretch of two or more records from record `from` on that shares `m >= 1`
      segments is found among the emitted runs. */
  ghost predicate FoundFrom(T: seq<seq<string>>, rs: seq<Prefix>, spans: seq<(nat, nat)>,
                            from: nat) {
    forall lo, hi, m :: from <= lo && Shared(T, lo, hi, m) ==>
      Found(rs, spans, |T| - hi, |T| - lo, m)
  }

  /** While the reference path is record `f`: the maximal stretches of two or more records
      after it are found, and so are those from it that share at least `below` segments. */
  ghost predicate Gathered(T: seq<seq<string>>, rs: seq<Prefix>, spans: seq<(nat, nat)>,
                           f: nat, below: nat) {
    FoundFrom(T, rs, spans, f + 1)
    && forall hi, m :: below <= m && Shared(T, f, hi, m) ==>
         Found(rs, spans, |T| - hi, |T| - f, m)
  }

  lemma FoundGrows(rs: seq<Prefix>, spans: seq<(nat, nat)>, r: Prefix, sp: (nat, nat),
                   s: nat, e: nat, m: nat)
    requires Found(rs, spans, s, e, m)
    ensures Found(rs + [r], spans + [sp], s, e, m)
  {
    var a :| 0 <= a < |rs| && a < |spans| && rs[a].start == s && rs[a].end == e
             && spans[a].0 < m <= spans[a].1;
    assert (rs + [r])[a] == rs[a] && (spans + [sp])[a] == spans[a];
  }

  /** Emitting one more run loses none of the stretches found. */
  lemma GatheredGrows(T: seq<seq<string>>, rs: seq<Prefix>, spans: seq<(nat, nat)>, r: Prefix,
                      sp: (nat, nat), f: nat, below: nat)
    requires Gathered(T, rs, spans, f, below)
    ensures Gathered(T, rs + [r], spans + [sp], f, below)
  {
    forall lo, hi, m | f + 1 <= lo && Shared(T, lo, hi, m)
      ensures Found(rs + [r], spans + [sp], |T| - hi, |T| - lo, m)
    {
      FoundGrows(rs, spans, r, sp, |T| - hi, |T| - lo, m);
    }
    forall hi, m | below <= m && Shared(T, f, hi, m)
      ensures Found(rs + [r], spans + [sp], |T| - hi, |T| - f, m)
    {
      FoundGrows(rs, spans, r, sp, |T| - hi, |T| - f, m);
    }
  }

  /** A record shares no more segments than it has, so no stretch from record `f` shares more
      than `|T[f]|`. */
  lemma GatherStart(T: seq<seq<string>>, rs: seq<Prefix>, spans: seq<(nat, nat)>, f: nat)
    requires f < |T| && FoundFrom(T, rs, spans, f + 1)
    ensures Gathered(T, rs, spans, f, |T[f]| + 1)
  {
    forall hi: nat, m: nat | Block(T, f, hi, m)
      ensures m <= |T[f]|
    {
      assert Agree(T, f, f, m);
    }
  }

  /** Depth `k - 1` and the pending depths count a single record, so no stretch of two or more
      shares their segments. */
  lemma GatherSingle(tokens: seq<string>, raw: string, counts: seq<nat>, numMatch: nat,
                     index: nat, k: nat, length: nat, aligned: bool, T: seq<seq<string>>,
                     rs: seq<Prefix>, spans: seq<(nat, nat)>)
    requires ClosingAt(tokens, raw, counts, numMatch, index, k, length, aligned, T)
    requires numMatch < k && counts[k - 1] == 1
    requires Gathered(T, rs, spans, |T| - index, k + length)
    ensures Gathered(T, rs, spans, |T| - index, k)
  {
    var f := |T| - index;
    forall hi, m | k <= m < k + length && Block(T, f, hi, m)
      ensures hi == f + 1
    {
      CountedAt(T, f, counts, numMatch, m - 1);
      RunUnique(T, f, hi, f + counts[m - 1], m);
    }
  }

  /** The run emitted at depth `k - 1` is the stretch of every depth from `k - 1` through the
      pending ones. */
  lemma GatherEmit(tokens: seq<string>, raw: string, counts: seq<nat>, numMatch: nat,
                   index: nat, k: nat, length: nat, aligned: bool, T: seq<seq<string>>,
                   rs: seq<Prefix>, spans: seq<(nat, nat)>, r: Prefix, sp: (nat, nat))
    requires ClosingAt(tokens, raw, counts, numMatch, index, k, length, aligned, T)
    requires numMatch < k && |spans| == |rs|
    requires Gathered(T, rs, spans, |T| - index, k + length)
    requires r.start + counts[k - 1] == index && r.end == index && sp == (k - 1, k - 1 + length)
    ensures Gathered(T, rs + [r], spans + [sp], |T| - index, k)
  {
    var f := |T| - index;
    GatheredGrows(T, rs, spans, r, sp, f, k + length);
    forall hi, m | k <= m < k + length && Shared(T, f, hi, m)
      ensures Found(rs + [r], spans + [sp], |T| - hi, |T| - f, m)
    {
      CountedAt(T, f, counts, numMatch, m - 1);
      RunUnique(T, f, hi, f + counts[m - 1], m);
      assert (rs + [r])[|rs|] == r && (spans + [sp])[|rs|] == sp;
    }
  }

  /** Once the depths down to `numMatch` are walked, every stretch from record `f` is found:
      one sharing no more than `numMatch` segments takes in the record before too. */
  lemma GatherDone(T: seq<seq<string>>, rs: seq<Prefix>, spans: seq<(nat, nat)>, f: nat,
                   numMatch: nat, below: nat)
    requires f < |T| && Gathered(T, rs, spans, f, below) && below <= numMatch + 1
    requires f > 0 ==> numMatch == CommonLength(T[f], T[f - 1])
    requires f == 0 ==> numMatch == 0
    ensures FoundFrom(T, rs, spans, f)
  {
    if f > 0 {
      var prev := f - 1;
      forall m: nat | m <= numMatch
        ensures Agree(T, prev, f, m)
      {
        CommonLengthExact(T[f], T[prev], m);
      }
    }
  }

  /** The count of the depth above depth `k`, or more than any count at the top. */
  function Above(counts: seq<nat>, k: nat, index: nat): nat {
    if 1 <= k <= |counts| then counts[k - 1] else index + 1
  }

  /** The state of the inner loop of `build` at backward index `index` (reference path =
      record `f`, holding `tokens` and `raw`), before depth `k - 1`, with the `length - 1`
      depths from `k` on pending; the depth below the pending ones counts fewer records than
      they do, or (in the main loop) one. */
  ghost predicate ClosingAt(tokens: seq<string>, raw: string, counts: seq<nat>, numMatch: nat,
                            index: nat, k: nat, length: nat, aligned: bool, T: seq<seq<string>>)
  {
    0 < index <= |T| && |counts| == |T[|T| - index]|
    && (index < |T| ==> numMatch == CommonLength(T[|T| - index], T[|T| - index - 1]))
    && (index == |T| ==> numMatch == 0)
    && Descending(counts) && Positive(counts)
    && (0 < numMatch < |counts| ==> counts[numMatch] < counts[numMatch - 1])
    && Counted(T, |T| - index, counts, numMatch)
    && numMatch <= k && length >= 1 && k + length - 1 <= |counts|
    && tokens == T[|T| - index][..k + length - 1]
    && (length > 1 ==> k >= 1 && forall p :: k <= p < k + length - 1 ==> counts[p] == counts[k - 1])
    && (length > 1 && index < |T| ==> counts[k - 1] >= 2)
    && (0 < k && k + length - 1 < |counts| ==>
          counts[k + length - 1] < counts[k - 1] || (index < |T| && counts[k + length - 1] == 1))
    && |Slashed(tokens)| <= |raw|
    && (aligned ==> EndsWith(raw, Slashed(tokens)))
  }

  ghost predicate Closing(refPath: Path, counts: seq<nat>, numMatch: nat, index: nat, k: nat,
                          length: nat, aligned: bool, T: seq<seq<string>>)
    reads refPath
  {
    ClosingAt(refPath.tokens, refPath.raw, counts, numMatch, index, k, length, aligned, T)
  }

  /** The text and segments left after `pop(n)` on `tokens` and `raw`. */
  ghost predicate Popped(tokens: seq<string>, raw: string, n: nat,
                         tokens': seq<string>, raw': string, text: string) {
    n <= |tokens|
    && tokens' == tokens[..|tokens| - n] && raw == raw' + text
    && |text| == |Slashed(tokens[|tokens| - n..])|
    && (|Slashed(tokens)| <= |raw| ==> |Slashed(tokens')| <= |raw'|)
    && (EndsWith(raw, Slashed(tokens)) ==>
          text == Slashed(tokens[|tokens| - n..]) && EndsWith(raw', Slashed(tokens')))
  }

  /** The inner loop of `build` at backward index `index`, with `numMatch` segments shared by
      the next path: walks the depths of the reference path from the deepest up to `numMatch`,
      pushing the runs it closes onto `retval`. */
  method Close(refPath: Path, counts: seq<nat>, numMatch: nat, index: nat, retval: seq<Prefix>,
               ghost spans: seq<(nat, nat)>, ghost aligned: bool, ghost T: seq<seq<string>>)
    returns (retval': seq<Prefix>, ghost spans': seq<(nat, nat)>)
    requires Closing(refPath, counts, numMatch, index, |counts|, 1, aligned, T) && index < |T|
    requires EmittedBy(aligned, T, retval, spans, index, 0)
    requires FoundFrom(T, retval, spans, |T| - index + 1)
    modifies refPath
    ensures refPath.tokens == T[|T| - index][..numMatch]
    ensures |Slashed(refPath.tokens)| <= |refPath.raw|
    ensures aligned ==> EndsWith(refPath.raw, Slashed(refPath.tokens))
    ensures EmittedBy(aligned, T, retval', spans', index, index + 1)
    ensures FoundFrom(T, retval', spans', |T| - index)
  {
    retval', spans' := retval, spans;
    var length: nat := 1;
    var k: nat := refPath.NumLevel();
    EmittedWeaker(aligned, T, retval, spans, index, 0, Above(counts, k, index));
    GatherStart(T, retval, spans, |T| - index);
    while k > numMatch
      invariant Closing(refPath, counts, numMatch, index, k, length, aligned, T)
      invariant EmittedBy(aligned, T, retval', spans', index, Above(counts, k, index))
      invariant Gathered(T, retval', spans', |T| - index, k + length)
      decreases k
    {
      k, length, retval', spans' := CloseLevel(refPath, counts, numMatch, index, k, length,
                                               retval', spans', aligned, T);
    }
    CloseDone(refPath.tokens, refPath.raw, counts, numMatch, index, k, length, aligned, T);
    EmittedAll(aligned, T, retval', spans', index, Above(counts, k, index));
    GatherDone(T, retval', spans', |T| - index, numMatch, k + length);
  }

  /** Depth `k - 1` of the inner loop of `build`: a depth held by one record only is dropped;
      a depth whose count is below the one above closes a run labelled with it and the pending
      depths; a depth whose count equals the one above becomes pending. */
  method CloseLevel(refPath: Path, counts: seq<nat>, numMatch: nat, index: nat, k: nat,
                    length: nat, retval: seq<Prefix>, ghost spans: seq<(nat, nat)>,
                    ghost aligned: bool, ghost T: seq<seq<string>>)
    returns (k': nat, length': nat, retval': seq<Prefix>, ghost spans': seq<(nat, nat)>)
    requires Closing(refPath, counts, numMatch, index, k, length, aligned, T) && numMatch < k
    requires index < |T|
    requires EmittedBy(aligned, T, retval, spans, index, counts[k - 1])
    requires Gathered(T, retval, spans, |T| - index, k + length)
    modifies refPath
    ensures k' == k - 1
    ensures Closing(refPath, counts, numMatch, index, k', length', aligned, T)
    ensures EmittedBy(aligned, T, retval', spans', index, Above(counts, k', index))
    ensures Gathered(T, retval', spans', |T| - index, k' + length')
  {
    k' := k - 1;
    var i := k';
    if counts[i] == 1 {
      length', retval', spans' := DropLevel(refPath, counts, numMatch, index, k, length, retval,
                                            spans, aligned, T);
    } else if i == 0 || counts[i] < counts[i - 1] {
      length', retval', spans' := EmitLevel(refPath, counts, numMatch, index, k, length, retval,
                                            spans, aligned, T);
    } else if counts[i] == counts[i - 1] {
      length', retval', spans' := length + 1, retval, spans;
    } else {
      assert false;
    }
  }

  /** A depth held by the current record only: its token is popped and nothing is emitted. */
  method DropLevel(refPath: Path, counts: seq<nat>, numMatch: nat, index: nat, k: nat,
                   length: nat, retval: seq<Prefix>, ghost spans: seq<(nat, nat)>,
                   ghost aligned: bool, ghost T: seq<seq<string>>)
    returns (length': nat, retval': seq<Prefix>, ghost spans': seq<(nat, nat)>)
    requires Closing(refPath, counts, numMatch, index, k, length, aligned, T) && numMatch < k
    requires counts[k - 1] == 1 && index < |T|
    requires EmittedBy(aligned, T, retval, spans, index, counts[k - 1])
    requires Gathered(T, retval, spans, |T| - index, k + length)
    modifies refPath
    ensures Closing(refPath, counts, numMatch, index, k - 1, length', aligned, T)
    ensures EmittedBy(aligned, T, retval', spans', index, Above(counts, k - 1, index))
    ensures Gathered(T, retval', spans', |T| - index, k - 1 + length')
  {
    ghost var tokens, raw := refPath.tokens, refPath.raw;
    DropFits(tokens, raw, counts, numMatch, index, k, length, aligned, T);
    GatherSingle(tokens, raw, counts, numMatch, index, k, length, aligned, T, retval, spans);
    var dropped := refPath.Pop(1);
    PopStep(tokens, raw, refPath.tokens, refPath.raw, dropped, counts, numMatch, index, k, 1,
            aligned, T);
    length', retval', spans' := 1, retval, spans;
    EmittedWeaker(aligned, T, retval, spans, index, counts[k - 1],
                  Above(counts, k - 1, index));
  }

  /** A depth whose count is below the one above: the run it closes is emitted, labelled with
      its token and the pending ones. */
  method EmitLevel(refPath: Path, counts: seq<nat>, numMatch: nat, index: nat, k: nat,
                   length: nat, retval: seq<Prefix>, ghost spans: seq<(nat, nat)>,
                   ghost aligned: bool, ghost T: seq<seq<string>>)
    returns (length': nat, retval': seq<Prefix>, ghost spans': seq<(nat, nat)>)
    requires Closing(refPath, counts, numMatch, index, k, length, aligned, T) && numMatch < k
    requires (k == 1 && index == |T|)
             || (counts[k - 1] >= 2 && (k == 1 || counts[k - 1] < counts[k - 2]))
    requires EmittedBy(aligned, T, retval, spans, index, counts[k - 1])
    requires Gathered(T, retval, spans, |T| - index, k + length)
    modifies refPath
    ensures Closing(refPath, counts, numMatch, index, k - 1, length', aligned, T)
    ensures EmittedBy(aligned, T, retval', spans', index, Above(counts, k - 1, index))
    ensures Gathered(T, retval', spans', |T| - index, k - 1 + length')
    ensures |retval'| == |retval| + 1 && retval'[|retval|].end == index
    ensures |spans'| == |spans| + 1 && spans'[|spans|].0 == k - 1
  {
    var i := k - 1;
    ghost var tokens, raw := refPath.tokens, refPath.raw;
    assert ClosingAt(tokens, raw, counts, numMatch, index, k, length, aligned, T);
    PopFits(tokens, raw, counts, numMatch, index, k, length, aligned, T);
    var start: nat := index - counts[i];
    ghost var sp: (nat, nat) := (i, i + length);
    var text := refPath.Pop(length);
    PopStep(tokens, raw, refPath.tokens, refPath.raw, text, counts, numMatch, index, k, length,
             aligned, T);
    var run := Prefix(text, start, index);
    EmitStep(tokens, raw, counts, numMatch, index, k, length, aligned, T, retval, spans, run, sp);
    GatherEmit(tokens, raw, counts, numMatch, index, k, length, aligned, T, retval, spans, run, sp);
    retval' := retval + [run];
    spans' := spans + [sp];
    length' := 1;
  }

  /** Once the depths down to `numMatch` are walked, nothing is pending: a pending depth would
      count as many records as the shared depth above it, which the strict boundary excludes. */
  lemma CloseDone(tokens: seq<string>, raw: string, counts: seq<nat>, numMatch: nat, index: nat,
                  k: nat, length: nat, aligned: bool, T: seq<seq<string>>)
    requires ClosingAt(tokens, raw, counts, numMatch, index, k, length, aligned, T)
    requires k <= numMatch
    ensures length == 1 && tokens == T[|T| - index][..numMatch]
    ensures |Slashed(tokens)| <= |raw| && (aligned ==> EndsWith(raw, Slashed(tokens)))
  {
    if length > 1 {
      assert false;
    }
  }

  /** No run ends after `index`, so every run ending there counts at most `index` records. */
  lemma EmittedAll(aligned: bool, T: seq<seq<string>>, retval: seq<Prefix>,
                   spans: seq<(nat, nat)>, index: nat, bound: nat)
    requires EmittedBy(aligned, T, retval, spans, index, bound)
    ensures EmittedBy(aligned, T, retval, spans, index, index + 1)
  {
  }

  lemma EmittedWeaker(aligned: bool, T: seq<seq<string>>, retval: seq<Prefix>,
                      spans: seq<(nat, nat)>, index: nat, bound: nat, bound': nat)
    requires EmittedBy(aligned, T, retval, spans, index, bound) && bound <= bound'
    ensures EmittedBy(aligned, T, retval, spans, index, bound')
  {
  }

  lemma DropFits(tokens: seq<string>, raw: string, counts: seq<nat>, numMatch: nat, index: nat,
                 k: nat, length: nat, aligned: bool, T: seq<seq<string>>)
    requires ClosingAt(tokens, raw, counts, numMatch, index, k, length, aligned, T)
    requires numMatch < k && counts[k - 1] == 1 && index < |T|
    ensures length == 1 && 1 <= |tokens| && |Slashed(tokens[|tokens| - 1..])| <= |raw|
  {
    SlashedFits(tokens, 1);
  }

  lemma PopFits(tokens: seq<string>, raw: string, counts: seq<nat>, numMatch: nat, index: nat,
                 k: nat, length: nat, aligned: bool, T: seq<seq<string>>)
    requires ClosingAt(tokens, raw, counts, numMatch, index, k, length, aligned, T)
    requires numMatch < k
    ensures length <= |tokens| && |Slashed(tokens[|tokens| - length..])| <= |raw|
    ensures counts[k - 1] <= index
  {
    SlashedFits(tokens, length);
    CountedAt(T, |T| - index, counts, numMatch, k - 1);
  }

  /** Popping depth `k - 1` and the pending depths leaves the loop state for depth `k - 2`; for
      aligned paths the popped text spells those segments. */
  lemma PopStep(tokens: seq<string>, raw: string, tokens': seq<string>, raw': string,
                 text: string, counts: seq<nat>, numMatch: nat, index: nat, k: nat, length: nat,
                 aligned: bool, T: seq<seq<string>>)
    requires ClosingAt(tokens, raw, counts, numMatch, index, k, length, aligned, T)
    requires numMatch < k
    requires k >= 2 ==> counts[k - 1] < counts[k - 2] || (index < |T| && counts[k - 1] == 1)
    requires Popped(tokens, raw, length, tokens', raw', text)
    ensures ClosingAt(tokens', raw', counts, numMatch, index, k - 1, 1, aligned, T)
    ensures tokens == T[|T| - index][..k - 1 + length]
    ensures aligned ==> text == Slashed(tokens[k - 1..])
  {
    assert tokens[|tokens| - length..] == tokens[k - 1..];
    assert tokens' == T[|T| - index][..k - 1];
  }

  /** `CloseEmit` for the state of the inner loop at depth `k - 1`. */
  lemma EmitStep(tokens: seq<string>, raw: string, counts: seq<nat>, numMatch: nat, index: nat,
                 k: nat, length: nat, aligned: bool, T: seq<seq<string>>, retval: seq<Prefix>,
                 spans: seq<(nat, nat)>, r: Prefix, sp: (nat, nat))
    requires ClosingAt(tokens, raw, counts, numMatch, index, k, length, aligned, T) && numMatch < k
    requires (k == 1 && index == |T|)
             || (counts[k - 1] >= 2 && (k == 1 || counts[k - 1] < counts[k - 2]))
    requires EmittedBy(aligned, T, retval, spans, index, counts[k - 1])
    requires tokens == T[|T| - index][..k - 1 + length]
    requires aligned ==> r.text == Slashed(tokens[k - 1..])
    requires r.start + counts[k - 1] == index && r.end == index && sp == (k - 1, k - 1 + length)
    ensures EmittedBy(aligned, T, retval + [r], spans + [sp], index, Above(counts, k - 1, index))
  {
    var f, i := |T| - index, k - 1;
    CountedAt(T, f, counts, numMatch, i);
    CloseEmit(aligned, T, f, counts, numMatch, i, length, tokens, retval, spans, index, r, sp,
              Above(counts, k - 1, index));
  }

  /** Appending the run closed at depth `i` keeps the emitted runs ordered and meaningful. */
  lemma CloseEmit(aligned: bool, T: seq<seq<string>>, f: nat, counts: seq<nat>,
                  numMatch: nat, i: nat, length: nat, before: seq<string>,
                  retval: seq<Prefix>, spans: seq<(nat, nat)>, index: nat, r: Prefix,
                  sp: (nat, nat), bound: nat)
    requires f < |T| && index == |T| - f && |counts| == |T[f]|
    requires f > 0 ==> numMatch == CommonLength(T[f], T[f - 1])
    requires numMatch <= i && length >= 1 && i + length <= |counts|
    requires (i == 0 && f == 0) || counts[i] >= 2
    requires forall p :: i <= p < i + length ==> counts[p] == counts[i]
    requires i + length < |counts| ==> counts[i + length] < counts[i]
    requires Counted(T, f, counts, numMatch)
    requires before == T[f][..i + length]
    requires aligned ==> r.text == Slashed(before[i..])
    requires r.start == index - counts[i] && r.end == index
    requires EmittedBy(aligned, T, retval, spans, index, counts[i])
    requires counts[i] < bound && sp == (i, i + length)
    ensures EmittedBy(aligned, T, retval + [r], spans + [sp], index, bound)
  {
    CountedAt(T, f, counts, numMatch, i);
    CountedAt(T, f, counts, numMatch, i + length - 1);
    if i + length < |counts| {
      CountedAt(T, f, counts, numMatch, i + length);
    }
    CloseLabels(aligned, T, f, counts, numMatch, i, length, before, r.text);
    assert Remap(r, |T|) == Prefix(r.text, f, f + counts[i]);
    EmittedAppend(aligned, T, retval, spans, index, counts[i], bound, r, sp);
  }

  /** A run ending at `index` that counts more records than every run emitted there before it
      extends the emitted runs in order. */
  lemma EmittedAppend(aligned: bool, T: seq<seq<string>>, retval: seq<Prefix>,
                      spans: seq<(nat, nat)>, index: nat, size: nat, bound: nat, r: Prefix,
                      sp: (nat, nat))
    requires EmittedBy(aligned, T, retval, spans, index, size) && size < bound
    requires r.end == index && r.start + size == index
    requires r.start < r.end <= |T| && Labels(aligned, T, Remap(r, |T|), sp.0, sp.1)
    ensures EmittedBy(aligned, T, retval + [r], spans + [sp], index, bound)
  {
    LabelledAppend(aligned, T, retval, spans, r, sp);
  }

  /** Splitting off the last `n` segments never needs more text than all of them. */
  lemma SlashedFits(ts: seq<string>, n: nat)
    requires n <= |ts|
    ensures |Slashed(ts[|ts| - n..])| <= |Slashed(ts)|
  {
    assert ts == ts[..|ts| - n] + ts[|ts| - n..];
    SlashedAppend(ts[..|ts| - n], ts[|ts| - n..]);
  }

  /** A run closed at depth `i` of the reference path (record `f`), whose label takes the
      `length` segments from `i` on, has the meaning `Labels` gives it. */
  lemma CloseLabels(aligned: bool, T: seq<seq<string>>, f: nat, counts: seq<nat>,
                    numMatch: nat, i: nat, length: nat, before: seq<string>, text: string)
    requires f < |T| && |counts| == |T[f]|
    requires f > 0 ==> numMatch == CommonLength(T[f], T[f - 1])
    requires numMatch <= i && length >= 1 && i + length <= |counts|
    requires (i == 0 && f == 0) || counts[i] >= 2
    requires counts[i + length - 1] == counts[i]
    requires Run(T, f, f + counts[i], i + 1)
    requires Run(T, f, f + counts[i + length - 1], i + length)
    requires i + length < |counts| ==>
               counts[i + length] < counts[i] && Run(T, f, f + counts[i + length], i + length + 1)
    requires before == T[f][..i + length]
    requires aligned ==> text == Slashed(before[i..])
    ensures Labels(aligned, T, Prefix(text, f, f + counts[i]), i, i + length)
  {
    if f > 0 {
      CommonLengthExact(T[f], T[f - 1], i + 1);
    }
    if i + length < |counts| {
      assert !Agree(T, f + counts[i + length], f, i + length + 1);
    }
    assert before[i..] == T[f][i..i + length];
  }

  /** The last emitted run ends at `index` and was closed at depth 0. */
  predicate TopLast(retval: seq<Prefix>, spans: seq<(nat, nat)>, index: nat) {
    |retval| >= 1 && |spans| == |retval|
    && retval[|retval| - 1].end == index && spans[|retval| - 1].0 == 0
  }

  /** The final loop of `build`, after the last path: walks every depth of the reference path
      from the deepest up, closing the run at each depth whose count is below the one above
      and, at the top, the run of all records that share the first segment. */
  method Flush(refPath: Path, counts: seq<nat>, index: nat, retval: seq<Prefix>,
               ghost spans: seq<(nat, nat)>, ghost aligned: bool, ghost T: seq<seq<string>>)
    returns (retval': seq<Prefix>, ghost spans': seq<(nat, nat)>)
    requires Closing(refPath, counts, 0, index, |counts|, 1, aligned, T)
    requires index == |T| && |counts| >= 1
    requires EmittedBy(aligned, T, retval, spans, index, 0)
    requires FoundFrom(T, retval, spans, 1)
    modifies refPath
    ensures EmittedBy(aligned, T, retval', spans', index, index + 1)
    ensures TopLast(retval', spans', index)
    ensures FoundFrom(T, retval', spans', 0)
  {
    retval', spans' := retval, spans;
    var length: nat := 1;
    var k: nat := refPath.NumLevel();
    EmittedWeaker(aligned, T, retval, spans, index, 0, Above(counts, k, index));
    GatherStart(T, retval, spans, 0);
    while k > 0
      invariant Closing(refPath, counts, 0, index, k, length, aligned, T)
      invariant EmittedBy(aligned, T, retval', spans', index, Above(counts, k, index))
      invariant Gathered(T, retval', spans', 0, k + length)
      invariant k == 0 ==> TopLast(retval', spans', index)
      decreases k
    {
      k, length, retval', spans' := FlushLevel(refPath, counts, index, k, length, retval',
                                               spans', aligned, T);
    }
    GatherDone(T, retval', spans', 0, 0, k + length);
  }

  /** Depth `k - 1` of the final loop: the top depth, and a depth shared by several records
      whose count is below the one above, close a run; a depth whose count equals the one
      above becomes pending; a depth held by the last record only is popped together with the
      pending depths. */
  method FlushLevel(refPath: Path, counts: seq<nat>, index: nat, k: nat, length: nat,
                    retval: seq<Prefix>, ghost spans: seq<(nat, nat)>, ghost aligned: bool,
                    ghost T: seq<seq<string>>)
    returns (k': nat, length': nat, retval': seq<Prefix>, ghost spans': seq<(nat, nat)>)
    requires Closing(refPath, counts, 0, index, k, length, aligned, T) && 0 < k && index == |T|
    requires EmittedBy(aligned, T, retval, spans, index, counts[k - 1])
    requires Gathered(T, retval, spans, 0, k + length)
    modifies refPath
    ensures k' == k - 1
    ensures Closing(refPath, counts, 0, index, k', length', aligned, T)
    ensures EmittedBy(aligned, T, retval', spans', index, Above(counts, k', index))
    ensures Gathered(T, retval', spans', 0, k' + length')
    ensures k' == 0 ==> TopLast(retval', spans', index)
  {
    k' := k - 1;
    var i := k';
    if i == 0 || (counts[i] > 1 && counts[i] < counts[i - 1]) {
      length', retval', spans' := EmitLevel(refPath, counts, 0, index, k, length, retval, spans,
                                            aligned, T);
    } else if counts[i] == counts[i - 1] {
      length', retval', spans' := length + 1, retval, spans;
    } else {
      length', retval', spans' := SkipLevel(refPath, counts, index, k, length, retval, spans,
                                            aligned, T);
    }
  }

  /** A depth held by the last record only, below a depth shared by several: it and the
      pending depths are popped and nothing is emitted. */
  method SkipLevel(refPath: Path, counts: seq<nat>, index: nat, k: nat, length: nat,
                   retval: seq<Prefix>, ghost spans: seq<(nat, nat)>, ghost aligned: bool,
                   ghost T: seq<seq<string>>)
    returns (length': nat, retval': seq<Prefix>, ghost spans': seq<(nat, nat)>)
    requires Closing(refPath, counts, 0, index, k, length, aligned, T) && 1 < k && index == |T|
    requires counts[k - 1] == 1 < counts[k - 2]
    requires EmittedBy(aligned, T, retval, spans, index, counts[k - 1])
    requires Gathered(T, retval, spans, 0, k + length)
    modifies refPath
    ensures Closing(refPath, counts, 0, index, k - 1, length', aligned, T)
    ensures EmittedBy(aligned, T, retval', spans', index, Above(counts, k - 1, index))
    ensures Gathered(T, retval', spans', 0, k - 1 + length')
  {
    ghost var tokens, raw := refPath.tokens, refPath.raw;
    GatherSingle(tokens, raw, counts, 0, index, k, length, aligned, T, retval, spans);
    PopFits(tokens, raw, counts, 0, index, k, length, aligned, T);
    var skipped := refPath.Pop(length);
    PopStep(tokens, raw, refPath.tokens, refPath.raw, skipped, counts, 0, index, k, length,
            aligned, T);
    length', retval', spans' := 1, retval, spans;
    EmittedWeaker(aligned, T, retval, spans, index, counts[k - 1], Above(counts, k - 1, index));
  }

  /** A path `build` is modelled on: at most `MAX_LEVEL` segments (more is a panic in
      `Path::from`), and long enough for all of its segments to be split off. A shorter path
      can make `pop` panic, though not always (`["/a/b", "a"]` gives one run `/a` over both);
      every path the query produces starts with `/`, and `RootedFits` shows such a path is long
      enough. */
  predicate WellFormed(raw: string) {
    |Tokens(raw)| <= MAX_LEVEL && |Slashed(Tokens(raw))| <= |raw|
  }

  /** `n` counters set to 1, as `resize(n, 1)` appends them. */
  function Ones(n: nat): (r: seq<nat>)
    ensures |r| == n && forall p :: 0 <= p < n ==> r[p] == 1
  {
    seq(n, _ => 1)
  }

  /** The state of the main loop of `build` before backward index `index`: the reference path
      holds the segments of record `|T| - index`, and its counter at each depth is the number
      of records from it on that share that many segments with it. */
  ghost predicate Walking(tokens: seq<string>, raw: string, counts: seq<nat>, index: nat,
                          aligned: bool, T: seq<seq<string>>) {
    0 < index <= |T| && tokens == T[|T| - index] && |counts| == |tokens| && |tokens| >= 1
    && Descending(counts) && Positive(counts) && Counted(T, |T| - index, counts, 0)
    && |Slashed(tokens)| <= |raw| && (aligned ==> EndsWith(raw, Slashed(tokens)))
  }

  /** The last record alone: one record at every depth. */
  lemma {:induction false} CountedOnes(T: seq<seq<string>>, f: nat, p: nat)
    requires f + 1 == |T|
    ensures Counted(T, f, Ones(|T[f]|), p)
    decreases |T[f]| - p
  {
    if p < |T[f]| {
      CountedOnes(T, f, p + 1);
      assert Agree(T, f, f, p + 1);
    }
  }

  lemma {:induction false} CountedFrom(T: seq<seq<string>>, f: nat, counts: seq<nat>, p: nat,
                                       q: nat)
    requires Counted(T, f, counts, p) && p <= q
    ensures Counted(T, f, counts, q)
    decreases q - p
  {
    if p < q {
      CountedFrom(T, f, counts, p + 1, q);
    }
  }

  /** Only the counters from depth `p` on matter to `Counted(..., p)`. */
  lemma {:induction false} CountedSame(T: seq<seq<string>>, f: nat, a: seq<nat>, b: seq<nat>,
                                       p: nat)
    requires Counted(T, f, a, p) && |a| == |b|
    requires forall x :: p <= x < |a| ==> a[x] == b[x]
    ensures Counted(T, f, b, p)
    decreases |a| - p
  {
    if p < |a| {
      CountedSame(T, f, a, b, p + 1);
    }
  }

  /** `for i in 0..num_match { ref_counts[i] += 1 }`: the next record shares the first
      `numMatch` segments, so it joins the stretches counted at those depths. */
  method Increment(counts: seq<nat>, numMatch: nat) returns (counts': seq<nat>)
    requires numMatch <= |counts|
    ensures |counts'| == |counts|
    ensures forall p :: 0 <= p < |counts| ==>
              counts'[p] == if p < numMatch then counts[p] + 1 else counts[p]
  {
    counts' := counts;
    var i := 0;
    while i < numMatch
      invariant i <= numMatch && |counts'| == |counts|
      invariant forall p :: 0 <= p < |counts| ==>
                  counts'[p] == if p < i then counts[p] + 1 else counts[p]
    {
      counts' := counts'[i := counts'[i] + 1];
      i := i + 1;
    }
  }

  /** With the counters of the shared depths raised, the inner loop can start at the deepest
      depth of the reference path. */
  lemma StartClose(tokens: seq<string>, raw: string, counts: seq<nat>, raised: seq<nat>,
                   numMatch: nat, index: nat, aligned: bool, T: seq<seq<string>>)
    requires Walking(tokens, raw, counts, index, aligned, T) && index < |T|
    requires numMatch == CommonLength(T[|T| - index], T[|T| - index - 1])
    requires |raised| == |counts|
    requires forall p :: 0 <= p < |counts| ==>
               raised[p] == if p < numMatch then counts[p] + 1 else counts[p]
    ensures ClosingAt(tokens, raw, raised, numMatch, index, |raised|, 1, aligned, T)
  {
    CountedFrom(T, |T| - index, counts, 0, numMatch);
    CountedSame(T, |T| - index, counts, raised, numMatch);
    assert tokens[..|raised|] == tokens;
  }

  /** After the last path, the final loop can start at the deepest depth. */
  lemma StartFlush(tokens: seq<string>, raw: string, counts: seq<nat>, index: nat,
                   aligned: bool, T: seq<seq<string>>)
    requires Walking(tokens, raw, counts, index, aligned, T) && index == |T|
    ensures ClosingAt(tokens, raw, counts, 0, index, |counts|, 1, aligned, T)
  {
    assert tokens[..|counts|] == tokens;
  }

  /** A stretch sharing `m` segments with its first record grows by a record before it that
      shares them too. */
  lemma RunExtend(T: seq<seq<string>>, lo: nat, hi: nat, m: nat)
    requires 0 < lo && Run(T, lo, hi, m) && Agree(T, lo - 1, lo, m)
    ensures Run(T, lo - 1, hi, m)
  {
    var prev := lo - 1;
    forall x | prev <= x < hi
      ensures Agree(T, x, prev, m)
    {
      if x >= lo {
        assert Agree(T, x, lo, m);
      }
    }
  }

  /** The counters for the next reference path, record `f - 1`: one more at the shared depths,
      and 1 at the depths it does not share with record `f`. */
  lemma {:induction false} CountedNext(T: seq<seq<string>>, f: nat, counts: seq<nat>,
                                       numMatch: nat, next: seq<nat>, p: nat)
    requires 0 < f < |T| && numMatch == CommonLength(T[f], T[f - 1])
    requires |counts| == |T[f]| && Counted(T, f, counts, 0)
    requires |next| == |T[f - 1]|
    requires forall q :: 0 <= q < numMatch ==> next[q] == counts[q] + 1
    requires forall q :: numMatch <= q < |next| ==> next[q] == 1
    ensures Counted(T, f - 1, next, p)
    decreases |next| - p
  {
    if p < |next| {
      CountedNext(T, f, counts, numMatch, next, p + 1);
      if p < numMatch {
        CountedAt(T, f, counts, 0, p);
        ShareFewer(T[f], T[f - 1], numMatch, p + 1);
        RunExtend(T, f, f + counts[p], p + 1);
      } else {
        CommonLengthExact(T[f], T[f - 1], p + 1);
        assert Agree(T, f - 1, f - 1, p + 1);
      }
    }
  }

  /** One step of the main loop: after the inner loop has walked down to `numMatch`, the
      counters cut to the shared depths and extended with 1s for a longer next path describe
      the next reference path, which is the next path when it is longer and otherwise the
      current one cut down, holding the same segments. */
  lemma Advance(tokens: seq<string>, raw: string, pathTokens: seq<string>, pathRaw: string,
                counts: seq<nat>, raised: seq<nat>, numMatch: nat, index: nat, aligned: bool,
                T: seq<seq<string>>)
    requires 0 < index < |T| && |counts| == |T[|T| - index]|
    requires Descending(counts) && Positive(counts) && Counted(T, |T| - index, counts, 0)
    requires numMatch == CommonLength(T[|T| - index], T[|T| - index - 1])
    requires |raised| == |counts|
    requires forall p :: 0 <= p < |counts| ==>
               raised[p] == if p < numMatch then counts[p] + 1 else counts[p]
    requires tokens == T[|T| - index][..numMatch] && |Slashed(tokens)| <= |raw|
    requires aligned ==> EndsWith(raw, Slashed(tokens))
    requires pathTokens == T[|T| - index - 1] && |pathTokens| >= 1
    requires |Slashed(pathTokens)| <= |pathRaw|
    requires aligned ==> EndsWith(pathRaw, Slashed(pathTokens))
    ensures numMatch <= |raised| && numMatch <= |pathTokens|
    ensures |pathTokens| > numMatch ==>
              Walking(pathTokens, pathRaw, raised[..numMatch] + Ones(|pathTokens| - numMatch),
                      index + 1, aligned, T)
    ensures |pathTokens| <= numMatch ==>
              Walking(tokens, raw, raised[..numMatch], index + 1, aligned, T)
  {
    var f := |T| - index;
    var next := raised[..numMatch] + Ones(|pathTokens| - numMatch);
    CountedNext(T, f, counts, numMatch, next, 0);
    if |pathTokens| <= numMatch {
      assert next == raised[..numMatch];
      assert tokens == T[f - 1][..numMatch] == T[f - 1];
    }
  }

  /** Nothing emitted so far ends at the next backward index. */
  lemma EmittedNext(aligned: bool, T: seq<seq<string>>, retval: seq<Prefix>,
                    spans: seq<(nat, nat)>, index: nat, bound: nat)
    requires EmittedBy(aligned, T, retval, spans, index, bound)
    ensures EmittedBy(aligned, T, retval, spans, index + 1, 0)
  {
  }

  lemma LabelledBounds(aligned: bool, T: seq<seq<string>>, rs: seq<Prefix>,
                       spans: seq<(nat, nat)>)
    requires Labelled(aligned, T, rs, spans)
    ensures forall a :: 0 <= a < |rs| ==> rs[a].start < rs[a].end <= |T|
  {
    forall a | 0 <= a < |rs|
      ensures rs[a].start < rs[a].end <= |T|
    {
      LabelledAt(aligned, T, rs, spans, a);
    }
  }

  /** The runs in the order `retval.reverse()` leaves them, each mapped into forward index
      space as the last loop of `build` does. */
  function Forward(rs: seq<Prefix>, n: nat): (r: seq<Prefix>)
    requires forall a :: 0 <= a < |rs| ==> rs[a].start <= rs[a].end <= n
    ensures |r| == |rs|
    ensures forall j :: 0 <= j < |rs| ==> r[j] == Remap(rs[|rs| - 1 - j], n)
  {
    seq(|rs|, j requires 0 <= j < |rs| => Remap(rs[|rs| - 1 - j], n))
  }

  function Reversed<X>(xs: seq<X>): (r: seq<X>)
    ensures |r| == |xs| && forall j :: 0 <= j < |xs| ==> r[j] == xs[|xs| - 1 - j]
  {
    seq(|xs|, j requires 0 <= j < |xs| => xs[|xs| - 1 - j])
  }

  /** Runs within the records `0..n`, ordered by start and, for the same start, the wider
      first, any two of them either disjoint or one inside the other. */
  predicate Nested(runs: seq<Prefix>, n: nat) {
    (forall a :: 0 <= a < |runs| ==> runs[a].start < runs[a].end <= n)
    && Ordered(runs) && Laminar(runs)
  }

  predicate Ordered(runs: seq<Prefix>) {
    forall a, b :: 0 <= a < b < |runs| ==>
      runs[a].start < runs[b].start || (runs[a].start == runs[b].start && runs[b].end < runs[a].end)
  }

  predicate Laminar(runs: seq<Prefix>) {
    forall a, b :: 0 <= a < b < |runs| ==>
      runs[b].end <= runs[a].end || runs[a].end <= runs[b].start
  }

  /** Reversing the emitted runs and mapping them forward gives runs that each keep the
      meaning `Labels` gives them. */
  lemma ForwardLabels(aligned: bool, T: seq<seq<string>>, rs: seq<Prefix>,
                      spans: seq<(nat, nat)>)
    requires Labelled(aligned, T, rs, spans)
    ensures forall a :: 0 <= a < |rs| ==> rs[a].start < rs[a].end <= |T|
    ensures forall a :: 0 <= a < |rs| ==>
              Labels(aligned, T, Forward(rs, |T|)[a], Reversed(spans)[a].0, Reversed(spans)[a].1)
  {
    LabelledBounds(aligned, T, rs, spans);
    var runs, fs := Forward(rs, |T|), Reversed(spans);
    forall a | 0 <= a < |rs|
      ensures Labels(aligned, T, runs[a], fs[a].0, fs[a].1)
    {
      LabelledAt(aligned, T, rs, spans, |rs| - 1 - a);
    }
  }

  /** The emission order, reversed and mapped forward, is the order by start, wider first. */
  lemma ForwardOrdered(rs: seq<Prefix>, n: nat)
    requires EmitOrder(rs)
    requires forall a :: 0 <= a < |rs| ==> rs[a].start < rs[a].end <= n
    ensures Ordered(Forward(rs, n))
  {
    var runs := Forward(rs, n);
    forall a, b | 0 <= a < b < |runs|
      ensures runs[a].start < runs[b].start
              || (runs[a].start == runs[b].start && runs[b].end < runs[a].end)
    {
      var x, y := |rs| - 1 - b, |rs| - 1 - a;
      assert x < y;
    }
  }

  /** Two ordered runs that are maximal stretches (`Block`) are nested or disjoint. */
  lemma BlocksLaminar(aligned: bool, T: seq<seq<string>>, runs: seq<Prefix>,
                      spans: seq<(nat, nat)>)
    requires Ordered(runs) && |spans| == |runs|
    requires forall a :: 0 <= a < |runs| ==> Labels(aligned, T, runs[a], spans[a].0, spans[a].1)
    ensures Laminar(runs)
  {
    forall a, b | 0 <= a < b < |runs|
      ensures runs[b].end <= runs[a].end || runs[a].end <= runs[b].start
    {
      var ra, rb := runs[a], runs[b];
      assert Labels(aligned, T, ra, spans[a].0, spans[a].1);
      assert Labels(aligned, T, rb, spans[b].0, spans[b].1);
      if rb.start < ra.end && ra.end < rb.end {
        if spans[a].0 <= spans[b].0 {
          BlocksNest(T, ra.start, ra.end, spans[a].0 + 1, rb.start, rb.end, spans[b].0 + 1);
        } else {
          BlocksNest(T, rb.start, rb.end, spans[b].0 + 1, ra.start, ra.end, spans[a].0 + 1);
        }
      }
    }
  }

  /** Every maximal stretch of two or more records sharing `m >= 1` segments is one of
      `runs`, with a span that takes in depth `m - 1`. */
  ghost predicate Complete(T: seq<seq<string>>, runs: seq<Prefix>, spans: seq<(nat, nat)>) {
    |spans| == |runs|
    && forall lo, hi, m :: Shared(T, lo, hi, m) ==>
         exists a :: 0 <= a < |runs| && runs[a].start == lo && runs[a].end == hi
                     && spans[a].0 < m <= spans[a].1
  }

  /** The stretches found in backward index space are the runs of the forward ones. */
  lemma ForwardFound(T: seq<seq<string>>, rs: seq<Prefix>, spans: seq<(nat, nat)>)
    requires FoundFrom(T, rs, spans, 0) && |spans| == |rs|
    requires forall a :: 0 <= a < |rs| ==> rs[a].start <= rs[a].end <= |T|
    ensures Complete(T, Forward(rs, |T|), Reversed(spans))
  {
    var runs, fs := Forward(rs, |T|), Reversed(spans);
    forall lo: nat, hi: nat, m: nat | Shared(T, lo, hi, m)
      ensures exists a :: 0 <= a < |runs| && runs[a].start == lo && runs[a].end == hi
                          && fs[a].0 < m <= fs[a].1
    {
      var b :| 0 <= b < |rs| && b < |spans| && rs[b].start == |T| - hi && rs[b].end == |T| - lo
               && spans[b].0 < m <= spans[b].1;
      var a := |rs| - 1 - b;
      assert runs[a] == Remap(rs[b], |T|) && fs[a] == spans[b];
    }
  }

  /** Only the first run may hold a single record: one that does is the depth-0 run of
      record 0, which the first run already is. */
  lemma OnlyFirstSingle(aligned: bool, T: seq<seq<string>>, runs: seq<Prefix>,
                        spans: seq<(nat, nat)>)
    requires Ordered(runs) && |spans| == |runs| && runs != [] && runs[0].start == 0
    requires spans[0].0 == 0
    requires forall a :: 0 <= a < |runs| ==> Labels(aligned, T, runs[a], spans[a].0, spans[a].1)
    ensures forall a :: 0 < a < |runs| ==> runs[a].end - runs[a].start >= 2
  {
    forall a | 0 < a < |runs| && runs[a].end - runs[a].start < 2
      ensures false
    {
      assert Labels(aligned, T, runs[a], spans[a].0, spans[a].1);
      assert Labels(aligned, T, runs[0], spans[0].0, spans[0].1);
      RunUnique(T, 0, runs[a].end, runs[0].end, 1);
    }
  }

  /** `Prefix::build`: walks the paths from the last to the first, keeping the last path seen
      that is not shorter than its successor as reference and counting, per depth of it, the
      records that share that many segments; each depth's run is closed where the next path
      stops sharing it. The runs come out in record order, the wider first, nested or
      disjoint; each is a maximal stretch of records sharing the segments down to its depth,
      all sharing the segments its label spells (for paths that end at a segment) and not the
      next one, and only the first covers a single record. Every maximal stretch of two or more
      records sharing some segments is one of the runs. These hold for the corrected final
      loop (`SkipLevel`): the loop as written (`PrefixFinding.FlushAsWritten`) can mislabel a run. */
  method Build(paths: seq<string>) returns (runs: seq<Prefix>, ghost spans: seq<(nat, nat)>)
    requires forall k :: 0 <= k < |paths| ==> WellFormed(paths[k])
    ensures |spans| == |runs|
    ensures paths == [] ==> runs == []
    ensures paths != [] ==> runs != [] && runs[0].start == 0 && spans[0].0 == 0
    ensures Nested(runs, |paths|)
    ensures forall a :: 0 <= a < |runs| ==>
              Labels(AllAligned(paths), AllTokens(paths), runs[a], spans[a].0, spans[a].1)
    ensures forall a :: 0 < a < |runs| ==> runs[a].end - runs[a].start >= 2
    ensures forall lo, hi, m :: Shared(AllTokens(paths), lo, hi, m) ==>
              exists a :: 0 <= a < |runs| && runs[a].start == lo && runs[a].end == hi
                          && spans[a].0 < m <= spans[a].1
  {
    var n := |paths|;
    if n == 0 {
      return [], [];
    }
    ghost var T := AllTokens(paths);
    ghost var aligned := AllAligned(paths);
    var refPath, counts, retval;
    ghost var emitted;
    refPath, counts, retval, emitted := Walk(paths);
    var sum := n;
    runs, spans := Finish(refPath, counts, sum, retval, emitted, aligned, T);
  }

  /** `raw_path.into()` for the path at `k`, with what `build` relies on about it. */
  method Load(paths: seq<string>, k: nat) returns (path: Path)
    requires k < |paths| && forall k :: 0 <= k < |paths| ==> WellFormed(paths[k])
    ensures fresh(path) && path.tokens == AllTokens(paths)[k]
    ensures 1 <= |path.tokens| && |Slashed(path.tokens)| <= |path.raw|
    ensures AllAligned(paths) ==> EndsWith(path.raw, Slashed(path.tokens))
  {
    assert WellFormed(paths[k]);
    path := new Path.From(paths[k]);
    AllTokensAt(paths, k);
    if AllAligned(paths) {
      AllAlignedAt(paths, k);
    }
  }

  /** The main loop of `build`: the paths walked from the last to the first, leaving the
      deepest path of the first record's chain as reference, its counters, and the runs closed
      on the way. */
  method Walk(paths: seq<string>)
    returns (refPath: Path, counts: seq<nat>, retval: seq<Prefix>, ghost emitted: seq<(nat, nat)>)
    requires paths != [] && forall k :: 0 <= k < |paths| ==> WellFormed(paths[k])
    ensures fresh(refPath)
    ensures Walking(refPath.tokens, refPath.raw, counts, |paths|, AllAligned(paths), AllTokens(paths))
    ensures EmittedBy(AllAligned(paths), AllTokens(paths), retval, emitted, |paths|, 0)
    ensures FoundFrom(AllTokens(paths), retval, emitted, 1)
  {
    var n := |paths|;
    ghost var T := AllTokens(paths);
    ghost var aligned := AllAligned(paths);
    retval, emitted := [], [];
    refPath, counts := Start(paths);
    var index := 1;
    while index < n
      invariant 1 <= index <= n && fresh(refPath)
      invariant Walking(refPath.tokens, refPath.raw, counts, index, aligned, T)
      invariant EmittedBy(aligned, T, retval, emitted, index, 0)
      invariant FoundFrom(T, retval, emitted, n - index + 1)
      decreases n - index
    {
      assert |T| - index - 1 == n - 1 - index;
      var path := Load(paths, n - 1 - index);
      refPath, counts, retval, emitted := Step(refPath, path, counts, index, retval, emitted,
                                               aligned, T);
      index := index + 1;
    }
  }

  /** Before the main loop of `build`: the last path is the reference, every counter 1. */
  method Start(paths: seq<string>) returns (refPath: Path, counts: seq<nat>)
    requires paths != [] && forall k :: 0 <= k < |paths| ==> WellFormed(paths[k])
    ensures fresh(refPath)
    ensures Walking(refPath.tokens, refPath.raw, counts, 1, AllAligned(paths), AllTokens(paths))
  {
    refPath := Load(paths, |paths| - 1);
    counts := Ones(refPath.NumLevel());
    CountedOnes(AllTokens(paths), |paths| - 1, 0);
  }

  /** One pass of the main loop of `build`, for the path at backward index `index`: the
      counters of the depths it shares with the reference path are raised, the inner loop
      closes the deeper runs, and it becomes the reference path if it is longer than what is
      left of the old one. */
  method Step(refPath: Path, path: Path, counts: seq<nat>, index: nat, retval: seq<Prefix>,
              ghost emitted: seq<(nat, nat)>, ghost aligned: bool, ghost T: seq<seq<string>>)
    returns (refPath': Path, counts': seq<nat>, retval': seq<Prefix>,
             ghost emitted': seq<(nat, nat)>)
    requires Walking(refPath.tokens, refPath.raw, counts, index, aligned, T) && index < |T|
    requires path.tokens == T[|T| - index - 1] && |path.tokens| >= 1
    requires |Slashed(path.tokens)| <= |path.raw|
    requires aligned ==> EndsWith(path.raw, Slashed(path.tokens))
    requires EmittedBy(aligned, T, retval, emitted, index, 0)
    requires FoundFrom(T, retval, emitted, |T| - index + 1)
    requires refPath != path
    modifies refPath
    ensures refPath' == refPath || refPath' == path
    ensures Walking(refPath'.tokens, refPath'.raw, counts', index + 1, aligned, T)
    ensures EmittedBy(aligned, T, retval', emitted', index + 1, 0)
    ensures FoundFrom(T, retval', emitted', |T| - index)
  {
    var numMatch := refPath.MatchTokens(path);
    ghost var tokens, raw := refPath.tokens, refPath.raw;
    var raised := Increment(counts, numMatch);
    StartClose(tokens, raw, counts, raised, numMatch, index, aligned, T);
    retval', emitted' := Close(refPath, raised, numMatch, index, retval, emitted, aligned, T);
    Advance(refPath.tokens, refPath.raw, path.tokens, path.raw, counts, raised, numMatch,
            index, aligned, T);
    counts' := raised[..refPath.NumLevel()];
    refPath' := refPath;
    if path.NumLevel() > refPath.NumLevel() {
      counts' := counts' + Ones(path.NumLevel() - refPath.NumLevel());
      refPath' := path;
    }
    EmittedNext(aligned, T, retval', emitted', index, index + 1);
  }

  /** The final loop of `build`, then `retval.reverse()` and the mapping of every range into
      forward index space. */
  method Finish(refPath: Path, counts: seq<nat>, sum: nat, retval: seq<Prefix>,
                ghost emitted: seq<(nat, nat)>, ghost aligned: bool, ghost T: seq<seq<string>>)
    returns (runs: seq<Prefix>, ghost spans: seq<(nat, nat)>)
    requires Walking(refPath.tokens, refPath.raw, counts, sum, aligned, T) && sum == |T|
    requires EmittedBy(aligned, T, retval, emitted, sum, 0)
    requires FoundFrom(T, retval, emitted, 1)
    modifies refPath
    ensures |spans| == |runs| && runs != [] && runs[0].start == 0 && spans[0].0 == 0
    ensures Nested(runs, |T|)
    ensures forall a :: 0 <= a < |runs| ==> Labels(aligned, T, runs[a], spans[a].0, spans[a].1)
    ensures forall a :: 0 < a < |runs| ==> runs[a].end - runs[a].start >= 2
    ensures Complete(T, runs, spans)
  {
    StartFlush(refPath.tokens, refPath.raw, counts, sum, aligned, T);
    var flushed;
    ghost var closed;
    flushed, closed := Flush(refPath, counts, sum, retval, emitted, aligned, T);
    ForwardLabels(aligned, T, flushed, closed);
    ForwardOrdered(flushed, sum);
    BlocksLaminar(aligned, T, Forward(flushed, sum), Reversed(closed));
    ForwardFound(T, flushed, closed);
    runs := ReverseRemap(flushed, sum);
    spans := Reversed(closed);
    OnlyFirstSingle(aligned, T, runs, spans);
  }

  /** `retval.reverse()` followed by the loop that maps every range into forward index
      space. */
  method ReverseRemap(flushed: seq<Prefix>, sum: nat) returns (runs: seq<Prefix>)
    requires forall a :: 0 <= a < |flushed| ==> flushed[a].start <= flushed[a].end <= sum
    ensures runs == Forward(flushed, sum)
  {
    var m := |flushed|;
    runs := Reversed(flushed);
    var i := 0;
    while i < m
      invariant i <= m && |runs| == m
      invariant forall j :: 0 <= j < i ==> runs[j] == Forward(flushed, sum)[j]
      invariant forall j :: i <= j < m ==> runs[j] == flushed[m - 1 - j]
    {
      runs := runs[i := Prefix(runs[i].text, sum - runs[i].end, sum - runs[i].start)];
      i := i + 1;
    }
  }
}
