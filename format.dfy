/** The renderer: JSON-like values written as indented `key value` lines, and the record list
    written as a tree whose inner nodes are the runs `Prefix::build` finds. */
module Format {
  import opened Basics
  import opened Text
  import opened Percent
  import opened Prefixes

  /** The indentation added for every open run. */
  const INDENT_WIDTH: nat := 2

  /** A JSON value. A number is kept as the text it prints as; an object's entries are in
      the map's iteration order. */
  datatype Value =
    | Null
    | Bool(b: bool)
    | Number(repr: string)
    | Str(s: string)
    | Array(items: seq<Value>)
    | Object(entries: seq<(string, Value)>)
  {
    predicate IsScalar() {
      Bool? || Number? || Str?
    }
  }

  /** What one `writeln!` call is given: `{:indent$}` pads the empty string to `indent`
      blanks. */
  function Line(indent: nat, text: string): string {
    Spaces(indent) + text
  }

  /** `Wrapper::fmt`: a scalar prints as itself; null, arrays and objects print nothing. */
  function Display(v: Value): (r: string)
    ensures v.IsScalar() || r == ""
  {
    match v
    case Str(s) => s
    case Number(n) => n
    case Bool(b) => if b then "true" else "false"
    case _ => ""
  }

  /** The rendering context `Context`: the step by which nested maps are indented, the words
      for booleans, the key a value is printed under and the current indentation. */
  datatype Context = Context(indentWidth: nat, yesno: (string, string), key: string, indent: nat)
  {
    /** `yesno[b as usize]`: `false` picks the first word and `true` the second. */
    function Word(b: bool): string {
      if b then yesno.1 else yesno.0
    }

    /** The context for the entries of a nested map. */
    function Deeper(): (c: Context)
      ensures c.indent == indent + indentWidth && c.key == "" && c.yesno == yesno
      ensures c.indentWidth == indentWidth
    {
      this.(indent := indent + indentWidth, key := "")
    }
  }

  /** The lines an array prints under `key`: one `key item` line per element. */
  function ArrayLines(indent: nat, key: string, items: seq<Value>): (r: seq<string>)
    ensures |r| == |items|
  {
    seq(|items|, k requires 0 <= k < |items| => Line(indent, key + " " + Display(items[k])))
  }

  /** One map entry, as the loop body of `Format for Map` prints it. */
  function EntryLines(key: string, v: Value, ctx: Context): seq<string>
    decreases v, 2
  {
    match v
    case Null => [Line(ctx.indent, key)]
    case Bool(b) => [Line(ctx.indent, key + " " + ctx.Word(b))]
    case Number(n) => [Line(ctx.indent, key + " " + n)]
    case Str(s) => [Line(ctx.indent, key + " " + s)]
    case Array(items) => ArrayLines(ctx.indent, key, items)
    case Object(m) => [Line(ctx.indent, key)] + EntriesFrom(v, 0, ctx.Deeper())
  }

  /** `Format for Map` on the entries of `obj` from the `from`-th on. */
  function EntriesFrom(obj: Value, from: nat, ctx: Context): seq<string>
    requires obj.Object? && from <= |obj.entries|
    decreases obj, 1, |obj.entries| - from
  {
    if from == |obj.entries| then []
    else
      var e := obj.entries[from];
      assert e in obj.entries;
      EntryLines(e.0, e.1, ctx) + EntriesFrom(obj, from + 1, ctx)
  }

  /** `Format for Map`: every entry in iteration order. */
  function FormatMap(m: seq<(string, Value)>, ctx: Context): seq<string> {
    EntriesFrom(Object(m), 0, ctx)
  }

  /** `Format for Value`, for a value printed under `ctx.key`. */
  function FormatValue(v: Value, ctx: Context): seq<string> {
    match v
    case Null => [Line(ctx.indent, ctx.key)]
    case Array(items) => ArrayLines(ctx.indent, ctx.key, items)
    case Object(m) =>
      (if ctx.key != "" then [Line(ctx.indent, ctx.key)] else [])
      + FormatMap(m, ctx.(indent := ctx.indent + ctx.indentWidth))
    case _ => []
  }

  /** Every line indented by `d` more blanks. */
  function Indented(d: nat, lines: seq<string>): (r: seq<string>)
    ensures |r| == |lines|
  {
    seq(|lines|, k requires 0 <= k < |lines| => Spaces(d) + lines[k])
  }

  lemma SpacesAdd(a: nat, b: nat)
    ensures Spaces(a + b) == Spaces(a) + Spaces(b)
  {
  }

  lemma IndentedAppend(d: nat, a: seq<string>, b: seq<string>)
    ensures Indented(d, a + b) == Indented(d, a) + Indented(d, b)
  {
  }

  /** Printing an entry `d` blanks deeper indents each of its lines by `d`, whatever the key
      the context carries, */
  lemma {:induction false} EntryShift(key: string, v: Value, ctx: Context, d: nat, k: string)
    ensures EntryLines(key, v, ctx.(indent := ctx.indent + d, key := k))
            == Indented(d, EntryLines(key, v, ctx))
    decreases v, 2
  {
    var ctx' := ctx.(indent := ctx.indent + d, key := k);
    match v
    case Object(m) =>
      LineShift(ctx.indent, d, key);
      assert ctx'.Deeper() == ctx.Deeper().(indent := ctx.Deeper().indent + d, key := "");
      EntriesShift(v, 0, ctx.Deeper(), d, "");
    case Array(items) =>
      forall j | 0 <= j < |items|
        ensures ArrayLines(ctx.indent + d, key, items)[j]
                == Spaces(d) + ArrayLines(ctx.indent, key, items)[j]
      {
        LineShift(ctx.indent, d, key + " " + Display(items[j]));
      }
    case Null =>
      LineShift(ctx.indent, d, key);
    case Bool(b) =>
      LineShift(ctx.indent, d, key + " " + ctx.Word(b));
    case Number(n) =>
      LineShift(ctx.indent, d, key + " " + n);
    case Str(t) =>
      LineShift(ctx.indent, d, key + " " + t);
  }

  lemma LineShift(indent: nat, d: nat, text: string)
    ensures Line(indent + d, text) == Spaces(d) + Line(indent, text)
  {
    SpacesAdd(d, indent);
  }

  /** and so does printing the remaining entries of a map. */
  lemma {:induction false} EntriesShift(obj: Value, from: nat, ctx: Context, d: nat, k: string)
    requires obj.Object? && from <= |obj.entries|
    ensures EntriesFrom(obj, from, ctx.(indent := ctx.indent + d, key := k))
            == Indented(d, EntriesFrom(obj, from, ctx))
    decreases obj, 1, |obj.entries| - from
  {
    if from < |obj.entries| {
      var e := obj.entries[from];
      assert e in obj.entries;
      EntryShift(e.0, e.1, ctx, d, k);
      EntriesShift(obj, from + 1, ctx, d, k);
      IndentedAppend(d, EntryLines(e.0, e.1, ctx), EntriesFrom(obj, from + 1, ctx));
    }
  }

  /** A map prints the same lines under any key, and at indentation `indent` its lines are
      those at indentation 0 shifted right by `indent`: every line starts with the context's
      indentation. */
  lemma MapIndent(m: seq<(string, Value)>, ctx: Context, k: string)
    ensures FormatMap(m, ctx.(key := k)) == FormatMap(m, ctx)
    ensures FormatMap(m, ctx) == Indented(ctx.indent, FormatMap(m, ctx.(indent := 0)))
  {
    var base := ctx.(indent := 0);
    EntriesShift(Object(m), 0, base, ctx.indent, k);
    EntriesShift(Object(m), 0, base, ctx.indent, ctx.key);
    assert base.(indent := base.indent + ctx.indent, key := ctx.key) == ctx;
    assert base.(indent := base.indent + ctx.indent, key := k) == ctx.(key := k);
  }

  /** A value printed on its own under a non-empty key prints exactly as the map entry with
      that key would, except that a scalar prints nothing at all; under the empty key an
      object prints its entries without a header line. */
  lemma ValueAsEntry(v: Value, ctx: Context)
    ensures v.IsScalar() ==> FormatValue(v, ctx) == []
    ensures !v.IsScalar() && ctx.key != "" ==> FormatValue(v, ctx) == EntryLines(ctx.key, v, ctx)
    ensures v.Object? && ctx.key == "" ==> FormatValue(v, ctx) == FormatMap(v.entries, ctx.Deeper())
  {
    if v.Object? {
      MapIndent(v.entries, ctx.Deeper(), ctx.key);
      assert ctx.Deeper().(key := ctx.key) == ctx.(indent := ctx.indent + ctx.indentWidth);
    }
  }

  /** With the words `Formatter::from` chooses, `true` prints as `no` and `false` as `yes`. */
  lemma BoolWords(key: string, indent: nat)
    ensures EntryLines(key, Bool(true), Context(INDENT_WIDTH, ("yes", "no"), "", indent))
            == [Line(indent, key + " no")]
    ensures EntryLines(key, Bool(false), Context(INDENT_WIDTH, ("yes", "no"), "", indent))
            == [Line(indent, key + " yes")]
  {
    assert key + " " + "no" == key + " no";
    assert key + " " + "yes" == key + " yes";
  }

  /** Some piece of the path decodes, on its own, to text holding a `/`. */
  predicate SlashInPiece(pieces: seq<string>) {
    exists k :: 0 <= k < |pieces| && '/' in Decode(pieces[k]).GetOr("")
  }

  /** `decode_path`: percent-decodes a label; when a piece between the `/`s decodes to text
      holding a `/` itself, the separators are turned into `.` first. A decoding failure gives
      the empty string. */
  function DecodePath(path: string): (r: string)
    ensures |r| <= |path|
  {
    if SlashInPiece(Split(path, '/')) then Decode(ReplaceChar(path, '/', '.')).GetOr("")
    else Decode(path).GetOr("")
  }

  /** A successful decoding is the byte-level decoding. */
  lemma DecodeSome(s: string)
    requires Decode(s).Some?
    ensures Decode(s).value == DecodeBytes(s)
  {
    if '%' !in s {
      DecodeBytesPlain(s);
    }
  }

  /** Replacing every separator is joining the pieces with the new one. */
  lemma {:induction false} ReplaceJoin(ts: seq<string>, from: char, to: char)
    requires |ts| >= 1 && forall k :: 0 <= k < |ts| ==> from !in ts[k]
    ensures ReplaceChar(Join(ts, from), from, to) == Join(ts, to)
    decreases |ts|
  {
    if |ts| == 1 {
      assert forall k :: 0 <= k < |ts[0]| ==> ts[0][k] != from by {
        forall k | 0 <= k < |ts[0]| ensures ts[0][k] != from {
          assert ts[0][k] in ts[0];
        }
      }
    } else {
      var rest := Join(ts[1..], from);
      ReplaceJoin(ts[1..], from, to);
      var s := ts[0] + [from] + rest;
      assert ReplaceChar(s, from, to) == ReplaceChar(ts[0], from, to) + [to] + ReplaceChar(rest, from, to);
      assert ReplaceChar(ts[0], from, to) == ts[0] by {
        ReplaceJoin([ts[0]], from, to);
      }
    }
  }

  /** When no piece decodes to a `/`, `decode_path` decodes each piece on its own and keeps
      the `/` separators: splitting the result at `/` gives the decoded pieces. */
  lemma DecodePathPieces(path: string)
    requires forall k :: 0 <= k < |Split(path, '/')| ==> '/' !in DecodeBytes(Split(path, '/')[k])
    ensures Decode(path).Some? ==> DecodePath(path) == Join(DecodeEach(Split(path, '/')), '/')
    ensures Decode(path).Some? ==> Split(DecodePath(path), '/') == DecodeEach(Split(path, '/'))
    ensures Decode(path).None? ==> DecodePath(path) == ""
  {
    var pieces := Split(path, '/');
    NoSlashInPiece(pieces);
    if Decode(path).Some? {
      DecodeSome(path);
      JoinSplit(path, '/');
      DecodeJoin(pieces, '/');
      assert DecodePath(path) == Join(DecodeEach(pieces), '/');
      forall k | 0 <= k < |pieces| ensures '/' !in DecodeEach(pieces)[k] {
        DecodeEachAt(pieces, k);
      }
      SplitJoin(DecodeEach(pieces), '/');
    }
  }

  lemma NoSlashInPiece(pieces: seq<string>)
    requires forall k :: 0 <= k < |pieces| ==> '/' !in DecodeBytes(pieces[k])
    ensures !SlashInPiece(pieces)
  {
    forall k | 0 <= k < |pieces| ensures '/' !in Decode(pieces[k]).GetOr("") {
      if Decode(pieces[k]).Some? {
        DecodeSome(pieces[k]);
      }
    }
  }

  lemma {:induction false} DecodeEachAt(ts: seq<string>, k: nat)
    requires k < |ts|
    ensures DecodeEach(ts)[k] == DecodeBytes(ts[k])
  {
    if k > 0 {
      DecodeEachAt(ts[1..], k - 1);
    }
  }

  /** When some piece decodes to a `/`, `decode_path` decodes each piece on its own and joins
      them with `.`. */
  lemma DecodePathDotted(path: string)
    requires SlashInPiece(Split(path, '/'))
    ensures Decode(ReplaceChar(path, '/', '.')).Some? ==>
              DecodePath(path) == Join(DecodeEach(Split(path, '/')), '.')
    ensures Decode(ReplaceChar(path, '/', '.')).None? ==> DecodePath(path) == ""
  {
    var pieces := Split(path, '/');
    JoinSplit(path, '/');
    ReplaceJoin(pieces, '/', '.');
    if Decode(ReplaceChar(path, '/', '.')).Some? {
      DecodeSome(ReplaceChar(path, '/', '.'));
      DecodeJoin(pieces, '.');
    }
  }

  /** What `Display for Formatter` produces: the lines written, or a panic. The lines
      printed before a panic reach the terminal, but the model drops them and keeps only the
      fact that the output ended in a panic. */
  datatype Outcome = Printed(lines: seq<string>) | Panicked

  /** Run `a` is open at record `i`. */
  predicate Covers(runs: seq<Prefix>, a: nat, i: nat) {
    a < |runs| && runs[a].start <= i < runs[a].end
  }

  /** The runs below `j` that are open at record `i`, in order. */
  function CoverBelow(runs: seq<Prefix>, j: nat, i: nat): (s: seq<nat>)
    requires j <= |runs|
    ensures |s| <= j
  {
    if j == 0 then []
    else CoverBelow(runs, j - 1, i) + (if Covers(runs, j - 1, i) then [j - 1] else [])
  }

  /** All runs open at record `i`: the records' ancestors in the printed tree. */
  function Cover(runs: seq<Prefix>, i: nat): seq<nat> {
    CoverBelow(runs, |runs|, i)
  }

  /** The summed label lengths of the runs `s`. */
  function TextLen(runs: seq<Prefix>, s: seq<nat>): nat {
    if s == [] then 0
    else
      var a := s[|s| - 1];
      TextLen(runs, s[..|s| - 1]) + (if a < |runs| then |runs[a].text| else 0)
  }

  /** The runs of `s` that are still open after record `i`. */
  function Keep(runs: seq<Prefix>, s: seq<nat>, i: nat): seq<nat> {
    if s == [] then []
    else
      var a := s[|s| - 1];
      Keep(runs, s[..|s| - 1], i) + (if a < |runs| && i < runs[a].end then [a] else [])
  }

  /** Each run of `s` ends no later than the one before it. */
  predicate Chain(runs: seq<Prefix>, s: seq<nat>) {
    (forall k :: 0 <= k < |s| ==> s[k] < |runs|)
    && forall p, q :: 0 <= p < q < |s| ==> runs[s[q]].end <= runs[s[p]].end
  }

  lemma {:induction false} CoverMembers(runs: seq<Prefix>, j: nat, i: nat)
    requires j <= |runs|
    ensures forall k :: 0 <= k < |CoverBelow(runs, j, i)| ==>
              CoverBelow(runs, j, i)[k] < j && Covers(runs, CoverBelow(runs, j, i)[k], i)
    ensures forall p, q :: 0 <= p < q < |CoverBelow(runs, j, i)| ==>
              CoverBelow(runs, j, i)[p] < CoverBelow(runs, j, i)[q]
  {
    if j > 0 {
      CoverMembers(runs, j - 1, i);
    }
  }

  /** Open runs are nested, so along the stack of open runs the ends never increase. */
  lemma CoverChain(runs: seq<Prefix>, j: nat, i: nat)
    requires j <= |runs| && Laminar(runs)
    ensures Chain(runs, CoverBelow(runs, j, i))
  {
    var s := CoverBelow(runs, j, i);
    CoverMembers(runs, j, i);
    forall p, q | 0 <= p < q < |s| ensures runs[s[q]].end <= runs[s[p]].end {
      assert s[p] < s[q];
    }
  }

  /** Moving from record `i - 1` to record `i` closes exactly the open runs that end at `i`. */
  lemma {:induction false} CoverNext(runs: seq<Prefix>, j: nat, i: nat)
    requires j <= |runs| && 0 < i
    requires forall a :: 0 <= a < j ==> runs[a].start < i
    ensures CoverBelow(runs, j, i) == Keep(runs, CoverBelow(runs, j, i - 1), i)
  {
    if j > 0 {
      CoverNext(runs, j - 1, i);
      var p := CoverBelow(runs, j - 1, i - 1);
      if Covers(runs, j - 1, i - 1) {
        assert (p + [j - 1])[..|p|] == p;
      } else {
        assert p + [] == p;
      }
    }
  }

  /** On a chain, the runs still open after `i` are a prefix of it. */
  lemma {:induction false} KeepPrefix(runs: seq<Prefix>, s: seq<nat>, i: nat, c: nat)
    requires c <= |s| && forall k :: 0 <= k < |s| ==> s[k] < |runs|
    requires forall q :: 0 <= q < c ==> i < runs[s[q]].end
    requires forall q :: c <= q < |s| ==> runs[s[q]].end <= i
    ensures Keep(runs, s, i) == s[..c]
  {
    if s != [] {
      var t := s[..|s| - 1];
      if c == |s| {
        KeepPrefix(runs, t, i, c - 1);
        assert t[..c - 1] + [s[|s| - 1]] == s[..c];
      } else {
        KeepPrefix(runs, t, i, c);
        assert t[..c] == s[..c];
      }
    }
  }

  /** On a chain, the runs still open after `i` are those above the first one that ends by
      `i`. */
  lemma ChainKeep(runs: seq<Prefix>, s: seq<nat>, i: nat, c: nat)
    requires Chain(runs, s) && c <= |s|
    requires c > 0 ==> i < runs[s[c - 1]].end
    requires forall q :: c <= q < |s| ==> runs[s[q]].end <= i
    ensures Keep(runs, s, i) == s[..c]
  {
    KeepPrefix(runs, s, i, c);
  }

  /** Opening run `j` at its first record `i` pushes it onto the open runs, adds its label's
      length, and prints its header at the depth of the runs open around it. */
  lemma OpenStep(f: Formatter, runs: seq<Prefix>, i: nat, j: nat, current: seq<nat>)
    requires j < |runs| && i < |f.records| && runs[j].start == i < runs[j].end
    requires current == CoverBelow(runs, j, i)
    ensures CoverBelow(runs, j + 1, i) == current + [j]
    ensures TextLen(runs, current + [j]) == TextLen(runs, current) + |runs[j].text|
    ensures Headers(f, runs, i, j + 1) == Headers(f, runs, i, j) + [HeaderLine(f, runs, j, i)]
    ensures HeaderLine(f, runs, j, i)
            == if TextLen(runs, current) + |runs[j].text| == |f.records[i].0|
               then Line(INDENT_WIDTH * |current|, DecodePath(runs[j].text) + ":")
               else Line(INDENT_WIDTH * |current|, DecodePath(runs[j].text))
  {
    assert Covers(runs, j, i);
    assert (current + [j])[..|current|] == current;
    assert DecodePath(runs[j].text) + "" == DecodePath(runs[j].text);
  }

  /** With the runs ordered by start, every run before `k` starts by `i` when those before `j`
      do and, for `j < k`, run `k - 1` does. */
  lemma StartedBy(runs: seq<Prefix>, j: nat, k: nat, i: nat)
    requires StartsOrdered(runs) && j <= k <= |runs|
    requires forall a :: 0 <= a < j ==> runs[a].start < i
    requires j < k ==> runs[k - 1].start <= i
    ensures forall a :: 0 <= a < k ==> runs[a].start <= i
  {
  }

  /** Where the loop that opens runs stops: either at a run that still starts at `i`, with
      `MAX_LEVEL` runs open, or after the last run that starts by `i`. */
  lemma OpenDone(f: Formatter, runs: seq<Prefix>, i: nat, j: nat, k: nat, current: seq<nat>,
                 overflow: bool)
    requires i < |f.records| && StartsOrdered(runs) && j <= k <= |runs|
    requires forall a :: 0 <= a < |runs| ==> runs[a].start < runs[a].end
    requires forall a :: 0 <= a < j ==> runs[a].start < i
    requires j < k ==> runs[k - 1].start <= i
    requires k < |runs| ==> i <= runs[k].start
    requires current == CoverBelow(runs, k, i)
    requires overflow == (k < |runs| && i >= runs[k].start)
    requires overflow ==> |current| >= MAX_LEVEL
    ensures overflow ==> |Cover(runs, i)| > MAX_LEVEL
    ensures !overflow ==> current == Cover(runs, i)
    ensures !overflow ==> (forall a :: 0 <= a < k ==> runs[a].start <= i)
                          && (k < |runs| ==> i < runs[k].start)
    ensures !overflow ==> Headers(f, runs, i, |runs|) == Headers(f, runs, i, k)
  {
    StartedBy(runs, j, k, i);
    if overflow {
      OpenStep(f, runs, i, k, current);
      CoverGrows(runs, k + 1, |runs|, i);
    } else {
      CoverRest(runs, k, |runs|, i);
      HeadersRest(f, runs, i, k, |runs|);
    }
  }

  /** No run at or above `j` starts by record `i`, so none of them is open there. */
  lemma {:induction false} CoverRest(runs: seq<Prefix>, j: nat, k: nat, i: nat)
    requires j <= k <= |runs|
    requires forall a :: j <= a < k ==> i < runs[a].start
    ensures CoverBelow(runs, k, i) == CoverBelow(runs, j, i)
    decreases k
  {
    if j < k {
      CoverRest(runs, j, k - 1, i);
    }
  }

  lemma {:induction false} CoverGrows(runs: seq<Prefix>, j: nat, k: nat, i: nat)
    requires j <= k <= |runs|
    ensures |CoverBelow(runs, j, i)| <= |CoverBelow(runs, k, i)|
    decreases k
  {
    if j < k {
      CoverGrows(runs, j, k - 1, i);
    }
  }

  /** The runs are ordered by start. */
  predicate StartsOrdered(runs: seq<Prefix>) {
    forall a, b :: 0 <= a < b < |runs| ==> runs[a].start <= runs[b].start
  }

  lemma OrderedStarts(runs: seq<Prefix>)
    requires Ordered(runs)
    ensures StartsOrdered(runs)
  {
  }

  /** The header a run prints at its first record `i`: the decoded label, indented by the
      runs open around it, with a `:` when the labels down to it spell the whole record
      path. */
  function HeaderLine(f: Formatter, runs: seq<Prefix>, a: nat, i: nat): string
    requires a < |runs| && i < |f.records|
  {
    var plen := TextLen(runs, CoverBelow(runs, a + 1, i));
    Line(INDENT_WIDTH * |CoverBelow(runs, a, i)|,
         DecodePath(runs[a].text) + (if plen == |f.records[i].0| then ":" else ""))
  }

  /** The headers of the runs below `j` that start at record `i`, in order. */
  function Headers(f: Formatter, runs: seq<Prefix>, i: nat, j: nat): seq<string>
    requires j <= |runs| && i < |f.records|
  {
    if j == 0 then []
    else
      Headers(f, runs, i, j - 1)
      + (if runs[j - 1].start == i then [HeaderLine(f, runs, j - 1, i)] else [])
  }

  lemma {:induction false} HeadersRest(f: Formatter, runs: seq<Prefix>, i: nat, j: nat, k: nat)
    requires j <= k <= |runs| && i < |f.records|
    requires forall a :: j <= a < k ==> runs[a].start != i
    ensures Headers(f, runs, i, k) == Headers(f, runs, i, j)
    decreases k
  {
    if j < k {
      HeadersRest(f, runs, i, j, k - 1);
    }
  }

  /** The lines record `i` contributes: the headers of the runs starting there, then its
      value. More than `MAX_LEVEL` open runs is a panic. */
  function RecordOutcome(f: Formatter, runs: seq<Prefix>, i: nat): Outcome
    requires i < |f.records|
  {
    var open := Cover(runs, i);
    if |open| > MAX_LEVEL then Panicked
    else Then(Printed(Headers(f, runs, i, |runs|)), ValueOutcome(f, i, TextLen(runs, open), |open|))
  }

  /** The value of record `i`, under `depth` open runs whose labels are `plen` long. It is
      printed one level shallower and without a key when the labels spell the whole record
      path; otherwise under the rest of the path, decoded, with a `:` appended. A negative
      indentation or a path shorter than the open labels is a panic. */
  function ValueOutcome(f: Formatter, i: nat, plen: nat, depth: nat): Outcome
    requires i < |f.records|
  {
    var key, value := f.records[i].0, f.records[i].1;
    var ctx := Context(f.indentWidth, f.yesno, "", INDENT_WIDTH * depth);
    if plen == |key| then
      if ctx.indent < f.indentWidth then Panicked
      else Printed(FormatValue(value, ctx.(indent := ctx.indent - f.indentWidth)))
    else if plen > |key| then Panicked
    else Printed(FormatValue(value, ctx.(key := DecodePath(key[plen..] + ":"))))
  }

  /** Output `first` followed by output `next`; a panic in either is a panic. */
  function Then(first: Outcome, next: Outcome): (r: Outcome)
    ensures r.Printed? <==> first.Printed? && next.Printed?
    ensures r.Printed? ==> r.lines == first.lines + next.lines
  {
    match first
    case Panicked => Panicked
    case Printed(before) =>
      match next
      case Panicked => Panicked
      case Printed(more) => Printed(before + more)
  }

  /** The outcomes in order, joined. */
  function Joined(outs: seq<Outcome>): (r: Outcome) {
    if outs == [] then Printed([]) else Then(Joined(outs[..|outs| - 1]), outs[|outs| - 1])
  }

  /** Record `i`'s output put together from its parts: the headers of the runs opened there
      (unless one more than `MAX_LEVEL` would be open) and its value. */
  lemma RecordParts(f: Formatter, runs: seq<Prefix>, i: nat, open: seq<nat>, overflow: bool,
                    headers: seq<string>, more: seq<string>, panicked: bool)
    requires i < |f.records|
    requires overflow ==> |Cover(runs, i)| > MAX_LEVEL && panicked
    requires !overflow ==> open == Cover(runs, i) && |open| <= MAX_LEVEL
                           && headers == Headers(f, runs, i, |runs|)
    requires !overflow ==> var v := ValueOutcome(f, i, TextLen(runs, open), |open|);
                           (panicked <==> v.Panicked?) && (!panicked ==> more == v.lines)
    ensures panicked <==> RecordOutcome(f, runs, i).Panicked?
    ensures !panicked ==> RecordOutcome(f, runs, i).lines == headers + more
  {
  }

  /** Once one part panics, the whole output is a panic. */
  lemma {:induction false} JoinedPanics(outs: seq<Outcome>, k: nat)
    requires k < |outs| && outs[k].Panicked?
    ensures Joined(outs) == Panicked
  {
    if k < |outs| - 1 {
      JoinedPanics(outs[..|outs| - 1], k);
    }
  }

  /** The outcomes of the first `n` records. */
  function Outcomes(f: Formatter, runs: seq<Prefix>, n: nat): (outs: seq<Outcome>)
    requires n <= |f.records|
    ensures |outs| == n && forall k :: 0 <= k < n ==> outs[k] == RecordOutcome(f, runs, k)
  {
    seq(n, k requires 0 <= k < n => RecordOutcome(f, runs, k))
  }

  /** The output of the first `i + 1` records, from that of the first `i`. */
  lemma JoinedNext(f: Formatter, runs: seq<Prefix>, i: nat, lines: seq<string>)
    requires i < |f.records| && Joined(Outcomes(f, runs, i)) == Printed(lines)
    requires RecordOutcome(f, runs, i).Printed?
    ensures Joined(Outcomes(f, runs, i + 1)) == Printed(lines + RecordOutcome(f, runs, i).lines)
  {
    assert Outcomes(f, runs, i + 1)[..i] == Outcomes(f, runs, i);
  }

  /** The output for all the records. */
  function Rendered(f: Formatter, runs: seq<Prefix>): Outcome {
    Joined(Outcomes(f, runs, |f.records|))
  }

  /** A run's records share the segments down to the end of its label, so it is also the
      maximal stretch sharing any number of segments between its depth and that end. */
  lemma WidenBlock(aligned: bool, T: seq<seq<string>>, r: Prefix, d: nat, e: nat, m: nat)
    requires Labels(aligned, T, r, d, e) && d + 1 <= m <= e
    ensures Block(T, r.start, r.end, m)
  {
    forall x | r.start <= x < r.end
      ensures Agree(T, x, r.start, m)
    {
      assert Agree(T, x, r.start, e);
      ShareFewer(T[x], T[r.start], e, m);
    }
    if r.end < |T| && Agree(T, r.end, r.start, m) {
      ShareFewer(T[r.end], T[r.start], m, d + 1);
    }
    if r.start > 0 && Agree(T, r.start - 1, r.start, m) {
      ShareFewer(T[r.start - 1], T[r.start], m, d + 1);
    }
  }

  /** Of two runs open at the same record, the later one's label starts no higher than where
      the earlier one's ends: otherwise both would be the maximal stretch sharing the later
      one's depth, the same records, which two distinct ordered runs cannot be. */
  lemma OpenBelow(aligned: bool, T: seq<seq<string>>, runs: seq<Prefix>,
                  spans: seq<(nat, nat)>, a: nat, b: nat, i: nat)
    requires Nested(runs, |T|) && |spans| == |runs|
    requires forall c :: 0 <= c < |runs| ==> Labels(aligned, T, runs[c], spans[c].0, spans[c].1)
    requires a < b && Covers(runs, a, i) && Covers(runs, b, i)
    ensures spans[a].1 <= spans[b].0
  {
    var ra, rb := runs[a], runs[b];
    assert Labels(aligned, T, ra, spans[a].0, spans[a].1);
    assert Labels(aligned, T, rb, spans[b].0, spans[b].1);
    if spans[b].0 < spans[a].1 {
      var m := spans[b].0 + 1;
      if m <= spans[a].0 + 1 {
        BlocksNest(T, rb.start, rb.end, m, ra.start, ra.end, spans[a].0 + 1);
      } else {
        WidenBlock(aligned, T, ra, spans[a].0, spans[a].1, m);
        BlocksNest(T, rb.start, rb.end, m, ra.start, ra.end, m);
      }
      assert false;
    }
  }

  lemma SlashedSplit(ts: seq<string>, x: nat, y: nat)
    requires x <= y <= |ts|
    ensures |Slashed(ts[..x])| + |Slashed(ts[x..y])| == |Slashed(ts[..y])|
  {
    assert ts[..y] == ts[..x] + ts[x..y];
    SlashedAppend(ts[..x], ts[x..y]);
  }

  /** A run's label, for paths aligned with their segments, spells the same segments of every
      record in it. */
  lemma LabelAt(aligned: bool, T: seq<seq<string>>, r: Prefix, d: nat, e: nat, i: nat)
    requires Labels(aligned, T, r, d, e) && r.start <= i < r.end
    ensures e <= |T[i]| && T[r.start][d..e] == T[i][d..e]
    ensures aligned ==> r.text == Slashed(T[i][d..e])
  {
    assert Agree(T, i, r.start, e);
    assert T[r.start][..e] == T[i][..e];
    assert T[r.start][d..e] == T[r.start][..e][d..];
    assert T[i][d..e] == T[i][..e][d..];
  }

  /** The open runs `s` at record `i`, for paths aligned with their segments: there are no
      more of them, and their labels are no longer, than the segments of record `i` down to
      where the last one's label ends. */
  ghost predicate Fits(T: seq<seq<string>>, runs: seq<Prefix>, spans: seq<(nat, nat)>, i: nat,
                       s: seq<nat>) {
    s != [] ==>
      s[|s| - 1] < |spans| && i < |T|
      && var e := spans[s[|s| - 1]].1;
         e <= |T[i]| && |s| <= e && TextLen(runs, s) <= |Slashed(T[i][..e])|
  }

  /** The labels of the runs open at a record take consecutive, non-overlapping depths of it,
      so one more open run keeps them fitting. */
  lemma FitsStep(T: seq<seq<string>>, runs: seq<Prefix>, spans: seq<(nat, nat)>, i: nat,
                 prev: seq<nat>, a: nat)
    requires Nested(runs, |T|) && |spans| == |runs| && i < |T|
    requires forall c :: 0 <= c < |runs| ==> Labels(true, T, runs[c], spans[c].0, spans[c].1)
    requires Fits(T, runs, spans, i, prev) && Covers(runs, a, i)
    requires forall k :: 0 <= k < |prev| ==> prev[k] < a && Covers(runs, prev[k], i)
    ensures Fits(T, runs, spans, i, prev + [a])
  {
    var s := prev + [a];
    var r, d, e := runs[a], spans[a].0, spans[a].1;
    assert s[..|s| - 1] == prev;
    LabelAt(true, T, r, d, e, i);
    SlashedSplit(T[i], d, e);
    if prev != [] {
      var b := prev[|prev| - 1];
      OpenBelow(true, T, runs, spans, b, a, i);
      SlashedSplit(T[i], spans[b].1, d);
    }
  }

  /** The runs below `j` open at record `i` fit. */
  lemma {:induction false} OpenFits(T: seq<seq<string>>, runs: seq<Prefix>,
                                    spans: seq<(nat, nat)>, i: nat, j: nat)
    requires Nested(runs, |T|) && |spans| == |runs| && i < |T| && j <= |runs|
    requires forall c :: 0 <= c < |runs| ==> Labels(true, T, runs[c], spans[c].0, spans[c].1)
    ensures Fits(T, runs, spans, i, CoverBelow(runs, j, i))
    decreases j
  {
    if j > 0 {
      OpenFits(T, runs, spans, i, j - 1);
      CoverMembers(runs, j - 1, i);
      if Covers(runs, j - 1, i) {
        FitsStep(T, runs, spans, i, CoverBelow(runs, j - 1, i), j - 1);
      } else {
        assert CoverBelow(runs, j, i) == CoverBelow(runs, j - 1, i);
      }
    }
  }

  /** What `build` promises about the runs it returns for the segment lists `T` of paths
      aligned with their segments: nested, each meaning what `Labels` says, only the first
      (the depth-0 run of record 0) holding a single record, and every maximal stretch of two
      or more records sharing some segments among them. */
  ghost predicate Built(T: seq<seq<string>>, runs: seq<Prefix>, spans: seq<(nat, nat)>) {
    Nested(runs, |T|) && |spans| == |runs|
    && (forall c :: 0 <= c < |runs| ==> Labels(true, T, runs[c], spans[c].0, spans[c].1))
    && (runs != [] ==> runs[0].start == 0 && spans[0].0 == 0)
    && (forall c :: 0 < c < |runs| ==> runs[c].end - runs[c].start >= 2)
    && Complete(T, runs, spans)
  }

  lemma {:induction false} CoverHas(runs: seq<Prefix>, j: nat, i: nat, c: nat)
    requires j <= |runs| && c < j && Covers(runs, c, i)
    ensures c in CoverBelow(runs, j, i)
    decreases j
  {
    if c < j - 1 {
      CoverHas(runs, j - 1, i, c);
    }
  }

  /** Some run open at record `i` takes in depth `m - 1`, for any `m` not past the start of
      the label of a run of two or more records around `i`: the maximal stretch around `i`
      sharing `m` segments is at least that run's records. */
  lemma GapRun(T: seq<seq<string>>, runs: seq<Prefix>, spans: seq<(nat, nat)>, r: Prefix,
               d: nat, e: nat, i: nat, m: nat) returns (c: nat)
    requires Complete(T, runs, spans) && Labels(true, T, r, d, e)
    requires r.start <= i < r.end && r.end - r.start >= 2 && 1 <= m <= d
    ensures Covers(runs, c, i) && spans[c].0 < m <= spans[c].1
  {
    LabelAt(true, T, r, d, e, i);
    StretchBlock(T, i, m);
    var lo, hi := StretchStart(T, i, m), StretchEnd(T, i, m);
    forall y | r.start <= y < r.end
      ensures Agree(T, y, r.start, m)
    {
      assert Agree(T, y, r.start, e);
      ShareFewer(T[y], T[r.start], e, m);
    }
    BlockHolds(T, lo, hi, m, r.start, r.end, i);
    assert Shared(T, lo, hi, m);
    c :| 0 <= c < |runs| && runs[c].start == lo && runs[c].end == hi
         && spans[c].0 < m <= spans[c].1;
  }

  /** Along the runs open at record `i`, each label lies after the one before, and none is
      empty. */
  ghost predicate OpenOrder(runs: seq<Prefix>, spans: seq<(nat, nat)>, i: nat) {
    |spans| == |runs|
    && (forall x :: 0 <= x < |runs| && Covers(runs, x, i) ==> spans[x].0 < spans[x].1)
    && forall x, y :: 0 <= x < y < |runs| && Covers(runs, x, i) && Covers(runs, y, i) ==>
         spans[x].1 <= spans[y].0
  }

  lemma OpenOrdered(aligned: bool, T: seq<seq<string>>, runs: seq<Prefix>,
                    spans: seq<(nat, nat)>, i: nat)
    requires Nested(runs, |T|) && |spans| == |runs|
    requires forall c :: 0 <= c < |runs| ==> Labels(aligned, T, runs[c], spans[c].0, spans[c].1)
    ensures OpenOrder(runs, spans, i)
  {
    forall x, y | 0 <= x < y < |runs| && Covers(runs, x, i) && Covers(runs, y, i)
      ensures spans[x].1 <= spans[y].0
    {
      OpenBelow(aligned, T, runs, spans, x, y, i);
    }
  }

  /** Any run open at record `i` either ends its label by the end of the label of the last
      open run before `a`, or starts it no earlier than run `a` does. */
  lemma OpenSplit(runs: seq<Prefix>, spans: seq<(nat, nat)>, i: nat, a: nat, c: nat)
    requires OpenOrder(runs, spans, i) && Covers(runs, a, i) && Covers(runs, c, i)
    ensures var prev := CoverBelow(runs, a, i);
            if prev == [] then spans[a].0 <= spans[c].0
            else prev[|prev| - 1] < a
                 && (spans[c].1 <= spans[prev[|prev| - 1]].1 || spans[a].0 <= spans[c].0)
  {
    var prev := CoverBelow(runs, a, i);
    CoverMembers(runs, a, i);
    if c < a {
      CoverHas(runs, a, i, c);
      var k :| 0 <= k < |prev| && prev[k] == c;
      var last := prev[|prev| - 1];
      assert k < |prev| - 1 ==> c < last;
    }
  }

  /** The label of an open run starts where the label of the open run before it ends, or at
      the first segment if there is none: a gap would be a maximal stretch of two or more
      records around record `i`, which is a run, open at `i`, that fits in neither place. */
  ghost predicate Adjoins(T: seq<seq<string>>, runs: seq<Prefix>, spans: seq<(nat, nat)>,
                          i: nat, a: nat) {
    a < |runs| && |spans| == |runs| && i < |T|
    && spans[a].0 <= spans[a].1 <= |T[i]|
    && runs[a].text == Slashed(T[i][spans[a].0..spans[a].1])
    && var prev := CoverBelow(runs, a, i);
       (prev == [] ==> spans[a].0 == 0)
       && (prev != [] ==> prev[|prev| - 1] < a && spans[a].0 == spans[prev[|prev| - 1]].1)
  }

  lemma OpenAdjacent(T: seq<seq<string>>, runs: seq<Prefix>, spans: seq<(nat, nat)>, i: nat,
                     a: nat)
    requires i < |T| && Covers(runs, a, i) && OpenOrder(runs, spans, i)
    requires Complete(T, runs, spans)
    requires Labels(true, T, runs[a], spans[a].0, spans[a].1)
    requires spans[a].0 == 0 || runs[a].end - runs[a].start >= 2
    ensures Adjoins(T, runs, spans, i, a)
  {
    var prev := CoverBelow(runs, a, i);
    CoverMembers(runs, a, i);
    var d, e := spans[a].0, spans[a].1;
    LabelAt(true, T, runs[a], d, e, i);
    var gap := if prev == [] then 0 else spans[prev[|prev| - 1]].1;
    if gap < d {
      var c := GapRun(T, runs, spans, runs[a], d, e, i, gap + 1);
      OpenSplit(runs, spans, i, a, c);
      assert false;
    }
  }

  /** The labels of the runs `s`, put together. */
  function Spelled(runs: seq<Prefix>, s: seq<nat>): (r: string)
    ensures |r| == TextLen(runs, s)
  {
    if s == [] then ""
    else
      var a := s[|s| - 1];
      Spelled(runs, s[..|s| - 1]) + (if a < |runs| then runs[a].text else "")
  }

  lemma SpellStep(ts: seq<string>, runs: seq<Prefix>, prev: seq<nat>, a: nat, d: nat, e: nat)
    requires a < |runs| && d <= e <= |ts| && runs[a].text == Slashed(ts[d..e])
    requires Spelled(runs, prev) == Slashed(ts[..d])
    ensures Spelled(runs, prev + [a]) == Slashed(ts[..e])
  {
    var s := prev + [a];
    assert s[..|s| - 1] == prev;
    assert ts[..e] == ts[..d] + ts[d..e];
    SlashedAppend(ts[..d], ts[d..e]);
  }

  /** The labels of the runs below `j` open at record `i` spell its segments down to where
      the last one's label ends. */
  lemma {:induction false} OpenSpells(T: seq<seq<string>>, runs: seq<Prefix>,
                                      spans: seq<(nat, nat)>, i: nat, j: nat)
    requires i < |T| && j <= |runs| && |spans| == |runs|
    requires forall a :: 0 <= a < |runs| && Covers(runs, a, i) ==> Adjoins(T, runs, spans, i, a)
    ensures var s := CoverBelow(runs, j, i);
            if s == [] then Spelled(runs, s) == ""
            else s[|s| - 1] < |runs| && spans[s[|s| - 1]].1 <= |T[i]|
                 && Spelled(runs, s) == Slashed(T[i][..spans[s[|s| - 1]].1])
    decreases j
  {
    if j > 0 {
      OpenSpells(T, runs, spans, i, j - 1);
      var a := j - 1;
      var prev := CoverBelow(runs, a, i);
      if Covers(runs, a, i) {
        assert Adjoins(T, runs, spans, i, a);
        assert CoverBelow(runs, j, i) == prev + [a];
        var d, e := spans[a].0, spans[a].1;
        if prev == [] {
          assert T[i][..0] == [];
        }
        SpellStep(T[i], runs, prev, a, d, e);
      } else {
        assert CoverBelow(runs, j, i) == prev;
      }
    }
  }

  /** `spelled` is some of the first segments of the path `key`, each after a `/`, and sits in
      `key` where those segments start, once any extra leading slashes are skipped. */
  ghost predicate SpellsKey(spelled: string, key: string) {
    var ts := Tokens(key);
    |Slashed(ts)| <= |key|
    && (exists e :: 0 <= e <= |ts| && spelled == Slashed(ts[..e]))
    && var skip := |key| - |Slashed(ts)|;
       skip + |spelled| <= |key| && spelled == key[skip..skip + |spelled|]
  }

  /** Any first segments of a path that ends at a segment are spelled in it. */
  lemma AlignedSpells(key: string, e: nat)
    requires Aligned(key) && e <= |Tokens(key)|
    ensures SpellsKey(Slashed(Tokens(key)[..e]), key)
  {
    var ts := Tokens(key);
    assert ts == ts[..e] + ts[e..];
    SlashedAppend(ts[..e], ts[e..]);
  }

  /** For paths aligned with their segments, the open labels at every record spell the start
      of its path. */
  lemma KeySpelled(f: Formatter, runs: seq<Prefix>, spans: seq<(nat, nat)>, i: nat)
    requires AllAligned(f.Keys()) && Built(AllTokens(f.Keys()), runs, spans)
    requires i < |f.records|
    ensures SpellsKey(Spelled(runs, Cover(runs, i)), f.records[i].0)
  {
    var T := AllTokens(f.Keys());
    AllTokensAt(f.Keys(), i);
    AllAlignedAt(f.Keys(), i);
    OpenOrdered(true, T, runs, spans, i);
    forall a | 0 <= a < |runs| && Covers(runs, a, i)
      ensures Adjoins(T, runs, spans, i, a)
    {
      assert Labels(true, T, runs[a], spans[a].0, spans[a].1);
      OpenAdjacent(T, runs, spans, i, a);
    }
    OpenSpells(T, runs, spans, i, |runs|);
    var s := Cover(runs, i);
    var e := if s == [] then 0 else spans[s[|s| - 1]].1;
    assert s == [] ==> T[i][..0] == [];
    AlignedSpells(f.records[i].0, e);
  }

  /** With every run meaning what `Labels` says and every path aligned with its segments and
      fit for `build`, no record's output panics. */
  lemma RecordPrinted(f: Formatter, runs: seq<Prefix>, spans: seq<(nat, nat)>, i: nat)
    requires f.indentWidth == INDENT_WIDTH && i < |f.records|
    requires forall k :: 0 <= k < |f.records| ==> WellFormed(f.records[k].0)
    requires Nested(runs, |f.records|) && |spans| == |runs|
    requires forall c :: 0 <= c < |runs| ==>
               Labels(true, AllTokens(f.Keys()), runs[c], spans[c].0, spans[c].1)
    ensures RecordOutcome(f, runs, i).Printed?
  {
    var T := AllTokens(f.Keys());
    var key := f.records[i].0;
    AllTokensAt(f.Keys(), i);
    assert T[i] == Tokens(key) && WellFormed(key);
    OpenFits(T, runs, spans, i, |runs|);
    var open := Cover(runs, i);
    if open != [] {
      var e := spans[open[|open| - 1]].1;
      SlashedSplit(T[i], e, |T[i]|);
      assert T[i][..|T[i]|] == T[i];
    } else {
      assert Slashed(T[i]) != [];
    }
  }

  /** Outcomes that all print join into printed output. */
  lemma {:induction false} JoinedPrinted(outs: seq<Outcome>)
    requires forall k :: 0 <= k < |outs| ==> outs[k].Printed?
    ensures Joined(outs).Printed?
  {
    if outs != [] {
      JoinedPrinted(outs[..|outs| - 1]);
    }
  }

  /** For paths aligned with their segments, the output is never a panic. */
  lemma RenderedPrinted(f: Formatter, runs: seq<Prefix>, spans: seq<(nat, nat)>)
    requires f.indentWidth == INDENT_WIDTH
    requires forall k :: 0 <= k < |f.records| ==> WellFormed(f.records[k].0)
    requires Nested(runs, |f.records|) && |spans| == |runs|
    requires forall c :: 0 <= c < |runs| ==>
               Labels(true, AllTokens(f.Keys()), runs[c], spans[c].0, spans[c].1)
    ensures Rendered(f, runs).Printed?
  {
    forall i | 0 <= i < |f.records|
      ensures RecordOutcome(f, runs, i).Printed?
    {
      RecordPrinted(f, runs, spans, i);
    }
    JoinedPrinted(Outcomes(f, runs, |f.records|));
  }

  /** `Formatter`: the records to print (sorted by key), the words for booleans and the
      indentation step for nested maps. */
  datatype Formatter = Formatter(records: seq<(string, Value)>, yesno: (string, string),
                                 indentWidth: nat)
  {
    /** The record paths. */
    function Keys(): (keys: seq<string>)
      ensures |keys| == |records| && forall k :: 0 <= k < |records| ==> keys[k] == records[k].0
    {
      seq(|records|, k requires 0 <= k < |records| => records[k].0)
    }

    /** The loop of `fmt` that pops the runs ending before record `i`. */
    method CloseRuns(runs: seq<Prefix>, i: nat, current: seq<nat>, prefixLen: nat, indent: nat,
                     ghost index: nat)
      returns (current': seq<nat>, prefixLen': nat, indent': nat)
      requires indentWidth == INDENT_WIDTH && index <= |runs| && Laminar(runs)
      requires forall a :: 0 <= a < index ==> runs[a].start < i
      requires i == 0 ==> current == []
      requires i > 0 ==> current == CoverBelow(runs, index, i - 1)
      requires prefixLen == TextLen(runs, current) && indent == INDENT_WIDTH * |current|
      ensures current' == CoverBelow(runs, index, i) && |current'| <= |current|
      ensures prefixLen' == TextLen(runs, current') && indent' == INDENT_WIDTH * |current'|
    {
      if i > 0 {
        CoverChain(runs, index, i - 1);
      }
      ghost var c: nat;
      current', prefixLen', indent', c := PopEnded(runs, i, current, prefixLen, indent);
      if i > 0 {
        ChainKeep(runs, current, i, c);
        CoverNext(runs, index, i);
      }
    }

    /** The loop itself: pops the top of the stack while it ends by record `i`. */
    method PopEnded(runs: seq<Prefix>, i: nat, current: seq<nat>, prefixLen: nat, indent: nat)
      returns (current': seq<nat>, prefixLen': nat, indent': nat, ghost c: nat)
      requires indentWidth == INDENT_WIDTH && Chain(runs, current)
      requires prefixLen == TextLen(runs, current) && indent == INDENT_WIDTH * |current|
      ensures c <= |current| && current' == current[..c]
      ensures c > 0 ==> i < runs[current[c - 1]].end
      ensures forall q :: c <= q < |current| ==> runs[current[q]].end <= i
      ensures prefixLen' == TextLen(runs, current') && indent' == INDENT_WIDTH * |current'|
    {
      c := |current|;
      current', prefixLen', indent' := current, prefixLen, indent;
      while current' != [] && i >= runs[current'[|current'| - 1]].end
        invariant c <= |current| && current' == current[..c]
        invariant forall q :: c <= q < |current| ==> runs[current[q]].end <= i
        invariant prefixLen' == TextLen(runs, current') && indent' == INDENT_WIDTH * |current'|
      {
        var top := current'[|current'| - 1];
        assert current'[..|current'| - 1] == current[..c - 1];
        current' := current'[..|current'| - 1];
        prefixLen' := prefixLen' - |runs[top].text|;
        indent' := indent' - indentWidth;
        c := c - 1;
      }
    }

    /** The loop of `fmt` that pushes, and prints the headers of, the runs starting at record
        `i`. `overflow` is the panic of a push onto a full stack. */
    method OpenRuns(runs: seq<Prefix>, i: nat, current: seq<nat>, prefixLen: nat, indent: nat,
                    index: nat)
      returns (current': seq<nat>, prefixLen': nat, indent': nat, index': nat,
               headers: seq<string>, overflow: bool)
      requires i < |records| && index <= |runs| && StartsOrdered(runs)
      requires forall a :: 0 <= a < |runs| ==> runs[a].start < runs[a].end
      requires forall a :: 0 <= a < index ==> runs[a].start < i
      requires index < |runs| ==> i <= runs[index].start
      requires current == CoverBelow(runs, index, i)
      requires prefixLen == TextLen(runs, current) && indent == INDENT_WIDTH * |current|
      requires |current| <= MAX_LEVEL
      ensures overflow ==> |Cover(runs, i)| > MAX_LEVEL
      ensures !overflow ==> |current'| <= MAX_LEVEL
      ensures !overflow ==> index <= index' <= |runs| && current' == Cover(runs, i)
      ensures !overflow ==> current' == CoverBelow(runs, index', i)
      ensures !overflow ==> (forall a :: 0 <= a < index' ==> runs[a].start <= i)
                            && (index' < |runs| ==> i < runs[index'].start)
      ensures !overflow ==> prefixLen' == TextLen(runs, current')
                            && indent' == INDENT_WIDTH * |current'|
      ensures !overflow ==> headers == Headers(this, runs, i, |runs|)
    {
      assert forall a :: index <= a < |runs| ==> runs[index].start <= runs[a].start;
      current', prefixLen', indent', index', headers :=
        OpenLoop(runs, i, current, prefixLen, indent, index);
      // A run still to open with `MAX_LEVEL` runs open: `push` on the full stack panics.
      overflow := index' < |runs| && i >= runs[index'].start;
      OpenDone(this, runs, i, index, index', current', overflow);
    }

    /** The state of `fmt` while it opens the runs starting at record `i`: the stack holds the
        runs before `index` still open there, with their text length and indentation, and
        `headers` the header lines printed for those that start at `i`. */
    ghost predicate Opened(runs: seq<Prefix>, i: nat, index: nat, current: seq<nat>,
                           prefixLen: nat, indent: nat, headers: seq<string>)
      requires i < |records| && index <= |runs|
    {
      && current == CoverBelow(runs, index, i)
      && prefixLen == TextLen(runs, current) && indent == INDENT_WIDTH * |current|
      && headers == Headers(this, runs, i, index)
    }

    /** The loop itself, stopped before a push onto a full stack. */
    method OpenLoop(runs: seq<Prefix>, i: nat, current: seq<nat>, prefixLen: nat, indent: nat,
                    index: nat)
      returns (current': seq<nat>, prefixLen': nat, indent': nat, index': nat,
               headers: seq<string>)
      requires i < |records| && index <= |runs|
      requires forall a :: 0 <= a < |runs| ==> runs[a].start < runs[a].end
      requires forall a :: 0 <= a < index ==> runs[a].start != i
      requires forall a :: index <= a < |runs| ==> i <= runs[a].start
      requires current == CoverBelow(runs, index, i)
      requires prefixLen == TextLen(runs, current) && indent == INDENT_WIDTH * |current|
      requires |current| <= MAX_LEVEL
      ensures index <= index' <= |runs| && (index < index' ==> runs[index' - 1].start <= i)
      ensures index' < |runs| && i >= runs[index'].start ==> |current'| >= MAX_LEVEL
      ensures |current'| <= MAX_LEVEL
      ensures Opened(runs, i, index', current', prefixLen', indent', headers)
    {
      current', prefixLen', indent', index', headers := current, prefixLen, indent, index, [];
      HeadersRest(this, runs, i, 0, index);
      assert Opened(runs, i, index, current, prefixLen, indent, headers);
      while index' < |runs| && i >= runs[index'].start && |current'| < MAX_LEVEL
        invariant index <= index' <= |runs|
        invariant index < index' ==> runs[index' - 1].start <= i
        invariant |current'| <= MAX_LEVEL
        invariant Opened(runs, i, index', current', prefixLen', indent', headers)
      {
        assert runs[index'].start == i < runs[index'].end;
        current', prefixLen', indent', index', headers :=
          OpenOne(runs, i, current', prefixLen', indent', index', headers);
      }
    }

    /** One pass of that loop: run `index` starts at record `i`; its header is printed and it is
        pushed. */
    method OpenOne(runs: seq<Prefix>, i: nat, current: seq<nat>, prefixLen: nat, indent: nat,
                   index: nat, lines: seq<string>)
      returns (current': seq<nat>, prefixLen': nat, indent': nat, index': nat,
               lines': seq<string>)
      requires i < |records| && index < |runs| && runs[index].start == i < runs[index].end
      requires Opened(runs, i, index, current, prefixLen, indent, lines)
      ensures index' == index + 1 && |current'| == |current| + 1
      ensures Opened(runs, i, index', current', prefixLen', indent', lines')
    {
      var prefix := runs[index];
      OpenStep(this, runs, i, index, current);
      prefixLen' := prefixLen + |prefix.text|;
      var text := DecodePath(prefix.text);
      if prefixLen' == |records[i].0| {
        text := text + ":";
      }
      lines' := lines + [Line(indent, text)];
      current' := current + [index];
      index' := index + 1;
      indent' := indent + INDENT_WIDTH;
    }

    /** One pass of the loop of `fmt` over record `i`. */
    method Record(runs: seq<Prefix>, i: nat, current: seq<nat>, prefixLen: nat, indent: nat,
                  index: nat, lines: seq<string>)
      returns (current': seq<nat>, prefixLen': nat, indent': nat, index': nat,
               lines': seq<string>, panicked: bool)
      requires indentWidth == INDENT_WIDTH && i < |records| && Nested(runs, |records|)
      requires index <= |runs| && forall a :: 0 <= a < index ==> runs[a].start < i
      requires index < |runs| ==> i <= runs[index].start
      requires i == 0 ==> current == []
      requires i > 0 ==> current == CoverBelow(runs, index, i - 1)
      requires prefixLen == TextLen(runs, current) && indent == INDENT_WIDTH * |current|
      requires |current| <= MAX_LEVEL
      ensures panicked <==> RecordOutcome(this, runs, i).Panicked?
      ensures !panicked ==> lines' == lines + RecordOutcome(this, runs, i).lines
      ensures !panicked ==> index' <= |runs| && (forall a :: 0 <= a < index' ==> runs[a].start < i + 1)
                            && (index' < |runs| ==> i + 1 <= runs[index'].start)
      ensures !panicked ==> current' == CoverBelow(runs, index', i)
      ensures !panicked ==> prefixLen' == TextLen(runs, current')
                            && indent' == INDENT_WIDTH * |current'| && |current'| <= MAX_LEVEL
    {
      current', prefixLen', indent' := CloseRuns(runs, i, current, prefixLen, indent, index);
      OrderedStarts(runs);
      var overflow, headers, more;
      current', prefixLen', indent', index', headers, overflow :=
        OpenRuns(runs, i, current', prefixLen', indent', index);
      if overflow {
        RecordParts(this, runs, i, current', true, headers, [], true);
        return current', prefixLen', indent', index', lines, true;
      }
      more, panicked := PrintValue(i, prefixLen', indent', |current'|);
      RecordParts(this, runs, i, current', false, headers, more, panicked);
      lines' := lines + (headers + more);
    }

    /** The end of that pass: the record's value, printed under the rest of its path or, when
        the open labels spell all of it, one level shallower. */
    method PrintValue(i: nat, prefixLen: nat, indent: nat, ghost depth: nat)
      returns (lines: seq<string>, panicked: bool)
      requires indentWidth == INDENT_WIDTH && i < |records| && indent == INDENT_WIDTH * depth
      ensures panicked <==> ValueOutcome(this, i, prefixLen, depth).Panicked?
      ensures !panicked ==> lines == ValueOutcome(this, i, prefixLen, depth).lines
    {
      var key, value := records[i].0, records[i].1;
      if |key| == prefixLen {
        if indent < indentWidth {
          return [], true;
        }
        lines := FormatValue(value, Context(indentWidth, yesno, "", indent - indentWidth));
      } else {
        if prefixLen > |key| {
          return [], true;
        }
        var path := key[prefixLen..] + ":";
        lines := FormatValue(value, Context(indentWidth, yesno, DecodePath(path), indent));
      }
      panicked := false;
    }

    /** The loop of `fmt` over the records, given the runs `Prefix::build` found. */
    method Render(runs: seq<Prefix>) returns (out: Outcome)
      requires indentWidth == INDENT_WIDTH && Nested(runs, |records|)
      ensures out == Rendered(this, runs)
    {
      var current: seq<nat> := [];
      var index: nat := 0;
      var indent: nat := 0;
      var prefixLen: nat := 0;
      var lines: seq<string> := [];
      var i: nat := 0;
      while i < |records|
        invariant i <= |records| && index <= |runs|
        invariant Joined(Outcomes(this, runs, i)) == Printed(lines)
        invariant forall a :: 0 <= a < index ==> runs[a].start < i
        invariant index < |runs| ==> i <= runs[index].start
        invariant i == 0 ==> current == []
        invariant i > 0 ==> current == CoverBelow(runs, index, i - 1)
        invariant prefixLen == TextLen(runs, current) && indent == INDENT_WIDTH * |current|
        invariant |current| <= MAX_LEVEL
      {
        var panicked;
        ghost var before := lines;
        current, prefixLen, indent, index, lines, panicked :=
          Record(runs, i, current, prefixLen, indent, index, lines);
        if panicked {
          JoinedPanics(Outcomes(this, runs, |records|), i);
          return Panicked;
        }
        JoinedNext(this, runs, i, before);
        i := i + 1;
      }
      out := Printed(lines);
    }

    /** `Display for Formatter`: the runs `Prefix::build` finds among the record paths, then
        the loop over the records. The runs are returned along with the output. */
    method Fmt() returns (out: Outcome, runs: seq<Prefix>, ghost spans: seq<(nat, nat)>)
      requires indentWidth == INDENT_WIDTH
      requires forall k :: 0 <= k < |records| ==> WellFormed(records[k].0)
      ensures Nested(runs, |records|) && |spans| == |runs|
      ensures forall a :: 0 <= a < |runs| ==>
                Labels(AllAligned(Keys()), AllTokens(Keys()), runs[a], spans[a].0, spans[a].1)
      ensures out == Rendered(this, runs)
      ensures AllAligned(Keys()) ==> out.Printed?
      ensures AllAligned(Keys()) ==> forall i :: 0 <= i < |records| ==>
                SpellsKey(Spelled(runs, Cover(runs, i)), records[i].0)
    {
      runs, spans := Build(Keys());
      out := Render(runs);
      if AllAligned(Keys()) {
        RenderedPrinted(this, runs, spans);
        assert Built(AllTokens(Keys()), runs, spans);
        forall i | 0 <= i < |records|
          ensures SpellsKey(Spelled(runs, Cover(runs, i)), records[i].0)
        {
          KeySpelled(this, runs, spans, i);
        }
      }
    }
  }

  /** `Formatter::from`: the words `yes` and `no` and an indentation step of 2. */
  function From(records: seq<(string, Value)>): (f: Formatter)
    ensures f.records == records && f.indentWidth == INDENT_WIDTH
  {
    Formatter(records, ("yes", "no"), INDENT_WIDTH)
  }
}
