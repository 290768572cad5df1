# restcli in Dafny

restcli is an interactive browser for a REST service. Its configuration names a base URL
and a tree of endpoints. The program:

- walks that tree, fetching every endpoint below the records found so far;
- flattens the JSON objects it receives into `(path, value)` records sorted by path;
- prints them as an indented tree, whose inner nodes are the runs of consecutive records
  that share leading `/`-segments.

At its prompt, the user moves a cursor path with `cd` and sees the records below it.

This project models the core of that program and proves properties of it.

- **Module `Prefixes`** (`src/prefix.rs`). This is the prefix compressor.
  - `Path` is a class whose `Pop` splits segments off the end of the raw text in place.
  - `Build` is the reverse walk over the sorted paths. It uses per-depth counters and
    mirrors the source's loops, except for the corrected final loop (see Findings): a
    depth held by the last record alone pops the depth with its pending depths.
  - With that correction (corrected final loop; see Findings), `Build` is proved to return
    runs that are:
    - within range and ordered by start;
    - laminar: any two runs are nested or disjoint;
    - each a maximal stretch of records sharing its depth;
    - labelled with segments all of its records share, and as many as they share: the
      label cannot be extended by the next segment of all of them;
    - of two or more records each, except the first run at depth 0;
    - complete: every maximal stretch of two or more records sharing some segments is one
      of the runs, with a label that takes in the last shared segment.
- **Module `Format`** (`src/format.rs`). This is the renderer.
  - It covers `Wrapper`'s display of scalars, the `Format` implementations for maps and
    values, and `decode_path`.
  - `Formatter::fmt` is the method `Formatter.Fmt`. It is proved to print exactly the
    specification `Rendered`: each record gets the headers of the runs that open at it,
    then its value. It panics exactly when the source's fixed-size vector would overflow,
    an index would underflow, or the slice of the path is past its end.
  - When every path ends at a segment, `Fmt` is proved not to panic, and the labels of the
    runs open at each record, put together, spell the start of that record's path.
- **Module `Percent`**: the percent-decoding that `decode_path` calls, from the
  `urlencoding` crate. This covers escapes, then UTF-8 validity of the decoded bytes.
- **Module `Text`**: the string operations the source uses:
  - `trim_matches`, `split`, `join`, `starts_with`;
  - the byte-wise order `str::cmp`, proved to be a strict total order.
- **Module `Schema`** (`src/config.rs`): the configuration records.
- **Module `Queries`** (`src/cli.rs`, `Rest` and `Querier`).
  - The walk of the endpoint tree is a pair of mutually recursive functions. The class
    `Querier`'s methods are proved to follow them.
  - `query` sorts the records by path. It is proved to return a sorted permutation of
    what the walk found.
- **Module `Cli`** (`src/cli.rs`, `CLI`). The class `Session` holds the session state.
  - `binary_search_by` is stated as the contract of the standard library, with one
    implementation.
  - `filter_records` is proved to return the records under the cursor.
  - `change_directory` uses the corrected lookup (see Findings). With it, the cursor is
    proved to move exactly when some record lies at or under the looked-up path. It walks
    the service again exactly when the source does.

### How outside code is modelled

- A string is a `seq<char>` in which each `char` stands for one UTF-8 byte. So lengths are
  byte lengths, as `len()` gives them in Rust.
- The HTTP fetch `Rest::get` is a function-valued field returning a `Result`. So are
  `jsonpath::find` and the JSONPath it is given.
- A JSON number is kept as the text it prints as.
- An object's entries are a sequence, in iteration order.
- A panic of the source (a `heapless` vector overflow, a `usize` underflow) is the outcome
  `Panicked` of the renderer. Elsewhere it is a `requires` that rules the panic out.
  Panics from cutting a string inside a UTF-8 character are not modelled (see Left out).

## Model

| member | source | states |
|---|---|---|
| Prefixes.Tokens | src/prefix.rs:21-24 | a path always has at least one segment (`split` yields one even for an empty string) |
| Prefixes.TokensJoin | src/prefix.rs:23 | the segments joined with `/` give back the path with its leading and trailing `/`s trimmed |
| Prefixes.RootedFits | src/prefix.rs:32-35 | for a path starting with `/`, the segments written back with a `/` before each fit in the raw text, so `pop` never splits before its start |
| Prefixes.RootedAligned | src/prefix.rs:32-35 | for a path starting with `/` without a trailing `/`, the raw text ends with its segments written back, so `pop(n)` returns exactly the last `n` segments |
| Prefixes.EmptyTokens | src/prefix.rs:21-24 | a path made only of `/`s is aligned with its single empty segment |
| Prefixes.CommonLength | src/prefix.rs:40-42 | the shared leading segments of two lists: they agree on that many, and the next ones differ or one list ends |
| Prefixes.CommonLengthExact | src/prefix.rs:40-42 | two segment lists share their first `m` segments if and only if `m` is at most their common length |
| Prefixes.Path.From | src/prefix.rs:21-25 | a path keeps its raw text and holds its segments; more than `MAX_LEVEL` (16) segments would overflow the `heapless` vector and is excluded |
| Prefixes.Path.NumLevel | src/prefix.rs:44-46 | the depth of a path is its number of segments |
| Prefixes.Path.MatchTokens | src/prefix.rs:40-42 | the number of leading segments two paths share, and no more |
| Prefixes.Path.Pop | src/prefix.rs:28-38 | `pop(n)` drops the last `n` segments and splits off the raw text's suffix of the length they take with their `/`s, keeping what remains a prefix of the raw text; on an aligned path the suffix is exactly those segments |
| Prefixes.BlocksNest | src/prefix.rs:61-87 | two maximal stretches of records sharing leading segments are disjoint or the deeper lies inside the shallower |
| Prefixes.StretchBlock | src/prefix.rs:61-87 | around any record there is a maximal stretch of records sharing its first `m` segments (built by `StretchStart` and `StretchEnd`) |
| Prefixes.BlockHolds | src/prefix.rs:61-87 | a maximal stretch sharing `m` segments contains every stretch around one of its records that shares them |
| Prefixes.RunUnique | src/prefix.rs:61-87 | two maximal stretches from the same record sharing the same segments end at the same record |
| Prefixes.Forward | src/prefix.rs:100-104 | reversing the runs maps the `j`-th run to the remapped run counted from the other end |
| Prefixes.ForwardLabels | src/prefix.rs:100-104 | reversing and remapping the runs emitted during the backward walk keeps the meaning of every run |
| Prefixes.ForwardOrdered | src/prefix.rs:100-104 | runs emitted by end, deeper first, come out ordered by start, wider first |
| Prefixes.BlocksLaminar | src/prefix.rs:49-106 | runs that are maximal stretches are pairwise nested or disjoint |
| Prefixes.Close | src/prefix.rs:64-81 | the inner loop of the walk leaves the reference path holding just the shared segments; every run it emits is a maximal stretch labelled with its segments; and afterwards every maximal stretch of two or more records from the reference record on is among the emitted runs |
| Prefixes.CloseLevel | src/prefix.rs:68-80 | one depth of the inner loop drops, emits or defers the depth while keeping the loop invariant, including that every stretch sharing the depths walked so far is emitted |
| Prefixes.GatherSingle | src/prefix.rs:69-70 | a depth counting one record is shared by no stretch of two or more, so dropping it loses no stretch |
| Prefixes.GatherEmit | src/prefix.rs:71-74 | the run emitted at a depth is the maximal stretch for that depth and every pending depth |
| Prefixes.GatherDone | src/prefix.rs:64-81 | once the inner loop reaches the depth the next path shares, every stretch from the reference record is emitted: the rest take in the record before too |
| Prefixes.DropLevel | src/prefix.rs:69-70 | a depth held by the current record alone is popped and emits nothing |
| Prefixes.EmitLevel | src/prefix.rs:71-74 | a depth whose count is below its parent's emits one run, labelled with the depth and the pending depths, ending at the current index |
| Prefixes.Increment | src/prefix.rs:64-66 | the counters of the shared depths grow by one, the others stay |
| Prefixes.Flush | src/prefix.rs:88-99 | (corrected final loop; see Findings) the final loop emits the runs that the last record closes, including the depth-0 run, keeping every emitted run meaningful, and afterwards every maximal stretch of two or more records is among the emitted runs |
| Prefixes.FlushLevel | src/prefix.rs:89-98 | (corrected final loop; see Findings) one depth of the final loop keeps the loop invariant, including the emitted stretches, and depth 0 always emits |
| Prefixes.SkipLevel | src/prefix.rs:96-98 | a depth of the final loop held by the last record alone pops the depth with its pending depths (the corrected branch; see Findings) |
| Prefixes.Load | src/prefix.rs:62 | a record path becomes a fresh `Path` holding that record's segments |
| Prefixes.Walk | src/prefix.rs:53-87 | after the main loop, the reference path and counters describe the last record, and every emitted run is a maximal, correctly labelled stretch |
| Prefixes.Start | src/prefix.rs:54-60 | the last path starts the walk with a counter of 1 at every depth |
| Prefixes.Step | src/prefix.rs:61-87 | one record of the main loop keeps the walk invariant, and the deeper of the two paths becomes the reference |
| Prefixes.Finish | src/prefix.rs:88-105 | (corrected final loop; see Findings) the final loop and the reversal give ordered, laminar runs whose first starts at record 0 at depth 0, only that one covering a single record, and every maximal stretch of two or more records sharing some segments among them |
| Prefixes.ForwardFound | src/prefix.rs:100-104 | the stretches found in backward order are the runs once reversed and counted from the front |
| Prefixes.OnlyFirstSingle | src/prefix.rs:88-105 | only the first run may hold a single record |
| Prefixes.ReverseRemap | src/prefix.rs:100-104 | the returned runs are the emitted ones reversed, with each range counted from the front |
| Prefixes.Build | src/prefix.rs:49-106 | (corrected final loop; see Findings) no paths give no runs; otherwise the runs are ordered, laminar and within range, the first covers from record 0 at depth 0, every other run covers two or more records, each is a maximal stretch sharing its depth and labelled with segments all its records share and that cannot be extended for all of them, and every maximal stretch of two or more records sharing some segments is a run whose label takes in the last shared one |
| Text.JoinSplit | src/prefix.rs:23 | splitting on a separator and joining again gives back the string |
| Text.SplitJoin | src/prefix.rs:23 | joining separator-free pieces and splitting again gives back the pieces |
| Text.BelowTransitive | src/cli.rs:72 | the byte-wise order of paths is transitive |
| Text.BelowTotal | src/cli.rs:72 | any two distinct paths are ordered one way or the other |
| Text.BelowIrreflexive | src/cli.rs:72 | no path is below itself |
| Text.NotBelowPrefix | src/cli.rs:104-108 | a path is never below a prefix of itself |
| Text.PrefixBlock | src/cli.rs:104-108 | a path between two paths that start with `p` starts with `p` too |
| Format.Display | src/format.rs:13-22 | only strings, numbers and booleans print anything |
| Format.Context.Deeper | src/format.rs:63-66 | a nested map is printed one indentation step deeper, without a key, with the same words for booleans |
| Format.ArrayLines | src/format.rs:57-62 | an array prints one line per element |
| Format.EntryShift | src/format.rs:42-72 | printing an entry deeper by `d` indents every line by `d` more, whatever the context key |
| Format.EntriesShift | src/format.rs:42-72 | printing a map's entries deeper by `d` indents every line by `d` more |
| Format.MapIndent | src/format.rs:42-72 | a map ignores the context key, and its output is its unindented output shifted by the context indentation |
| Format.ValueAsEntry | src/format.rs:74-96 | a scalar prints nothing on its own; an array or null with a key prints as a map entry would; an object without a key prints its entries one step deeper |
| Format.BoolWords | src/format.rs:47-50 | with the default words, `true` prints `no` and `false` prints `yes` (`yesno[b as usize]`) |
| Format.DecodePath | src/format.rs:98-103 | a decoded path is never longer than the path |
| Format.DecodePathPieces | src/format.rs:98-103 | when no decoded piece holds a `/`, the path decodes piece by piece, keeping its `/` separators; undecodable input gives the empty string |
| Format.DecodePathDotted | src/format.rs:98-100 | when some piece decodes to a `/`, the pieces are decoded and joined with `.`; undecodable input gives the empty string |
| Format.OpenStep | src/format.rs:131-142 | opening a run that starts at the record adds it to the open runs, adds its label length, and prints its decoded label with a `:` exactly when the open labels spell the whole record path |
| Format.OpenDone | src/format.rs:131 | the opening loop stops at the first run starting after the record, with exactly the runs covering the record open, or the vector has overflowed |
| Format.Then | src/format.rs:138-148 | output printed in sequence panics if either part panics, and otherwise concatenates the lines |
| Format.RecordParts | src/format.rs:125-149 | a record's output is the headers of the runs opened at it followed by its value |
| Format.JoinedPanics | src/format.rs:125-149 | once one record's output panics, the whole output panics |
| Format.JoinedNext | src/format.rs:125-149 | the output of the first `i + 1` records is that of the first `i` followed by record `i`'s |
| Format.CoverChain | src/format.rs:120-142 | the runs open at a record, in order, end no later than the run before them |
| Format.ChainKeep | src/format.rs:126-130 | popping the ended runs off the end keeps exactly the runs still open |
| Format.Formatter.Keys | src/format.rs:119 | the keys are the record paths in order |
| Format.Formatter.CloseRuns | src/format.rs:126-130 | after the closing loop, the open runs are those started before the record that still cover it, and the label length and indentation match them |
| Format.Formatter.PopEnded | src/format.rs:126-130 | the closing loop pops exactly the trailing runs that ended at or before the record |
| Format.Formatter.OpenRuns | src/format.rs:131-142 | the opening loop prints the headers of every run starting at the record, leaving exactly the runs covering it open, or reports the overflow of the `MAX_LEVEL` vector |
| Format.Formatter.OpenLoop | src/format.rs:131-142 | the opening loop opens runs in order until one starts after the record or the vector is full |
| Format.Formatter.OpenOne | src/format.rs:132-141 | one iteration opens the next run, one level deeper |
| Format.Formatter.PrintValue | src/format.rs:143-148 | a record's value prints one level shallower without a key when the open labels spell its path, otherwise under the rest of its path decoded with a `:`, and panics exactly on underflow |
| Format.Formatter.Record | src/format.rs:125-149 | one iteration of the record loop prints exactly that record's output, or panics exactly when it would |
| Format.Formatter.Render | src/format.rs:118-151 | given the runs, the loop prints exactly `Rendered`: each record's headers and value in record order, or panics |
| Format.Formatter.Fmt | src/format.rs:117-152 | `fmt` prints exactly the rendering of the records under the runs `build` gives for their paths, and those runs are ordered, laminar and labelled with their shared segments; when every path ends at a segment it does not panic, and the labels of the runs open at each record spell the start of its path (`key[..prefix_len]` once leading extra slashes are skipped) |
| Format.WidenBlock | src/prefix.rs:71-74 | a run is a maximal stretch for every depth its label covers |
| Format.OpenBelow | src/format.rs:131-142 | of two runs open at the same record, the earlier one's label ends where the later one's starts or before |
| Format.OpenFits | src/format.rs:133-135 | for paths ending at segments, the labels of the runs open at a record are no longer than its path |
| Format.RecordPrinted | src/format.rs:125-148 | for paths ending at segments, no record's output panics |
| Format.RenderedPrinted | src/format.rs:118-151 | for paths ending at segments, the rendering prints and does not panic |
| Format.OpenOrdered | src/format.rs:131-142 | along the runs open at a record, labels follow one another and none is empty |
| Format.OpenSplit | src/format.rs:131-142 | any run open at a record ends its label by the last open run before a given one, or starts it no earlier than that one |
| Format.GapRun | src/prefix.rs:49-106 | for any depth above a run's label, some run open at the same record takes in that depth |
| Format.OpenAdjacent | src/format.rs:131-142 | the label of an open run starts where the label of the open run before it ends, or at the first segment |
| Format.OpenSpells | src/format.rs:131-133 | the labels of the runs open at a record spell its segments down to where the last one ends |
| Format.AlignedSpells | src/format.rs:143-147 | any first segments of a path ending at a segment are spelled in it where they start |
| Format.KeySpelled | src/format.rs:131-147 | for paths ending at segments, the open labels at each record spell the start of its path, so `prefix_len` cuts the path between segments |
| Format.From | src/format.rs:111-115 | a formatter keeps the records and uses the two-blank indentation step |
| Percent.HexValue | src/format.rs:98-103 | a hexadecimal digit's value is below 16 |
| Percent.DecodeBytes | src/format.rs:98-103 | percent-decoding never lengthens a string |
| Percent.Decode | src/format.rs:98-103 | a string without `%` decodes to itself, and a decoded string is never longer |
| Percent.DecodeBytesPlain | src/format.rs:98-103 | a string without `%` is unchanged by decoding its escapes |
| Percent.HexDigit | src/format.rs:98-103 | the digit written for a value below 16 reads back as that value |
| Percent.DecodeEncode | src/format.rs:98-103 | percent-encoding every byte and decoding gives back the bytes |
| Percent.DecodeJoin | src/format.rs:99-102 | decoding pieces joined by a separator that is neither `%` nor a hex digit is decoding each piece and joining |
| Percent.DecodeBeforeSeparator | src/format.rs:99-102 | decoding stops at such a separator: the two sides decode independently |
| Queries.KeysOf | src/cli.rs:104 | the record paths in order |
| Queries.Top | src/cli.rs:71 | the top-level endpoints are walked as the sub-endpoints of the configuration |
| Queries.GrowsTrans | src/cli.rs:38-68 | the way a walk changes the querier's fields composes |
| Queries.StartsWithLonger | src/cli.rs:53-60 | a path under `p + s` is under `p` |
| Queries.ApisGrow | src/cli.rs:38-68 | a walk of endpoints below `prefix` that succeeds only appends records under `prefix`, sets `root`, and never changes a `root` or `more` already set |
| Queries.EntriesGrow | src/cli.rs:52-62 | the same for the loop over a reply's entries |
| Queries.InsertPermutes | src/cli.rs:72 | inserting a record adds exactly that record |
| Queries.AppendSorted | src/cli.rs:72 | a record no path is above keeps a sorted list sorted when appended |
| Queries.InsertBelow | src/cli.rs:72 | inserting never places a record above a bound that all others respect |
| Queries.InsertSorted | src/cli.rs:72 | inserting into a sorted list gives a sorted permutation with the new record |
| Queries.SortByKeySorted | src/cli.rs:72 | sorting by path gives a permutation of the records, sorted by path |
| Queries.QueriedSorted | src/cli.rs:70-74 | a successful query returns the walk's `more` and root (never the default) and every record it found, each under `/`, sorted by path |
| Queries.Querier.constructor | src/cli.rs:76-78 | a new querier has no records, `more` unset and no root |
| Queries.Querier.QueryApis | src/cli.rs:38-68 | `query_apis` succeeds exactly when the walk does, and then leaves the fields the walk gives |
| Queries.Querier.Query | src/cli.rs:70-74 | `query` returns exactly the walk from `/` with the root defaulted to `/` and the records sorted by path |
| Cli.Compare | src/cli.rs:104 | `cmp` on paths answers `Less` exactly for the byte-wise order and `Equal` exactly for equal paths |
| Cli.SearchBy | src/cli.rs:104-109 | `binary_search_by` on a partitioned slice: `Ok` names an element that compares equal; `Err(i)` has every element before `i` less and every one from `i` on greater |
| Cli.Search | src/cli.rs:104-109 | the same on the range between the bounds known so far |
| Cli.SortedPartitioned | src/cli.rs:104 | comparing sorted paths with a fixed path partitions them |
| Cli.StartBound | src/cli.rs:104 | the first search stops at a point from which no path is below the cursor, and before which none lies under it, unless the cursor path is a record more than once |
| Cli.SuffixPartitioned | src/cli.rs:105-108 | past that point, the second comparator answers `Less` exactly for the paths under the cursor and never `Equal` |
| Cli.BlockEnd | src/cli.rs:105-109 | the second search ends the block: the paths before it are under the cursor and none after it is |
| Cli.Block | src/cli.rs:104-109 | the two searches bound a block of paths under the cursor, after which none is |
| Cli.UnderAppend | src/cli.rs:99-110 | the records under a path, of two lists joined, are those of each |
| Cli.UnderSplit | src/cli.rs:99-110 | the same for a list split anywhere |
| Cli.UnderAll | src/cli.rs:99-110 | a list all under the path, or none of it, filters to itself or to nothing |
| Cli.UnderBlock | src/cli.rs:99-110 | when only a block is under the path, the records under it are that block |
| Cli.FilterBlock | src/cli.rs:109 | the slice the searches bound holds only records under the cursor, and all of them when none lies before it |
| Cli.WithSlash | src/cli.rs:139-141 | pushing `/` unless present gives a path ending with `/` that extends the original by at most one byte |
| Cli.LastIndex | src/cli.rs:121 | `rsplit_once('/')` splits at the last `/`, or finds none |
| Cli.Target | src/cli.rs:120-127 | a move never keeps more than the whole cursor |
| Cli.UpOne | src/cli.rs:121-124 | `cd ..` cuts the cursor at the last `/` before its last segment (trailing `/`s ignored), or to nothing when there is none, and appends nothing |
| Cli.RelativeJoin | src/cli.rs:126-137 | a relative argument other than `..` always moves, to the cursor with a `/` and then the argument |
| Cli.AbsoluteJoin | src/cli.rs:125-137 | an absolute argument always moves, to the argument itself |
| Cli.IdleExactly | src/cli.rs:128-130 | `change_directory` returns at once exactly for the empty argument, or for `..` on an empty cursor |
| Cli.Located | src/cli.rs:138 | the search for the looked-up path finds it when it is a record, and otherwise its insertion point in the byte-wise order |
| Cli.ResolveExact | src/cli.rs:138-147 | the move is accepted exactly when some record is the looked-up path or lies under it as a directory; the cursor becomes that path, with a `/` unless it is a record, and some record lies under it |
| Cli.ResolveLower | src/cli.rs:138-145 | the record at the insertion point of the path with its `/` lies under it exactly when some record does |
| Cli.Session.New | src/cli.rs:91-97 | `CLI::new` succeeds exactly when the first walk towards `/` does, with its records, `more` and root, the cursor at `/` and the records sorted |
| Cli.Session.FilterRecords | src/cli.rs:99-110 | at `/`, every record; elsewhere only records under the cursor, and all of them when the cursor path is a record at most once |
| Cli.Session.Refresh | src/cli.rs:112-117 | `refresh` replaces `more`, root and records with a new walk towards the cursor, or changes nothing when a request fails; the records stay sorted |
| Cli.Session.Locate | src/cli.rs:119-146 | (corrected lookup; see Findings) the move `arg` asks for, and the path it reaches, or none when it changes nothing or no record lies at or under that path |
| Cli.Session.ChangeDirectory | src/cli.rs:119-157 | (corrected lookup; see Findings) an idle move changes nothing; an unreachable path prints "No such path" and changes nothing; otherwise the cursor moves there, and the service is walked again unless the argument appended a path and no endpoint had sub-endpoints, or the move went up within the root; a failed walk is reported and keeps the records |
| PrefixFinding.FlushAsWrittenShape | src/prefix.rs:88-99 | the final loop as written pushes between one and `i + 1` runs, all ending at the last record, unless it panics |
| PrefixFinding.FlushAsWrittenMislabels | src/prefix.rs:96-98 | on `/a/b/c`, `/a/d` the final loop as written labels both records `/a/b`, which no depth makes a correct label |
| PrefixFinding.BuildSample | src/prefix.rs:88-99 | with the corrected final loop, `Build` on `/a/b/c`, `/a/d` returns exactly one run, `/a` over both records |
| PrefixFinding.SampleRun | src/prefix.rs:88-99 | for those paths, the only correct run over both records is `/a` at depth 0 |
| CliFinding.AsWrittenSound | src/cli.rs:138-146 | every move the check as written accepts, the corrected check accepts with the same path |
| CliFinding.AsWrittenRejectsDirectory | src/cli.rs:138-146 | with records `/a-b` and `/a/c`, `cd a` at `/` looks up `/a`, which the records reach; as written it is refused, and the corrected check moves to `/a/` |

## Left out

- The interactive loop `CLI::run`, terminal input and `println!` output, and `main.rs`
  (argument parsing, reading the configuration file, logging): these are I/O.
- `Rest::get`'s HTTP client, the URL concatenation's network semantics and the `Accept`
  header: the fetch is an uninterpreted, fallible function of the URL.
- The internals of `jsonpath::find` and JSONPath parsing, and serde deserialisation of
  `Config`: `find` is an uninterpreted function, and the configuration is given as values.
- JSON numbers are kept as the text they print as; how `serde_json` formats floats is
  left out.
- Write errors of `fmt::Formatter`: writing is assumed to succeed, so the only failure of
  `Formatter.Fmt` is a panic.
- Borrowing: the source's `&str` slices of the record paths become copied strings; no
  aliasing is observable, since nothing mutates them.
- The fixture-based tests (`test/sample-data.yaml`, `test/sample-output.txt`): those data
  files are not part of this model. `PrefixFinding.BuildSample` is a small concrete run of
  `Build` instead.
- Cli.SearchBy: only the contract of `binary_search_by` is relied on; the index the
  standard library returns among several equal elements may differ from this bisection.
- Cli.Session.FilterRecords: when the cursor path is itself a record more than once, the
  result is only proved to hold records under the cursor, not all of them, because the
  first search may land after some of them.
- Queries.SortByKeySorted: stability of `sort_by` among records with equal paths is not
  stated; sortedness and permutation are.
- Queries.Querier.QueryApis: on a failed request the fields the walk changed before the
  failure are not described, because `query` consumes the querier and they are never read.
- An absent `apis` list of an endpoint is the empty list, as `unwrap_or_default()`
  reads it.
- Prefixes.Build: paths with more than `MAX_LEVEL` segments, or too short for their
  segments to be split off, are excluded by `WellFormed`. The source panics on the first
  kind and on some of the second (not all: `/a/b` then `a` gives one run `/a`). Every path
  the query produces starts with `/`, and `RootedFits` shows such a path is long enough.
  The labels are only proved to spell the shared segments when every path is
  aligned (starts with `/` and has no trailing `/`, see `RootedAligned`). For other paths
  `pop` cuts by length, and a label may fall across segment boundaries.
- Character-boundary panics: `str::split_at` in `pop` and `key[prefix_len..]` in `fmt`
  panic when the cut falls inside a UTF-8 character. Strings here are byte sequences, so
  such a cut does not panic in the model. It can only happen on paths not aligned with
  their segments, such as `/é//`, where `pop(1)` cuts at byte 2.
- Format.Formatter.Fmt: that it does not panic, and that the open labels spell the start
  of each path, is proved only when every path ends at a segment, for the same reason.
- Lines written before a panic: `list` prints the formatter with `println!`
  (src/cli.rs:181), so lines written before a panic may reach the terminal; the model's
  `Panicked` outcome drops them.

## Findings

| source | as written | input that shows it | evidently intended | confidence | as-written member | corrected member |
|---|---|---|---|---|---|---|
| src/prefix.rs:96-98 | in the final loop of `build`, a depth held by the last record alone pops one segment, `pop(1)`, and keeps the pending `length` | sorted paths `/a/b/c`, `/a/d`: the run over both records is labelled `/a/b` instead of `/a` | pop the depth together with its pending depths, `pop(length)`, and reset `length` to 1 | high, not executed | PrefixFinding.FlushAsWrittenMislabels | Prefixes.SkipLevel |
| src/cli.rs:138-146 | when the looked-up path is not a record, the record checked is the one at the insertion point of the path without its `/` | records `/a-b`, `/a/c` (`-` sorts below `/`); `cd a` at `/` prints "No such path" although `/a/c` lies under `/a/` | check the record at the insertion point of the path with its `/` pushed | high, not executed | CliFinding.AsWrittenRejectsDirectory | Cli.ResolveExact |
