/** `CLI` (src/cli.rs): the browsing session over the records of one walk of the endpoint
    tree, sorted by path, with a cursor path that `cd` moves and `list` lists under. */
module Cli {
  import opened Basics
  import opened Text
  import opened Format
  import opened Schema
  import opened Queries

  /** `std::cmp::Ordering` */
  datatype Ordering = Less | Equal | Greater

  /** `a.cmp(b)` for `str`. */
  function Compare(a: string, b: string): (o: Ordering)
    ensures o == Less <==> Below(a, b)
    ensures o == Equal <==> a == b
  {
    BelowIrreflexive(a);
    if Below(a, b) then Less else if a == b then Equal else Greater
  }

  function Rank(o: Ordering): nat {
    match o
    case Less => 0
    case Equal => 1
    case Greater => 2
  }

  /** What `binary_search_by` demands: along `keys` the comparator gives `Less`, then `Equal`,
      then `Greater`. */
  predicate Partitioned(keys: seq<string>, cmp: string -> Ordering) {
    forall i, j :: 0 <= i < j < |keys| ==> Rank(cmp(keys[i])) <= Rank(cmp(keys[j]))
  }

  /** `key.cmp(path)` as a comparator. */
  function ByKey(path: string): string -> Ordering {
    key => Compare(key, path)
  }

  /** The comparator of the second search of `filter_records`: keys under `path` first. */
  function ByPrefix(path: string): string -> Ordering {
    key => if StartsWith(key, path) then Less else Compare(key, path)
  }

  /** `binary_search_by`: `Ok` of some index where the comparator gives `Equal`, or `Err` of
      the index where such a key would be inserted. Which of several matches is returned is
      left open, as in the standard library's documentation. */
  function SearchBy(keys: seq<string>, cmp: string -> Ordering): (r: Result<nat, nat>)
    requires Partitioned(keys, cmp)
    ensures r.Ok? ==> r.value < |keys| && cmp(keys[r.value]) == Equal
    ensures r.Err? ==> r.error <= |keys|
                       && (forall k :: 0 <= k < r.error ==> cmp(keys[k]) == Less)
                       && (forall k :: r.error <= k < |keys| ==> cmp(keys[k]) == Greater)
  {
    Search(keys, cmp, 0, |keys|)
  }

  /** The search between `lo` and `hi`, below which every key is `Less` and from which every
      key is `Greater`. */
  function Search(keys: seq<string>, cmp: string -> Ordering, lo: nat, hi: nat)
    : (r: Result<nat, nat>)
    requires Partitioned(keys, cmp) && lo <= hi <= |keys|
    requires forall k :: 0 <= k < lo ==> cmp(keys[k]) == Less
    requires forall k :: hi <= k < |keys| ==> cmp(keys[k]) == Greater
    ensures r.Ok? ==> r.value < |keys| && cmp(keys[r.value]) == Equal
    ensures r.Err? ==> r.error <= |keys|
                       && (forall k :: 0 <= k < r.error ==> cmp(keys[k]) == Less)
                       && (forall k :: r.error <= k < |keys| ==> cmp(keys[k]) == Greater)
    decreases hi - lo
  {
    if lo == hi then Err(lo)
    else
      var mid := (lo + hi) / 2;
      match cmp(keys[mid])
      case Less => Search(keys, cmp, mid + 1, hi)
      case Greater => Search(keys, cmp, lo, mid)
      case Equal => Ok(mid)
  }

  /** `unwrap_or_else(|e| e)` on a search result. */
  function Index(r: Result<nat, nat>): nat {
    match r
    case Ok(i) => i
    case Err(i) => i
  }

  /** Keys sorted by `Ord for str` are partitioned by `key.cmp(path)`, whatever `path`. */
  lemma SortedPartitioned(keys: seq<string>, path: string)
    requires Sorted(keys)
    ensures Partitioned(keys, ByKey(path))
  {
    forall i, j | 0 <= i < j < |keys|
      ensures Rank(ByKey(path)(keys[i])) <= Rank(ByKey(path)(keys[j]))
    {
      assert !Below(keys[j], keys[i]);
      BelowTotal(keys[i], keys[j]);
      if Below(keys[i], keys[j]) && Below(keys[j], path) {
        BelowTransitive(keys[i], keys[j], path);
      }
    }
  }

  /** Where the first search of `filter_records` starts the block: no key from there on is
      below `path`, and when at most one key is `path` itself, none before it is under
      `path`. */
  lemma StartBound(keys: seq<string>, path: string)
    requires Sorted(keys)
    ensures Partitioned(keys, ByKey(path))
    ensures var s := Index(SearchBy(keys, ByKey(path)));
            s <= |keys| && (forall k :: s <= k < |keys| ==> !Below(keys[k], path))
            && (Once(keys, path) ==> forall k :: 0 <= k < s ==> !StartsWith(keys[k], path))
  {
    SortedPartitioned(keys, path);
    var r := SearchBy(keys, ByKey(path));
    var s := Index(r);
    if r.Ok? {
      forall k | s <= k < |keys|
        ensures !Below(keys[k], path)
      {
        if s < k {
          assert !Below(keys[k], keys[s]);
        } else {
          BelowIrreflexive(path);
        }
      }
      if Once(keys, path) {
        forall k | 0 <= k < s
          ensures !StartsWith(keys[k], path)
        {
          assert Rank(ByKey(path)(keys[k])) <= Rank(ByKey(path)(keys[s]));
          assert keys[k] != path;
          if StartsWith(keys[k], path) {
            NotBelowPrefix(keys[k], path);
          }
        }
      }
    } else {
      forall k | 0 <= k < s
        ensures !StartsWith(keys[k], path)
      {
        if StartsWith(keys[k], path) {
          NotBelowPrefix(keys[k], path);
        }
      }
    }
  }

  /** At most one key is `path`. */
  predicate Once(keys: seq<string>, path: string) {
    forall a, b :: 0 <= a < b < |keys| ==> keys[a] != path || keys[b] != path
  }

  /** From a point where no key is below `path` on, the keys under `path` come first, so the
      second comparator partitions them; it never answers `Equal` there. */
  lemma SuffixPartitioned(keys: seq<string>, s: nat, path: string)
    requires Sorted(keys) && s <= |keys|
    requires forall k :: s <= k < |keys| ==> !Below(keys[k], path)
    ensures Partitioned(keys[s..], ByPrefix(path))
    ensures forall k :: 0 <= k < |keys[s..]| ==>
              (ByPrefix(path)(keys[s..][k]) == Less <==> StartsWith(keys[s..][k], path))
              && ByPrefix(path)(keys[s..][k]) != Equal
  {
    var t := keys[s..];
    forall k | 0 <= k < |t|
      ensures ByPrefix(path)(t[k]) == Less <==> StartsWith(t[k], path)
      ensures ByPrefix(path)(t[k]) != Equal
    {
      assert t[k] == keys[s + k];
      if t[k] == path {
        assert StartsWith(t[k], path);
      }
    }
    forall i, j | 0 <= i < j < |t|
      ensures Rank(ByPrefix(path)(t[i])) <= Rank(ByPrefix(path)(t[j]))
    {
      assert t[i] == keys[s + i] && t[j] == keys[s + j];
      if StartsWith(t[j], path) && !StartsWith(t[i], path) {
        PrefixBlock(t[j], t[i], path);
        assert false;
      }
    }
  }

  /** The second search of `filter_records` ends the block of keys under `path` that starts
      at `s`. */
  lemma BlockEnd(keys: seq<string>, s: nat, path: string)
    requires Sorted(keys) && s <= |keys|
    requires forall k :: s <= k < |keys| ==> !Below(keys[k], path)
    ensures Partitioned(keys[s..], ByPrefix(path))
    ensures var e := Index(SearchBy(keys[s..], ByPrefix(path)));
            s + e <= |keys| && (forall k :: s <= k < s + e ==> StartsWith(keys[k], path))
            && (forall k :: s + e <= k < |keys| ==> !StartsWith(keys[k], path))
  {
    SuffixPartitioned(keys, s, path);
    var t := keys[s..];
    var r := SearchBy(t, ByPrefix(path));
    if r.Ok? {
      assert false;
    }
    var e := r.error;
    forall k | s <= k < s + e
      ensures StartsWith(keys[k], path)
    {
      assert t[k - s] == keys[k];
    }
    forall k | s + e <= k < |keys|
      ensures !StartsWith(keys[k], path)
    {
      assert t[k - s] == keys[k];
    }
  }

  /** The two searches of `filter_records` on sorted keys: where the block of keys under
      `path` starts, and how long it is. Before the block no key is under `path` unless it is
      `path` itself. */
  function Block(keys: seq<string>, path: string): (b: (nat, nat))
    requires Sorted(keys)
    ensures b.0 + b.1 <= |keys|
    ensures forall k :: b.0 <= k < b.0 + b.1 ==> StartsWith(keys[k], path)
    ensures forall k :: b.0 + b.1 <= k < |keys| ==> !StartsWith(keys[k], path)
    ensures Once(keys, path) ==> forall k :: 0 <= k < b.0 ==> !StartsWith(keys[k], path)
  {
    StartBound(keys, path);
    var start := Index(SearchBy(keys, ByKey(path)));
    BlockEnd(keys, start, path);
    (start, Index(SearchBy(keys[start..], ByPrefix(path))))
  }

  /** The records under `path`, in order. */
  function Under(records: seq<Record>, path: string): seq<Record> {
    if records == [] then []
    else
      Under(records[..|records| - 1], path)
      + (if StartsWith(records[|records| - 1].0, path) then [records[|records| - 1]] else [])
  }

  lemma {:induction false} UnderAppend(a: seq<Record>, b: seq<Record>, path: string)
    ensures Under(a + b, path) == Under(a, path) + Under(b, path)
    decreases |b|
  {
    if b != [] {
      assert (a + b)[..|a + b| - 1] == a + b[..|b| - 1];
      UnderAppend(a, b[..|b| - 1], path);
    } else {
      assert a + b == a;
    }
  }

  lemma UnderSplit(records: seq<Record>, i: nat, path: string)
    requires i <= |records|
    ensures Under(records, path) == Under(records[..i], path) + Under(records[i..], path)
  {
    assert records == records[..i] + records[i..];
    UnderAppend(records[..i], records[i..], path);
  }

  lemma {:induction false} UnderAll(a: seq<Record>, path: string, all: bool)
    requires forall k :: 0 <= k < |a| ==> StartsWith(a[k].0, path) == all
    ensures Under(a, path) == if all then a else []
  {
    if a != [] {
      UnderAll(a[..|a| - 1], path, all);
    }
  }

  /** The slice `filter_records` returns, from `start` for `end` records, is the records under
      `path` when `start` is where no earlier record is under it. */
  lemma UnderBlock(records: seq<Record>, path: string, start: nat, end: nat)
    requires start + end <= |records|
    requires forall k :: start <= k < start + end ==> StartsWith(records[k].0, path)
    requires forall k :: start + end <= k < |records| ==> !StartsWith(records[k].0, path)
    requires forall k :: 0 <= k < start ==> !StartsWith(records[k].0, path)
    ensures Under(records, path) == records[start..start + end]
  {
    UnderSplit(records, start, path);
    var rest := records[start..];
    UnderSplit(rest, end, path);
    assert rest[..end] == records[start..start + end];
    UnderAll(records[..start], path, false);
    UnderAll(rest[..end], path, true);
    assert forall k :: 0 <= k < |rest[end..]| ==> rest[end..][k] == records[start + end + k];
    UnderAll(rest[end..], path, false);
  }

  /** A block of records under `path`, followed by none, holds only records under `path`,
      and all of them when none precedes it. */
  lemma FilterBlock(records: seq<Record>, path: string, start: nat, end: nat, r: seq<Record>)
    requires start + end <= |records| && r == records[start..start + end]
    requires forall k :: start <= k < start + end ==> StartsWith(KeysOf(records)[k], path)
    requires forall k :: start + end <= k < |records| ==> !StartsWith(KeysOf(records)[k], path)
    ensures forall k :: 0 <= k < |r| ==> StartsWith(r[k].0, path)
    ensures (forall k :: 0 <= k < start ==> !StartsWith(KeysOf(records)[k], path)) ==>
              Under(records, path) == r
  {
    var keys := KeysOf(records);
    forall k | 0 <= k < |r|
      ensures StartsWith(r[k].0, path)
    {
      assert r[k] == records[start + k] && keys[start + k] == r[k].0;
    }
    if forall k :: 0 <= k < start ==> !StartsWith(keys[k], path) {
      UnderBlock(records, path, start, end);
    }
  }

  /** `WithSlash(p)`: `p` with a `/` pushed unless it ends with one. */
  function WithSlash(p: string): (q: string)
    ensures EndsWith(q, "/") && StartsWith(q, p) && |q| <= |p| + 1
  {
    if EndsWith(p, "/") then p else p + "/"
  }

  /** The position of the last `c` in `s`, where `rsplit_once(c)` splits. */
  function LastIndex(s: string, c: char): (r: Option<nat>)
    ensures r.Some? ==> r.value < |s| && s[r.value] == c
                        && forall k :: r.value < k < |s| ==> s[k] != c
    ensures r.None? ==> forall k :: 0 <= k < |s| ==> s[k] != c
  {
    if s == [] then None
    else if s[|s| - 1] == c then Some(|s| - 1)
    else LastIndex(s[..|s| - 1], c)
  }

  /** How `change_directory` moves the cursor: how much of it it keeps and what it appends. */
  datatype Move = Move(truncate: nat, append: string)

  /** The first step of `change_directory`: `..` keeps the cursor up to the last `/` before
      its last segment, an absolute path replaces it, anything else is appended. */
  function Target(current: string, arg: string): (m: Move)
    ensures m.truncate <= |current|
  {
    if arg == ".." then
      TrimEndShape(current, '/');
      match LastIndex(TrimEnd(current, '/'), '/')
      case Some(k) => Move(k, "")
      case None => Move(0, "")
    else if StartsWith(arg, "/") then Move(0, arg)
    else Move(|current|, arg)
  }

  /** The move changes nothing, and `change_directory` returns at once. */
  predicate Idle(current: string, m: Move) {
    m.truncate == |current| && m.append == ""
  }

  /** The path `change_directory` looks up: the kept part of the cursor, joined to what is
      appended by one `/` unless either side already has it. */
  function Candidate(current: string, m: Move): string
    requires m.truncate <= |current|
  {
    var prefix := current[..m.truncate];
    if m.append == "" then prefix
    else (if !StartsWith(m.append, "/") && !EndsWith(prefix, "/") then prefix + "/" else prefix)
         + m.append
  }

  /** `cd ..` cuts the cursor at the last `/` before its last segment (trailing `/`s are not
      segments), or to nothing when it has no such `/`. */
  lemma UpOne(current: string)
    ensures var t := Target(current, "..").truncate;
            var trimmed := TrimEnd(current, '/');
            Target(current, "..").append == "" && t <= |trimmed| <= |current|
            && Candidate(current, Target(current, "..")) == current[..t]
            && (forall k :: t < k < |trimmed| ==> current[k] != '/')
            && (t > 0 ==> current[t] == '/')
            && (t == 0 && trimmed != [] ==> forall k :: 0 < k < |trimmed| ==> current[k] != '/')
  {
    TrimEndShape(current, '/');
  }

  /** `cd` with a relative path appends it behind exactly one `/`. */
  lemma RelativeJoin(current: string, arg: string)
    requires arg != "" && arg != ".." && !StartsWith(arg, "/")
    ensures !Idle(current, Target(current, arg))
    ensures Candidate(current, Target(current, arg)) == WithSlash(current) + arg
  {
    assert current[..|current|] == current;
  }

  /** `cd` with an absolute path looks up that path. */
  lemma AbsoluteJoin(current: string, arg: string)
    requires StartsWith(arg, "/")
    ensures !Idle(current, Target(current, arg)) && Candidate(current, Target(current, arg)) == arg
  {
    assert arg[0] == '/' != ".."[0];
  }

  /** `change_directory` returns at once exactly for an empty argument, or `..` on an empty
      cursor. */
  lemma IdleExactly(current: string, arg: string)
    ensures Idle(current, Target(current, arg)) <==> arg == "" || (arg == ".." && current == "")
  {
    if arg == ".." {
      TrimEndShape(current, '/');
    }
  }

  /** What a search by `key.cmp(p)` tells about sorted keys: `Ok` lands on `p`; `Err` splits
      the keys below `p` from the others, none of which is `p`. */
  lemma Located(keys: seq<string>, p: string)
    requires Sorted(keys)
    ensures Partitioned(keys, ByKey(p))
    ensures var r := SearchBy(keys, ByKey(p));
            && (r.Ok? ==> r.value < |keys| && keys[r.value] == p)
            && (r.Err? ==> r.error <= |keys|
                           && (forall k :: 0 <= k < r.error ==> Below(keys[k], p))
                           && (forall k :: r.error <= k < |keys| ==> !Below(keys[k], p) && keys[k] != p))
  {
    SortedPartitioned(keys, p);
  }

  /** Lines 138-146 of `change_directory`, as the evidently intended check: `prefix` is
      accepted when it is a record path; otherwise, with a `/` pushed, when the record at the
      lower bound of that path lies under it. `None` is "No such path". */
  function Resolve(keys: seq<string>, prefix: string): (r: Option<string>)
    requires Sorted(keys)
  {
    SortedPartitioned(keys, prefix);
    SortedPartitioned(keys, WithSlash(prefix));
    if SearchBy(keys, ByKey(prefix)).Ok? then Some(prefix)
    else
      var p := WithSlash(prefix);
      var index := Index(SearchBy(keys, ByKey(p)));
      if index >= |keys| || !StartsWith(keys[index], p) then None else Some(p)
  }

  /** Some path is `prefix`, or starts with it as a directory. */
  predicate Reaches(keys: seq<string>, prefix: string) {
    exists k :: 0 <= k < |keys| && (keys[k] == prefix || StartsWith(keys[k], WithSlash(prefix)))
  }

  /** A move is accepted exactly when some record is the looked-up path or lies under it as a
      directory; the cursor then becomes that path, as a directory unless it is a record, and
      some record lies under it. */
  lemma ResolveExact(keys: seq<string>, prefix: string)
    requires Sorted(keys)
    ensures var r := Resolve(keys, prefix);
            && (r.Some? <==> Reaches(keys, prefix))
            && (r.Some? ==> r.value == prefix || r.value == WithSlash(prefix))
            && (r.Some? ==> exists k :: 0 <= k < |keys| && StartsWith(keys[k], r.value))
  {
    Located(keys, prefix);
    var first := SearchBy(keys, ByKey(prefix));
    if first.Ok? {
      assert StartsWith(keys[first.value], prefix);
    } else {
      ResolveLower(keys, prefix);
    }
  }

  /** The second search of `Resolve`, when no path is `prefix`. */
  lemma ResolveLower(keys: seq<string>, prefix: string)
    requires Sorted(keys)
    requires forall k :: 0 <= k < |keys| ==> keys[k] != prefix
    ensures var p := WithSlash(prefix);
            Partitioned(keys, ByKey(p))
            && var index := Index(SearchBy(keys, ByKey(p)));
            ((index < |keys| && StartsWith(keys[index], p)) <==>
               exists k :: 0 <= k < |keys| && StartsWith(keys[k], p))
  {
    var p := WithSlash(prefix);
    Located(keys, p);
    var index := Index(SearchBy(keys, ByKey(p)));
    if exists k :: 0 <= k < |keys| && StartsWith(keys[k], p) {
      var k :| 0 <= k < |keys| && StartsWith(keys[k], p);
      NotBelowPrefix(keys[k], p);
      if !StartsWith(keys[index], p) {
        PrefixBlock(keys[k], keys[index], p);
        if k == index {
          BelowIrreflexive(keys[k]);
        }
      }
    }
  }

  /** `refresh` runs after a move unless something was appended and no endpoint had
      sub-endpoints, or the cursor went up and is still under the root. */
  predicate NeedsRefresh(append: string, more: bool, path: string, root: string) {
    !(append != "" && !more) && !(append == "" && StartsWith(path, root))
  }

  /** What `change_directory` prints: nothing, "No such path", or the failed request. */
  datatype Status = Quiet | NoSuchPath | RequestFailed(error: Failure)

  /** `CLI`: the service, the endpoints, and the state of the session. */
  class Session {
    const rest: Rest
    const apis: seq<Api>
    const find: (JsonPath, Value) -> Value
    var more: bool
    var root: string
    var records: seq<Record>
    var currentPath: string

    /** The records are sorted by path, as `query` leaves them. */
    ghost predicate Valid()
      reads this
    {
      Sorted(KeysOf(records))
    }

    /** A walk from the configuration towards `path`, as `refresh` runs it. */
    function Refreshed(path: string): Result<(bool, string, seq<Record>), Failure> {
      Queried(Env(rest, find, path), apis, Walk([], false, None))
    }

    constructor (rest: Rest, apis: seq<Api>, find: (JsonPath, Value) -> Value, more: bool,
                 root: string, records: seq<Record>)
      ensures this.rest == rest && this.apis == apis && this.find == find
      ensures this.more == more && this.root == root && this.records == records
      ensures currentPath == "/"
    {
      this.rest, this.apis, this.find := rest, apis, find;
      this.more, this.root, this.records := more, root, records;
      currentPath := "/";
    }

    /** `CLI::new`: a first walk towards `/`; the session starts at `/`. */
    static method New(url: string, apis: seq<Api>, fetch: string -> Result<Value, Failure>,
                      find: (JsonPath, Value) -> Value)
      returns (r: Result<Session, Failure>)
      ensures var q := Queried(Env(Rest(url, fetch), find, "/"), apis, Walk([], false, None));
              (r.Ok? <==> q.Ok?) && (r.Err? ==> r.error == q.error)
              && (r.Ok? ==> fresh(r.value) && r.value.Valid() && r.value.currentPath == "/"
                            && r.value.rest == Rest(url, fetch) && r.value.apis == apis
                            && (r.value.more, r.value.root, r.value.records) == q.value)
    {
      var rest := Rest(url, fetch);
      var querier := new Querier(rest, apis, "/", find);
      var q := querier.Query();
      if q.Err? {
        return Err(q.error);
      }
      QueriedSorted(Env(rest, find, "/"), apis);
      var session := new Session(rest, apis, find, q.value.0, q.value.1, q.value.2);
      return Ok(session);
    }

    /** `filter_records`: every record at `/`; elsewhere the block of records whose path
        starts with the cursor, which is all of them unless several records are the cursor
        path itself. */
    function FilterRecords(): (r: seq<Record>)
      reads this
      requires Valid()
      ensures currentPath == "/" ==> r == records
      ensures currentPath != "/" ==> forall k :: 0 <= k < |r| ==> StartsWith(r[k].0, currentPath)
      ensures currentPath != "/" && Once(KeysOf(records), currentPath) ==>
                r == Under(records, currentPath)
    {
      if currentPath == "/" then records
      else
        var b := Block(KeysOf(records), currentPath);
        var r := records[b.0..b.0 + b.1];
        FilterBlock(records, currentPath, b.0, b.1, r);
        r
    }

    /** `refresh`: a new walk towards the cursor replaces `more`, `root` and the records; when
        it fails nothing changes. */
    method Refresh() returns (r: Result<(), Failure>)
      requires Valid()
      modifies this
      ensures Valid() && currentPath == old(currentPath)
      ensures var q := Refreshed(old(currentPath));
              (r.Ok? <==> q.Ok?) && (r.Err? ==> r.error == q.error)
              && (r.Err? ==> more == old(more) && root == old(root) && records == old(records))
              && (r.Ok? ==> (more, root, records) == q.value)
    {
      var querier := new Querier(rest, apis, currentPath, find);
      var q := querier.Query();
      if q.Err? {
        return Err(q.error);
      }
      QueriedSorted(Env(rest, find, currentPath), apis);
      more, root, records := q.value.0, q.value.1, q.value.2;
      return Ok(());
    }

    /** The lookup of `change_directory` (lines 120-146), with the corrected check of the
        insertion point: when the path is not a record, the record checked is the one at the
        insertion point of the path with its `/` pushed, not the one found before the push.
        Gives the move `arg` asks for, and the path it ends at, or `None` when the move
        changes nothing or no record lies there. */
    method Locate(arg: string) returns (m: Move, target: Option<string>)
      requires Valid()
      ensures m == Target(currentPath, arg)
      ensures target == if Idle(currentPath, m) then None
                        else Resolve(KeysOf(records), Candidate(currentPath, m))
    {
      m := Target(currentPath, arg);
      if m.truncate == |currentPath| && m.append == "" {
        return m, None;
      }
      var prefix := currentPath[..m.truncate];
      if m.append != "" {
        if !StartsWith(m.append, "/") && !EndsWith(prefix, "/") {
          prefix := prefix + "/";
        }
        prefix := prefix + m.append;
      }
      var keys := KeysOf(records);
      SortedPartitioned(keys, prefix);
      if SearchBy(keys, ByKey(prefix)).Err? {
        if !EndsWith(prefix, "/") {
          prefix := prefix + "/";
        }
        SortedPartitioned(keys, prefix);
        var index := Index(SearchBy(keys, ByKey(prefix)));
        if index >= |keys| || !StartsWith(keys[index], prefix) {
          return m, None;
        }
      }
      return m, Some(prefix);
    }

    /** `change_directory(arg)`, with the corrected lookup of `Locate`: moves the cursor to
        the looked-up path when a record lies there, and walks the service again when the
        move may reach records not yet fetched. */
    method ChangeDirectory(arg: string) returns (status: Status)
      requires Valid()
      modifies this
      ensures Valid()
      ensures var m := Target(old(currentPath), arg);
              var target := if Idle(old(currentPath), m) then None
                            else Resolve(KeysOf(old(records)), Candidate(old(currentPath), m));
              target.None? ==>
                && status == (if Idle(old(currentPath), m) then Quiet else NoSuchPath)
                && currentPath == old(currentPath) && more == old(more) && root == old(root)
                && records == old(records)
      ensures var m := Target(old(currentPath), arg);
              var target := if Idle(old(currentPath), m) then None
                            else Resolve(KeysOf(old(records)), Candidate(old(currentPath), m));
              target.Some? ==>
                var q := Refreshed(target.value);
                && currentPath == target.value
                && (!NeedsRefresh(m.append, old(more), target.value, old(root)) ==>
                      status == Quiet && more == old(more) && root == old(root)
                      && records == old(records))
                && (NeedsRefresh(m.append, old(more), target.value, old(root)) && q.Ok? ==>
                      status == Quiet && (more, root, records) == q.value)
                && (NeedsRefresh(m.append, old(more), target.value, old(root)) && q.Err? ==>
                      status == RequestFailed(q.error) && more == old(more)
                      && root == old(root) && records == old(records))
    {
      var m, target := Locate(arg);
      if Idle(currentPath, m) {
        return Quiet;
      }
      if target.None? {
        return NoSuchPath;
      }
      currentPath := target.value;
      if m.append != "" && !more {
        return Quiet;
      }
      if m.append == "" && StartsWith(currentPath, root) {
        return Quiet;
      }
      var r := Refresh();
      if r.Err? {
        return RequestFailed(r.error);
      }
      return Quiet;
    }
  }
}
