/** `Querier` (src/cli.rs): walks the endpoint tree of the configuration, fetching each
    endpoint below the records found so far, and flattens what it finds into `(path, value)`
    records sorted by path. The HTTP fetch and the JSONPath library are parameters. */
module Queries {
  import opened Basics
  import opened Text
  import opened Format
  import opened Schema

  /** A failed request, as the `request` crate reports it (transport or JSON decoding). */
  datatype Failure = Failure(message: string)

  /** `Rest`: the base URL and the fetch of one URL, which may fail. The HTTP client and the
      `Accept` header it sends are not part of this model. */
  datatype Rest = Rest(url: string, fetch: string -> Result<Value, Failure>)
  {
    /** `Rest::get`: the reply for `path` below the base URL. */
    function Get(path: string): Result<Value, Failure> {
      fetch(url + TrimStart(path, '/'))
    }
  }

  /** What a walk depends on: the service, `jsonpath::find`, and the path the user is heading
      for (entities are only walked into on the way there). */
  datatype Env = Env(rest: Rest, find: (JsonPath, Value) -> Value, filter: string)

  /** The fields of a `Querier` that the walk updates. */
  datatype Walk = Walk(results: seq<(string, Value)>, more: bool, root: Option<string>)

  type Record = (string, Value)

  /** The record paths. */
  function KeysOf(records: seq<Record>): (keys: seq<string>)
    ensures |keys| == |records| && forall k :: 0 <= k < |records| ==> keys[k] == records[k].0
  {
    seq(|records|, k requires 0 <= k < |records| => records[k].0)
  }

  /** The reply for endpoint `api` below `prefix`, through its JSONPath when it has one. */
  function Reply(env: Env, api: Api, prefix: string): Result<Value, Failure> {
    match env.rest.Get(prefix + TrimStart(api.path, '/'))
    case Err(e) => Err(e)
    case Ok(v) => Ok(if api.jsonpath.Some? then env.find(api.jsonpath.value, v) else v)
  }

  /** `query_apis(apis, prefix)` from endpoint `i` on, with `more` its local flag so far and
      `st` the querier's fields: the fields it leaves, or the first failed fetch. `owner` is
      the endpoint whose sub-endpoints `apis` are; it only bounds the recursion. */
  function Apis(env: Env, owner: Api, apis: seq<Api>, i: nat, prefix: string, more: bool,
                st: Walk): Result<Walk, Failure>
    requires owner.apis == apis && i <= |apis|
    decreases owner, |apis| - i, 1, 0
  {
    if i == |apis| then
      Ok(if st.root.None? then st.(more := more, root := Some(prefix)) else st)
    else
      match Reply(env, apis[i], prefix)
      case Err(e) => Err(e)
      case Ok(value) =>
        if value.Object? then Entries(env, owner, apis, i, value.entries, 0, prefix, more, st)
        else Apis(env, owner, apis, i + 1, prefix, more, st)
  }

  /** The inner loop of `query_apis` over the entries of the reply of endpoint `i`, from entry
      `j` on. */
  function Entries(env: Env, owner: Api, apis: seq<Api>, i: nat, entries: seq<Record>, j: nat,
                   prefix: string, more: bool, st: Walk): Result<Walk, Failure>
    requires owner.apis == apis && i < |apis| && j <= |entries|
    decreases owner, |apis| - i, 0, |entries| - j
  {
    if j == |entries| then Apis(env, owner, apis, i + 1, prefix, more, st)
    else
      var api := apis[i];
      var path := prefix + Trim(entries[j].0, '/');
      var st1 := st.(results := st.results + [(path, entries[j].1)]);
      if api.apis == [] then Entries(env, owner, apis, i, entries, j + 1, prefix, more, st1)
      else if api.isEntity != Some(true) || StartsWith(env.filter, path) then
        assert api in owner.apis;
        match Apis(env, api, api.apis, 0, path + "/", false, st1)
        case Err(e) => Err(e)
        case Ok(st2) => Entries(env, owner, apis, i, entries, j + 1, prefix, true, st2)
      else Entries(env, owner, apis, i, entries, j + 1, prefix, true, st1)
  }

  /** The endpoint standing for the configuration itself, owner of the top-level endpoints. */
  function Top(apis: seq<Api>): (top: Api)
    ensures top.apis == apis
  {
    Api("/", None, None, apis)
  }

  /** How a walk below `prefix` may change the fields: records are only appended, each under
      `prefix`, and `root` and `more`, once set, stay. */
  predicate Grows(st: Walk, st': Walk, prefix: string) {
    && st.results <= st'.results
    && (forall k :: |st.results| <= k < |st'.results| ==> StartsWith(st'.results[k].0, prefix))
    && (st.root.Some? ==> st'.root == st.root && st'.more == st.more)
  }

  lemma GrowsTrans(a: Walk, b: Walk, c: Walk, prefix: string)
    requires Grows(a, b, prefix) && Grows(b, c, prefix)
    ensures Grows(a, c, prefix)
  {
    forall k | |a.results| <= k < |c.results|
      ensures StartsWith(c.results[k].0, prefix)
    {
      if k < |b.results| {
        assert c.results[k] == b.results[k];
      }
    }
  }

  /** Records under `p + s` are under `p`. */
  lemma StartsWithLonger(key: string, p: string, s: string)
    requires StartsWith(key, p + s)
    ensures StartsWith(key, p)
  {
    assert key[..|p|] == key[..|p + s|][..|p|];
  }

  /** A walk that succeeds appends records under its prefix only, sets `root` when nothing had
      set it, and never changes `root` or `more` once they are set. */
  lemma {:induction false} ApisGrow(env: Env, owner: Api, apis: seq<Api>, i: nat, prefix: string,
                                    more: bool, st: Walk)
    requires owner.apis == apis && i <= |apis|
    ensures var r := Apis(env, owner, apis, i, prefix, more, st);
            r.Ok? ==> r.value.root.Some? && Grows(st, r.value, prefix)
    decreases owner, |apis| - i, 1, 0
  {
    if i < |apis| {
      match Reply(env, apis[i], prefix)
      case Err(e) =>
      case Ok(value) =>
        if value.Object? {
          EntriesGrow(env, owner, apis, i, value.entries, 0, prefix, more, st);
        } else {
          ApisGrow(env, owner, apis, i + 1, prefix, more, st);
        }
    }
  }

  lemma {:induction false} EntriesGrow(env: Env, owner: Api, apis: seq<Api>, i: nat,
                                       entries: seq<Record>, j: nat, prefix: string, more: bool,
                                       st: Walk)
    requires owner.apis == apis && i < |apis| && j <= |entries|
    ensures var r := Entries(env, owner, apis, i, entries, j, prefix, more, st);
            r.Ok? ==> r.value.root.Some? && Grows(st, r.value, prefix)
    decreases owner, |apis| - i, 0, |entries| - j
  {
    if j == |entries| {
      ApisGrow(env, owner, apis, i + 1, prefix, more, st);
    } else {
      var api := apis[i];
      var path := prefix + Trim(entries[j].0, '/');
      var st1 := st.(results := st.results + [(path, entries[j].1)]);
      assert Grows(st, st1, prefix);
      var more' := api.apis != [] || more;
      if api.apis != [] && (api.isEntity != Some(true) || StartsWith(env.filter, path)) {
        assert api in owner.apis;
        var next := Apis(env, api, api.apis, 0, path + "/", false, st1);
        if next.Ok? {
          ApisGrow(env, api, api.apis, 0, path + "/", false, st1);
          forall k | |st1.results| <= k < |next.value.results|
            ensures StartsWith(next.value.results[k].0, prefix)
          {
            assert path + "/" == prefix + (Trim(entries[j].0, '/') + "/");
            StartsWithLonger(next.value.results[k].0, prefix, Trim(entries[j].0, '/') + "/");
          }
          assert Grows(st1, next.value, prefix);
          GrowsTrans(st, st1, next.value, prefix);
          EntriesGrow(env, owner, apis, i, entries, j + 1, prefix, true, next.value);
          var r := Entries(env, owner, apis, i, entries, j + 1, prefix, true, next.value);
          if r.Ok? {
            GrowsTrans(st, next.value, r.value, prefix);
          }
        }
      } else {
        EntriesGrow(env, owner, apis, i, entries, j + 1, prefix, more', st1);
        var r := Entries(env, owner, apis, i, entries, j + 1, prefix, more', st1);
        if r.Ok? {
          GrowsTrans(st, st1, r.value, prefix);
        }
      }
    }
  }

  /** `x` placed after the records of `s` whose path is not above its own. */
  function Insert(s: seq<Record>, x: Record): seq<Record> {
    if s == [] || !Below(x.0, s[|s| - 1].0) then s + [x]
    else Insert(s[..|s| - 1], x) + [s[|s| - 1]]
  }

  /** `sort_by(|a, b| a.0.cmp(&b.0))`: a stable sort by path. */
  function SortByKey(s: seq<Record>): seq<Record> {
    if s == [] then [] else Insert(SortByKey(s[..|s| - 1]), s[|s| - 1])
  }

  lemma {:induction false} InsertPermutes(s: seq<Record>, x: Record)
    ensures multiset(Insert(s, x)) == multiset(s) + multiset{x}
  {
    if s != [] && Below(x.0, s[|s| - 1].0) {
      InsertPermutes(s[..|s| - 1], x);
      assert s == s[..|s| - 1] + [s[|s| - 1]];
    }
  }

  /** Appending a record whose path is above no earlier path keeps the paths sorted. */
  lemma AppendSorted(t: seq<Record>, y: Record)
    requires Sorted(KeysOf(t))
    requires forall a :: 0 <= a < |t| ==> !Below(y.0, t[a].0)
    ensures Sorted(KeysOf(t + [y]))
  {
    var ks, kt := KeysOf(t + [y]), KeysOf(t);
    forall i, j | 0 <= i < j < |ks|
      ensures !Below(ks[j], ks[i])
    {
      if j < |t| {
        assert ks[j] == kt[j] && ks[i] == kt[i];
      }
    }
  }

  /** A path above no path of `s` nor `x` is above no path of `Insert(s, x)`. */
  lemma InsertBelow(s: seq<Record>, x: Record, y: Record)
    requires forall b :: 0 <= b < |s| ==> !Below(y.0, s[b].0)
    requires !Below(y.0, x.0)
    ensures forall a :: 0 <= a < |Insert(s, x)| ==> !Below(y.0, Insert(s, x)[a].0)
  {
    var t := Insert(s, x);
    InsertPermutes(s, x);
    forall a | 0 <= a < |t|
      ensures !Below(y.0, t[a].0)
    {
      assert t[a] in multiset(s) + multiset{x};
      if t[a] != x {
        assert t[a] in s;
      }
    }
  }

  lemma {:induction false} InsertSorted(s: seq<Record>, x: Record)
    requires Sorted(KeysOf(s))
    ensures multiset(Insert(s, x)) == multiset(s) + multiset{x}
    ensures Sorted(KeysOf(Insert(s, x)))
  {
    InsertPermutes(s, x);
    if s == [] {
    } else if !Below(x.0, s[|s| - 1].0) {
      var y := s[|s| - 1];
      forall a | 0 <= a < |s|
        ensures !Below(x.0, s[a].0)
      {
        if a < |s| - 1 {
          assert !Below(y.0, s[a].0);
          BelowTotal(y.0, s[a].0);
          if Below(x.0, s[a].0) {
            BelowTransitive(x.0, s[a].0, y.0);
          }
        }
      }
      AppendSorted(s, x);
    } else {
      var init, y := s[..|s| - 1], s[|s| - 1];
      assert Sorted(KeysOf(init));
      InsertSorted(init, x);
      BelowTotal(x.0, y.0);
      InsertBelow(init, x, y);
      AppendSorted(Insert(init, x), y);
    }
  }

  /** The sort keeps every record and orders them by path. */
  lemma {:induction false} SortByKeySorted(s: seq<Record>)
    ensures multiset(SortByKey(s)) == multiset(s)
    ensures Sorted(KeysOf(SortByKey(s)))
  {
    if s != [] {
      SortByKeySorted(s[..|s| - 1]);
      InsertSorted(SortByKey(s[..|s| - 1]), s[|s| - 1]);
      assert s == s[..|s| - 1] + [s[|s| - 1]];
    }
  }

  /** `query`: the walk from the top-level endpoints below `/`; then the `more` flag, the root
      (`/` when unset) and the records sorted by path. */
  function Queried(env: Env, apis: seq<Api>, st: Walk)
    : Result<(bool, string, seq<Record>), Failure>
  {
    match Apis(env, Top(apis), apis, 0, "/", false, st)
    case Err(e) => Err(e)
    case Ok(w) => Ok((w.more, w.root.GetOr("/"), SortByKey(w.results)))
  }

  /** A query that succeeds on a new querier returns every record it found, each under `/`,
      sorted by path; its root is the one the first finished walk set, never the default. */
  lemma QueriedSorted(env: Env, apis: seq<Api>)
    ensures var q := Queried(env, apis, Walk([], false, None));
            var w := Apis(env, Top(apis), apis, 0, "/", false, Walk([], false, None));
            q.Ok? ==> w.Ok? && w.value.root.Some? && q.value.1 == w.value.root.value
                      && q.value.0 == w.value.more
                      && multiset(q.value.2) == multiset(w.value.results)
                      && Sorted(KeysOf(q.value.2))
                      && forall k :: 0 <= k < |q.value.2| ==> StartsWith(q.value.2[k].0, "/")
  {
    var w := Apis(env, Top(apis), apis, 0, "/", false, Walk([], false, None));
    if w.Ok? {
      ApisGrow(env, Top(apis), apis, 0, "/", false, Walk([], false, None));
      SortByKeySorted(w.value.results);
      var sorted := SortByKey(w.value.results);
      forall k | 0 <= k < |sorted|
        ensures StartsWith(sorted[k].0, "/")
      {
        assert sorted[k] in multiset(w.value.results);
        var b :| 0 <= b < |w.value.results| && w.value.results[b] == sorted[k];
      }
    }
  }

  /** `Querier`: one walk of the endpoint tree towards `filter`. */
  class Querier {
    const rest: Rest
    const apis: seq<Api>
    const filter: string
    const find: (JsonPath, Value) -> Value
    var more: bool
    var root: Option<string>
    var results: seq<Record>

    function Environment(): Env {
      Env(rest, find, filter)
    }

    function State(): Walk
      reads this
    {
      Walk(results, more, root)
    }

    /** `Querier::new` */
    constructor (rest: Rest, apis: seq<Api>, filter: string, find: (JsonPath, Value) -> Value)
      ensures this.rest == rest && this.apis == apis && this.filter == filter && this.find == find
      ensures more == false && root == None && results == []
    {
      this.rest, this.apis, this.filter, this.find := rest, apis, filter, find;
      more, root, results := false, None, [];
    }

    /** `query_apis`: the fields become those of the walk, unless a fetch fails. */
    method QueryApis(apis: seq<Api>, prefix: string, ghost owner: Api) returns (r: Result<(), Failure>)
      requires owner.apis == apis
      modifies this
      decreases owner
      ensures var w := Apis(Environment(), owner, apis, 0, prefix, false, old(State()));
              (r.Ok? <==> w.Ok?) && (r.Err? ==> r.error == w.error)
              && (r.Ok? ==> State() == w.value)
    {
      ghost var whole := Apis(Environment(), owner, apis, 0, prefix, false, State());
      var found := false;
      var i := 0;
      while i < |apis|
        invariant i <= |apis|
        invariant Apis(Environment(), owner, apis, i, prefix, found, State()) == whole
      {
        var api := apis[i];
        var reply := rest.Get(prefix + TrimStart(api.path, '/'));
        if reply.Err? {
          return Err(reply.error);
        }
        var value := reply.value;
        if api.jsonpath.Some? {
          value := find(api.jsonpath.value, value);
        }
        if !value.Object? {
          i := i + 1;
          continue;
        }
        var records := value.entries;
        var subApis := api.apis;
        var j := 0;
        while j < |records|
          invariant j <= |records|
          invariant Entries(Environment(), owner, apis, i, records, j, prefix, found, State())
                    == whole
        {
          var path := prefix + Trim(records[j].0, '/');
          results := results + [(path, records[j].1)];
          if subApis == [] {
            j := j + 1;
            continue;
          }
          found := true;
          if api.isEntity != Some(true) || StartsWith(filter, path) {
            assert api in owner.apis;
            var sub := QueryApis(subApis, path + "/", api);
            if sub.Err? {
              return sub;
            }
          }
          j := j + 1;
        }
        i := i + 1;
      }
      if root.None? {
        more, root := found, Some(prefix);
      }
      return Ok(());
    }

    /** `query`: the walk from the top-level endpoints, sorted; a failed fetch fails it. */
    method Query() returns (r: Result<(bool, string, seq<Record>), Failure>)
      modifies this
      ensures r == Queried(Environment(), apis, old(State()))
    {
      var walked := QueryApis(apis, "/", Top(apis));
      if walked.Err? {
        return Err(walked.error);
      }
      results := SortByKey(results);
      return Ok((more, root.GetOr("/"), results));
    }
  }
}
