/** The directory check of `change_directory`, as written, against the corrected `Resolve` of
    module `Cli`. As written, when the looked-up path is no record path, the record checked
    is the one at that path's insertion point; but the records under the path as a
    directory start at the insertion point of the path with its `/`, and a record such as
    `/a-b` (whose `-` sorts below `/`) can lie between the two. */
module CliFinding {
  import opened Basics
  import opened Text
  import opened Cli

  /** Lines 138-146 of `change_directory` as written. */
  function ResolveAsWritten(keys: seq<string>, prefix: string): (r: Option<string>)
    requires Sorted(keys)
  {
    SortedPartitioned(keys, prefix);
    match SearchBy(keys, ByKey(prefix))
    case Ok(_) => Some(prefix)
    case Err(index) =>
      var p := WithSlash(prefix);
      if index >= |keys| || !StartsWith(keys[index], p) then None else Some(p)
  }

  /** What it accepts, the corrected check accepts too: it only ever rejects too much. */
  lemma AsWrittenSound(keys: seq<string>, prefix: string)
    requires Sorted(keys)
    ensures ResolveAsWritten(keys, prefix).Some? ==> Resolve(keys, prefix) == ResolveAsWritten(keys, prefix)
  {
    SortedPartitioned(keys, prefix);
    var r := ResolveAsWritten(keys, prefix);
    if r.Some? && SearchBy(keys, ByKey(prefix)).Err? {
      var index := SearchBy(keys, ByKey(prefix)).error;
      var p := WithSlash(prefix);
      assert StartsWith(keys[index], p);
      assert StartsWith(keys[index], prefix) by {
        assert keys[index][..|prefix|] == p[..|prefix|];
      }
      ResolveExact(keys, prefix);
      assert Reaches(keys, prefix);
    }
  }

  lemma SampleOrder()
    ensures Below("/a-b", "/a/c") && Below("/a-b", "/a/")
  {
    assert "/a-b"[1..] == "a-b" && "a-b"[1..] == "-b";
    assert "/a/c"[1..] == "a/c" && "a/c"[1..] == "/c";
    assert "/a/"[1..] == "a/" && "a/"[1..] == "/";
    assert Below("-b", "/c") && Below("-b", "/");
  }

  /** Two record paths: `-` sorts below `/`, so `/a-b` comes before `/a/c`. */
  lemma SampleSorted(keys: seq<string>)
    requires keys == ["/a-b", "/a/c"]
    ensures Sorted(keys)
  {
    SampleOrder();
    BelowTotal("/a-b", "/a/c");
  }

  /** As written, the check at `/a` looks at `/a-b` and refuses the move. */
  lemma SampleAsWritten(keys: seq<string>)
    requires keys == ["/a-b", "/a/c"]
    ensures Sorted(keys) && ResolveAsWritten(keys, "/a") == None
  {
    SampleSorted(keys);
    assert StartsWith("/a/c", "/a") && StartsWith("/a-b", "/a");
    NotBelowPrefix("/a/c", "/a");
    NotBelowPrefix("/a-b", "/a");
    SortedPartitioned(keys, "/a");
    var byA := ByKey("/a");
    assert byA(keys[1]) == Greater && byA(keys[0]) == Greater;
    assert Search(keys, byA, 0, 1) == Err(0);
    assert SearchBy(keys, byA) == Err(0);
    assert !StartsWith("/a-b", "/a/");
  }

  /** The corrected check at `/a` looks at `/a/c` and moves to `/a/`. */
  lemma SampleCorrected(keys: seq<string>)
    requires keys == ["/a-b", "/a/c"]
    ensures Sorted(keys) && Resolve(keys, "/a") == Some("/a/")
  {
    SampleSorted(keys);
    SampleOrder();
    NotBelowPrefix("/a/c", "/a");
    NotBelowPrefix("/a/c", "/a/");
    SortedPartitioned(keys, "/a");
    assert WithSlash("/a") == "/a/" by {
      assert "/a"[1..] != "/";
    }
    SortedPartitioned(keys, "/a/");
    assert SearchBy(keys, ByKey("/a")).Err? by {
      assert "/a/c" != "/a" && "/a-b" != "/a";
    }
    var bySlash := ByKey("/a/");
    assert bySlash(keys[1]) == Greater && bySlash(keys[0]) == Less;
    assert Search(keys, bySlash, 0, 1) == Err(1);
    assert SearchBy(keys, bySlash) == Err(1);
    assert StartsWith("/a/c", "/a/");
  }

  /** With the records `/a-b` and `/a/c`, `cd a` at `/` is refused as written, though `/a/c`
      lies under `/a/`; the corrected check moves the cursor to `/a/`. */
  lemma AsWrittenRejectsDirectory(keys: seq<string>)
    requires keys == ["/a-b", "/a/c"]
    ensures Sorted(keys)
    ensures Candidate("/", Target("/", "a")) == "/a"
    ensures Reaches(keys, "/a")
    ensures ResolveAsWritten(keys, "/a") == None
    ensures Resolve(keys, "/a") == Some("/a/")
  {
    SampleAsWritten(keys);
    SampleCorrected(keys);
    RelativeJoin("/", "a");
    assert StartsWith(keys[1], WithSlash("/a"));
  }
}
