/** The `str` operations the program relies on. A Rust `&str` is modelled by its UTF-8
    bytes, one `char` per byte, so `|s|` is Rust's `s.len()` and slicing is by byte. */
module Text {

  /** `s.starts_with(p)` */
  predicate StartsWith(s: string, p: string) {
    |p| <= |s| && s[..|p|] == p
  }

  /** `s.ends_with(p)` */
  predicate EndsWith(s: string, p: string) {
    |p| <= |s| && s[|s| - |p|..] == p
  }

  /** `n` blanks: what `{:indent$}` prints for the empty string. */
  function Spaces(n: nat): (r: string)
    ensures |r| == n && forall k :: 0 <= k < n ==> r[k] == ' '
  {
    seq(n, _ => ' ')
  }

  /** `s.trim_start_matches(c)` */
  function TrimStart(s: string, c: char): string {
    if s != [] && s[0] == c then TrimStart(s[1..], c) else s
  }

  /** What `TrimStart` leaves is a suffix that does not start with `c`, and only `c`s were
      cut. */
  lemma {:induction false} TrimStartShape(s: string, c: char)
    ensures |TrimStart(s, c)| <= |s| && TrimStart(s, c) == s[|s| - |TrimStart(s, c)|..]
    ensures TrimStart(s, c) == [] || TrimStart(s, c)[0] != c
    ensures forall k :: 0 <= k < |s| - |TrimStart(s, c)| ==> s[k] == c
  {
    if s != [] && s[0] == c {
      TrimStartShape(s[1..], c);
      assert s[1..][|s| - 1 - |TrimStart(s, c)|..] == s[|s| - |TrimStart(s, c)|..];
    }
  }

  /** `s.trim_end_matches(c)` */
  function TrimEnd(s: string, c: char): string {
    if s != [] && s[|s| - 1] == c then TrimEnd(s[..|s| - 1], c) else s
  }

  /** What `TrimEnd` leaves is a prefix that does not end with `c`, and only `c`s were cut. */
  lemma {:induction false} TrimEndShape(s: string, c: char)
    ensures |TrimEnd(s, c)| <= |s| && TrimEnd(s, c) == s[..|TrimEnd(s, c)|]
    ensures TrimEnd(s, c) == [] || TrimEnd(s, c)[|TrimEnd(s, c)| - 1] != c
    ensures forall k :: |TrimEnd(s, c)| <= k < |s| ==> s[k] == c
  {
    if s != [] && s[|s| - 1] == c {
      TrimEndShape(s[..|s| - 1], c);
      assert s[..|s| - 1][..|TrimEnd(s, c)|] == s[..|TrimEnd(s, c)|];
    }
  }

  /** `s.trim_matches(c)` */
  function Trim(s: string, c: char): string {
    TrimEnd(TrimStart(s, c), c)
  }

  /** `s.replace(from, to)` for single characters. */
  function ReplaceChar(s: string, from: char, to: char): (r: string)
    ensures |r| == |s|
    ensures forall k :: 0 <= k < |s| ==> r[k] == if s[k] == from then to else s[k]
  {
    seq(|s|, k requires 0 <= k < |s| => if s[k] == from then to else s[k])
  }

  /** `s.split(c)`: the pieces between the occurrences of `c`; the empty string gives one
      empty piece. */
  function Split(s: string, c: char): (r: seq<string>)
    ensures |r| >= 1
    ensures forall k :: 0 <= k < |r| ==> c !in r[k]
  {
    if s == [] then [""]
    else
      var rest := Split(s[1..], c);
      if s[0] == c then [""] + rest else [[s[0]] + rest[0]] + rest[1..]
  }

  /** The pieces glued back together with `c` between them. */
  function Join(ts: seq<string>, c: char): string
    requires |ts| >= 1
  {
    if |ts| == 1 then ts[0] else ts[0] + [c] + Join(ts[1..], c)
  }

  /** Splitting and joining are inverse: joining the pieces gives the string back, */
  lemma {:induction false} JoinSplit(s: string, c: char)
    ensures Join(Split(s, c), c) == s
  {
    if s != [] {
      var rest := Split(s[1..], c);
      JoinSplit(s[1..], c);
      if s[0] == c {
        assert Split(s, c) == [""] + rest;
        assert Join(Split(s, c), c) == [c] + Join(rest, c);
      } else if |rest| == 1 {
        assert Split(s, c) == [[s[0]] + rest[0]];
      } else {
        assert Split(s, c) == [[s[0]] + rest[0]] + rest[1..];
        assert (Split(s, c))[1..] == rest[1..];
        assert Join(rest, c) == rest[0] + [c] + Join(rest[1..], c);
      }
    }
  }

  /** and splitting a joined list of separator-free pieces gives the pieces back. */
  lemma {:induction false} SplitJoin(ts: seq<string>, c: char)
    requires |ts| >= 1
    requires forall k :: 0 <= k < |ts| ==> c !in ts[k]
    ensures Split(Join(ts, c), c) == ts
  {
    if |ts| == 1 {
      SplitFree(ts[0], c);
    } else {
      SplitJoin(ts[1..], c);
      SplitAt(ts[0], Join(ts[1..], c), c);
      assert [ts[0]] + ts[1..] == ts;
    }
  }

  /** A string without the separator is a single piece. */
  lemma {:induction false} SplitFree(s: string, c: char)
    requires c !in s
    ensures Split(s, c) == [s]
  {
    if s != [] {
      SplitFree(s[1..], c);
      assert [s[0]] + s[1..] == s;
    }
  }

  /** Splitting at a separator that follows a separator-free head. */
  lemma {:induction false} SplitAt(a: string, b: string, c: char)
    requires c !in a
    ensures Split(a + [c] + b, c) == [a] + Split(b, c)
  {
    if a == [] {
      assert [c] + b == (a + [c] + b);
      assert (a + [c] + b)[1..] == b;
    } else {
      assert (a + [c] + b)[1..] == a[1..] + [c] + b;
      SplitAt(a[1..], b, c);
      assert [a[0]] + a[1..] == a;
    }
  }

  /** Rust's `Ord for str`: byte-wise lexicographic, a proper prefix coming first. */
  predicate Below(a: string, b: string) {
    if a == [] then b != []
    else b != [] && (a[0] < b[0] || (a[0] == b[0] && Below(a[1..], b[1..])))
  }

  predicate AtMost(a: string, b: string) {
    a == b || Below(a, b)
  }

  lemma {:induction false} BelowIrreflexive(a: string)
    ensures !Below(a, a)
  {
    if a != [] {
      BelowIrreflexive(a[1..]);
    }
  }

  lemma {:induction false} BelowTransitive(a: string, b: string, c: string)
    requires Below(a, b) && Below(b, c)
    ensures Below(a, c)
  {
    if a != [] && a[0] == b[0] && b[0] == c[0] {
      BelowTransitive(a[1..], b[1..], c[1..]);
    }
  }

  /** Any two different strings are ordered one way or the other, and never both ways. */
  lemma {:induction false} BelowTotal(a: string, b: string)
    ensures a == b || Below(a, b) || Below(b, a)
    ensures !(Below(a, b) && Below(b, a))
  {
    if a != [] && b != [] && a[0] == b[0] {
      BelowTotal(a[1..], b[1..]);
      if a[1..] == b[1..] {
        assert a == [a[0]] + a[1..] && b == [b[0]] + b[1..];
      }
    }
  }

  /** A string is never below one of its prefixes. */
  lemma {:induction false} NotBelowPrefix(s: string, p: string)
    requires StartsWith(s, p)
    ensures !Below(s, p)
  {
    if p != [] {
      assert s[1..][..|p| - 1] == p[1..];
      NotBelowPrefix(s[1..], p[1..]);
    }
  }

  /** Among the strings that are not below `p`, those starting with `p` come first: a string
      that does not start with `p` is above every string that does. */
  lemma {:induction false} PrefixBlock(y: string, z: string, p: string)
    requires StartsWith(y, p) && !StartsWith(z, p) && !Below(z, p)
    ensures Below(y, z)
  {
    assert p != [];
    if z == [] {
    } else if y[0] == z[0] {
      assert y[1..][..|p| - 1] == p[1..];
      PrefixBlock(y[1..], z[1..], p[1..]);
    }
  }

  /** Non-decreasing under `Below`, as a slice sorted by `Ord for str`. */
  predicate Sorted(keys: seq<string>) {
    forall i, j :: 0 <= i < j < |keys| ==> !Below(keys[j], keys[i])
  }
}
