/** The array operations the list screens apply to their records:
    `filter`, `map` and "remove every record with this id". */
module Lists {

  /** `a` is `b` with some elements deleted and the rest kept in order. */
  ghost predicate Subsequence<T>(a: seq<T>, b: seq<T>)
    decreases |b|
  {
    if a == [] then true
    else if b == [] then false
    else (a[0] == b[0] && Subsequence(a[1..], b[1..])) || Subsequence(a, b[1..])
  }

  lemma {:induction false} SubsequenceReflexive<T>(s: seq<T>)
    ensures Subsequence(s, s)
    decreases |s|
  {
    if s != [] {
      SubsequenceReflexive(s[1..]);
    }
  }

  lemma {:induction false} SubsequenceTransitive<T>(a: seq<T>, b: seq<T>, c: seq<T>)
    requires Subsequence(a, b) && Subsequence(b, c)
    ensures Subsequence(a, c)
    decreases |c|
  {
    if a != [] {
      if b[0] == c[0] && Subsequence(b[1..], c[1..]) {
        if a[0] == b[0] && Subsequence(a[1..], b[1..]) {
          SubsequenceTransitive(a[1..], b[1..], c[1..]);
        } else {
          SubsequenceTransitive(a, b[1..], c[1..]);
        }
      } else {
        SubsequenceTransitive(a, b, c[1..]);
      }
    }
  }

  /** `s.filter(keep)`. */
  function Filter<T(==,!new)>(s: seq<T>, keep: T -> bool): (r: seq<T>)
    ensures |r| <= |s|
    ensures forall x :: x in r <==> x in s && keep(x)
    ensures Subsequence(r, s)
    ensures (forall x :: x in s ==> keep(x)) ==> r == s
    decreases |s|
  {
    if s == [] then []
    else if keep(s[0]) then [s[0]] + Filter(s[1..], keep)
    else Filter(s[1..], keep)
  }

  /** `s.map(f)`. */
  function MapSeq<T, U>(s: seq<T>, f: T -> U): (r: seq<U>)
    ensures |r| == |s|
    ensures forall i :: 0 <= i < |s| ==> r[i] == f(s[i])
    decreases |s|
  {
    if s == [] then [] else [f(s[0])] + MapSeq(s[1..], f)
  }

  /** `x => key(x) !== id`. */
  function KeyIsNot<T>(key: T -> string, id: string): T -> bool {
    x => key(x) != id
  }

  /** `s.filter(x => key(x) !== id)`: the local removal every delete handler performs. */
  function RemoveById<T(==,!new)>(s: seq<T>, key: T -> string, id: string): (r: seq<T>)
    ensures forall x :: x in r <==> x in s && key(x) != id
    ensures Subsequence(r, s)
    ensures (forall x :: x in s ==> key(x) != id) ==> r == s
  {
    Filter(s, KeyIsNot(key, id))
  }

  /** Two filters may be applied in either order. */
  lemma {:induction false} FilterCommute<T(!new)>(s: seq<T>, p: T -> bool, q: T -> bool)
    ensures Filter(Filter(s, p), q) == Filter(Filter(s, q), p)
    decreases |s|
  {
    if s != [] {
      FilterCommute(s[1..], p, q);
    }
  }

  /** Deleting from the filtered list gives what filtering the list left by
      the delete gives: the local update of a delete handler agrees with a
      later re-run of the search. */
  lemma RemoveThenFilter<T(!new)>(s: seq<T>, keep: T -> bool, key: T -> string, id: string)
    ensures RemoveById(Filter(s, keep), key, id) == Filter(RemoveById(s, key, id), keep)
  {
    FilterCommute(s, keep, KeyIsNot(key, id));
  }

  /** Mapping with an `f` that the filter cannot see commutes with the filter. */
  lemma {:induction false} MapThenFilter<T(!new)>(s: seq<T>, f: T -> T, keep: T -> bool)
    requires forall x :: keep(f(x)) == keep(x)
    ensures MapSeq(Filter(s, keep), f) == Filter(MapSeq(s, f), keep)
    decreases |s|
  {
    if s != [] {
      MapThenFilter(s[1..], f, keep);
      assert MapSeq(s, f)[1..] == MapSeq(s[1..], f);
    }
  }

  /** Mapping both lists keeps one a subsequence of the other. */
  lemma {:induction false} MapKeepsSubsequence<T, U>(a: seq<T>, b: seq<T>, f: T -> U)
    requires Subsequence(a, b)
    ensures Subsequence(MapSeq(a, f), MapSeq(b, f))
    decreases |b|
  {
    if a != [] {
      assert MapSeq(a, f)[1..] == MapSeq(a[1..], f);
      assert MapSeq(b, f)[1..] == MapSeq(b[1..], f);
      if a[0] == b[0] && Subsequence(a[1..], b[1..]) {
        MapKeepsSubsequence(a[1..], b[1..], f);
      } else {
        MapKeepsSubsequence(a, b[1..], f);
      }
    }
  }

  /** Filtering both lists keeps one a subsequence of the other. */
  lemma {:induction false} FilterKeepsSubsequence<T(!new)>(a: seq<T>, b: seq<T>, keep: T -> bool)
    requires Subsequence(a, b)
    ensures Subsequence(Filter(a, keep), Filter(b, keep))
    decreases |b|
  {
    if a != [] {
      if a[0] == b[0] && Subsequence(a[1..], b[1..]) {
        FilterKeepsSubsequence(a[1..], b[1..], keep);
        if !keep(a[0]) {
          assert Filter(a, keep) == Filter(a[1..], keep);
          assert Filter(b, keep) == Filter(b[1..], keep);
        }
      } else {
        FilterKeepsSubsequence(a, b[1..], keep);
        if keep(b[0]) {
          var fb := Filter(b, keep);
          assert fb[1..] == Filter(b[1..], keep);
          SkipFirst(Filter(a, keep), fb);
        }
      }
    }
  }

  /** A subsequence of the tail is a subsequence of the whole. */
  lemma SkipFirst<T>(a: seq<T>, b: seq<T>)
    requires b != [] && Subsequence(a, b[1..])
    ensures Subsequence(a, b)
  {
  }

  /** Removing an id from both lists keeps one a subsequence of the other. */
  lemma RemoveKeepsSubsequence<T(!new)>(a: seq<T>, b: seq<T>, key: T -> string, id: string)
    requires Subsequence(a, b)
    ensures Subsequence(RemoveById(a, key, id), RemoveById(b, key, id))
  {
    FilterKeepsSubsequence(a, b, KeyIsNot(key, id));
  }

  /** A filter that keeps no element gives the empty list. */
  lemma {:induction false} FilterNone<T(!new)>(s: seq<T>, keep: T -> bool)
    requires forall i :: 0 <= i < |s| ==> !keep(s[i])
    ensures Filter(s, keep) == []
    decreases |s|
  {
    if s != [] {
      assert !keep(s[0]);
      FilterNone(s[1..], keep);
    }
  }

  /** Filters that agree on every element give the same list. */
  lemma {:induction false} FilterCongruent<T(!new)>(s: seq<T>, p: T -> bool, q: T -> bool)
    requires forall x :: p(x) == q(x)
    ensures Filter(s, p) == Filter(s, q)
    decreases |s|
  {
    if s != [] {
      FilterCongruent(s[1..], p, q);
    }
  }

  /** Filtering a list with one more element at the end. */
  lemma {:induction false} FilterAppend<T(!new)>(s: seq<T>, x: T, keep: T -> bool)
    ensures Filter(s + [x], keep) == Filter(s, keep) + (if keep(x) then [x] else [])
    decreases |s|
  {
    if s == [] {
      assert s + [x] == [x];
      assert [x][1..] == [];
    } else {
      assert (s + [x])[0] == s[0];
      assert (s + [x])[1..] == s[1..] + [x];
      FilterAppend(s[1..], x, keep);
    }
  }
}
