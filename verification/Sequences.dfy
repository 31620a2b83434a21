/** Filtering and removing in sequences, shared by the modules that erase from vectors in place. */
module Sequences {
  /** The elements of s that satisfy keep, in order. */
  ghost function Filter<T>(s: seq<T>, keep: T -> bool): (r: seq<T>)
    ensures forall x {:trigger x in r} :: x in r ==> x in s && keep(x)
    ensures forall x {:trigger x in r} :: x in s && keep(x) ==> x in r
    ensures |r| <= |s|
  {
    if s == [] then []
    else
      var n := |s| - 1;
      assert s == s[..n] + [s[n]];
      Filter(s[..n], keep) + if keep(s[n]) then [s[n]] else []
  }

  lemma {:induction false} FilterSnoc<T>(s: seq<T>, x: T, keep: T -> bool)
    ensures Filter(s + [x], keep) == Filter(s, keep) + if keep(x) then [x] else []
  {
    assert (s + [x])[..|s|] == s;
  }

  /** Filters that agree on the elements give the same result. */
  lemma {:induction false} FilterSame<T>(s: seq<T>, p: T -> bool, q: T -> bool)
    requires forall x :: x in s ==> p(x) == q(x)
    ensures Filter(s, p) == Filter(s, q)
  {
    if s != [] {
      FilterSame(s[..|s| - 1], p, q);
    }
  }

  lemma {:induction false} FilterAll<T>(s: seq<T>, keep: T -> bool)
    requires forall x :: x in s ==> keep(x)
    ensures Filter(s, keep) == s
  {
    if s != [] {
      FilterAll(s[..|s| - 1], keep);
      assert s == s[..|s| - 1] + [s[|s| - 1]];
    }
  }

  /** A filter that removes nothing is the only one that keeps the length. */
  lemma {:induction false} FilterShorter<T>(s: seq<T>, keep: T -> bool, x: T)
    requires x in s && !keep(x)
    ensures |Filter(s, keep)| < |s|
  {
    var n := |s| - 1;
    if x in s[..n] {
      FilterShorter(s[..n], keep, x);
    }
  }

  /** One filter after the other. */
  lemma {:induction false} FilterTwice<T>(s: seq<T>, p: T -> bool, q: T -> bool, both: T -> bool)
    requires forall x :: x in s ==> both(x) == (p(x) && q(x))
    ensures Filter(Filter(s, p), q) == Filter(s, both)
  {
    if s != [] {
      var n := |s| - 1;
      FilterTwice(s[..n], p, q, both);
      if p(s[n]) {
        FilterSnoc(Filter(s[..n], p), s[n], q);
      } else {
        assert Filter(s, p) == Filter(s[..n], p);
      }
    }
  }

  ghost predicate Within<T>(s: seq<T>, t: seq<T>) {
    forall j :: 0 <= j < |s| ==> s[j] in t
  }

  lemma {:induction false} FilterWithin<T>(s: seq<T>, keep: T -> bool, t: seq<T>)
    requires Within(s, t)
    ensures Within(Filter(s, keep), t)
  {
    forall j | 0 <= j < |Filter(s, keep)| ensures Filter(s, keep)[j] in t {
      assert Filter(s, keep)[j] in Filter(s, keep);
    }
  }

  lemma {:induction false} FilterIsWithin<T>(s: seq<T>, keep: T -> bool)
    ensures Within(Filter(s, keep), s)
  {
    FilterWithin(s, keep, s);
  }

  function Erase<T>(s: seq<T>, i: nat): seq<T>
    requires i < |s|
  {
    s[..i] + s[i + 1..]
  }

  ghost function In<T>(keep: set<T>): T -> bool {
    (x: T) => x in keep
  }

  /** The elements of s that are in keep, in order. */
  ghost function Only<T>(s: seq<T>, keep: set<T>): seq<T> {
    Filter(s, In(keep))
  }

  lemma {:induction false} OnlyIsFilter<T>(s: seq<T>, keep: set<T>, p: T -> bool)
    requires forall x :: x in s ==> (x in keep <==> p(x))
    ensures Only(s, keep) == Filter(s, p)
  {
    FilterSame(s, In(keep), p);
  }

  /** A vector that is being swept in place: the first i elements are those of `all` looked at so far
      that are kept, and the rest of `all` follows untouched. */
  ghost predicate Swept<T>(s: seq<T>, i: nat, all: seq<T>, keep: set<T>) {
    i <= |s| <= |all| &&
    var k := |all| - (|s| - i);
    s[..i] == Only(all[..k], keep) && s[i..] == all[k..]
  }

  lemma {:induction false} SweptNext<T>(s: seq<T>, i: nat, all: seq<T>, keep: set<T>)
    requires Swept(s, i, all, keep) && i < |s|
    ensures s[i] in all
    ensures s[i] in keep ==> Swept(s, i + 1, all, keep) && s[..i + 1] == s[..i] + [s[i]]
    ensures s[i] !in keep ==> Swept(Erase(s, i), i, all, keep) && Erase(s, i)[..i] == s[..i]
  {
    var k := |all| - (|s| - i);
    assert all[k..][0] == all[k] && s[i..][0] == s[i];
    OnlySnoc(all, k, keep);
    RestNext(s, i, all, k);
    if s[i] in keep {
      assert s[..i + 1] == s[..i] + [s[i]];
    } else {
      var e := Erase(s, i);
      assert e[..i] == s[..i] && e[i..] == s[i + 1..];
    }
  }

  lemma {:induction false} OnlySnoc<T>(all: seq<T>, k: nat, keep: set<T>)
    requires k < |all|
    ensures Only(all[..k + 1], keep) == Only(all[..k], keep) + if all[k] in keep then [all[k]] else []
  {
    assert all[..k + 1] == all[..k] + [all[k]];
    FilterSnoc(all[..k], all[k], In(keep));
  }

  lemma {:induction false} RestNext<T>(s: seq<T>, i: nat, all: seq<T>, k: nat)
    requires i < |s| && k < |all| && s[i..] == all[k..]
    ensures s[i + 1..] == all[k + 1..]
  {
    assert s[i + 1..] == s[i..][1..] && all[k + 1..] == all[k..][1..];
  }

  /** Where the element now at i was in the beginning. */
  lemma {:induction false} SweptAt<T>(s: seq<T>, i: nat, all: seq<T>, keep: set<T>)
    requires Swept(s, i, all, keep) && i < |s|
    ensures s[i] == all[|all| - (|s| - i)]
  {
    assert s[i] == s[i..][0];
  }

  /** When every element was looked at, the kept ones are what is left. */
  lemma {:induction false} SweptDone<T>(s: seq<T>, i: nat, all: seq<T>, keep: set<T>)
    requires Swept(s, i, all, keep) && i == |s|
    ensures s == s[..i] == Only(all, keep)
  {
    assert all[..|all|] == all && s[..i] == s;
  }

  /** A filter that keeps the length removes nothing. */
  lemma {:induction false} FilterLength<T>(s: seq<T>, keep: T -> bool)
    ensures |Filter(s, keep)| == |s| <==> Filter(s, keep) == s
  {
    if |Filter(s, keep)| == |s| {
      forall x | x in s ensures keep(x) {
        if !keep(x) { FilterShorter(s, keep, x); }
      }
      FilterAll(s, keep);
    }
  }

  ghost predicate Distinct<T>(s: seq<T>) {
    forall i, j :: 0 <= i < j < |s| ==> s[i] != s[j]
  }

  lemma {:induction false} FilterDistinct<T>(s: seq<T>, keep: T -> bool)
    requires Distinct(s)
    ensures Distinct(Filter(s, keep))
  {
    if s != [] {
      var front := Filter(s[..|s| - 1], keep);
      FilterDistinct(s[..|s| - 1], keep);
      forall k | 0 <= k < |front| ensures front[k] != s[|s| - 1] { assert front[k] in front; }
    }
  }

  lemma {:induction false} FilterConcat<T>(s: seq<T>, t: seq<T>, keep: T -> bool)
    ensures Filter(s + t, keep) == Filter(s, keep) + Filter(t, keep)
  {
    if t == [] {
      assert s + t == s;
    } else {
      var front, last := t[..|t| - 1], t[|t| - 1];
      assert s + t == (s + front) + [last] && t == front + [last];
      FilterConcat(s, front, keep);
      FilterSnoc(s + front, last, keep);
      FilterSnoc(front, last, keep);
    }
  }

  lemma {:induction false} FilterAround<T>(before: seq<T>, x: T, after: seq<T>, other: T -> bool)
    requires Filter(before, other) == before && Filter(after, other) == after && !other(x)
    ensures Filter((before + [x]) + after, other) == before + after
  {
    assert Filter(before + [x], other) == before by {
      FilterSnoc(before, x, other);
      assert before + [] == before;
    }
    FilterConcat(before + [x], after, other);
  }

  /** Erasing one element of distinct ones filters it out. */
  lemma {:induction false} FilterOut<T>(s: seq<T>, i: nat, other: T -> bool)
    requires i < |s| && forall k :: 0 <= k < |s| ==> (other(s[k]) <==> k != i)
    ensures Filter(s, other) == Erase(s, i)
  {
    FilterAll(s[..i], other);
    FilterAll(s[i + 1..], other);
    assert s == (s[..i] + [s[i]]) + s[i + 1..];
    FilterAround(s[..i], s[i], s[i + 1..], other);
  }
}
