/**
 * Sequence operations the simulation uses to scroll and cull its items:
 * applying a move to every element, keeping the elements that satisfy a test,
 * and the facts about order that these operations preserve.
 */
module Sequences {

  /** Every element of s transformed by f, in the same order. */
  function Map<T, U>(s: seq<T>, f: T -> U): seq<U>
  {
    seq(|s|, i requires 0 <= i < |s| => f(s[i]))
  }

  /** The elements of s that pass keep, in their original order. */
  function Filter<T>(s: seq<T>, keep: T -> bool): (r: seq<T>)
    ensures |r| <= |s|
    ensures forall i :: 0 <= i < |r| ==> keep(r[i])
  {
    if s == [] then []
    else if keep(s[0]) then [s[0]] + Filter(s[1..], keep)
    else Filter(s[1..], keep)
  }

  /** r is obtained from s by deleting elements, without reordering. */
  ghost predicate Subsequence<T>(r: seq<T>, s: seq<T>)
    decreases |s|
  {
    if r == [] then true
    else if s == [] then false
    else (r[0] == s[0] && Subsequence(r[1..], s[1..])) || Subsequence(r, s[1..])
  }

  /** The elements of s are ordered by key, smallest first. */
  predicate Ascending<T>(s: seq<T>, key: T -> int)
  {
    forall i, j :: 0 <= i < j < |s| ==> key(s[i]) <= key(s[j])
  }

  /** Ascending by key and no key beyond bound. */
  predicate OrderedUpTo<T>(s: seq<T>, key: T -> int, bound: int)
  {
    Ascending(s, key) && forall i :: 0 <= i < |s| ==> key(s[i]) <= bound
  }

  /** Every survivor of a filter comes from the filtered sequence. */
  lemma {:induction false} FilterFrom<T>(s: seq<T>, keep: T -> bool)
    ensures forall i :: 0 <= i < |Filter(s, keep)| ==> Filter(s, keep)[i] in s
    decreases |s|
  {
    if s != [] {
      FilterFrom(s[1..], keep);
      var r := Filter(s, keep);
      forall i | 0 <= i < |r| ensures r[i] in s {
        if keep(s[0]) && i == 0 {
        } else {
          var rest := Filter(s[1..], keep);
          var k := if keep(s[0]) then i - 1 else i;
          assert r[i] == rest[k];
          assert rest[k] in s[1..];
        }
      }
    }
  }

  /** Every element that passes the test survives the filter. */
  lemma {:induction false} FilterKeepsPassing<T>(s: seq<T>, keep: T -> bool)
    ensures forall i :: 0 <= i < |s| && keep(s[i]) ==> s[i] in Filter(s, keep)
    decreases |s|
  {
    if s != [] {
      FilterKeepsPassing(s[1..], keep);
      forall i | 0 <= i < |s| && keep(s[i]) ensures s[i] in Filter(s, keep) {
        if i > 0 {
          assert s[i] == s[1..][i - 1];
        }
      }
    }
  }

  /** Filtering keeps the relative order of the survivors. */
  lemma {:induction false} FilterSubsequence<T>(s: seq<T>, keep: T -> bool)
    ensures Subsequence(Filter(s, keep), s)
    decreases |s|
  {
    if s != [] {
      FilterSubsequence(s[1..], keep);
      var r := Filter(s, keep);
      if keep(s[0]) {
        assert r[0] == s[0] && r[1..] == Filter(s[1..], keep);
      } else {
        assert r == Filter(s[1..], keep);
        if r != [] {
          assert Subsequence(r, s[1..]);
        }
      }
    }
  }

  /** Filtering distributes over concatenation. */
  lemma {:induction false} FilterConcat<T>(a: seq<T>, b: seq<T>, keep: T -> bool)
    ensures Filter(a + b, keep) == Filter(a, keep) + Filter(b, keep)
    decreases |a|
  {
    if a != [] {
      assert (a + b)[0] == a[0];
      assert (a + b)[1..] == a[1..] + b;
      FilterConcat(a[1..], b, keep);
    } else {
      assert a + b == b;
    }
  }

  /** A sequence whose every element passes is left as it is. */
  lemma {:induction false} FilterAllKept<T>(s: seq<T>, keep: T -> bool)
    requires forall i :: 0 <= i < |s| ==> keep(s[i])
    ensures Filter(s, keep) == s
    decreases |s|
  {
    if s != [] {
      FilterAllKept(s[1..], keep);
      assert [s[0]] + s[1..] == s;
    }
  }

  /** A sequence none of whose elements pass is filtered away completely. */
  lemma {:induction false} FilterNoneKept<T>(s: seq<T>, keep: T -> bool)
    requires forall i :: 0 <= i < |s| ==> !keep(s[i])
    ensures Filter(s, keep) == []
    decreases |s|
  {
    if s != [] {
      FilterNoneKept(s[1..], keep);
    }
  }

  /** Filtering keeps a sequence ascending. */
  lemma {:induction false} FilterAscending<T>(s: seq<T>, keep: T -> bool, key: T -> int)
    requires Ascending(s, key)
    ensures Ascending(Filter(s, keep), key)
    decreases |s|
  {
    if s != [] {
      FilterAscending(s[1..], keep, key);
      FilterFrom(s[1..], keep);
      var rest := Filter(s[1..], keep);
      if keep(s[0]) {
        var r := [s[0]] + rest;
        forall i, j | 0 <= i < j < |r| ensures key(r[i]) <= key(r[j]) {
          if i == 0 {
            assert r[j] in rest;
            assert r[j] in s[1..];
            var k :| 0 <= k < |s[1..]| && s[1..][k] == r[j];
            assert s[k + 1] == r[j];
          } else {
            assert r[i] == rest[i - 1] && r[j] == rest[j - 1];
          }
        }
      }
    }
  }

  /**
   * One scroll step: items spawned at the bound are appended, every item is
   * moved left by step, and the items failing keep are dropped. If the items
   * were ordered up to the bound before, the survivors are ordered up to
   * bound - step.
   */
  lemma ScrollOrdered<T>(s: seq<T>, born: seq<T>, move: T -> T, keep: T -> bool,
                         key: T -> int, step: nat, bound: int)
    requires OrderedUpTo(s, key, bound)
    requires forall i :: 0 <= i < |born| ==> key(born[i]) == bound
    requires forall t :: key(move(t)) == key(t) - step
    ensures OrderedUpTo(Scroll(s, born, move, keep), key, bound - step)
    ensures OrderedUpTo(Scroll(s, born, move, keep), key, bound)
  {
    var all := s + born;
    assert Ascending(all, key) by {
      forall i, j | 0 <= i < j < |all| ensures key(all[i]) <= key(all[j]) {
        if j < |s| {
          assert all[i] == s[i] && all[j] == s[j];
        } else if i < |s| {
          assert all[i] == s[i] && all[j] == born[j - |s|];
        } else {
          assert all[i] == born[i - |s|] && all[j] == born[j - |s|];
        }
      }
    }
    var moved := Map(all, move);
    assert Ascending(moved, key) by {
      forall i, j | 0 <= i < j < |moved| ensures key(moved[i]) <= key(moved[j]) {
        assert key(moved[i]) == key(all[i]) - step;
        assert key(moved[j]) == key(all[j]) - step;
      }
    }
    forall i | 0 <= i < |moved| ensures key(moved[i]) <= bound - step {
      assert key(moved[i]) == key(all[i]) - step;
      if i < |s| { assert all[i] == s[i]; } else { assert all[i] == born[i - |s|]; }
    }
    FilterAscending(moved, keep, key);
    FilterFrom(moved, keep);
    var r := Filter(moved, keep);
    forall i | 0 <= i < |r| ensures key(r[i]) <= bound - step {
      assert r[i] in moved;
    }
  }

  /**
   * One scroll step of a sequence of items: the new items are appended, every
   * item is moved, and the items that fail keep are dropped.
   */
  function Scroll<T>(s: seq<T>, born: seq<T>, move: T -> T, keep: T -> bool): (r: seq<T>)
    ensures forall i :: 0 <= i < |r| ==> keep(r[i])
  {
    Filter(Map(s + born, move), keep)
  }

  /**
   * When every item spawned in a step survives its first move, the step keeps
   * the survivors of the old items, in order, followed by the moved new ones.
   */
  lemma ScrollSplit<T>(s: seq<T>, born: seq<T>, move: T -> T, keep: T -> bool)
    requires forall i :: 0 <= i < |born| ==> keep(move(born[i]))
    ensures Scroll(s, born, move, keep) == Filter(Map(s, move), keep) + Map(born, move)
  {
    assert Map(s + born, move) == Map(s, move) + Map(born, move);
    FilterConcat(Map(s, move), Map(born, move), keep);
    FilterAllKept(Map(born, move), keep);
  }

  /** A step keeps the relative order of the items it does not drop. */
  lemma ScrollKeepsOrder<T>(s: seq<T>, born: seq<T>, move: T -> T, keep: T -> bool)
    ensures Subsequence(Scroll(s, born, move, keep), Map(s + born, move))
  {
    FilterSubsequence(Map(s + born, move), keep);
  }

  /** Moves every element where it stands, front to back, as a forEach over the items does. */
  method MoveEach<T>(s: seq<T>, move: T -> T) returns (r: seq<T>)
    ensures r == Map(s, move)
  {
    r := s;
    var i := 0;
    while i < |r|
      invariant 0 <= i <= |r| == |s|
      invariant forall j :: 0 <= j < i ==> r[j] == move(s[j])
      invariant forall j :: i <= j < |r| ==> r[j] == s[j]
    {
      r := r[i := move(r[i])];
      i := i + 1;
    }
  }

  /** Builds the filtered sequence front to back, as an array filter does. */
  method KeepWhere<T>(s: seq<T>, keep: T -> bool) returns (r: seq<T>)
    ensures r == Filter(s, keep)
  {
    r := [];
    var i := 0;
    while i < |s|
      invariant 0 <= i <= |s|
      invariant r == Filter(s[..i], keep)
    {
      assert s[..i + 1] == s[..i] + [s[i]];
      FilterConcat(s[..i], [s[i]], keep);
      if keep(s[i]) {
        r := r + [s[i]];
      }
      i := i + 1;
    }
    assert s[..i] == s;
  }
}
