/** Counting by group, as GROUP BY ... COUNT(*) does. */
module Tallies {

  /** Adds one to a key's count; absent keys have none. */
  function Bump(m: map<string, nat>, k: string): map<string, nat> {
    m[k := (if k in m then m[k] else 0) + 1]
  }

  function Tally(xs: seq<string>): map<string, nat> {
    if xs == [] then map[] else Bump(Tally(xs[..|xs| - 1]), xs[|xs| - 1])
  }

  ghost function Total(m: map<string, nat>): nat {
    if m == map[] then 0 else var k :| k in m; m[k] + Total(m - {k})
  }

  /** The total can be taken in any order. */
  lemma {:induction false} TotalPick(m: map<string, nat>, k: string)
    requires k in m
    ensures Total(m) == m[k] + Total(m - {k})
    decreases |m|
  {
    var j :| j in m && Total(m) == m[j] + Total(m - {j});
    if j != k {
      assert |m - {j}| < |m| && |m - {k}| < |m| by {
        assert (m - {j}).Keys == m.Keys - {j} && (m - {k}).Keys == m.Keys - {k};
        assert |(m - {j}).Keys| == |m.Keys| - 1 && |(m - {k}).Keys| == |m.Keys| - 1;
      }
      TotalPick(m - {j}, k);
      TotalPick(m - {k}, j);
      assert m - {j} - {k} == m - {k} - {j};
    }
  }

  /** The groups are the values that occur, and each count is positive and exact. */
  lemma {:induction false} TallyCounts(xs: seq<string>, k: string)
    ensures k in Tally(xs) <==> k in xs
    ensures k in Tally(xs) ==> Tally(xs)[k] == multiset(xs)[k] > 0
  {
    if xs != [] {
      TallyCounts(xs[..|xs| - 1], k);
      assert xs == xs[..|xs| - 1] + [xs[|xs| - 1]];
    }
  }

  /** Nothing is lost or counted twice. */
  lemma {:induction false} TallyTotal(xs: seq<string>)
    ensures Total(Tally(xs)) == |xs|
  {
    if xs == [] {
    } else {
      var front, k := Tally(xs[..|xs| - 1]), xs[|xs| - 1];
      TallyTotal(xs[..|xs| - 1]);
      TotalPick(Tally(xs), k);
      assert Tally(xs) - {k} == front - {k};
      if k in front {
        TotalPick(front, k);
      } else {
        assert front - {k} == front;
      }
    }
  }

  lemma {:induction false} SubsetSize<T>(a: set<T>, b: set<T>)
    requires a <= b
    ensures |a| <= |b|
  {
    if a != {} {
      var x :| x in a;
      SubsetSize(a - {x}, b - {x});
    }
  }
}
