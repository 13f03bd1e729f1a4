/** Selection of the most recent entries: candidates are given in ascending
    timestamp order (the second component), and the newest n are taken,
    newest first. This is how the history queries' "order by timestamp
    descending, first n" is modelled. */
module Recency {

  predicate Ascending<K>(c: seq<(K, nat)>)
  {
    forall i, j :: 0 <= i < j < |c| ==> c[i].1 <= c[j].1
  }

  /** The last n candidates (all of them when there are fewer), newest first. */
  function TakeRecent<K>(c: seq<(K, nat)>, n: nat): seq<(K, nat)>
  {
    var m := if |c| < n then |c| else n;
    seq(m, j requires 0 <= j < m => c[|c| - 1 - j])
  }

  /** Newest first: timestamps never increase along the selection. */
  lemma TakeRecentDescending<K>(c: seq<(K, nat)>, n: nat)
    requires Ascending(c)
    ensures var r := TakeRecent(c, n);
            forall i, j :: 0 <= i < j < |r| ==> r[i].1 >= r[j].1
  {
  }

  /** Every candidate is either selected, or the selection is full and the
      candidate is no newer than anything selected. */
  lemma {:induction false} TakeRecentCovers<K>(c: seq<(K, nat)>, n: nat, p: nat)
    requires Ascending(c) && p < |c|
    ensures var r := TakeRecent(c, n);
            (exists j :: 0 <= j < |r| && r[j] == c[p])
            || (|r| == n && forall j :: 0 <= j < |r| ==> c[p].1 <= r[j].1)
  {
    var r := TakeRecent(c, n);
    if p >= |c| - |r| {
      var j := |c| - 1 - p;
      assert r[j] == c[p];
    } else {
      assert |r| == n;
      forall j | 0 <= j < |r| ensures c[p].1 <= r[j].1 {
        assert r[j] == c[|c| - 1 - j];
      }
    }
  }

  /** Strictly increasing keys stay pairwise different after selection. */
  lemma TakeRecentDistinct(c: seq<(nat, nat)>, n: nat)
    requires forall i, j :: 0 <= i < j < |c| ==> c[i].0 < c[j].0
    ensures var r := TakeRecent(c, n);
            forall i, j :: 0 <= i < j < |r| ==> r[i].0 > r[j].0
  {
  }
}
