/** Weight sums and the RecordsByWeight ordering of a record set. */
module Weights {
  import opened ZoneData

  /** The sum setupZoneData accumulates into label.Weight for one type. */
  function SumWeights(rs: seq<Record>): int {
    if |rs| == 0 then 0 else rs[0].weight + SumWeights(rs[1..])
  }

  /** Heaviest first, the order RecordsByWeight's Less defines. */
  predicate ByWeight(rs: seq<Record>) {
    forall i, j | 0 <= i < j < |rs| :: rs[i].weight >= rs[j].weight
  }

  /** Place one record into a set already ordered heaviest first. */
  function Insert(x: Record, rs: seq<Record>): (r: seq<Record>)
    requires ByWeight(rs)
    ensures |r| == |rs| + 1
    ensures ByWeight(r)
    ensures multiset(r) == multiset(rs) + multiset{x}
    ensures SumWeights(r) == x.weight + SumWeights(rs)
  {
    if |rs| == 0 || x.weight >= rs[0].weight then
      assert ([x] + rs)[1..] == rs;
      [x] + rs
    else
      var tail := Insert(x, rs[1..]);
      assert rs == [rs[0]] + rs[1..];
      assert ([rs[0]] + tail)[1..] == tail;
      InsertBelow(x, rs, tail);
      [rs[0]] + tail
  }

  /** Inserting a lighter record into the rest of a weight-ordered set puts
      nothing heavier than its first record after it. */
  lemma InsertBelow(x: Record, rs: seq<Record>, tail: seq<Record>)
    requires ByWeight(rs) && |rs| > 0 && x.weight < rs[0].weight
    requires multiset(tail) == multiset(rs[1..]) + multiset{x}
    ensures forall j | 0 <= j < |tail| :: tail[j].weight <= rs[0].weight
  {
    forall j | 0 <= j < |tail|
      ensures tail[j].weight <= rs[0].weight
    {
      assert tail[j] in multiset(tail);
      if tail[j] != x {
        assert tail[j] in multiset(rs[1..]);
        assert tail[j] in rs[1..];
      }
    }
  }

  /** sort.Sort(RecordsByWeight{rs}). sort.Sort is not stable, so setupZoneData
      fixes only that the result is a weight-ordered permutation; this
      insertion sort is one of the orders it may produce. */
  function SortByWeight(rs: seq<Record>): (r: seq<Record>)
    ensures |r| == |rs|
    ensures ByWeight(r)
    ensures multiset(r) == multiset(rs)
    ensures SumWeights(r) == SumWeights(rs)
  {
    if |rs| == 0 then []
    else
      assert rs == [rs[0]] + rs[1..];
      Insert(rs[0], SortByWeight(rs[1..]))
  }

  /** A record set whose every weight is zero sums to zero, so
      setupZoneData leaves it unsorted. */
  lemma {:induction false} ZeroWeightsSum(rs: seq<Record>)
    requires forall j | 0 <= j < |rs| :: rs[j].weight == 0
    ensures SumWeights(rs) == 0
  {
    if |rs| > 0 {
      ZeroWeightsSum(rs[1..]);
    }
  }

  /** A weight-ordered set with one record taken out is still ordered and
      holds the rest of the records. */
  lemma DropAt(rs: seq<Record>, j: int)
    requires 0 <= j < |rs|
    ensures var d := rs[..j] + rs[j + 1..];
      && |d| == |rs| - 1
      && (forall p | 0 <= p < j :: d[p] == rs[p])
      && (forall p | j <= p < |d| :: d[p] == rs[p + 1])
      && multiset(d) == multiset(rs) - multiset{rs[j]}
      && (ByWeight(rs) ==> ByWeight(d))
  {
    var d := rs[..j] + rs[j + 1..];
    assert rs == rs[..j] + [rs[j]] + rs[j + 1..];
    if ByWeight(rs) {
      forall p, q | 0 <= p < q < |d|
        ensures d[p].weight >= d[q].weight
      {
        var p' := if p < j then p else p + 1;
        var q' := if q < j then q else q + 1;
        assert d[p] == rs[p'] && d[q] == rs[q'];
      }
    }
  }

  /** Taking out a record of the heaviest weight shifts the weights of the
      later positions down by one place and leaves the earlier ones alone. */
  lemma DropHeaviest(rs: seq<Record>, j: int)
    requires ByWeight(rs) && 0 <= j < |rs| && rs[j].weight == rs[0].weight
    ensures forall k | 0 < k < |rs| :: (rs[..j] + rs[j + 1..])[k - 1].weight == rs[k].weight
  {
    var d := rs[..j] + rs[j + 1..];
    DropAt(rs, j);
    forall k | 0 < k < |rs|
      ensures d[k - 1].weight == rs[k].weight
    {
      if k - 1 < j {
        assert d[k - 1] == rs[k - 1];
        assert rs[0].weight >= rs[k - 1].weight >= rs[k].weight >= rs[j].weight;
      } else {
        assert d[k - 1] == rs[k];
      }
    }
  }

  /** The first record of a weight-ordered set is at least as heavy as any
      record of it. */
  lemma FirstIsHeaviest(rs: seq<Record>, x: Record)
    requires ByWeight(rs) && x in multiset(rs)
    ensures rs[0].weight >= x.weight
  {
    assert x in rs;
    var i :| 0 <= i < |rs| && rs[i] == x;
  }

  lemma SameLength(a: seq<Record>, b: seq<Record>)
    requires multiset(a) == multiset(b)
    ensures |a| == |b|
  {
    assert |a| == |multiset(a)|;
    assert |b| == |multiset(b)|;
  }

  /** The inductive step: equal heaviest weights first, then the rest of a
      against b with one heaviest record taken out. */
  lemma CombineWeights(a: seq<Record>, b: seq<Record>, j: int)
    requires ByWeight(b) && 0 <= j < |b| && b[j].weight == b[0].weight
    requires |a| == |b| && a[0].weight == b[0].weight
    requires forall k | 0 <= k < |a| - 1 :: a[1..][k].weight == (b[..j] + b[j + 1..])[k].weight
    ensures forall i | 0 <= i < |a| :: a[i].weight == b[i].weight
  {
    DropHeaviest(b, j);
    forall i | 0 < i < |a|
      ensures a[i].weight == b[i].weight
    {
      assert a[i] == a[1..][i - 1];
    }
  }

  /** The first record of a appears in b at a position of b's heaviest weight. */
  lemma HeaviestMatch(a: seq<Record>, b: seq<Record>) returns (j: int)
    requires ByWeight(a) && ByWeight(b) && multiset(a) == multiset(b) && |a| > 0
    ensures 0 <= j < |b| && b[j] == a[0]
    ensures a[0].weight == b[0].weight == b[j].weight
  {
    SameLength(a, b);
    FirstIsHeaviest(a, b[0]);
    FirstIsHeaviest(b, a[0]);
    assert a[0] in b;
    j :| 0 <= j < |b| && b[j] == a[0];
  }

  /** Taking the first record out of a and the same record out of b keeps
      the two equal as multisets. */
  lemma TailMultiset(a: seq<Record>, b: seq<Record>, j: int)
    requires multiset(a) == multiset(b) && |a| > 0 && 0 <= j < |b| && b[j] == a[0]
    ensures multiset(a[1..]) == multiset(b[..j] + b[j + 1..])
  {
    DropAt(b, j);
    assert a == [a[0]] + a[1..];
  }

  /** Two weight-ordered permutations of one record set agree on the weight
      at every position: the order sort.Sort may pick among equal weights
      is the only freedom. */
  lemma {:induction false} ByWeightWeightsUnique(a: seq<Record>, b: seq<Record>)
    requires ByWeight(a) && ByWeight(b) && multiset(a) == multiset(b)
    ensures |a| == |b|
    ensures forall i | 0 <= i < |a| :: a[i].weight == b[i].weight
  {
    SameLength(a, b);
    if |a| > 0 {
      var j := HeaviestMatch(a, b);
      // take the first record of a out of b
      var b' := b[..j] + b[j + 1..];
      DropAt(b, j);
      TailMultiset(a, b, j);
      ByWeightWeightsUnique(a[1..], b');
      CombineWeights(a, b, j);
    }
  }
}
