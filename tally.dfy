/** Counting into a JavaScript object with `reduce`:
    `acc[key] = (acc[key] || 0) + 1`. A JavaScript object lists its string
    keys in the order they were first set, so the counter is modelled as a
    sequence of groups in order of first appearance. */
module Tally {
  import opened Sequences

  /** One property of the counter object, with the running sum of the values
      that fell into it. */
  datatype Group = Group(key: string, count: nat, total: int)

  /** Counts one more `key`, adding `value` to its sum; an unseen key is
      appended at the end. */
  function Bump(acc: seq<Group>, key: string, value: int): seq<Group>
  {
    if acc == [] then [Group(key, 1, value)]
    else if acc[0].key == key then [acc[0].(count := acc[0].count + 1, total := acc[0].total + value)] + acc[1..]
    else [acc[0]] + Bump(acc[1..], key, value)
  }

  /** The counter built by folding `Bump` over the (key, value) pairs from the left. */
  function GroupBy(pairs: seq<(string, int)>): seq<Group>
  {
    if pairs == [] then []
    else
      var last := pairs[|pairs| - 1];
      Bump(GroupBy(pairs[..|pairs| - 1]), last.0, last.1)
  }

  /** `acc[key] || 0`. */
  function CountOf(acc: seq<Group>, key: string): nat
  {
    if acc == [] then 0
    else if acc[0].key == key then acc[0].count
    else CountOf(acc[1..], key)
  }

  /** The sum kept for `key`, 0 when there is no such group. */
  function TotalOf(acc: seq<Group>, key: string): int
  {
    if acc == [] then 0
    else if acc[0].key == key then acc[0].total
    else TotalOf(acc[1..], key)
  }

  /** The sum of the values of the pairs that carry `key`. */
  function KeySum(pairs: seq<(string, int)>, key: string): int
  {
    if pairs == [] then 0
    else KeySum(pairs[..|pairs| - 1], key) + (if pairs[|pairs| - 1].0 == key then pairs[|pairs| - 1].1 else 0)
  }

  /** How many pairs carry `key`. */
  function Occurrences(pairs: seq<(string, int)>, key: string): nat
  {
    if pairs == [] then 0
    else Occurrences(pairs[..|pairs| - 1], key) + (if pairs[|pairs| - 1].0 == key then 1 else 0)
  }

  /** The keys of the counter object, in order (`Object.keys(acc)`). */
  function Keys(acc: seq<Group>): (ks: seq<string>)
    ensures |ks| == |acc|
    ensures forall i :: 0 <= i < |acc| ==> ks[i] == acc[i].key
  {
    if acc == [] then [] else [acc[0].key] + Keys(acc[1..])
  }

  predicate Distinct(ks: seq<string>)
  {
    forall i, j :: 0 <= i < j < |ks| ==> ks[i] != ks[j]
  }

  function Count(g: Group): int { g.count }

  function Total(g: Group): int { g.total }

  function Value(p: (string, int)): int { p.1 }

  /** A known key keeps its place; a new key goes last. */
  lemma {:induction false} BumpKeys(acc: seq<Group>, key: string, value: int)
    ensures Keys(Bump(acc, key, value)) == if key in Keys(acc) then Keys(acc) else Keys(acc) + [key]
  {
    if acc != [] && acc[0].key != key {
      BumpKeys(acc[1..], key, value);
      assert Keys(acc) == [acc[0].key] + Keys(acc[1..]);
    }
  }

  lemma {:induction false} BumpCount(acc: seq<Group>, key: string, value: int, k: string)
    ensures CountOf(Bump(acc, key, value), k) == CountOf(acc, k) + (if k == key then 1 else 0)
  {
    if acc != [] && acc[0].key != key {
      BumpCount(acc[1..], key, value, k);
    }
  }

  lemma {:induction false} BumpTotal(acc: seq<Group>, key: string, value: int, k: string)
    ensures TotalOf(Bump(acc, key, value), k) == TotalOf(acc, k) + (if k == key then value else 0)
  {
    if acc != [] && acc[0].key != key {
      BumpTotal(acc[1..], key, value, k);
    }
  }

  lemma {:induction false} BumpSums(acc: seq<Group>, key: string, value: int)
    ensures Sum(Bump(acc, key, value), Count) == Sum(acc, Count) + 1
    ensures Sum(Bump(acc, key, value), Total) == Sum(acc, Total) + value
  {
    if acc == [] {
      assert Bump(acc, key, value)[..0] == [];
    } else {
      var rest := acc[1..];
      assert acc == [acc[0]] + rest;
      SumHead(acc[0], rest, Count);
      SumHead(acc[0], rest, Total);
      if acc[0].key == key {
        var g := acc[0].(count := acc[0].count + 1, total := acc[0].total + value);
        SumHead(g, rest, Count);
        SumHead(g, rest, Total);
      } else {
        BumpSums(rest, key, value);
        SumHead(acc[0], Bump(rest, key, value), Count);
        SumHead(acc[0], Bump(rest, key, value), Total);
      }
    }
  }

  /** Each key gets exactly one group, holding the keys seen, in order of
      first appearance. */
  lemma {:induction false} GroupByKeys(pairs: seq<(string, int)>)
    ensures Distinct(Keys(GroupBy(pairs)))
    ensures forall k :: k in Keys(GroupBy(pairs)) <==> Occurrences(pairs, k) > 0
  {
    if pairs != [] {
      var init := pairs[..|pairs| - 1];
      var last := pairs[|pairs| - 1];
      GroupByKeys(init);
      BumpKeys(GroupBy(init), last.0, last.1);
    }
  }

  /** A key's count is the number of its occurrences. */
  lemma {:induction false} GroupByCounts(pairs: seq<(string, int)>, k: string)
    ensures CountOf(GroupBy(pairs), k) == Occurrences(pairs, k)
  {
    if pairs != [] {
      var init := pairs[..|pairs| - 1];
      var last := pairs[|pairs| - 1];
      GroupByCounts(init, k);
      BumpCount(GroupBy(init), last.0, last.1, k);
    }
  }

  /** A key's group sums exactly the values that came with that key. */
  lemma {:induction false} GroupByTotals(pairs: seq<(string, int)>, k: string)
    ensures TotalOf(GroupBy(pairs), k) == KeySum(pairs, k)
  {
    if pairs != [] {
      var init := pairs[..|pairs| - 1];
      var last := pairs[|pairs| - 1];
      GroupByTotals(init, k);
      BumpTotal(GroupBy(init), last.0, last.1, k);
    }
  }

  /** The counts add up to the number of pairs, and the per-key sums to the
      sum of all values. */
  lemma {:induction false} GroupBySums(pairs: seq<(string, int)>)
    ensures Sum(GroupBy(pairs), Count) == |pairs|
    ensures Sum(GroupBy(pairs), Total) == Sum(pairs, Value)
  {
    if pairs != [] {
      var init := pairs[..|pairs| - 1];
      var last := pairs[|pairs| - 1];
      GroupBySums(init);
      BumpSums(GroupBy(init), last.0, last.1);
    }
  }
}
