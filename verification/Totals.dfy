/** Null-aware totals: an absent measurement is unknown, never zero. */
module Totals {
  import opened Results

  function Combine(a: Option<int>, b: Option<int>): Option<int> {
    match (a, b)
    case (Some(x), Some(y)) => Some(x + y)
    case (None, _) => b
    case (_, None) => a
  }

  lemma CombineReorders(a: Option<int>, b: Option<int>, c: Option<int>)
    ensures Combine(a, b) == Combine(b, a)
    ensures Combine(a, Combine(b, c)) == Combine(b, Combine(a, c))
  {
  }

  // UsageTotals.Tokens and UsageTotals.Cost: absent when nothing was reported.
  function Total(values: seq<Option<int>>): Option<int> {
    if values == [] then None else Combine(values[0], Total(values[1..]))
  }

  lemma {:induction false} TotalOfConcat(a: seq<Option<int>>, b: seq<Option<int>>)
    ensures Total(a + b) == Combine(Total(a), Total(b))
  {
    if a == [] {
      assert a + b == b;
    } else {
      assert (a + b)[1..] == a[1..] + b;
      TotalOfConcat(a[1..], b);
    }
  }

  // What a total means, without its recursion: it is absent exactly when every
  // value is absent.
  lemma {:induction false} TotalIsAbsent(values: seq<Option<int>>)
    ensures Total(values).None? <==> forall i | 0 <= i < |values| :: values[i].None?
  {
    if values != [] {
      TotalIsAbsent(values[1..]);
      assert forall i | 0 < i < |values| :: values[i] == values[1..][i - 1];
      if Total(values).None? {
        forall i | 0 <= i < |values| ensures values[i].None? {
          if i > 0 { assert values[1..][i - 1].None?; }
        }
      }
    }
  }

  // What the values come to when absent ones count as nothing.
  function SumOfPresent(values: seq<Option<int>>): int {
    if values == [] then 0 else SumOfPresent(values[..|values| - 1]) + values[|values| - 1].GetOr(0)
  }

  // A total is the sum of the values that are there.
  lemma {:induction false} TotalIsSum(values: seq<Option<int>>)
    ensures Total(values).GetOr(0) == SumOfPresent(values)
  {
    if values != [] {
      var init, last := values[..|values| - 1], values[|values| - 1];
      TotalIsSum(init);
      assert values == init + [last];
      TotalOfConcat(init, [last]);
      assert [last][1..] == [];
    }
  }

  // One value can be counted before all the others.
  lemma TotalOfMiddle(a: seq<Option<int>>, x: Option<int>, b: seq<Option<int>>)
    ensures Total(a + [x] + b) == Combine(x, Total(a + b))
  {
    assert a + [x] + b == a + ([x] + b);
    assert ([x] + b)[1..] == b;
    TotalOfConcat(a, [x] + b);
    TotalOfConcat(a, b);
  }

  // The total of `value` over the distinct keys of `keys`.
  function Tally<K>(keys: seq<K>, value: K -> Option<int>): Option<int> {
    Total(seq(|keys|, i requires 0 <= i < |keys| => value(keys[i])))
  }

  lemma TallyIs<K>(keys: seq<K>, value: K -> Option<int>, values: seq<Option<int>>)
    requires |values| == |keys| && forall i | 0 <= i < |keys| :: values[i] == value(keys[i])
    ensures Tally(keys, value) == Total(values)
  {
    assert seq(|keys|, i requires 0 <= i < |keys| => value(keys[i])) == values;
  }

  ghost predicate Distinct<T>(s: seq<T>) {
    forall i, j | 0 <= i < j < |s| :: s[i] != s[j]
  }

  ghost predicate Increasing(s: seq<nat>) {
    forall p, q | 0 <= p < q < |s| :: s[p] < s[q]
  }

  function Without<T>(s: seq<T>, i: nat): (r: seq<T>)
    requires i < |s|
    ensures |r| == |s| - 1
  {
    s[..i] + s[i + 1..]
  }

  lemma WithoutDistinct<T>(s: seq<T>, i: nat)
    requires i < |s| && Distinct(s)
    ensures Distinct(Without(s, i))
    ensures forall x :: x in Without(s, i) <==> x in s && x != s[i]
  {
    var r := Without(s, i);
    assert forall p | 0 <= p < |r| :: r[p] == s[if p < i then p else p + 1];
    forall x | x in s && x != s[i] ensures x in r {
      var p :| 0 <= p < |s| && s[p] == x;
      assert r[if p < i then p else p - 1] == x;
    }
  }

  lemma TallyWithout<K>(keys: seq<K>, value: K -> Option<int>, i: nat)
    requires i < |keys|
    ensures Tally(keys, value) == Combine(value(keys[i]), Tally(Without(keys, i), value))
  {
    var values := seq(|keys|, j requires 0 <= j < |keys| => value(keys[j]));
    var rest := Without(keys, i);
    assert values[..i] + values[i + 1..] == seq(|rest|, j requires 0 <= j < |rest| => value(rest[j]));
    assert values[..i] + [values[i]] + values[i + 1..] == values;
    TotalOfMiddle(values[..i], values[i], values[i + 1..]);
  }

  lemma NonemptyHasElement<T>(s: seq<T>)
    ensures s == [] || exists x :: x in s
  {
    if s != [] { assert s[0] in s; }
  }

  // Two duplicate-free listings of keys have the same tally when every key that
  // only the longer listing holds counts as nothing.
  lemma {:induction false} TallyIsOrderFree<K>(keys: seq<K>, part: seq<K>, value: K -> Option<int>)
    requires Distinct(keys) && Distinct(part)
    requires forall k | k in part :: k in keys
    requires forall k | k in keys && k !in part :: value(k).None?
    ensures Tally(keys, value) == Tally(part, value)
    decreases |keys|
  {
    if keys == [] {
      NonemptyHasElement(part);
    } else {
      var k := keys[0];
      TallyWithout(keys, value, 0);
      WithoutDistinct(keys, 0);
      if k in part {
        var j :| 0 <= j < |part| && part[j] == k;
        TallyWithout(part, value, j);
        WithoutDistinct(part, j);
        TallyIsOrderFree(Without(keys, 0), Without(part, j), value);
      } else {
        TallyIsOrderFree(Without(keys, 0), part, value);
      }
    }
  }
}
