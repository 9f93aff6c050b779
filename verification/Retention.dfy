/**
 The retention order and the latest N of it, over sets of keys. Pruning a store
 after every completion is compared here with selecting once from everything
 that was ever completed.
 */
module Retention {

  // What a completed run is ranked by: end, start and identifier.
  datatype Key = Key(end: int, start: int, id: nat)

  // Latest end first, then latest start, then lowest identifier.
  predicate Ahead(a: Key, b: Key) {
    || a.end > b.end
    || (a.end == b.end && a.start > b.start)
    || (a.end == b.end && a.start == b.start && a.id < b.id)
  }

  function AheadOf(keys: set<Key>, k: Key): set<Key> {
    set j | j in keys && Ahead(j, k)
  }

  // The n keys ranked first.
  function Latest(keys: set<Key>, n: nat): set<Key> {
    set k | k in keys && |AheadOf(keys, k)| < n
  }

  lemma SubsetCount<T>(a: set<T>, b: set<T>)
    requires a <= b
    ensures |a| <= |b|
    ensures |a| == |b| ==> a == b
  {
    assert b == a + (b - a);
  }

  // ----- Sorting -----

  predicate IsFirst(keys: set<Key>, k: Key) {
    k in keys && forall j | j in keys && j != k :: Ahead(k, j)
  }

  lemma {:induction false} FirstExists(keys: set<Key>)
    requires keys != {}
    ensures exists k :: IsFirst(keys, k)
    decreases keys
  {
    var k :| k in keys;
    var rest := keys - {k};
    if rest == {} {
      assert keys == {k};
      assert IsFirst(keys, k);
    } else {
      FirstExists(rest);
      var f :| IsFirst(rest, f);
      assert keys == rest + {k};
      assert IsFirst(keys, if Ahead(k, f) then k else f);
    }
  }

  // OrderByDescending(end).ThenByDescending(start).ThenBy(id)
  function Ranked(keys: set<Key>): (r: seq<Key>)
    decreases keys
  {
    if keys == {} then []
    else
      FirstExists(keys);
      var k :| IsFirst(keys, k);
      [k] + Ranked(keys - {k})
  }

  lemma {:induction false} RankedIsSorted(keys: set<Key>)
    ensures |Ranked(keys)| == |keys|
    ensures forall k :: k in Ranked(keys) <==> k in keys
    ensures forall i, j | 0 <= i < j < |Ranked(keys)| :: Ahead(Ranked(keys)[i], Ranked(keys)[j])
    decreases keys
  {
    if keys != {} {
      FirstExists(keys);
      var k :| IsFirst(keys, k);
      RankedIsSorted(keys - {k});
      var rest := Ranked(keys - {k});
      assert Ranked(keys) == [k] + rest;
      forall j | 0 <= j < |rest| ensures Ahead(k, rest[j]) {
        assert rest[j] in rest;
      }
    }
  }

  lemma {:induction false} PrefixCount(s: seq<Key>, n: nat)
    requires n <= |s| && forall i, j | 0 <= i < j < |s| :: s[i] != s[j]
    ensures |set i | 0 <= i < n :: s[i]| == n
  {
    if n > 0 {
      PrefixCount(s, n - 1);
      assert (set i | 0 <= i < n :: s[i]) == (set i | 0 <= i < n - 1 :: s[i]) + {s[n - 1]};
    }
  }

  // The key at position i of the sorted list has exactly i keys ahead of it.
  lemma PositionIsCount(keys: set<Key>, i: nat)
    requires i < |Ranked(keys)|
    ensures |AheadOf(keys, Ranked(keys)[i])| == i
  {
    RankedIsSorted(keys);
    var s := Ranked(keys);
    PrefixCount(s, i);
    var first := set p | 0 <= p < i :: s[p];
    forall k ensures k in AheadOf(keys, s[i]) <==> k in first {
      if k in AheadOf(keys, s[i]) {
        assert k in s;
        var p :| 0 <= p < |s| && s[p] == k;
      }
      if k in first {
        var p :| 0 <= p < i && s[p] == k;
        assert k in s;
      }
    }
    assert AheadOf(keys, s[i]) == first;
  }

  // Skipping n of the sorted list leaves exactly what is not among the latest n.
  lemma SkipIsTheRest(keys: set<Key>, n: nat, k: Key)
    ensures k in Ranked(keys)[if n <= |Ranked(keys)| then n else |Ranked(keys)|..] <==>
            k in keys && k !in Latest(keys, n)
  {
    RankedIsSorted(keys);
    var s := Ranked(keys);
    var from := if n <= |s| then n else |s|;
    assert forall x :: x in s[from..] ==> x in s;
    if k in keys {
      var p :| 0 <= p < |s| && s[p] == k;
      PositionIsCount(keys, p);
      if p >= from {
        assert s[from..][p - from] == k;
      } else {
        assert forall q | 0 <= q < |s[from..]| :: Ahead(s[p], s[from..][q]);
      }
    }
  }

  // ----- The latest n -----

  lemma FewAreAllLatest(keys: set<Key>, n: nat)
    requires |keys| <= n
    ensures Latest(keys, n) == keys
  {
    forall k | k in keys ensures |AheadOf(keys, k)| < n {
      assert k !in AheadOf(keys, k);
      SubsetCount(AheadOf(keys, k), keys - {k});
    }
  }

  lemma {:induction false} LatestCount(keys: set<Key>, n: nat)
    ensures |Latest(keys, n)| == if |keys| <= n then |keys| else n
  {
    RankedIsSorted(keys);
    var s := Ranked(keys);
    if |keys| <= n {
      FewAreAllLatest(keys, n);
    } else {
      PrefixCount(s, n);
      var first := set p | 0 <= p < n :: s[p];
      forall k ensures k in Latest(keys, n) <==> k in first {
        if k in keys {
          var p :| 0 <= p < |s| && s[p] == k;
          PositionIsCount(keys, p);
          if k in first {
            var q :| 0 <= q < n && s[q] == k;
            PositionIsCount(keys, q);
          }
        } else {
          assert k !in s;
        }
      }
      assert Latest(keys, n) == first;
    }
  }

  // Whatever is left out comes behind all of the latest n, of which there are n.
  lemma LeftOutIsBehind(keys: set<Key>, n: nat, r: Key, k: Key)
    requires r in keys && r !in Latest(keys, n) && k in Latest(keys, n)
    ensures Ahead(k, r) && |Latest(keys, n)| == n
  {
    LatestCount(keys, n);
    if |keys| <= n {
      FewAreAllLatest(keys, n);
    }
    if !Ahead(k, r) {
      assert AheadOf(keys, r) <= AheadOf(keys, k);
      SubsetCount(AheadOf(keys, r), AheadOf(keys, k));
    }
  }

  lemma LatestIsFull(keys: set<Key>, n: nat, r: Key)
    requires r in keys && r !in Latest(keys, n)
    ensures |Latest(keys, n)| == n
  {
    LatestCount(keys, n);
    if |keys| <= n {
      FewAreAllLatest(keys, n);
    }
  }

  // A key counts alike in a set and in a smaller one when nothing that is only in
  // the larger comes ahead of it.
  lemma SameCount(small: set<Key>, large: set<Key>, k: Key)
    requires small <= large && forall r | r in large && r !in small :: !Ahead(r, k)
    ensures AheadOf(small, k) == AheadOf(large, k)
  {
  }

  // A key with a full set ahead of it is not among the latest.
  lemma NotLatest(keys: set<Key>, n: nat, k: Key, ahead: set<Key>)
    requires ahead <= keys && |ahead| >= n && forall j | j in ahead :: Ahead(j, k)
    ensures k !in Latest(keys, n)
  {
    SubsetCount(ahead, AheadOf(keys, k));
  }

  // ----- Pruning step by step -----

  // A run that had not been completed before: pruning the store again selects what
  // one selection from everything ever completed would.
  lemma CompletingAgrees(ever: set<Key>, n: nat, k: Key)
    requires k !in ever
    ensures Latest(Latest(ever, n) + {k}, n) == Latest(ever + {k}, n)
  {
    var stored, all := Latest(ever, n) + {k}, ever + {k};
    forall x ensures x in Latest(stored, n) <==> x in Latest(all, n) {
      if x in ever && x !in stored {
        LatestIsFull(ever, n, x);
        forall j | j in Latest(ever, n) ensures Ahead(j, x) { LeftOutIsBehind(ever, n, x, j); }
        NotLatest(all, n, x, Latest(ever, n));
      } else if r :| r in all && r !in stored && Ahead(r, x) && x in stored {
        forall j | j in Latest(ever, n) ensures Ahead(j, r) { LeftOutIsBehind(ever, n, r, j); }
        LatestIsFull(ever, n, r);
        assert x == k;
        NotLatest(all, n, x, Latest(ever, n));
        NotLatest(stored, n, x, Latest(ever, n));
      } else if x in stored {
        SameCount(stored, all, x);
      }
    }
  }

  // A run that is stored and completed again under another key: the store agrees
  // with the one selection exactly when no run pruned earlier comes ahead of the
  // new key.
  lemma RecompletingAgrees(ever: set<Key>, n: nat, before: Key, after: Key)
    requires before in Latest(ever, n) && after !in ever - {before}
    ensures Latest(Latest(ever, n) - {before} + {after}, n) == Latest(ever - {before} + {after}, n) <==>
            forall r | r in ever && r !in Latest(ever, n) :: !Ahead(r, after)
  {
    var kept := Latest(ever, n) - {before};
    var stored, all := kept + {after}, ever - {before} + {after};
    LatestCount(ever, n);
    FewAreAllLatest(stored, n);
    if r :| r in ever && r !in Latest(ever, n) && Ahead(r, after) {
      LatestIsFull(ever, n, r);
      forall j | j in kept ensures Ahead(j, after) { LeftOutIsBehind(ever, n, r, j); }
      assert r !in kept && |kept + {r}| == n;
      NotLatest(all, n, after, kept + {r});
      assert after in Latest(stored, n) && after !in Latest(all, n);
    } else {
      forall x ensures x in Latest(stored, n) <==> x in Latest(all, n) {
        if x in all && x !in stored {
          LatestIsFull(ever, n, x);
          forall j | j in stored ensures Ahead(j, x) {
            if j != after { LeftOutIsBehind(ever, n, x, j); } else { AheadIsTotal(x, after); }
          }
          NotLatest(all, n, x, stored);
        } else if x in stored {
          forall r | r in all && r !in stored ensures !Ahead(r, x) {
            if x != after { LeftOutIsBehind(ever, n, r, x); }
          }
          SameCount(stored, all, x);
        }
      }
    }
  }

  lemma AheadIsTotal(a: Key, b: Key)
    ensures a == b || Ahead(a, b) || Ahead(b, a)
  {
  }

  // A completion time that does not move earlier never lets a pruned run ahead.
  lemma LaterStaysAhead(ever: set<Key>, n: nat, before: Key, after: Key)
    requires before in Latest(ever, n)
    requires after.id == before.id && after.start == before.start && after.end >= before.end
    ensures forall r | r in ever && r !in Latest(ever, n) :: !Ahead(r, after)
  {
    forall r | r in ever && r !in Latest(ever, n) ensures !Ahead(r, after) {
      LeftOutIsBehind(ever, n, r, before);
    }
  }
}
