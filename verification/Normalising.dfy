/**
 The canonical form of a usage snapshot (FlightRecorderService.UsageImports.cs):
 lower-case identifiers, trimmed models, UTC timestamps, ordered by identifier.
 */
module Normalising {
  import opened Results
  import opened Text
  import opened Totals
  import opened UsageImports

  function NormaliseOne(o: UsageObservation): UsageObservation {
    o.(id := Lower(o.id),
       model := if o.model.Some? then Some(Trim(o.model.value)) else None,
       timestamp := if o.timestamp.Some? then Some(o.timestamp.value.ToUniversalTime()) else None)
  }

  function NormaliseEach(observations: seq<UsageObservation>): (r: seq<UsageObservation>)
    ensures |r| == |observations|
    ensures forall i | 0 <= i < |r| :: r[i] == NormaliseOne(observations[i])
  {
    seq(|observations|, i requires 0 <= i < |observations| => NormaliseOne(observations[i]))
  }

  ghost predicate Sorted(observations: seq<UsageObservation>) {
    forall i, j | 0 <= i < j < |observations| :: !Before(observations[j].id, observations[i].id)
  }

  ghost predicate StrictlySorted(observations: seq<UsageObservation>) {
    forall i, j | 0 <= i < j < |observations| :: Before(observations[i].id, observations[j].id)
  }

  // Enumerable.OrderBy by identifier, a stable sort.
  function Insert(o: UsageObservation, sorted: seq<UsageObservation>): (r: seq<UsageObservation>)
    ensures multiset(r) == multiset(sorted) + multiset{o}
    ensures |r| == |sorted| + 1
  {
    if sorted == [] then [o]
    else if Before(o.id, sorted[0].id) then [o] + sorted
    else
      assert sorted == [sorted[0]] + sorted[1..];
      [sorted[0]] + Insert(o, sorted[1..])
  }

  function OrderById(observations: seq<UsageObservation>): (r: seq<UsageObservation>)
    ensures multiset(r) == multiset(observations)
    ensures |r| == |observations|
  {
    if observations == [] then []
    else
      assert observations == observations[..|observations| - 1] + [observations[|observations| - 1]];
      Insert(observations[|observations| - 1], OrderById(observations[..|observations| - 1]))
  }

  function Normalise(observations: seq<UsageObservation>): seq<UsageObservation> {
    OrderById(NormaliseEach(observations))
  }

  lemma {:induction false} InsertKeepsSorted(o: UsageObservation, sorted: seq<UsageObservation>)
    requires Sorted(sorted)
    ensures Sorted(Insert(o, sorted))
  {
    var r := Insert(o, sorted);
    if sorted != [] {
      if Before(o.id, sorted[0].id) {
        forall j | 0 <= j < |sorted| ensures !Before(sorted[j].id, o.id) {
          if Before(sorted[j].id, o.id) {
            BeforeIsTransitive(sorted[j].id, o.id, sorted[0].id);
            BeforeIsTotal(sorted[j].id, sorted[0].id);
          }
        }
      } else {
        InsertKeepsSorted(o, sorted[1..]);
        var rest := Insert(o, sorted[1..]);
        forall j | 0 <= j < |rest| ensures !Before(rest[j].id, sorted[0].id) {
          assert rest[j] in multiset(rest);
          assert rest[j] == o || rest[j] in sorted[1..];
        }
      }
    }
  }

  lemma {:induction false} OrderByIdSorts(observations: seq<UsageObservation>)
    ensures Sorted(OrderById(observations))
  {
    if observations != [] {
      OrderByIdSorts(observations[..|observations| - 1]);
      InsertKeepsSorted(observations[|observations| - 1], OrderById(observations[..|observations| - 1]));
    }
  }

  lemma PermutedDistinct(a: seq<UsageObservation>, b: seq<UsageObservation>)
    requires multiset(a) == multiset(b)
    requires Distinct(Ids(a))
    ensures Distinct(Ids(b))
  {
    forall i, j | 0 <= i < j < |b| ensures Ids(b)[i] != Ids(b)[j] {
      assert b[i] in multiset(a) && b[j] in multiset(a);
      var p :| 0 <= p < |a| && a[p] == b[i];
      var q :| 0 <= q < |a| && a[q] == b[j];
      if b[i] == b[j] {
        TwiceInOrder(b, i, j);
        DistinctIdsOccurOnce(a, b[i]);
      } else if p < q {
        assert Ids(a)[p] != Ids(a)[q];
      } else {
        assert Ids(a)[q] != Ids(a)[p];
      }
    }
  }

  lemma TwiceInOrder(s: seq<UsageObservation>, i: nat, j: nat)
    requires i < j < |s| && s[i] == s[j]
    ensures multiset(s)[s[i]] >= 2
  {
    assert s == s[..i] + [s[i]] + s[i + 1..j] + [s[j]] + s[j + 1..];
  }

  lemma {:induction false} DistinctIdsOccurOnce(s: seq<UsageObservation>, o: UsageObservation)
    requires Distinct(Ids(s))
    ensures multiset(s)[o] <= 1
  {
    if s != [] {
      var init := s[..|s| - 1];
      assert s == init + [s[|s| - 1]];
      assert Ids(init) == Ids(s)[..|s| - 1];
      DistinctIdsOccurOnce(init, o);
      assert forall k | 0 <= k < |init| :: Ids(s)[k] != Ids(s)[|s| - 1];
    }
  }

  // A snapshot the recorder accepts has one canonical form, sorted without ties,
  // and that form is a permutation of its normalised observations.
  lemma NormaliseSorts(observations: seq<UsageObservation>)
    requires DistinctIgnoringCase(Ids(observations))
    ensures StrictlySorted(Normalise(observations))
    ensures Distinct(Ids(Normalise(observations)))
  {
    var each := NormaliseEach(observations);
    var sorted := Normalise(observations);
    OrderByIdSorts(each);
    assert Distinct(Ids(each)) by {
      forall i, j | 0 <= i < j < |each| ensures Ids(each)[i] != Ids(each)[j] {
        assert Lower(Ids(observations)[i]) != Lower(Ids(observations)[j]);
      }
    }
    PermutedDistinct(each, sorted);
    forall i, j | 0 <= i < j < |sorted| ensures Before(sorted[i].id, sorted[j].id) {
      assert Ids(sorted)[i] != Ids(sorted)[j];
      BeforeIsTotal(sorted[i].id, sorted[j].id);
    }
  }

  lemma SortedHeadsAgree(a: seq<UsageObservation>, b: seq<UsageObservation>)
    requires StrictlySorted(a) && StrictlySorted(b) && a != [] && b != []
    requires multiset(a) == multiset(b)
    ensures a[0] == b[0]
  {
    assert a[0] in multiset(b) && b[0] in multiset(a);
    var i :| 0 <= i < |b| && b[i] == a[0];
    var j :| 0 <= j < |a| && a[j] == b[0];
    BeforeIsTotal(a[0].id, b[0].id);
  }

  lemma {:induction false} SortedFormIsUnique(a: seq<UsageObservation>, b: seq<UsageObservation>)
    requires StrictlySorted(a) && StrictlySorted(b)
    requires multiset(a) == multiset(b)
    ensures a == b
  {
    if a == [] {
      assert |multiset(b)| == 0;
    } else {
      assert |multiset(b)| == |multiset(a)| == |a|;
      SortedHeadsAgree(a, b);
      MultisetOfTail(a);
      MultisetOfTail(b);
      SortedFormIsUnique(a[1..], b[1..]);
      assert a == [a[0]] + a[1..] && b == [b[0]] + b[1..];
    }
  }

  lemma MultisetOfTail<T>(s: seq<T>)
    requires s != []
    ensures multiset(s[1..]) == multiset(s) - multiset{s[0]}
  {
    assert s == [s[0]] + s[1..];
  }

  // Two ways of writing one observation: the same but for the case of the
  // identifier, the offset of the timestamp and padding around the model.
  ghost predicate SameObservation(a: UsageObservation, b: UsageObservation) {
    && Lower(a.id) == Lower(b.id)
    && SamePaddedText(a.model, b.model)
    && (a.timestamp.Some? <==> b.timestamp.Some?)
    && (a.timestamp.Some? ==> a.timestamp.value.utc == b.timestamp.value.utc)
    && b.(id := a.id, model := a.model, timestamp := a.timestamp) == a
  }

  ghost predicate SamePaddedText(a: Option<string>, b: Option<string>) {
    && (a.Some? <==> b.Some?)
    && (a.Some? ==> exists left, right, text, left', right' ::
          IsBlank(left) && IsBlank(right) && IsBlank(left') && IsBlank(right')
          && a.value == left + text + right && b.value == left' + text + right')
  }

  lemma SameObservationNormalises(a: UsageObservation, b: UsageObservation)
    requires SameObservation(a, b)
    ensures NormaliseOne(a) == NormaliseOne(b)
  {
    if a.model.Some? {
      var left, right, text, left', right' :|
        IsBlank(left) && IsBlank(right) && IsBlank(left') && IsBlank(right')
        && a.model.value == left + text + right && b.model.value == left' + text + right';
      TrimIgnoresPadding(left, text, right);
      TrimIgnoresPadding(left', text, right');
    }
  }

  // Import is canonical: reordering the observations and rewriting each of them
  // leaves the normalised snapshot, and so its fingerprint, the same.
  lemma NormaliseIsCanonical(a: seq<UsageObservation>, b: seq<UsageObservation>, shuffled: seq<UsageObservation>)
    requires DistinctIgnoringCase(Ids(a))
    requires multiset(shuffled) == multiset(a)
    requires |b| == |shuffled| && forall i | 0 <= i < |b| :: SameObservation(shuffled[i], b[i])
    ensures DistinctIgnoringCase(Ids(b))
    ensures Normalise(a) == Normalise(b)
  {
    var each := NormaliseEach(shuffled);
    forall i | 0 <= i < |b| ensures NormaliseEach(b)[i] == each[i] {
      SameObservationNormalises(shuffled[i], b[i]);
    }
    assert NormaliseEach(b) == each;
    NormaliseEachPermutes(a, shuffled);
    var lowered := NormaliseEach(a);
    assert Distinct(Ids(lowered)) by {
      forall i, j | 0 <= i < j < |a| ensures Ids(lowered)[i] != Ids(lowered)[j] {
        assert Lower(Ids(a)[i]) != Lower(Ids(a)[j]);
      }
    }
    PermutedDistinct(lowered, each);
    forall i, j | 0 <= i < j < |b| ensures Lower(Ids(b)[i]) != Lower(Ids(b)[j]) {
      assert Ids(each)[i] != Ids(each)[j];
    }
    NormaliseSorts(a);
    NormaliseSorts(b);
    SortedFormIsUnique(Normalise(a), Normalise(b));
  }

  lemma {:induction false} NormaliseEachPermutes(a: seq<UsageObservation>, b: seq<UsageObservation>)
    requires multiset(a) == multiset(b)
    ensures multiset(NormaliseEach(a)) == multiset(NormaliseEach(b))
    decreases |a|
  {
    if a == [] {
      assert |multiset(b)| == 0;
    } else {
      var o, rest := a[0], a[1..];
      assert a == [] + [o] + rest && rest == [] + rest;
      assert o in multiset(a) && o in multiset(b);
      var j :| 0 <= j < |b| && b[j] == o;
      var left, right := b[..j], b[j + 1..];
      assert b == left + [o] + right;
      MultisetOfMiddle([], o, rest);
      MultisetOfMiddle(left, o, right);
      NormaliseEachPermutes(rest, left + right);
      SameMiddle([], o, rest, left, right);
    }
  }

  lemma SameMiddle(left: seq<UsageObservation>, o: UsageObservation, right: seq<UsageObservation>,
                   left': seq<UsageObservation>, right': seq<UsageObservation>)
    requires multiset(NormaliseEach(left + right)) == multiset(NormaliseEach(left' + right'))
    ensures multiset(NormaliseEach(left + [o] + right)) == multiset(NormaliseEach(left' + [o] + right'))
  {
    NormaliseEachOfMiddle(left, o, right);
    NormaliseEachOfMiddle(left', o, right');
  }

  lemma MultisetOfMiddle<T>(left: seq<T>, o: T, right: seq<T>)
    ensures multiset(left + [o] + right) == multiset{o} + multiset(left + right)
    ensures multiset(left + right) == multiset(left + [o] + right) - multiset{o}
  {
  }

  lemma NormaliseEachOfMiddle(left: seq<UsageObservation>, o: UsageObservation, right: seq<UsageObservation>)
    ensures multiset(NormaliseEach(left + [o] + right)) ==
            multiset{NormaliseOne(o)} + multiset(NormaliseEach(left + right))
  {
    NormaliseEachOfConcat(left, right);
    NormaliseEachOfConcat(left + [o], right);
    NormaliseEachOfConcat(left, [o]);
  }

  lemma NormaliseEachOfConcat(a: seq<UsageObservation>, b: seq<UsageObservation>)
    ensures NormaliseEach(a + b) == NormaliseEach(a) + NormaliseEach(b)
  {
  }

  // A snapshot accepted from a client stays acceptable in its canonical form.
  lemma NormaliseKeepsValid(sourceKind: string, observations: seq<UsageObservation>)
    requires ValidObservations(sourceKind, observations)
    ensures ValidObservations(sourceKind, Normalise(observations))
    ensures forall i | 0 <= i < |observations| :: IsLowerHex(Normalise(observations)[i].id)
    ensures |Normalise(observations)| == |observations|
  {
    var sorted := Normalise(observations);
    var each := NormaliseEach(observations);
    forall i | 0 <= i < |sorted|
      ensures IsHash(sorted[i].id) && IsLowerHex(sorted[i].id) && ValidObservation(sourceKind, sorted[i])
    {
      assert sorted[i] in multiset(each);
      var k :| 0 <= k < |each| && each[k] == sorted[i];
      LowerHash(observations[k].id);
      NormaliseOneKeepsValid(sourceKind, observations[k]);
    }
    NormaliseSorts(observations);
    forall i, j | 0 <= i < j < |sorted| ensures Lower(Ids(sorted)[i]) != Lower(Ids(sorted)[j]) {
      LowerFixesLowerHex(sorted[i].id);
      LowerFixesLowerHex(sorted[j].id);
      assert Ids(sorted)[i] != Ids(sorted)[j];
    }
  }

  lemma NormaliseOneKeepsValid(sourceKind: string, o: UsageObservation)
    requires ValidObservation(sourceKind, o)
    ensures ValidObservation(sourceKind, NormaliseOne(o))
  {
    if o.model.Some? {
      TrimIsInfix(o.model.value);
    }
  }
}
